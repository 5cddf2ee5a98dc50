/** The photo carousel and like button of `src/components/CatCard.tsx`. */
module CatCardView {
  import opened CatTypes

  /** `(prev + 1) % cat.images.length`: the next photo, wrapping to the first. */
  function NextIndex(i: nat, len: nat): (r: nat)
    requires i < len
    ensures r < len
    ensures r == if i == len - 1 then 0 else i + 1
  {
    (i + 1) % len
  }

  /** `(prev - 1 + cat.images.length) % cat.images.length`: the previous
      photo, wrapping from the first to the last. */
  function PrevIndex(i: nat, len: nat): (r: nat)
    requires i < len
    ensures r < len
    ensures r == if i == 0 then len - 1 else i - 1
  {
    (i - 1 + len) % len
  }

  /** The two arrows undo each other. */
  lemma NextPrevInverse(i: nat, len: nat)
    requires i < len
    ensures PrevIndex(NextIndex(i, len), len) == i
    ensures NextIndex(PrevIndex(i, len), len) == i
  {
  }

  /** The photo reached after `k` presses of the right arrow. */
  function NextTimes(i: nat, len: nat, k: nat): (r: nat)
    requires i < len
    ensures r < len
  {
    if k == 0 then i else NextIndex(NextTimes(i, len, k - 1), len)
  }

  /** Presses of the right arrow add up. */
  lemma {:induction false} NextTimesCompose(i: nat, len: nat, a: nat, b: nat)
    requires i < len
    ensures NextTimes(i, len, a + b) == NextTimes(NextTimes(i, len, a), len, b)
  {
    if b > 0 {
      NextTimesCompose(i, len, a, b - 1);
    }
  }

  /** Before the last photo is passed, `k` presses advance by exactly `k`. */
  lemma {:induction false} NextTimesAdvances(i: nat, len: nat, k: nat)
    requires i + k < len
    ensures NextTimes(i, len, k) == i + k
  {
    if k > 0 {
      NextTimesAdvances(i, len, k - 1);
    }
  }

  /** As many presses of the right arrow as there are photos come back to the start. */
  lemma FullTurnReturns(i: nat, len: nat)
    requires i < len
    ensures NextTimes(i, len, len) == i
  {
    NextTimesAdvances(i, len, len - 1 - i);
    assert NextTimes(i, len, len - i) == 0;
    NextTimesCompose(i, len, len - i, i);
    if i > 0 {
      NextTimesAdvances(0, len, i);
    }
  }

  /** The card's state: the photo on show, the heart, and whether a photo
      failed to load (after which the placeholder is shown for good). */
  class CatCard {
    const cat: Cat
    var currentImage: nat
    var isLiked: bool
    var imageError: bool

    ghost predicate Valid()
      reads this
    {
      currentImage == 0 || currentImage < |cat.images|
    }

    constructor (cat: Cat)
      ensures Valid()
      ensures this.cat == cat && currentImage == 0 && !isLiked && !imageError
    {
      this.cat := cat;
      currentImage := 0;
      isLiked := false;
      imageError := false;
    }

    /** The arrows are rendered only when the cat has more than one photo, so
        they are only ever pressed then. */
    method NextImage()
      requires Valid() && |cat.images| > 1
      modifies this
      ensures Valid()
      ensures currentImage == NextIndex(old(currentImage), |cat.images|)
      ensures isLiked == old(isLiked) && imageError == old(imageError)
    {
      currentImage := (currentImage + 1) % |cat.images|;
    }

    method PrevImage()
      requires Valid() && |cat.images| > 1
      modifies this
      ensures Valid()
      ensures currentImage == PrevIndex(old(currentImage), |cat.images|)
      ensures isLiked == old(isLiked) && imageError == old(imageError)
    {
      currentImage := (currentImage - 1 + |cat.images|) % |cat.images|;
    }

    method ToggleLike()
      modifies this
      ensures isLiked == !old(isLiked)
      ensures currentImage == old(currentImage) && imageError == old(imageError)
    {
      isLiked := !isLiked;
    }

    /** The `onError` handler of the photo. Nothing ever sets the flag back. */
    method OnImageError()
      modifies this
      ensures imageError
      ensures currentImage == old(currentImage) && isLiked == old(isLiked)
    {
      imageError := true;
    }
  }

  /** Two presses of the heart leave it as it was, and browsing photos never
      clears a load error. */
  method LikeTwiceRestores(card: CatCard)
    requires card.Valid() && |card.cat.images| > 1
    modifies card
    ensures card.isLiked == old(card.isLiked)
    ensures old(card.imageError) ==> card.imageError
  {
    card.ToggleLike();
    card.NextImage();
    card.PrevImage();
    card.ToggleLike();
  }
}
