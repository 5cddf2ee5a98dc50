/** The list operations of the photo picker in
    `src/components/forms/ImageUpload.tsx`. The component holds no list of its
    own: each operation computes the new list and hands it to `onChange`, so
    each is modelled as a value computation whose result is what `onChange`
    receives (None when it is not called). */
module ImageUpload {
  import opened Wrappers
  import opened Text

  /** The photo shown with the "Principal" badge and used as the cover. */
  function Cover(images: seq<string>): (r: Option<string>)
    ensures r.Some? <==> |images| > 0
  {
    if |images| == 0 then None else Some(images[0])
  }

  // ---------------------------------------------------------------- removeImage

  /** `removeImage(index)`: `images.filter((_, i) => i !== index)`, keeping
      each position whose index differs from `index`. */
  function RemoveImage(images: seq<string>, index: int): (r: seq<string>)
    ensures |r| == if 0 <= index < |images| then |images| - 1 else |images|
  {
    if images == [] then []
    else
      var last := |images| - 1;
      RemoveImage(images[..last], index) + (if last != index then [images[last]] else [])
  }

  /** Removing drops exactly the element at `index` and keeps the rest in
      order; an index outside the list changes nothing. */
  lemma {:induction false} RemoveImageDropsOne(images: seq<string>, index: int)
    ensures 0 <= index < |images| ==> RemoveImage(images, index) == images[..index] + images[index + 1..]
    ensures !(0 <= index < |images|) ==> RemoveImage(images, index) == images
  {
    if images != [] {
      var last := |images| - 1;
      RemoveImageDropsOne(images[..last], index);
      if index == last {
        assert images[..index] + images[index + 1..] == images[..last];
      } else if 0 <= index < last {
        assert images[..last][..index] == images[..index];
        assert images[..last][index + 1..] + [images[last]] == images[index + 1..];
      } else {
        assert images[..last] + [images[last]] == images;
      }
    }
  }

  /** Removing the cover promotes the second photo to cover. */
  lemma RemoveCoverPromotesNext(images: seq<string>)
    requires |images| >= 2
    ensures Cover(RemoveImage(images, 0)) == Some(images[1])
  {
    RemoveImageDropsOne(images, 0);
  }

  // ------------------------------------------------------------------ moveImage

  /** Where every photo ends up when the one at `from` is relocated to `to`:
      it lands at `to`, the photos between the two positions shift one place
      toward `from`, and all others stay put. */
  function Relocated(s: seq<string>, from: nat, to: nat): (r: seq<string>)
    requires from < |s| && to < |s|
    ensures |r| == |s| && r[to] == s[from]
  {
    seq(|s|, k requires 0 <= k < |s| =>
      if k == to then s[from]
      else if from <= k < to then s[k + 1]
      else if to < k <= from then s[k - 1]
      else s[k])
  }

  /** `moveImage(from, to)`: copy the list, take the element out at `from`
      with one `splice`, put it back at `to` with another. Returns None when
      the guard `to < 0 || to >= images.length` returns early. */
  method MoveImage(images: seq<string>, from: int, to: int) returns (emitted: Option<seq<string>>)
    requires 0 <= from < |images|
    ensures emitted.None? <==> (to < 0 || to >= |images|)
    ensures emitted.Some? ==> emitted.value == Relocated(images, from, to)
  {
    if to < 0 || to >= |images| {
      return None;
    }
    var newImages := images;
    var removed := newImages[from];
    newImages := newImages[..from] + newImages[from + 1..];
    newImages := newImages[..to] + [removed] + newImages[to..];
    assert forall k :: 0 <= k < |images| ==> newImages[k] == Relocated(images, from, to)[k];
    emitted := Some(newImages);
  }

  /** Relocating is a permutation: the same photos, each as often. */
  lemma RelocatedPermutes(s: seq<string>, from: nat, to: nat)
    requires from < |s| && to < |s|
    ensures multiset(Relocated(s, from, to)) == multiset(s)
  {
    var r := Relocated(s, from, to);
    var rest := s[..from] + s[from + 1..];
    assert s == s[..from] + [s[from]] + s[from + 1..];
    assert r == rest[..to] + [s[from]] + rest[to..];
    calc {
      multiset(r);
      multiset(rest[..to]) + multiset{s[from]} + multiset(rest[to..]);
      { assert rest == rest[..to] + rest[to..]; }
      multiset(rest) + multiset{s[from]};
      multiset(s);
    }
  }

  /** The photos other than the moved one keep their relative order. */
  lemma RelocatedKeepsOthersInOrder(s: seq<string>, from: nat, to: nat)
    requires from < |s| && to < |s|
    ensures RemoveImage(Relocated(s, from, to), to) == RemoveImage(s, from)
  {
    var r := Relocated(s, from, to);
    RemoveImageDropsOne(r, to);
    RemoveImageDropsOne(s, from);
    assert r[..to] + r[to + 1..] == s[..from] + s[from + 1..];
  }

  /** The arrow buttons move a photo one place: that swaps two neighbours. */
  lemma MoveLeftSwaps(s: seq<string>, i: nat)
    requires 0 < i < |s|
    ensures Relocated(s, i, i - 1) == s[i - 1 := s[i]][i := s[i - 1]]
  {
  }

  /** Moving a photo left and then right again restores the list. */
  lemma MoveLeftThenRightRestores(s: seq<string>, i: nat)
    requires 0 < i < |s|
    ensures Relocated(Relocated(s, i, i - 1), i - 1, i) == s
  {
    var once := Relocated(s, i, i - 1);
    assert forall k :: 0 <= k < |s| ==> Relocated(once, i - 1, i)[k] == s[k];
  }

  /** Moving a photo to the front makes it the cover. */
  lemma MoveToFrontMakesCover(s: seq<string>, i: nat)
    requires i < |s|
    ensures Cover(Relocated(s, i, 0)) == Some(s[i])
  {
  }

  // ----------------------------------------------------------- handleFileChange

  /** A file offered by the picker or a drop: only its MIME type matters here;
      reading it as a data URL is the `readAsDataURL` parameter. */
  datatype File = File(mimeType: string, name: string)

  /** `file.type.startsWith('image/')`. */
  predicate IsImageFile(f: File) {
    StartsWith(f.mimeType, "image/")
  }

  /** `Array.from(files).slice(0, end)`; JavaScript reads a negative `end` as
      counted back from the length. */
  function SliceFront<T>(s: seq<T>, end: int): (r: seq<T>)
    ensures |r| <= |s| && r == s[..|r|]
    ensures end >= 0 ==> |r| == Min(end, |s|)
  {
    if end >= 0 then s[..Min(end, |s|)] else s[..Max(|s| + end, 0)]
  }

  /** The data URLs of `files`, in the order the files were offered. */
  function Encoded(files: seq<File>, readAsDataURL: File -> string): (r: seq<string>)
    ensures |r| == |files|
    ensures forall i :: 0 <= i < |files| ==> r[i] == readAsDataURL(files[i])
  {
    seq(|files|, i requires 0 <= i < |files| => readAsDataURL(files[i]))
  }

  /** What `handleFileChange` passes to `onChange`, stated directly: when
      there is a free slot and a non-empty file list, and every file that fits
      in the free slots is an image, the existing photos followed by those
      files' data URLs; otherwise `onChange` is never called. */
  function FileChangeResult(images: seq<string>, files: Option<seq<File>>, maxImages: int,
                            readAsDataURL: File -> string): Option<seq<string>>
  {
    match files
    case None => None
    case Some(fs) =>
      var remainingSlots := maxImages - |images|;
      var considered := fs[..Min(Max(remainingSlots, 0), |fs|)];
      if remainingSlots > 0 && |fs| > 0 && forall i :: 0 <= i < |considered| ==> IsImageFile(considered[i])
      then Some(images + Encoded(considered, readAsDataURL))
      else None
  }

  /** `handleFileChange`: walk the files that fit in the free slots, read each
      image file and push its data URL, and call `onChange` once the number
      of data URLs reaches `Math.min(files.length, remainingSlots)`. The reads
      complete here in the order they are started. */
  method HandleFileChange(images: seq<string>, files: Option<seq<File>>, maxImages: int,
                          readAsDataURL: File -> string) returns (emitted: Option<seq<string>>)
    ensures emitted == FileChangeResult(images, files, maxImages, readAsDataURL)
  {
    emitted := None;
    if files.None? {
      return;
    }
    var fs := files.value;
    var newImages: seq<string> := [];
    var remainingSlots := maxImages - |images|;
    var considered := SliceFront(fs, remainingSlots);
    var target := Min(|fs|, remainingSlots);
    var i := 0;
    while i < |considered|
      invariant 0 <= i <= |considered|
      invariant remainingSlots >= 0 ==> target == |considered|
      invariant remainingSlots < 0 ==> target < 0
      invariant newImages == Encoded(Filter(considered[..i], IsImageFile), readAsDataURL)
      invariant emitted == if 0 < i && |newImages| == target then Some(images + newImages) else None
    {
      var file := considered[i];
      PushStep(considered, i, readAsDataURL);
      if IsImageFile(file) {
        newImages := newImages + [readAsDataURL(file)];
        if |newImages| == target {
          emitted := Some(images + newImages);
        }
      }
      i := i + 1;
    }
    assert considered[..i] == considered;
    BatchOutcome(images, fs, maxImages, readAsDataURL);
  }

  /** One pass of the `forEach`: the data URLs pushed so far grow by the
      current file's exactly when it is an image. */
  lemma PushStep(considered: seq<File>, i: nat, readAsDataURL: File -> string)
    requires i < |considered|
    ensures Encoded(Filter(considered[..i + 1], IsImageFile), readAsDataURL)
         == Encoded(Filter(considered[..i], IsImageFile), readAsDataURL)
            + (if IsImageFile(considered[i]) then [readAsDataURL(considered[i])] else [])
    ensures |Filter(considered[..i], IsImageFile)| <= i
  {
    assert considered[..i + 1] == considered[..i] + [considered[i]];
    FilterConcat(considered[..i], [considered[i]], IsImageFile);
  }

  /** After the `forEach`, `onChange` has been called exactly when the loop's
      count reached its target, which is the condition `FileChangeResult`
      states. */
  lemma BatchOutcome(images: seq<string>, fs: seq<File>, maxImages: int, readAsDataURL: File -> string)
    ensures var remainingSlots := maxImages - |images|;
            var considered := SliceFront(fs, remainingSlots);
            var newImages := Encoded(Filter(considered, IsImageFile), readAsDataURL);
            FileChangeResult(images, Some(fs), maxImages, readAsDataURL)
            == if 0 < |considered| && |newImages| == Min(|fs|, remainingSlots)
               then Some(images + newImages) else None
  {
    var remainingSlots := maxImages - |images|;
    var considered := SliceFront(fs, remainingSlots);
    FilterKeepsAll(considered, IsImageFile);
    if remainingSlots > 0 && |fs| > 0 {
      assert considered == fs[..Min(Max(remainingSlots, 0), |fs|)];
      if forall k :: 0 <= k < |considered| ==> IsImageFile(considered[k]) {
        FilterAllPass(considered, IsImageFile);
      }
    }
  }

  /** The list handed to `onChange` never holds more than `maxImages` photos. */
  lemma FileChangeRespectsCapacity(images: seq<string>, files: Option<seq<File>>, maxImages: int,
                                   readAsDataURL: File -> string)
    ensures match FileChangeResult(images, files, maxImages, readAsDataURL)
            case None => true
            case Some(r) => |images| < |r| <= maxImages
  {
  }

  /** The existing photos stay, unchanged and first, and the new ones follow
      in the order the files were offered. */
  lemma FileChangeAppends(images: seq<string>, fs: seq<File>, maxImages: int,
                          readAsDataURL: File -> string)
    requires FileChangeResult(images, Some(fs), maxImages, readAsDataURL).Some?
    ensures var r := FileChangeResult(images, Some(fs), maxImages, readAsDataURL).value;
            r[..|images|] == images
            && forall i :: |images| <= i < |r| ==> r[i] == readAsDataURL(fs[i - |images|])
  {
  }

  /** A non-image file among those that fit means `onChange` is never called. */
  lemma NonImageBlocksChange(images: seq<string>, fs: seq<File>, maxImages: int,
                             readAsDataURL: File -> string, j: nat)
    requires j < |fs| && j < maxImages - |images| && !IsImageFile(fs[j])
    ensures FileChangeResult(images, Some(fs), maxImages, readAsDataURL) == None
  {
  }
}
