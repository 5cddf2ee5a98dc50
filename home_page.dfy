/** The listing of `src/app/page.tsx`: the featured cats, the city filter and
    the count line above the grid. */
module HomePage {
  import opened Wrappers
  import opened Text
  import opened CatTypes

  predicate IsFeatured(cat: Cat) {
    cat.featured == Some(true)
  }

  /** `mockCats.filter((cat) => cat.featured)`. */
  function FeaturedCats(cats: seq<Cat>): (r: seq<Cat>)
    ensures |r| <= |cats|
  {
    Filter(cats, IsFeatured)
  }

  /** `(cat) => cat.location.city === city`. */
  function InCity(city: string): Cat -> bool {
    (cat: Cat) => cat.location.city == city
  }

  /** `allCats`: every cat while no city is chosen (an empty string is falsy),
      otherwise `mockCats.filter((cat) => cat.location.city === filteredCity)`. */
  function VisibleCats(cats: seq<Cat>, filteredCity: string): (r: seq<Cat>)
    ensures |r| <= |cats|
    ensures filteredCity == "" ==> r == cats
  {
    if filteredCity != "" then Filter(cats, InCity(filteredCity)) else cats
  }

  /** A chosen city lists a cat exactly when it is one of the cats and lives there. */
  lemma VisibleCatsMembers(cats: seq<Cat>, city: string, c: Cat)
    requires city != ""
    ensures c in VisibleCats(cats, city) <==> c in cats && c.location.city == city
  {
    FilterMembers(cats, InCity(city), c);
  }

  /** The city listing keeps the original order: listing a concatenation lists
      each part in turn. */
  lemma VisibleCatsConcat(cats: seq<Cat>, more: seq<Cat>, city: string)
    requires city != ""
    ensures VisibleCats(cats + more, city) == VisibleCats(cats, city) + VisibleCats(more, city)
  {
    FilterConcat(cats, more, InCity(city));
  }

  /** The featured row holds a cat exactly when it is one of the cats and is
      marked featured. */
  lemma FeaturedCatsMembers(cats: seq<Cat>, c: Cat)
    ensures c in FeaturedCats(cats) <==> c in cats && IsFeatured(c)
  {
    FilterMembers(cats, IsFeatured, c);
  }

  /** The featured row keeps the original order. */
  lemma FeaturedCatsConcat(cats: seq<Cat>, more: seq<Cat>)
    ensures FeaturedCats(cats + more) == FeaturedCats(cats) + FeaturedCats(more)
  {
    FilterConcat(cats, more, IsFeatured);
  }

  /** `{n} gatinho{s} disponive{is|l} para adocao`. */
  function CountLabel(n: nat): string {
    Decimal(n) + " gatinho" + (if n != 1 then "s" else "") + " disponive" + (if n != 1 then "is" else "l")
    + " para adocao"
  }

  lemma CountLabelSingular()
    ensures CountLabel(1) == "1 gatinho disponivel para adocao"
  {
  }

  /** Any count other than one takes both plural endings. */
  lemma CountLabelPlural(n: nat)
    requires n != 1
    ensures CountLabel(n) == Decimal(n) + " gatinhos disponiveis para adocao"
  {
  }

  /** The label starts with the count written out in decimal. */
  lemma CountLabelStartsWithCount(n: nat)
    ensures DecimalValue(CountLabel(n)[..|Decimal(n)|]) == n
  {
    DecimalRoundTrip(n);
    assert CountLabel(n)[..|Decimal(n)|] == Decimal(n);
  }

  /** The page's one piece of state, the chosen city, over the fixed list of cats. */
  class Home {
    const mockCats: seq<Cat>
    var filteredCity: string

    constructor (mockCats: seq<Cat>)
      ensures this.mockCats == mockCats && filteredCity == ""
    {
      this.mockCats := mockCats;
      filteredCity := "";
    }

    function AllCats(): seq<Cat>
      reads this
    {
      VisibleCats(mockCats, filteredCity)
    }

    /** The "nothing found" block replaces the grid exactly when no cat is listed. */
    predicate ShowsEmptyState()
      reads this
    {
      |AllCats()| == 0
    }

    /** `handleSearch`: choose a city (scrolling to the grid is left out). */
    method HandleSearch(city: string)
      modifies this
      ensures filteredCity == city
      ensures AllCats() == VisibleCats(mockCats, city)
    {
      filteredCity := city;
    }

    /** Both "Limpar filtro" and "Ver todos os gatinhos" clear the city. */
    method ClearFilter()
      modifies this
      ensures filteredCity == "" && AllCats() == mockCats
    {
      filteredCity := "";
    }
  }

  /** With a city chosen, the empty state shows exactly when no cat is from there. */
  lemma EmptyStateIffNoCatInCity(home: Home)
    requires home.filteredCity != ""
    ensures home.ShowsEmptyState() <==>
      forall i :: 0 <= i < |home.mockCats| ==> home.mockCats[i].location.city != home.filteredCity
  {
    FilterLength(home.mockCats, InCity(home.filteredCity));
    CountZero(home.mockCats, InCity(home.filteredCity));
  }
}
