/** The board's drawing tables: which shapes belong to which country, and a
    level's regions grouped by country. Positions and sizes are dropped. */
module RegionShapes {
  import opened Common

  datatype RegionShape =
    | Usa1 | Usa2 | Usa3 | Usa4 | Usa5
    | Iran1 | Iran2 | Iran3 | Iran4 | Iran5
    | China1 | China2 | China3 | China4 | China5
    | Nk1 | Nk2 | Nk3 | Nk4 | Nk5

  datatype CountryType = Usa | Iran | China | NorthKorea
  {
    /** The country's index in the match's country list. */
    function CountryIndex(): (i: nat)
      ensures i < 4
    {
      match this
      case Usa => 0
      case Iran => 1
      case China => 2
      case NorthKorea => 3
    }

    /** `isPlayerControlled`: the human always plays the USA. */
    predicate IsPlayerControlled() {
      this == Usa
    }
  }

  /** The country at an index of the country list, the inverse of
      `countryIndex`. */
  function CountryAt(i: nat): (r: Option<CountryType>)
    ensures r.Some? <==> i < 4
  {
    if i == 0 then Some(Usa)
    else if i == 1 then Some(Iran)
    else if i == 2 then Some(China)
    else if i == 3 then Some(NorthKorea)
    else None
  }

  /** `countryIndex` is a bijection onto 0 to 3, and the player-controlled
      country is the one at index 0. */
  lemma CountryIndexBijective(c: CountryType, i: nat)
    ensures CountryAt(c.CountryIndex()) == Some(c)
    ensures CountryAt(i).Some? ==> CountryAt(i).value.CountryIndex() == i
    ensures c.IsPlayerControlled() <==> c.CountryIndex() == 0
  {
  }

  /** `shapesForCountry`: the country's five shapes. */
  function ShapesForCountry(c: CountryType): (r: seq<RegionShape>)
    ensures |r| == 5
  {
    match c
    case Usa => [Usa1, Usa2, Usa3, Usa4, Usa5]
    case Iran => [Iran1, Iran2, Iran3, Iran4, Iran5]
    case China => [China1, China2, China3, China4, China5]
    case NorthKorea => [Nk1, Nk2, Nk3, Nk4, Nk5]
  }

  /** The country a shape is drawn for, read off its name. */
  function OwnerOf(s: RegionShape): CountryType
  {
    match s
    case Usa1 => Usa case Usa2 => Usa case Usa3 => Usa case Usa4 => Usa case Usa5 => Usa
    case Iran1 => Iran case Iran2 => Iran case Iran3 => Iran case Iran4 => Iran case Iran5 => Iran
    case China1 => China case China2 => China case China3 => China case China4 => China case China5 => China
    case Nk1 => NorthKorea case Nk2 => NorthKorea case Nk3 => NorthKorea case Nk4 => NorthKorea case Nk5 => NorthKorea
  }

  /** Each country gets five distinct shapes, all of its own, so no shape
      is shared by two countries. */
  lemma ShapesPartitioned(c: CountryType, d: CountryType)
    ensures forall i, j :: 0 <= i < j < 5 ==> ShapesForCountry(c)[i] != ShapesForCountry(c)[j]
    ensures forall s :: s in ShapesForCountry(c) <==> OwnerOf(s) == c
    ensures c != d ==> forall s :: s in ShapesForCountry(c) ==> s !in ShapesForCountry(d)
  {
    forall s ensures s in ShapesForCountry(c) <==> OwnerOf(s) == c {
      ShapeMembership(s, c);
    }
  }

  lemma ShapeMembership(s: RegionShape, c: CountryType)
    ensures s in ShapesForCountry(c) <==> OwnerOf(s) == c
  {
    OwnShapes(c);
    OwnerHasShape(s);
  }

  lemma OwnShapes(c: CountryType)
    ensures forall i :: 0 <= i < 5 ==> OwnerOf(ShapesForCountry(c)[i]) == c
  {
  }

  lemma OwnerHasShape(s: RegionShape)
    ensures s in ShapesForCountry(OwnerOf(s))
  {
  }

  /** A region of a level's layout, without its geometry. */
  datatype RegionDefinition = RegionDefinition(shape: RegionShape, country: CountryType)

  /** The regions of one country, in their order in the layout. */
  function Filter(rs: seq<RegionDefinition>, c: CountryType): (r: seq<RegionDefinition>)
    ensures |r| <= |rs|
    decreases |rs|
  {
    if |rs| == 0 then []
    else (if rs[0].country == c then [rs[0]] else []) + Filter(rs[1..], c)
  }

  /** The filter keeps exactly the country's regions. */
  lemma {:induction false} FilterMembers(rs: seq<RegionDefinition>, c: CountryType)
    ensures forall x :: x in Filter(rs, c) <==> x in rs && x.country == c
    ensures (forall x :: x in rs ==> x.country != c) ==> Filter(rs, c) == []
    decreases |rs|
  {
    if |rs| > 0 {
      FilterMembers(rs[1..], c);
      assert rs == [rs[0]] + rs[1..];
    }
  }

  lemma {:induction false} FilterAppend(rs: seq<RegionDefinition>, x: RegionDefinition, c: CountryType)
    ensures Filter(rs + [x], c) == Filter(rs, c) + (if x.country == c then [x] else [])
    decreases |rs|
  {
    var tail := if x.country == c then [x] else [];
    if |rs| == 0 {
      assert rs + [x] == [x];
      assert Filter([x], c) == tail + Filter([], c);
    } else {
      var head := if rs[0].country == c then [rs[0]] else [];
      SnocSplit(rs, x);
      assert Filter(rs + [x], c) == head + Filter(rs[1..] + [x], c);
      FilterAppend(rs[1..], x, c);
      Associate(head, Filter(rs[1..], c), tail);
    }
  }

  lemma SnocSplit<T>(s: seq<T>, x: T)
    requires |s| > 0
    ensures (s + [x])[0] == s[0] && (s + [x])[1..] == s[1..] + [x]
  {
  }

  /** `regionsByCountry`: the layout walked in order, each region appended
      to its country's list. */
  function RegionsByCountry(rs: seq<RegionDefinition>): (m: map<CountryType, seq<RegionDefinition>>)
    decreases |rs|
  {
    if |rs| == 0 then map[]
    else
      var prev := RegionsByCountry(rs[..|rs| - 1]);
      var x := rs[|rs| - 1];
      var list := if x.country in prev then prev[x.country] else [];
      prev[x.country := list + [x]]
  }

  /** A country has an entry exactly when some region belongs to it, and
      the entry lists exactly its regions in layout order. */
  lemma {:induction false} RegionsByCountryIsFilter(rs: seq<RegionDefinition>, c: CountryType)
    ensures c in RegionsByCountry(rs) <==> exists x :: x in rs && x.country == c
    ensures c in RegionsByCountry(rs) ==> RegionsByCountry(rs)[c] == Filter(rs, c)
    decreases |rs|
  {
    if |rs| > 0 {
      var init, x := rs[..|rs| - 1], rs[|rs| - 1];
      assert rs == init + [x];
      RegionsByCountryIsFilter(init, c);
      FilterAppend(init, x, c);
      FilterMembers(init, c);
    }
  }

  /** `getRegionsForCountry`: the country's list, empty when it has none. */
  function GetRegionsForCountry(rs: seq<RegionDefinition>, c: CountryType): (r: seq<RegionDefinition>)
    ensures r == Filter(rs, c)
    ensures (forall x :: x in rs ==> x.country != c) ==> r == []
  {
    RegionsByCountryIsFilter(rs, c);
    FilterMembers(rs, c);
    if c in RegionsByCountry(rs) then RegionsByCountry(rs)[c]
    else []
  }
}
