/** A country: an ordered list of regions, a name and a stable country index.
    The UUID is dropped; the country index is the join key. */
module Countries {
  import opened Common
  import opened Regions

  datatype Country = Country(regions: seq<Region>, name: string, countryIndex: nat)
  {
    /** Every region keeps the "destroyed implies undefended" invariant. */
    predicate Valid() {
      forall i :: 0 <= i < |regions| ==> regions[i].Valid()
    }

    /** `totalIncome`: the sum of the regions' incomes. */
    function TotalIncome(): nat {
      SumIncome(regions)
    }

    /** `aliveRegionsCount`: the number of regions not destroyed. */
    function AliveRegionsCount(): nat {
      AliveCount(regions)
    }

    predicate IsDestroyed() {
      AliveRegionsCount() == 0
    }

    /** Out-of-range indices leave the country unchanged. */
    function DestroyRegion(index: nat): (c: Country)
      ensures |c.regions| == |regions| && c.name == name && c.countryIndex == countryIndex
      ensures index >= |regions| ==> c == this
      ensures index < |regions| ==> c.regions == regions[index := regions[index].Destroy()]
    {
      if index < |regions| then this.(regions := regions[index := regions[index].Destroy()])
      else this
    }

    function CanBuyAirDefenseAt(index: nat): bool {
      index < |regions| && regions[index].CanBuyAirDefense()
    }

    /** `addAirDefenseToRegion(at:)`: arms the region only when it is in
        range, alive and undefended, and reports whether it did. */
    function AddAirDefenseToRegion(index: nat): (r: Attempt<Country>)
      ensures r.succeeded <==> CanBuyAirDefenseAt(index)
      ensures !r.succeeded ==> r.state == this
      ensures r.succeeded ==> r.state == this.(regions := regions[index := Region(false, true)])
    {
      if index >= |regions| then Attempt(false, this)
      else if !regions[index].CanBuyAirDefense() then Attempt(false, this)
      else Attempt(true, this.(regions := regions[index := regions[index].AddAirDefense()]))
    }

    /** `consumeAirDefense(at:)`: out-of-range indices report false and change nothing. */
    function ConsumeAirDefense(index: nat): (r: Attempt<Country>)
      ensures index >= |regions| ==> r == Attempt(false, this)
      ensures index < |regions| ==> r.succeeded == regions[index].hasAirDefense
      ensures index < |regions| ==> r.state == this.(regions := regions[index := regions[index].ConsumeAirDefense().state])
    {
      if index >= |regions| then Attempt(false, this)
      else
        var a := regions[index].ConsumeAirDefense();
        Attempt(a.succeeded, this.(regions := regions[index := a.state]))
    }
  }

  function SumIncome(rs: seq<Region>): nat
  {
    if |rs| == 0 then 0 else SumIncome(rs[..|rs| - 1]) + rs[|rs| - 1].Income()
  }

  function AliveCount(rs: seq<Region>): (n: nat)
    ensures n <= |rs|
  {
    if |rs| == 0 then 0 else AliveCount(rs[..|rs| - 1]) + (if rs[|rs| - 1].isDestroyed then 0 else 1)
  }

  /** `Country(name:countryIndex:)`: five fresh regions. */
  function NewCountry(name: string, countryIndex: nat): (c: Country)
    ensures c.countryIndex == countryIndex && c.name == name
    ensures |c.regions| == RegionsPerCountry && c.Valid()
    ensures c.AliveRegionsCount() == RegionsPerCountry
  {
    var c := Country(CreateRegions(), name, countryIndex);
    AliveCountAllAlive(c.regions);
    c
  }

  const USA := "USA"
  const Iran := "Iran"
  const China := "China"
  const NorthKorea := "North Korea"

  /** The four canonical nations, in country-index order. */
  function CreateDefaultCountries(): (cs: seq<Country>)
    ensures |cs| == 4
    ensures forall i :: 0 <= i < |cs| ==> cs[i].countryIndex == i && cs[i] == NewCountry(cs[i].name, i)
  {
    [NewCountry(USA, 0), NewCountry(Iran, 1), NewCountry(China, 2), NewCountry(NorthKorea, 3)]
  }

  /** The country indices taking part in a match against `opponentCount` AIs. */
  function RosterIndices(opponentCount: int): seq<nat>
  {
    if opponentCount == 1 then [0, 3]
    else if opponentCount == 2 then [0, 1, 3]
    else [0, 1, 2, 3]
  }

  /** `createCountries(for:)`. */
  function CreateCountries(opponentCount: int): (cs: seq<Country>)
    ensures 1 <= opponentCount <= 3 ==> |cs| == opponentCount + 1
    ensures !(1 <= opponentCount <= 3) ==> cs == CreateDefaultCountries()
    ensures cs[0].countryIndex == 0 && cs[0].name == USA
    ensures cs[|cs| - 1].countryIndex == 3 && cs[|cs| - 1].name == NorthKorea
    ensures forall i :: 0 <= i < |cs| ==> cs[i] == NewCountry(cs[i].name, cs[i].countryIndex)
  {
    if opponentCount == 1 then [NewCountry(USA, 0), NewCountry(NorthKorea, 3)]
    else if opponentCount == 2 then [NewCountry(USA, 0), NewCountry(Iran, 1), NewCountry(NorthKorea, 3)]
    else if opponentCount == 3 then CreateDefaultCountries()
    else CreateDefaultCountries()
  }

  /** The country indices of `createCountries(for:)` are the match roster. */
  lemma CreateCountriesIndices(opponentCount: int)
    ensures var cs := CreateCountries(opponentCount);
            |cs| == |RosterIndices(opponentCount)| &&
            forall i :: 0 <= i < |cs| ==> cs[i].countryIndex == RosterIndices(opponentCount)[i]
  {
  }

  lemma {:induction false} AliveCountAllAlive(rs: seq<Region>)
    requires forall i :: 0 <= i < |rs| ==> !rs[i].isDestroyed
    ensures AliveCount(rs) == |rs|
  {
    if |rs| > 0 {
      AliveCountAllAlive(rs[..|rs| - 1]);
    }
  }

  /** Income conservation: ten coins per alive region. */
  lemma {:induction false} SumIncomeIsTenPerAlive(rs: seq<Region>)
    ensures SumIncome(rs) == RegionIncome * AliveCount(rs)
  {
    if |rs| > 0 {
      SumIncomeIsTenPerAlive(rs[..|rs| - 1]);
    }
  }

  lemma TotalIncomeIsTenPerAliveRegion(c: Country)
    ensures c.TotalIncome() == RegionIncome * c.AliveRegionsCount()
    ensures c.IsDestroyed() <==> c.TotalIncome() == 0
  {
    SumIncomeIsTenPerAlive(c.regions);
  }

  /** Replacing one region by one that is destroyed whenever the old one was
      never raises the alive count. */
  lemma {:induction false} AliveCountUpdate(rs: seq<Region>, i: nat, g: Region)
    requires i < |rs|
    requires rs[i].isDestroyed ==> g.isDestroyed
    ensures AliveCount(rs[i := g]) <= AliveCount(rs)
    ensures g.isDestroyed == rs[i].isDestroyed ==> AliveCount(rs[i := g]) == AliveCount(rs)
  {
    var n := |rs| - 1;
    if i < n {
      assert rs[i := g][..n] == rs[..n][i := g];
      AliveCountUpdate(rs[..n], i, g);
    } else {
      assert rs[i := g][..n] == rs[..n];
    }
  }

  /** No country mutation revives a region. */
  lemma AliveNeverIncreases(c: Country, index: nat)
    ensures c.DestroyRegion(index).AliveRegionsCount() <= c.AliveRegionsCount()
    ensures c.AddAirDefenseToRegion(index).state.AliveRegionsCount() == c.AliveRegionsCount()
    ensures c.ConsumeAirDefense(index).state.AliveRegionsCount() == c.AliveRegionsCount()
  {
    if index < |c.regions| {
      AliveCountUpdate(c.regions, index, c.regions[index].Destroy());
      AliveCountUpdate(c.regions, index, c.regions[index].AddAirDefense());
      AliveCountUpdate(c.regions, index, c.regions[index].ConsumeAirDefense().state);
    }
  }

  /** Every country mutation keeps the region invariant. */
  lemma MutationsPreserveValid(c: Country, index: nat)
    requires c.Valid()
    ensures c.DestroyRegion(index).Valid()
    ensures c.AddAirDefenseToRegion(index).state.Valid()
    ensures c.ConsumeAirDefense(index).state.Valid()
  {
  }

  /** Destroying a region leaves every other region as it was. */
  lemma DestroyRegionIsLocal(c: Country, index: nat, j: nat)
    requires j < |c.regions| && j != index
    ensures c.DestroyRegion(index).regions[j] == c.regions[j]
  {
  }
}
