/** A region: the unit of territory, income and attack. Its on-screen
    position and its UUID are presentation/identity only and are not kept. */
module Regions {
  import opened Common

  /** Number of regions every country starts with. */
  const RegionsPerCountry: nat := 5

  /** Income of one alive region per round. */
  const RegionIncome: nat := 10

  datatype Region = Region(isDestroyed: bool, hasAirDefense: bool)
  {
    /** The invariant every region mutation keeps: a destroyed region
        carries no air defense. */
    predicate Valid() {
      isDestroyed ==> !hasAirDefense
    }

    function Income(): (r: nat)
      ensures r == RegionIncome <==> !isDestroyed
      ensures r == 0 <==> isDestroyed
    {
      if isDestroyed then 0 else RegionIncome
    }

    function Destroy(): (r: Region)
      ensures r.isDestroyed && !r.hasAirDefense
      ensures r.Valid()
    {
      Region(true, false)
    }

    /** A no-op on a destroyed or already defended region. */
    function AddAirDefense(): (r: Region)
      ensures isDestroyed || hasAirDefense ==> r == this
      ensures !isDestroyed && !hasAirDefense ==> r.hasAirDefense && r.isDestroyed == isDestroyed
      ensures Valid() ==> r.Valid()
    {
      if isDestroyed || hasAirDefense then this else this.(hasAirDefense := true)
    }

    /** Uses up the one-shot air defense; reports whether there was one. */
    function ConsumeAirDefense(): (r: Attempt<Region>)
      ensures r.succeeded <==> hasAirDefense
      ensures !r.state.hasAirDefense
      ensures r.state.isDestroyed == isDestroyed
      ensures Valid() ==> r.state.Valid()
    {
      if !hasAirDefense then Attempt(false, this)
      else Attempt(true, this.(hasAirDefense := false))
    }

    predicate CanBuyAirDefense() {
      !isDestroyed && !hasAirDefense
    }
  }

  /** A fresh region: alive and undefended. */
  const NewRegion: Region := Region(false, false)

  /** `Region.createRegions(for:)`: the starting regions of one country. */
  function CreateRegions(): (rs: seq<Region>)
    ensures |rs| == RegionsPerCountry
    ensures forall i :: 0 <= i < |rs| ==> rs[i] == NewRegion
  {
    [NewRegion, NewRegion, NewRegion, NewRegion, NewRegion]
  }

  lemma DestroyIdempotent(g: Region)
    ensures g.Destroy().Destroy() == g.Destroy()
  {
  }

  /** `canBuyAirDefense` is exactly the condition under which
      `addAirDefense` changes the region. */
  lemma CanBuyAirDefenseIffAddChanges(g: Region)
    ensures g.CanBuyAirDefense() <==> g.AddAirDefense() != g
    ensures g.CanBuyAirDefense() <==> g.AddAirDefense().hasAirDefense && !g.hasAirDefense
  {
  }
}
