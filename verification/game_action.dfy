/** Turn-action records: purchase intents, attack intents, their outcomes
    and the per-round history entry. UUID ids are dropped. */
module GameActions {
  import opened Common

  datatype GameAction = BuyRocket(regionIndex: nat) | BuyAirDefense(regionIndex: nat) | NoAction

  datatype AttackTarget = AttackTarget(attackerCountryIndex: nat, targetCountryIndex: nat, targetRegionIndex: nat)

  /** `wasSuccessful` is derived from `wasBlocked` at construction. */
  datatype AttackResult = AttackResult(attack: AttackTarget, wasBlocked: bool)
  {
    predicate WasSuccessful() { !wasBlocked }
  }

  /** The per-player accumulator of one round. */
  datatype PlayerTurnActions = PlayerTurnActions(purchaseActions: seq<GameAction>, attackTargets: seq<AttackTarget>)
  {
    function AddPurchaseAction(a: GameAction): (r: PlayerTurnActions)
      ensures r.purchaseActions == purchaseActions + [a]
      ensures r.attackTargets == attackTargets
    {
      this.(purchaseActions := purchaseActions + [a])
    }

    function AddAttackTarget(t: AttackTarget): (r: PlayerTurnActions)
      ensures r.attackTargets == attackTargets + [t]
      ensures r.purchaseActions == purchaseActions
    {
      this.(attackTargets := attackTargets + [t])
    }

    /** Out-of-range indices are ignored; otherwise exactly that target goes. */
    function RemoveAttackTarget(index: nat): (r: PlayerTurnActions)
      ensures r.purchaseActions == purchaseActions
      ensures index >= |attackTargets| ==> r == this
      ensures index < |attackTargets| ==>
                && |r.attackTargets| == |attackTargets| - 1
                && r.attackTargets[..index] == attackTargets[..index]
                && r.attackTargets[index..] == attackTargets[index + 1..]
    {
      if index < |attackTargets| then this.(attackTargets := RemoveAt(attackTargets, index)) else this
    }

    function ClearActions(): (r: PlayerTurnActions)
      ensures !r.HasActions()
    {
      EmptyActions
    }

    predicate HasActions() {
      |purchaseActions| > 0 || |attackTargets| > 0
    }
  }

  const EmptyActions := PlayerTurnActions([], [])

  datatype DestroyedRegion = DestroyedRegion(countryIndex: nat, regionIndex: nat)

  datatype TurnResolution = TurnResolution(roundNumber: int, attackResults: seq<AttackResult>, destroyedRegions: seq<DestroyedRegion>)
  {
    predicate HasDestroyedRegions() {
      |destroyedRegions| > 0
    }

    function SuccessfulAttacks(): (r: seq<AttackResult>)
      ensures forall x :: x in r ==> x in attackResults && x.WasSuccessful()
      ensures forall x :: x in attackResults && x.WasSuccessful() ==> x in r
    {
      FilterBlocked(attackResults, false)
    }

    function BlockedAttacks(): (r: seq<AttackResult>)
      ensures forall x :: x in r ==> x in attackResults && x.wasBlocked
      ensures forall x :: x in attackResults && x.wasBlocked ==> x in r
    {
      FilterBlocked(attackResults, true)
    }
  }

  /** The test `FilterBlocked` keeps a result by. */
  function BlockedIs(blocked: bool): AttackResult -> bool
  {
    (x: AttackResult) => x.wasBlocked == blocked
  }

  /** The results whose `wasBlocked` flag equals `blocked`, in order. */
  function FilterBlocked(rs: seq<AttackResult>, blocked: bool): (r: seq<AttackResult>)
    ensures |r| <= |rs|
    ensures forall x :: x in r <==> x in rs && x.wasBlocked == blocked
    decreases |rs|
  {
    if |rs| == 0 then []
    else
      var n := |rs| - 1;
      FilterBlocked(rs[..n], blocked) + (if rs[n].wasBlocked == blocked then [rs[n]] else [])
  }

  /** The filter keeps the order of the results: it reads them at the
      increasing positions that carry the requested flag. */
  lemma {:induction false} FilterBlockedInOrder(rs: seq<AttackResult>, blocked: bool)
    ensures ReadsAt(rs, Positions(rs, BlockedIs(blocked)), FilterBlocked(rs, blocked))
    decreases |rs|
  {
    if |rs| > 0 {
      var n := |rs| - 1;
      FilterBlockedInOrder(rs[..n], blocked);
      ReadsAtSnoc(rs, BlockedIs(blocked), FilterBlocked(rs[..n], blocked));
    }
  }

  /** Successful and blocked attacks partition the results: together they
      account for every result exactly once. */
  lemma {:induction false} SuccessfulAndBlockedPartition(rs: seq<AttackResult>)
    ensures |FilterBlocked(rs, false)| + |FilterBlocked(rs, true)| == |rs|
    ensures multiset(FilterBlocked(rs, false)) + multiset(FilterBlocked(rs, true)) == multiset(rs)
  {
    if |rs| > 0 {
      var init, last := rs[..|rs| - 1], rs[|rs| - 1];
      SuccessfulAndBlockedPartition(init);
      MultisetDropLast(rs);
      FilterBlockedLast(rs, false);
      FilterBlockedLast(rs, true);
      PartitionStep(FilterBlocked(init, false), FilterBlocked(init, true), init,
                    FilterBlocked(rs, false), FilterBlocked(rs, true), rs, last, !last.wasBlocked);
    }
  }

  /** Appending an element to one side of a partition of `s` partitions
      `s` with that element added. */
  lemma PartitionStep<T>(a: seq<T>, b: seq<T>, s: seq<T>, a1: seq<T>, b1: seq<T>, s1: seq<T>, x: T, toA: bool)
    requires |a| + |b| == |s| && multiset(a) + multiset(b) == multiset(s)
    requires |s1| == |s| + 1 && multiset(s1) == multiset(s) + multiset{x}
    requires a1 == a + (if toA then [x] else []) && b1 == b + (if toA then [] else [x])
    ensures |a1| + |b1| == |s1| && multiset(a1) + multiset(b1) == multiset(s1)
  {
    if toA {
      SnocMultiset(a, x);
    } else {
      SnocMultiset(b, x);
    }
  }

  lemma FilterBlockedLast(rs: seq<AttackResult>, blocked: bool)
    requires |rs| > 0
    ensures FilterBlocked(rs, blocked) ==
              FilterBlocked(rs[..|rs| - 1], blocked) + (if rs[|rs| - 1].wasBlocked == blocked then [rs[|rs| - 1]] else [])
  {
  }

  lemma MultisetDropLast<T>(s: seq<T>)
    requires |s| > 0
    ensures |s| == |s[..|s| - 1]| + 1
    ensures multiset(s) == multiset(s[..|s| - 1]) + multiset{s[|s| - 1]}
  {
    assert s == s[..|s| - 1] + [s[|s| - 1]];
  }

  lemma SnocMultiset<T>(s: seq<T>, x: T)
    ensures multiset(s + [x]) == multiset(s) + multiset{x}
  {
  }

  lemma TurnResolutionPartition(t: TurnResolution)
    ensures multiset(t.SuccessfulAttacks()) + multiset(t.BlockedAttacks()) == multiset(t.attackResults)
    ensures forall x :: x in t.attackResults ==> (x in t.SuccessfulAttacks() <==> x !in t.BlockedAttacks())
  {
    SuccessfulAndBlockedPartition(t.attackResults);
  }

  /** Adding and then removing the last attack target restores the list. */
  lemma AddThenRemoveLast(a: PlayerTurnActions, t: AttackTarget)
    ensures a.AddAttackTarget(t).RemoveAttackTarget(|a.attackTargets|) == a
  {
    assert (a.attackTargets + [t])[..|a.attackTargets|] == a.attackTargets;
  }
}
