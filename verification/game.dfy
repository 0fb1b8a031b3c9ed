/** The match aggregate: countries, players, the phase cycle
    economy -> targeting -> resolution, turn resolution and the terminal
    conditions. Player `i` owns `playerActions[i]` (the source keys the
    accumulators by player UUID). */
module Games {
  import opened Common
  import opened Regions
  import opened Countries
  import opened Players
  import opened GameActions

  const MaxRounds: nat := 50

  datatype GamePhase = Economy | Targeting | Resolution

  datatype GameState = NotStarted | InProgress | Victory | Defeat | Draw | MaxRoundsReached

  /** `finalRegionCounts[k]` is the alive-region count of `countries[k]`. */
  datatype GameResult = GameResult(state: GameState, winnerCountryIndex: Option<nat>, roundsPlayed: int, finalRegionCounts: seq<nat>)

  datatype Game = Game(
    countries: seq<Country>,
    players: seq<Player>,
    currentPhase: GamePhase,
    currentRound: int,
    gameState: GameState,
    playerActions: seq<PlayerTurnActions>,
    turnResolutions: seq<TurnResolution>)

  /** Every pending attack names an existing country. */
  predicate TargetsInRange(n: nat, attacks: seq<AttackTarget>)
  {
    forall i :: 0 <= i < |attacks| ==> attacks[i].targetCountryIndex < n
  }

  /** What the source needs to avoid an out-of-bounds trap: one action
      list per player, player countries and pending targets in range. */
  predicate WellFormed(g: Game)
  {
    && |g.playerActions| == |g.players|
    && (forall i :: 0 <= i < |g.players| ==> g.players[i].countryIndex < |g.countries|)
    && (forall i :: 0 <= i < |g.playerActions| ==> TargetsInRange(|g.countries|, g.playerActions[i].attackTargets))
  }

  /** The invariants the match keeps on top of well-formedness. */
  predicate Valid(g: Game)
  {
    && WellFormed(g)
    && g.currentRound >= 1
    && (forall i :: 0 <= i < |g.players| ==> g.players[i].Valid())
    && (forall k :: 0 <= k < |g.countries| ==> g.countries[k].Valid())
  }

  /** `humanPlayer`: the first human player, if any. */
  function HumanIndex(ps: seq<Player>): (r: Option<nat>)
    ensures r.Some? ==> r.value < |ps| && ps[r.value].IsHuman()
    ensures r.Some? ==> forall j :: 0 <= j < r.value ==> !ps[j].IsHuman()
    ensures r.None? <==> forall j :: 0 <= j < |ps| ==> !ps[j].IsHuman()
  {
    if |ps| == 0 then None
    else if ps[0].IsHuman() then Some(0)
    else match HumanIndex(ps[1..])
      case None => None
      case Some(k) => Some(k + 1)
  }

  /** `Game()`: the four-country default roster, nothing started yet. */
  function NewGame(): (g: Game)
    ensures Valid(g) && g.gameState == NotStarted && g.currentPhase == Economy && g.currentRound == 1
    ensures |g.countries| == 4 && |g.players| == 4
    ensures forall i :: 0 <= i < 4 ==> !g.playerActions[i].HasActions()
  {
    Game(CreateDefaultCountries(), CreateDefaultPlayers(), Economy, 1, NotStarted,
         [EmptyActions, EmptyActions, EmptyActions, EmptyActions], [])
  }

  /** `distributeInitialIncome`: each player earns its country's income. */
  function DistributeIncome(ps: seq<Player>, cs: seq<Country>): (r: seq<Player>)
    requires forall i :: 0 <= i < |ps| ==> ps[i].countryIndex < |cs|
    ensures |r| == |ps|
    ensures forall i :: 0 <= i < |ps| ==>
              r[i] == ps[i].(coins := ps[i].coins + RegionIncome * cs[ps[i].countryIndex].AliveRegionsCount())
  {
    forall k | 0 <= k < |cs|
      ensures cs[k].TotalIncome() == RegionIncome * cs[k].AliveRegionsCount()
    {
      TotalIncomeIsTenPerAliveRegion(cs[k]);
    }
    seq(|ps|, i requires 0 <= i < |ps| => ps[i].AddIncome(cs[ps[i].countryIndex].TotalIncome()))
  }

  /** `createPlayers(for:)` and `createCountries(for:)` agree: player `i`
      is bound to the country at position `i` of the roster. */
  lemma RostersAgree(opponentCount: int)
    ensures var ps, cs := CreatePlayers(opponentCount), CreateCountries(opponentCount);
            && |ps| == |cs|
            && forall i :: 0 <= i < |ps| ==> ps[i].countryIndex == cs[i].countryIndex
  {
    CreateCountriesIndices(opponentCount);
  }

  /** `startGame`: in progress, with the first income paid. */
  function StartGame(g: Game): (r: Game)
    requires WellFormed(g)
    ensures r.gameState == InProgress
    ensures r == g.(gameState := InProgress, players := DistributeIncome(g.players, g.countries))
  {
    g.(gameState := InProgress, players := DistributeIncome(g.players, g.countries))
  }

  /** A fresh started match: every player holds fifty coins. */
  lemma NewGameStart()
    ensures var g := StartGame(NewGame());
            Valid(g) && forall i :: 0 <= i < |g.players| ==> g.players[i].coins == 50
  {
    var g0 := NewGame();
    forall k | 0 <= k < 4
      ensures g0.countries[k].AliveRegionsCount() == 5
    {
      assert g0.countries[k] == NewCountry(g0.countries[k].name, k);
    }
    var g := StartGame(g0);
    forall i | 0 <= i < 4
      ensures g.players[i].coins == 50 && g.players[i].Valid()
    {
      assert g0.players[i].countryIndex == i && g0.players[i].coins == 0;
    }
  }

  /** `startNewRound`: next round in the economy phase, purchase counters
      reset, every action list cleared, income paid. */
  function StartNewRound(g: Game): (r: Game)
    requires WellFormed(g)
    ensures r.currentRound == g.currentRound + 1 && r.currentPhase == Economy
    ensures r.countries == g.countries && r.gameState == g.gameState && r.turnResolutions == g.turnResolutions
    ensures |r.players| == |g.players| && |r.playerActions| == |g.playerActions|
    ensures forall i :: 0 <= i < |g.players| ==>
              var p, q := g.players[i], r.players[i];
              && q.rocketsUsedThisTurn == 0
              && q.coins == p.coins + g.countries[p.countryIndex].TotalIncome()
              && q.availableRockets == p.availableRockets
              && q.kind == p.kind && q.countryIndex == p.countryIndex
    ensures forall i :: 0 <= i < |r.playerActions| ==> !r.playerActions[i].HasActions()
  {
    var reset := seq(|g.players|, i requires 0 <= i < |g.players| => g.players[i].ResetTurnCounters());
    var cleared := seq(|g.playerActions|, i requires 0 <= i < |g.playerActions| => g.playerActions[i].ClearActions());
    var paid := DistributeIncome(reset, g.countries);
    forall i | 0 <= i < |g.players|
      ensures g.countries[g.players[i].countryIndex].TotalIncome() == RegionIncome * g.countries[g.players[i].countryIndex].AliveRegionsCount()
    {
      TotalIncomeIsTenPerAliveRegion(g.countries[g.players[i].countryIndex]);
    }
    g.(currentRound := g.currentRound + 1, currentPhase := Economy, players := paid, playerActions := cleared)
  }

  // ---------------------------------------------------------------------
  // Turn resolution

  /** `order` lists every player index exactly once: the iteration order of
      the source's action dictionary, which is fixed but unspecified. */
  predicate IsOrdering(order: seq<nat>, n: nat)
  {
    && |order| == n
    && (forall k :: 0 <= k < |order| ==> order[k] < n)
    && (forall j, k :: 0 <= j < k < |order| ==> order[j] != order[k])
  }

  /** All pending attacks, player by player in `order`, each player's in the
      order they were added. */
  function CollectAttacks(actions: seq<PlayerTurnActions>, order: seq<nat>): (r: seq<AttackTarget>)
    requires forall k :: 0 <= k < |order| ==> order[k] < |actions|
    ensures forall t :: t in r <==> exists k :: 0 <= k < |order| && t in actions[order[k]].attackTargets
    ensures |order| == 0 ==> r == []
    ensures |order| == 1 ==> r == actions[order[0]].attackTargets
    decreases |order|
  {
    if |order| == 0 then []
    else
      var n := |order| - 1;
      var prefix := CollectAttacks(actions, order[..n]);
      assert forall k :: 0 <= k < n ==> order[..n][k] == order[k];
      prefix + actions[order[n]].attackTargets
  }

  /** Collection is a concatenation over the player order: collecting for
      two runs of players is collecting for each and joining the results,
      so no attack is merged, dropped or reordered. */
  lemma {:induction false} CollectAttacksAppend(actions: seq<PlayerTurnActions>, o1: seq<nat>, o2: seq<nat>)
    requires forall k :: 0 <= k < |o1| ==> o1[k] < |actions|
    requires forall k :: 0 <= k < |o2| ==> o2[k] < |actions|
    ensures forall k :: 0 <= k < |o1 + o2| ==> (o1 + o2)[k] < |actions|
    ensures CollectAttacks(actions, o1 + o2) == CollectAttacks(actions, o1) + CollectAttacks(actions, o2)
    decreases |o2|
  {
    var o := o1 + o2;
    assert forall k :: 0 <= k < |o| ==> o[k] < |actions|;
    if |o2| == 0 {
      assert o == o1;
    } else {
      var m := |o2| - 1;
      assert o[..|o| - 1] == o1 + o2[..m];
      assert forall k :: 0 <= k < m ==> o2[..m][k] == o2[k];
      CollectAttacksAppend(actions, o1, o2[..m]);
      var a, b, c := CollectAttacks(actions, o1), CollectAttacks(actions, o2[..m]), actions[o2[m]].attackTargets;
      assert CollectAttacks(actions, o) == a + b + c;
      assert CollectAttacks(actions, o2) == b + c;
      Associate(a, b, c);
    }
  }

  lemma CollectedTargetsInRange(g: Game, order: seq<nat>)
    requires WellFormed(g) && IsOrdering(order, |g.players|)
    ensures TargetsInRange(|g.countries|, CollectAttacks(g.playerActions, order))
  {
    var all := CollectAttacks(g.playerActions, order);
    forall i | 0 <= i < |all|
      ensures all[i].targetCountryIndex < |g.countries|
    {
      assert all[i] in all;
      var k :| 0 <= k < |order| && all[i] in g.playerActions[order[k]].attackTargets;
      var j :| 0 <= j < |g.playerActions[order[k]].attackTargets| && g.playerActions[order[k]].attackTargets[j] == all[i];
    }
  }

  predicate HasAirDefenseAt(cs: seq<Country>, t: AttackTarget)
  {
    t.targetCountryIndex < |cs| && t.targetRegionIndex < |cs[t.targetCountryIndex].regions|
    && cs[t.targetCountryIndex].regions[t.targetRegionIndex].hasAirDefense
  }

  datatype StrikeOutcome = StrikeOutcome(blocked: bool, countries: seq<Country>)

  /** One attack: consume the target's air defense if it has one, otherwise
      destroy the target region. */
  function Strike(cs: seq<Country>, a: AttackTarget): (s: StrikeOutcome)
    requires a.targetCountryIndex < |cs|
    ensures |s.countries| == |cs|
    ensures forall k :: 0 <= k < |cs| ==> |s.countries[k].regions| == |cs[k].regions|
    ensures s.blocked <==> HasAirDefenseAt(cs, a)
    ensures forall k :: 0 <= k < |cs| && k != a.targetCountryIndex ==> s.countries[k] == cs[k]
    ensures s.blocked ==> s.countries[a.targetCountryIndex] == cs[a.targetCountryIndex].ConsumeAirDefense(a.targetRegionIndex).state
    ensures !s.blocked ==> s.countries[a.targetCountryIndex] == cs[a.targetCountryIndex].DestroyRegion(a.targetRegionIndex)
  {
    var c := a.targetCountryIndex;
    var consumed := cs[c].ConsumeAirDefense(a.targetRegionIndex);
    if consumed.succeeded then StrikeOutcome(true, cs[c := consumed.state])
    else StrikeOutcome(false, cs[c := consumed.state.DestroyRegion(a.targetRegionIndex)])
  }

  datatype Outcome = Outcome(countries: seq<Country>, results: seq<AttackResult>, destroyed: seq<DestroyedRegion>)

  /** `resolveCurrentTurn`'s loop: a left fold of `Strike` over the attacks. */
  function Resolve(cs: seq<Country>, attacks: seq<AttackTarget>): (o: Outcome)
    requires TargetsInRange(|cs|, attacks)
    ensures |o.countries| == |cs|
    ensures |o.results| == |attacks|
    ensures forall i :: 0 <= i < |attacks| ==> o.results[i].attack == attacks[i]
    ensures forall k :: 0 <= k < |cs| ==> |o.countries[k].regions| == |cs[k].regions|
    decreases |attacks|
  {
    if |attacks| == 0 then Outcome(cs, [], [])
    else
      var n := |attacks| - 1;
      var prev := Resolve(cs, attacks[..n]);
      var a := attacks[n];
      var s := Strike(prev.countries, a);
      Outcome(s.countries,
              prev.results + [AttackResult(a, s.blocked)],
              prev.destroyed + (if s.blocked then [] else [DestroyedRegion(a.targetCountryIndex, a.targetRegionIndex)]))
  }

  /** One `DestroyedRegion` per unblocked result, in order. */
  function UnblockedTargets(rs: seq<AttackResult>): seq<DestroyedRegion>
  {
    if |rs| == 0 then []
    else
      var last := rs[|rs| - 1];
      UnblockedTargets(rs[..|rs| - 1])
        + (if last.wasBlocked then [] else [DestroyedRegion(last.attack.targetCountryIndex, last.attack.targetRegionIndex)])
  }

  /** Every unblocked attack records a destroyed region, even when that
      region was already destroyed, and nothing else is recorded. */
  lemma {:induction false} DestroyedAreUnblockedAttacks(cs: seq<Country>, attacks: seq<AttackTarget>)
    requires TargetsInRange(|cs|, attacks)
    ensures Resolve(cs, attacks).destroyed == UnblockedTargets(Resolve(cs, attacks).results)
    decreases |attacks|
  {
    if |attacks| > 0 {
      var n := |attacks| - 1;
      DestroyedAreUnblockedAttacks(cs, attacks[..n]);
      var o := Resolve(cs, attacks);
      assert o.results[..n] == Resolve(cs, attacks[..n]).results;
    }
  }

  /** Attacks are applied one at a time: an attack is blocked exactly when
      its target has air defense after all earlier attacks were applied. */
  lemma {:induction false} BlockedIffDefendedWhenProcessed(cs: seq<Country>, attacks: seq<AttackTarget>, i: nat)
    requires TargetsInRange(|cs|, attacks)
    requires i < |attacks|
    ensures Resolve(cs, attacks).results[i].wasBlocked <==> HasAirDefenseAt(Resolve(cs, attacks[..i]).countries, attacks[i])
    decreases |attacks|
  {
    var n := |attacks| - 1;
    var prev := Resolve(cs, attacks[..n]);
    var o := Resolve(cs, attacks);
    assert o.results == prev.results + [AttackResult(attacks[n], Strike(prev.countries, attacks[n]).blocked)];
    if i < n {
      BlockedIffDefendedWhenProcessed(cs, attacks[..n], i);
      assert attacks[..n][..i] == attacks[..i];
      assert o.results[i] == prev.results[i];
    } else {
      assert attacks[..i] == attacks[..n];
    }
  }

  /** `after` is a later state of `before`: same shape and identity, the
      region invariant holds, and no region came back to life. */
  predicate Evolves(before: Country, after: Country)
  {
    && after.Valid()
    && |after.regions| == |before.regions|
    && after.name == before.name
    && after.countryIndex == before.countryIndex
    && after.AliveRegionsCount() <= before.AliveRegionsCount()
  }

  predicate AllEvolve(before: seq<Country>, after: seq<Country>)
  {
    |after| == |before| && forall k :: 0 <= k < |before| ==> Evolves(before[k], after[k])
  }

  /** One attack keeps the region invariant and never revives a region. */
  lemma StrikeEvolves(cs: seq<Country>, a: AttackTarget)
    requires a.targetCountryIndex < |cs|
    requires forall k :: 0 <= k < |cs| ==> cs[k].Valid()
    ensures AllEvolve(cs, Strike(cs, a).countries)
  {
    var c := a.targetCountryIndex;
    MutationsPreserveValid(cs[c], a.targetRegionIndex);
    AliveNeverIncreases(cs[c], a.targetRegionIndex);
    var consumed := cs[c].ConsumeAirDefense(a.targetRegionIndex);
    AliveNeverIncreases(consumed.state, a.targetRegionIndex);
    MutationsPreserveValid(consumed.state, a.targetRegionIndex);
  }

  /** Resolution keeps the region invariant, the shape of every country,
      and never revives a region. */
  lemma {:induction false} ResolvePreserves(cs: seq<Country>, attacks: seq<AttackTarget>)
    requires TargetsInRange(|cs|, attacks)
    requires forall k :: 0 <= k < |cs| ==> cs[k].Valid()
    ensures AllEvolve(cs, Resolve(cs, attacks).countries)
    decreases |attacks|
  {
    if |attacks| > 0 {
      var n := |attacks| - 1;
      ResolvePreserves(cs, attacks[..n]);
      var prev := Resolve(cs, attacks[..n]);
      StrikeEvolves(prev.countries, attacks[n]);
    }
  }

  /** Single defence consumption: a defended alive region hit twice in a
      row blocks the first attack and is destroyed by the second. */
  lemma DefendedRegionHitTwice(cs: seq<Country>, a: AttackTarget, b: AttackTarget)
    requires a.targetCountryIndex < |cs| && a.targetRegionIndex < |cs[a.targetCountryIndex].regions|
    requires b.targetCountryIndex == a.targetCountryIndex && b.targetRegionIndex == a.targetRegionIndex
    requires cs[a.targetCountryIndex].regions[a.targetRegionIndex] == Region(false, true)
    ensures var o := Resolve(cs, [a, b]);
            && o.results[0].wasBlocked && !o.results[1].wasBlocked
            && o.countries[a.targetCountryIndex].regions[a.targetRegionIndex] == Region(true, false)
            && o.destroyed == [DestroyedRegion(a.targetCountryIndex, a.targetRegionIndex)]
  {
    var c, i := a.targetCountryIndex, a.targetRegionIndex;
    assert [a, b][..1] == [a];
    assert [a][..0] == [];
    var first := Resolve(cs, [a]);
    var s1 := Strike(cs, a);
    assert Resolve(cs, []) == Outcome(cs, [], []);
    assert first == Outcome(s1.countries, [AttackResult(a, true)], []);
    assert s1.countries[c].regions[i] == Region(false, false);
    var s2 := Strike(s1.countries, b);
    assert !s2.blocked;
    assert s2.countries[c].regions[i] == Region(true, false);
  }

  // ---------------------------------------------------------------------
  // Terminal conditions

  /** A country with at least one alive region. */
  predicate Standing(c: Country)
  {
    !c.IsDestroyed()
  }

  /** `aliveCountries`: the countries with an alive region, in order. */
  function AliveCountries(cs: seq<Country>): (r: seq<Country>)
    ensures |r| <= |cs|
    ensures forall c :: c in r <==> c in cs && !c.IsDestroyed()
    ensures ReadsAt(cs, Positions(cs, Standing), r)
    decreases |cs|
  {
    if |cs| == 0 then []
    else
      var n := |cs| - 1;
      var prev := AliveCountries(cs[..n]);
      ReadsAtSnoc(cs, Standing, prev);
      prev + (if Standing(cs[n]) then [cs[n]] else [])
  }

  /** `checkGameEndConditions`, in the source's order: a sole survivor
      first, then no survivor, then the round limit. */
  function CheckEndConditions(g: Game): (r: Option<GameState>)
    ensures r.Some? ==> r.value in {Victory, Defeat, Draw, MaxRoundsReached}
    ensures r == Some(Draw) <==> |AliveCountries(g.countries)| == 0
    ensures (r == Some(Victory) || r == Some(Defeat)) <==> |AliveCountries(g.countries)| == 1
    ensures r == Some(MaxRoundsReached) <==> |AliveCountries(g.countries)| >= 2 && g.currentRound >= MaxRounds
    ensures r == Some(Victory) <==>
              && |AliveCountries(g.countries)| == 1
              && HumanIndex(g.players).Some?
              && exists k :: 0 <= k < |g.countries| && !g.countries[k].IsDestroyed()
                             && g.countries[k].countryIndex == g.players[HumanIndex(g.players).value].countryIndex
  {
    var alive := AliveCountries(g.countries);
    if |alive| == 1 then
      var human := HumanIndex(g.players);
      if human.Some? then
        SoleSurvivor(g.countries, g.players[human.value].countryIndex);
        if g.players[human.value].countryIndex == alive[0].countryIndex then Some(Victory) else Some(Defeat)
      else Some(Defeat)
    else if |alive| == 0 then Some(Draw)
    else if g.currentRound >= MaxRounds then Some(MaxRoundsReached)
    else None
  }

  /** With one country left standing, it is country `ci` exactly when some
      alive country of the match carries that index. */
  lemma {:induction false} SoleSurvivor(cs: seq<Country>, ci: nat)
    requires |AliveCountries(cs)| == 1
    ensures AliveCountries(cs)[0].countryIndex == ci <==>
              exists k :: 0 <= k < |cs| && !cs[k].IsDestroyed() && cs[k].countryIndex == ci
  {
    var alive := AliveCountries(cs);
    assert alive == [alive[0]];
    var k0 :| 0 <= k0 < |cs| && cs[k0] == alive[0];
    assert !cs[k0].IsDestroyed();
    if exists k :: 0 <= k < |cs| && !cs[k].IsDestroyed() && cs[k].countryIndex == ci {
      var k :| 0 <= k < |cs| && !cs[k].IsDestroyed() && cs[k].countryIndex == ci;
      assert cs[k] in [alive[0]];
    } else {
      assert cs[k0].countryIndex != ci;
    }
  }

  /** The first alive country is the standing country at the lowest
      position, and there is one exactly when some country stands. */
  lemma {:induction false} FirstStanding(cs: seq<Country>)
    ensures |AliveCountries(cs)| > 0 <==> exists k :: 0 <= k < |cs| && Standing(cs[k])
    ensures |AliveCountries(cs)| > 0 ==>
              var k := Positions(cs, Standing)[0];
              && k < |cs| && Standing(cs[k]) && AliveCountries(cs)[0] == cs[k]
              && forall j :: 0 <= j < k ==> !Standing(cs[j])
  {
    FirstPosition(cs, Standing);
  }

  // ---------------------------------------------------------------------
  // The phase cycle

  /** `resolveCurrentTurn`: the pending attacks, collected in `order`, are
      resolved against the board, and the outcome is appended as this
      round's turn resolution. Players and their actions are left as they
      are. */
  function ResolveCurrentTurn(g: Game, order: seq<nat>): (r: Game)
    requires WellFormed(g) && IsOrdering(order, |g.players|)
    ensures WellFormed(r) && |r.countries| == |g.countries|
    ensures r.players == g.players && r.playerActions == g.playerActions
    ensures r.currentPhase == g.currentPhase && r.currentRound == g.currentRound && r.gameState == g.gameState
    ensures |r.turnResolutions| == |g.turnResolutions| + 1
    ensures r.turnResolutions[..|g.turnResolutions|] == g.turnResolutions
    ensures r.turnResolutions[|g.turnResolutions|].roundNumber == g.currentRound
    ensures |r.turnResolutions[|g.turnResolutions|].attackResults| == |CollectAttacks(g.playerActions, order)|
    ensures TargetsInRange(|g.countries|, CollectAttacks(g.playerActions, order))
    ensures var o := Resolve(g.countries, CollectAttacks(g.playerActions, order));
            && r.countries == o.countries
            && r.turnResolutions[|g.turnResolutions|] == TurnResolution(g.currentRound, o.results, o.destroyed)
  {
    var attacks := CollectAttacks(g.playerActions, order);
    CollectedTargetsInRange(g, order);
    var o := Resolve(g.countries, attacks);
    g.(countries := o.countries,
       turnResolutions := g.turnResolutions + [TurnResolution(g.currentRound, o.results, o.destroyed)])
  }

  /** `nextPhase`. `order` is the player order in which pending attacks
      are collected at the targeting -> resolution step. */
  function NextPhase(g: Game, order: seq<nat>): (r: Game)
    requires WellFormed(g) && IsOrdering(order, |g.players|)
    ensures WellFormed(r) && |r.players| == |g.players|
    ensures g.currentPhase == Economy ==> r == g.(currentPhase := Targeting)
    ensures g.currentPhase == Targeting ==>
              && r.currentPhase == Resolution
              && r.players == g.players && r.playerActions == g.playerActions
              && r.currentRound == g.currentRound && r.gameState == g.gameState
              && |r.countries| == |g.countries|
              && |r.turnResolutions| == |g.turnResolutions| + 1
              && r.turnResolutions[..|g.turnResolutions|] == g.turnResolutions
              && r.turnResolutions[|g.turnResolutions|].roundNumber == g.currentRound
              && |r.turnResolutions[|g.turnResolutions|].attackResults| == |CollectAttacks(g.playerActions, order)|
    ensures g.currentPhase == Targeting ==>
              && TargetsInRange(|g.countries|, CollectAttacks(g.playerActions, order))
              && var o := Resolve(g.countries, CollectAttacks(g.playerActions, order));
                 && r.countries == o.countries
                 && r.turnResolutions[|g.turnResolutions|] == TurnResolution(g.currentRound, o.results, o.destroyed)
    ensures g.currentPhase == Resolution && CheckEndConditions(g).Some? ==>
              r == g.(gameState := CheckEndConditions(g).value)
    ensures g.currentPhase == Resolution && CheckEndConditions(g).None? ==>
              r == StartNewRound(g)
  {
    match g.currentPhase
    case Economy => g.(currentPhase := Targeting)
    case Targeting => ResolveCurrentTurn(g.(currentPhase := Resolution), order)
    case Resolution =>
      match CheckEndConditions(g)
      case Some(s) => g.(gameState := s)
      case None => StartNewRound(g)
  }

  /** The phase cycle keeps the match invariants. */
  lemma NextPhasePreservesValid(g: Game, order: seq<nat>)
    requires Valid(g) && IsOrdering(order, |g.players|)
    ensures Valid(NextPhase(g, order))
  {
    match g.currentPhase
    case Economy =>
    case Targeting =>
      CollectedTargetsInRange(g, order);
      var attacks := CollectAttacks(g.playerActions, order);
      ResolvePreserves(g.countries, attacks);
      var o := Resolve(g.countries, attacks);
      assert NextPhase(g, order).countries == o.countries;
      assert forall k :: 0 <= k < |g.countries| ==> Evolves(g.countries[k], o.countries[k]);
    case Resolution =>
  }

  /** An ended match is a fixed point of the phase cycle: once the terminal
      state has been recorded in the resolution phase, `nextPhase` changes
      nothing. */
  lemma EndedGameIsFixedPoint(g: Game, order: seq<nat>)
    requires WellFormed(g) && IsOrdering(order, |g.players|)
    requires g.currentPhase == Resolution && CheckEndConditions(g) == Some(g.gameState)
    ensures NextPhase(g, order) == g
  {
  }

  // ---------------------------------------------------------------------
  // Result

  /** The lowest index whose count is the maximum; none for no counts. */
  function MaxRoundsWinner(counts: seq<nat>): (w: Option<nat>)
    ensures w.None? <==> |counts| == 0
    ensures w.Some? ==> w.value < |counts|
    ensures w.Some? ==> forall j :: 0 <= j < |counts| ==> counts[j] <= counts[w.value]
    ensures w.Some? ==> forall j :: 0 <= j < w.value ==> counts[j] < counts[w.value]
  {
    if |counts| == 0 then None
    else
      var m := MaxOf(counts);
      FirstIndexOf(counts, m)
  }

  function MaxOf(counts: seq<nat>): (m: nat)
    requires |counts| > 0
    ensures m in counts
    ensures forall j :: 0 <= j < |counts| ==> counts[j] <= m
  {
    if |counts| == 1 then counts[0]
    else
      var rest := MaxOf(counts[1..]);
      assert forall j :: 1 <= j < |counts| ==> counts[j] == counts[1..][j - 1];
      if counts[0] >= rest then counts[0] else rest
  }

  function FirstIndexOf(counts: seq<nat>, m: nat): (w: Option<nat>)
    ensures w.None? <==> m !in counts
    ensures w.Some? ==> w.value < |counts| && counts[w.value] == m
    ensures w.Some? ==> forall j :: 0 <= j < w.value ==> counts[j] != m
  {
    if |counts| == 0 then None
    else if counts[0] == m then Some(0)
    else match FirstIndexOf(counts[1..], m)
      case None => None
      case Some(k) => Some(k + 1)
  }

  function RegionCounts(cs: seq<Country>): (r: seq<nat>)
    ensures |r| == |cs| && forall k :: 0 <= k < |cs| ==> r[k] == cs[k].AliveRegionsCount()
  {
    seq(|cs|, k requires 0 <= k < |cs| => cs[k].AliveRegionsCount())
  }

  /** `getGameResult`. */
  function GetGameResult(g: Game): (r: Option<GameResult>)
    ensures r.None? <==> g.gameState == NotStarted || g.gameState == InProgress
    ensures r.Some? ==> r.value.state == g.gameState && r.value.roundsPlayed == g.currentRound
    ensures r.Some? ==> r.value.finalRegionCounts == RegionCounts(g.countries)
    ensures r.Some? && g.gameState == Draw ==> r.value.winnerCountryIndex.None?
    ensures r.Some? && g.gameState == MaxRoundsReached ==> r.value.winnerCountryIndex == MaxRoundsWinner(RegionCounts(g.countries))
    ensures r.Some? && (g.gameState == Victory || g.gameState == Defeat) && r.value.winnerCountryIndex.Some? ==>
              exists k :: 0 <= k < |g.countries| && !g.countries[k].IsDestroyed()
                          && g.countries[k].countryIndex == r.value.winnerCountryIndex.value
    ensures r.Some? && (g.gameState == Victory || g.gameState == Defeat) ==>
              (r.value.winnerCountryIndex.Some? <==> exists k :: 0 <= k < |g.countries| && Standing(g.countries[k]))
    ensures r.Some? && (g.gameState == Victory || g.gameState == Defeat) && r.value.winnerCountryIndex.Some? ==>
              exists k :: 0 <= k < |g.countries| && Standing(g.countries[k])
                          && (forall j :: 0 <= j < k ==> !Standing(g.countries[j]))
                          && r.value.winnerCountryIndex.value == g.countries[k].countryIndex
  {
    FirstStanding(g.countries);
    if g.gameState == NotStarted || g.gameState == InProgress then None
    else
      var counts := RegionCounts(g.countries);
      var alive := AliveCountries(g.countries);
      var winner :=
        if g.gameState == Victory || g.gameState == Defeat then
          (if |alive| > 0 then (assert alive[0] in alive; Some(alive[0].countryIndex)) else None)
        else if g.gameState == MaxRoundsReached then MaxRoundsWinner(counts)
        else None;
      Some(GameResult(g.gameState, winner, g.currentRound, counts))
  }
}
