/** The command layer over a match: the human's buy, target and untarget
    commands, the AI players' purchases and targeting applied one decision
    at a time, and the end-of-phase driver. The animation delay after a
    resolution is the explicit event `AnimationFinished`. */
module GameManagers {
  import opened Common
  import opened Regions
  import opened Countries
  import opened Players
  import opened GameActions
  import opened Games
  import opened AI

  datatype Manager = Manager(
    game: Game,
    aiSystems: map<nat, AIStrategy>,
    selectedRegionIndex: Option<nat>,
    showingRegionMenu: bool,
    isProcessingTurn: bool,
    animationInProgress: bool,
    lastTurnResolution: Option<TurnResolution>)

  // ---------------------------------------------------------------------
  // Lifecycle

  /** `initializeAISystems`: one strategy per AI player's country index. */
  function AISystemsFor(ps: seq<Player>): (r: map<nat, AIStrategy>)
    ensures forall k :: k in r <==> exists i :: 0 <= i < |ps| && ps[i].IsAI() && ps[i].countryIndex == k
    ensures forall k :: k in r ==> r[k] == CreateForPlayer(k)
  {
    if |ps| == 0 then map[]
    else
      var prev := AISystemsFor(ps[..|ps| - 1]);
      var p := ps[|ps| - 1];
      assert forall i :: 0 <= i < |ps| - 1 ==> ps[..|ps| - 1][i] == ps[i];
      if p.IsAI() then prev[p.countryIndex := CreateForPlayer(p.countryIndex)] else prev
  }

  /** `GameManager()`: the default match, not started, with the AI
      systems bound to countries 1, 2 and 3. */
  function NewManager(): (m: Manager)
    ensures m.game == NewGame()
    ensures m.aiSystems.Keys == {1, 2, 3}
    ensures forall k :: k in m.aiSystems ==> m.aiSystems[k] == CreateForPlayer(k)
    ensures m.selectedRegionIndex.None? && !m.showingRegionMenu
    ensures !m.isProcessingTurn && !m.animationInProgress && m.lastTurnResolution.None?
  {
    DefaultAIKeys();
    Manager(NewGame(), AISystemsFor(NewGame().players), None, false, false, false, None)
  }

  /** The default players put an AI on countries 1, 2 and 3 only. */
  lemma DefaultAIKeys()
    ensures AISystemsFor(NewGame().players).Keys == {1, 2, 3}
  {
    var ps := NewGame().players;
    var ai := AISystemsFor(ps);
    forall k ensures k in ai <==> k in {1, 2, 3} {
      if k in {1, 2, 3} {
        assert ps[k].IsAI() && ps[k].countryIndex == k;
      } else {
        forall i | 0 <= i < |ps| ensures !(ps[i].IsAI() && ps[i].countryIndex == k) {
          assert ps[i].countryIndex == i;
        }
      }
    }
  }

  /** `startNewGame`: a fresh default match, started; the interface flags
      are left as they were. */
  function StartNewGame(m: Manager): (r: Manager)
    ensures r.game == StartGame(NewGame()) && r.game.gameState == InProgress
    ensures r.aiSystems == NewManager().aiSystems
    ensures r.(game := m.game, aiSystems := m.aiSystems) == m
  {
    var g := NewGame();
    m.(game := StartGame(g), aiSystems := AISystemsFor(g.players))
  }

  // ---------------------------------------------------------------------
  // Purchases

  /** One purchase carried out for player `i` the way both the human's
      commands and the AI loop do it: a rocket is recorded when the player
      can buy it; an air defense is paid for first and recorded only when
      the region also accepts it. */
  function Purchase(g: Game, i: nat, a: GameAction): (r: Game)
    requires WellFormed(g) && i < |g.players|
    ensures WellFormed(r) && |r.players| == |g.players| && |r.countries| == |g.countries|
    ensures r.currentPhase == g.currentPhase && r.currentRound == g.currentRound
    ensures r.gameState == g.gameState && r.turnResolutions == g.turnResolutions
    ensures forall j :: 0 <= j < |g.players| && j != i ==> r.players[j] == g.players[j] && r.playerActions[j] == g.playerActions[j]
    ensures r.players[i].kind == g.players[i].kind && r.players[i].countryIndex == g.players[i].countryIndex
    ensures r.playerActions[i].attackTargets == g.playerActions[i].attackTargets
    ensures forall k :: 0 <= k < |g.countries| && k != g.players[i].countryIndex ==> r.countries[k] == g.countries[k]
    ensures a.BuyRocket? ==>
              && r.countries == g.countries
              && (g.players[i].CanBuyRocket() ==>
                    && r.players[i] == g.players[i].BuyRocket().state
                    && r.playerActions[i] == g.playerActions[i].AddPurchaseAction(a))
              && (!g.players[i].CanBuyRocket() ==> r == g)
    ensures a.BuyAirDefense? ==>
              var ci := g.players[i].countryIndex;
              && (!g.players[i].CanBuyAirDefense() ==> r == g)
              && (g.players[i].CanBuyAirDefense() ==>
                    && r.players[i] == g.players[i].(coins := g.players[i].coins - AirDefenseCost)
                    && (g.countries[ci].CanBuyAirDefenseAt(a.regionIndex) ==>
                          && r.countries[ci] == g.countries[ci].AddAirDefenseToRegion(a.regionIndex).state
                          && r.playerActions[i] == g.playerActions[i].AddPurchaseAction(a))
                    && (!g.countries[ci].CanBuyAirDefenseAt(a.regionIndex) ==>
                          r.countries == g.countries && r.playerActions == g.playerActions))
    ensures a.NoAction? ==> r == g
  {
    var p := g.players[i];
    match a
    case BuyRocket(_) =>
      var b := p.BuyRocket();
      if b.succeeded then
        g.(players := g.players[i := b.state],
           playerActions := g.playerActions[i := g.playerActions[i].AddPurchaseAction(a)])
      else g
    case BuyAirDefense(reg) =>
      var pay := p.BuyAirDefense();
      if !pay.succeeded then g
      else
        var paid := g.(players := g.players[i := pay.state]);
        var add := g.countries[p.countryIndex].AddAirDefenseToRegion(reg);
        if add.succeeded then
          paid.(countries := g.countries[p.countryIndex := add.state],
                playerActions := g.playerActions[i := g.playerActions[i].AddPurchaseAction(a)])
        else paid
    case NoAction => g
  }

  /** Purchases keep the match invariants. */
  lemma PurchasePreservesValid(g: Game, i: nat, a: GameAction)
    requires Valid(g) && i < |g.players|
    ensures Valid(Purchase(g, i, a))
  {
    var ci := g.players[i].countryIndex;
    if a.BuyAirDefense? {
      MutationsPreserveValid(g.countries[ci], a.regionIndex);
    }
  }

  /** The human's entry in the player list, if there is one. */
  function Human(m: Manager): (r: Option<Player>)
    ensures r.Some? <==> HumanIndex(m.game.players).Some?
    ensures r.Some? ==> r.value == m.game.players[HumanIndex(m.game.players).value]
  {
    match HumanIndex(m.game.players)
    case None => None
    case Some(h) => Some(m.game.players[h])
  }

  /** `closeRegionMenu`. */
  function CloseRegionMenu(m: Manager): (r: Manager)
    ensures !r.showingRegionMenu && r.selectedRegionIndex.None?
    ensures r.(showingRegionMenu := m.showingRegionMenu, selectedRegionIndex := m.selectedRegionIndex) == m
  {
    m.(showingRegionMenu := false, selectedRegionIndex := None)
  }

  /** `selectRegion`: opens the purchase menu on a region, economy phase
      only. */
  function SelectRegion(m: Manager, regionIndex: nat): (r: Manager)
    ensures m.game.currentPhase != Economy ==> r == m
    ensures m.game.currentPhase == Economy ==>
              r == m.(selectedRegionIndex := Some(regionIndex), showingRegionMenu := true)
  {
    if m.game.currentPhase != Economy then m
    else m.(selectedRegionIndex := Some(regionIndex), showingRegionMenu := true)
  }

  /** `buyRocketForRegion`: without a human player nothing happens (the
      menu stays open); otherwise the purchase is attempted, recorded iff
      the player could buy, and the menu closes. */
  function BuyRocketForRegion(m: Manager, regionIndex: nat): (r: Manager)
    requires WellFormed(m.game)
    ensures WellFormed(r.game)
    ensures HumanIndex(m.game.players).None? ==> r == m
    ensures HumanIndex(m.game.players).Some? ==>
              && r == CloseRegionMenu(m).(game := Purchase(m.game, HumanIndex(m.game.players).value, BuyRocket(regionIndex)))
    ensures HumanIndex(m.game.players).Some? ==>
              var h := HumanIndex(m.game.players).value;
              var p := m.game.players[h];
              && !r.showingRegionMenu && r.selectedRegionIndex.None?
              && (r.game.playerActions[h].purchaseActions == m.game.playerActions[h].purchaseActions + [BuyRocket(regionIndex)]
                  <==> p.CanBuyRocket())
              && (p.CanBuyRocket() ==>
                    && r.game.players[h].coins == p.coins - RocketCost
                    && r.game.players[h].availableRockets == p.availableRockets + 1)
              && (!p.CanBuyRocket() ==> r.game == m.game)
  {
    match HumanIndex(m.game.players)
    case None => m
    case Some(h) => CloseRegionMenu(m.(game := Purchase(m.game, h, BuyRocket(regionIndex))))
  }

  /** `buyAirDefenseForRegion`: like `buyRocketForRegion`, with the
      payment taken before the region is asked. */
  function BuyAirDefenseForRegion(m: Manager, regionIndex: nat): (r: Manager)
    requires WellFormed(m.game)
    ensures WellFormed(r.game)
    ensures HumanIndex(m.game.players).None? ==> r == m
    ensures HumanIndex(m.game.players).Some? ==>
              && r == CloseRegionMenu(m).(game := Purchase(m.game, HumanIndex(m.game.players).value, BuyAirDefense(regionIndex)))
    ensures HumanIndex(m.game.players).Some? ==>
              var h := HumanIndex(m.game.players).value;
              var p := m.game.players[h];
              var ci := p.countryIndex;
              var accepted := p.CanBuyAirDefense() && m.game.countries[ci].CanBuyAirDefenseAt(regionIndex);
              && !r.showingRegionMenu && r.selectedRegionIndex.None?
              && (r.game.playerActions[h].purchaseActions == m.game.playerActions[h].purchaseActions + [BuyAirDefense(regionIndex)]
                  <==> accepted)
              && (p.CanBuyAirDefense() ==> r.game.players[h].coins == p.coins - AirDefenseCost)
              && (accepted ==> r.game.countries[ci] == m.game.countries[ci].AddAirDefenseToRegion(regionIndex).state)
              && (!accepted ==> r.game.countries == m.game.countries)
              && (!p.CanBuyAirDefense() ==> r.game == m.game)
  {
    match HumanIndex(m.game.players)
    case None => m
    case Some(h) => CloseRegionMenu(m.(game := Purchase(m.game, h, BuyAirDefense(regionIndex))))
  }

  /** `canBuyRocket()`. */
  predicate CanBuyRocket(m: Manager)
  {
    Human(m).Some? && Human(m).value.CanBuyRocket()
  }

  /** `canBuyAirDefense(for:)`: the human can pay and the region of the
      human's own country accepts a defense. */
  predicate CanBuyAirDefenseFor(m: Manager, regionIndex: nat)
    requires WellFormed(m.game)
  {
    && Human(m).Some?
    && Human(m).value.CanBuyAirDefense()
    && m.game.countries[Human(m).value.countryIndex].CanBuyAirDefenseAt(regionIndex)
  }

  /** What the guard promises: when `canBuyRocket()` holds, the command
      spends 20 coins, adds a rocket and records the purchase; otherwise
      the match is unchanged. */
  lemma BuyRocketIffCanBuy(m: Manager, regionIndex: nat)
    requires WellFormed(m.game)
    ensures var r := BuyRocketForRegion(m, regionIndex);
            CanBuyRocket(m) <==>
              (&& HumanIndex(m.game.players).Some?
               && var h := HumanIndex(m.game.players).value;
                  && r.game.players[h].coins == m.game.players[h].coins - RocketCost
                  && r.game.players[h].availableRockets == m.game.players[h].availableRockets + 1
                  && r.game.playerActions[h].purchaseActions == m.game.playerActions[h].purchaseActions + [BuyRocket(regionIndex)])
    ensures !CanBuyRocket(m) ==> BuyRocketForRegion(m, regionIndex).game == m.game
  {
  }

  /** When `canBuyAirDefense(for:)` holds, the command defends the region,
      spends 20 coins and records the purchase. When the human can pay
      but the region refuses, the coins are spent all the same and
      nothing is recorded. */
  lemma BuyAirDefenseOutcomes(m: Manager, regionIndex: nat)
    requires WellFormed(m.game)
    requires HumanIndex(m.game.players).Some?
    ensures var h := HumanIndex(m.game.players).value;
            var ci := m.game.players[h].countryIndex;
            var r := BuyAirDefenseForRegion(m, regionIndex);
            && (CanBuyAirDefenseFor(m, regionIndex) ==>
                  && r.game.players[h].coins == m.game.players[h].coins - AirDefenseCost
                  && r.game.countries[ci].regions[regionIndex] == Region(false, true)
                  && r.game.playerActions[h].purchaseActions == m.game.playerActions[h].purchaseActions + [BuyAirDefense(regionIndex)])
            && (m.game.players[h].CanBuyAirDefense() && !CanBuyAirDefenseFor(m, regionIndex) ==>
                  && r.game.players[h].coins == m.game.players[h].coins - AirDefenseCost
                  && r.game.countries == m.game.countries
                  && r.game.playerActions == m.game.playerActions)
  {
  }

  // ---------------------------------------------------------------------
  // Targeting

  /** `selectAttackTarget`: in the targeting phase, with a human holding a
      rocket, append the target and spend the rocket. The country index
      must name an existing country: the source indexes the country list
      with it at resolution (and the interface only offers drawn regions). */
  function SelectAttackTarget(m: Manager, countryIndex: nat, regionIndex: nat): (r: Manager)
    requires WellFormed(m.game) && countryIndex < |m.game.countries|
    ensures WellFormed(r.game)
    ensures (|| m.game.currentPhase != Targeting
             || HumanIndex(m.game.players).None?
             || Human(m).value.availableRockets <= 0) ==> r == m
    ensures (&& m.game.currentPhase == Targeting
             && HumanIndex(m.game.players).Some?
             && Human(m).value.availableRockets > 0) ==>
              var h := HumanIndex(m.game.players).value;
              var p := m.game.players[h];
              && r.game.players == m.game.players[h := p.(availableRockets := p.availableRockets - 1)]
              && r.game.playerActions == m.game.playerActions[h := m.game.playerActions[h].AddAttackTarget(AttackTarget(p.countryIndex, countryIndex, regionIndex))]
              && r == m.(game := r.game)
              && r.game == m.game.(players := r.game.players, playerActions := r.game.playerActions)
  {
    if m.game.currentPhase != Targeting then m
    else match HumanIndex(m.game.players)
      case None => m
      case Some(h) =>
        var p := m.game.players[h];
        if p.availableRockets <= 0 then m
        else
          var t := AttackTarget(p.countryIndex, countryIndex, regionIndex);
          var actions := m.game.playerActions[h := m.game.playerActions[h].AddAttackTarget(t)];
          m.(game := m.game.(playerActions := actions, players := m.game.players[h := p.UseRocket().state]))
  }

  /** The human's rockets in hand plus the rockets committed to targets. */
  function HumanRockets(m: Manager): int
    requires WellFormed(m.game)
  {
    match HumanIndex(m.game.players)
    case None => 0
    case Some(h) => m.game.players[h].availableRockets + |m.game.playerActions[h].attackTargets|
  }

  /** `removeAttackTarget(at:)` as the source writes it: the target list
      ignores an out-of-range index, but the rocket is refunded anyway. */
  function RemoveAttackTarget(m: Manager, index: nat): (r: Manager)
    requires WellFormed(m.game)
    ensures WellFormed(r.game) && |r.game.players| == |m.game.players|
    ensures HumanIndex(r.game.players) == HumanIndex(m.game.players)
    ensures HumanIndex(m.game.players).None? ==> r == m
    ensures HumanIndex(m.game.players).Some? ==>
              var h := HumanIndex(m.game.players).value;
              var p := m.game.players[h];
              && r.game.players == m.game.players[h := p.(availableRockets := p.availableRockets + 1)]
              && r.game.playerActions == m.game.playerActions[h := m.game.playerActions[h].RemoveAttackTarget(index)]
              && r == m.(game := m.game.(players := r.game.players, playerActions := r.game.playerActions))
  {
    match HumanIndex(m.game.players)
    case None => m
    case Some(h) =>
      var p := m.game.players[h];
      RemoveKeepsTargetsInRange(m.game.playerActions[h], index, |m.game.countries|);
      HumanIndexOfUpdate(m.game.players, h, p.(availableRockets := p.availableRockets + 1));
      UpdateKeepsWellFormed(m.game, h, p.(availableRockets := p.availableRockets + 1), m.game.playerActions[h].RemoveAttackTarget(index));
      m.(game := m.game.(
        playerActions := m.game.playerActions[h := m.game.playerActions[h].RemoveAttackTarget(index)],
        players := m.game.players[h := p.(availableRockets := p.availableRockets + 1)]))
  }

  /** The corrected command: the rocket comes back only when a target was
      actually removed. */
  function RemoveAttackTargetChecked(m: Manager, index: nat): (r: Manager)
    requires WellFormed(m.game)
    ensures WellFormed(r.game) && |r.game.players| == |m.game.players|
    ensures HumanRockets(r) == HumanRockets(m)
    ensures HumanIndex(m.game.players).None? ==> r == m
    ensures HumanIndex(m.game.players).Some? ==>
              var h := HumanIndex(m.game.players).value;
              var p := m.game.players[h];
              && (index >= |m.game.playerActions[h].attackTargets| ==> r == m)
              && (index < |m.game.playerActions[h].attackTargets| ==>
                    && r.game.players == m.game.players[h := p.(availableRockets := p.availableRockets + 1)]
                    && r.game.playerActions == m.game.playerActions[h := m.game.playerActions[h].RemoveAttackTarget(index)]
                    && r == m.(game := m.game.(players := r.game.players, playerActions := r.game.playerActions)))
  {
    match HumanIndex(m.game.players)
    case None => m
    case Some(h) =>
      if index >= |m.game.playerActions[h].attackTargets| then m
      else RemoveAttackTarget(m, index)
  }

  lemma RemoveKeepsTargetsInRange(a: PlayerTurnActions, index: nat, n: nat)
    requires TargetsInRange(n, a.attackTargets)
    ensures TargetsInRange(n, a.RemoveAttackTarget(index).attackTargets)
  {
    var r := a.RemoveAttackTarget(index).attackTargets;
    if index < |a.attackTargets| {
      forall k | 0 <= k < |r| ensures r[k].targetCountryIndex < n {
        if k < index {
          assert r[..index][k] == r[k];
        } else {
          assert r[index..][k - index] == r[k];
        }
      }
    }
  }

  /** As written, removing at an index with nothing there still hands the
      human a rocket: the rockets held plus the rockets committed grow by
      one. */
  lemma RemoveOutOfRangeMintsRocket(m: Manager, index: nat)
    requires WellFormed(m.game)
    requires HumanIndex(m.game.players).Some?
    requires index >= |m.game.playerActions[HumanIndex(m.game.players).value].attackTargets|
    ensures HumanRockets(RemoveAttackTarget(m, index)) == HumanRockets(m) + 1
  {
  }

  /** The smallest case: in a fresh match the human holds no rocket and
      has no target, and one removal at index 0 yields a rocket. */
  lemma FreshMatchRemovalYieldsRocket()
    ensures var m := NewManager();
            && Human(m).value.availableRockets == 0
            && Human(RemoveAttackTarget(m, 0)).value.availableRockets == 1
  {
    var m := NewManager();
    assert m.game.players[0].IsHuman();
    assert HumanIndex(m.game.players) == Some(0);
  }

  /** With the corrected command, targeting and then untargeting the last
      entry gives back the match as it was (apart from the spent rocket
      being returned). */
  lemma SelectThenRemoveRestores(m: Manager, countryIndex: nat, regionIndex: nat)
    requires WellFormed(m.game) && countryIndex < |m.game.countries|
    requires m.game.currentPhase == Targeting
    requires HumanIndex(m.game.players).Some? && Human(m).value.availableRockets > 0
    ensures var h := HumanIndex(m.game.players).value;
            RemoveAttackTargetChecked(SelectAttackTarget(m, countryIndex, regionIndex), |m.game.playerActions[h].attackTargets|) == m
  {
    var h := HumanIndex(m.game.players).value;
    var s := SelectAttackTarget(m, countryIndex, regionIndex);
    var p := m.game.players[h];
    AddThenRemoveLast(m.game.playerActions[h], AttackTarget(p.countryIndex, countryIndex, regionIndex));
    assert HumanIndex(s.game.players) == Some(h) by {
      HumanIndexOfUpdate(m.game.players, h, p.(availableRockets := p.availableRockets - 1));
    }
    UpdateTwiceRestores(m.game.players, h, p.(availableRockets := p.availableRockets - 1));
    UpdateTwiceRestores(m.game.playerActions, h, s.game.playerActions[h]);
  }

  lemma UpdateTwiceRestores<T>(s: seq<T>, h: nat, x: T)
    requires h < |s|
    ensures s[h := x][h := s[h]] == s
  {
  }

  /** Replacing one player and its actions keeps the match well formed
      when the player stays on its country and its targets stay on the
      board. */
  lemma UpdateKeepsWellFormed(g: Game, h: nat, q: Player, a: PlayerTurnActions)
    requires WellFormed(g) && h < |g.players|
    requires q.countryIndex == g.players[h].countryIndex && TargetsInRange(|g.countries|, a.attackTargets)
    ensures WellFormed(g.(players := g.players[h := q], playerActions := g.playerActions[h := a]))
  {
  }

  /** Replacing the human by a player of the same kind keeps it the first
      human. */
  lemma HumanIndexOfUpdate(ps: seq<Player>, h: nat, q: Player)
    requires HumanIndex(ps) == Some(h) && q.kind == ps[h].kind
    ensures HumanIndex(ps[h := q]) == Some(h)
  {
    var qs := ps[h := q];
    assert forall j :: 0 <= j < |ps| ==> (qs[j].IsHuman() <==> ps[j].IsHuman());
  }

  /** `getAttackTargets()`. */
  function AttackTargets(m: Manager): (r: seq<AttackTarget>)
    requires WellFormed(m.game)
    ensures HumanIndex(m.game.players).None? ==> r == []
    ensures HumanIndex(m.game.players).Some? ==> r == m.game.playerActions[HumanIndex(m.game.players).value].attackTargets
  {
    match HumanIndex(m.game.players)
    case None => []
    case Some(h) => m.game.playerActions[h].attackTargets
  }

  // ---------------------------------------------------------------------
  // AI execution

  /** The inner loop of `executeAIPurchases`: player `i`'s decisions, in
      order, each through the same purchase step as the human's. */
  function ExecutePurchases(g: Game, i: nat, acts: seq<GameAction>): (r: Game)
    requires WellFormed(g) && i < |g.players|
    ensures WellFormed(r) && |r.players| == |g.players| && |r.countries| == |g.countries|
    ensures r.currentPhase == g.currentPhase && r.currentRound == g.currentRound
    ensures r.gameState == g.gameState && r.turnResolutions == g.turnResolutions
    ensures forall j :: 0 <= j < |g.players| && j != i ==> r.players[j] == g.players[j] && r.playerActions[j] == g.playerActions[j]
    ensures r.players[i].kind == g.players[i].kind && r.players[i].countryIndex == g.players[i].countryIndex
    ensures r.playerActions[i].attackTargets == g.playerActions[i].attackTargets
    ensures forall k :: 0 <= k < |g.countries| && k != g.players[i].countryIndex ==> r.countries[k] == g.countries[k]
    decreases |acts|
  {
    if |acts| == 0 then g else ExecutePurchases(Purchase(g, i, acts[0]), i, acts[1..])
  }

  lemma {:induction false} ExecutePurchasesPreservesValid(g: Game, i: nat, acts: seq<GameAction>)
    requires Valid(g) && i < |g.players|
    ensures Valid(ExecutePurchases(g, i, acts))
    decreases |acts|
  {
    if |acts| > 0 {
      PurchasePreservesValid(g, i, acts[0]);
      ExecutePurchasesPreservesValid(Purchase(g, i, acts[0]), i, acts[1..]);
    }
  }

  /** A decision list the purchase step will carry out in full for a player
      `p` owning country `c`: it fits the coins and the rocket cap, and each
      air defense names a distinct region that can take one. */
  predicate Executable(p: Player, c: Country, acts: seq<GameAction>)
  {
    && TotalCost(acts) <= p.coins
    && p.rocketsUsedThisTurn + RocketCount(acts) <= MaxRocketsPerTurn
    && NoAction !in acts
    && forall j :: 0 <= j < |acts| && acts[j].BuyAirDefense? ==>
         c.CanBuyAirDefenseAt(acts[j].regionIndex) && acts[j] !in acts[j + 1..]
  }

  /** `r` is `g` after player `i` carried out every decision in `acts`:
      each is recorded, their total cost is charged and their rockets are
      added. */
  predicate Recorded(g: Game, r: Game, i: nat, acts: seq<GameAction>)
  {
    && i < |g.players| && i < |r.players| && i < |g.playerActions| && i < |r.playerActions|
    && r.playerActions[i].purchaseActions == g.playerActions[i].purchaseActions + acts
    && r.players[i].coins == g.players[i].coins - TotalCost(acts)
    && r.players[i].availableRockets == g.players[i].availableRockets + RocketCount(acts)
  }

  /** Carrying out an executable list records every decision, charges its
      total cost and adds its rockets. */
  lemma {:induction false} ExecutableAllRecorded(g: Game, i: nat, acts: seq<GameAction>)
    requires WellFormed(g) && i < |g.players|
    requires Executable(g.players[i], g.countries[g.players[i].countryIndex], acts)
    ensures Recorded(g, ExecutePurchases(g, i, acts), i, acts)
    decreases |acts|
  {
    if |acts| > 0 {
      var g1 := Purchase(g, i, acts[0]);
      ExecutableHead(g, i, acts);
      ExecutableAllRecorded(g1, i, acts[1..]);
      RecordedStep(g, g1, ExecutePurchases(g1, i, acts[1..]), i, acts);
    }
  }

  /** A recorded first decision followed by a recorded rest records the
      whole list. */
  lemma RecordedStep(g: Game, g1: Game, r: Game, i: nat, acts: seq<GameAction>)
    requires |acts| > 0 && i < |g.players| && i < |g.playerActions| && i < |g1.players| && i < |g1.playerActions|
    requires g1.playerActions[i].purchaseActions == g.playerActions[i].purchaseActions + [acts[0]]
    requires g1.players[i].coins == g.players[i].coins - Cost(acts[0])
    requires g1.players[i].availableRockets == g.players[i].availableRockets + (if acts[0].BuyRocket? then 1 else 0)
    requires Recorded(g1, r, i, acts[1..])
    ensures Recorded(g, r, i, acts)
  {
    assert g.playerActions[i].purchaseActions + [acts[0]] + acts[1..] == g.playerActions[i].purchaseActions + acts;
  }

  /** The first decision of an executable list is carried out, and what
      remains is executable in the state it leaves. */
  lemma ExecutableHead(g: Game, i: nat, acts: seq<GameAction>)
    requires WellFormed(g) && i < |g.players| && |acts| > 0
    requires Executable(g.players[i], g.countries[g.players[i].countryIndex], acts)
    ensures var g1 := Purchase(g, i, acts[0]);
            && g1.playerActions[i].purchaseActions == g.playerActions[i].purchaseActions + [acts[0]]
            && g1.players[i].coins == g.players[i].coins - Cost(acts[0])
            && g1.players[i].availableRockets == g.players[i].availableRockets + (if acts[0].BuyRocket? then 1 else 0)
            && TotalCost(acts) == Cost(acts[0]) + TotalCost(acts[1..])
            && RocketCount(acts) == (if acts[0].BuyRocket? then 1 else 0) + RocketCount(acts[1..])
            && Executable(g1.players[i], g1.countries[g.players[i].countryIndex], acts[1..])
            && ExecutePurchases(g, i, acts) == ExecutePurchases(g1, i, acts[1..])
  {
    var a := acts[0];
    var p, ci := g.players[i], g.players[i].countryIndex;
    var c := g.countries[ci];
    var g1 := Purchase(g, i, a);
    assert a != NoAction;
    var c1 := if a.BuyAirDefense? then c.(regions := c.regions[a.regionIndex := Region(false, true)]) else c;
    assert g1.countries[ci] == c1;
    var p1 := g1.players[i];
    assert p1.coins == p.coins - Cost(a);
    assert p1.rocketsUsedThisTurn == p.rocketsUsedThisTurn + (if a.BuyRocket? then 1 else 0);
    ExecutableTail(p, c, acts, p1, c1);
  }

  /** The rest of an executable list stays executable once its first
      decision is paid for and, for an air defense, its region armed. */
  lemma ExecutableTail(p: Player, c: Country, acts: seq<GameAction>, p1: Player, c1: Country)
    requires |acts| > 0 && Executable(p, c, acts)
    requires p1.coins == p.coins - Cost(acts[0])
    requires p1.rocketsUsedThisTurn == p.rocketsUsedThisTurn + (if acts[0].BuyRocket? then 1 else 0)
    requires c1 == if acts[0].BuyAirDefense? then c.(regions := c.regions[acts[0].regionIndex := Region(false, true)]) else c
    ensures TotalCost(acts) == Cost(acts[0]) + TotalCost(acts[1..])
    ensures RocketCount(acts) == (if acts[0].BuyRocket? then 1 else 0) + RocketCount(acts[1..])
    ensures Executable(p1, c1, acts[1..])
  {
    var a, rest := acts[0], acts[1..];
    forall j | 0 <= j < |rest| && rest[j].BuyAirDefense?
      ensures c.CanBuyAirDefenseAt(rest[j].regionIndex) && rest[j] !in rest[j + 1..]
    {
      assert rest[j] == acts[j + 1] && rest[j + 1..] == acts[j + 2..];
    }
    if a.BuyAirDefense? {
      assert a !in rest;
      forall j | 0 <= j < |rest| && rest[j].BuyAirDefense?
        ensures c1.CanBuyAirDefenseAt(rest[j].regionIndex)
      {
        assert rest[j] in rest;
        assert rest[j].regionIndex != a.regionIndex;
      }
    }
    assert NoAction !in rest by {
      assert forall x :: x in rest ==> x in acts;
    }
  }

  /** An entry occurring at most once does not occur again after itself. */
  lemma NotRepeatedLater<T>(s: seq<T>, j: nat)
    requires j < |s| && multiset(s)[s[j]] <= 1
    ensures s[j] !in s[j + 1..]
  {
    assert s == s[..j + 1] + s[j + 1..];
    assert s[j] in s[..j + 1];
    assert multiset(s)[s[j]] == multiset(s[..j + 1])[s[j]] + multiset(s[j + 1..])[s[j]];
  }

  /** The AI's own decision list is executable by a valid player. */
  lemma DecisionsExecutable(s: AIStrategy, p: Player, c: Country, all: seq<Country>)
    requires p.Valid()
    ensures Executable(p, c, MakePurchaseDecisions(s, p, c, all))
  {
    var acts := MakePurchaseDecisions(s, p, c, all);
    forall j | 0 <= j < |acts| && acts[j].BuyAirDefense?
      ensures c.CanBuyAirDefenseAt(acts[j].regionIndex) && acts[j] !in acts[j + 1..]
    {
      assert acts[j] in acts;
      NotRepeatedLater(acts, j);
    }
  }

  /** Every purchase an AI decides on is carried out and recorded: the
      step charges exactly the decisions' total cost. */
  lemma AIDecisionsAllCarriedOut(g: Game, i: nat, s: AIStrategy)
    requires Valid(g) && i < |g.players|
    ensures var p := g.players[i];
            var ds := MakePurchaseDecisions(s, p, g.countries[p.countryIndex], g.countries);
            var r := ExecutePurchases(g, i, ds);
            && Recorded(g, r, i, ds)
            && r.players[i].coins >= 0
  {
    var p := g.players[i];
    var ds := MakePurchaseDecisions(s, p, g.countries[p.countryIndex], g.countries);
    DecisionsExecutable(s, p, g.countries[p.countryIndex], g.countries);
    ExecutableAllRecorded(g, i, ds);
  }

  /** Whether player `i` takes part in the AI loops: an AI with a strategy
      bound to its country. */
  predicate Bound(g: Game, systems: map<nat, AIStrategy>, i: nat)
    requires i < |g.players|
  {
    g.players[i].IsAI() && g.players[i].countryIndex in systems
  }

  /** What bound AI player `i` decides to buy against the match `g`. */
  function AIDecisions(g: Game, systems: map<nat, AIStrategy>, i: nat): seq<GameAction>
    requires WellFormed(g) && i < |g.players| && Bound(g, systems, i)
  {
    var p := g.players[i];
    MakePurchaseDecisions(systems[p.countryIndex], p, g.countries[p.countryIndex], g.countries)
  }

  /** One pass of `executeAIPurchases`' outer loop: player `i`, when it is
      a bound AI, decides against the current match and every decision is
      carried out: recorded, paid for, and its rockets added. */
  function AIPurchaseStep(g: Game, systems: map<nat, AIStrategy>, i: nat): (r: Game)
    requires WellFormed(g) && i < |g.players|
    ensures WellFormed(r) && |r.players| == |g.players| && |r.countries| == |g.countries|
    ensures r.currentPhase == g.currentPhase && r.currentRound == g.currentRound
    ensures r.gameState == g.gameState && r.turnResolutions == g.turnResolutions
    ensures forall j :: 0 <= j < |g.players| ==>
              && r.players[j].kind == g.players[j].kind
              && r.players[j].countryIndex == g.players[j].countryIndex
              && r.playerActions[j].attackTargets == g.playerActions[j].attackTargets
    ensures forall j :: 0 <= j < |g.players| && (j != i || !Bound(g, systems, j)) ==>
              r.players[j] == g.players[j] && r.playerActions[j] == g.playerActions[j]
    ensures Valid(g) ==> Valid(r)
    ensures Valid(g) && Bound(g, systems, i) ==> Recorded(g, r, i, AIDecisions(g, systems, i))
  {
    var p := g.players[i];
    if p.IsAI() && p.countryIndex in systems then
      var ds := AIDecisions(g, systems, i);
      assert Valid(g) ==> Valid(ExecutePurchases(g, i, ds)) && Recorded(g, ExecutePurchases(g, i, ds), i, ds) by {
        if Valid(g) {
          ExecutePurchasesPreservesValid(g, i, ds);
          AIDecisionsAllCarriedOut(g, i, systems[p.countryIndex]);
        }
      }
      ExecutePurchases(g, i, ds)
    else g
  }

  /** `executeAIPurchases` over the first `n` players. */
  function ExecuteAIPurchases(g: Game, systems: map<nat, AIStrategy>, n: nat): (r: Game)
    requires WellFormed(g) && n <= |g.players|
    ensures WellFormed(r) && |r.players| == |g.players| && |r.countries| == |g.countries|
    ensures r.currentPhase == g.currentPhase && r.currentRound == g.currentRound
    ensures r.gameState == g.gameState && r.turnResolutions == g.turnResolutions
    ensures forall j :: 0 <= j < |g.players| ==>
              && r.players[j].kind == g.players[j].kind
              && r.players[j].countryIndex == g.players[j].countryIndex
              && r.playerActions[j].attackTargets == g.playerActions[j].attackTargets
    ensures forall j :: 0 <= j < |g.players| && (j >= n || !Bound(g, systems, j)) ==>
              r.players[j] == g.players[j] && r.playerActions[j] == g.playerActions[j]
    ensures Valid(g) ==> Valid(r)
    decreases n
  {
    if n == 0 then g
    else
      var prev := ExecuteAIPurchases(g, systems, n - 1);
      assert forall j :: 0 <= j < |g.players| ==> (Bound(prev, systems, j) <==> Bound(g, systems, j));
      AIPurchaseStep(prev, systems, n - 1)
  }

  /** Across the whole loop, every bound AI among the first `n` players has
      carried out, in full, what it decided when its turn came: the
      decisions are recorded, their cost charged and their rockets added. */
  lemma {:induction false} ExecuteAIPurchasesRecorded(g: Game, systems: map<nat, AIStrategy>, n: nat, j: nat)
    requires Valid(g) && n <= |g.players| && j < n && Bound(g, systems, j)
    ensures var before := ExecuteAIPurchases(g, systems, j);
            && Bound(before, systems, j)
            && Recorded(g, ExecuteAIPurchases(g, systems, n), j, AIDecisions(before, systems, j))
  {
    AIPurchasesFrame(g, systems, j, j);
    AIPurchasesTurnKept(g, systems, n, j);
    RecordedRebase(g, ExecuteAIPurchases(g, systems, j), ExecuteAIPurchases(g, systems, n),
                   ExecuteAIPurchases(g, systems, n), j,
                   AIDecisions(ExecuteAIPurchases(g, systems, j), systems, j));
  }

  /** What player `j` records on its own pass is still there after the
      first `n` passes. */
  lemma {:induction false} AIPurchasesTurnKept(g: Game, systems: map<nat, AIStrategy>, n: nat, j: nat)
    requires Valid(g) && n <= |g.players| && j < n && Bound(g, systems, j)
    ensures Bound(ExecuteAIPurchases(g, systems, j), systems, j)
    ensures Recorded(ExecuteAIPurchases(g, systems, j), ExecuteAIPurchases(g, systems, n), j,
                     AIDecisions(ExecuteAIPurchases(g, systems, j), systems, j))
  {
    var before, after, last := ExecuteAIPurchases(g, systems, j), ExecuteAIPurchases(g, systems, j + 1), ExecuteAIPurchases(g, systems, n);
    AIPurchasesTurn(g, systems, j);
    AIPurchasesSettled(g, systems, j + 1, n, j);
    RecordedRebase(before, before, last, after, j, AIDecisions(before, systems, j));
  }

  /** Player `j`, its purchase list and its target list look the same in
      both matches. */
  predicate SamePlayer(a: Game, b: Game, j: nat)
  {
    && j < |a.players| && j < |a.playerActions| && j < |b.players| && j < |b.playerActions|
    && b.players[j] == a.players[j]
    && b.playerActions[j].purchaseActions == a.playerActions[j].purchaseActions
    && b.playerActions[j].attackTargets == a.playerActions[j].attackTargets
  }

  lemma SamePlayerTrans(a: Game, b: Game, c: Game, j: nat)
    requires SamePlayer(a, b, j) && SamePlayer(b, c, j)
    ensures SamePlayer(a, c, j)
  {
  }

  /** Players from position `n` on have not had their turn yet. */
  lemma {:induction false} AIPurchasesFrame(g: Game, systems: map<nat, AIStrategy>, n: nat, j: nat)
    requires WellFormed(g) && n <= j < |g.players|
    ensures SamePlayer(g, ExecuteAIPurchases(g, systems, n), j)
    ensures Bound(ExecuteAIPurchases(g, systems, n), systems, j) <==> Bound(g, systems, j)
  {
  }

  /** Player `j`'s own pass records what it decides against the match as
      the earlier passes left it. */
  lemma {:induction false} AIPurchasesTurn(g: Game, systems: map<nat, AIStrategy>, j: nat)
    requires Valid(g) && j < |g.players| && Bound(g, systems, j)
    ensures Bound(ExecuteAIPurchases(g, systems, j), systems, j)
    ensures Recorded(ExecuteAIPurchases(g, systems, j), ExecuteAIPurchases(g, systems, j + 1), j,
                     AIDecisions(ExecuteAIPurchases(g, systems, j), systems, j))
  {
    AIPurchasesFrame(g, systems, j, j);
    AIPurchaseStepRecorded(ExecuteAIPurchases(g, systems, j), systems, j);
  }

  /** Once player `j` has had its turn, later passes leave it alone. */
  lemma {:induction false} AIPurchasesSettled(g: Game, systems: map<nat, AIStrategy>, m: nat, n: nat, j: nat)
    requires WellFormed(g) && j < m <= n <= |g.players|
    ensures SamePlayer(ExecuteAIPurchases(g, systems, m), ExecuteAIPurchases(g, systems, n), j)
  {
    var passes := AIPurchasePasses(g, systems, n);
    forall k | m <= k < n ensures PassKeeps(passes, k, j) {
      AIPurchasePassKeeps(g, systems, n, k, j);
    }
    KeptAlong(passes, m, n, j);
  }

  /** The matches the purchase loop goes through: `n + 1` of them, the
      `k`-th after `k` passes. */
  function AIPurchasePasses(g: Game, systems: map<nat, AIStrategy>, n: nat): (passes: seq<Game>)
    requires WellFormed(g) && n <= |g.players|
    ensures |passes| == n + 1
    ensures forall k :: 0 <= k <= n ==> passes[k] == ExecuteAIPurchases(g, systems, k)
  {
    seq(n + 1, k requires 0 <= k <= n => ExecuteAIPurchases(g, systems, k))
  }

  lemma {:induction false} AIPurchasePassKeeps(g: Game, systems: map<nat, AIStrategy>, n: nat, k: nat, j: nat)
    requires WellFormed(g) && j < k < n <= |g.players|
    ensures PassKeeps(AIPurchasePasses(g, systems, n), k, j)
  {
    AIPurchasesLaterPass(g, systems, k + 1, j);
  }

  /** The pass from match `k` to match `k + 1` of `passes` leaves player
      `j` alone. */
  predicate PassKeeps(passes: seq<Game>, k: nat, j: nat)
  {
    k + 1 < |passes| && SamePlayer(passes[k], passes[k + 1], j)
  }

  /** Passes that each leave player `j` alone leave it alone together. */
  lemma {:induction false} KeptAlong(passes: seq<Game>, m: nat, n: nat, j: nat)
    requires m <= n < |passes| && j < |passes[m].players| && j < |passes[m].playerActions|
    requires forall k :: m <= k < n ==> PassKeeps(passes, k, j)
    ensures SamePlayer(passes[m], passes[n], j)
    decreases n
  {
    if n > m {
      KeptAlong(passes, m, n - 1, j);
      assert PassKeeps(passes, n - 1, j);
    }
  }

  /** The pass for player `n - 1` leaves an earlier player `j` alone. */
  lemma {:induction false} AIPurchasesLaterPass(g: Game, systems: map<nat, AIStrategy>, n: nat, j: nat)
    requires WellFormed(g) && j < n - 1 && n <= |g.players|
    ensures SamePlayer(ExecuteAIPurchases(g, systems, n - 1), ExecuteAIPurchases(g, systems, n), j)
  {
    AIPurchaseStepFrame(ExecuteAIPurchases(g, systems, n - 1), systems, n - 1, j);
  }

  /** One player's turn leaves every other player alone. */
  lemma {:induction false} AIPurchaseStepFrame(g: Game, systems: map<nat, AIStrategy>, i: nat, j: nat)
    requires WellFormed(g) && i < |g.players| && j < |g.players| && j != i
    ensures SamePlayer(g, AIPurchaseStep(g, systems, i), j)
  {
  }

  lemma {:induction false} AIPurchaseStepRecorded(g: Game, systems: map<nat, AIStrategy>, i: nat)
    requires Valid(g) && i < |g.players| && Bound(g, systems, i)
    ensures Recorded(g, AIPurchaseStep(g, systems, i), i, AIDecisions(g, systems, i))
  {
  }

  /** A record between two states carries over to states that agree with
      them on player `i`. */
  lemma RecordedRebase(g: Game, g1: Game, r: Game, r1: Game, i: nat, acts: seq<GameAction>)
    requires Recorded(g1, r1, i, acts)
    requires SamePlayer(g, g1, i) && SamePlayer(r1, r, i)
    ensures Recorded(g, r, i, acts)
  {
  }

  /** One pass of the inner loop of `executeAITargeting`: with a rocket
      left, one is spent and the target recorded; otherwise nothing
      changes. */
  function RecordTarget(g: Game, i: nat, t: AttackTarget): (r: Game)
    requires WellFormed(g) && i < |g.players| && t.targetCountryIndex < |g.countries|
    ensures WellFormed(r) && |r.players| == |g.players| && r.countries == g.countries
    ensures r.currentPhase == g.currentPhase && r.currentRound == g.currentRound
    ensures r.gameState == g.gameState && r.turnResolutions == g.turnResolutions
    ensures forall j :: 0 <= j < |g.players| && j != i ==> r.players[j] == g.players[j] && r.playerActions[j] == g.playerActions[j]
    ensures g.players[i].availableRockets <= 0 ==> r == g
    ensures g.players[i].availableRockets > 0 ==>
              && r.playerActions[i].attackTargets == g.playerActions[i].attackTargets + [t]
              && r.playerActions[i].purchaseActions == g.playerActions[i].purchaseActions
              && r.players[i] == g.players[i].(availableRockets := g.players[i].availableRockets - 1)
    ensures Valid(g) ==> Valid(r)
  {
    var u := g.players[i].UseRocket();
    if u.succeeded then
      var r := g.(players := g.players[i := u.state],
                  playerActions := g.playerActions[i := g.playerActions[i].AddAttackTarget(t)]);
      assert WellFormed(r) by {
        var t1 := r.playerActions[i].attackTargets;
        assert t1 == g.playerActions[i].attackTargets + [t];
        assert forall k :: 0 <= k < |t1| ==> t1[k].targetCountryIndex < |g.countries|;
      }
      r
    else g
  }

  /** The inner loop of `executeAITargeting`: a target is recorded only
      when a rocket could be spent on it, so exactly the first
      `availableRockets` targets are recorded. */
  function ExecuteTargets(g: Game, i: nat, ts: seq<AttackTarget>): (r: Game)
    requires WellFormed(g) && i < |g.players| && TargetsInRange(|g.countries|, ts)
    ensures WellFormed(r) && |r.players| == |g.players| && r.countries == g.countries
    ensures r.currentPhase == g.currentPhase && r.currentRound == g.currentRound
    ensures r.gameState == g.gameState && r.turnResolutions == g.turnResolutions
    ensures forall j :: 0 <= j < |g.players| && j != i ==> r.players[j] == g.players[j] && r.playerActions[j] == g.playerActions[j]
    ensures var p := g.players[i];
            var k := if p.availableRockets <= 0 then 0 else Min(p.availableRockets, |ts|);
            && r.playerActions[i].attackTargets == g.playerActions[i].attackTargets + ts[..k]
            && r.playerActions[i].purchaseActions == g.playerActions[i].purchaseActions
            && r.players[i] == p.(availableRockets := p.availableRockets - k)
    ensures Valid(g) ==> Valid(r)
    decreases |ts|
  {
    if |ts| == 0 then g
    else
      var g1 := RecordTarget(g, i, ts[0]);
      assert TargetsInRange(|g.countries|, ts[1..]);
      var p := g.players[i];
      if p.availableRockets > 0 then
        PrefixCons(g.playerActions[i].attackTargets, ts, Min(p.availableRockets, |ts|));
        ExecuteTargets(g1, i, ts[1..])
      else
        ExecuteTargets(g1, i, ts[1..])
  }

  /** Recording the first of the first `k` targets, then the rest of them. */
  lemma PrefixCons<T>(prev: seq<T>, ts: seq<T>, k: nat)
    requires 0 < k <= |ts|
    ensures prev + [ts[0]] + ts[1..][..k - 1] == prev + ts[..k]
  {
    assert ts[..k] == [ts[0]] + ts[1..][..k - 1];
  }

  /** Player `i` has recorded the targets `ts` between `g` and `r`, spending
      one rocket on each and changing nothing else about itself. */
  predicate Targeted(g: Game, r: Game, i: nat, ts: seq<AttackTarget>)
  {
    && i < |g.players| && i < |r.players| && i < |g.playerActions| && i < |r.playerActions|
    && r.playerActions[i].attackTargets == g.playerActions[i].attackTargets + ts
    && r.players[i] == g.players[i].(availableRockets := g.players[i].availableRockets - |ts|)
  }

  /** Every target the AI picks is recorded, and a rocket is spent on each. */
  lemma AITargetsAllRecorded(g: Game, i: nat, jitter: (nat, nat) -> nat)
    requires WellFormed(g) && i < |g.players|
    ensures var ts := SelectAttackTargets(g.players[i], g.countries, jitter);
            TargetsInRange(|g.countries|, ts) && Targeted(g, ExecuteTargets(g, i, ts), i, ts)
  {
    var p := g.players[i];
    var ts := SelectAttackTargets(p, g.countries, jitter);
    assert forall k :: 0 <= k < |ts| ==> LegalTarget(g.countries, p.countryIndex, ts[k]);
    assert ts[..|ts|] == ts;
  }

  /** One pass of `executeAITargeting`' outer loop; `jitter` is the random
      term of player `i`'s target scores. */
  function AITargetingStep(g: Game, systems: map<nat, AIStrategy>, jitter: (nat, nat) -> nat, i: nat): (r: Game)
    requires WellFormed(g) && i < |g.players|
    ensures WellFormed(r) && |r.players| == |g.players| && r.countries == g.countries
    ensures r.currentPhase == g.currentPhase && r.currentRound == g.currentRound
    ensures r.gameState == g.gameState && r.turnResolutions == g.turnResolutions
    ensures forall j :: 0 <= j < |g.players| ==>
              && r.players[j].kind == g.players[j].kind
              && r.players[j].countryIndex == g.players[j].countryIndex
              && r.players[j].coins == g.players[j].coins
              && r.playerActions[j].purchaseActions == g.playerActions[j].purchaseActions
    ensures forall j :: 0 <= j < |g.players| && (j != i || !Bound(g, systems, j)) ==>
              r.players[j] == g.players[j] && r.playerActions[j] == g.playerActions[j]
    ensures Valid(g) ==> Valid(r)
    ensures Bound(g, systems, i) ==> Targeted(g, r, i, SelectAttackTargets(g.players[i], g.countries, jitter))
  {
    var p := g.players[i];
    if p.IsAI() && p.countryIndex in systems then
      var ts := SelectAttackTargets(p, g.countries, jitter);
      AITargetsAllRecorded(g, i, jitter);
      ExecuteTargets(g, i, ts)
    else g
  }

  /** `executeAITargeting` over the first `n` players; `jitter(i)` is the
      random term of player `i`'s target scores. */
  function ExecuteAITargeting(g: Game, systems: map<nat, AIStrategy>, jitter: nat -> (nat, nat) -> nat, n: nat): (r: Game)
    requires WellFormed(g) && n <= |g.players|
    ensures WellFormed(r) && |r.players| == |g.players| && r.countries == g.countries
    ensures r.currentPhase == g.currentPhase && r.currentRound == g.currentRound
    ensures r.gameState == g.gameState && r.turnResolutions == g.turnResolutions
    ensures forall j :: 0 <= j < |g.players| ==>
              && r.players[j].kind == g.players[j].kind
              && r.players[j].countryIndex == g.players[j].countryIndex
              && r.players[j].coins == g.players[j].coins
              && r.playerActions[j].purchaseActions == g.playerActions[j].purchaseActions
    ensures forall j :: 0 <= j < |g.players| && (j >= n || !Bound(g, systems, j)) ==>
              r.players[j] == g.players[j] && r.playerActions[j] == g.playerActions[j]
    ensures Valid(g) ==> Valid(r)
    decreases n
  {
    if n == 0 then g
    else
      var prev := ExecuteAITargeting(g, systems, jitter, n - 1);
      assert forall j :: 0 <= j < |g.players| ==> (Bound(prev, systems, j) <==> Bound(g, systems, j));
      AITargetingStep(prev, systems, jitter(n - 1), n - 1)
  }

  /** Across the whole loop, every bound AI among the first `n` players has
      recorded every target it picked, each with a rocket spent. Targeting
      changes no country and no player before its own turn, so the pick is
      the one against the match as it was when the loop started. */
  lemma {:induction false} ExecuteAITargetingRecorded(g: Game, systems: map<nat, AIStrategy>, jitter: nat -> (nat, nat) -> nat, n: nat, j: nat)
    requires WellFormed(g) && n <= |g.players| && j < n && Bound(g, systems, j)
    ensures Targeted(g, ExecuteAITargeting(g, systems, jitter, n), j, SelectAttackTargets(g.players[j], g.countries, jitter(j)))
  {
    AITargetingTurn(g, systems, jitter, j);
    AITargetingSettled(g, systems, jitter, j + 1, n, j);
    TargetedKept(g, ExecuteAITargeting(g, systems, jitter, j + 1), ExecuteAITargeting(g, systems, jitter, n), j,
                 SelectAttackTargets(g.players[j], g.countries, jitter(j)));
  }

  /** Once player `j` has had its targeting turn, later passes leave it alone. */
  lemma {:induction false} AITargetingSettled(g: Game, systems: map<nat, AIStrategy>, jitter: nat -> (nat, nat) -> nat, m: nat, n: nat, j: nat)
    requires WellFormed(g) && j < m <= n <= |g.players|
    ensures SamePlayer(ExecuteAITargeting(g, systems, jitter, m), ExecuteAITargeting(g, systems, jitter, n), j)
  {
    var passes := AITargetingPasses(g, systems, jitter, n);
    forall k | m <= k < n ensures PassKeeps(passes, k, j) {
      AITargetingLaterPass(g, systems, jitter, k + 1, j);
    }
    KeptAlong(passes, m, n, j);
  }

  /** The matches the targeting loop goes through, the `k`-th after `k` passes. */
  function AITargetingPasses(g: Game, systems: map<nat, AIStrategy>, jitter: nat -> (nat, nat) -> nat, n: nat): (passes: seq<Game>)
    requires WellFormed(g) && n <= |g.players|
    ensures |passes| == n + 1
    ensures forall k :: 0 <= k <= n ==> passes[k] == ExecuteAITargeting(g, systems, jitter, k)
  {
    seq(n + 1, k requires 0 <= k <= n => ExecuteAITargeting(g, systems, jitter, k))
  }

  lemma TargetedKept(g: Game, r1: Game, r: Game, j: nat, ts: seq<AttackTarget>)
    requires Targeted(g, r1, j, ts) && SamePlayer(r1, r, j)
    ensures Targeted(g, r, j, ts)
  {
  }

  /** Player `j`'s own pass records its picks against the match it started
      from: no earlier pass touched it or any country. */
  lemma {:induction false} AITargetingTurn(g: Game, systems: map<nat, AIStrategy>, jitter: nat -> (nat, nat) -> nat, j: nat)
    requires WellFormed(g) && j < |g.players| && Bound(g, systems, j)
    ensures Targeted(g, ExecuteAITargeting(g, systems, jitter, j + 1), j, SelectAttackTargets(g.players[j], g.countries, jitter(j)))
  {
    var prev := ExecuteAITargeting(g, systems, jitter, j);
    assert prev.players[j] == g.players[j] && prev.playerActions[j] == g.playerActions[j];
    assert ExecuteAITargeting(g, systems, jitter, j + 1) == AITargetingStep(prev, systems, jitter(j), j);
  }

  /** The pass for player `n - 1` leaves an earlier player `j` alone. */
  lemma {:induction false} AITargetingLaterPass(g: Game, systems: map<nat, AIStrategy>, jitter: nat -> (nat, nat) -> nat, n: nat, j: nat)
    requires WellFormed(g) && j < n - 1 && n <= |g.players|
    ensures SamePlayer(ExecuteAITargeting(g, systems, jitter, n - 1), ExecuteAITargeting(g, systems, jitter, n), j)
  {
    var prev := ExecuteAITargeting(g, systems, jitter, n - 1);
    assert ExecuteAITargeting(g, systems, jitter, n) == AITargetingStep(prev, systems, jitter(n - 1), n - 1);
  }

  // ---------------------------------------------------------------------
  // Phase driver

  /** `endCurrentPhase`: ignored while a resolution is being shown;
      otherwise the AI players act for the phase being closed and the match
      moves on. Closing the resolution phase starts the animation lock and
      keeps the last resolution for display. */
  function EndCurrentPhase(m: Manager, order: seq<nat>, jitter: nat -> (nat, nat) -> nat): (r: Manager)
    requires WellFormed(m.game) && IsOrdering(order, |m.game.players|)
    ensures WellFormed(r.game) && |r.game.players| == |m.game.players|
    ensures m.isProcessingTurn ==> r == m
    ensures !m.isProcessingTurn && m.game.currentPhase == Economy ==>
              && r == m.(game := r.game)
              && r.game == NextPhase(ExecuteAIPurchases(m.game, m.aiSystems, |m.game.players|), order)
    ensures !m.isProcessingTurn && m.game.currentPhase == Targeting ==>
              && r == m.(game := r.game)
              && r.game == NextPhase(ExecuteAITargeting(m.game, m.aiSystems, jitter, |m.game.players|), order)
    ensures !m.isProcessingTurn && m.game.currentPhase == Resolution ==>
              && r.isProcessingTurn
              && r.game == NextPhase(m.game, order)
              && r.lastTurnResolution == (if |m.game.turnResolutions| > 0 then Some(m.game.turnResolutions[|m.game.turnResolutions| - 1]) else m.lastTurnResolution)
              && r.(game := m.game, isProcessingTurn := false, lastTurnResolution := m.lastTurnResolution) == m
  {
    if m.isProcessingTurn then m
    else match m.game.currentPhase
      case Economy => EndEconomyPhase(m, order)
      case Targeting => EndTargetingPhase(m, order, jitter)
      case Resolution => EndResolutionPhase(m, order)
  }

  /** `processEconomyPhaseEnd`: the AI players buy, then the match moves to
      targeting. */
  function EndEconomyPhase(m: Manager, order: seq<nat>): (r: Manager)
    requires WellFormed(m.game) && m.game.currentPhase == Economy && IsOrdering(order, |m.game.players|)
    ensures WellFormed(r.game) && |r.game.players| == |m.game.players|
    ensures r == m.(game := r.game)
    ensures r.game.currentPhase == Targeting && r.game.currentRound == m.game.currentRound
    ensures r.game == NextPhase(ExecuteAIPurchases(m.game, m.aiSystems, |m.game.players|), order)
    ensures forall j :: 0 <= j < |m.game.players| && !Bound(m.game, m.aiSystems, j) ==>
              r.game.players[j] == m.game.players[j] && r.game.playerActions[j] == m.game.playerActions[j]
    ensures Valid(m.game) ==> Valid(r.game)
  {
    var g := ExecuteAIPurchases(m.game, m.aiSystems, |m.game.players|);
    m.(game := NextPhase(g, order))
  }

  /** `processTargetingPhaseEnd`: the AI players choose targets, then the
      match moves to resolution, which resolves the turn. */
  function EndTargetingPhase(m: Manager, order: seq<nat>, jitter: nat -> (nat, nat) -> nat): (r: Manager)
    requires WellFormed(m.game) && m.game.currentPhase == Targeting && IsOrdering(order, |m.game.players|)
    ensures WellFormed(r.game) && |r.game.players| == |m.game.players|
    ensures r == m.(game := r.game)
    ensures r.game.currentPhase == Resolution && r.game.currentRound == m.game.currentRound
    ensures |r.game.turnResolutions| == |m.game.turnResolutions| + 1
    ensures r.game == NextPhase(ExecuteAITargeting(m.game, m.aiSystems, jitter, |m.game.players|), order)
    ensures forall j :: 0 <= j < |m.game.players| && !Bound(m.game, m.aiSystems, j) ==>
              r.game.players[j] == m.game.players[j] && r.game.playerActions[j] == m.game.playerActions[j]
    ensures Valid(m.game) ==> Valid(r.game)
  {
    var g := ExecuteAITargeting(m.game, m.aiSystems, jitter, |m.game.players|);
    assert Valid(m.game) ==> Valid(NextPhase(g, order)) by {
      if Valid(m.game) {
        NextPhasePreservesValid(g, order);
      }
    }
    m.(game := NextPhase(g, order))
  }

  /** Closing the economy phase records, for every AI player with a
      strategy, the purchases its strategy decided on its own turn, paid for
      and with the rockets bought added. */
  lemma {:induction false} EndEconomyPhaseRecorded(m: Manager, order: seq<nat>, j: nat)
    requires Valid(m.game) && m.game.currentPhase == Economy && IsOrdering(order, |m.game.players|)
    requires j < |m.game.players| && Bound(m.game, m.aiSystems, j)
    ensures var before := ExecuteAIPurchases(m.game, m.aiSystems, j);
            Recorded(m.game, EndEconomyPhase(m, order).game, j, AIDecisions(before, m.aiSystems, j))
  {
    ExecuteAIPurchasesRecorded(m.game, m.aiSystems, |m.game.players|, j);
  }

  /** Closing the targeting phase records, for every AI player with a
      strategy, the targets it picked against the match as the phase ended,
      spends a rocket on each, and resolves the turn from those lists. */
  lemma {:induction false} EndTargetingPhaseRecorded(m: Manager, order: seq<nat>, jitter: nat -> (nat, nat) -> nat, j: nat)
    requires WellFormed(m.game) && m.game.currentPhase == Targeting && IsOrdering(order, |m.game.players|)
    requires j < |m.game.players| && Bound(m.game, m.aiSystems, j)
    ensures Targeted(m.game, EndTargetingPhase(m, order, jitter).game, j,
                     SelectAttackTargets(m.game.players[j], m.game.countries, jitter(j)))
  {
    ExecuteAITargetingRecorded(m.game, m.aiSystems, jitter, |m.game.players|, j);
  }

  /** `processResolutionPhaseEnd`: the manager locks until the animation
      has finished, keeps the last turn resolution for display, and the
      match ends or starts the next round. */
  function EndResolutionPhase(m: Manager, order: seq<nat>): (r: Manager)
    requires WellFormed(m.game) && m.game.currentPhase == Resolution && IsOrdering(order, |m.game.players|)
    ensures WellFormed(r.game) && |r.game.players| == |m.game.players|
    ensures r.isProcessingTurn
    ensures r.game == NextPhase(m.game, order)
    ensures r.lastTurnResolution == (if |m.game.turnResolutions| > 0 then Some(m.game.turnResolutions[|m.game.turnResolutions| - 1]) else m.lastTurnResolution)
    ensures r.(game := m.game, isProcessingTurn := m.isProcessingTurn, lastTurnResolution := m.lastTurnResolution) == m
  {
    var last := if |m.game.turnResolutions| > 0 then Some(m.game.turnResolutions[|m.game.turnResolutions| - 1]) else m.lastTurnResolution;
    m.(isProcessingTurn := true, lastTurnResolution := last, game := NextPhase(m.game, order))
  }

  /** The end of the animation delay. */
  function AnimationFinished(m: Manager): (r: Manager)
    ensures !r.isProcessingTurn && !r.animationInProgress
    ensures r.(isProcessingTurn := m.isProcessingTurn, animationInProgress := m.animationInProgress) == m
  {
    m.(isProcessingTurn := false, animationInProgress := false)
  }

  /** Every command keeps the match invariants. */
  lemma EndCurrentPhasePreservesValid(m: Manager, order: seq<nat>, jitter: nat -> (nat, nat) -> nat)
    requires Valid(m.game) && IsOrdering(order, |m.game.players|)
    ensures Valid(EndCurrentPhase(m, order, jitter).game)
  {
    if !m.isProcessingTurn && m.game.currentPhase == Resolution {
      NextPhasePreservesValid(m.game, order);
    }
  }

  /** Closing the resolution phase locks the driver: a second
      `endCurrentPhase` does nothing until the animation has finished. */
  lemma ResolutionLocksUntilAnimationFinished(m: Manager, order: seq<nat>, jitter: nat -> (nat, nat) -> nat)
    requires WellFormed(m.game) && IsOrdering(order, |m.game.players|)
    requires !m.isProcessingTurn && m.game.currentPhase == Resolution
    ensures var r := EndCurrentPhase(m, order, jitter);
            && r.isProcessingTurn
            && EndCurrentPhase(r, order, jitter) == r
            && !AnimationFinished(r).isProcessingTurn
  {
  }

  /** Whenever the phase cannot be ended, ending it changes nothing. */
  lemma CannotEndPhaseIsNoOp(m: Manager, order: seq<nat>, jitter: nat -> (nat, nat) -> nat)
    requires WellFormed(m.game) && IsOrdering(order, |m.game.players|)
    requires !CanEndPhase(m)
    ensures EndCurrentPhase(m, order, jitter) == m
  {
  }

  /** `canEndPhase`. */
  predicate CanEndPhase(m: Manager)
  {
    match m.game.currentPhase
    case Economy => true
    case Targeting => true
    case Resolution => !m.isProcessingTurn
  }

  /** `isGameOver`: the match has reached a terminal state, which is
      exactly when a result is available. */
  function IsGameOver(m: Manager): (r: bool)
    ensures r <==> m.game.gameState !in {InProgress, NotStarted}
    ensures r <==> GetGameResult(m.game).Some?
  {
    m.game.gameState != InProgress && m.game.gameState != NotStarted
  }

  /** `isRegionDestroyed`; the source traps outside the lists. */
  function IsRegionDestroyed(m: Manager, countryIndex: nat, regionIndex: nat): bool
    requires countryIndex < |m.game.countries| && regionIndex < |m.game.countries[countryIndex].regions|
  {
    m.game.countries[countryIndex].regions[regionIndex].isDestroyed
  }
}
