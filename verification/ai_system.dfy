/** The AI opponent: a greedy purchase policy under a coin budget and the
    per-round rocket cap, and a top-N target ranking. Scores are integers:
    priorities and weights in hundredths, so purchase scores (priority times
    weight) are in ten-thousandths. The random term of the target score is
    the parameter `jitter`. */
module AI {
  import opened Common
  import opened Regions
  import opened Countries
  import opened Players
  import opened GameActions
  import opened Ranking
  import Games

  datatype AIStrategy = Aggressive | Balanced | Defensive

  /** `rocketPriority`, in hundredths. */
  function RocketWeight(s: AIStrategy): nat
  {
    match s
    case Aggressive => 80
    case Balanced => 60
    case Defensive => 40
  }

  /** `airDefensePriority`, in hundredths. */
  function AirDefenseWeight(s: AIStrategy): nat
  {
    match s
    case Aggressive => 20
    case Balanced => 40
    case Defensive => 60
  }

  /** The strategies favour what their names say, and the two weights
      always add up to one. */
  lemma StrategyWeights(s: AIStrategy)
    ensures RocketWeight(s) + AirDefenseWeight(s) == 100
    ensures s == Aggressive ==> RocketWeight(s) > AirDefenseWeight(s)
    ensures s == Defensive ==> RocketWeight(s) < AirDefenseWeight(s)
    ensures RocketWeight(Defensive) < RocketWeight(Balanced) < RocketWeight(Aggressive)
  {
  }

  datatype AIDecision = AIDecision(action: GameAction, priority: int, regionIndex: nat)

  datatype AITargetSelection = AITargetSelection(target: AttackTarget, priority: int)

  function ActionOf(d: AIDecision): GameAction { d.action }
  function DecisionPriority(d: AIDecision): int { d.priority }
  function TargetOf(t: AITargetSelection): AttackTarget { t.target }
  function SelectionPriority(t: AITargetSelection): int { t.priority }

  // ---------------------------------------------------------------------
  // Purchase scores

  /** How many entries of `all` sit at an offset other than the country's
      own index (each counts as one possible enemy rocket). */
  function EnemySlots(country: Country, all: seq<Country>): nat
  {
    |all| - (if country.countryIndex < |all| then 1 else 0)
  }

  /** `calculateAirDefensePriority`, in hundredths, capped at one. */
  function AirDefensePriority(g: Region, country: Country, all: seq<Country>): (p: nat)
    ensures p <= 100
    ensures !g.hasAirDefense && EnemySlots(country, all) > 0 ==> p == 100
  {
    Min(50 + (if !g.hasAirDefense then 30 else 0) + (if EnemySlots(country, all) > 0 then 40 else 0), 100)
  }

  /** `calculateRocketPriority`: 0.8 while some enemy is alive, else 0.2. */
  function RocketPriority(all: seq<Country>): (p: nat)
    ensures p == 80 <==> |Games.AliveCountries(all)| > 1
    ensures p == 20 <==> |Games.AliveCountries(all)| <= 1
  {
    if |Games.AliveCountries(all)| - 1 > 0 then 80 else 20
  }

  /** `selectBestRegionForRocket`: the first alive region, or 0 when
      every region is destroyed. */
  function BestRegionForRocket(country: Country): (i: nat)
    ensures (exists j :: 0 <= j < |country.regions| && !country.regions[j].isDestroyed) ==>
              && i < |country.regions|
              && !country.regions[i].isDestroyed
              && forall j :: 0 <= j < i ==> country.regions[j].isDestroyed
    ensures (forall j :: 0 <= j < |country.regions| ==> country.regions[j].isDestroyed) ==> i == 0
  {
    var i := FirstAlive(country.regions, 0);
    if i == |country.regions| then 0 else i
  }

  /** The first alive region at or after `from`, or `|rs|` when none is. */
  function FirstAlive(rs: seq<Region>, from: nat): (i: nat)
    requires from <= |rs|
    ensures from <= i <= |rs|
    ensures i < |rs| ==> !rs[i].isDestroyed
    ensures forall j :: from <= j < i ==> rs[j].isDestroyed
    decreases |rs| - from
  {
    if from == |rs| then |rs|
    else if !rs[from].isDestroyed then from
    else FirstAlive(rs, from + 1)
  }

  // ---------------------------------------------------------------------
  // Purchase decisions

  /** The air-defense candidates among the first `k` regions, in region
      order: alive, undefended regions, when the player can pay. */
  function AirDefenseCandidates(s: AIStrategy, p: Player, c: Country, all: seq<Country>, k: nat): (r: seq<AIDecision>)
    requires k <= |c.regions|
    ensures forall i :: 0 <= i < |r| ==>
              && r[i].action == BuyAirDefense(r[i].regionIndex)
              && r[i].regionIndex < k
              && c.CanBuyAirDefenseAt(r[i].regionIndex)
              && r[i].priority <= 100 * AirDefenseWeight(s)
    decreases k
  {
    if k == 0 then []
    else
      var prev := AirDefenseCandidates(s, p, c, all, k - 1);
      var g := c.regions[k - 1];
      if !g.isDestroyed && g.CanBuyAirDefense() && p.coins >= AirDefenseCost then
        prev + [AIDecision(BuyAirDefense(k - 1), AirDefensePriority(g, c, all) * AirDefenseWeight(s), k - 1)]
      else prev
  }

  /** The rocket loop: one candidate per affordable rocket still allowed. */
  function RocketCandidates(n: int, available: int, region: nat, priority: int): (r: seq<AIDecision>)
    ensures forall i :: 0 <= i < |r| ==> r[i] == AIDecision(BuyRocket(region), priority, region)
    ensures |r| <= if n > 0 then n else 0
    decreases if n > 0 then n else 0
  {
    if n > 0 && available >= RocketCost then
      [AIDecision(BuyRocket(region), priority, region)] + RocketCandidates(n - 1, available - RocketCost, region, priority)
    else []
  }

  /** Every candidate decision, before ranking. */
  function PurchaseCandidates(s: AIStrategy, p: Player, c: Country, all: seq<Country>): seq<AIDecision>
  {
    var rocketsCanBuy := Min(MaxRocketsPerTurn - p.rocketsUsedThisTurn, TruncDiv(p.coins, RocketCost));
    AirDefenseCandidates(s, p, c, all, |c.regions|)
      + RocketCandidates(rocketsCanBuy, p.coins, BestRegionForRocket(c), RocketPriority(all) * RocketWeight(s))
  }

  function Cost(a: GameAction): nat
  {
    match a
    case BuyRocket(_) => RocketCost
    case BuyAirDefense(_) => AirDefenseCost
    case NoAction => 0
  }

  function TotalCost(actions: seq<GameAction>): nat
  {
    if |actions| == 0 then 0 else Cost(actions[0]) + TotalCost(actions[1..])
  }

  function RocketCount(actions: seq<GameAction>): nat
  {
    if |actions| == 0 then 0 else (if actions[0].BuyRocket? then 1 else 0) + RocketCount(actions[1..])
  }

  /** The commit loop: walk the ranked decisions, keeping each one the
      running budget and the running rocket counter still allow. It is
      greedy to the end: an air defense left out, or fewer rockets kept than
      offered, means the coins (or the rocket counter) that remain could not
      have paid for it. */
  function Commit(ds: seq<AIDecision>, coins: int, used: int): (r: seq<GameAction>)
    ensures coins >= 0 ==> TotalCost(r) <= coins
    ensures used + RocketCount(r) <= MaxRocketsPerTurn || RocketCount(r) == 0
    ensures multiset(r) <= multiset(MapSeq(ds, ActionOf))
    ensures NoAction !in r
    ensures forall k :: 0 <= k < |ds| && ds[k].action.BuyAirDefense? && ds[k].action !in r ==>
              coins - TotalCost(r) < AirDefenseCost
    ensures RocketCount(r) < RocketCount(MapSeq(ds, ActionOf)) ==>
              coins - TotalCost(r) < RocketCost || used + RocketCount(r) >= MaxRocketsPerTurn
    decreases |ds|
  {
    if |ds| == 0 then []
    else
      var a := ds[0].action;
      MapCons(ds[0], ds[1..], ActionOf);
      assert ds == [ds[0]] + ds[1..];
      var offered := MapSeq(ds, ActionOf);
      assert offered[1..] == MapSeq(ds[1..], ActionOf);
      assert RocketCount(offered) == (if a.BuyRocket? then 1 else 0) + RocketCount(MapSeq(ds[1..], ActionOf));
      assert forall k :: 1 <= k < |ds| ==> ds[k] == ds[1..][k - 1];
      match a
      case BuyRocket(_) =>
        if coins >= RocketCost && used < MaxRocketsPerTurn then
          var rest := Commit(ds[1..], coins - RocketCost, used + 1);
          KeepFirst(a, rest);
          [a] + rest
        else Commit(ds[1..], coins, used)
      case BuyAirDefense(_) =>
        if coins >= AirDefenseCost then
          var rest := Commit(ds[1..], coins - AirDefenseCost, used);
          KeepFirst(a, rest);
          [a] + rest
        else Commit(ds[1..], coins, used)
      case NoAction => Commit(ds[1..], coins, used)
  }

  /** Keeping one more decision in front adds its cost and its rocket. */
  lemma KeepFirst(a: GameAction, rest: seq<GameAction>)
    ensures TotalCost([a] + rest) == Cost(a) + TotalCost(rest)
    ensures RocketCount([a] + rest) == (if a.BuyRocket? then 1 else 0) + RocketCount(rest)
    ensures forall x :: x in [a] + rest <==> x == a || x in rest
  {
    assert ([a] + rest)[1..] == rest;
  }

  /** `makePurchaseDecisions`: rank the candidates by score, then commit
      greedily against the player's coins and rocket counter. */
  function MakePurchaseDecisions(s: AIStrategy, p: Player, c: Country, all: seq<Country>): (r: seq<GameAction>)
    ensures p.coins >= 0 ==> TotalCost(r) <= p.coins
    ensures p.rocketsUsedThisTurn + RocketCount(r) <= MaxRocketsPerTurn || RocketCount(r) == 0
    ensures forall a :: a in r && a.BuyAirDefense? ==> c.CanBuyAirDefenseAt(a.regionIndex)
    ensures forall a :: a in r && a.BuyRocket? ==> a == BuyRocket(BestRegionForRocket(c))
    ensures forall a: GameAction :: a.BuyAirDefense? ==> multiset(r)[a] <= 1
    ensures NoAction !in r
    ensures forall j :: 0 <= j < |c.regions| && c.CanBuyAirDefenseAt(j) && BuyAirDefense(j) !in r ==>
              p.coins - TotalCost(r) < AirDefenseCost
    ensures RocketCount(r) < Min(MaxRocketsPerTurn - p.rocketsUsedThisTurn, TruncDiv(p.coins, RocketCost)) ==>
              p.coins - TotalCost(r) < RocketCost || p.rocketsUsedThisTurn + RocketCount(r) >= MaxRocketsPerTurn
  {
    var cands := PurchaseCandidates(s, p, c, all);
    var ranked := Sort(cands, DecisionPriority);
    var r := Commit(ranked, p.coins, p.rocketsUsedThisTurn);
    forall j | 0 <= j < |c.regions| && c.CanBuyAirDefenseAt(j) && BuyAirDefense(j) !in r
      ensures p.coins - TotalCost(r) < AirDefenseCost
    {
      DefenseLeftOnlyWhenBroke(s, p, c, all, j);
    }
    RocketsOffered(s, p, c, all);
    PurchaseCandidateFacts(s, p, c, all);
    MapSort(cands, DecisionPriority, ActionOf);
    assert forall a: GameAction :: multiset(r)[a] <= multiset(MapSeq(cands, ActionOf))[a];
    assert forall a :: a in r ==> a in MapSeq(cands, ActionOf) by {
      forall a | a in r ensures a in MapSeq(cands, ActionOf) {
        assert a in multiset(r);
      }
    }
    r
  }

  /** Every region that can take an air defense is offered one when the
      player can pay for it. */
  lemma {:induction false} AirDefenseOffered(s: AIStrategy, p: Player, c: Country, all: seq<Country>, k: nat, j: nat)
    requires k <= |c.regions| && j < k && c.CanBuyAirDefenseAt(j) && p.coins >= AirDefenseCost
    ensures exists m :: 0 <= m < |AirDefenseCandidates(s, p, c, all, k)| && AirDefenseCandidates(s, p, c, all, k)[m].action == BuyAirDefense(j)
    decreases k
  {
    var ad, prev := AirDefenseCandidates(s, p, c, all, k), AirDefenseCandidates(s, p, c, all, k - 1);
    var g := c.regions[k - 1];
    assert ad == prev || ad == prev + [AIDecision(BuyAirDefense(k - 1), AirDefensePriority(g, c, all) * AirDefenseWeight(s), k - 1)];
    if j < k - 1 {
      AirDefenseOffered(s, p, c, all, k - 1, j);
      var m :| 0 <= m < |prev| && prev[m].action == BuyAirDefense(j);
      assert 0 <= m < |ad| && ad[m] == prev[m];
      assert ad[m].action == BuyAirDefense(j);
      assert exists m :: 0 <= m < |ad| && ad[m].action == BuyAirDefense(j);
    } else {
      assert ad == prev + [AIDecision(BuyAirDefense(k - 1), AirDefensePriority(g, c, all) * AirDefenseWeight(s), k - 1)];
      var m := |ad| - 1;
      assert 0 <= m < |ad| && ad[m].action == BuyAirDefense(j);
    }
  }

  /** A region the AI could have defended is left undefended only when the
      coins left after its purchases cannot pay for a defense. */
  lemma DefenseLeftOnlyWhenBroke(s: AIStrategy, p: Player, c: Country, all: seq<Country>, j: nat)
    requires j < |c.regions| && c.CanBuyAirDefenseAt(j)
    ensures var r := Commit(Sort(PurchaseCandidates(s, p, c, all), DecisionPriority), p.coins, p.rocketsUsedThisTurn);
            BuyAirDefense(j) !in r ==> p.coins - TotalCost(r) < AirDefenseCost
  {
    var cands := PurchaseCandidates(s, p, c, all);
    var ranked := Sort(cands, DecisionPriority);
    var r := Commit(ranked, p.coins, p.rocketsUsedThisTurn);
    if p.coins >= AirDefenseCost && BuyAirDefense(j) !in r {
      var ad := AirDefenseCandidates(s, p, c, all, |c.regions|);
      AirDefenseOffered(s, p, c, all, |c.regions|, j);
      var m :| 0 <= m < |ad| && ad[m].action == BuyAirDefense(j);
      assert cands[m] == ad[m];
      SortKeepsMembers(cands, DecisionPriority);
      assert cands[m] in ranked;
      var k :| 0 <= k < |ranked| && ranked[k] == cands[m];
      assert ranked[k].action.BuyAirDefense? && ranked[k].action !in r;
    }
  }

  /** The rocket loop offers as many rockets as the counter and the coins
      allow. */
  lemma {:induction false} RocketCandidatesCount(n: int, available: int, region: nat, priority: int)
    requires available >= 0 && n <= available / RocketCost
    ensures |RocketCandidates(n, available, region, priority)| == if n > 0 then n else 0
    decreases if n > 0 then n else 0
  {
    if n > 0 {
      RocketCandidatesCount(n - 1, available - RocketCost, region, priority);
    }
  }

  /** When every rocket in a list is the action `x`, the list's rocket count
      is the multiplicity of `x`. */
  lemma {:induction false} RocketCountIsMultiplicity(acts: seq<GameAction>, x: GameAction)
    requires x.BuyRocket? && forall a :: a in acts && a.BuyRocket? ==> a == x
    ensures RocketCount(acts) == multiset(acts)[x]
    decreases |acts|
  {
    if |acts| > 0 {
      assert acts == [acts[0]] + acts[1..];
      assert forall a :: a in acts[1..] ==> a in acts;
      RocketCountIsMultiplicity(acts[1..], x);
    }
  }

  /** The ranked candidates carry every rocket the player may still buy. */
  lemma RocketsOffered(s: AIStrategy, p: Player, c: Country, all: seq<Country>)
    ensures var rocketsCanBuy := Min(MaxRocketsPerTurn - p.rocketsUsedThisTurn, TruncDiv(p.coins, RocketCost));
            RocketCount(MapSeq(Sort(PurchaseCandidates(s, p, c, all), DecisionPriority), ActionOf))
              == if rocketsCanBuy > 0 then rocketsCanBuy else 0
  {
    var cands := PurchaseCandidates(s, p, c, all);
    var rocketsCanBuy := Min(MaxRocketsPerTurn - p.rocketsUsedThisTurn, TruncDiv(p.coins, RocketCost));
    var x := BuyRocket(BestRegionForRocket(c));
    var ad := AirDefenseCandidates(s, p, c, all, |c.regions|);
    var rk := RocketCandidates(rocketsCanBuy, p.coins, BestRegionForRocket(c), RocketPriority(all) * RocketWeight(s));
    var adActs, rkActs := MapSeq(ad, ActionOf), MapSeq(rk, ActionOf);
    PurchaseCandidatesSplit(s, p, c, all);
    PurchaseCandidateFacts(s, p, c, all);
    AirDefenseCandidateActions(s, p, c, all, |c.regions|);
    RocketCandidateActions(rocketsCanBuy, p.coins, BestRegionForRocket(c), RocketPriority(all) * RocketWeight(s));
    var ranked := MapSeq(Sort(cands, DecisionPriority), ActionOf);
    MapSort(cands, DecisionPriority, ActionOf);
    assert forall a :: a in ranked ==> a in multiset(MapSeq(cands, ActionOf));
    RocketCountIsMultiplicity(ranked, x);
    assert x !in adActs;
    assert multiset(rkActs)[x] == |rkActs| by {
      RocketCountIsMultiplicity(rkActs, x);
      RocketCountAll(rkActs);
    }
    assert multiset(adActs + rkActs)[x] == multiset(adActs)[x] + multiset(rkActs)[x];
    if p.coins >= 0 {
      RocketCandidatesCount(rocketsCanBuy, p.coins, BestRegionForRocket(c), RocketPriority(all) * RocketWeight(s));
    }
  }

  /** A list of rocket purchases only counts every entry. */
  lemma {:induction false} RocketCountAll(acts: seq<GameAction>)
    requires forall a :: a in acts ==> a.BuyRocket?
    ensures RocketCount(acts) == |acts|
    decreases |acts|
  {
    if |acts| > 0 {
      assert forall a :: a in acts[1..] ==> a in acts;
      RocketCountAll(acts[1..]);
    }
  }

  /** The air-defense loop walks the regions upwards, so the candidates'
      regions strictly increase. */
  lemma {:induction false} AirDefenseCandidatesIncreasing(s: AIStrategy, p: Player, c: Country, all: seq<Country>, k: nat)
    requires k <= |c.regions|
    ensures forall i, j :: 0 <= i < j < |AirDefenseCandidates(s, p, c, all, k)| ==>
              AirDefenseCandidates(s, p, c, all, k)[i].regionIndex < AirDefenseCandidates(s, p, c, all, k)[j].regionIndex
    decreases k
  {
    if k > 0 {
      var prev := AirDefenseCandidates(s, p, c, all, k - 1);
      var r := AirDefenseCandidates(s, p, c, all, k);
      AirDefenseCandidatesIncreasing(s, p, c, all, k - 1);
      assert r == prev || (|r| == |prev| + 1 && r[..|prev|] == prev && r[|prev|].regionIndex == k - 1);
      forall i, j | 0 <= i < j < |r| ensures r[i].regionIndex < r[j].regionIndex {
        assert r[i] == prev[i] && prev[i].regionIndex < k - 1;
        if j < |prev| {
          assert r[j] == prev[j] && prev[i].regionIndex < prev[j].regionIndex;
        } else {
          assert r[j].regionIndex == k - 1;
        }
      }
    }
  }

  lemma AirDefenseCandidateActions(s: AIStrategy, p: Player, c: Country, all: seq<Country>, k: nat)
    requires k <= |c.regions|
    ensures var acts := MapSeq(AirDefenseCandidates(s, p, c, all, k), ActionOf);
            && Distinct(acts)
            && forall a :: a in acts ==> a.BuyAirDefense? && c.CanBuyAirDefenseAt(a.regionIndex)
  {
    var ad := AirDefenseCandidates(s, p, c, all, k);
    var acts := MapSeq(ad, ActionOf);
    AirDefenseCandidatesIncreasing(s, p, c, all, k);
    forall i, j | 0 <= i < j < |acts| ensures acts[i] != acts[j] {
      assert ad[i].regionIndex < ad[j].regionIndex;
    }
  }

  lemma RocketCandidateActions(n: int, available: int, region: nat, priority: int)
    ensures forall a :: a in MapSeq(RocketCandidates(n, available, region, priority), ActionOf) ==> a == BuyRocket(region)
  {
  }

  /** What the candidate list offers: eligible regions, each at most once,
      and one fixed rocket action. */
  lemma PurchaseCandidateFacts(s: AIStrategy, p: Player, c: Country, all: seq<Country>)
    ensures var acts := MapSeq(PurchaseCandidates(s, p, c, all), ActionOf);
            && (forall a :: a in acts && a.BuyAirDefense? ==> c.CanBuyAirDefenseAt(a.regionIndex))
            && (forall a :: a in acts && a.BuyRocket? ==> a == BuyRocket(BestRegionForRocket(c)))
            && (forall a: GameAction :: a.BuyAirDefense? ==> multiset(acts)[a] <= 1)
            && NoAction !in acts
  {
    var ad := AirDefenseCandidates(s, p, c, all, |c.regions|);
    var rocketsCanBuy := Min(MaxRocketsPerTurn - p.rocketsUsedThisTurn, TruncDiv(p.coins, RocketCost));
    var rk := RocketCandidates(rocketsCanBuy, p.coins, BestRegionForRocket(c), RocketPriority(all) * RocketWeight(s));
    PurchaseCandidatesSplit(s, p, c, all);
    AirDefenseCandidateActions(s, p, c, all, |c.regions|);
    RocketCandidateActions(rocketsCanBuy, p.coins, BestRegionForRocket(c), RocketPriority(all) * RocketWeight(s));
    ConcatActionFacts(MapSeq(ad, ActionOf), MapSeq(rk, ActionOf), c, BestRegionForRocket(c));
  }

  /** The candidates' actions are the air defenses' followed by the
      rockets'. */
  lemma PurchaseCandidatesSplit(s: AIStrategy, p: Player, c: Country, all: seq<Country>)
    ensures var rocketsCanBuy := Min(MaxRocketsPerTurn - p.rocketsUsedThisTurn, TruncDiv(p.coins, RocketCost));
            MapSeq(PurchaseCandidates(s, p, c, all), ActionOf)
              == MapSeq(AirDefenseCandidates(s, p, c, all, |c.regions|), ActionOf)
                 + MapSeq(RocketCandidates(rocketsCanBuy, p.coins, BestRegionForRocket(c), RocketPriority(all) * RocketWeight(s)), ActionOf)
  {
    var ad := AirDefenseCandidates(s, p, c, all, |c.regions|);
    var rocketsCanBuy := Min(MaxRocketsPerTurn - p.rocketsUsedThisTurn, TruncDiv(p.coins, RocketCost));
    var rk := RocketCandidates(rocketsCanBuy, p.coins, BestRegionForRocket(c), RocketPriority(all) * RocketWeight(s));
    assert PurchaseCandidates(s, p, c, all) == ad + rk;
    MapAppend(ad, rk, ActionOf);
  }

  /** Distinct eligible air defenses followed by copies of one rocket
      action: every air defense occurs at most once and nothing is a
      no-op. */
  lemma ConcatActionFacts(adActs: seq<GameAction>, rkActs: seq<GameAction>, c: Country, region: nat)
    requires Distinct(adActs)
    requires forall a :: a in adActs ==> a.BuyAirDefense? && c.CanBuyAirDefenseAt(a.regionIndex)
    requires forall a :: a in rkActs ==> a == BuyRocket(region)
    ensures var acts := adActs + rkActs;
            && (forall a :: a in acts && a.BuyAirDefense? ==> c.CanBuyAirDefenseAt(a.regionIndex))
            && (forall a :: a in acts && a.BuyRocket? ==> a == BuyRocket(region))
            && (forall a: GameAction :: a.BuyAirDefense? ==> multiset(acts)[a] <= 1)
            && NoAction !in acts
  {
    var acts := adActs + rkActs;
    DistinctIffSingleOccurrences(adActs);
    forall a: GameAction | a.BuyAirDefense? ensures multiset(acts)[a] <= 1 {
      assert a !in rkActs;
      assert multiset(acts)[a] == multiset(adActs)[a] + multiset(rkActs)[a];
    }
    assert forall a :: a in acts ==> a in adActs || a in rkActs;
  }

  /** Every candidate is a rocket at the one rocket score, or an air
      defense scored at most its strategy weight. */
  lemma CandidateScores(s: AIStrategy, p: Player, c: Country, all: seq<Country>)
    ensures forall d :: d in PurchaseCandidates(s, p, c, all) ==>
              || (d.action.BuyRocket? && d.priority == RocketPriority(all) * RocketWeight(s))
              || (d.action.BuyAirDefense? && d.priority <= 100 * AirDefenseWeight(s))
  {
    var ad := AirDefenseCandidates(s, p, c, all, |c.regions|);
    var rocketsCanBuy := Min(MaxRocketsPerTurn - p.rocketsUsedThisTurn, TruncDiv(p.coins, RocketCost));
    var rk := RocketCandidates(rocketsCanBuy, p.coins, BestRegionForRocket(c), RocketPriority(all) * RocketWeight(s));
    forall d: AIDecision | d in ad + rk
      ensures || (d.action.BuyRocket? && d.priority == RocketPriority(all) * RocketWeight(s))
              || (d.action.BuyAirDefense? && d.priority <= 100 * AirDefenseWeight(s))
    {
      if d in ad {
        var i :| 0 <= i < |ad| && ad[i] == d;
      } else {
        var i :| 0 <= i < |rk| && rk[i] == d;
      }
    }
  }

  /** While more than one country is alive, the aggressive and balanced
      strategies score every rocket candidate above every air-defense
      candidate, so ranking puts all rockets first. */
  lemma RocketsRankFirst(s: AIStrategy, p: Player, c: Country, all: seq<Country>)
    requires s != Defensive
    requires |Games.AliveCountries(all)| > 1
    ensures var ranked := Sort(PurchaseCandidates(s, p, c, all), DecisionPriority);
            forall i, j :: 0 <= i < j < |ranked| && ranked[j].action.BuyRocket? ==> ranked[i].action.BuyRocket?
  {
    var cands := PurchaseCandidates(s, p, c, all);
    var ranked := Sort(cands, DecisionPriority);
    CandidateScores(s, p, c, all);
    SortKeepsMembers(cands, DecisionPriority);
    forall i, j | 0 <= i < j < |ranked| && ranked[j].action.BuyRocket?
      ensures ranked[i].action.BuyRocket?
    {
      assert ranked[i] in cands && ranked[j] in cands;
      assert DecisionPriority(ranked[i]) >= DecisionPriority(ranked[j]);
    }
  }

  // ---------------------------------------------------------------------
  // Targeting

  /** A target the policy may choose: another, not destroyed country's
      alive region, attacked by the player's own country. */
  predicate LegalTarget(all: seq<Country>, attacker: nat, t: AttackTarget)
  {
    && t.attackerCountryIndex == attacker
    && t.targetCountryIndex < |all|
    && t.targetCountryIndex != attacker
    && !all[t.targetCountryIndex].IsDestroyed()
    && t.targetRegionIndex < |all[t.targetCountryIndex].regions|
    && !all[t.targetCountryIndex].regions[t.targetRegionIndex].isDestroyed
  }

  /** The heuristic "strong player": the first offset with more than three
      alive regions. */
  function StrongestRival(all: seq<Country>, from: nat): (r: Option<nat>)
    requires from <= |all|
    ensures r.Some? ==> from <= r.value < |all| && all[r.value].AliveRegionsCount() > 3
    decreases |all| - from
  {
    if from == |all| then None
    else if all[from].AliveRegionsCount() > 3 then Some(from)
    else StrongestRival(all, from + 1)
  }

  /** `calculateTargetPriority`, in hundredths, capped at one; the random
      term is `jitter(country, region)` limited to the source's 0..0.2. */
  function TargetPriority(all: seq<Country>, k: nat, reg: nat, jitter: (nat, nat) -> nat): (p: nat)
    requires k < |all| && reg < |all[k].regions|
    ensures 50 <= p <= 100
  {
    var country := all[k];
    var alive := country.AliveRegionsCount();
    Min(50
        + (if !country.regions[reg].hasAirDefense then 40 else 0)
        + (if alive <= 2 then 40 else if alive <= 3 then 20 else 0)
        + (if StrongestRival(all, 0) == Some(k) then 30 else 0)
        + Min(jitter(k, reg), 20),
        100)
  }

  /** An entry of the candidates inside country `k`: an alive region among
      the first `n`, attacked by the player's country, with its score. */
  predicate RegionEntry(p: Player, all: seq<Country>, k: nat, n: nat, jitter: (nat, nat) -> nat, x: AITargetSelection)
    requires k < |all| && n <= |all[k].regions|
  {
    && x.target.attackerCountryIndex == p.countryIndex
    && x.target.targetCountryIndex == k
    && x.target.targetRegionIndex < n
    && !all[k].regions[x.target.targetRegionIndex].isDestroyed
    && x.priority == TargetPriority(all, k, x.target.targetRegionIndex, jitter)
  }

  /** Candidates inside country `k`, over its first `n` regions, in
      region order. */
  function RegionTargets(p: Player, all: seq<Country>, k: nat, n: nat, jitter: (nat, nat) -> nat): (r: seq<AITargetSelection>)
    requires k < |all| && n <= |all[k].regions|
    ensures forall i :: 0 <= i < |r| ==> RegionEntry(p, all, k, n, jitter, r[i])
    ensures forall i, j :: 0 <= i < j < |r| ==> r[i].target.targetRegionIndex < r[j].target.targetRegionIndex
    ensures forall reg :: 0 <= reg < n && !all[k].regions[reg].isDestroyed ==>
              exists i :: 0 <= i < |r| && r[i].target == AttackTarget(p.countryIndex, k, reg)
    decreases n
  {
    if n == 0 then []
    else
      var prev := RegionTargets(p, all, k, n - 1, jitter);
      if all[k].regions[n - 1].isDestroyed then
        RegionTargetsSkip(p, all, k, n, jitter, prev);
        prev
      else
        var x := AITargetSelection(AttackTarget(p.countryIndex, k, n - 1), TargetPriority(all, k, n - 1, jitter));
        RegionTargetsStep(p, all, k, n, jitter, prev, x);
        prev + [x]
  }

  /** A destroyed region adds no candidate. */
  lemma RegionTargetsSkip(p: Player, all: seq<Country>, k: nat, n: nat, jitter: (nat, nat) -> nat, prev: seq<AITargetSelection>)
    requires k < |all| && 0 < n <= |all[k].regions| && all[k].regions[n - 1].isDestroyed
    requires forall i :: 0 <= i < |prev| ==> RegionEntry(p, all, k, n - 1, jitter, prev[i])
    requires forall reg :: 0 <= reg < n - 1 && !all[k].regions[reg].isDestroyed ==>
               exists i :: 0 <= i < |prev| && prev[i].target == AttackTarget(p.countryIndex, k, reg)
    ensures forall i :: 0 <= i < |prev| ==> RegionEntry(p, all, k, n, jitter, prev[i])
    ensures forall reg :: 0 <= reg < n && !all[k].regions[reg].isDestroyed ==>
              exists i :: 0 <= i < |prev| && prev[i].target == AttackTarget(p.countryIndex, k, reg)
  {
  }

  /** An alive region adds its candidate after those of the earlier
      regions. */
  lemma RegionTargetsStep(p: Player, all: seq<Country>, k: nat, n: nat, jitter: (nat, nat) -> nat,
                          prev: seq<AITargetSelection>, x: AITargetSelection)
    requires k < |all| && 0 < n <= |all[k].regions| && !all[k].regions[n - 1].isDestroyed
    requires x == AITargetSelection(AttackTarget(p.countryIndex, k, n - 1), TargetPriority(all, k, n - 1, jitter))
    requires forall i :: 0 <= i < |prev| ==> RegionEntry(p, all, k, n - 1, jitter, prev[i])
    requires forall i, j :: 0 <= i < j < |prev| ==> prev[i].target.targetRegionIndex < prev[j].target.targetRegionIndex
    requires forall reg :: 0 <= reg < n - 1 && !all[k].regions[reg].isDestroyed ==>
               exists i :: 0 <= i < |prev| && prev[i].target == AttackTarget(p.countryIndex, k, reg)
    ensures forall i :: 0 <= i < |prev + [x]| ==> RegionEntry(p, all, k, n, jitter, (prev + [x])[i])
    ensures forall i, j :: 0 <= i < j < |prev + [x]| ==> (prev + [x])[i].target.targetRegionIndex < (prev + [x])[j].target.targetRegionIndex
    ensures forall reg :: 0 <= reg < n && !all[k].regions[reg].isDestroyed ==>
              exists i :: 0 <= i < |prev + [x]| && (prev + [x])[i].target == AttackTarget(p.countryIndex, k, reg)
  {
    var r := prev + [x];
    assert forall i :: 0 <= i < |prev| ==> r[i] == prev[i];
    assert r[|prev|] == x;
    forall reg | 0 <= reg < n && !all[k].regions[reg].isDestroyed
      ensures exists i :: 0 <= i < |r| && r[i].target == AttackTarget(p.countryIndex, k, reg)
    {
      if reg < n - 1 {
        var i :| 0 <= i < |prev| && prev[i].target == AttackTarget(p.countryIndex, k, reg);
        assert r[i] == prev[i];
      } else {
        assert r[|prev|].target == AttackTarget(p.countryIndex, k, reg);
      }
    }
  }

  /** The targets of one country's candidates never repeat. */
  lemma RegionTargetsDistinct(p: Player, all: seq<Country>, k: nat, jitter: (nat, nat) -> nat)
    requires k < |all|
    ensures Distinct(MapSeq(RegionTargets(p, all, k, |all[k].regions|, jitter), TargetOf))
  {
    var here := RegionTargets(p, all, k, |all[k].regions|, jitter);
    var m := MapSeq(here, TargetOf);
    forall i, j | 0 <= i < j < |m| ensures m[i] != m[j] {
      assert here[i].target.targetRegionIndex < here[j].target.targetRegionIndex;
    }
  }

  /** A candidate among the first `k` countries: a legal target for the
      player, with its score. */
  predicate Candidate(all: seq<Country>, attacker: nat, jitter: (nat, nat) -> nat, k: nat, x: AITargetSelection)
  {
    && LegalTarget(all, attacker, x.target)
    && x.target.targetCountryIndex < k
    && x.priority == TargetPriority(all, x.target.targetCountryIndex, x.target.targetRegionIndex, jitter)
  }

  /** Candidates in the first `k` countries, skipping the player's own
      offset and destroyed countries. */
  function CountryTargets(p: Player, all: seq<Country>, k: nat, jitter: (nat, nat) -> nat): (r: seq<AITargetSelection>)
    requires k <= |all|
    ensures forall i :: 0 <= i < |r| ==> Candidate(all, p.countryIndex, jitter, k, r[i])
    ensures Distinct(MapSeq(r, TargetOf))
    ensures forall t :: LegalTarget(all, p.countryIndex, t) && t.targetCountryIndex < k ==>
              exists i :: 0 <= i < |r| && r[i].target == t
    decreases k
  {
    if k == 0 then []
    else
      var prev := CountryTargets(p, all, k - 1, jitter);
      if k - 1 == p.countryIndex || all[k - 1].IsDestroyed() then
        CountryTargetsSkip(p, all, k, jitter, prev);
        prev
      else
        var here := RegionTargets(p, all, k - 1, |all[k - 1].regions|, jitter);
        AppendScored(p, all, k, jitter, prev, here);
        RegionTargetsDistinct(p, all, k - 1, jitter);
        AppendDistinct(p, all, k, jitter, prev, here);
        AppendAllFound(p, all, k, jitter, prev, here);
        prev + here
  }

  /** A country the player may not attack adds no candidate, and misses
      none. */
  lemma CountryTargetsSkip(p: Player, all: seq<Country>, k: nat, jitter: (nat, nat) -> nat, prev: seq<AITargetSelection>)
    requires 0 < k <= |all| && (k - 1 == p.countryIndex || all[k - 1].IsDestroyed())
    requires forall i :: 0 <= i < |prev| ==> Candidate(all, p.countryIndex, jitter, k - 1, prev[i])
    requires forall t :: LegalTarget(all, p.countryIndex, t) && t.targetCountryIndex < k - 1 ==>
               exists i :: 0 <= i < |prev| && prev[i].target == t
    ensures forall i :: 0 <= i < |prev| ==> Candidate(all, p.countryIndex, jitter, k, prev[i])
    ensures forall t :: LegalTarget(all, p.countryIndex, t) && t.targetCountryIndex < k ==>
              exists i :: 0 <= i < |prev| && prev[i].target == t
  {
    forall t | LegalTarget(all, p.countryIndex, t) && t.targetCountryIndex < k
      ensures exists i :: 0 <= i < |prev| && prev[i].target == t
    {
      assert t.targetCountryIndex != k - 1;
    }
  }

  lemma AppendScored(p: Player, all: seq<Country>, k: nat, jitter: (nat, nat) -> nat,
                     prev: seq<AITargetSelection>, here: seq<AITargetSelection>)
    requires 0 < k <= |all| && k - 1 != p.countryIndex && !all[k - 1].IsDestroyed()
    requires forall i :: 0 <= i < |prev| ==> Candidate(all, p.countryIndex, jitter, k - 1, prev[i])
    requires forall i :: 0 <= i < |here| ==> RegionEntry(p, all, k - 1, |all[k - 1].regions|, jitter, here[i])
    ensures forall i :: 0 <= i < |prev + here| ==> Candidate(all, p.countryIndex, jitter, k, (prev + here)[i])
  {
    var r := prev + here;
    forall i | 0 <= i < |r| ensures Candidate(all, p.countryIndex, jitter, k, r[i]) {
      if i < |prev| {
        assert r[i] == prev[i];
      } else {
        assert r[i] == here[i - |prev|];
        assert RegionEntry(p, all, k - 1, |all[k - 1].regions|, jitter, here[i - |prev|]);
      }
    }
  }

  lemma AppendDistinct(p: Player, all: seq<Country>, k: nat, jitter: (nat, nat) -> nat,
                       prev: seq<AITargetSelection>, here: seq<AITargetSelection>)
    requires 0 < k <= |all|
    requires forall i :: 0 <= i < |prev| ==> Candidate(all, p.countryIndex, jitter, k - 1, prev[i])
    requires forall i :: 0 <= i < |here| ==> RegionEntry(p, all, k - 1, |all[k - 1].regions|, jitter, here[i])
    requires Distinct(MapSeq(prev, TargetOf)) && Distinct(MapSeq(here, TargetOf))
    ensures Distinct(MapSeq(prev + here, TargetOf))
  {
    MapAppend(prev, here, TargetOf);
    var mp, mh := MapSeq(prev, TargetOf), MapSeq(here, TargetOf);
    forall i, j | 0 <= i < |mp| && 0 <= j < |mh| ensures mp[i] != mh[j] {
      var x, y := prev[i], here[j];
      assert mp[i] == x.target && mh[j] == y.target;
      assert Candidate(all, p.countryIndex, jitter, k - 1, x);
      assert RegionEntry(p, all, k - 1, |all[k - 1].regions|, jitter, y);
    }
    DistinctConcat(mp, mh);
  }

  lemma AppendAllFound(p: Player, all: seq<Country>, k: nat, jitter: (nat, nat) -> nat,
                       prev: seq<AITargetSelection>, here: seq<AITargetSelection>)
    requires 0 < k <= |all|
    requires forall t :: LegalTarget(all, p.countryIndex, t) && t.targetCountryIndex < k - 1 ==>
               exists i :: 0 <= i < |prev| && prev[i].target == t
    requires here == RegionTargets(p, all, k - 1, |all[k - 1].regions|, jitter)
    ensures forall t :: LegalTarget(all, p.countryIndex, t) && t.targetCountryIndex < k ==>
              exists i :: 0 <= i < |prev + here| && (prev + here)[i].target == t
  {
    forall t | LegalTarget(all, p.countryIndex, t) && t.targetCountryIndex < k
      ensures exists i :: 0 <= i < |prev + here| && (prev + here)[i].target == t
    {
      AppendFinds(p, all, k, jitter, prev, here, t);
    }
  }

  lemma AppendFinds(p: Player, all: seq<Country>, k: nat, jitter: (nat, nat) -> nat,
                    prev: seq<AITargetSelection>, here: seq<AITargetSelection>, t: AttackTarget)
    requires 0 < k <= |all|
    requires forall t :: LegalTarget(all, p.countryIndex, t) && t.targetCountryIndex < k - 1 ==>
               exists i :: 0 <= i < |prev| && prev[i].target == t
    requires here == RegionTargets(p, all, k - 1, |all[k - 1].regions|, jitter)
    requires LegalTarget(all, p.countryIndex, t) && t.targetCountryIndex < k
    ensures exists i :: 0 <= i < |prev + here| && (prev + here)[i].target == t
  {
    var r := prev + here;
    if t.targetCountryIndex < k - 1 {
      var i :| 0 <= i < |prev| && prev[i].target == t;
      assert r[i] == prev[i];
    } else {
      var reg := t.targetRegionIndex;
      assert t == AttackTarget(p.countryIndex, k - 1, reg);
      assert reg < |all[k - 1].regions| && !all[k - 1].regions[reg].isDestroyed;
      var i :| 0 <= i < |here| && here[i].target == t;
      assert r[|prev| + i] == here[i];
    }
  }

  /** The score of a target; only meaningful for legal ones. */
  function ScoreOf(all: seq<Country>, attacker: nat, t: AttackTarget, jitter: (nat, nat) -> nat): int
  {
    if LegalTarget(all, attacker, t) then TargetPriority(all, t.targetCountryIndex, t.targetRegionIndex, jitter) else 0
  }

  /** `selectAttackTargets`: the `availableRockets` best-scored legal
      targets (all of them when there are fewer). */
  function SelectAttackTargets(p: Player, all: seq<Country>, jitter: (nat, nat) -> nat): (r: seq<AttackTarget>)
    ensures p.availableRockets <= 0 ==> r == []
    ensures p.availableRockets > 0 ==> |r| <= p.availableRockets
    ensures forall i :: 0 <= i < |r| ==> LegalTarget(all, p.countryIndex, r[i])
    ensures Distinct(r)
    ensures |r| < p.availableRockets ==> forall t :: LegalTarget(all, p.countryIndex, t) ==> t in r
    ensures forall t, u :: t in r && LegalTarget(all, p.countryIndex, u) && u !in r ==>
              ScoreOf(all, p.countryIndex, u, jitter) <= ScoreOf(all, p.countryIndex, t, jitter)
  {
    if p.availableRockets <= 0 then []
    else
      var cands := CountryTargets(p, all, |all|, jitter);
      var ranked := Sort(cands, SelectionPriority);
      var n := Min(p.availableRockets, |ranked|);
      var r := MapSeq(ranked[..n], TargetOf);
      TopTargetsLegalDistinct(cands, ranked, n, r, p, all, jitter);
      RankingFacts(p, all, jitter);
      TopTargetsBest(ranked, n, r, all, p.countryIndex, jitter);
      r
  }

  lemma TopTargetsLegalDistinct(cands: seq<AITargetSelection>, ranked: seq<AITargetSelection>, n: nat,
                                r: seq<AttackTarget>, p: Player, all: seq<Country>, jitter: (nat, nat) -> nat)
    requires cands == CountryTargets(p, all, |all|, jitter)
    requires ranked == Sort(cands, SelectionPriority)
    requires n <= |ranked| && r == MapSeq(ranked[..n], TargetOf)
    ensures forall i :: 0 <= i < |r| ==> LegalTarget(all, p.countryIndex, r[i])
    ensures Distinct(r)
  {
    DistinctAfterSort(cands, SelectionPriority, TargetOf);
    DistinctMapPrefix(ranked, n, TargetOf);
    RankedScored(p, all, jitter);
    forall i | 0 <= i < |r| ensures LegalTarget(all, p.countryIndex, r[i]) {
      assert r[i] == ranked[i].target && ranked[i] in ranked;
    }
  }

  /** A candidate names a legal target and carries its score. */
  predicate Scored(all: seq<Country>, attacker: nat, jitter: (nat, nat) -> nat, x: AITargetSelection)
  {
    LegalTarget(all, attacker, x.target) && x.priority == ScoreOf(all, attacker, x.target, jitter)
  }

  lemma RankedScored(p: Player, all: seq<Country>, jitter: (nat, nat) -> nat)
    ensures forall x :: x in Sort(CountryTargets(p, all, |all|, jitter), SelectionPriority) ==>
              Scored(all, p.countryIndex, jitter, x)
  {
    var cands := CountryTargets(p, all, |all|, jitter);
    SortKeepsMembers(cands, SelectionPriority);
    forall x | x in cands ensures Scored(all, p.countryIndex, jitter, x) {
      var m :| 0 <= m < |cands| && cands[m] == x;
    }
  }

  /** Every legal target has an entry in the ranking. */
  lemma RankedCovers(p: Player, all: seq<Country>, jitter: (nat, nat) -> nat, u: AttackTarget)
    requires LegalTarget(all, p.countryIndex, u)
    ensures u in MapSeq(Sort(CountryTargets(p, all, |all|, jitter), SelectionPriority), TargetOf)
  {
    var cands := CountryTargets(p, all, |all|, jitter);
    assert LegalTarget(all, p.countryIndex, u) && u.targetCountryIndex < |all|;
    var i :| 0 <= i < |cands| && cands[i].target == u;
    assert MapSeq(cands, TargetOf)[i] == u;
    MapSort(cands, SelectionPriority, TargetOf);
    assert u in multiset(MapSeq(cands, TargetOf));
  }

  /** What the ranking offers the top-N cut: sorted by score, every entry
      scored, every legal target present. */
  ghost predicate RankingOf(ranked: seq<AITargetSelection>, all: seq<Country>, attacker: nat, jitter: (nat, nat) -> nat)
  {
    && SortedDesc(ranked, SelectionPriority)
    && (forall x :: x in ranked ==> Scored(all, attacker, jitter, x))
    && (forall u :: LegalTarget(all, attacker, u) ==> u in MapSeq(ranked, TargetOf))
  }

  lemma RankingFacts(p: Player, all: seq<Country>, jitter: (nat, nat) -> nat)
    ensures RankingOf(Sort(CountryTargets(p, all, |all|, jitter), SelectionPriority), all, p.countryIndex, jitter)
  {
    RankedScored(p, all, jitter);
    forall u | LegalTarget(all, p.countryIndex, u)
      ensures u in MapSeq(Sort(CountryTargets(p, all, |all|, jitter), SelectionPriority), TargetOf)
    {
      RankedCovers(p, all, jitter, u);
    }
  }

  lemma TopTargetsBest(ranked: seq<AITargetSelection>, n: nat,
                       r: seq<AttackTarget>, all: seq<Country>, attacker: nat, jitter: (nat, nat) -> nat)
    requires RankingOf(ranked, all, attacker, jitter)
    requires n <= |ranked| && r == MapSeq(ranked[..n], TargetOf)
    ensures n == |ranked| ==> forall t :: LegalTarget(all, attacker, t) ==> t in r
    ensures forall t, u :: t in r && LegalTarget(all, attacker, u) && u !in r ==>
              ScoreOf(all, attacker, u, jitter) <= ScoreOf(all, attacker, t, jitter)
  {
    if n == |ranked| {
      assert ranked[..n] == ranked;
    }
    forall t, u | t in r && LegalTarget(all, attacker, u) && u !in r
      ensures ScoreOf(all, attacker, u, jitter) <= ScoreOf(all, attacker, t, jitter)
    {
      TopPairOutranks(ranked, n, r, all, attacker, jitter, t, u);
    }
  }

  /** A chosen target scores at least as much as any legal target left
      out. */
  lemma TopPairOutranks(ranked: seq<AITargetSelection>, n: nat,
                        r: seq<AttackTarget>, all: seq<Country>, attacker: nat, jitter: (nat, nat) -> nat,
                        t: AttackTarget, u: AttackTarget)
    requires RankingOf(ranked, all, attacker, jitter)
    requires n <= |ranked| && r == MapSeq(ranked[..n], TargetOf)
    requires t in r && LegalTarget(all, attacker, u) && u !in r
    ensures ScoreOf(all, attacker, u, jitter) <= ScoreOf(all, attacker, t, jitter)
  {
    var score := (v: AttackTarget) => ScoreOf(all, attacker, v, jitter);
    forall x | x in ranked ensures SelectionPriority(x) == score(TargetOf(x)) {
      assert Scored(all, attacker, jitter, x);
    }
    TopOutranks(ranked, SelectionPriority, TargetOf, score, n, t, u);
  }

  /** `createForPlayer(at:)`: the table [aggressive, balanced, aggressive,
      aggressive], indexed with indices above three clamped to the last. */
  function CreateForPlayer(countryIndex: nat): (s: AIStrategy)
    ensures s == Balanced <==> countryIndex == 1
    ensures s == Aggressive <==> countryIndex != 1
  {
    var strategies := [Aggressive, Balanced, Aggressive, Aggressive];
    strategies[Min(countryIndex, |strategies| - 1)]
  }
}
