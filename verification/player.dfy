/** A match participant bound to one country by its country index. The
    per-player constants of the source (cap 2, both prices 20) are the same
    for every player and are module constants here. */
module Players {
  import opened Common
  import Countries

  const MaxRocketsPerTurn: nat := 2
  const RocketCost: nat := 20
  const AirDefenseCost: nat := 20

  datatype PlayerType = Human | AI

  datatype Player = Player(
    kind: PlayerType,
    countryIndex: nat,
    coins: int,
    availableRockets: int,
    rocketsUsedThisTurn: int)
  {
    /** What the player operations keep: no debt, no negative stock,
        and the per-round purchase cap. */
    predicate Valid() {
      coins >= 0 && availableRockets >= 0 && 0 <= rocketsUsedThisTurn <= MaxRocketsPerTurn
    }

    predicate CanBuyRocket() {
      coins >= RocketCost && rocketsUsedThisTurn < MaxRocketsPerTurn
    }

    predicate CanBuyAirDefense() {
      coins >= AirDefenseCost
    }

    predicate IsAI() { kind == AI }

    predicate IsHuman() { kind == Human }

    function AddIncome(amount: int): (p: Player)
      ensures p.coins == coins + amount
      ensures p.(coins := coins) == this
    {
      this.(coins := coins + amount)
    }

    /** Pays 20 coins for one more rocket, refused at the cap or when short of coins. */
    function BuyRocket(): (r: Attempt<Player>)
      ensures r.succeeded <==> coins >= RocketCost && rocketsUsedThisTurn < MaxRocketsPerTurn
      ensures !r.succeeded ==> r.state == this
      ensures r.succeeded ==>
                && r.state.coins == coins - RocketCost
                && r.state.availableRockets == availableRockets + 1
                && r.state.rocketsUsedThisTurn == rocketsUsedThisTurn + 1
                && r.state.kind == kind && r.state.countryIndex == countryIndex
      ensures Valid() ==> r.state.Valid()
    {
      if !CanBuyRocket() then Attempt(false, this)
      else Attempt(true, this.(coins := coins - RocketCost,
                               availableRockets := availableRockets + 1,
                               rocketsUsedThisTurn := rocketsUsedThisTurn + 1))
    }

    /** Pays 20 coins; the region itself is armed by the caller. */
    function BuyAirDefense(): (r: Attempt<Player>)
      ensures r.succeeded <==> coins >= AirDefenseCost
      ensures !r.succeeded ==> r.state == this
      ensures r.succeeded ==> r.state == this.(coins := coins - AirDefenseCost)
      ensures Valid() ==> r.state.Valid()
    {
      if !CanBuyAirDefense() then Attempt(false, this)
      else Attempt(true, this.(coins := coins - AirDefenseCost))
    }

    /** Commits one rocket; refused when none is available. */
    function UseRocket(): (r: Attempt<Player>)
      ensures r.succeeded <==> availableRockets > 0
      ensures !r.succeeded ==> r.state == this
      ensures r.succeeded ==> r.state == this.(availableRockets := availableRockets - 1)
      ensures Valid() ==> r.state.Valid()
    {
      if availableRockets <= 0 then Attempt(false, this)
      else Attempt(true, this.(availableRockets := availableRockets - 1))
    }

    function ResetTurnCounters(): (p: Player)
      ensures p.rocketsUsedThisTurn == 0
      ensures p.(rocketsUsedThisTurn := rocketsUsedThisTurn) == this
      ensures coins >= 0 && availableRockets >= 0 ==> p.Valid()
    {
      this.(rocketsUsedThisTurn := 0)
    }
  }

  /** `Player(type:countryIndex:)`: no coins, no rockets, no purchases yet. */
  function NewPlayer(kind: PlayerType, countryIndex: nat): (p: Player)
    ensures p.kind == kind && p.countryIndex == countryIndex && p.Valid()
    ensures p.coins == 0 && p.availableRockets == 0 && p.rocketsUsedThisTurn == 0
  {
    Player(kind, countryIndex, 0, 0, 0)
  }

  /** `createPlayers()`: the human at country 0 and three AIs. */
  function CreateDefaultPlayers(): (ps: seq<Player>)
    ensures |ps| == 4
    ensures forall i :: 0 <= i < 4 ==> ps[i].countryIndex == i && ps[i].Valid()
    ensures forall i :: 0 <= i < 4 ==> (ps[i].IsHuman() <==> i == 0)
  {
    [NewPlayer(Human, 0), NewPlayer(AI, 1), NewPlayer(AI, 2), NewPlayer(AI, 3)]
  }

  /** `createPlayers(for:)`. */
  function CreatePlayers(opponentCount: int): (ps: seq<Player>)
    ensures 1 <= opponentCount <= 3 ==> |ps| == opponentCount + 1
    ensures !(1 <= opponentCount <= 3) ==> ps == CreateDefaultPlayers()
    ensures forall i :: 0 <= i < |ps| ==> (ps[i].IsHuman() <==> i == 0)
    ensures ps[0].countryIndex == 0 && ps[|ps| - 1].countryIndex == 3
    ensures |ps| == |Countries.RosterIndices(opponentCount)|
    ensures forall i :: 0 <= i < |ps| ==> ps[i].countryIndex == Countries.RosterIndices(opponentCount)[i]
    ensures forall i :: 0 <= i < |ps| ==> ps[i] == NewPlayer(ps[i].kind, ps[i].countryIndex)
  {
    if opponentCount == 1 then [NewPlayer(Human, 0), NewPlayer(AI, 3)]
    else if opponentCount == 2 then [NewPlayer(Human, 0), NewPlayer(AI, 1), NewPlayer(AI, 3)]
    else if opponentCount == 3 then CreateDefaultPlayers()
    else CreateDefaultPlayers()
  }

  /** The player operations a round can apply between two
      `resetTurnCounters` calls. */
  datatype PlayerOp = OpBuyRocket | OpBuyAirDefense | OpUseRocket | OpAddIncome(amount: nat)

  function Step(p: Player, op: PlayerOp): Player
  {
    match op
    case OpBuyRocket => p.BuyRocket().state
    case OpBuyAirDefense => p.BuyAirDefense().state
    case OpUseRocket => p.UseRocket().state
    case OpAddIncome(a) => p.AddIncome(a)
  }

  function ApplyOps(p: Player, ops: seq<PlayerOp>): Player
    decreases |ops|
  {
    if |ops| == 0 then p else ApplyOps(Step(p, ops[0]), ops[1..])
  }

  /** Starting from a valid player, no sequence of purchases, rocket uses
      and income makes coins negative, and at most two rockets are bought
      between two `resetTurnCounters` calls. */
  lemma {:induction false} OpsKeepValid(p: Player, ops: seq<PlayerOp>)
    requires p.Valid()
    ensures ApplyOps(p, ops).Valid()
    ensures ApplyOps(p, ops).rocketsUsedThisTurn >= p.rocketsUsedThisTurn
    decreases |ops|
  {
    if |ops| > 0 {
      OpsKeepValid(Step(p, ops[0]), ops[1..]);
    }
  }
}
