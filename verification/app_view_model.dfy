/** The application state around the matches: the coin wallet, the game
    mode and the campaign. Screens, difficulty and persistence are not
    part of this model. */
module Apps {
  import opened Common
  import opened Games
  import opened CampaignLevels
  import opened Campaigns

  const VictoryReward: int := 100

  datatype GameMode = VsAI | CampaignMode

  datatype App = App(coins: int, opponentCount: int, mode: GameMode, campaign: Campaign)

  /** `addCoins`. */
  function AddCoins(a: App, amount: int): (r: App)
    ensures r.coins - a.coins == amount
    ensures r.(coins := a.coins) == a
  {
    a.(coins := a.coins + amount)
  }

  /** `canSpendCoins`. */
  predicate CanSpendCoins(a: App, amount: int)
  {
    a.coins >= amount
  }

  /** `spendCoins`: succeeds exactly when the wallet holds the amount, and
      then takes it; on failure the wallet is untouched. */
  function SpendCoins(a: App, amount: int): (r: Attempt<App>)
    ensures r.succeeded <==> a.coins >= amount
    ensures r.succeeded ==> r.state.coins == a.coins - amount >= 0 && r.state.(coins := a.coins) == a
    ensures !r.succeeded ==> r.state == a
  {
    if !CanSpendCoins(a, amount) then Attempt(false, a)
    else Attempt(true, a.(coins := a.coins - amount))
  }

  /** Spending what was just added gives the wallet back, from any
      solvent wallet. */
  lemma SpendUndoesAdd(a: App, amount: int)
    requires a.coins >= 0
    ensures SpendCoins(AddCoins(a, amount), amount) == Attempt(true, a)
  {
  }

  /** A change to the wallet: a reward paid in, or a purchase. */
  datatype WalletOp = Deposit(deposit: nat) | Spend(cost: int)

  /** The wallet after the changes, in order. */
  function ApplyWallet(a: App, ops: seq<WalletOp>): App
    decreases |ops|
  {
    if |ops| == 0 then a
    else
      var next := match ops[0]
        case Deposit(x) => AddCoins(a, x)
        case Spend(x) => SpendCoins(a, x).state;
      ApplyWallet(next, ops[1..])
  }

  /** A wallet that starts solvent stays solvent under any sequence of
      purchases and non-negative rewards. */
  lemma {:induction false} WalletStaysSolvent(a: App, ops: seq<WalletOp>)
    requires a.coins >= 0
    ensures ApplyWallet(a, ops).coins >= 0
    decreases |ops|
  {
    if |ops| > 0 {
      var next := match ops[0]
        case Deposit(x) => AddCoins(a, x)
        case Spend(x) => SpendCoins(a, x).state;
      WalletStaysSolvent(next, ops[1..]);
    }
  }

  /** `handleGameCompletion`: a victory pays the reward and, in campaign
      mode, completes the level being played; any other outcome changes
      nothing. */
  function HandleGameCompletion(a: App, result: GameResult): (r: App)
    ensures result.state != Victory ==> r == a
    ensures result.state == Victory ==>
              && r.coins == a.coins + VictoryReward
              && r.mode == a.mode && r.opponentCount == a.opponentCount
              && r.campaign == (if a.mode == CampaignMode then CompleteLevel(a.campaign, a.campaign.currentLevel) else a.campaign)
  {
    if result.state != Victory then a
    else
      var paid := AddCoins(a, VictoryReward);
      if a.mode == CampaignMode then paid.(campaign := CompleteLevel(a.campaign, a.campaign.currentLevel)) else paid
  }

  /** A campaign victory on the highest unlocked level opens the next one
      and leaves the player able to move on to it. */
  lemma CampaignVictoryUnlocksNext(a: App, result: GameResult)
    requires Campaigns.Valid(a.campaign) && a.mode == CampaignMode && result.state == Victory
    requires a.campaign.currentLevel == a.campaign.maxUnlockedLevel < TotalLevels
    ensures var r := HandleGameCompletion(a, result);
            && r.campaign.maxUnlockedLevel == a.campaign.maxUnlockedLevel + 1
            && HasNextCampaignLevel(r)
            && GetNextLevel(r.campaign) == Some(a.campaign.currentLevel + 1)
  {
  }

  /** `navigateToCampaignGame`: campaign mode, the level selected when it is
      unlocked, and the opposition that level calls for. */
  function NavigateToCampaignGame(a: App, level: int): (r: App)
    ensures r.mode == CampaignMode && r.coins == a.coins
    ensures r.campaign == SelectLevel(a.campaign, level)
    ensures r.opponentCount == GetOpponentCount(level)
    ensures level <= a.campaign.maxUnlockedLevel ==> r.opponentCount == NewLockedLevel(r.campaign.currentLevel).opponentCount
  {
    a.(mode := CampaignMode, campaign := SelectLevel(a.campaign, level), opponentCount := GetOpponentCount(level))
  }

  /** `hasNextCampaignLevel`: only in campaign mode. */
  predicate HasNextCampaignLevel(a: App)
  {
    a.mode == CampaignMode && HasNextLevel(a.campaign)
  }

  /** `goToNextCampaignLevel`: starts the next level when there is one. */
  function GoToNextCampaignLevel(a: App): (r: App)
    ensures GetNextLevel(a.campaign).None? ==> r == a
    ensures GetNextLevel(a.campaign).Some? ==>
              && r.mode == CampaignMode
              && r.campaign.currentLevel == a.campaign.currentLevel + 1
              && r.opponentCount == OpponentsForLevel(a.campaign.currentLevel + 1)
  {
    match GetNextLevel(a.campaign)
    case None => a
    case Some(next) => NavigateToCampaignGame(a, next)
  }

  /** Outside campaign mode there is never a next level to offer, and in
      campaign mode one is offered exactly when it can be started. */
  lemma NextCampaignLevelOffered(a: App)
    ensures a.mode != CampaignMode ==> !HasNextCampaignLevel(a)
    ensures a.mode == CampaignMode ==> (HasNextCampaignLevel(a) <==> GoToNextCampaignLevel(a) != a)
  {
    NextLevelAgrees(a.campaign);
  }
}
