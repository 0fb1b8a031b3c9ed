/** The match screen's view model: the guards between a tap on a region
    and the commands of the manager, and the queries the board reads. */
module GameViewModels {
  import opened Common
  import opened Regions
  import opened Countries
  import opened Players
  import opened GameActions
  import opened Games
  import opened AI
  import opened GameManagers
  import Apps

  /** The view model keeps its own selection and menu flags, separate from
      the manager's. */
  datatype ViewModel = ViewModel(
    manager: Manager,
    selectedRegionIndex: Option<nat>,
    showingRegionMenu: bool,
    showResultScreen: bool,
    gameResult: Option<GameResult>)

  /** `isHumanRegion`: the country is the human's; false without a human. */
  predicate IsHumanRegion(vm: ViewModel, countryIndex: nat)
  {
    GameManagers.Human(vm.manager).Some? && GameManagers.Human(vm.manager).value.countryIndex == countryIndex
  }

  /** The region exists on the board. */
  predicate OnBoard(vm: ViewModel, countryIndex: nat, regionIndex: nat)
  {
    countryIndex < |vm.manager.game.countries| && regionIndex < |vm.manager.game.countries[countryIndex].regions|
  }

  /** The human's rockets in hand, 0 without a human. */
  function HumanRocketsInHand(vm: ViewModel): int
  {
    if GameManagers.Human(vm.manager).Some? then GameManagers.Human(vm.manager).value.availableRockets else 0
  }

  /** `closeRegionMenu` of the view model. */
  function CloseMenu(vm: ViewModel): (r: ViewModel)
    ensures !r.showingRegionMenu && r.selectedRegionIndex.None?
    ensures r.(showingRegionMenu := vm.showingRegionMenu, selectedRegionIndex := vm.selectedRegionIndex) == vm
  {
    vm.(showingRegionMenu := false, selectedRegionIndex := None)
  }

  /** `canInteractWithRegion`: a region that is still standing, owned by the
      human in the economy phase, or an enemy's in the targeting phase
      while the human holds a rocket. The region must exist: the
      destroyed-check indexes the board unguarded. */
  predicate CanInteractWithRegion(vm: ViewModel, countryIndex: nat, regionIndex: nat)
    requires OnBoard(vm, countryIndex, regionIndex)
  {
    && !IsRegionDestroyed(vm.manager, countryIndex, regionIndex)
    && match vm.manager.game.currentPhase
       case Economy => IsHumanRegion(vm, countryIndex)
       case Targeting => !IsHumanRegion(vm, countryIndex) && HumanRocketsInHand(vm) > 0
       case Resolution => false
  }

  /** Which taps reach the unguarded destroyed-check: in the economy phase
      only taps on the human's own country, in the targeting phase only
      taps elsewhere. Those must name a region on the board. */
  predicate TapInBounds(vm: ViewModel, countryIndex: nat, regionIndex: nat)
  {
    match vm.manager.game.currentPhase
    case Economy => IsHumanRegion(vm, countryIndex) ==> OnBoard(vm, countryIndex, regionIndex)
    case Targeting => !IsHumanRegion(vm, countryIndex) ==> OnBoard(vm, countryIndex, regionIndex)
    case Resolution => true
  }

  /** `handleEconomyPhaseTap`: on an own region still standing, a second tap
      on the selected region closes the menu; any other tap selects the
      region and opens the menu. */
  function HandleEconomyTap(vm: ViewModel, countryIndex: nat, regionIndex: nat): (r: ViewModel)
    requires IsHumanRegion(vm, countryIndex) ==> OnBoard(vm, countryIndex, regionIndex)
    ensures r.manager == vm.manager
    ensures !IsHumanRegion(vm, countryIndex) || IsRegionDestroyed(vm.manager, countryIndex, regionIndex) ==> r == vm
    ensures IsHumanRegion(vm, countryIndex) && !IsRegionDestroyed(vm.manager, countryIndex, regionIndex) ==>
              if vm.showingRegionMenu && vm.selectedRegionIndex == Some(regionIndex)
              then r == CloseMenu(vm)
              else r == vm.(selectedRegionIndex := Some(regionIndex), showingRegionMenu := true)
  {
    if !IsHumanRegion(vm, countryIndex) || IsRegionDestroyed(vm.manager, countryIndex, regionIndex) then vm
    else if vm.showingRegionMenu && vm.selectedRegionIndex == Some(regionIndex) then CloseMenu(vm)
    else vm.(selectedRegionIndex := Some(regionIndex), showingRegionMenu := true)
  }

  /** `handleTargetingPhaseTap`: an enemy region still standing, tapped
      while the human holds a rocket, becomes an attack target. */
  function HandleTargetingTap(vm: ViewModel, countryIndex: nat, regionIndex: nat): (r: ViewModel)
    requires WellFormed(vm.manager.game)
    requires !IsHumanRegion(vm, countryIndex) ==> OnBoard(vm, countryIndex, regionIndex)
    ensures WellFormed(r.manager.game)
    ensures r == vm.(manager := r.manager)
    ensures (|| IsHumanRegion(vm, countryIndex)
             || IsRegionDestroyed(vm.manager, countryIndex, regionIndex)
             || HumanRocketsInHand(vm) <= 0) ==> r == vm
    ensures !IsHumanRegion(vm, countryIndex) && !IsRegionDestroyed(vm.manager, countryIndex, regionIndex) && HumanRocketsInHand(vm) > 0 ==>
              r.manager == SelectAttackTarget(vm.manager, countryIndex, regionIndex)
  {
    if IsHumanRegion(vm, countryIndex) || IsRegionDestroyed(vm.manager, countryIndex, regionIndex) || HumanRocketsInHand(vm) <= 0 then vm
    else vm.(manager := SelectAttackTarget(vm.manager, countryIndex, regionIndex))
  }

  /** `handleRegionTap`: dispatch on the phase; the resolution phase
      ignores taps. */
  function HandleRegionTap(vm: ViewModel, countryIndex: nat, regionIndex: nat): (r: ViewModel)
    requires WellFormed(vm.manager.game) && TapInBounds(vm, countryIndex, regionIndex)
    ensures WellFormed(r.manager.game)
    ensures vm.manager.game.currentPhase == Resolution ==> r == vm
    ensures vm.manager.game.currentPhase == Economy ==> r == HandleEconomyTap(vm, countryIndex, regionIndex)
    ensures vm.manager.game.currentPhase == Targeting ==> r == HandleTargetingTap(vm, countryIndex, regionIndex)
  {
    match vm.manager.game.currentPhase
    case Economy => HandleEconomyTap(vm, countryIndex, regionIndex)
    case Targeting => HandleTargetingTap(vm, countryIndex, regionIndex)
    case Resolution => vm
  }

  /** A tap on a region of the board does something exactly when the
      region is interactive. */
  lemma TapActsIffInteractive(vm: ViewModel, countryIndex: nat, regionIndex: nat)
    requires WellFormed(vm.manager.game) && OnBoard(vm, countryIndex, regionIndex)
    ensures HandleRegionTap(vm, countryIndex, regionIndex) != vm <==> CanInteractWithRegion(vm, countryIndex, regionIndex)
  {
    var m := vm.manager;
    if m.game.currentPhase == Targeting && CanInteractWithRegion(vm, countryIndex, regionIndex) {
      var h := HumanIndex(m.game.players).value;
      var r := SelectAttackTarget(m, countryIndex, regionIndex);
      assert |r.game.playerActions[h].attackTargets| == |m.game.playerActions[h].attackTargets| + 1;
    }
  }

  /** The interaction guard never admits a destroyed region, nor any region
      in the resolution phase. */
  lemma NeverInteractiveWhenDestroyedOrResolving(vm: ViewModel, countryIndex: nat, regionIndex: nat)
    requires OnBoard(vm, countryIndex, regionIndex)
    requires vm.manager.game.countries[countryIndex].regions[regionIndex].isDestroyed
             || vm.manager.game.currentPhase == Resolution
    ensures !CanInteractWithRegion(vm, countryIndex, regionIndex)
  {
  }

  /** `buyRocket`: with a region selected and `canBuyRocket()` holding, the
      manager buys and the menu closes; otherwise nothing happens. */
  function BuyRocketFromMenu(vm: ViewModel): (r: ViewModel)
    requires WellFormed(vm.manager.game)
    ensures WellFormed(r.manager.game)
    ensures vm.selectedRegionIndex.None? || !CanBuyRocket(vm.manager) ==> r == vm
    ensures vm.selectedRegionIndex.Some? && CanBuyRocket(vm.manager) ==>
              r == CloseMenu(vm).(manager := BuyRocketForRegion(vm.manager, vm.selectedRegionIndex.value))
  {
    match vm.selectedRegionIndex
    case None => vm
    case Some(regionIndex) =>
      if !CanBuyRocket(vm.manager) then vm
      else CloseMenu(vm.(manager := BuyRocketForRegion(vm.manager, regionIndex)))
  }

  /** `buyAirDefense`: with a region selected that the human can defend,
      the manager buys and the menu closes; otherwise nothing happens. */
  function BuyAirDefenseFromMenu(vm: ViewModel): (r: ViewModel)
    requires WellFormed(vm.manager.game)
    ensures WellFormed(r.manager.game)
    ensures vm.selectedRegionIndex.None? || !CanBuyAirDefenseFor(vm.manager, vm.selectedRegionIndex.value) ==> r == vm
    ensures vm.selectedRegionIndex.Some? && CanBuyAirDefenseFor(vm.manager, vm.selectedRegionIndex.value) ==>
              r == CloseMenu(vm).(manager := BuyAirDefenseForRegion(vm.manager, vm.selectedRegionIndex.value))
  {
    match vm.selectedRegionIndex
    case None => vm
    case Some(regionIndex) =>
      if !CanBuyAirDefenseFor(vm.manager, regionIndex) then vm
      else CloseMenu(vm.(manager := BuyAirDefenseForRegion(vm.manager, regionIndex)))
  }

  /** Through the view model a purchase is never wasted: every rocket bought
      is recorded, and an air defense is bought only for a region that
      takes it, so the coins always pay for a recorded action. */
  lemma GuardedPurchasesAreRecorded(vm: ViewModel)
    requires WellFormed(vm.manager.game) && vm.selectedRegionIndex.Some?
    ensures var m := vm.manager;
            var i := vm.selectedRegionIndex.value;
            && (CanBuyRocket(m) ==>
                  var h := HumanIndex(m.game.players).value;
                  BuyRocketFromMenu(vm).manager.game.playerActions[h].purchaseActions == m.game.playerActions[h].purchaseActions + [GameActions.BuyRocket(i)])
            && (CanBuyAirDefenseFor(m, i) ==>
                  var h := HumanIndex(m.game.players).value;
                  BuyAirDefenseFromMenu(vm).manager.game.playerActions[h].purchaseActions == m.game.playerActions[h].purchaseActions + [GameActions.BuyAirDefense(i)])
  {
    var m := vm.manager;
    var i := vm.selectedRegionIndex.value;
    BuyRocketIffCanBuy(m, i);
    if CanBuyAirDefenseFor(m, i) {
      BuyAirDefenseOutcomes(m, i);
    }
  }

  /** `endCurrentPhase` of the view model: the manager ends the phase, the
      menu closes, and a finished match publishes its result. */
  function EndPhase(vm: ViewModel, order: seq<nat>, jitter: nat -> (nat, nat) -> nat): (r: ViewModel)
    requires WellFormed(vm.manager.game) && IsOrdering(order, |vm.manager.game.players|)
    ensures WellFormed(r.manager.game)
    ensures r.manager == GameManagers.EndCurrentPhase(vm.manager, order, jitter)
    ensures !r.showingRegionMenu && r.selectedRegionIndex.None?
    ensures IsGameOver(r.manager) ==> r.showResultScreen && r.gameResult == GetGameResult(r.manager.game)
    ensures !IsGameOver(r.manager) ==> r.showResultScreen == vm.showResultScreen && r.gameResult == vm.gameResult
  {
    var m := GameManagers.EndCurrentPhase(vm.manager, order, jitter);
    var closed := CloseMenu(vm.(manager := m));
    if IsGameOver(m) then closed.(gameResult := GetGameResult(m.game), showResultScreen := true)
    else closed
  }

  /** `endCurrentPhase` together with the view model's weak link to the
      app: when the phase end leaves a finished match, its result is handed
      to the app's `handleGameCompletion`, so the app is paid the victory
      reward exactly when the match was won. Without the link nothing is
      reported. */
  function EndPhaseReporting(vm: ViewModel, app: Option<Apps.App>, order: seq<nat>, jitter: nat -> (nat, nat) -> nat): (r: (ViewModel, Option<Apps.App>))
    requires WellFormed(vm.manager.game) && IsOrdering(order, |vm.manager.game.players|)
    ensures r.0 == EndPhase(vm, order, jitter)
    ensures app.None? <==> r.1.None?
    ensures app.Some? && IsGameOver(r.0.manager) && r.0.manager.game.gameState == Victory ==>
              && r.1.value.coins == app.value.coins + Apps.VictoryReward
              && r.1.value.mode == app.value.mode
    ensures app.Some? && (!IsGameOver(r.0.manager) || r.0.manager.game.gameState != Victory) ==> r.1 == app
  {
    var v := EndPhase(vm, order, jitter);
    if app.Some? && IsGameOver(v.manager) then
      (v, Some(Apps.HandleGameCompletion(app.value, GetGameResult(v.manager.game).value)))
    else (v, app)
  }

  // ---------------------------------------------------------------------
  // Bounds-checked queries

  /** `isRegionTargeted`: some target the human has chosen names the
      region. */
  function IsRegionTargeted(vm: ViewModel, countryIndex: nat, regionIndex: nat): (r: bool)
    requires WellFormed(vm.manager.game)
    ensures r <==> exists t :: t in AttackTargets(vm.manager) && t.targetCountryIndex == countryIndex && t.targetRegionIndex == regionIndex
    ensures HumanIndex(vm.manager.game.players).None? ==> !r
  {
    Targeted(AttackTargets(vm.manager), countryIndex, regionIndex)
  }

  predicate Targeted(ts: seq<AttackTarget>, countryIndex: nat, regionIndex: nat)
  {
    exists i :: 0 <= i < |ts| && ts[i].targetCountryIndex == countryIndex && ts[i].targetRegionIndex == regionIndex
  }

  /** `getPlayerStats`: the human's standing regions, coins, rockets and
      income, all zero without a human. */
  function PlayerStats(vm: ViewModel): (r: (int, int, int, int))
    requires WellFormed(vm.manager.game)
    ensures HumanIndex(vm.manager.game.players).None? ==> r == (0, 0, 0, 0)
    ensures HumanIndex(vm.manager.game.players).Some? ==>
              var p := GameManagers.Human(vm.manager).value;
              var c := vm.manager.game.countries[p.countryIndex];
              && r.0 == c.AliveRegionsCount() && r.1 == p.coins && r.2 == p.availableRockets
              && r.3 == RegionIncome * r.0
  {
    match GameManagers.Human(vm.manager)
    case None => (0, 0, 0, 0)
    case Some(p) =>
      var c := vm.manager.game.countries[p.countryIndex];
      TotalIncomeIsTenPerAliveRegion(c);
      (c.AliveRegionsCount(), p.coins, p.availableRockets, c.TotalIncome())
  }

  /** `regionHasAirDefense`: false off the board. */
  function RegionHasAirDefense(vm: ViewModel, countryIndex: nat, regionIndex: nat): (r: bool)
    ensures r <==> OnBoard(vm, countryIndex, regionIndex) && vm.manager.game.countries[countryIndex].regions[regionIndex].hasAirDefense
  {
    if countryIndex >= |vm.manager.game.countries| || regionIndex >= |vm.manager.game.countries[countryIndex].regions| then false
    else vm.manager.game.countries[countryIndex].regions[regionIndex].hasAirDefense
  }

  /** `getCountryName`: "Unknown" off the list. */
  function CountryName(vm: ViewModel, index: nat): (r: string)
    ensures index >= |vm.manager.game.countries| ==> r == "Unknown"
    ensures index < |vm.manager.game.countries| ==> r == vm.manager.game.countries[index].name
  {
    if index >= |vm.manager.game.countries| then "Unknown" else vm.manager.game.countries[index].name
  }

  /** `getCountryRegionCount`: the standing regions, 0 off the list. */
  function CountryRegionCount(vm: ViewModel, index: nat): (r: nat)
    ensures index >= |vm.manager.game.countries| ==> r == 0
    ensures index < |vm.manager.game.countries| ==> r == vm.manager.game.countries[index].AliveRegionsCount()
  {
    if index >= |vm.manager.game.countries| then 0 else vm.manager.game.countries[index].AliveRegionsCount()
  }

  /** `isCountryDestroyed`: true off the list. */
  function IsCountryDestroyed(vm: ViewModel, index: nat): (r: bool)
    ensures index >= |vm.manager.game.countries| ==> r
    ensures index < |vm.manager.game.countries| ==> (r <==> vm.manager.game.countries[index].IsDestroyed())
  {
    index >= |vm.manager.game.countries| || vm.manager.game.countries[index].IsDestroyed()
  }
}
