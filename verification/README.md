# Ballys Shreveport — a Dafny model of the game engine

Ballys Shreveport is a turn-based strategy game for iOS. Four countries
(USA, Iran, China, North Korea) hold five regions each. The human plays
USA and three AI players play the rest. Every round has three phases:

- **economy**: players buy rockets (at most two per round) and one-shot air
  defenses, at 20 coins each;
- **targeting**: players spend rockets on enemy regions;
- **resolution**: all attacks are applied one after another. An attack on a
  defended region uses up the defense. Any other attack destroys the
  region.

A standing region yields 10 coins per round. The match ends in victory,
defeat or a draw when at most one country is left, or after 50 rounds.
Around the match sit a 15-level campaign, a coin wallet with a victory
reward, achievements, a background shop and the region/country tables.

The model is functional: every entity is an immutable datatype, and every
command is a pure function from the old state to the new one. A Swift
`mutating func … -> Bool` becomes a function returning an
`Attempt(succeeded, state)`. Turn resolution is a recursive fold over the
attack sequence.

| module | file | models |
|---|---|---|
| `Common` | common.dfy | optionals, `Attempt`, Swift's truncating `/`, `remove(at:)` |
| `Regions` | region.dfy | `Region` |
| `Countries` | country.dfy | `Country` and the country rosters |
| `Players` | player.dfy | `Player` and the player rosters |
| `GameActions` | game_action.dfy | actions, targets, per-player turn actions, turn resolutions |
| `Games` | game.dfy | the `Game` aggregate: phases, rounds, resolution, end of match, result |
| `Ranking` | ranking.dfy | the descending sort the AI ranks its candidates with |
| `AI` | ai_system.dfy | the AI purchase and targeting policies |
| `GameManagers` | game_manager.dfy | the command layer: human commands, AI execution, phase ending |
| `GameViewModels` | game_view_model.dfy | tap handling, interaction guards, menu purchases, board queries |
| `CampaignLevels` | campaign_level.dfy | one campaign level |
| `Campaigns` | campaign_manager.dfy | campaign progress |
| `Apps` | app_view_model.dfy | wallet, victory reward, campaign navigation |
| `Achievements` | achievements.dfy | achievement kinds and the achievement list |
| `Backgrounds` | background.dfy | shop backgrounds and their buttons |
| `RegionShapes` | region_shape.dfy | region shapes, country types, regions grouped by country |

Some behaviour depends on things outside the engine. The model passes
these in as parameters:

- **Attack order.** `Game.resolveCurrentTurn` collects attacks by iterating
  a dictionary keyed by player id, so the player order is unspecified. It
  is the parameter `order`, any permutation of the player indices
  (`Games.IsOrdering`). Player ids become player indices.
- **Random target bonus.** The AI adds a random bonus of up to 0.2 to each
  target score. It is the parameter `jitter`, a function from (country,
  region) to hundredths, capped at 20. `GameManagers` takes one such
  function per player.
- **Animation timer.** After resolution, the manager stays locked until a
  timer of 1.5 seconds fires. The firing is the explicit event
  `GameManagers.AnimationFinished`.
- **Scores.** The source's `Double` scores are integer hundredths.
  Purchase scores are weight × priority, so they are ten-thousandths.

## Model

| member | source | states |
|---|---|---|
| Regions.Region.Income | BallysShreveport/Models/Region.swift:11-13 | a region yields 10 exactly when standing, 0 exactly when destroyed |
| Regions.Region.Destroy | BallysShreveport/Models/Region.swift:15-18 | the region is destroyed and has no air defense afterwards |
| Regions.DestroyIdempotent | BallysShreveport/Models/Region.swift:15-18 | destroying twice is the same as destroying once |
| Regions.Region.AddAirDefense | BallysShreveport/Models/Region.swift:20-23 | no change on a destroyed or already defended region; otherwise the region becomes defended; destroyed ⇒ undefended is kept |
| Regions.Region.ConsumeAirDefense | BallysShreveport/Models/Region.swift:25-29 | reports success exactly when a defense was present; afterwards there is none and the destroyed flag is unchanged |
| Regions.CanBuyAirDefenseIffAddChanges | BallysShreveport/Models/Region.swift:20-33 | a region can take air defense exactly when arming it changes it, i.e. it is standing and undefended |
| Regions.CreateRegions | BallysShreveport/Models/Region.swift:38-49 | five regions, all standing and undefended |
| Countries.Country.DestroyRegion | BallysShreveport/Models/Country.swift:32-35 | an out-of-range index changes nothing; otherwise only that region is destroyed |
| Countries.DestroyRegionIsLocal | BallysShreveport/Models/Country.swift:32-35 | every other region is left as it was |
| Countries.Country.AddAirDefenseToRegion | BallysShreveport/Models/Country.swift:37-47 | succeeds exactly when the index is in range and that region can take air defense; on failure the country is unchanged |
| Countries.Country.ConsumeAirDefense | BallysShreveport/Models/Country.swift:49-52 | an out-of-range index fails and changes nothing; in range, it succeeds exactly when the region was defended |
| Countries.TotalIncomeIsTenPerAliveRegion | BallysShreveport/Models/Country.swift:16-26 | total income is 10 × standing regions, and a country is destroyed exactly when its income is 0 |
| Countries.SumIncomeIsTenPerAlive | BallysShreveport/Models/Country.swift:16-22 | summed region income is 10 × the number of standing regions, for any list of regions |
| Countries.AliveNeverIncreases | BallysShreveport/Models/Country.swift:20-52 | no country mutation raises the standing-region count; the air-defense mutations keep it |
| Countries.MutationsPreserveValid | BallysShreveport/Models/Country.swift:32-52 | every country mutation keeps "destroyed ⇒ no air defense" for all regions |
| Countries.NewCountry | BallysShreveport/Models/Country.swift:10-14 | a new country has five standing regions |
| Countries.CreateDefaultCountries | BallysShreveport/Models/Country.swift:61-68 | four fresh countries, the one at position i having country index i |
| Countries.CreateCountries | BallysShreveport/Models/Country.swift:70-93 | 2, 3 or 4 countries for 1, 2 or 3 opponents and the default four otherwise; always USA (0) first and North Korea (3) last |
| Countries.CreateCountriesIndices | BallysShreveport/Models/Country.swift:70-93 | the countries carry exactly the roster's country indices, in order |
| Games.RostersAgree | BallysShreveport/Models/Player.swift:85-108 | the player roster and the country roster for the same opponent count have the same length, and player i is bound to the country at position i |
| Players.Player.BuyRocket | BallysShreveport/Models/Player.swift:41-47 | succeeds exactly when coins ≥ 20 and fewer than 2 rockets were bought this round; then −20 coins, +1 rocket, +1 bought; otherwise no change |
| Players.Player.BuyAirDefense | BallysShreveport/Models/Player.swift:49-53 | succeeds exactly when coins ≥ 20 and then only deducts 20; otherwise no change |
| Players.Player.UseRocket | BallysShreveport/Models/Player.swift:55-59 | fails with no change when no rocket is held; otherwise takes exactly one rocket |
| Players.Player.AddIncome | BallysShreveport/Models/Player.swift:37-39 | only the coins change, by exactly the amount |
| Players.Player.ResetTurnCounters | BallysShreveport/Models/Player.swift:61-63 | only the rockets-bought counter changes, to 0 |
| Players.OpsKeepValid | BallysShreveport/Models/Player.swift:29-63 | from a valid player, any sequence of purchases, rocket uses and income keeps coins ≥ 0 and rockets bought per round within 0..2 |
| Players.NewPlayer | BallysShreveport/Models/Player.swift:21-27 | a new player starts with 0 coins, 0 rockets, 0 bought |
| Players.CreateDefaultPlayers | BallysShreveport/Models/Player.swift:76-83 | four players, player i on country i, only player 0 human |
| Players.CreatePlayers | BallysShreveport/Models/Player.swift:85-108 | 2, 3 or 4 players for 1, 2 or 3 opponents, else the default four; exactly one human, at position 0; player i is a fresh player on the i-th country index of the roster (USA first, North Korea last) |
| GameActions.PlayerTurnActions.AddPurchaseAction | BallysShreveport/Models/GameAction.swift:49-51 | appends to the purchases and leaves the targets alone |
| GameActions.PlayerTurnActions.AddAttackTarget | BallysShreveport/Models/GameAction.swift:53-55 | appends to the targets and leaves the purchases alone |
| GameActions.PlayerTurnActions.RemoveAttackTarget | BallysShreveport/Models/GameAction.swift:57-60 | no change for an index past the end; otherwise removes exactly that target and keeps the order of the rest |
| GameActions.AddThenRemoveLast | BallysShreveport/Models/GameAction.swift:53-60 | removing the target just added restores the actions |
| GameActions.PlayerTurnActions.ClearActions | BallysShreveport/Models/GameAction.swift:62-69 | no actions are left afterwards |
| GameActions.FilterBlocked | BallysShreveport/Models/GameAction.swift:99-105 | keeps exactly the results with the requested blocked flag, and never more results than it was given |
| GameActions.FilterBlockedInOrder | BallysShreveport/Models/GameAction.swift:99-105 | the kept results are in their original order: the results read at the increasing positions that carry the flag |
| GameActions.SuccessfulAndBlockedPartition | BallysShreveport/Models/GameAction.swift:99-105 | successful and blocked results together are a permutation of all results |
| GameActions.TurnResolutionPartition | BallysShreveport/Models/GameAction.swift:99-105 | every result is either successful or blocked, never both, and none is lost or duplicated |
| Games.NewGame | BallysShreveport/Models/Game.swift:59-70 | a new match: not started, economy phase, round 1, four countries and players, no actions |
| Games.StartGame | BallysShreveport/Models/Game.swift:88-91 | the match is in progress and each player received its country's income, nothing else changes |
| Games.NewGameStart | BallysShreveport/Models/Game.swift:88-91 | a new match starts with 50 coins per player |
| Games.HumanIndex | BallysShreveport/Models/Game.swift:72-74 | the first human player, or none when there is no human |
| Games.StartNewRound | BallysShreveport/Models/Game.swift:108-125 | next round in the economy phase; counters reset, actions cleared, each player paid its country's income; countries and result history untouched |
| Games.CollectAttacks | BallysShreveport/Models/Game.swift:140-143 | an attack is collected exactly when some player in the order chose it; for a single player, exactly that player's list, in its order |
| Games.CollectAttacksAppend | BallysShreveport/Models/Game.swift:140-143 | collecting over two runs of players joined is the two collections joined: every player's targets appear once per choice, in the player's order, players in the given order |
| Games.Strike | BallysShreveport/Models/Game.swift:146-160 | one attack is blocked exactly when the target region is defended; a blocked attack uses up the defense, any other destroys the region; other countries are untouched |
| Games.Resolve | BallysShreveport/Models/Game.swift:135-168 | one result per attack, in attack order, and the board keeps its shape |
| Games.BlockedIffDefendedWhenProcessed | BallysShreveport/Models/Game.swift:146-160 | attack i is blocked exactly when its region is defended after attacks 0..i−1 were applied |
| Games.DestroyedAreUnblockedAttacks | BallysShreveport/Models/Game.swift:146-160 | every unblocked attack appends a destroyed-region entry, already destroyed target or not |
| Games.DefendedRegionHitTwice | BallysShreveport/Models/Game.swift:146-160 | two attacks on one defended region: the first is blocked, the second destroys it |
| Games.ResolvePreserves | BallysShreveport/Models/Game.swift:146-160 | resolution keeps every region valid and never brings a destroyed region back |
| Games.AliveCountries | BallysShreveport/Models/Game.swift:80-82 | exactly the countries not destroyed, read off the board at the increasing positions of the standing countries, so order and repeats are kept |
| Games.FirstStanding | BallysShreveport/Models/Game.swift:80-82 | the first alive country exists exactly when some country stands, and it is the standing country at the lowest position |
| Games.CheckEndConditions | BallysShreveport/Models/Game.swift:170-197 | one standing country: victory if it is the human's, else defeat; none: draw; otherwise maxRoundsReached from round 50; otherwise the match goes on |
| Games.ResolveCurrentTurn | BallysShreveport/Models/Game.swift:135-168 | the attacks collected in the given player order are all on the board; the board becomes the board they resolve to, and exactly one turn resolution is appended, for the current round, holding that resolution's results and destroyed regions; players and their actions are untouched |
| Games.NextPhase | BallysShreveport/Models/Game.swift:93-106 | economy → targeting with nothing else changed; targeting → resolution: the board becomes the result of resolving the collected attacks against it, and exactly that resolution is appended for this round; resolution ends the match or starts a new round |
| Games.NextPhasePreservesValid | BallysShreveport/Models/Game.swift:93-168 | phase changes keep the match invariants |
| Games.EndedGameIsFixedPoint | BallysShreveport/Models/Game.swift:100-103 | once the end state is recorded, another resolution step changes nothing |
| Games.MaxRoundsWinner | BallysShreveport/Models/Game.swift:205-210 | the winner after 50 rounds is the lowest index having the largest standing-region count |
| Games.GetGameResult | BallysShreveport/Models/Game.swift:199-221 | no result while not started or in progress; otherwise the state, rounds played and region counts; after victory or defeat the winner is the index of the standing country at the lowest position, none when no country stands; the round-limit winner rule; no winner on a draw |
| Ranking.Sort | BallysShreveport/Models/AISystem.swift:86 | a permutation of the candidates in descending score order |
| Ranking.TopOutranks | BallysShreveport/Models/AISystem.swift:149-151 | after sorting, anything in the top n scores at least as much as anything left out |
| AI.StrategyWeights | BallysShreveport/Models/AISystem.swift:9-23 | the rocket and air-defense weights of the three strategies |
| AI.RocketPriority | BallysShreveport/Models/AISystem.swift:178-181 | 0.8 while more than one country stands, else 0.2 |
| AI.MakePurchaseDecisions | BallysShreveport/Models/AISystem.swift:49-111 | the purchases cost at most the coins held; rockets stay within the round's cap; air defense only for regions that can take it, each at most once; a region that could take a defense is left out only when the remaining coins cannot pay 20; fewer rockets than the cap and the coins allow only when coins or the counter ran out |
| AI.Commit | BallysShreveport/Models/AISystem.swift:86-111 | the kept actions are a sub-multiset of the ranked ones, cost at most the coins and stay within the rocket cap; an offered air defense or rocket is dropped only when the running budget or counter could not pay for it |
| AI.DefenseLeftOnlyWhenBroke | BallysShreveport/Models/AISystem.swift:54-111 | a region that can take an air defense goes without one only when the coins left after the purchases are below 20 |
| AI.PurchaseCandidateFacts | BallysShreveport/Models/AISystem.swift:54-83 | air-defense candidates name eligible regions at most once; all rocket candidates target the best region |
| AI.AirDefenseCandidatesIncreasing | BallysShreveport/Models/AISystem.swift:54-65 | the air-defense candidates name strictly increasing regions |
| AI.RocketsRankFirst | BallysShreveport/Models/AISystem.swift:157-181 | with more than one country standing, aggressive and balanced rank every rocket above every air defense |
| AI.RegionTargets | BallysShreveport/Models/AISystem.swift:123-143 | one candidate per standing region of the country, in region order, each with its score |
| AI.CountryTargets | BallysShreveport/Models/AISystem.swift:120-145 | every candidate is a legal, scored target; no target twice; every legal target is a candidate |
| AI.SelectAttackTargets | BallysShreveport/Models/AISystem.swift:114-154 | none without rockets, otherwise at most one per rocket; all legal and distinct; all legal targets when fewer than the rockets; no left-out legal target outscores a chosen one |
| AI.TargetPriority | BallysShreveport/Models/AISystem.swift:193-228 | a target scores between 0.5 and 1.0 |
| AI.CreateForPlayer | BallysShreveport/Models/AISystem.swift:233-238 | balanced exactly for index 1, aggressive for every other index |
| GameManagers.NewManager | BallysShreveport/Managers/GameManager.swift:15-18 | a new match, with an AI strategy bound to each AI country (1, 2, 3) |
| GameManagers.AISystemsFor | BallysShreveport/Managers/GameManager.swift:36-43 | a strategy is bound to exactly the AI players' countries |
| GameManagers.StartNewGame | BallysShreveport/Managers/GameManager.swift:21-25 | a fresh started match with fresh AI bindings, the rest of the manager untouched |
| GameManagers.SelectRegion | BallysShreveport/Managers/GameManager.swift:92-96 | opens the region menu in the economy phase only |
| GameManagers.Purchase | BallysShreveport/Managers/GameManager.swift:98-122 | a purchase by one player: a rocket is recorded exactly when bought; air defense is paid whenever affordable and recorded only when the region accepts; other players untouched |
| GameManagers.BuyRocketForRegion | BallysShreveport/Managers/GameManager.swift:98-108 | without a human nothing happens; otherwise the rocket is recorded exactly when the human can buy one, and then 20 coins are paid and one rocket gained, else the match is unchanged; the menu closes |
| GameManagers.BuyAirDefenseForRegion | BallysShreveport/Managers/GameManager.swift:110-122 | without a human nothing happens; otherwise the defense is recorded and the region armed exactly when the human can pay and the region accepts; 20 coins are paid whenever affordable, even for a region that refuses; the menu closes |
| GameManagers.BuyRocketIffCanBuy | BallysShreveport/Managers/GameManager.swift:98-108 | the human's rocket purchase is paid and recorded exactly when the human can buy a rocket |
| GameManagers.BuyAirDefenseOutcomes | BallysShreveport/Managers/GameManager.swift:110-122 | an eligible region is armed, paid and recorded; an ineligible one still costs 20 coins and records nothing |
| GameManagers.SelectAttackTarget | BallysShreveport/Managers/GameManager.swift:130-147 | acts only in targeting with a rocket in hand: appends a target from the human's country and takes exactly one rocket |
| GameManagers.RemoveAttackTarget | BallysShreveport/Managers/GameManager.swift:149-158 | removes the target at the index, if any, and always returns one rocket |
| GameManagers.RemoveOutOfRangeMintsRocket | BallysShreveport/Managers/GameManager.swift:149-158 | removing a target that does not exist still adds a rocket |
| GameManagers.FreshMatchRemovalYieldsRocket | BallysShreveport/Managers/GameManager.swift:149-158 | in a fresh match with no targets, removing target 0 gives the human a rocket |
| GameManagers.RemoveAttackTargetChecked | BallysShreveport/Managers/GameManager.swift:149-158 | the refund comes only with a removal: out of range nothing changes, and the human's rockets in hand plus targets chosen stay the same |
| GameManagers.SelectThenRemoveRestores | BallysShreveport/Managers/GameManager.swift:130-158 | selecting a target and removing it again restores the manager |
| GameManagers.ExecutableAllRecorded | BallysShreveport/Managers/GameManager.swift:170-184 | a list of purchases the player can afford is carried out in full: all recorded, coins and rockets changed by exactly its cost and rocket count |
| GameManagers.AIDecisionsAllCarriedOut | BallysShreveport/Managers/GameManager.swift:161-184 | an AI's own purchase decisions are all executed and recorded, and its coins stay non-negative |
| GameManagers.ExecuteAIPurchases | BallysShreveport/Managers/GameManager.swift:161-186 | AI purchases touch no player without a bound strategy and no player's targets, and keep the match invariants |
| GameManagers.AIPurchaseStep | BallysShreveport/Managers/GameManager.swift:163-184 | one AI player's turn records the purchases its strategy decides, pays their total cost and adds their rockets; every other player is untouched |
| GameManagers.ExecuteAIPurchasesRecorded | BallysShreveport/Managers/GameManager.swift:161-186 | after the whole loop, every AI player with a strategy has recorded exactly the decisions its strategy made on its own turn, paid their total cost and gained their rockets |
| GameManagers.RecordTarget | BallysShreveport/Managers/GameManager.swift:197-201 | with a rocket in hand, one is spent and the target appended; without one nothing changes |
| GameManagers.ExecuteTargets | BallysShreveport/Managers/GameManager.swift:197-201 | targets are recorded only while rockets last: the first min(rockets, count) are recorded and paid one rocket each |
| GameManagers.AITargetsAllRecorded | BallysShreveport/Managers/GameManager.swift:188-201 | an AI's selected targets are all on the board and all recorded, each paid with one rocket, nothing else about the player changing |
| GameManagers.ExecuteAITargeting | BallysShreveport/Managers/GameManager.swift:188-203 | AI targeting touches no player without a bound strategy, no coins, no purchases, no country, and keeps the match invariants |
| GameManagers.AITargetingStep | BallysShreveport/Managers/GameManager.swift:190-201 | one AI player's turn records every target its strategy selects, spending one rocket each and changing nothing else about the player; every other player is untouched |
| GameManagers.ExecuteAITargetingRecorded | BallysShreveport/Managers/GameManager.swift:188-203 | after the whole loop, every AI player with a strategy has recorded the targets selected against the board as the loop started, one rocket spent on each |
| GameManagers.EndCurrentPhase | BallysShreveport/Managers/GameManager.swift:46-89 | no-op while a turn is processing; economy and targeting advance the match from the result of the AI loop; resolution locks the manager, stores the last turn resolution and advances |
| GameManagers.EndEconomyPhase | BallysShreveport/Managers/GameManager.swift:59-63 | the match moves to targeting from the result of the AI purchase loop; players without a bound strategy are untouched; invariants kept |
| GameManagers.EndEconomyPhaseRecorded | BallysShreveport/Managers/GameManager.swift:59-63 | after the phase ends, every AI player with a strategy has recorded and paid for the purchases its strategy decided |
| GameManagers.EndTargetingPhase | BallysShreveport/Managers/GameManager.swift:65-69 | the turn is resolved from the result of the AI targeting loop, with one new turn resolution; players without a bound strategy are untouched; invariants kept |
| GameManagers.EndTargetingPhaseRecorded | BallysShreveport/Managers/GameManager.swift:65-69 | after the phase ends, every AI player with a strategy has recorded the targets it selected, one rocket spent on each, before the turn was resolved |
| GameManagers.EndResolutionPhase | BallysShreveport/Managers/GameManager.swift:71-89 | the manager locks, shows the last resolution recorded before the step (or keeps the one it had), advances the match by one phase and changes nothing else |
| GameManagers.EndCurrentPhasePreservesValid | BallysShreveport/Managers/GameManager.swift:46-89 | ending a phase keeps the match invariants |
| GameManagers.ResolutionLocksUntilAnimationFinished | BallysShreveport/Managers/GameManager.swift:71-89 | after resolution, ending the phase again does nothing until the animation has finished |
| GameManagers.CannotEndPhaseIsNoOp | BallysShreveport/Managers/GameManager.swift:219-228 | when the phase cannot be ended, ending it does nothing |
| GameManagers.AnimationFinished | BallysShreveport/Managers/GameManager.swift:85-88 | only the processing and animation flags change, both to false |
| GameManagers.IsGameOver | BallysShreveport/Managers/GameManager.swift:230-236 | the match is over exactly when it is neither in progress nor not started, exactly when a result exists |
| GameManagers.AttackTargets | BallysShreveport/Managers/GameManager.swift:252-255 | the human's targets, empty without a human |
| GameViewModels.HandleEconomyTap | BallysShreveport/ViewModels/GameViewModel.swift:77-88 | only the human's standing regions react; tapping the selected region with the menu open closes it, any other selects it and opens the menu |
| GameViewModels.HandleTargetingTap | BallysShreveport/ViewModels/GameViewModel.swift:90-96 | a target is selected only for a standing enemy region while the human holds a rocket |
| GameViewModels.HandleRegionTap | BallysShreveport/ViewModels/GameViewModel.swift:66-75 | taps are dispatched by phase and ignored during resolution |
| GameViewModels.TapActsIffInteractive | BallysShreveport/ViewModels/GameViewModel.swift:195-206 | a tap does something exactly when the region is interactive |
| GameViewModels.NeverInteractiveWhenDestroyedOrResolving | BallysShreveport/ViewModels/GameViewModel.swift:195-206 | destroyed regions, and all regions during resolution, are never interactive |
| GameViewModels.BuyRocketFromMenu | BallysShreveport/ViewModels/GameViewModel.swift:99-105 | buys only with a region selected and a rocket affordable, then closes the menu; otherwise nothing |
| GameViewModels.BuyAirDefenseFromMenu | BallysShreveport/ViewModels/GameViewModel.swift:107-113 | buys only with a region selected that can be defended, then closes the menu; otherwise nothing |
| GameViewModels.GuardedPurchasesAreRecorded | BallysShreveport/ViewModels/GameViewModel.swift:99-113 | a purchase through the menu is always recorded, so no coins are spent for nothing |
| GameViewModels.CloseMenu | BallysShreveport/ViewModels/GameViewModel.swift:115-118 | only the menu flag and the selection change, both cleared |
| GameViewModels.EndPhase | BallysShreveport/ViewModels/GameViewModel.swift:49-63 | the manager ends the phase, the menu closes, and a finished match shows its result |
| GameViewModels.EndPhaseReporting | BallysShreveport/ViewModels/GameViewModel.swift:49-63 | a phase end that leaves a finished match hands its result to the linked app: the app gains the 100-coin reward exactly when the match was won, and is otherwise unchanged; without a link nothing is reported |
| GameViewModels.IsRegionTargeted | BallysShreveport/ViewModels/GameViewModel.swift:189-193 | true exactly when one of the human's targets names the region |
| GameViewModels.PlayerStats | BallysShreveport/ViewModels/GameViewModel.swift:273-283 | the human's standing regions, coins, rockets and income (10 per region); zeros without a human |
| GameViewModels.RegionHasAirDefense | BallysShreveport/ViewModels/GameViewModel.swift:183-187 | false off the board, else the region's defense flag |
| GameViewModels.CountryName | BallysShreveport/ViewModels/GameViewModel.swift:257-260 | "Unknown" off the list |
| GameViewModels.CountryRegionCount | BallysShreveport/ViewModels/GameViewModel.swift:262-265 | 0 off the list, else the standing regions |
| GameViewModels.IsCountryDestroyed | BallysShreveport/ViewModels/GameViewModel.swift:267-270 | true off the list |
| CampaignLevels.OpponentsForLevel | BallysShreveport/Models/CampaignLevel.swift:20-27 | 1 exactly for level 1, 2 exactly for level 2, 3 otherwise |
| CampaignLevels.NewLevel | BallysShreveport/Models/CampaignLevel.swift:15-28 | the id is the level number, with that level's opponent count |
| CampaignLevels.NewLockedLevel | BallysShreveport/Models/CampaignLevel.swift:15 | a level is locked by default, hence not playable |
| CampaignLevels.PlayableIffNotLocked | BallysShreveport/Models/CampaignLevel.swift:30-32 | playable exactly when unlocked or completed |
| Campaigns.CreateLevels | BallysShreveport/Managers/CampaignManager.swift:18-35 | exactly levels 1..15, in order |
| Campaigns.LevelTable | BallysShreveport/Managers/CampaignManager.swift:18-35 | a level is locked exactly above the unlock mark, completed exactly when unlocked and in the completed set |
| Campaigns.NewCampaign | BallysShreveport/Managers/CampaignManager.swift:77-82 | starts on level 1 with the stored progress, unlock mark at least 1 |
| Campaigns.SelectLevel | BallysShreveport/Managers/CampaignManager.swift:37-40 | levels above the unlock mark are ignored |
| Campaigns.CompleteLevel | BallysShreveport/Managers/CampaignManager.swift:42-55 | levels above 15 are ignored; completing the highest unlocked level below 15 unlocks the next, anything else leaves the mark |
| Campaigns.CommandsKeepValid | BallysShreveport/Managers/CampaignManager.swift:37-55 | the unlock mark stays within 1..15 and only grows, by at most one, except by reset |
| Campaigns.CompletingInOrderUnlocks | BallysShreveport/Managers/CampaignManager.swift:42-55 | completing levels 1..k in order unlocks level k + 1 and marks exactly 1..k completed |
| Campaigns.GetOpponentCount | BallysShreveport/Managers/CampaignManager.swift:57-66 | 1 for level 1, 2 for level 2, 3 otherwise, agreeing with the level itself |
| Campaigns.NextLevelAgrees | BallysShreveport/Managers/CampaignManager.swift:68-75 | a next level exists exactly when the current one is below the unlock mark, exactly when one is offered, and it is the current + 1 |
| Campaigns.ResetProgress | BallysShreveport/Managers/CampaignManager.swift:98-103 | only level 1 is unlocked afterwards and nothing is completed |
| Apps.AddCoins | BallysShreveport/ViewModels/AppViewModel.swift:75-78 | coins grow by exactly the amount, nothing else changes |
| Apps.SpendCoins | BallysShreveport/ViewModels/AppViewModel.swift:80-89 | succeeds exactly when the coins cover the amount, leaving them non-negative; otherwise no change |
| Apps.SpendUndoesAdd | BallysShreveport/ViewModels/AppViewModel.swift:75-89 | spending what was just added succeeds and restores the wallet |
| Apps.WalletStaysSolvent | BallysShreveport/ViewModels/AppViewModel.swift:75-89 | no sequence of deposits and spends makes the coins negative |
| Apps.HandleGameCompletion | BallysShreveport/ViewModels/AppViewModel.swift:92-104 | a victory pays 100 coins and, in campaign mode, completes the current level; any other result changes nothing |
| Apps.CampaignVictoryUnlocksNext | BallysShreveport/ViewModels/AppViewModel.swift:92-109 | winning the highest unlocked level unlocks the next one and offers it |
| Apps.NavigateToCampaignGame | BallysShreveport/ViewModels/AppViewModel.swift:58-63 | campaign mode, the level selected if unlocked, and that level's opponent count |
| Apps.GoToNextCampaignLevel | BallysShreveport/ViewModels/AppViewModel.swift:111-114 | moves to the next level with its opponent count when there is one |
| Apps.NextCampaignLevelOffered | BallysShreveport/ViewModels/AppViewModel.swift:107-114 | no next level outside campaign mode; in campaign mode, going on changes the state exactly when a next level exists |
| Achievements.OnlyShopperUnlockable | BallysShreveport/Models/AchievementType.swift:55-62 | only the shopper can be unlocked |
| Achievements.TypesAndTitlesDistinct | BallysShreveport/Models/AchievementType.swift:25-38 | the five kinds are listed once each and have pairwise distinct titles |
| Achievements.NewAchievement | BallysShreveport/Models/AchievementType.swift:71-90 | a new achievement is locked and answers for its kind |
| Achievements.DefaultAchievements | BallysShreveport/Managers/AchievementManager.swift:29-32 | one locked achievement per kind, in order |
| Achievements.LoadAchievements | BallysShreveport/Managers/AchievementManager.swift:14-21 | the stored list when there is one, else the defaults |
| Achievements.Unlock | BallysShreveport/Managers/AchievementManager.swift:35-44 | no change for a kind that cannot be unlocked or is absent; otherwise the first entry of the kind is unlocked |
| Achievements.UnlockFacts | BallysShreveport/Managers/AchievementManager.swift:35-48 | unlocking is idempotent, touches only entries of that kind, and leaves the kind unlocked exactly when it could be |
| Achievements.UnlockedCount | BallysShreveport/Managers/AchievementManager.swift:56-66 | the count equals the length of the unlocked list and is at most the total |
| Achievements.UnlockedAchievements | BallysShreveport/Managers/AchievementManager.swift:64-66 | exactly the unlocked entries |
| Achievements.UnlockedIsOrderedFilter | BallysShreveport/Managers/AchievementManager.swift:64-66 | the unlocked list reads the list at the increasing positions of the unlocked entries, so order and repeats are kept |
| Achievements.ResetAll | BallysShreveport/Managers/AchievementManager.swift:69-74 | every entry is locked, the list keeps its length and kinds |
| Achievements.ResetAndDefaultsCountZero | BallysShreveport/Managers/AchievementManager.swift:69-74 | after a reset, and in the defaults, nothing is unlocked |
| Achievements.FirstPurchaseCountsOne | BallysShreveport/Managers/AchievementManager.swift:51-58 | the first purchase unlocks the shopper, for one unlocked achievement |
| Backgrounds.PriceTable | BallysShreveport/Models/BackgroundType.swift:13-37 | prices 0, 100, 200, 300 by shop position; free exactly for the first |
| Backgrounds.DisplayIndexBijective | BallysShreveport/Models/BackgroundType.swift:30-37 | display indices are a bijection onto 1..4 |
| Backgrounds.NewItem | BallysShreveport/Models/BackgroundType.swift:46-49 | an item is owned from the start exactly when it is free |
| Backgrounds.OnlySelectedDisabled | BallysShreveport/Models/BackgroundType.swift:81-90 | only the selected button is disabled |
| RegionShapes.CountryIndexBijective | BallysShreveport/Models/RegionShape.swift:23-34 | country indices are a bijection onto 0..3; the player controls exactly country 0 |
| RegionShapes.ShapesPartitioned | BallysShreveport/Models/RegionShape.swift:36-47 | five distinct shapes per country, no shape shared by two countries |
| RegionShapes.RegionsByCountryIsFilter | BallysShreveport/Models/RegionShape.swift:80-91 | a country is a key exactly when it has a region, and it maps to its regions in level order |
| RegionShapes.GetRegionsForCountry | BallysShreveport/Models/RegionShape.swift:93-95 | the country's regions in level order, empty for an absent country |

## Left out

- SwiftUI views, layout positions, region geometry, sounds, menus and
  screen navigation are not modelled: they are presentation only.
  `GameViewModel` layout and display helpers (`getRegionPosition`,
  `getRegionShape`, `getRegionOpacity`, `getRegionMenuPosition`,
  `getRoundProgress`, button texts, messages) are left out for the same
  reason.
- Persistence through UserDefaults and JSON is not modelled. The stored
  values are parameters: `Campaigns.NewCampaign` takes the stored unlock
  mark and completed set, and `Achievements.LoadAchievements` takes the
  decoded list or none.
- The pause and resume commands have empty bodies in the engine and are
  not modelled.
- `unlockAllTestAchievements` is a debug alias of unlocking the shopper;
  `Achievements.Unlock` covers it.
- `Game.currentPlayerIndex` is written but never read, so it is not
  modelled.
- `Game` itself always uses the four-country roster. The 1-3 opponent
  rosters (`Countries.CreateCountries`, `Players.CreatePlayers`) are
  modelled standalone, not wired into a match.
- Countries.Country.DestroyRegion, Countries.Country.AddAirDefenseToRegion,
  Countries.Country.ConsumeAirDefense,
  GameActions.PlayerTurnActions.RemoveAttackTarget and
  GameManagers.RemoveAttackTarget take `nat` indices.
  The source's `Int` index is checked only against the upper bound
  (BallysShreveport/Models/Country.swift:33, :38 and :50,
  BallysShreveport/Models/GameAction.swift:58), so a negative index
  passes the guard and traps on the array access. The model cannot be
  given a negative index, so it does not promise anything about that trap.
- GameViewModels.RegionHasAirDefense, GameViewModels.CountryName,
  GameViewModels.CountryRegionCount, GameViewModels.IsCountryDestroyed and
  AI.CreateForPlayer take `nat` indices as well. Their guards compare only
  against the upper bound (BallysShreveport/ViewModels/GameViewModel.swift:184-185,
  :258, :263 and :268), and `createForPlayer` takes `min(index, 3)`
  (BallysShreveport/Models/AISystem.swift:236). A negative index therefore
  traps on the array access instead of getting the default the model
  returns past the end of the list.
- GameManagers.BuyAirDefenseForRegion takes a `nat` region index. With a
  negative index the source first charges the 20 coins and then traps
  inside `addAirDefenseToRegion(at:)`, whose guard passes and whose
  eligibility check indexes the regions
  (BallysShreveport/Models/Country.swift:38-39).
- GameManagers.SelectRegion and GameManagers.BuyRocketForRegion take `nat`
  region indices. The source accepts a negative index without trapping:
  it stores it as the selection, or records a rocket purchase naming it.
  The model cannot express that input.
- In every case above the source's callers pass only a position from the
  board or the player list, which is never negative.
- Swift `Int` overflow is not modelled: integers are unbounded.
- Coin and round counters are far from 2^63 in any real match.
- Games.CollectAttacks: the player order comes from dictionary
  iteration, which Swift does not fix; the model takes any permutation as
  the parameter `order`.
- AI.TargetPriority: the random bonus is a parameter, and the scores are
  integer hundredths instead of `Double`. Rounding can differ from the
  source's floating point.
- Ranking.Sort: the model sorts stably. Swift's `sort` promises no order
  among equal scores, so the source may pick a different one of two
  equally scored candidates.
- GameManagers.EndCurrentPhase: the 1.5-second timer is not modelled. Its
  firing is the event `GameManagers.AnimationFinished`.
- GameManagers.SelectAttackTarget requires the target country index to
  be on the board. The source records any index, and resolution then
  indexes the countries unchecked, which traps.
- GameManagers.IsRegionDestroyed requires an index on the board. The
  source indexes unchecked, which traps.
- GameViewModels.CanInteractWithRegion requires the region to be on the
  board, for the same reason.
- GameViewModels.HandleRegionTap requires every tap that reaches the
  destroyed-region check to name a region on the board, for the same
  reason.
- GameManagers.ExecuteAIPurchases: the source loops over a snapshot of
  the AI players; the model reads the current players. These are the same
  because handling one AI player changes only that player and its own
  country.
- GameManagers.ExecuteAITargeting: same note as for
  `GameManagers.ExecuteAIPurchases`.
- Games.GetGameResult: the final region counts are a sequence by
  position, not a dictionary keyed by position.
- The engine's buy commands have no phase or match-state guard, and the
  model keeps that: a purchase is accepted in any phase.
- `canEndPhase` is true in the economy phase even while a turn is
  processing. This is harmless, because `endCurrentPhase` checks the
  processing flag first.
- `SoundManager`, `LevelManager` and `Navigation` are not part of this
  model.

## Findings

| source | as written | input that shows it | evidently intended | confidence | as-written member | corrected member |
|---|---|---|---|---|---|---|
| BallysShreveport/Managers/GameManager.swift:149-158 | `removeAttackTarget(at:)` returns a rocket to the human even when the index names no target and nothing is removed | a new match (no targets, 0 rockets), `removeAttackTarget(at: 0)`: the human then holds 1 rocket without having paid for it | return a rocket only when a target was removed | not executed | GameManagers.RemoveOutOfRangeMintsRocket | GameManagers.RemoveAttackTargetChecked |
