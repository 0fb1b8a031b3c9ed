/** The campaign's progress: which levels are unlocked and completed, and
    which one is being played. Persistence is replaced by the fields
    `maxUnlockedLevel` and `completedLevels`. */
module Campaigns {
  import opened Common
  import opened CampaignLevels

  const TotalLevels: int := 15

  datatype Campaign = Campaign(
    levels: seq<CampaignLevel>,
    currentLevel: int,
    maxUnlockedLevel: int,
    completedLevels: set<int>)

  /** The unlocked range lies within the campaign. */
  predicate Valid(c: Campaign)
  {
    1 <= c.maxUnlockedLevel <= TotalLevels && c.levels == CreateLevels(c.maxUnlockedLevel, c.completedLevels)
  }

  /** The status `createLevels` gives level `n`. */
  function StatusOf(n: int, maxUnlocked: int, completed: set<int>): LevelStatus
  {
    if n == 1 && maxUnlocked == 0 then Unlocked
    else if n <= maxUnlocked then (if n in completed then Completed else Unlocked)
    else Locked
  }

  /** `createLevels`: levels 1 to 15 in order; those up to the highest
      unlocked level are playable, completed when recorded as such, and the
      rest locked. */
  function CreateLevels(maxUnlocked: int, completed: set<int>): (ls: seq<CampaignLevel>)
    ensures |ls| == TotalLevels
    ensures forall i :: 0 <= i < |ls| ==> ls[i] == NewLevel(i + 1, StatusOf(i + 1, maxUnlocked, completed))
  {
    seq(TotalLevels, i requires 0 <= i < TotalLevels => NewLevel(i + 1, StatusOf(i + 1, maxUnlocked, completed)))
  }

  /** The level table, read as the player sees it: with at least one level
      unlocked, a level is locked exactly above the highest unlocked level,
      and completed exactly when it is unlocked and recorded as completed. */
  lemma LevelTable(maxUnlocked: int, completed: set<int>, i: nat)
    requires maxUnlocked >= 1 && i < TotalLevels
    ensures var l := CreateLevels(maxUnlocked, completed)[i];
            && l.levelNumber == i + 1
            && (l.status == Locked <==> i + 1 > maxUnlocked)
            && (l.status == Completed <==> i + 1 <= maxUnlocked && i + 1 in completed)
            && (l.IsPlayable() <==> i + 1 <= maxUnlocked)
  {
  }

  /** `init`: the stored highest unlocked level, at least 1. */
  function NewCampaign(storedMaxUnlocked: int, storedCompleted: set<int>): (c: Campaign)
    ensures c.currentLevel == 1 && c.completedLevels == storedCompleted
    ensures c.maxUnlockedLevel == Max(1, storedMaxUnlocked)
    ensures storedMaxUnlocked <= TotalLevels ==> Valid(c)
  {
    var m := Max(1, storedMaxUnlocked);
    Campaign(CreateLevels(m, storedCompleted), 1, m, storedCompleted)
  }

  /** `selectLevel`: only a level up to the highest unlocked one can be
      chosen. */
  function SelectLevel(c: Campaign, levelNumber: int): (r: Campaign)
    ensures levelNumber > c.maxUnlockedLevel ==> r == c
    ensures levelNumber <= c.maxUnlockedLevel ==> r == c.(currentLevel := levelNumber)
  {
    if levelNumber > c.maxUnlockedLevel then c else c.(currentLevel := levelNumber)
  }

  /** `completeLevel`: a number past the campaign is ignored; otherwise the
      level is recorded as completed, and completing the highest unlocked
      level unlocks the one after it, if any. */
  function CompleteLevel(c: Campaign, levelNumber: int): (r: Campaign)
    ensures levelNumber > TotalLevels ==> r == c
    ensures levelNumber <= TotalLevels ==>
              && r.completedLevels == c.completedLevels + {levelNumber}
              && r.currentLevel == c.currentLevel
              && r.maxUnlockedLevel == (if levelNumber == c.maxUnlockedLevel && levelNumber < TotalLevels then levelNumber + 1 else c.maxUnlockedLevel)
              && r.levels == CreateLevels(r.maxUnlockedLevel, r.completedLevels)
  {
    if levelNumber > TotalLevels then c
    else
      var completed := c.completedLevels + {levelNumber};
      var maxUnlocked := if levelNumber == c.maxUnlockedLevel && levelNumber < TotalLevels then levelNumber + 1 else c.maxUnlockedLevel;
      Campaign(CreateLevels(maxUnlocked, completed), c.currentLevel, maxUnlocked, completed)
  }

  /** `getOpponentCount`: the opposition of the level's table entry. */
  function GetOpponentCount(levelNumber: int): (n: int)
    ensures n == NewLockedLevel(levelNumber).opponentCount
    ensures levelNumber == 1 ==> n == 1
    ensures levelNumber == 2 ==> n == 2
    ensures levelNumber != 1 && levelNumber != 2 ==> n == 3
  {
    match levelNumber
    case 1 => 1
    case 2 => 2
    case _ => 3
  }

  /** `hasNextLevel`: its second disjunct adds nothing to the first. */
  predicate HasNextLevel(c: Campaign)
  {
    c.currentLevel < c.maxUnlockedLevel || (c.currentLevel < TotalLevels && c.maxUnlockedLevel > c.currentLevel)
  }

  /** `getNextLevel`. */
  function GetNextLevel(c: Campaign): (r: Option<int>)
    ensures r.Some? ==> r.value == c.currentLevel + 1 <= c.maxUnlockedLevel
  {
    var next := c.currentLevel + 1;
    if next <= c.maxUnlockedLevel then Some(next) else None
  }

  /** There is a next level exactly when the current one lies below the
      highest unlocked level, and exactly when `getNextLevel` offers one,
      which can then be selected. */
  lemma NextLevelAgrees(c: Campaign)
    ensures HasNextLevel(c) <==> c.currentLevel < c.maxUnlockedLevel
    ensures HasNextLevel(c) <==> GetNextLevel(c).Some?
    ensures HasNextLevel(c) ==> SelectLevel(c, GetNextLevel(c).value).currentLevel == c.currentLevel + 1
  {
  }

  /** `resetProgress`: back to level 1 unlocked and nothing completed; the
      level being played is kept. */
  function ResetProgress(c: Campaign): (r: Campaign)
    ensures Valid(r) && r.maxUnlockedLevel == 1 && r.completedLevels == {}
    ensures r.currentLevel == c.currentLevel
    ensures r.levels[0].IsPlayable() && r.levels[0].status == Unlocked
    ensures forall i :: 1 <= i < |r.levels| ==> r.levels[i].status == Locked
  {
    Campaign(CreateLevels(1, {}), c.currentLevel, 1, {})
  }

  /** Every command keeps the unlocked range within the campaign, and only
      a reset lowers it. */
  lemma CommandsKeepValid(c: Campaign, levelNumber: int)
    requires Valid(c)
    ensures Valid(SelectLevel(c, levelNumber)) && Valid(CompleteLevel(c, levelNumber)) && Valid(ResetProgress(c))
    ensures SelectLevel(c, levelNumber).maxUnlockedLevel == c.maxUnlockedLevel
    ensures c.maxUnlockedLevel <= CompleteLevel(c, levelNumber).maxUnlockedLevel <= c.maxUnlockedLevel + 1
  {
  }

  /** Completing the campaign level by level, from a fresh start, unlocks
      one more level per completion. */
  lemma {:induction false} CompletingInOrderUnlocks(k: nat)
    requires k < TotalLevels
    ensures var c := CompleteUpTo(k);
            && Valid(c) && c.maxUnlockedLevel == k + 1
            && forall n :: n in c.completedLevels <==> 1 <= n <= k
  {
    if k > 0 {
      CompletingInOrderUnlocks(k - 1);
      var prev := CompleteUpTo(k - 1);
      assert CompleteUpTo(k) == CompleteLevel(prev, k);
    }
  }

  /** A fresh campaign with levels 1 to `k` completed in order. */
  function CompleteUpTo(k: nat): Campaign
    requires k < TotalLevels
  {
    if k == 0 then NewCampaign(1, {}) else CompleteLevel(CompleteUpTo(k - 1), k)
  }
}
