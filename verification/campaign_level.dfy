/** One level of the campaign: its number, its lock status and the size of
    the opposition it is played against. */
module CampaignLevels {

  datatype LevelStatus = Locked | Unlocked | Completed

  /** The level number doubles as the identifier. */
  datatype CampaignLevel = CampaignLevel(id: int, levelNumber: int, status: LevelStatus, opponentCount: int)
  {
    /** `isPlayable`: unlocked or already completed. */
    predicate IsPlayable() {
      status == Unlocked || status == Completed
    }
  }

  /** The opposition grows with the level: one opponent on level 1, two on
      level 2, the full three from level 3 on (and for any other number). */
  function OpponentsForLevel(levelNumber: int): (n: int)
    ensures 1 <= n <= 3
    ensures n == 1 <==> levelNumber == 1
    ensures n == 2 <==> levelNumber == 2
  {
    if levelNumber == 1 then 1 else if levelNumber == 2 then 2 else 3
  }

  /** `CampaignLevel(levelNumber:status:)`. */
  function NewLevel(levelNumber: int, status: LevelStatus): (l: CampaignLevel)
    ensures l.id == l.levelNumber == levelNumber && l.status == status
    ensures l.opponentCount == OpponentsForLevel(levelNumber)
  {
    CampaignLevel(levelNumber, levelNumber, status, OpponentsForLevel(levelNumber))
  }

  /** `CampaignLevel(levelNumber:)`: the status defaults to locked. */
  function NewLockedLevel(levelNumber: int): (l: CampaignLevel)
    ensures l == NewLevel(levelNumber, Locked) && !l.IsPlayable()
  {
    NewLevel(levelNumber, Locked)
  }

  /** Only a locked level is unplayable. */
  lemma PlayableIffNotLocked(l: CampaignLevel)
    ensures l.IsPlayable() <==> l.status != Locked
  {
  }
}
