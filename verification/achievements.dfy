/** Achievements: five kinds, of which only the shopper can be earned, and
    the list the player's progress is kept in. Persistence is replaced by
    the list itself; identifiers are dropped. */
module Achievements {
  import opened Common

  datatype AchievementType = Shopper | Collector | CampaignMaster | LoyalCommander | TacticalDuo
  {
    function Title(): string {
      match this
      case Shopper => "SHOPPER"
      case Collector => "COLLECTOR"
      case CampaignMaster => "CAMPAIGN MASTER"
      case LoyalCommander => "LOYAL COMMANDER"
      case TacticalDuo => "TACTICAL"
    }

    /** `canBeUnlocked`: the other kinds have no way to be earned yet. */
    predicate CanBeUnlocked() {
      match this
      case Shopper => true
      case Collector => false
      case CampaignMaster => false
      case LoyalCommander => false
      case TacticalDuo => false
    }
  }

  /** `allCases`, in declaration order. */
  const AllTypes: seq<AchievementType> := [Shopper, Collector, CampaignMaster, LoyalCommander, TacticalDuo]

  /** Only the shopper can be unlocked. */
  lemma OnlyShopperUnlockable(t: AchievementType)
    ensures t.CanBeUnlocked() <==> t == Shopper
  {
  }

  /** The list of kinds is complete and repeats none, and no two kinds share
      a title. */
  lemma TypesAndTitlesDistinct()
    ensures forall t: AchievementType :: t in AllTypes
    ensures forall i, j :: 0 <= i < j < |AllTypes| ==> AllTypes[i] != AllTypes[j]
    ensures forall s, t: AchievementType :: s != t ==> s.Title() != t.Title()
  {
    forall t: AchievementType ensures t in AllTypes {
      match t
      case Shopper => assert AllTypes[0] == t;
      case Collector => assert AllTypes[1] == t;
      case CampaignMaster => assert AllTypes[2] == t;
      case LoyalCommander => assert AllTypes[3] == t;
      case TacticalDuo => assert AllTypes[4] == t;
    }
    forall s: AchievementType, t: AchievementType | s != t ensures s.Title() != t.Title() {
      assert TitleKey(s) != TitleKey(t);
    }
  }

  /** The length and first letter of a title, which already tell the
      titles apart. */
  function TitleKey(t: AchievementType): (k: (int, char))
    ensures k == (|t.Title()|, t.Title()[0])
  {
    match t
    case Shopper => (7, 'S')
    case Collector => (9, 'C')
    case CampaignMaster => (15, 'C')
    case LoyalCommander => (15, 'L')
    case TacticalDuo => (8, 'T')
  }

  datatype Achievement = Achievement(kind: AchievementType, isUnlocked: bool)
  {
    function Title(): string { kind.Title() }

    predicate CanBeUnlocked() { kind.CanBeUnlocked() }
  }

  /** `Achievement(type:)`: starts locked. */
  function NewAchievement(t: AchievementType): (a: Achievement)
    ensures a.kind == t && !a.isUnlocked
    ensures a.CanBeUnlocked() <==> t.CanBeUnlocked()
    ensures a.Title() == t.Title()
  {
    Achievement(t, false)
  }

  /** `createDefaultAchievements`: one locked entry per kind. */
  function DefaultAchievements(): (r: seq<Achievement>)
    ensures |r| == |AllTypes|
    ensures forall i :: 0 <= i < |r| ==> r[i] == NewAchievement(AllTypes[i])
  {
    seq(|AllTypes|, i requires 0 <= i < |AllTypes| => NewAchievement(AllTypes[i]))
  }

  /** `loadAchievements`: the stored list, or the defaults without one. */
  function LoadAchievements(stored: Option<seq<Achievement>>): (r: seq<Achievement>)
    ensures stored.Some? ==> r == stored.value
    ensures stored.None? ==> r == DefaultAchievements()
  {
    if stored.Some? then stored.value else DefaultAchievements()
  }

  /** `firstIndex(where:)` on the kind. */
  function FirstIndexOfType(achs: seq<Achievement>, t: AchievementType): (r: Option<nat>)
    ensures r.Some? <==> exists i :: 0 <= i < |achs| && achs[i].kind == t
    ensures r.Some? ==> r.value < |achs| && achs[r.value].kind == t
    ensures r.Some? ==> forall i :: 0 <= i < r.value ==> achs[i].kind != t
    decreases |achs|
  {
    if |achs| == 0 then None
    else if achs[0].kind == t then Some(0)
    else match FirstIndexOfType(achs[1..], t)
      case None => None
      case Some(i) => Some(i + 1)
  }

  /** `unlockAchievement`: unlocks the first entry of the kind, when the kind
      can be earned and the entry is still locked. */
  function Unlock(achs: seq<Achievement>, t: AchievementType): (r: seq<Achievement>)
    ensures |r| == |achs|
    ensures !t.CanBeUnlocked() ==> r == achs
    ensures FirstIndexOfType(achs, t).None? ==> r == achs
    ensures FirstIndexOfType(achs, t).Some? && t.CanBeUnlocked() ==>
              r == achs[FirstIndexOfType(achs, t).value := Achievement(t, true)]
  {
    match FirstIndexOfType(achs, t)
    case None => achs
    case Some(i) =>
      if !achs[i].CanBeUnlocked() || achs[i].isUnlocked then achs
      else achs[i := achs[i].(isUnlocked := true)]
  }

  /** `isAchievementUnlocked`: the first entry of the kind, if any. */
  predicate IsUnlocked(achs: seq<Achievement>, t: AchievementType)
  {
    match FirstIndexOfType(achs, t)
    case None => false
    case Some(i) => achs[i].isUnlocked
  }

  /** Unlocking is idempotent, touches only the first entry of the kind,
      and afterwards the kind reads as unlocked whenever it can be earned
      and is present. */
  lemma UnlockFacts(achs: seq<Achievement>, t: AchievementType)
    ensures Unlock(Unlock(achs, t), t) == Unlock(achs, t)
    ensures forall i :: 0 <= i < |achs| && achs[i].kind != t ==> Unlock(achs, t)[i] == achs[i]
    ensures IsUnlocked(Unlock(achs, t), t) <==> IsUnlocked(achs, t) || (t.CanBeUnlocked() && FirstIndexOfType(achs, t).Some?)
  {
    var r := Unlock(achs, t);
    assert forall i :: 0 <= i < |achs| ==> r[i].kind == achs[i].kind;
    assert FirstIndexOfType(r, t) == FirstIndexOfType(achs, t) by {
      FirstIndexOfSameKinds(achs, r, t);
    }
  }

  /** The first index of a kind depends only on the kinds. */
  lemma {:induction false} FirstIndexOfSameKinds(a: seq<Achievement>, b: seq<Achievement>, t: AchievementType)
    requires |a| == |b| && forall i :: 0 <= i < |a| ==> a[i].kind == b[i].kind
    ensures FirstIndexOfType(a, t) == FirstIndexOfType(b, t)
    decreases |a|
  {
    if |a| > 0 && a[0].kind != t {
      FirstIndexOfSameKinds(a[1..], b[1..], t);
    }
  }

  /** `unlockedAchievements`: the unlocked entries, in order. */
  function UnlockedAchievements(achs: seq<Achievement>): (r: seq<Achievement>)
    ensures |r| <= |achs|
    ensures forall a :: a in r <==> a in achs && a.isUnlocked
    decreases |achs|
  {
    if |achs| == 0 then []
    else (if achs[0].isUnlocked then [achs[0]] else []) + UnlockedAchievements(achs[1..])
  }

  predicate Earned(a: Achievement)
  {
    a.isUnlocked
  }

  /** The unlocked entries of two lists joined are those of each, joined. */
  lemma {:induction false} UnlockedAppend(a: seq<Achievement>, b: seq<Achievement>)
    ensures UnlockedAchievements(a + b) == UnlockedAchievements(a) + UnlockedAchievements(b)
    decreases |a|
  {
    if |a| > 0 {
      assert (a + b)[1..] == a[1..] + b;
      UnlockedAppend(a[1..], b);
    } else {
      assert a + b == b;
    }
  }

  /** `unlockedAchievements` is the order-preserving filter: it reads, in
      increasing order, exactly the positions holding an unlocked entry,
      so it neither merges nor reorders entries. */
  lemma {:induction false} UnlockedIsOrderedFilter(achs: seq<Achievement>)
    ensures ReadsAt(achs, Positions(achs, Earned), UnlockedAchievements(achs))
    decreases |achs|
  {
    if |achs| > 0 {
      var n := |achs| - 1;
      UnlockedIsOrderedFilter(achs[..n]);
      assert achs == achs[..n] + [achs[n]];
      UnlockedAppend(achs[..n], [achs[n]]);
      assert UnlockedAchievements([achs[n]]) == (if Earned(achs[n]) then [achs[n]] else []);
      ReadsAtSnoc(achs, Earned, UnlockedAchievements(achs[..n]));
    }
  }

  /** `unlockedCount`: the number of unlocked entries. */
  function UnlockedCount(achs: seq<Achievement>): (n: nat)
    ensures n == |UnlockedAchievements(achs)| <= |achs|
  {
    |UnlockedAchievements(achs)|
  }

  /** `resetAllAchievements`: every entry locked, the list otherwise kept. */
  function ResetAll(achs: seq<Achievement>): (r: seq<Achievement>)
    ensures |r| == |achs|
    ensures forall i :: 0 <= i < |r| ==> r[i] == achs[i].(isUnlocked := false)
  {
    seq(|achs|, i requires 0 <= i < |achs| => achs[i].(isUnlocked := false))
  }

  /** A list with no unlocked entry counts none. */
  lemma {:induction false} NoneUnlockedCountsZero(achs: seq<Achievement>)
    requires forall i :: 0 <= i < |achs| ==> !achs[i].isUnlocked
    ensures UnlockedCount(achs) == 0
    decreases |achs|
  {
    if |achs| > 0 {
      NoneUnlockedCountsZero(achs[1..]);
    }
  }

  /** After a reset nothing is unlocked, and a fresh list has nothing
      unlocked either. */
  lemma ResetAndDefaultsCountZero(achs: seq<Achievement>)
    ensures UnlockedCount(ResetAll(achs)) == 0
    ensures UnlockedCount(DefaultAchievements()) == 0
  {
    NoneUnlockedCountsZero(ResetAll(achs));
    NoneUnlockedCountsZero(DefaultAchievements());
  }

  /** Earning the shopper in a fresh list counts exactly one. */
  lemma FirstPurchaseCountsOne()
    ensures IsUnlocked(Unlock(DefaultAchievements(), Shopper), Shopper)
    ensures UnlockedCount(Unlock(DefaultAchievements(), Shopper)) == 1
  {
    var d := DefaultAchievements();
    var u := Unlock(d, Shopper);
    assert FirstIndexOfType(d, Shopper) == Some(0);
    assert u[0].isUnlocked;
    NoneUnlockedCountsZero(u[1..]);
    assert UnlockedAchievements(u) == [u[0]] + UnlockedAchievements(u[1..]);
  }
}
