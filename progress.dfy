/** The progress value of one achievement
    (Sources/AchievementsSystem/AchievementProgress.swift). */
module ProgressValues {

  /** How far an achievement has advanced. `Counted` carries an integer
      count and its threshold, `Progression` a real-valued ratio and its
      threshold. */
  datatype Progress =
    | Locked
    | Unlocked
    | Counted(current: int, threshold: int)
    | Progression(ratio: real, ratioThreshold: real)
  {
    /** Unlocked, or a count or ratio that has reached its threshold. */
    predicate IsUnlocked() {
      match this
      case Unlocked => true
      case Counted(c, t) => c >= t
      case Progression(c, t) => c >= t
      case _ => false
    }

    /** Locked, or a count or ratio still below its threshold. Written
        independently of `IsUnlocked`, as in the source. */
    predicate IsLocked() {
      match this
      case Locked => true
      case Counted(c, t) => c < t
      case Progression(c, t) => c < t
      case _ => false
    }
  }

  /** The truth table of `IsUnlocked`. */
  lemma UnlockedTruthTable(c: int, t: int, x: real, y: real)
    ensures Unlocked.IsUnlocked() && !Locked.IsUnlocked()
    ensures Counted(c, t).IsUnlocked() <==> c >= t
    ensures Progression(x, y).IsUnlocked() <==> x >= y
  {
  }

  /** The truth table of `IsLocked`. */
  lemma LockedTruthTable(c: int, t: int, x: real, y: real)
    ensures Locked.IsLocked() && !Unlocked.IsLocked()
    ensures Counted(c, t).IsLocked() <==> c < t
    ensures Progression(x, y).IsLocked() <==> x < y
  {
  }

  /** With the total orders of `int` and `real` (no NaN), the two
      independently written predicates are exact complements. */
  lemma LockedIsNotUnlocked(p: Progress)
    ensures p.IsLocked() <==> !p.IsUnlocked()
  {
  }

  /** A count that starts from zero is unlocked only for a non-positive
      threshold. */
  lemma CountedFromZero(t: int)
    ensures Counted(0, t).IsUnlocked() <==> t <= 0
  {
  }
}
