/** An achievement: a definition paired with its evaluator
    (Sources/AchievementsSystem/Achievement.swift). */
module Achievements {
  import opened ProgressValues
  import opened Definitions

  /** The evaluator is a total, pure function from the input and the current
      progress to the new progress. */
  datatype Achievement<-I> = Achievement(
    definition: AchievementDefinition,
    updateProgress: (I, Progress) -> Progress)

  /** The definitions of a catalog, in catalog order
      (`achievements.map(\.definition)`). */
  function DefinitionsOf<I>(catalog: seq<Achievement<I>>): seq<AchievementDefinition> {
    seq(|catalog|, k requires 0 <= k < |catalog| => catalog[k].definition)
  }

  /** On this input, the evaluator never moves unlocked progress back to a
      state that is not unlocked. */
  ghost predicate KeepsUnlocked<I>(f: (I, Progress) -> Progress, input: I) {
    forall p: Progress :: p.IsUnlocked() ==> f(input, p).IsUnlocked()
  }

  /** The constructor stores the definition and the evaluator unchanged. */
  lemma AchievementIsItsParts<I>(d: AchievementDefinition, f: (I, Progress) -> Progress, input: I, p: Progress)
    ensures Achievement(d, f).definition == d
    ensures Achievement(d, f).updateProgress(input, p) == f(input, p)
  {
  }

  /** The input of the documented example: how many zombies were killed. */
  datatype ZombieInput = ZombieInput(zombiesKilled: int)

  /** The documented example evaluator: anything but a count is left alone;
      a count unlocks once the kills reach its threshold and otherwise
      becomes the kill count, keeping the threshold. */
  function CountKills(input: ZombieInput, current: Progress): (r: Progress)
    ensures !current.Counted? ==> r == current
    ensures current.Counted? ==> (r.IsUnlocked() <==> input.zombiesKilled >= current.threshold)
    ensures current.Counted? && r.IsUnlocked() ==> r == Unlocked
    ensures current.Counted? && !r.IsUnlocked() ==>
              r == Counted(input.zombiesKilled, current.threshold)
  {
    match current
    case Counted(_, threshold) =>
      if input.zombiesKilled >= threshold then Unlocked
      else Counted(input.zombiesKilled, threshold)
    case _ => current
  }

  /** The example evaluator keeps `Unlocked` unlocked but does not keep
      every unlocked progress unlocked: a count already at its threshold
      falls back when fewer kills are reported. */
  lemma CountKillsCanRelock()
    ensures forall input :: CountKills(input, Unlocked) == Unlocked
    ensures Counted(10, 10).IsUnlocked()
    ensures CountKills(ZombieInput(3), Counted(10, 10)) == Counted(3, 10)
    ensures !Counted(3, 10).IsUnlocked()
    ensures !KeepsUnlocked(CountKills, ZombieInput(3))
  {
    var p := Counted(10, 10);
    assert p.IsUnlocked();
    assert !CountKills(ZombieInput(3), p).IsUnlocked();
  }
}
