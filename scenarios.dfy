/** The repository's test scenarios, driven through the engine
    (Tests/AchievementsSystemTests/AchievementsSystemTests.swift). */
module Scenarios {
  import opened Identifiers
  import opened ProgressValues
  import opened Definitions
  import opened Achievements
  import opened Engine
  import Types = AchievementTypes

  const KillAtLeastOneZombie := AchievementID("killAtLeastOneZombie")
  const Kill10Zombies := AchievementID("kill10Zombies")
  const KillHalfOf10Zombies := AchievementID("killHalfOf10Zombies")

  /** The immediate achievement's evaluator: unlocked as soon as any
      zombie was killed, locked otherwise. */
  function AnyKill(input: ZombieInput, current: Progress): (r: Progress)
    ensures r.IsUnlocked() <==> input.zombiesKilled > 0
    ensures r.IsLocked() <==> !r.IsUnlocked()
  {
    if input.zombiesKilled > 0 then Unlocked else Locked
  }

  /** The progression achievement's evaluator: the kill ratio out of ten,
      unlocked once it reaches the threshold. */
  function KillRatio(input: ZombieInput, current: Progress): (r: Progress)
    ensures !current.Progression? ==> r == current
    ensures current.Progression? ==>
              (r.IsUnlocked() <==> input.zombiesKilled as real / 10.0 >= current.ratioThreshold)
    ensures current.Progression? && r.IsUnlocked() ==> r == Unlocked
    ensures current.Progression? && !r.IsUnlocked() ==>
              r == Progression(input.zombiesKilled as real / 10.0, current.ratioThreshold)
  {
    match current
    case Progression(_, threshold) =>
      var ratio := input.zombiesKilled as real / 10.0;
      if ratio >= threshold then Unlocked else Progression(ratio, threshold)
    case _ => current
  }

  /** An immediate achievement is locked at first and unlocked after an
      input with two kills, which reports it as the only new unlock. */
  method ImmediateScenario() returns (lockedAtStart: bool, unlockedAfter: bool, delta: seq<AchievementID>)
    ensures lockedAtStart && unlockedAfter
    ensures delta == [KillAtLeastOneZombie]
  {
    var achievement := Achievement(
      AchievementDefinition(KillAtLeastOneZombie, "Instant Slayer", "Kill at least one zombie.", Types.Immediate, 10),
      AnyKill);
    var system := new AchievementsSystem([achievement]);
    assert system.state.progressByID == map[KillAtLeastOneZombie := Locked];
    var progress := system.CurrentProgress();
    lockedAtStart := KillAtLeastOneZombie in progress && !progress[KillAtLeastOneZombie].IsUnlocked();
    delta := system.UpdateProgress(ZombieInput(2));
    SingletonList(delta, KillAtLeastOneZombie);
    progress := system.CurrentProgress();
    unlockedAfter := KillAtLeastOneZombie in progress && progress[KillAtLeastOneZombie].IsUnlocked();
  }

  /** A `.counted(10)` achievement driven with 0, 1, ..., 10 kills is not
      unlocked before any of the eleven updates, is unlocked after the last,
      and the last update reports it as the only new unlock. */
  method CountedScenario() returns (lockedBeforeEach: bool, unlockedAtEnd: bool, lastDelta: seq<AchievementID>)
    ensures lockedBeforeEach && unlockedAtEnd
    ensures lastDelta == [Kill10Zombies]
  {
    var achievement := Achievement(
      AchievementDefinition(Kill10Zombies, "Zombie Slayer", "Kill 10 zombies.", Types.Counted(10), 100),
      CountKills);
    var system := new AchievementsSystem([achievement]);
    assert system.state.progressByID == map[Kill10Zombies := Counted(0, 10)];
    lockedBeforeEach, lastDelta := true, [];
    for i := 0 to 11
      invariant system.achievements == [achievement]
      invariant lockedBeforeEach
      invariant i <= 10 ==> system.state.progressByID == map[Kill10Zombies := Counted(if i == 0 then 0 else i - 1, 10)]
      invariant i == 11 ==> system.state.progressByID == map[Kill10Zombies := Unlocked] && lastDelta == [Kill10Zombies]
    {
      var progress := system.CurrentProgress();
      lockedBeforeEach := lockedBeforeEach && Kill10Zombies in progress && !progress[Kill10Zombies].IsUnlocked();
      lastDelta := system.UpdateProgress(ZombieInput(i));
      if i == 10 {
        SingletonList(lastDelta, Kill10Zombies);
      }
    }
    var progress := system.CurrentProgress();
    unlockedAtEnd := Kill10Zombies in progress && progress[Kill10Zombies].IsUnlocked();
  }

  /** A `.progression(0.5)` achievement driven with 0, 1, ..., 10 kills is
      not unlocked after each of the first five updates and unlocked after
      each later one. */
  method ProgressionScenario() returns (matchesEachStep: bool)
    ensures matchesEachStep
  {
    var achievement := Achievement(
      AchievementDefinition(KillHalfOf10Zombies, "Halfway Zombie Slayer", "Kill half of 10 zombies.",
                            Types.Progression(0.5), 50),
      KillRatio);
    var system := new AchievementsSystem([achievement]);
    assert system.state.progressByID == map[KillHalfOf10Zombies := Progression(0.0, 0.5)];
    matchesEachStep := true;
    for i := 0 to 11
      invariant system.achievements == [achievement]
      invariant matchesEachStep
      invariant system.state.progressByID ==
                  map[KillHalfOf10Zombies :=
                        if i <= 5 then Progression(if i == 0 then 0.0 else (i - 1) as real / 10.0, 0.5)
                        else Unlocked]
    {
      var _ := system.UpdateProgress(ZombieInput(i));
      var progress := system.CurrentProgress();
      var unlocked := KillHalfOf10Zombies in progress && progress[KillHalfOf10Zombies].IsUnlocked();
      matchesEachStep := matchesEachStep && (if i < 5 then !unlocked else unlocked);
    }
  }
}
