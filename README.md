# AchievementsSystem progress engine, modelled in Dafny

This project models the progress-update engine of the Swift package
AchievementsSystem and proves properties of the model.

An application gives the engine a fixed catalog of achievements. Each
achievement is a definition (identifier, title, description, type, points)
paired with an evaluator `(input, current progress) -> new progress`. The
engine keeps one `AchievementsState`, a dictionary from achievement
identifier to progress. On every input, `updateProgress` does four things:

1. It evaluates each catalog entry against the baseline state.
2. It writes the results into a copy of that state.
3. It commits the copy.
4. It returns the identifiers that are unlocked after the update and were
   not unlocked before it.

Modules, one per source file:

- `Identifiers` (`identifiers.dfy`): `AchievementID`, a string wrapper.
- `ProgressValues` (`progress.dfy`): `Progress`, with the two
  independently written predicates `IsUnlocked` and `IsLocked`.
- `AchievementTypes` (`achievement_type.dfy`): `AchievementType` and its
  hand-written keyed coder.
  - A keyed container is a `map<string, Value>`.
  - Decoding failures are a `Result` carrying a `DecodingError`.
- `Definitions` (`definition.dfy`): the immutable `AchievementDefinition`
  record.
- `Achievements` (`achievement.dfy`): `Achievement<I>`, whose evaluator is
  a total Dafny function value. This module also holds the documented
  example evaluator `CountKills`.
- `StateContainer` (`state.dfy`): `AchievementsState` and `init(for:)`,
  `applying(_:)` and `progress(for:)`.
  - `applying` is a method with the source's loop over the receiver's keys.
  - It is proved equal to the function `Applied`, which the idempotence
    lemmas are about.
- `Engine` (`engine.dfy`): the class `AchievementsSystem<I>`.
  - It has a constant catalog and one mutable `state` field.
  - `UpdateProgress` keeps the source's loop over the catalog.
  - That loop is proved against `EvaluatedPrefix`, a fold over the catalog
    that always reads the baseline value.
- `Scenarios` (`scenarios.dfy`): the three test scenarios of the
  repository, each driven through the class.

Modelling choices:

- Swift `Double` is `real`, so there is no NaN.
- Swift `Int` is `int`, because the core does no arithmetic on it.
- The source names the fields of both `.counted` and `.progression`
  `current` and `threshold`. Dafny does not allow two constructors to share
  a field name at different types. So the progression fields are called
  `ratio` and `ratioThreshold`, and the `type` field of a definition is
  called `achievementType`.
- The order in which dictionaries and sets are iterated is left open. Lists
  returned by the engine are sequences without duplicates, and no order is
  claimed.

Preconditions and predicates, as the code has them:

- `init(for:)` builds its dictionary with `Dictionary(uniqueKeysWithValues:)`,
  which traps on a repeated identifier
  (Sources/AchievementsSystem/AchievementsState.swift:24).
  - So `InitialState` and the class constructor require distinct
    identifiers (`DistinctIDs`).
  - The engine can reach `reset()` only after a successful construction, so
    `Reset` requires the same thing (`Valid`).
- `isLocked` and `isUnlocked` are written independently. With the total
  orders of `int` and `real` they are complements for every variant
  (`LockedIsNotUnlocked`). Only IEEE NaN, which the model leaves out, would
  break this.

## Model

| member | source | states |
|---|---|---|
| `Identifiers.IdentityIsItsString` | Sources/AchievementsSystem/AchievementID.swift:10-24 | the initialiser stores its string; `id` and `description` return it; two IDs are equal iff their strings are |
| `ProgressValues.UnlockedTruthTable` | Sources/AchievementsSystem/AchievementProgress.swift:40-51 | `.unlocked` is unlocked and `.locked` is not; a count or ratio is unlocked iff `current >= threshold` |
| `ProgressValues.LockedTruthTable` | Sources/AchievementsSystem/AchievementProgress.swift:59-70 | `.locked` is locked and `.unlocked` is not; a count or ratio is locked iff `current < threshold` |
| `ProgressValues.LockedIsNotUnlocked` | Sources/AchievementsSystem/AchievementProgress.swift:40-70 | under total orders, `isLocked == !isUnlocked` for every variant |
| `ProgressValues.CountedFromZero` | Sources/AchievementsSystem/AchievementProgress.swift:44-45 | `.counted(0, t)` is unlocked iff `t <= 0` |
| `AchievementTypes.Decode` | Sources/AchievementsSystem/AchievementType.swift:43-62 | a successful decode found a text `type` equal to the result's tag; for a count it found `thresholdInt`, for a progression `thresholdDouble`, each holding the decoded threshold |
| `AchievementTypes.Encode` | Sources/AchievementsSystem/AchievementType.swift:64-76 | always writes `type` with one of the three tags; `.immediate` writes only `type`, `.counted` also `thresholdInt` and `.progression` also `thresholdDouble`, each holding the threshold; decoding the container gives back the input |
| `AchievementTypes.DecodeBadTag` | Sources/AchievementsSystem/AchievementType.swift:44-60 | a missing `type` fails with key-not-found, a null one with value-not-found, another non-text one with type-mismatch, and an unrecognised tag with data-corrupted on key `type` and the message `Unknown AchievementType type: <tag>` |
| `AchievementTypes.DecodeMissingThreshold` | Sources/AchievementsSystem/AchievementType.swift:49-54 | `counted` without `thresholdInt`, or `progression` without `thresholdDouble`, fails with key-not-found on that key; a null threshold fails with value-not-found |
| `AchievementTypes.DecodeIgnoresOtherKeys` | Sources/AchievementsSystem/AchievementType.swift:45-54 | overwriting any key other than `type` and the tag's own threshold key leaves the decoding outcome unchanged |
| `Definitions.DefinitionIsItsFields` | Sources/AchievementsSystem/AchievementDefinition.swift:9-33 | the initialiser stores all five fields unchanged; equality is structural over the five fields |
| `Achievements.AchievementIsItsParts` | Sources/AchievementsSystem/Achievement.swift:61-67 | the initialiser stores the definition unchanged and `updateProgress` is exactly the supplied closure |
| `Achievements.CountKills` | Sources/AchievementsSystem/Achievement.swift:25-34 | anything but a count is returned unchanged; from a count, the result is unlocked iff the kills reach the threshold; an unlocked result is `.unlocked`, otherwise it is `.counted(kills, threshold)` with the threshold kept |
| `Achievements.CountKillsCanRelock` | Sources/AchievementsSystem/Achievement.swift:26-33 | the example evaluator keeps `.unlocked`; `.counted(10, 10)` is unlocked, yet an input of three kills turns it into the locked `.counted(3, 10)`, so the evaluator does not keep every unlocked progress unlocked |
| `StateContainer.InitialState` | Sources/AchievementsSystem/AchievementsState.swift:23-37 | given distinct identifiers, the key set is exactly the set of definition IDs, and each definition's ID holds the default progress of its type |
| `StateContainer.InitialProgressByType` | Sources/AchievementsSystem/AchievementsState.swift:27-34 | `.immediate` starts `.locked`, `.counted(t)` starts `.counted(0, t)` and `.progression(t)` starts `.progression(0.0, t)` |
| `StateContainer.DefaultProgressUnlocked` | Sources/AchievementsSystem/AchievementsState.swift:27-34 | a default progress is unlocked iff it is a count or ratio whose threshold is at most zero |
| `StateContainer.Applying` | Sources/AchievementsSystem/AchievementsState.swift:49-57 | the key set is the receiver's; for a key in both states the other state's value is taken; a key only in the receiver keeps its value; keys only in the other state are ignored; equals `Applied` |
| `StateContainer.AppliedToItself` | Sources/AchievementsSystem/AchievementsState.swift:49-57 | `s.applying(s) == s` |
| `StateContainer.AppliedTwice` | Sources/AchievementsSystem/AchievementsState.swift:49-57 | `s.applying(t).applying(t) == s.applying(t)` |
| `StateContainer.ProgressFor` | Sources/AchievementsSystem/AchievementsState.swift:65-71 | requires the identifier to be present (otherwise `fatalError`) and returns the progress stored under it |
| `Engine.EvaluatedPrefix` | Sources/AchievementsSystem/AchievementsSystem.swift:34-41 | evaluating any prefix of the catalog keeps the baseline's key set exactly: no key is added or removed, so an entry whose ID the baseline lacks adds no key |
| `Engine.UntouchedKeepsBaseline` | Sources/AchievementsSystem/AchievementsSystem.swift:35-41 | an ID without a catalog entry keeps its baseline value |
| `Engine.LastEntryWins` | Sources/AchievementsSystem/AchievementsSystem.swift:35-41 | with several entries for one ID, the last one in catalog order wins, and its evaluator is applied to the baseline value |
| `Engine.SingleEntryEvaluatesBaseline` | Sources/AchievementsSystem/AchievementsSystem.swift:36-40 | for an ID held by exactly one entry, the new value is `update(input, oldValue)` |
| `Engine.EvaluatedValueOrigin` | Sources/AchievementsSystem/AchievementsSystem.swift:36-40 | every new value is either the baseline value or some entry's evaluator applied to the baseline value |
| `Engine.MonotoneEvaluatorsKeepUnlocks` | Sources/AchievementsSystem/AchievementsSystem.swift:39-49 | if every evaluator keeps unlocked progress unlocked, the unlocked set never shrinks |
| `Engine.DeltaIsLockedToUnlocked` | Sources/AchievementsSystem/AchievementsSystem.swift:42-48 | an ID is in "unlocked after minus unlocked before" iff the baseline held it locked and it is now unlocked; every such ID has a catalog entry |
| `Engine.ListOf` | Sources/AchievementsSystem/AchievementsSystem.swift:48-50 | the list has no duplicates and holds exactly the elements of the set |
| `Engine.AchievementsSystem.constructor` | Sources/AchievementsSystem/AchievementsSystem.swift:22-25 | stores the catalog; `state` is the initial state of the catalog's definitions in catalog order |
| `Engine.AchievementsSystem.UpdateProgress` | Sources/AchievementsSystem/AchievementsSystem.swift:33-51 | the new state is the catalog evaluated against the old state, with the same key set; the result has no duplicates and holds exactly the IDs unlocked after and not before; with monotone evaluators no unlock is lost; an unchanged state gives an empty result |
| `Engine.AchievementsSystem.CurrentProgress` | Sources/AchievementsSystem/AchievementsSystem.swift:57-59 | returns the progress dictionary and changes nothing |
| `Engine.AchievementsSystem.UnlockedAchievements` | Sources/AchievementsSystem/AchievementsSystem.swift:65-69 | returns, each once, exactly the keys whose progress is unlocked, and changes nothing |
| `Engine.AchievementsSystem.CurrentState` | Sources/AchievementsSystem/AchievementsSystem.swift:75-77 | returns the state and changes nothing |
| `Engine.AchievementsSystem.LoadState` | Sources/AchievementsSystem/AchievementsSystem.swift:83-85 | the state becomes exactly the argument |
| `Engine.AchievementsSystem.Reset` | Sources/AchievementsSystem/AchievementsSystem.swift:88-90 | the state becomes the construction-time state, whatever updates or loads came before |
| `Scenarios.AnyKill` | Tests/AchievementsSystemTests/AchievementsSystemTests.swift:23-29 | the immediate evaluator's result is unlocked iff some zombie was killed, and locked otherwise |
| `Scenarios.KillRatio` | Tests/AchievementsSystemTests/AchievementsSystemTests.swift:81-91 | anything but a ratio is returned unchanged; from a ratio, the result is unlocked iff kills / 10 reach the threshold; an unlocked result is `.unlocked`, otherwise it is `.progression(kills / 10, threshold)` with the threshold kept |
| `Scenarios.ImmediateScenario` | Tests/AchievementsSystemTests/AchievementsSystemTests.swift:14-37 | the immediate achievement is not unlocked at first; after an input of two kills it is unlocked and is the only new unlock reported |
| `Scenarios.CountedScenario` | Tests/AchievementsSystemTests/AchievementsSystemTests.swift:39-70 | with inputs 0 to 10, `.counted(10)` is not unlocked before any update, is unlocked after input 10, and that update reports it as the only new unlock |
| `Scenarios.ProgressionScenario` | Tests/AchievementsSystemTests/AchievementsSystemTests.swift:72-104 | with inputs 0 to 10, `.progression(0.5)` is not unlocked after inputs below 5 and is unlocked after every later input |

## Left out

- Identifiers.IdentityIsItsString: IDs compare by exact sequence of code points. Swift's `String` equality and hashing use Unicode canonical equivalence, so `"\u{E9}"` and `"e\u{301}"` are one Swift key but two keys here. As a result, `DistinctIDs`, the keys of `InitialState` and the lookups of `UpdateProgress` differ from Swift for IDs that are canonically equivalent but not identical. This is because Dafny strings have no Unicode normalisation.
- Actor isolation (`@MainActor`), `Sendable` and the tests' `async`/`await`: they concern only which thread may call the engine. Each call is modelled as one sequential step.
- Synthesised `Codable` for `AchievementProgress`, `AchievementsState`, `AchievementID` and `AchievementDefinition`: the wire format comes from Foundation and is not visible in the source. Only the hand-written `AchievementType` coder is modelled.
- AchievementTypes.Decode: containers hold null, text, integer and real values; boolean, nested and array values are not modelled. Value kinds are strict. A format-specific coercion, such as a JSON integer decoded as a `Double`, is not modelled, because it belongs to the concrete decoder.
- IEEE `Double` behaviour: NaN and the rounding of `Double(i) / 10.0` in the progression test. Real numbers are used instead.
- The iteration order of dictionaries and sets, which fixes the order of the result of `updateProgress` and of `unlockedAchievements`. Both are stated as duplicate-free lists with their exact elements, and no order is claimed.
- Swift `Int` overflow: the core does no arithmetic on `Int`.
- `internal init(progressByID:)` is the `AchievementsState` datatype constructor itself. It has no separate member.
- `title`, `description` and `points` are stored but never read. The engine does not use them.
- `Package.swift` is build configuration only.
