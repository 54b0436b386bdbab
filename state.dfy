/** The progress of every achievement, keyed by identifier
    (Sources/AchievementsSystem/AchievementsState.swift). */
module StateContainer {
  import opened Identifiers
  import opened ProgressValues
  import opened Definitions
  import Types = AchievementTypes

  type ProgressMap = map<AchievementID, Progress>

  /** The state of all achievements: a dictionary from identifier to
      progress. */
  datatype AchievementsState = AchievementsState(progressByID: ProgressMap)

  /** The starting progress of an achievement of the given type. */
  function DefaultProgress(t: Types.AchievementType): Progress {
    match t
    case Immediate => Locked
    case Counted(threshold) => Counted(0, threshold)
    case Progression(threshold) => Progression(0.0, threshold)
  }

  /** No two definitions share an identifier: the demand of
      `Dictionary(uniqueKeysWithValues:)`, which traps otherwise. */
  predicate DistinctIDs(defs: seq<AchievementDefinition>) {
    forall i, j :: 0 <= i < j < |defs| ==> defs[i].id != defs[j].id
  }

  /** The identifiers of a list of definitions. */
  function IDsOf(defs: seq<AchievementDefinition>): set<AchievementID> {
    set k | 0 <= k < |defs| :: defs[k].id
  }

  lemma IDsOfSnoc(defs: seq<AchievementDefinition>)
    requires defs != []
    ensures IDsOf(defs) == IDsOf(defs[..|defs| - 1]) + {defs[|defs| - 1].id}
  {
  }

  /** `init(for:)`: one entry per definition, holding the default progress
      of its type. */
  function InitialState(defs: seq<AchievementDefinition>): (s: AchievementsState)
    requires DistinctIDs(defs)
    ensures s.progressByID.Keys == IDsOf(defs)
    ensures forall k :: 0 <= k < |defs| ==>
              s.progressByID[defs[k].id] == DefaultProgress(defs[k].achievementType)
    decreases |defs|
  {
    if defs == [] then AchievementsState(map[])
    else
      var n := |defs| - 1;
      var prefix := defs[..n];
      assert forall k :: 0 <= k < n ==> prefix[k] == defs[k];
      var rest := InitialState(prefix);
      IDsOfSnoc(defs);
      AchievementsState(rest.progressByID[defs[n].id := DefaultProgress(defs[n].achievementType)])
  }

  /** The three default rules, spelled out per definition. */
  lemma InitialProgressByType(defs: seq<AchievementDefinition>, k: nat)
    requires DistinctIDs(defs) && k < |defs|
    ensures var p := InitialState(defs).progressByID[defs[k].id];
            match defs[k].achievementType
            case Immediate => p == Locked
            case Counted(t) => p == Counted(0, t)
            case Progression(t) => p == Progression(0.0, t)
  {
  }

  /** A fresh entry is unlocked only when its threshold is already met at
      zero. */
  lemma DefaultProgressUnlocked(t: Types.AchievementType)
    ensures DefaultProgress(t).IsUnlocked() <==>
              (t.Counted? && t.threshold <= 0) || (t.Progression? && t.ratioThreshold <= 0.0)
  {
  }

  /** The left-biased partial merge that `applying` computes. */
  function Applied(s: AchievementsState, other: AchievementsState): AchievementsState {
    AchievementsState(map id | id in s.progressByID ::
      if id in other.progressByID then other.progressByID[id] else s.progressByID[id])
  }

  /** `applying(_:)`: copy the receiver and, for each of its own keys that
      the other state also holds, take the other state's value. */
  method Applying(s: AchievementsState, other: AchievementsState) returns (r: AchievementsState)
    ensures r.progressByID.Keys == s.progressByID.Keys
    ensures forall id :: id in s.progressByID && id in other.progressByID ==>
              r.progressByID[id] == other.progressByID[id]
    ensures forall id :: id in s.progressByID && id !in other.progressByID ==>
              r.progressByID[id] == s.progressByID[id]
    ensures r == Applied(s, other)
  {
    var progressByID := s.progressByID;
    var pending := s.progressByID.Keys;
    while pending != {}
      invariant pending <= s.progressByID.Keys
      invariant progressByID.Keys == s.progressByID.Keys
      invariant forall id :: id in pending ==> progressByID[id] == s.progressByID[id]
      invariant forall id :: id in s.progressByID && id !in pending ==>
                  progressByID[id] == Applied(s, other).progressByID[id]
      decreases pending
    {
      var id :| id in pending;
      if id in other.progressByID {
        progressByID := progressByID[id := other.progressByID[id]];
      }
      pending := pending - {id};
    }
    r := AchievementsState(progressByID);
  }

  /** Applying a state to itself changes nothing. */
  lemma AppliedToItself(s: AchievementsState)
    ensures Applied(s, s) == s
  {
  }

  /** Applying the same state twice is the same as applying it once. */
  lemma AppliedTwice(s: AchievementsState, other: AchievementsState)
    ensures Applied(Applied(s, other), other) == Applied(s, other)
  {
  }

  /** `progress(for:)`: the stored progress of an identifier the state holds
      (any other identifier is a fatal error). */
  function ProgressFor(s: AchievementsState, id: AchievementID): (p: Progress)
    requires id in s.progressByID
    ensures p == s.progressByID[id]
  {
    s.progressByID[id]
  }
}
