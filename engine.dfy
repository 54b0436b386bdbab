/** The progress-update engine
    (Sources/AchievementsSystem/AchievementsSystem.swift). */
module Engine {
  import opened Identifiers
  import opened ProgressValues
  import opened Achievements
  import opened StateContainer

  /** No identifier occurs twice. */
  predicate NoDuplicates(ids: seq<AchievementID>) {
    forall i, j :: 0 <= i < j < |ids| ==> ids[i] != ids[j]
  }

  /** The identifiers whose progress is unlocked. */
  function UnlockedIDs(m: ProgressMap): set<AchievementID> {
    set id | id in m && m[id].IsUnlocked()
  }

  /** The candidate state after evaluating the first `n` catalog entries:
      each entry whose identifier the baseline holds writes its evaluator's
      result, computed from the baseline value, over the candidate. */
  function EvaluatedPrefix<I>(catalog: seq<Achievement<I>>, input: I, baseline: ProgressMap, n: nat): (m: ProgressMap)
    requires n <= |catalog|
    ensures m.Keys == baseline.Keys
  {
    if n == 0 then baseline
    else
      var m := EvaluatedPrefix(catalog, input, baseline, n - 1);
      var a := catalog[n - 1];
      var id := a.definition.id;
      if id in baseline then m[id := a.updateProgress(input, baseline[id])] else m
  }

  /** The candidate state after evaluating the whole catalog. */
  function Evaluated<I>(catalog: seq<Achievement<I>>, input: I, baseline: ProgressMap): ProgressMap {
    EvaluatedPrefix(catalog, input, baseline, |catalog|)
  }

  /** An identifier that no evaluated entry carries keeps its baseline
      value. */
  lemma {:induction false} UntouchedKeepsBaseline<I>(catalog: seq<Achievement<I>>, input: I, baseline: ProgressMap,
                                                     n: nat, id: AchievementID)
    requires n <= |catalog| && id in baseline
    requires forall k :: 0 <= k < n ==> catalog[k].definition.id != id
    ensures EvaluatedPrefix(catalog, input, baseline, n)[id] == baseline[id]
  {
    if n > 0 {
      UntouchedKeepsBaseline(catalog, input, baseline, n - 1, id);
    }
  }

  /** With several entries for one identifier, the last evaluated one wins,
      and its evaluator sees the baseline value, not a sibling's update. */
  lemma {:induction false} LastEntryWins<I>(catalog: seq<Achievement<I>>, input: I, baseline: ProgressMap,
                                            n: nat, k: nat, id: AchievementID)
    requires k < n <= |catalog| && id in baseline
    requires catalog[k].definition.id == id
    requires forall j :: k < j < n ==> catalog[j].definition.id != id
    ensures EvaluatedPrefix(catalog, input, baseline, n)[id] == catalog[k].updateProgress(input, baseline[id])
  {
    if k < n - 1 {
      LastEntryWins(catalog, input, baseline, n - 1, k, id);
    }
  }

  /** For an identifier held by exactly one catalog entry, the new value is
      that entry's evaluator applied to the input and the old value. */
  lemma SingleEntryEvaluatesBaseline<I>(catalog: seq<Achievement<I>>, input: I, baseline: ProgressMap,
                                        k: nat, id: AchievementID)
    requires k < |catalog| && id in baseline
    requires catalog[k].definition.id == id
    requires forall j :: 0 <= j < |catalog| && j != k ==> catalog[j].definition.id != id
    ensures Evaluated(catalog, input, baseline)[id] == catalog[k].updateProgress(input, baseline[id])
  {
    LastEntryWins(catalog, input, baseline, |catalog|, k, id);
  }

  /** Every value of the candidate is either the baseline value or the
      result of some entry's evaluator on the baseline value. */
  lemma {:induction false} EvaluatedValueOrigin<I>(catalog: seq<Achievement<I>>, input: I, baseline: ProgressMap,
                                                   n: nat, id: AchievementID)
    requires n <= |catalog| && id in baseline
    ensures var v := EvaluatedPrefix(catalog, input, baseline, n)[id];
            v == baseline[id]
            || exists k :: 0 <= k < n && catalog[k].definition.id == id
                           && v == catalog[k].updateProgress(input, baseline[id])
  {
    if n > 0 {
      EvaluatedValueOrigin(catalog, input, baseline, n - 1, id);
    }
  }

  /** When every evaluator keeps unlocked progress unlocked for this input,
      an update never loses an unlock. */
  lemma MonotoneEvaluatorsKeepUnlocks<I>(catalog: seq<Achievement<I>>, input: I, baseline: ProgressMap)
    requires forall k :: 0 <= k < |catalog| ==> KeepsUnlocked(catalog[k].updateProgress, input)
    ensures UnlockedIDs(baseline) <= UnlockedIDs(Evaluated(catalog, input, baseline))
  {
    var after := Evaluated(catalog, input, baseline);
    forall id | id in UnlockedIDs(baseline) ensures id in UnlockedIDs(after) {
      EvaluatedValueOrigin(catalog, input, baseline, |catalog|, id);
      if after[id] != baseline[id] {
        var k :| 0 <= k < |catalog| && catalog[k].definition.id == id
                 && after[id] == catalog[k].updateProgress(input, baseline[id]);
        assert KeepsUnlocked(catalog[k].updateProgress, input);
      }
    }
  }

  /** The delta: exactly the identifiers the baseline holds that were not
      unlocked before (they were locked) and are unlocked after, and each of
      them belongs to some catalog entry. */
  lemma DeltaIsLockedToUnlocked<I>(catalog: seq<Achievement<I>>, input: I, baseline: ProgressMap, id: AchievementID)
    ensures var after := Evaluated(catalog, input, baseline);
            id in UnlockedIDs(after) - UnlockedIDs(baseline) <==>
              id in baseline && baseline[id].IsLocked() && after[id].IsUnlocked()
    ensures id in UnlockedIDs(Evaluated(catalog, input, baseline)) - UnlockedIDs(baseline) ==>
              exists k :: 0 <= k < |catalog| && catalog[k].definition.id == id
  {
    var after := Evaluated(catalog, input, baseline);
    if id in baseline {
      LockedIsNotUnlocked(baseline[id]);
      EvaluatedValueOrigin(catalog, input, baseline, |catalog|, id);
    }
  }

  /** A duplicate-free list of exactly one identifier is that identifier
      alone. */
  lemma SingletonList(ids: seq<AchievementID>, id: AchievementID)
    requires NoDuplicates(ids)
    requires forall x :: x in ids <==> x == id
    ensures ids == [id]
  {
    assert id in ids;
    assert forall k :: 0 <= k < |ids| ==> ids[k] == id by {
      forall k | 0 <= k < |ids| ensures ids[k] == id {
        assert ids[k] in ids;
      }
    }
    assert |ids| > 1 ==> ids[0] != ids[1];
  }

  /** `Array(set)`: the elements of a set as a list without duplicates. */
  method ListOf(ids: set<AchievementID>) returns (list: seq<AchievementID>)
    ensures NoDuplicates(list)
    ensures forall id :: id in list <==> id in ids
    ensures |list| == |ids|
  {
    list := [];
    var pending := ids;
    while pending != {}
      invariant pending <= ids
      invariant NoDuplicates(list)
      invariant forall id :: id in list ==> id in ids && id !in pending
      invariant forall id :: id in ids ==> id in list || id in pending
      invariant |list| + |pending| == |ids|
      decreases pending
    {
      var id :| id in pending;
      list := list + [id];
      pending := pending - {id};
    }
  }

  /** Manages the progress of a fixed catalog of achievements. */
  class AchievementsSystem<I> {
    /** The catalog, fixed for the system's lifetime. */
    const achievements: seq<Achievement<I>>

    /** The current progress of the achievements. */
    var state: AchievementsState

    /** The catalog's identifiers are distinct, as building its default
        state demands. */
    ghost predicate Valid() {
      DistinctIDs(DefinitionsOf(achievements))
    }

    /** The state the catalog starts from. */
    function DefaultState(): AchievementsState
      requires Valid()
    {
      InitialState(DefinitionsOf(achievements))
    }

    /** `init(achievements:)`. */
    constructor (achievements: seq<Achievement<I>>)
      requires DistinctIDs(DefinitionsOf(achievements))
      ensures this.achievements == achievements && Valid()
      ensures state == DefaultState()
    {
      this.achievements := achievements;
      state := InitialState(DefinitionsOf(achievements));
    }

    /** `updateProgress(input:)`: evaluate every catalog entry against the
        baseline, commit the candidate, and list the newly unlocked
        identifiers. */
    method UpdateProgress(input: I) returns (newlyUnlocked: seq<AchievementID>)
      modifies this
      ensures state.progressByID == Evaluated(achievements, input, old(state.progressByID))
      ensures state.progressByID.Keys == old(state.progressByID).Keys
      ensures NoDuplicates(newlyUnlocked)
      ensures forall id :: id in newlyUnlocked <==>
                id in UnlockedIDs(state.progressByID) - UnlockedIDs(old(state.progressByID))
      ensures (forall k :: 0 <= k < |achievements| ==> KeepsUnlocked(achievements[k].updateProgress, input)) ==>
                UnlockedIDs(old(state.progressByID)) <= UnlockedIDs(state.progressByID)
      ensures state == old(state) ==> newlyUnlocked == []
    {
      var stateSnapshot := state;
      for i := 0 to |achievements|
        invariant state == old(state)
        invariant stateSnapshot.progressByID == EvaluatedPrefix(achievements, input, state.progressByID, i)
      {
        var achievement := achievements[i];
        var id := achievement.definition.id;
        if id in state.progressByID {
          var current := state.progressByID[id];
          var updated := achievement.updateProgress(input, current);
          stateSnapshot := AchievementsState(stateSnapshot.progressByID[id := updated]);
        }
      }
      var unlockedBefore := UnlockedIDs(state.progressByID);
      var unlockedAfter := UnlockedIDs(stateSnapshot.progressByID);
      state := stateSnapshot;
      newlyUnlocked := ListOf(unlockedAfter - unlockedBefore);
      if (forall k :: 0 <= k < |achievements| ==> KeepsUnlocked(achievements[k].updateProgress, input)) {
        MonotoneEvaluatorsKeepUnlocks(achievements, input, old(state.progressByID));
      }
    }

    /** `currentProgress()`. */
    method CurrentProgress() returns (progress: ProgressMap)
      ensures progress == state.progressByID
    {
      progress := state.progressByID;
    }

    /** `unlockedAchievements()`: the identifiers whose progress is
        unlocked, each once, in no particular order. */
    method UnlockedAchievements() returns (ids: seq<AchievementID>)
      ensures NoDuplicates(ids)
      ensures forall id :: id in ids <==> id in state.progressByID && state.progressByID[id].IsUnlocked()
    {
      var unlocked := UnlockedIDs(state.progressByID);
      ids := ListOf(unlocked);
    }

    /** `currentState()`. */
    method CurrentState() returns (s: AchievementsState)
      ensures s == state
    {
      s := state;
    }

    /** `loadState(_:)`: replace the state wholesale. */
    method LoadState(newState: AchievementsState)
      modifies this
      ensures state == newState
    {
      state := newState;
    }

    /** `reset()`: back to the state the catalog starts from. */
    method Reset()
      requires Valid()
      modifies this
      ensures state == DefaultState()
    {
      state := InitialState(DefinitionsOf(achievements));
    }
  }
}
