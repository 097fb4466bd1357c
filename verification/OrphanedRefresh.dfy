/** The step QueueFlags excludes does happen: a run in which a goroutine that found its source
    missing clears the flag of another, and the next call starts a second one for the same id. */
module OrphanedRefresh {
  import opened Orders
  import opened CatalogTypes
  import opened RefreshState
  import opened RefreshProtocol
  import opened RefreshSafety
  import opened QueueFlags
  import LostReload

  /** A queued refresh acquires the semaphore; the source is removed; the refresh finds it missing;
      the source is restored and queued again; only then does the first goroutine leave. */
  ghost function StepAt(source: Source, k: nat): Step
    requires k < 11
  {
    match k
    case 0 => StartQueue(source.id)
    case 1 => QueueNext(0)
    case 2 => Acquire(1)
    case 3 => Reload(LostReload.Without())
    case 4 => Take(1)
    case 5 => Reload(LostReload.With(source))
    case 6 => QueueNext(3)
    case 7 => Abandon(1)
    case 8 => Release(1)
    case 9 => StartQueue(source.id)
    case _ => QueueNext(5)
  }

  /** The state before the k-th step. */
  ghost function At(source: Source, k: nat): State
  {
    var id := source.id;
    var configured := Shared(LostReload.With(source), map[], map[], {}, {});
    var flagged := configured.(statuses := map[id := Status(source, false, true, 0, 0, "", 0)], queued := {id});
    var removed := Shared(LostReload.Without(), map[], map[], {id}, {});
    var cleared := configured.(statuses := map[id := Status(source, false, false, 0, 0, "", 0)]);
    var idle := Queueing([]);
    match k
    case 0 => State(configured, None, map[], map[], 0, 0, [], {}, {})
    case 1 => State(configured, None, map[], map[0 := Queueing([id])], 1, 0, [], {}, {})
    case 2 => State(flagged, None, map[1 := Waiting(id)], map[0 := idle], 2, 0, [], {}, {})
    case 3 => State(flagged, Some(1), map[1 := Acquired(id)], map[0 := idle], 2, 0, [], {}, {})
    case 4 => State(removed, Some(1), map[1 := Acquired(id)], map[0 := idle, 2 := idle], 3, 0, [], {}, {})
    case 5 => State(removed.(queued := {}), Some(1), map[1 := Missing(id)], map[0 := idle, 2 := idle], 3, 0, [], {}, {})
    case 6 => State(configured, Some(1), map[1 := Missing(id)],
                    map[0 := idle, 2 := idle, 3 := Queueing([id])], 4, 0, [], {source}, {})
    case 7 => State(flagged, Some(1), map[1 := Missing(id), 4 := Waiting(id)],
                    map[0 := idle, 2 := idle, 3 := idle], 5, 0, [], {source}, {})
    case 8 => State(cleared, Some(1), map[1 := Releasing, 4 := Waiting(id)],
                    map[0 := idle, 2 := idle, 3 := idle], 5, 0, [], {source}, {})
    case 9 => State(cleared, None, map[4 := Waiting(id)], map[0 := idle, 2 := idle, 3 := idle], 5, 0, [], {source}, {})
    case 10 => State(cleared, None, map[4 := Waiting(id)],
                     map[0 := idle, 2 := idle, 3 := idle, 5 := Queueing([id])], 6, 0, [], {source}, {})
    case _ => State(flagged, None, map[4 := Waiting(id), 6 := Waiting(id)],
                    map[0 := idle, 2 := idle, 3 := idle, 5 := idle], 7, 0, [], {source}, {})
  }

  ghost predicate Steps(source: Source, k: nat)
    requires k < 11
  {
    Enabled(At(source, k), StepAt(source, k)) && Next(At(source, k), StepAt(source, k)) == At(source, k + 1)
  }

  lemma TheSourceIsQueued(source: Source)
    ensures Steps(source, 0) && Steps(source, 1) && Steps(source, 2)
  {
    assert SourceById(LostReload.With(source).sources, source.id) == Some(source);
    assert [source.id][1..] == [];
  }

  lemma TheSourceIsRemoved(source: Source)
    ensures Steps(source, 3) && Steps(source, 4)
  {
    var removed := Next(At(source, 3), StepAt(source, 3));
    assert removed.obliged == {} && removed.done == {} && removed.shared.statuses == map[];
    assert SourceById(LostReload.Without().sources, source.id) == None;
  }

  lemma TheSourceIsRestored(source: Source)
    ensures Steps(source, 5)
  {
    var sources := LostReload.With(source).sources;
    assert sources[..0] == [] && ChangedIds([], sources[..0]) == [];
    assert LastById([], source.id) == None;
    assert ChangedIds([], sources) == [source.id];
    var restored := Next(At(source, 5), StepAt(source, 5));
    assert restored.obliged == {source} && restored.done == {};
  }

  lemma TheFlagIsSetAndCleared(source: Source)
    ensures Steps(source, 6) && Steps(source, 7) && Steps(source, 8)
  {
    assert SourceById(LostReload.With(source).sources, source.id) == Some(source);
    assert [source.id][1..] == [];
  }

  lemma TheSourceIsQueuedAgain(source: Source)
    ensures Steps(source, 9) && Steps(source, 10)
  {
    assert SourceById(LostReload.With(source).sources, source.id) == Some(source);
    assert [source.id][1..] == [];
  }

  lemma EveryStepHolds(source: Source, k: nat)
    requires k < 11
    ensures Steps(source, k)
  {
    if k < 3 { TheSourceIsQueued(source); }
    else if k < 5 { TheSourceIsRemoved(source); }
    else if k == 5 { TheSourceIsRestored(source); }
    else if k < 9 { TheFlagIsSetAndCleared(source); }
    else { TheSourceIsQueuedAgain(source); }
  }

  /** For any source: a flag is dropped at the eighth step, and at the end two goroutines wait to
      refresh the same id. */
  lemma LeavingWhileQueuedAnewDoublesTheRefresh(source: Source) returns (states: seq<State>, steps: seq<Step>)
    ensures Run(states, steps) && |steps| == 11
    ensures DropsFlag(states[7], steps[7]) && !OneEach(states[8])
    ensures states[11].workers == map[4 := Waiting(source.id), 6 := Waiting(source.id)]
  {
    steps := seq(11, k requires 0 <= k < 11 => StepAt(source, k));
    states := seq(12, k requires 0 <= k < 12 => At(source, k));
    forall k | 0 <= k < 11 ensures Enabled(states[k], steps[k]) && states[k + 1] == Next(states[k], steps[k]) {
      EveryStepHolds(source, k);
    }
    assert Expects(states[8].workers[4], source.id);
  }
}
