/** The window of ReloadCoverage is real: a run in which a restored source is never refreshed. */
module LostReload {
  import opened Orders
  import opened CatalogTypes
  import opened RefreshState
  import opened RefreshProtocol
  import opened ReloadCoverage

  ghost function With(source: Source): Config { Config([source], "", 2, 0) }

  ghost function Without(): Config { Config([], "", 2, 0) }

  /** A background refresh runs up to and including its publication; the source is removed and
      restored; only then does the refresh clear its running flag. */
  ghost function StepAt(source: Source, k: nat): Step
    requires k < 14
  {
    match k
    case 0 => StartQueue(source.id)
    case 1 => QueueNext(0)
    case 2 => CallerReturns(0)
    case 3 => Acquire(1)
    case 4 => Take(1)
    case 5 => Mark(1, 1)
    case 6 => Record(1, ReadOk(map[]), 2)
    case 7 => Reload(Without())
    case 8 => CallerReturns(2)
    case 9 => Reload(With(source))
    case 10 => QueueNext(3)
    case 11 => CallerReturns(3)
    case 12 => Finish(1)
    case _ => Release(1)
  }

  /** The state before the k-th step. */
  ghost function At(source: Source, k: nat): State
  {
    var id := source.id;
    var configured := Shared(With(source), map[], map[], {}, {});
    var queued := Status(source, false, true, 0, 0, "", 0);
    var waiting := configured.(statuses := map[id := queued], queued := {id});
    var running := waiting.(queued := {}, running := {id});
    var marked := running.(statuses := map[id := queued.(lastAttempt := 1)]);
    var published := running.(
      snapshots := map[id := Snapshot(source, 2, map[])],
      statuses := map[id := Status(source, true, true, 1, 2, "", 0)]);
    var restored := configured.(running := {id});
    var history := [Publication(source, 1, 2, map[])];
    match k
    case 0 => State(configured, None, map[], map[], 0, 0, [], {}, {})
    case 1 => State(configured, None, map[], map[0 := Queueing([id])], 1, 0, [], {}, {})
    case 2 => State(waiting, None, map[1 := Waiting(id)], map[0 := Queueing([])], 2, 0, [], {}, {})
    case 3 => State(waiting, None, map[1 := Waiting(id)], map[], 2, 0, [], {}, {})
    case 4 => State(waiting, Some(1), map[1 := Acquired(id)], map[], 2, 0, [], {}, {})
    case 5 => State(running, Some(1), map[1 := Starting(source, true)], map[], 2, 1, [], {}, {})
    case 6 => State(marked, Some(1), map[1 := Reading(source, true)], map[], 2, 1, [], {}, {})
    case 7 => State(published, Some(1), map[1 := Recorded(source)], map[], 2, 1, history, {}, {source})
    case 8 => State(restored.(cfg := Without()), Some(1), map[1 := Recorded(source)], map[2 := Queueing([])], 3, 1, history, {}, {})
    case 9 => State(restored.(cfg := Without()), Some(1), map[1 := Recorded(source)], map[], 3, 1, history, {}, {})
    case 10 => State(restored, Some(1), map[1 := Recorded(source)], map[3 := Queueing([id])], 4, 1, history, {source}, {})
    case 11 => State(restored, Some(1), map[1 := Recorded(source)], map[3 := Queueing([])], 4, 1, history, {source}, {})
    case 12 => State(restored, Some(1), map[1 := Recorded(source)], map[], 4, 1, history, {source}, {})
    case 13 => State(configured, Some(1), map[1 := Releasing], map[], 4, 1, history, {source}, {})
    case _ => State(configured, None, map[], map[], 4, 1, history, {source}, {})
  }

  ghost predicate Steps(source: Source, k: nat)
    requires k < 14
  {
    Enabled(At(source, k), StepAt(source, k)) && Next(At(source, k), StepAt(source, k)) == At(source, k + 1)
  }

  lemma TheSourceIsQueued(source: Source)
    ensures Steps(source, 0) && Steps(source, 1)
  {
    assert SourceById(With(source).sources, source.id) == Some(source);
    assert [source.id][1..] == [];
  }

  lemma TheRefreshStarts(source: Source)
    ensures Steps(source, 2) && Steps(source, 3) && Steps(source, 4)
  {
    assert SourceById(With(source).sources, source.id) == Some(source);
  }

  lemma TheRefreshMarks(source: Source)
    ensures Steps(source, 5)
  {
  }

  lemma TheRefreshPublishes(source: Source)
    ensures Steps(source, 6)
  {
    var recorded := Next(At(source, 6), StepAt(source, 6));
    assert |StepAt(source, 6).outcome.packages| == 0;
    assert recorded.shared == At(source, 7).shared && recorded.workers == At(source, 7).workers;
    assert recorded.done == {source};
  }

  lemma TheSourceIsRemoved(source: Source)
    ensures Steps(source, 7) && Steps(source, 8)
  {
    var removed := Next(At(source, 7), StepAt(source, 7));
    assert removed.obliged == {} && removed.done == {};
    assert removed.shared.snapshots == map[] && removed.shared.statuses == map[];
  }

  lemma TheSourceIsRestored(source: Source)
    ensures Steps(source, 9)
  {
    var sources := With(source).sources;
    assert sources[..0] == [] && ChangedIds([], sources[..0]) == [];
    assert LastById([], source.id) == None;
    assert ChangedIds([], sources) == [source.id];
    var restored := Next(At(source, 9), StepAt(source, 9));
    assert restored.obliged == {source} && restored.done == {};
    assert restored.callers == map[3 := Queueing([source.id])];
  }

  lemma TheRestorationIsDropped(source: Source)
    ensures Steps(source, 10) && Steps(source, 11)
  {
    assert SourceById(With(source).sources, source.id) == Some(source);
    assert [source.id][1..] == [];
  }

  lemma TheRefreshEnds(source: Source)
    ensures Steps(source, 12) && Steps(source, 13)
  {
  }

  lemma EveryStepHolds(source: Source, k: nat)
    requires k < 14
    ensures Steps(source, k)
  {
    if k < 2 { TheSourceIsQueued(source); }
    else if k < 5 { TheRefreshStarts(source); }
    else if k == 5 { TheRefreshMarks(source); }
    else if k == 6 { TheRefreshPublishes(source); }
    else if k < 9 { TheSourceIsRemoved(source); }
    else if k < 10 { TheSourceIsRestored(source); }
    else if k < 12 { TheRestorationIsDropped(source); }
    else { TheRefreshEnds(source); }
  }

  /** Any source removed and restored between its refresh's publication and that refresh's end: the
      run comes to rest with the source configured, added by a Reload, and nothing to show for it. */
  lemma RestoringInTheWindowLosesTheReload(source: Source) returns (states: seq<State>, steps: seq<Step>)
    ensures Run(states, steps)
    ensures forall i :: 0 <= i < |states| ==> UniqueIds(states[i].shared.cfg.sources)
    ensures forall i :: 0 <= i < |steps| ==> !steps[i].Cancel?
    ensures var s := states[|steps|];
      && s.workers == map[] && s.callers == map[]
      && source in s.obliged && source in s.shared.cfg.sources
      && source !in s.done && !Evidence(s.shared, source)
  {
    steps := seq(14, k requires 0 <= k < 14 => StepAt(source, k));
    states := seq(15, k requires 0 <= k < 15 => At(source, k));
    forall k | 0 <= k < 14 ensures Enabled(states[k], steps[k]) && states[k + 1] == Next(states[k], steps[k]) {
      EveryStepHolds(source, k);
    }
  }
}
