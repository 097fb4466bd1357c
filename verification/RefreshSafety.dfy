/** What every interleaving of refreshes, reloads and queueing callers keeps. */
module RefreshSafety {
  import opened Orders
  import opened CatalogTypes
  import opened RefreshState
  import opened RefreshProtocol

  // ---- The invariant

  /** The semaphore names the one worker that holds it. */
  ghost predicate Mutex(s: State)
  {
    && (forall w :: w in s.workers ==> w < s.next)
    && (forall w :: w in s.workers ==> (Holding(s.workers[w]) <==> s.sem == Some(w)))
    && (s.sem.Some? ==> s.sem.value in s.workers)
  }

  ghost predicate RunningInv(s: State)
  {
    forall id :: id in s.shared.running ==> s.sem.Some? && s.sem.value in s.workers && RunsFor(s.workers[s.sem.value], id)
  }

  /** A goroutine that will clear queued[id]. */
  predicate Expects(w: Worker, id: string)
  {
    w == Waiting(id) || w == Acquired(id) || w == Cancelled(id)
  }

  ghost predicate QueuedInv(s: State)
  {
    forall id :: id in s.shared.queued ==> Expected(s.workers, id)
  }

  ghost predicate Expected(workers: map<nat, Worker>, id: string)
  {
    exists w :: w in workers && Expects(workers[w], id)
  }

  ghost predicate InBody(s: State)
  {
    s.sem.Some? && s.sem.value in s.workers && (s.workers[s.sem.value].Starting? || s.workers[s.sem.value].Reading?)
  }

  /** Publications come from bodies in the order the bodies started, one each. */
  ghost predicate PublishedInv(s: State)
  {
    && (forall i :: 0 <= i < |s.published| ==> s.published[i].body <= s.bodies)
    && (InBody(s) ==> forall i :: 0 <= i < |s.published| ==> s.published[i].body < s.bodies)
    && (forall i, j :: 0 <= i < j < |s.published| ==> s.published[i].body < s.published[j].body)
  }

  ghost predicate Inv(s: State)
  {
    SharedInv(s.shared) && Mutex(s) && RunningInv(s) && QueuedInv(s) && PublishedInv(s)
  }

  // ---- Each step keeps the invariant

  lemma SharedKept(s: State, step: Step)
    requires SharedInv(s.shared) && Enabled(s, step)
    ensures SharedInv(Next(s, step).shared)
  {
    match step {
      case Reload(cfg) => ApplyConfigKeepsInv(s.shared, cfg);
      case QueueNext(c) => QueueingKeepsInv(s.shared, s.callers[c].ids[0]);
      case Requeue(w) => QueueingKeepsInv(s.shared, s.workers[w].id);
      case Take(w) => QueueingKeepsInv(s.shared, s.workers[w].id);
      case Abandon(w) => FinishingKeepsInv(s.shared, s.workers[w].id);
      case Mark(w, now) => MarkAttemptKeepsInv(s.shared, s.workers[w].source, now);
      case Record(w, ReadOk(packages), now) => PublishKeepsInv(s.shared, s.workers[w].source, packages, now);
      case Record(w, ReadFailed(error), _) => MarkFailureKeepsInv(s.shared, s.workers[w].source, error);
      case Finish(w) => FinishingKeepsInv(s.shared, s.workers[w].source.id);
      case _ =>
    }
  }

  lemma MutexKept(s: State, step: Step)
    requires Mutex(s) && Enabled(s, step)
    ensures Mutex(Next(s, step))
  {
  }

  lemma RunningKept(s: State, step: Step)
    requires Mutex(s) && RunningInv(s) && Enabled(s, step)
    ensures RunningInv(Next(s, step))
  {
    if step.Take? {
      SourceByIdFinds(s.shared.cfg.sources, s.workers[step.worker].id);
    }
  }

  lemma QueuedKept(s: State, step: Step)
    requires Mutex(s) && QueuedInv(s) && Enabled(s, step)
    ensures QueuedInv(Next(s, step))
  {
    var t := Next(s, step);
    forall id | id in t.shared.queued ensures Expected(t.workers, id) {
      if id in s.shared.queued {
        var w :| w in s.workers && Expects(s.workers[w], id);
        assert w in t.workers && Expects(t.workers[w], id);
      } else {
        assert s.next in t.workers && t.workers[s.next] == Waiting(id);
      }
    }
  }

  lemma PublishedKept(s: State, step: Step)
    requires Mutex(s) && PublishedInv(s) && Enabled(s, step)
    ensures PublishedInv(Next(s, step))
  {
    var t := Next(s, step);
    if !step.Acquire? && !step.Take? && !step.Record? {
      assert t.published == s.published && t.bodies == s.bodies;
      assert InBody(t) ==> InBody(s);
    } else if step.Record? {
      assert InBody(s) && !InBody(t);
    }
  }

  lemma NextKeepsInv(s: State, step: Step)
    requires Inv(s) && Enabled(s, step)
    ensures Inv(Next(s, step))
  {
    SharedKept(s, step);
    MutexKept(s, step);
    RunningKept(s, step);
    QueuedKept(s, step);
    PublishedKept(s, step);
  }

  lemma {:induction false} RunKeepsInv(states: seq<State>, steps: seq<Step>, n: nat)
    requires Run(states, steps) && n < |states|
    ensures Inv(states[n])
  {
    if n > 0 {
      RunKeepsInv(states, steps, n - 1);
      NextKeepsInv(states[n - 1], steps[n - 1]);
    }
  }

  // ---- Safety over whole runs

  /** At most one refresh body runs, running names at most the semaphore holder's source, queued
      and running are disjoint, a status says "refreshing" only of a queued or running source, and
      every snapshot and status is filed under the id of a source that is configured now. */
  lemma RefreshingIsSerialAndCurrent(states: seq<State>, steps: seq<Step>, n: nat)
    requires Run(states, steps) && n < |states|
    ensures var s := states[n]; var sh := s.shared;
      && (forall v, w :: v in s.workers && w in s.workers && Holding(s.workers[v]) && Holding(s.workers[w]) ==> v == w)
      && (forall i, j :: i in sh.running && j in sh.running ==> i == j)
      && (forall id :: id in sh.running ==> s.sem.Some? && s.sem.value in s.workers && RunsFor(s.workers[s.sem.value], id))
      && sh.queued !! sh.running
      && (forall id :: id in sh.statuses && sh.statuses[id].refreshing ==> id in sh.queued || id in sh.running)
      && (forall id :: id in sh.snapshots ==> sh.snapshots[id].source in sh.cfg.sources && sh.snapshots[id].source.id == id)
      && (forall id :: id in sh.statuses ==> sh.statuses[id].source in sh.cfg.sources && sh.statuses[id].source.id == id)
  {
    RunKeepsInv(states, steps, n);
  }

  /** What a reload goes on to queue: every source when the signature policy or the parse concurrency
      changed, and otherwise exactly the sources that are new or different. */
  lemma ReloadQueuesWhatChanged(s: State, cfg: Config)
    requires UniqueIds(s.shared.cfg.sources) && UniqueIds(cfg.sources)
    ensures var t, previous := Next(s, Reload(cfg)), s.shared.cfg;
      && t.shared.cfg == cfg && s.next in t.callers
      && if previous.signaturePolicy != cfg.signaturePolicy || previous.parseConcurrency != cfg.parseConcurrency
         then t.callers[s.next] == ReadingIds
         else t.callers[s.next].Queueing? && forall source :: source in cfg.sources ==>
           (source.id in t.callers[s.next].ids <==> source !in previous.sources)
  {
    forall source | source in cfg.sources
      ensures source.id in ChangedIds(s.shared.cfg.sources, cfg.sources) <==> source !in s.shared.cfg.sources
    {
      ChangedIdsExact(s.shared.cfg.sources, cfg.sources, source);
    }
  }

  /** An older catalog refresh never replaces a newer one: snapshots are published in the order
      in which their refresh bodies started. */
  lemma SnapshotsFollowStartOrder(states: seq<State>, steps: seq<Step>, n: nat, i: nat, j: nat)
    requires Run(states, steps) && n < |states| && i < j < |states[n].published|
    ensures states[n].published[i].body < states[n].published[j].body
  {
    RunKeepsInv(states, steps, n);
  }

  function Stored(snapshots: map<string, Snapshot>, id: string): Option<Snapshot>
  {
    if id in snapshots then Some(snapshots[id]) else None
  }

  /** A complete, uncancelled read of a source that is configured under this id. */
  predicate CompletesRead(s: State, step: Step, id: string)
    requires Enabled(s, step)
  {
    step.Record? && step.outcome.ReadOk? &&
    s.workers[step.worker].source in s.shared.cfg.sources && s.workers[step.worker].source.id == id
  }

  /** The only ways a step can touch the snapshot of an id: a complete read of a source configured
      under that id replaces it, and a reload that unconfigures its source removes it. */
  lemma OnlyCompleteReadsReplaceSnapshots(s: State, step: Step, id: string)
    requires Inv(s) && Enabled(s, step)
    ensures CompletesRead(s, step, id) ==>
      Stored(Next(s, step).shared.snapshots, id) == Some(Snapshot(s.workers[step.worker].source, step.now, step.outcome.packages))
    ensures !CompletesRead(s, step, id) && Stored(Next(s, step).shared.snapshots, id) != Stored(s.shared.snapshots, id) ==>
      Stored(Next(s, step).shared.snapshots, id) == None && step.Reload? && s.shared.snapshots[id].source !in step.cfg.sources
  {
  }

  /** The clock readings a run used never go back. */
  ghost predicate MonotoneClock(states: seq<State>, steps: seq<Step>)
  {
    forall i, j :: 0 <= i < j < |steps| && steps[i].Record? && steps[j].Record? ==> steps[i].now <= steps[j].now
  }

  /** A snapshot's generation time is some clock reading that the run already used. */
  lemma {:induction false} GenerationTimesArePast(states: seq<State>, steps: seq<Step>, n: nat, id: string) returns (i: nat)
    requires Run(states, steps) && n < |states| && id in states[n].shared.snapshots
    ensures i < n && steps[i].Record? && steps[i].now == states[n].shared.snapshots[id].generatedAt
  {
    i := n - 1;
    RunKeepsInv(states, steps, i);
    OnlyCompleteReadsReplaceSnapshots(states[i], steps[i], id);
    if !CompletesRead(states[i], steps[i], id) {
      assert Stored(states[n].shared.snapshots, id).Some?;
      i := GenerationTimesArePast(states, steps, i, id);
    }
  }

  lemma LastKnownGoodStep(s: State, step: Step, id: string)
    requires Inv(s) && Enabled(s, step) && id in s.shared.snapshots
    requires UniqueIds(s.shared.cfg.sources) && s.shared.snapshots[id].source in Next(s, step).shared.cfg.sources
    ensures var t := Next(s, step);
      && id in t.shared.snapshots && t.shared.snapshots[id].source == s.shared.snapshots[id].source
      && (t.shared.snapshots[id].generatedAt == s.shared.snapshots[id].generatedAt
          || (step.Record? && t.shared.snapshots[id].generatedAt == step.now))
  {
    OnlyCompleteReadsReplaceSnapshots(s, step, id);
    if CompletesRead(s, step, id) {
      UniqueIdsIdentify(s.shared.cfg.sources, s.shared.snapshots[id].source, s.workers[step.worker].source);
    }
    assert Stored(Next(s, step).shared.snapshots, id).Some?;
  }

  lemma LastKnownGoodNext(states: seq<State>, steps: seq<Step>, k: nat, id: string)
    requires Run(states, steps) && k < |steps| && MonotoneClock(states, steps)
    requires id in states[k].shared.snapshots && UniqueIds(states[k].shared.cfg.sources)
    requires states[k].shared.snapshots[id].source in states[k + 1].shared.cfg.sources
    ensures id in states[k + 1].shared.snapshots
    ensures states[k + 1].shared.snapshots[id].source == states[k].shared.snapshots[id].source
    ensures states[k].shared.snapshots[id].generatedAt <= states[k + 1].shared.snapshots[id].generatedAt
  {
    RunKeepsInv(states, steps, k);
    LastKnownGoodStep(states[k], steps[k], id);
    var _ := GenerationTimesArePast(states, steps, k, id);
  }

  /** Last-known-good: while its source stays configured, a snapshot is never lost, and under a
      monotone clock its generation time never decreases. */
  lemma {:induction false} LastKnownGoodIsKept(states: seq<State>, steps: seq<Step>, i: nat, j: nat, id: string)
    requires Run(states, steps) && i <= j < |states| && MonotoneClock(states, steps)
    requires id in states[i].shared.snapshots
    requires forall k :: i <= k <= j ==>
      UniqueIds(states[k].shared.cfg.sources) && states[i].shared.snapshots[id].source in states[k].shared.cfg.sources
    ensures id in states[j].shared.snapshots
    ensures states[j].shared.snapshots[id].source == states[i].shared.snapshots[id].source
    ensures states[i].shared.snapshots[id].generatedAt <= states[j].shared.snapshots[id].generatedAt
  {
    if i < j {
      LastKnownGoodIsKept(states, steps, i, j - 1, id);
      LastKnownGoodNext(states, steps, j - 1, id);
    }
  }
}
