/** No reload is lost: every source that a Reload added or changed gets refreshed, except through
    one window, which is characterized exactly and shown to be real. */
module ReloadCoverage {
  import opened CatalogTypes
  import opened RefreshState
  import opened RefreshProtocol
  import opened RefreshSafety

  // ---- Who will still refresh a source

  /** This thread leads to a refresh of exactly this source, as long as it stays configured:
      it will look the id up, or is reading the source, or runs another value of the id and
      will notice at its end that the value changed. */
  predicate Covers(w: Worker, source: Source)
  {
    match w
    case Waiting(id) => id == source.id
    case Acquired(id) => id == source.id
    case Requeueing(id) => id == source.id
    case Starting(own, queued) => own == source || (queued && own.id == source.id)
    case Reading(own, queued) => own == source || (queued && own.id == source.id)
    case Recorded(own) => own != source && own.id == source.id
    case _ => false
  }

  ghost predicate WorkerCovers(workers: map<nat, Worker>, source: Source)
  {
    exists w :: w in workers && Covers(workers[w], source)
  }

  predicate CallerWill(c: Caller, source: Source)
  {
    c.ReadingIds? || source.id in c.ids
  }

  ghost predicate CallerCovers(callers: map<nat, Caller>, source: Source)
  {
    exists c :: c in callers && CallerWill(callers[c], source)
  }

  /** The refresh left its trace: a snapshot of exactly this source, or its recorded error. */
  predicate Evidence(sh: Shared, source: Source)
  {
    || (source.id in sh.snapshots && sh.snapshots[source.id].source == source)
    || (source.id in sh.statuses && sh.statuses[source.id].source == source && sh.statuses[source.id].lastError != "")
  }

  ghost predicate Met(s: State, source: Source)
  {
    source in s.done || WorkerCovers(s.workers, source) || CallerCovers(s.callers, source)
  }

  ghost predicate CoverageInv(s: State)
  {
    && UniqueIds(s.shared.cfg.sources)
    && (forall source :: source in s.obliged ==> source in s.shared.cfg.sources && Met(s, source))
    && (forall source :: source in s.done ==> source in s.shared.cfg.sources && Evidence(s.shared, source))
    && (forall w :: w in s.workers ==> !s.workers[w].Cancelled?)
  }

  // ---- The window

  /** The running refresh of this very source value has recorded its result and not yet cleared
      its running flag. QueueRefresh then answers "running", yet nothing more will happen. */
  predicate InWindow(s: State, source: Source)
  {
    source.id in s.shared.running && s.sem.Some? && s.sem.value in s.workers && s.workers[s.sem.value] == Recorded(source)
  }

  /** A QueueRefresh of a configured source leaves a thread that will refresh it, except exactly
      when it falls into the window and no other thread was on its way. */
  lemma QueueRefreshCoversIffOutsideWindow(s: State, source: Source)
    requires Inv(s) && CoverageInv(s) && source in s.shared.cfg.sources
    ensures WorkerCovers(QueueRefresh(s, source.id).workers, source) <==> WorkerCovers(s.workers, source) || !InWindow(s, source)
  {
    var id, t := source.id, QueueRefresh(s, source.id);
    SourceByIdUnique(s.shared.cfg.sources, source);
    if id in s.shared.queued {
      var w :| w in s.workers && Expects(s.workers[w], id);
      assert Covers(s.workers[w], source);
    }
    if id in s.shared.running && !InWindow(s, source) {
      assert RunsFor(s.workers[s.sem.value], id);
      assert Covers(s.workers[s.sem.value], source);
    }
    if WorkerCovers(s.workers, source) {
      var w :| w in s.workers && Covers(s.workers[w], source);
      assert w in t.workers && Covers(t.workers[w], source);
    } else if id in s.shared.running {
      assert t.workers == s.workers;
    } else {
      assert t.workers[s.next] == Waiting(id);
      assert WorkerCovers(t.workers, source);
    }
  }

  // ---- Coverage is kept by every step outside the window

  /** Configurations name each id once, no goroutine gives up waiting, and no queueing caller
      drops an unmet obligation into the window. */
  ghost predicate Orderly(s: State, step: Step)
    requires Enabled(s, step)
  {
    match step
    case Reload(cfg) => UniqueIds(cfg.sources)
    case Cancel(_) => false
    case QueueNext(c) =>
      forall source :: source in s.obliged && source.id == s.callers[c].ids[0] && InWindow(s, source) ==> source in s.done
    case _ => true
  }

  /** A section that works on one configured source leaves the evidence of every other alone. */
  lemma EvidenceOfOthers(sh: Shared, own: Source, source: Source, now: int, error: string, packages: Packages)
    requires UniqueIds(sh.cfg.sources) && source in sh.cfg.sources && Evidence(sh, source) && error != ""
    ensures Evidence(MarkAttempt(sh, own, now), source)
    ensures Evidence(MarkFailure(sh, own, error), source)
    ensures Evidence(PublishSnapshot(sh, own, packages, now), source)
  {
    if own in sh.cfg.sources && own.id == source.id {
      UniqueIdsIdentify(sh.cfg.sources, own, source);
    }
  }

  lemma EvidenceQueued(sh: Shared, id: string, source: Source)
    requires UniqueIds(sh.cfg.sources) && source in sh.cfg.sources && Evidence(sh, source)
    ensures Evidence(Enqueue(sh, id).0, source)
  {
    SourceByIdUnique(sh.cfg.sources, source);
  }

  lemma EvidenceKeptFor(s: State, step: Step, source: Source)
    requires CoverageInv(s) && Enabled(s, step) && Orderly(s, step) && source in Next(s, step).done
    ensures source in Next(s, step).shared.cfg.sources && Evidence(Next(s, step).shared, source)
  {
    match step {
      case QueueNext(c) => EvidenceQueued(s.shared, s.callers[c].ids[0], source);
      case Requeue(w) => EvidenceQueued(s.shared, s.workers[w].id, source);
      case Mark(w, now) => EvidenceOfOthers(s.shared, s.workers[w].source, source, now, "e", map[]);
      case Record(w, outcome, now) =>
        if source in s.done {
          EvidenceOfOthers(s.shared, s.workers[w].source, source, now,
                           if outcome.ReadFailed? then outcome.error else "e", if outcome.ReadOk? then outcome.packages else map[]);
        }
      case _ =>
    }
  }

  /** What one step does to a worker that covers a source which stays configured. */
  lemma CoveringWorkerStep(s: State, step: Step, source: Source, w: nat)
    requires Mutex(s) && CoverageInv(s) && Enabled(s, step) && Orderly(s, step)
    requires source in s.shared.cfg.sources && source in Next(s, step).shared.cfg.sources
    requires w in s.workers && Covers(s.workers[w], source) && !step.Requeue?
    ensures source in Next(s, step).done || WorkerCovers(Next(s, step).workers, source)
  {
    var t := Next(s, step);
    SourceByIdUnique(s.shared.cfg.sources, source);
    if step.Finish? && step.worker == w {
      if s.workers[w].source in s.shared.cfg.sources {
        UniqueIdsIdentify(s.shared.cfg.sources, s.workers[w].source, source);
      }
    }
    if source !in t.done {
      assert w in t.workers && Covers(t.workers[w], source);
    }
  }

  lemma RequeueStepCovers(s: State, w: nat, source: Source)
    requires Inv(s) && CoverageInv(s) && w in s.workers && s.workers[w].Requeueing?
    requires source in s.shared.cfg.sources && WorkerCovers(s.workers, source)
    ensures WorkerCovers(RequeueStep(s, w).workers, source)
  {
    var t, id := RequeueStep(s, w), s.workers[w].id;
    SourceByIdUnique(s.shared.cfg.sources, source);
    if id == source.id {
      assert id !in s.shared.running;
      if id in s.shared.queued {
        var v :| v in s.workers && Expects(s.workers[v], id);
        assert v in t.workers && Covers(t.workers[v], source);
      } else {
        assert t.workers[s.next] == Waiting(id);
      }
    } else {
      var v :| v in s.workers && Covers(s.workers[v], source);
      assert v in t.workers && Covers(t.workers[v], source);
    }
  }

  lemma IdsContain(sources: seq<Source>, source: Source)
    requires source in sources
    ensures source.id in Ids(sources)
  {
    var i :| 0 <= i < |sources| && sources[i] == source;
    assert Ids(sources)[i] == source.id;
  }

  /** What one step does to a caller that will queue a source which stays configured. */
  lemma CoveringCallerStep(s: State, step: Step, source: Source, c: nat)
    requires Inv(s) && CoverageInv(s) && Enabled(s, step) && Orderly(s, step)
    requires source in s.obliged && source !in s.done && source in Next(s, step).shared.cfg.sources
    requires c in s.callers && CallerWill(s.callers[c], source)
    requires forall k :: k in s.callers ==> k < s.next
    ensures WorkerCovers(Next(s, step).workers, source) || CallerCovers(Next(s, step).callers, source)
  {
    var t := Next(s, step);
    if step == ReadIds(c) {
      IdsContain(s.shared.cfg.sources, source);
      assert CallerWill(t.callers[c], source);
    } else if step == QueueNext(c) {
      if s.callers[c].ids[0] == source.id {
        QueueRefreshCoversIffOutsideWindow(s, source);
        assert t.workers == QueueRefresh(s, source.id).workers;
      } else {
        assert CallerWill(t.callers[c], source);
      }
    } else {
      assert c in t.callers && CallerWill(t.callers[c], source);
    }
  }

  lemma ObligationKept(s: State, step: Step, source: Source)
    requires Inv(s) && CoverageInv(s) && Enabled(s, step) && Orderly(s, step)
    requires forall k :: k in s.callers ==> k < s.next
    requires source in Next(s, step).obliged
    ensures source in Next(s, step).shared.cfg.sources && Met(Next(s, step), source)
  {
    var t := Next(s, step);
    if source !in s.obliged {
      var caller := t.callers[s.next];
      assert step.Reload?;
      ChangedIdsExact(s.shared.cfg.sources, step.cfg.sources, source);
      assert CallerWill(caller, source);
    } else if source in s.done {
      assert source in t.done;
    } else if WorkerCovers(s.workers, source) {
      if step.Requeue? {
        RequeueStepCovers(s, step.worker, source);
      } else {
        var w :| w in s.workers && Covers(s.workers[w], source);
        CoveringWorkerStep(s, step, source, w);
      }
    } else {
      var c :| c in s.callers && CallerWill(s.callers[c], source);
      CoveringCallerStep(s, step, source, c);
    }
  }

  ghost predicate OrderlyRun(states: seq<State>, steps: seq<Step>)
  {
    && Run(states, steps)
    && UniqueIds(states[0].shared.cfg.sources)
    && forall i :: 0 <= i < |steps| ==> Orderly(states[i], steps[i])
  }

  lemma {:induction false} CallersAreNumbered(states: seq<State>, steps: seq<Step>, n: nat)
    requires Run(states, steps) && n < |states|
    ensures forall c :: c in states[n].callers ==> c < states[n].next
  {
    if n > 0 {
      CallersAreNumbered(states, steps, n - 1);
      assert states[n] == Next(states[n - 1], steps[n - 1]);
    }
  }

  lemma {:induction false} RunKeepsCoverage(states: seq<State>, steps: seq<Step>, n: nat)
    requires OrderlyRun(states, steps) && n < |states|
    ensures CoverageInv(states[n])
  {
    if n > 0 {
      var s, step := states[n - 1], steps[n - 1];
      RunKeepsCoverage(states, steps, n - 1);
      RunKeepsInv(states, steps, n - 1);
      CallersAreNumbered(states, steps, n - 1);
      CoverageStep(s, step);
    }
  }

  lemma NobodyGivesUp(s: State, step: Step)
    requires Enabled(s, step) && Orderly(s, step)
    requires forall w :: w in s.workers ==> !s.workers[w].Cancelled?
    ensures forall w :: w in Next(s, step).workers ==> !Next(s, step).workers[w].Cancelled?
  {
  }

  lemma CoverageStep(s: State, step: Step)
    requires Inv(s) && CoverageInv(s) && Enabled(s, step) && Orderly(s, step)
    requires forall k :: k in s.callers ==> k < s.next
    ensures CoverageInv(Next(s, step))
  {
    var t := Next(s, step);
    NobodyGivesUp(s, step);
    forall source | source in t.done ensures source in t.shared.cfg.sources && Evidence(t.shared, source) {
      EvidenceKeptFor(s, step, source);
    }
    forall source | source in t.obliged ensures source in t.shared.cfg.sources && Met(t, source) {
      ObligationKept(s, step, source);
    }
  }

  /** No lost reload: once no goroutine and no queueing caller is outstanding, every configured
      source that a Reload added or changed has completed a refresh of exactly its current value,
      and has a snapshot of it or a recorded error. */
  lemma NoReloadIsLost(states: seq<State>, steps: seq<Step>, n: nat, source: Source)
    requires OrderlyRun(states, steps) && n < |states|
    requires states[n].workers == map[] && states[n].callers == map[]
    requires source in states[n].obliged
    ensures source in states[n].shared.cfg.sources
    ensures source in states[n].done && Evidence(states[n].shared, source)
  {
    RunKeepsCoverage(states, steps, n);
  }

  // ---- The same from the reloads alone

  /** Configurations name each id once, no goroutine gives up waiting, and no reload brings back a
      source whose refresh has recorded its result and not yet cleared its flag. */
  ghost predicate Calm(s: State, step: Step)
  {
    match step
    case Reload(cfg) =>
      && UniqueIds(cfg.sources)
      && forall w :: w in s.workers && s.workers[w].Recorded? && s.workers[w].source in cfg.sources ==>
           s.workers[w].source in s.shared.cfg.sources
    case Cancel(_) => false
    case _ => true
  }

  ghost predicate CalmRun(states: seq<State>, steps: seq<Step>)
  {
    && Run(states, steps)
    && UniqueIds(states[0].shared.cfg.sources)
    && forall i :: 0 <= i < |steps| ==> Calm(states[i], steps[i])
  }

  /** A refresh that has recorded its result counts as done for as long as its source is configured. */
  ghost predicate RecordedIsDone(s: State)
  {
    forall w :: w in s.workers && s.workers[w].Recorded? && s.workers[w].source in s.shared.cfg.sources ==>
      s.workers[w].source in s.done
  }

  lemma CalmKeepsRecorded(s: State, step: Step)
    requires Enabled(s, step) && Calm(s, step) && RecordedIsDone(s)
    ensures RecordedIsDone(Next(s, step))
  {
  }

  lemma CalmIsOrderly(s: State, step: Step)
    requires Enabled(s, step) && Calm(s, step) && RecordedIsDone(s) && CoverageInv(s)
    ensures Orderly(s, step)
  {
  }

  lemma {:induction false} CalmRunKeepsCoverage(states: seq<State>, steps: seq<Step>, n: nat)
    requires CalmRun(states, steps) && n < |states|
    ensures CoverageInv(states[n]) && RecordedIsDone(states[n])
  {
    if n > 0 {
      var s, step := states[n - 1], steps[n - 1];
      CalmRunKeepsCoverage(states, steps, n - 1);
      RunKeepsInv(states, steps, n - 1);
      CallersAreNumbered(states, steps, n - 1);
      hide Inv, CoverageInv, RecordedIsDone, Next;
      CalmIsOrderly(s, step);
      CalmKeepsRecorded(s, step);
      CoverageStep(s, step);
    }
  }

  /** No lost reload, from what reloads do: unless one brings a source back between the recording
      and the end of its refresh, every source a reload added or changed is refreshed in the end. */
  lemma NoReloadIsLostUnlessRestored(states: seq<State>, steps: seq<Step>, n: nat, source: Source)
    requires CalmRun(states, steps) && n < |states|
    requires states[n].workers == map[] && states[n].callers == map[]
    requires source in states[n].obliged
    ensures source in states[n].shared.cfg.sources
    ensures source in states[n].done && Evidence(states[n].shared, source)
  {
    CalmRunKeepsCoverage(states, steps, n);
  }
}
