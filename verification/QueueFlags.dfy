/** Whether a queued flag stands for exactly one goroutine. It does until a goroutine that found
    its source missing leaves while another call has flagged the same id again. */
module QueueFlags {
  import opened RefreshProtocol
  import opened RefreshSafety

  /** No two goroutines will clear the same queued flag. */
  ghost predicate Alone(workers: map<nat, Worker>)
  {
    forall v, w, id :: v in workers && w in workers && Expects(workers[v], id) && Expects(workers[w], id) ==> v == w
  }

  /** Every goroutine that will clear a queued flag finds it set. */
  ghost predicate Flagged(s: State)
  {
    forall w, id :: w in s.workers && Expects(s.workers[w], id) ==> id in s.shared.queued
  }

  /** One goroutine for each queued flag, and one flag for each such goroutine. */
  ghost predicate OneEach(s: State)
  {
    Alone(s.workers) && Flagged(s)
  }

  /** A goroutine that found its source missing leaves while the id is queued anew. */
  predicate DropsFlag(s: State, step: Step)
    requires Enabled(s, step)
  {
    step.Abandon? && s.workers[step.worker].Missing? && s.workers[step.worker].id in s.shared.queued
  }

  lemma QueueRefreshKeepsOneEach(s: State, id: string)
    requires OneEach(s) && s.next !in s.workers
    ensures OneEach(QueueRefresh(s, id))
  {
    var t := QueueRefresh(s, id);
    if t.workers != s.workers {
      assert t.workers == s.workers[s.next := Waiting(id)] && id !in s.shared.queued;
    }
  }

  /** Threads that do not expect a flag come and go without effect on the others. */
  lemma WorkersKept(s: State, t: State)
    requires OneEach(s) && s.shared.queued <= t.shared.queued
    requires forall w, id :: w in t.workers && Expects(t.workers[w], id) ==> w in s.workers && Expects(s.workers[w], id)
    ensures OneEach(t)
  {
  }

  lemma ClearingKept(s: State, t: State, w: nat, id: string)
    requires OneEach(s) && s.shared.queued - {id} == t.shared.queued
    requires w in s.workers && (Expects(s.workers[w], id) || id !in s.shared.queued)
    requires forall v, i :: v in t.workers && Expects(t.workers[v], i) ==> v != w && v in s.workers && Expects(s.workers[v], i)
    ensures OneEach(t)
  {
  }

  lemma QueueNextKeepsOneEach(s: State, c: nat)
    requires OneEach(s) && s.next !in s.workers && Enabled(s, QueueNext(c))
    ensures OneEach(Next(s, QueueNext(c)))
  {
    var u := s.(callers := s.callers[c := Queueing(s.callers[c].ids[1..])]);
    WorkersKept(s, u);
    QueueRefreshKeepsOneEach(u, s.callers[c].ids[0]);
  }

  lemma RequeueKeepsOneEach(s: State, w: nat)
    requires OneEach(s) && s.next !in s.workers && Enabled(s, Requeue(w))
    ensures OneEach(Next(s, Requeue(w)))
  {
    QueueRefreshKeepsOneEach(s, s.workers[w].id);
    WorkersKept(QueueRefresh(s, s.workers[w].id), Next(s, Requeue(w)));
  }

  lemma StepKeepsOneEach(s: State, step: Step)
    requires Inv(s) && OneEach(s) && Enabled(s, step) && !DropsFlag(s, step)
    ensures OneEach(Next(s, step))
  {
    assert s.next !in s.workers;
    hide OneEach, Inv;
    var t := Next(s, step);
    match step {
      case QueueNext(c) => QueueNextKeepsOneEach(s, c);
      case Requeue(w) => RequeueKeepsOneEach(s, w);
      case Take(w) => ClearingKept(s, t, w, s.workers[w].id);
      case Abandon(w) => ClearingKept(s, t, w, s.workers[w].id);
      case _ => WorkersKept(s, t);
    }
  }

  /** Leaving like that orphans whoever the flag stood for: it still waits, unflagged. */
  lemma DroppedFlagOrphansAWorker(s: State, step: Step) returns (v: nat)
    requires Inv(s) && Enabled(s, step) && DropsFlag(s, step)
    ensures var t, id := Next(s, step), s.workers[step.worker].id;
      v in t.workers && Expects(t.workers[v], id) && id !in t.shared.queued && !OneEach(t)
  {
    var id := s.workers[step.worker].id;
    assert Expected(s.workers, id);
    v :| v in s.workers && Expects(s.workers[v], id);
    assert v != step.worker;
  }

  /** In a run, queued flags and the goroutines they stand for correspond one to one up to a state
      exactly when no step before it dropped a flag. */
  lemma {:induction false} FlagsMatchGoroutinesIff(states: seq<State>, steps: seq<Step>, n: nat)
    requires Run(states, steps) && n < |states|
    ensures (forall k :: 0 <= k <= n ==> OneEach(states[k])) <==> (forall k :: 0 <= k < n ==> !DropsFlag(states[k], steps[k]))
  {
    if n > 0 {
      FlagsMatchGoroutinesIff(states, steps, n - 1);
      RunKeepsInv(states, steps, n - 1);
      var s, step := states[n - 1], steps[n - 1];
      hide OneEach, Inv, Next, DropsFlag;
      if DropsFlag(s, step) {
        var v := DroppedFlagOrphansAWorker(s, step);
        assert !OneEach(states[n]);
      } else if OneEach(s) {
        StepKeepsOneEach(s, step);
      }
    } else {
      assert states[0].workers == map[];
    }
  }
}
