/** Catalog refreshing as a state machine: every background goroutine, direct refresh and
    queueing caller is a thread with a program counter, and each critical section or
    semaphore operation is one step. Steps may interleave in any order. */
module RefreshProtocol {
  import opened Orders
  import opened CatalogTypes
  import opened RefreshState

  /** Where a refreshQueued goroutine, or a direct Refresh call, stands. */
  datatype Worker =
    | Waiting(id: string)                     // refreshQueued, waiting for the semaphore
    | Cancelled(id: string)                   // gave up waiting, about to finishQueued
    | Acquired(id: string)                    // holds the semaphore, about to look its source up
    | Missing(id: string)                     // holds it, source not configured, about to finishQueued
    | DirectWaiting(source: Source)           // Refresh, waiting for the semaphore
    | Starting(source: Source, queued: bool)  // refresh, about to markAttempt
    | Reading(source: Source, queued: bool)   // refresh, reading the catalog
    | Recorded(source: Source)                // refreshQueued, result recorded, about to clear running
    | Requeueing(id: string)                  // refreshQueued, its source changed, about to QueueRefresh
    | Releasing                               // about to release the semaphore

  /** A caller that queues refreshes one by one: Reload's tail, queueAll, or an HTTP request. */
  datatype Caller = ReadingIds | Queueing(ids: seq<string>)

  datatype Outcome = ReadOk(packages: Packages) | ReadFailed(error: string)

  datatype Publication = Publication(source: Source, body: nat, at: int, packages: Packages)

  datatype State = State(
    shared: Shared,
    sem: Option<nat>,
    workers: map<nat, Worker>,
    callers: map<nat, Caller>,
    next: nat,                 // the next thread number
    bodies: nat,               // refresh bodies started so far
    published: seq<Publication>,
    obliged: set<Source>,      // configured sources that some Reload added or changed
    done: set<Source>)         // configured sources with a completed refresh of exactly that value

  datatype Step =
    | Reload(cfg: Config)
    | StartQueueAll
    | StartQueue(id: string)
    | StartDirect(source: Source)
    | ReadIds(caller: nat)
    | QueueNext(caller: nat)
    | CallerReturns(caller: nat)
    | Acquire(worker: nat)
    | Cancel(worker: nat)
    | GiveUpDirect(worker: nat)
    | Take(worker: nat)
    | Abandon(worker: nat)
    | Mark(worker: nat, now: int)
    | Record(worker: nat, outcome: Outcome, now: int)
    | Finish(worker: nat)
    | Requeue(worker: nat)
    | Release(worker: nat)

  predicate Holding(w: Worker)
  {
    w.Acquired? || w.Missing? || w.Starting? || w.Reading? || w.Recorded? || w.Requeueing? || w.Releasing?
  }

  /** The goroutine that set running[id] and has not cleared it. */
  predicate RunsFor(w: Worker, id: string)
  {
    ((w.Starting? || w.Reading?) && w.queued && w.source.id == id) || (w.Recorded? && w.source.id == id)
  }

  // ---- Steps

  function SpawnWorker(s: State, w: Worker): State
  {
    s.(workers := s.workers[s.next := w], next := s.next + 1)
  }

  function SpawnCaller(s: State, c: Caller): State
  {
    s.(callers := s.callers[s.next := c], next := s.next + 1)
  }

  function Move(s: State, w: nat, to: Worker): State
  {
    s.(workers := s.workers[w := to])
  }

  /** QueueRefresh: at most one new goroutine. */
  function QueueRefresh(s: State, id: string): State
  {
    var (shared, reply) := Enqueue(s.shared, id);
    var t := s.(shared := shared);
    if reply == Started then SpawnWorker(t, Waiting(id)) else t
  }

  function ReloadStep(s: State, cfg: Config): State
  {
    var previous := s.shared.cfg;
    var added := set source | source in cfg.sources && source !in previous.sources;
    var kept := set source | source in s.obliged && source in cfg.sources;
    var t := s.(
      shared := ApplyConfig(s.shared, cfg),
      obliged := kept + added,
      done := set source | source in s.done && source in cfg.sources);
    SpawnCaller(t, if RefreshesAll(previous, cfg) then ReadingIds else Queueing(ChangedIds(previous.sources, cfg.sources)))
  }

  function Ids(sources: seq<Source>): seq<string>
  {
    seq(|sources|, i requires 0 <= i < |sources| => sources[i].id)
  }

  function AcquireStep(s: State, w: nat): State
    requires w in s.workers && (s.workers[w].Waiting? || s.workers[w].DirectWaiting?)
  {
    var t := s.(sem := Some(w));
    match s.workers[w]
    case Waiting(id) => Move(t, w, Acquired(id))
    case DirectWaiting(source) => Move(t, w, Starting(source, false)).(bodies := s.bodies + 1)
  }

  function TakeStep(s: State, w: nat): State
    requires w in s.workers && s.workers[w].Acquired?
  {
    var (shared, source) := TakeQueued(s.shared, s.workers[w].id);
    var t := s.(shared := shared);
    match source
    case None => Move(t, w, Missing(s.workers[w].id))
    case Some(found) => Move(t, w, Starting(found, true)).(bodies := s.bodies + 1)
  }

  function AbandonStep(s: State, w: nat): State
    requires w in s.workers && (s.workers[w].Missing? || s.workers[w].Cancelled?)
  {
    var t := s.(shared := FinishQueued(s.shared, s.workers[w].id));
    if s.workers[w].Missing? then Move(t, w, Releasing) else t.(workers := s.workers - {w})
  }

  function MarkStep(s: State, w: nat, now: int): State
    requires w in s.workers && s.workers[w].Starting?
  {
    var Starting(source, queued) := s.workers[w];
    Move(s.(shared := MarkAttempt(s.shared, source, now)), w, Reading(source, queued))
  }

  function RecordStep(s: State, w: nat, outcome: Outcome, now: int): State
    requires w in s.workers && s.workers[w].Reading?
  {
    var Reading(source, queued) := s.workers[w];
    var current := source in s.shared.cfg.sources;
    var t := match outcome
      case ReadFailed(error) => s.(shared := MarkFailure(s.shared, source, error))
      case ReadOk(packages) =>
        s.(shared := PublishSnapshot(s.shared, source, packages, now),
           published := if current then s.published + [Publication(source, s.bodies, now, packages)] else s.published);
    Move(t, w, if queued then Recorded(source) else Releasing).(done := if current then s.done + {source} else s.done)
  }

  function FinishStep(s: State, w: nat): State
    requires w in s.workers && s.workers[w].Recorded?
  {
    var source := s.workers[w].source;
    Move(s.(shared := FinishRun(s.shared, source.id)), w,
         if source in s.shared.cfg.sources then Releasing else Requeueing(source.id))
  }

  function RequeueStep(s: State, w: nat): State
    requires w in s.workers && s.workers[w].Requeueing?
  {
    Move(QueueRefresh(s, s.workers[w].id), w, Releasing)
  }

  // ---- Runs

  predicate Enabled(s: State, step: Step)
  {
    match step
    case Reload(_) => true
    case StartQueueAll => true
    case StartQueue(_) => true
    case StartDirect(_) => true
    case ReadIds(c) => c in s.callers && s.callers[c].ReadingIds?
    case QueueNext(c) => c in s.callers && s.callers[c].Queueing? && s.callers[c].ids != []
    case CallerReturns(c) => c in s.callers && s.callers[c] == Queueing([])
    case Acquire(w) => w in s.workers && (s.workers[w].Waiting? || s.workers[w].DirectWaiting?) && s.sem.None?
    case Cancel(w) => w in s.workers && s.workers[w].Waiting?
    case GiveUpDirect(w) => w in s.workers && s.workers[w].DirectWaiting?
    case Take(w) => w in s.workers && s.workers[w].Acquired?
    case Abandon(w) => w in s.workers && (s.workers[w].Missing? || s.workers[w].Cancelled?)
    case Mark(w, _) => w in s.workers && s.workers[w].Starting?
    case Record(w, outcome, _) =>
      w in s.workers && s.workers[w].Reading? && (outcome.ReadFailed? ==> outcome.error != "")
    case Finish(w) => w in s.workers && s.workers[w].Recorded?
    case Requeue(w) => w in s.workers && s.workers[w].Requeueing?
    case Release(w) => w in s.workers && s.workers[w].Releasing?
  }

  function Next(s: State, step: Step): State
    requires Enabled(s, step)
  {
    match step
    case Reload(cfg) => ReloadStep(s, cfg)
    case StartQueueAll => SpawnCaller(s, ReadingIds)
    case StartQueue(id) => SpawnCaller(s, Queueing([id]))
    case StartDirect(source) => SpawnWorker(s, DirectWaiting(source))
    case ReadIds(c) => s.(callers := s.callers[c := Queueing(Ids(s.shared.cfg.sources))])
    case QueueNext(c) =>
      QueueRefresh(s.(callers := s.callers[c := Queueing(s.callers[c].ids[1..])]), s.callers[c].ids[0])
    case CallerReturns(c) => s.(callers := s.callers - {c})
    case Acquire(w) => AcquireStep(s, w)
    case Cancel(w) => Move(s, w, Cancelled(s.workers[w].id))
    case GiveUpDirect(w) => s.(workers := s.workers - {w})
    case Take(w) => TakeStep(s, w)
    case Abandon(w) => AbandonStep(s, w)
    case Mark(w, now) => MarkStep(s, w, now)
    case Record(w, outcome, now) => RecordStep(s, w, outcome, now)
    case Finish(w) => FinishStep(s, w)
    case Requeue(w) => RequeueStep(s, w)
    case Release(w) => s.(sem := None, workers := s.workers - {w})
  }

  ghost predicate Init(s: State)
  {
    s == State(Shared(s.shared.cfg, map[], map[], {}, {}), None, map[], map[], 0, 0, [], {}, {})
  }

  ghost predicate Run(states: seq<State>, steps: seq<Step>)
  {
    && |states| == |steps| + 1
    && Init(states[0])
    && forall i :: 0 <= i < |steps| ==> Enabled(states[i], steps[i]) && states[i + 1] == Next(states[i], steps[i])
  }
}
