/** The advisory cache as a state machine. A request samples the clock, then takes the cache's
    lock once; a request that finds neither a fresh entry nor a fetch under way becomes the
    leader of a call, fetches, and takes the lock a second time to complete the call. The others
    wait for the call or are cancelled. `stored` and `replies` are history. */
module ChangelogProtocol {
  import opened Orders
  import opened OpenShiftTypes

  const CHANGELOG_CACHE_TTL: int := 21_600_000_000_000 // 6 hours in nanoseconds

  datatype Entry = Entry(content: Text, fetchedAt: int)

  datatype Outcome = Fetched(content: Text) | FetchFailed(message: string)

  datatype Result = Content(text: Text) | Failure(message: string)

  datatype Call = Call(key: string, leader: nat, result: Option<Result>)

  /** What a request remembers after its first critical section. */
  datatype Request =
    | Waiting(key: string, call: nat)
    | Leading(key: string, call: nat, now: int, stale: Option<Entry>)

  datatype Store = Store(key: string, content: Text, fetchedAt: int)

  datatype Source = Cached | FromCall(call: nat) | Cancelled

  datatype Reply = Reply(key: string, source: Source, result: Result)

  datatype State = State(
    entries: map<string, Entry>,
    pending: map<string, nat>,
    calls: seq<Call>,
    requests: map<nat, Request>,
    stored: seq<Store>,
    replies: seq<Reply>)

  /** now is the clock reading the request took before it asked for the lock: readings of
      different requests may reach the lock in any order. */
  datatype Step =
    | Arrive(id: nat, key: string, now: int)
    | Complete(id: nat, outcome: Outcome)
    | Wake(id: nat)
    | Cancel(id: nat)

  function Find<V>(m: map<string, V>, key: string): Option<V>
  {
    if key in m then Some(m[key]) else None
  }

  predicate Fresh(entry: Option<Entry>, now: int)
  {
    entry.Some? && now - entry.value.fetchedAt < CHANGELOG_CACHE_TTL
  }

  function ArriveAt(s: State, id: nat, key: string, now: int): State
  {
    var stale := Find(s.entries, key);
    if Fresh(stale, now) then
      s.(replies := s.replies + [Reply(key, Cached, Content(stale.value.content))])
    else if key in s.pending then
      s.(requests := s.requests[id := Waiting(key, s.pending[key])])
    else
      s.(pending := s.pending[key := |s.calls|],
         calls := s.calls + [Call(key, id, None)],
         requests := s.requests[id := Leading(key, |s.calls|, now, stale)])
  }

  /** A failed fetch falls back to the entry the leader saw when it started. */
  function Answer(stale: Option<Entry>, outcome: Outcome): Result
  {
    match outcome
    case Fetched(content) => Content(content)
    case FetchFailed(message) => if stale.Some? then Content(stale.value.content) else Failure(message)
  }

  function CompleteCall(s: State, id: nat, outcome: Outcome): State
    requires id in s.requests && s.requests[id].Leading? && s.requests[id].call < |s.calls|
  {
    var r := s.requests[id];
    var result := Answer(r.stale, outcome);
    var settled := s.(
      pending := s.pending - {r.key},
      calls := s.calls[r.call := s.calls[r.call].(result := Some(result))],
      requests := s.requests - {id},
      replies := s.replies + [Reply(r.key, FromCall(r.call), result)]);
    if outcome.Fetched?
    then settled.(entries := s.entries[r.key := Entry(outcome.content, r.now)],
                  stored := s.stored + [Store(r.key, outcome.content, r.now)])
    else settled
  }

  function WakeUp(s: State, id: nat): State
    requires id in s.requests && s.requests[id].Waiting? && s.requests[id].call < |s.calls|
    requires s.calls[s.requests[id].call].result.Some?
  {
    var r := s.requests[id];
    s.(requests := s.requests - {id},
       replies := s.replies + [Reply(r.key, FromCall(r.call), s.calls[r.call].result.value)])
  }

  function GiveUp(s: State, id: nat): State
    requires id in s.requests
  {
    s.(requests := s.requests - {id},
       replies := s.replies + [Reply(s.requests[id].key, Cancelled, Failure("context cancelled"))])
  }

  predicate Enabled(s: State, step: Step)
  {
    match step
    case Arrive(id, _, _) => id !in s.requests
    case Complete(id, _) => id in s.requests && s.requests[id].Leading? && s.requests[id].call < |s.calls|
    case Wake(id) =>
      && id in s.requests && s.requests[id].Waiting? && s.requests[id].call < |s.calls|
      && s.calls[s.requests[id].call].result.Some?
    case Cancel(id) => id in s.requests && s.requests[id].Waiting?
  }

  function Next(s: State, step: Step): State
    requires Enabled(s, step)
  {
    match step
    case Arrive(id, key, now) => ArriveAt(s, id, key, now)
    case Complete(id, outcome) => CompleteCall(s, id, outcome)
    case Wake(id) => WakeUp(s, id)
    case Cancel(id) => GiveUp(s, id)
  }

  predicate Init(s: State)
  {
    s == State(map[], map[], [], map[], [], [])
  }

  ghost predicate Run(states: seq<State>, steps: seq<Step>)
  {
    && |states| == |steps| + 1
    && Init(states[0])
    && forall i :: 0 <= i < |steps| ==> Enabled(states[i], steps[i]) && states[i + 1] == Next(states[i], steps[i])
  }
}
