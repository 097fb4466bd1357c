/** What the advisory cache answers, step by step and over every run: who is answered from the
    cache, and with what a call's leader and its waiters are answered. */
module ChangelogAnswers {
  import opened Orders
  import opened ChangelogProtocol
  import opened ChangelogSafety

  const SIX_HOURS: int := 6 * 60 * 60 * 1_000_000_000

  /** A request that finds an entry younger than six hours is answered with it at once; otherwise it
      waits for the key's call or, without one, starts a call and remembers what it found. */
  lemma ArrivalDecides(states: seq<State>, steps: seq<Step>, i: nat)
    requires Run(states, steps) && i < |steps| && steps[i].Arrive?
    ensures var s, t, id, key, now := states[i], states[i + 1], steps[i].id, steps[i].key, steps[i].now;
      && t.entries == s.entries && t.stored == s.stored
      && if key in s.entries && now - s.entries[key].fetchedAt < SIX_HOURS then
           && t.replies == s.replies + [Reply(key, Cached, Content(s.entries[key].content))]
           && t.pending == s.pending && t.calls == s.calls && t.requests == s.requests
         else if key in s.pending then
           && t.requests == s.requests[id := Waiting(key, s.pending[key])]
           && t.pending == s.pending && t.calls == s.calls && t.replies == s.replies
         else
           && t.pending == s.pending[key := |s.calls|] && t.calls == s.calls + [Call(key, id, None)]
           && t.requests == s.requests[id := Leading(key, |s.calls|, now, if key in s.entries then Some(s.entries[key]) else None)]
           && t.replies == s.replies
  {
  }

  /** The result of a fetch for a key with this entry: the fetched content; after a failure the
      entry's content, however old; after a failure without an entry the error. */
  ghost predicate Answers(outcome: Outcome, entries: map<string, Entry>, key: string, result: Result)
  {
    && (outcome.Fetched? ==> result == Content(outcome.content))
    && (outcome.FetchFailed? && key in entries ==> result == Content(entries[key].content))
    && (outcome.FetchFailed? && key !in entries ==> result == Failure(outcome.message))
  }

  /** Completing a call answers its leader once, records the result for the waiters and, on success
      only, makes the fetched content the key's entry as of the leader's clock reading. */
  lemma CompletionAnswers(states: seq<State>, steps: seq<Step>, i: nat)
    requires Run(states, steps) && i < |steps| && steps[i].Complete?
    ensures steps[i].id in states[i].requests && states[i].requests[steps[i].id].Leading?
    ensures var s, t, id, outcome := states[i], states[i + 1], steps[i].id, steps[i].outcome;
      var r := s.requests[id];
      && r.call < |s.calls| == |t.calls| && t.calls[r.call].result.Some?
      && Answers(outcome, s.entries, r.key, t.calls[r.call].result.value)
      && t.replies == s.replies + [Reply(r.key, FromCall(r.call), t.calls[r.call].result.value)]
      && t.requests == s.requests - {id} && t.pending == s.pending - {r.key}
      && t.entries == (if outcome.Fetched? then s.entries[r.key := Entry(outcome.content, r.now)] else s.entries)
  {
    RunKeepsInv(states, steps, i);
    assert FrozenInv(states[i]);
    hide Inv, FrozenInv;
  }

  /** A call that has its result keeps it. */
  lemma {:induction false} ResultsStay(states: seq<State>, steps: seq<Step>, i: nat, j: nat, c: nat)
    requires Run(states, steps) && i <= j < |states| && c < |states[i].calls| && states[i].calls[c].result.Some?
    ensures c < |states[j].calls| && states[j].calls[c] == states[i].calls[c]
  {
    if i < j {
      ResultsStay(states, steps, i, j - 1, c);
      RunKeepsInv(states, steps, j - 1);
      ResultStaysOneStep(states[j - 1], steps[j - 1], c);
    }
  }

  lemma ResultStaysOneStep(s: State, step: Step, c: nat)
    requires Inv(s) && Enabled(s, step) && c < |s.calls| && s.calls[c].result.Some?
    ensures c < |Next(s, step).calls| && Next(s, step).calls[c] == s.calls[c]
  {
    if step.Complete? {
      var r := s.requests[step.id];
      assert s.calls[r.call].result.None?;
    }
  }

  /** Every request answered from a call, the leader and each waiter whenever it wakes, gets what
      the call's fetch yielded: after a successful fetch, the content that was fetched. */
  lemma CallAnswersWithItsFetch(states: seq<State>, steps: seq<Step>, i: nat, j: nat, a: nat)
    requires Run(states, steps) && i < |steps| && steps[i].Complete? && i < j < |states|
    requires a < |states[j].replies| && steps[i].id in states[i].requests && states[i].requests[steps[i].id].Leading?
    requires states[j].replies[a].source == FromCall(states[i].requests[steps[i].id].call)
    ensures Answers(steps[i].outcome, states[i].entries, states[i].requests[steps[i].id].key, states[j].replies[a].result)
    ensures states[j].replies[a].key == states[i].requests[steps[i].id].key
  {
    CompletionAnswers(states, steps, i);
    ResultsStay(states, steps, i + 1, j, states[i].requests[steps[i].id].call);
    RunKeepsInv(states, steps, j);
    assert Backed(states[j], states[j].replies[a]);
    RunKeepsInv(states, steps, i + 1);
    assert Backed(states[i + 1], states[i + 1].replies[|states[i].replies|]);
    hide Answers, Inv;
  }

  /** A waiter that wakes or gives up leaves the cache alone and is answered once. */
  lemma WaiterLeavesTheCacheAlone(states: seq<State>, steps: seq<Step>, i: nat)
    requires Run(states, steps) && i < |steps| && (steps[i].Wake? || steps[i].Cancel?)
    ensures var s, t, id := states[i], states[i + 1], steps[i].id;
      && id in s.requests && s.requests[id].Waiting? && s.requests[id].call < |s.calls|
      && t.entries == s.entries && t.pending == s.pending && t.calls == s.calls && t.requests == s.requests - {id}
      && |t.replies| == |s.replies| + 1 && s.replies <= t.replies && t.replies[|s.replies|].key == s.requests[id].key
      && t.replies[|s.replies|].source == (if steps[i].Wake? then FromCall(s.requests[id].call) else Cancelled)
      && (steps[i].Wake? ==> s.calls[s.requests[id].call].result == Some(t.replies[|s.replies|].result))
  {
    RunKeepsInv(states, steps, i);
  }
}
