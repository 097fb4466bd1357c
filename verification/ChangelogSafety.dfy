/** What every interleaving of requests to the advisory cache keeps. */
module ChangelogSafety {
  import opened Orders
  import opened OpenShiftTypes
  import opened ChangelogProtocol

  // ---- The invariant

  /** The request that fetches for a pending key is the one its call names, and conversely. */
  ghost predicate LeadersInv(pending: map<string, nat>, calls: seq<Call>, requests: map<nat, Request>)
  {
    && (forall k :: k in pending ==> pending[k] < |calls| && LeadsFor(calls[pending[k]], requests, k, pending[k]))
    && (forall id :: id in requests && requests[id].Leading? ==>
          var r := requests[id];
          && r.key in pending && pending[r.key] == r.call
          && r.call < |calls| && calls[r.call].leader == id && calls[r.call].key == r.key)
  }

  ghost predicate LeadsFor(call: Call, requests: map<nat, Request>, key: string, c: nat)
  {
    && call.key == key && call.leader in requests
    && requests[call.leader].Leading? && requests[call.leader].key == key && requests[call.leader].call == c
  }

  /** Requests wait for calls of their own key, and a call without a result is still pending. */
  ghost predicate CallsInv(pending: map<string, nat>, calls: seq<Call>, requests: map<nat, Request>)
  {
    && (forall id :: id in requests && requests[id].Waiting? ==>
          requests[id].call < |calls| && calls[requests[id].call].key == requests[id].key)
    && (forall c :: 0 <= c < |calls| && calls[c].result.None? ==> Find(pending, calls[c].key) == Some(c))
    && (forall k :: k in pending && pending[k] < |calls| ==> calls[pending[k]].result.None?)
  }

  /** A leader's key still has the expired entry, or no entry, that the leader saw. */
  ghost predicate FrozenInv(s: State)
  {
    forall id :: id in s.requests && s.requests[id].Leading? ==>
      var r := s.requests[id]; Find(s.entries, r.key) == r.stale && !Fresh(r.stale, r.now)
  }

  /** The last store of a key. */
  function Latest(stored: seq<Store>, key: string): Option<Entry>
  {
    if stored == [] then None
    else
      var n := |stored| - 1;
      if stored[n].key == key then Some(Entry(stored[n].content, stored[n].fetchedAt)) else Latest(stored[..n], key)
  }

  /** Every store replaces an entry that had expired when the new content was requested. */
  ghost predicate Spaced(stored: seq<Store>)
  {
    stored == [] ||
    var n := |stored| - 1;
    Spaced(stored[..n]) && !Fresh(Latest(stored[..n], stored[n].key), stored[n].fetchedAt)
  }

  ghost predicate EntriesInv(s: State)
  {
    (forall k :: Find(s.entries, k) == Latest(s.stored, k)) && Spaced(s.stored)
  }

  ghost predicate WasStored(stored: seq<Store>, key: string, text: Text)
  {
    exists i :: 0 <= i < |stored| && stored[i].key == key && stored[i].content == text
  }

  ghost predicate ResultsInv(s: State)
  {
    && (forall c :: 0 <= c < |s.calls| && s.calls[c].result.Some? && s.calls[c].result.value.Content? ==>
          WasStored(s.stored, s.calls[c].key, s.calls[c].result.value.text))
    && (forall i :: 0 <= i < |s.replies| ==> Backed(s, s.replies[i]))
  }

  /** A reply repeats its call's result, and content comes from a fetch stored for its key. */
  ghost predicate Backed(s: State, reply: Reply)
  {
    && (reply.result.Content? ==> WasStored(s.stored, reply.key, reply.result.text))
    && (reply.source.FromCall? ==>
          && reply.source.call < |s.calls| && s.calls[reply.source.call].key == reply.key
          && s.calls[reply.source.call].result == Some(reply.result))
    && (reply.source.Cached? ==> reply.result.Content?)
  }

  ghost predicate Inv(s: State)
  {
    && LeadersInv(s.pending, s.calls, s.requests) && CallsInv(s.pending, s.calls, s.requests)
    && FrozenInv(s) && EntriesInv(s) && ResultsInv(s)
  }

  // ---- Each step keeps it

  lemma LatestAfterStore(stored: seq<Store>, store: Store, key: string)
    ensures Latest(stored + [store], key)
         == if store.key == key then Some(Entry(store.content, store.fetchedAt)) else Latest(stored, key)
  {
    assert (stored + [store])[..|stored|] == stored;
  }

  lemma {:induction false} LatestWasStored(stored: seq<Store>, key: string)
    requires Latest(stored, key).Some?
    ensures WasStored(stored, key, Latest(stored, key).value.content)
  {
    var n := |stored| - 1;
    if stored[n].key != key {
      LatestWasStored(stored[..n], key);
      var i :| 0 <= i < n && stored[..n][i].key == key && stored[..n][i].content == Latest(stored, key).value.content;
      assert stored[i].key == key;
    }
  }

  lemma StillStored(stored: seq<Store>, more: seq<Store>, key: string, text: Text)
    requires WasStored(stored, key, text) && stored <= more
    ensures WasStored(more, key, text)
  {
    var i :| 0 <= i < |stored| && stored[i].key == key && stored[i].content == text;
    assert more[i] == stored[i];
  }

  lemma StillBacked(s: State, t: State, reply: Reply)
    requires Backed(s, reply) && s.stored <= t.stored && |s.calls| <= |t.calls|
    requires forall c :: 0 <= c < |s.calls| && s.calls[c].result.Some? ==> t.calls[c] == s.calls[c]
    ensures Backed(t, reply)
  {
    if reply.result.Content? { StillStored(s.stored, t.stored, reply.key, reply.result.text); }
  }

  lemma JoinKeepsCalls(pending: map<string, nat>, calls: seq<Call>, requests: map<nat, Request>, id: nat, key: string)
    requires LeadersInv(pending, calls, requests) && CallsInv(pending, calls, requests)
    requires id !in requests && key in pending
    ensures var joined := requests[id := Waiting(key, pending[key])];
      LeadersInv(pending, calls, joined) && CallsInv(pending, calls, joined)
  {
    var joined := requests[id := Waiting(key, pending[key])];
    forall k | k in pending ensures LeadsFor(calls[pending[k]], joined, k, pending[k]) {
      assert LeadsFor(calls[pending[k]], requests, k, pending[k]);
    }
  }

  lemma LeadKeepsLeaders(pending: map<string, nat>, calls: seq<Call>, requests: map<nat, Request>, id: nat, r: Request)
    requires LeadersInv(pending, calls, requests)
    requires id !in requests && r.Leading? && r.key !in pending && r.call == |calls|
    ensures LeadersInv(pending[r.key := |calls|], calls + [Call(r.key, id, None)], requests[id := r])
  {
    var p, c, q := pending[r.key := |calls|], calls + [Call(r.key, id, None)], requests[id := r];
    forall k | k in p ensures LeadsFor(c[p[k]], q, k, p[k]) {
      if k != r.key { assert LeadsFor(calls[pending[k]], requests, k, pending[k]); }
    }
  }

  lemma LeadKeepsCalls(pending: map<string, nat>, calls: seq<Call>, requests: map<nat, Request>, id: nat, r: Request)
    requires CallsInv(pending, calls, requests) && forall k :: k in pending ==> pending[k] < |calls|
    requires id !in requests && r.Leading? && r.key !in pending && r.call == |calls|
    ensures CallsInv(pending[r.key := |calls|], calls + [Call(r.key, id, None)], requests[id := r])
  {
    var c := calls + [Call(r.key, id, None)];
    assert forall i :: 0 <= i < |calls| ==> c[i] == calls[i];
  }

  lemma ArriveKeepsCalls(s: State, id: nat, key: string, now: int)
    requires Inv(s) && id !in s.requests
    ensures var t := ArriveAt(s, id, key, now);
      LeadersInv(t.pending, t.calls, t.requests) && CallsInv(t.pending, t.calls, t.requests)
  {
    hide Fresh, FrozenInv, EntriesInv, ResultsInv, CallsInv;
    if key in s.pending {
      JoinKeepsCalls(s.pending, s.calls, s.requests, id, key);
    } else {
      var r := Leading(key, |s.calls|, now, Find(s.entries, key));
      LeadKeepsLeaders(s.pending, s.calls, s.requests, id, r);
      LeadKeepsCalls(s.pending, s.calls, s.requests, id, r);
    }
  }

  lemma ArriveKeepsResults(s: State, id: nat, key: string, now: int)
    requires EntriesInv(s) && ResultsInv(s)
    ensures ResultsInv(ArriveAt(s, id, key, now))
  {
    var t := ArriveAt(s, id, key, now);
    if Fresh(Find(s.entries, key), now) { LatestWasStored(s.stored, key); }
    forall i | 0 <= i < |t.replies| ensures Backed(t, t.replies[i]) {
      if i < |s.replies| { StillBacked(s, t, s.replies[i]); }
    }
  }

  lemma ArriveKeepsInv(s: State, id: nat, key: string, now: int)
    requires Inv(s) && id !in s.requests
    ensures Inv(ArriveAt(s, id, key, now))
  {
    assert FrozenInv(ArriveAt(s, id, key, now));
    hide LeadersInv, CallsInv, FrozenInv, ResultsInv;
    ArriveKeepsCalls(s, id, key, now);
    ArriveKeepsResults(s, id, key, now);
  }

  lemma EndKeepsLeaders(pending: map<string, nat>, calls: seq<Call>, requests: map<nat, Request>, id: nat, result: Result)
    requires LeadersInv(pending, calls, requests) && id in requests && requests[id].Leading?
    ensures var r := requests[id];
      LeadersInv(pending - {r.key}, calls[r.call := calls[r.call].(result := Some(result))], requests - {id})
  {
    var r := requests[id];
    var c := calls[r.call := calls[r.call].(result := Some(result))];
    forall k | k in pending - {r.key} ensures LeadsFor(c[pending[k]], requests - {id}, k, pending[k]) {
      assert LeadsFor(calls[pending[k]], requests, k, pending[k]);
    }
  }

  lemma EndKeepsCalls(pending: map<string, nat>, calls: seq<Call>, requests: map<nat, Request>, id: nat, result: Result)
    requires LeadersInv(pending, calls, requests) && CallsInv(pending, calls, requests)
    requires id in requests && requests[id].Leading?
    ensures var r := requests[id];
      CallsInv(pending - {r.key}, calls[r.call := calls[r.call].(result := Some(result))], requests - {id})
  {
    var r := requests[id];
    var p, c := pending - {r.key}, calls[r.call := calls[r.call].(result := Some(result))];
    assert forall k :: k in p ==> pending[k] != r.call by {
      forall k | k in p ensures pending[k] != r.call {
        assert LeadsFor(calls[pending[k]], requests, k, pending[k]);
      }
    }
  }

  lemma CompleteKeepsEntries(s: State, id: nat, outcome: Outcome)
    requires Inv(s) && Enabled(s, Complete(id, outcome))
    ensures EntriesInv(CompleteCall(s, id, outcome)) && FrozenInv(CompleteCall(s, id, outcome))
  {
    var r, t := s.requests[id], CompleteCall(s, id, outcome);
    if outcome.Fetched? {
      var store := Store(r.key, outcome.content, r.now);
      assert t.stored[..|s.stored|] == s.stored;
      forall k ensures Find(t.entries, k) == Latest(t.stored, k) { LatestAfterStore(s.stored, store, k); }
    }
  }

  lemma CompleteKeepsResults(s: State, id: nat, outcome: Outcome)
    requires Inv(s) && Enabled(s, Complete(id, outcome))
    ensures ResultsInv(CompleteCall(s, id, outcome))
  {
    var r, t := s.requests[id], CompleteCall(s, id, outcome);
    var result := Answer(r.stale, outcome);
    assert s.calls[r.call].result.None?;
    if outcome.Fetched? {
      assert t.stored[|s.stored|] == Store(r.key, outcome.content, r.now);
    } else if r.stale.Some? {
      LatestWasStored(s.stored, r.key);
    }
    assert result.Content? ==> WasStored(t.stored, r.key, result.text);
    forall c | 0 <= c < |t.calls| && t.calls[c].result.Some? && t.calls[c].result.value.Content?
      ensures WasStored(t.stored, t.calls[c].key, t.calls[c].result.value.text)
    {
      if c != r.call { StillStored(s.stored, t.stored, t.calls[c].key, t.calls[c].result.value.text); }
    }
    forall i | 0 <= i < |t.replies| ensures Backed(t, t.replies[i]) {
      if i < |s.replies| { StillBacked(s, t, s.replies[i]); }
    }
  }

  lemma CompleteKeepsInv(s: State, id: nat, outcome: Outcome)
    requires Inv(s) && Enabled(s, Complete(id, outcome))
    ensures Inv(CompleteCall(s, id, outcome))
  {
    hide LeadersInv, CallsInv, FrozenInv, EntriesInv, ResultsInv, Answer;
    EndKeepsLeaders(s.pending, s.calls, s.requests, id, Answer(s.requests[id].stale, outcome));
    EndKeepsCalls(s.pending, s.calls, s.requests, id, Answer(s.requests[id].stale, outcome));
    CompleteKeepsEntries(s, id, outcome);
    CompleteKeepsResults(s, id, outcome);
  }

  lemma LeaveKeepsInv(s: State, step: Step)
    requires Inv(s) && Enabled(s, step) && (step.Wake? || step.Cancel?)
    ensures Inv(Next(s, step))
  {
    var t := Next(s, step);
    LeaveKeepsLeaders(s.pending, s.calls, s.requests, step.id);
    hide LeadersInv, CallsInv, EntriesInv;
    forall i | 0 <= i < |t.replies| ensures Backed(t, t.replies[i]) {
      if i < |s.replies| { StillBacked(s, t, s.replies[i]); }
    }
  }

  lemma LeaveKeepsLeaders(pending: map<string, nat>, calls: seq<Call>, requests: map<nat, Request>, id: nat)
    requires LeadersInv(pending, calls, requests) && CallsInv(pending, calls, requests)
    requires id in requests && requests[id].Waiting?
    ensures LeadersInv(pending, calls, requests - {id}) && CallsInv(pending, calls, requests - {id})
  {
    forall k | k in pending ensures LeadsFor(calls[pending[k]], requests - {id}, k, pending[k]) {
      assert LeadsFor(calls[pending[k]], requests, k, pending[k]);
    }
  }

  lemma NextKeepsInv(s: State, step: Step)
    requires Inv(s) && Enabled(s, step)
    ensures Inv(Next(s, step))
  {
    hide Inv, ArriveAt, CompleteCall, WakeUp, GiveUp;
    match step
    case Arrive(id, key, now) => ArriveKeepsInv(s, id, key, now);
    case Complete(id, outcome) => CompleteKeepsInv(s, id, outcome);
    case _ => LeaveKeepsInv(s, step);
  }

  lemma {:induction false} RunKeepsInv(states: seq<State>, steps: seq<Step>, i: nat)
    requires Run(states, steps) && i < |states|
    ensures Inv(states[i])
  {
    hide Next, Enabled;
    if i > 0 {
      RunKeepsInv(states, steps, i - 1);
      hide Inv;
      NextKeepsInv(states[i - 1], steps[i - 1]);
    }
  }

  // ---- What follows for every run

  /** At most one request fetches for a key at a time. */
  lemma SingleFlight(states: seq<State>, steps: seq<Step>, i: nat, a: nat, b: nat)
    requires Run(states, steps) && i < |states|
    requires a in states[i].requests && states[i].requests[a].Leading?
    requires b in states[i].requests && states[i].requests[b].Leading?
    requires states[i].requests[a].key == states[i].requests[b].key
    ensures a == b
  {
    RunKeepsInv(states, steps, i);
  }

  /** An entry changes only when its key's leader completes a successful fetch, and only after
      it had expired by the leader's clock. Waiting, cancelling and failing never touch it. */
  lemma OnlyTheLeaderReplacesAnEntry(states: seq<State>, steps: seq<Step>, i: nat, key: string)
    requires Run(states, steps) && i < |steps|
    requires Find(states[i + 1].entries, key) != Find(states[i].entries, key)
    ensures steps[i].Complete? && steps[i].outcome.Fetched?
    ensures var r := states[i].requests[steps[i].id];
      && r.key == key && r.stale == Find(states[i].entries, key) && !Fresh(r.stale, r.now)
      && Find(states[i + 1].entries, key) == Some(Entry(steps[i].outcome.content, r.now))
  {
    RunKeepsInv(states, steps, i);
    var s := states[i];
    assert FrozenInv(s);
    hide Inv;
  }

  /** Any two stores of one key are at least the TTL apart, in whatever order the requests that
      made them read the clock. */
  lemma StoresAreSpaced(states: seq<State>, steps: seq<Step>, i: nat, a: nat, b: nat)
    requires Run(states, steps) && i < |states|
    requires a < b < |states[i].stored| && states[i].stored[a].key == states[i].stored[b].key
    ensures states[i].stored[b].fetchedAt - states[i].stored[a].fetchedAt >= CHANGELOG_CACHE_TTL
  {
    RunKeepsInv(states, steps, i);
    SpacedApart(states[i].stored, a, b);
  }

  lemma {:induction false} SpacedApart(stored: seq<Store>, a: nat, b: nat)
    requires Spaced(stored) && a < b < |stored| && stored[a].key == stored[b].key
    ensures stored[b].fetchedAt - stored[a].fetchedAt >= CHANGELOG_CACHE_TTL
  {
    var n := |stored| - 1;
    if b < n {
      SpacedApart(stored[..n], a, b);
    } else {
      LatestAtLeast(stored[..n], a);
    }
  }

  lemma {:induction false} LatestAtLeast(stored: seq<Store>, a: nat)
    requires Spaced(stored) && a < |stored|
    ensures Latest(stored, stored[a].key).Some?
    ensures Latest(stored, stored[a].key).value.fetchedAt >= stored[a].fetchedAt
  {
    var n := |stored| - 1;
    if a < n { LatestAtLeast(stored[..n], a); }
  }

  /** Every reply from one call carries the same result, the leader's as well as the waiters'. */
  lemma WaitersShareTheResult(states: seq<State>, steps: seq<Step>, i: nat, a: nat, b: nat)
    requires Run(states, steps) && i < |states| && a < |states[i].replies| && b < |states[i].replies|
    requires states[i].replies[a].source.FromCall? && states[i].replies[a].source == states[i].replies[b].source
    ensures states[i].replies[a] == states[i].replies[b]
  {
    RunKeepsInv(states, steps, i);
    assert Backed(states[i], states[i].replies[a]) && Backed(states[i], states[i].replies[b]);
  }

  /** Content is only ever content that a successful fetch for the same key produced. */
  lemma RepliesCarryStoredContent(states: seq<State>, steps: seq<Step>, i: nat, a: nat)
    requires Run(states, steps) && i < |states| && a < |states[i].replies| && states[i].replies[a].result.Content?
    ensures WasStored(states[i].stored, states[i].replies[a].key, states[i].replies[a].result.text)
  {
    RunKeepsInv(states, steps, i);
    assert Backed(states[i], states[i].replies[a]);
  }

  /** A failed fetch answers with the key's current entry, however old, and reports the error
      exactly when the key has none; it leaves every entry as it was. */
  lemma FailureServesTheCurrentEntry(states: seq<State>, steps: seq<Step>, i: nat)
    requires Run(states, steps) && i < |steps| && steps[i].Complete? && steps[i].outcome.FetchFailed?
    ensures var s, t, key := states[i], states[i + 1], states[i].requests[steps[i].id].key;
      && t.entries == s.entries && t.stored == s.stored && |t.replies| == |s.replies| + 1
      && t.replies[|s.replies|].result
         == if key in s.entries then Content(s.entries[key].content) else Failure(steps[i].outcome.message)
  {
    RunKeepsInv(states, steps, i);
    assert FrozenInv(states[i]);
  }

  /** No waiter is stranded: its call has a result, or the call's leader is still at work. */
  lemma NoWaiterIsStranded(states: seq<State>, steps: seq<Step>, i: nat, id: nat, outcome: Outcome)
    requires Run(states, steps) && i < |states| && id in states[i].requests && states[i].requests[id].Waiting?
    ensures states[i].requests[id].call < |states[i].calls|
    ensures Enabled(states[i], Wake(id))
      || Enabled(states[i], Complete(states[i].calls[states[i].requests[id].call].leader, outcome))
  {
    RunKeepsInv(states, steps, i);
    var s := states[i];
    var call := s.requests[id].call;
    if s.calls[call].result.None? {
      assert Find(s.pending, s.calls[call].key) == Some(call);
      assert LeadsFor(s.calls[call], s.requests, s.calls[call].key, call);
    }
  }

  // ---- Keys

  /** The cache key of an advisory at an errata endpoint. */
  function CacheKey(base: string, advisoryID: string): string
  {
    base + "\0" + advisoryID
  }

  /** No two advisories, and no two endpoints, share an entry: identifiers hold no NUL. */
  lemma {:induction false} CacheKeyIsInjective(base: string, id: string, otherBase: string, otherID: string)
    requires '\0' !in id && '\0' !in otherID
    requires CacheKey(base, id) == CacheKey(otherBase, otherID)
    ensures base == otherBase && id == otherID
  {
    var key := CacheKey(base, id);
    assert forall i :: |base| < i < |key| ==> key[i] == id[i - |base| - 1];
    assert forall i :: |otherBase| < i < |key| ==> key[i] == otherID[i - |otherBase| - 1];
    assert key[|base|] == '\0' && key[|otherBase|] == '\0';
    assert base == key[..|base|] && id == key[|base| + 1..];
    assert otherBase == key[..|otherBase|] && otherID == key[|otherBase| + 1..];
  }
}
