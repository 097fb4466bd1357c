/** The advisory cache as it is written: entries and pending calls in maps under one mutex, and
    calls shared by pointer between a leader and its waiters. Each critical section is proved
    to be the corresponding step of ChangelogProtocol. */
module ChangelogCache {
  import opened Orders
  import opened OpenShiftTypes
  import opened ChangelogProtocol

  /** A fetch under way; `result` is set when its channel is closed. */
  class ChangelogCall {
    ghost const id: nat
    ghost const key: string
    ghost const leader: nat
    var result: Option<Result>

    constructor (ghost id: nat, ghost key: string, ghost leader: nat)
      ensures this.id == id && this.key == key && this.leader == leader && result == None
    {
      this.id, this.key, this.leader := id, key, leader;
      result := None;
    }

    ghost function View(): Call
      reads this
    {
      Call(key, leader, result)
    }
  }

  /** What the first critical section decides for a request. */
  datatype Arrival = Hit(content: Text) | Join(call: ChangelogCall) | Lead(call: ChangelogCall, stale: Option<Entry>)

  ghost function Views(calls: seq<ChangelogCall>): seq<Call>
    reads calls
  {
    seq(|calls|, i requires 0 <= i < |calls| reads calls => calls[i].View())
  }

  class ChangelogCache {
    var entries: map<string, Entry>
    var pending: map<string, ChangelogCall>
    ghost var calls: seq<ChangelogCall>
    ghost var pendingIds: map<string, nat>
    ghost var requests: map<nat, Request>
    ghost var stored: seq<Store>
    ghost var replies: seq<Reply>

    /** Calls are distinct objects, and the map points at the calls its keys are waiting for. */
    ghost predicate Valid()
      reads this`calls, this`pending, this`pendingIds
    {
      && (forall i :: 0 <= i < |calls| ==> calls[i].id == i)
      && pending.Keys == pendingIds.Keys
      && (forall k :: k in pendingIds ==> pendingIds[k] < |calls| && calls[pendingIds[k]] == pending[k])
    }

    ghost function Calls(): seq<Call>
      reads this`calls, calls
    {
      Views(calls)
    }

    ghost function View(): State
      reads this, calls
    {
      State(entries, pendingIds, Calls(), requests, stored, replies)
    }

    /** call is the one this request leads or waits for. */
    ghost predicate Holds(id: nat, call: ChangelogCall)
      reads this`requests, this`calls
    {
      id in requests && requests[id].call < |calls| && calls[requests[id].call] == call
    }

    constructor ()
      ensures Valid() && Init(View())
    {
      entries, pending := map[], map[];
      calls, pendingIds, requests, stored, replies := [], map[], map[], [], [];
    }

    /** The first critical section of cachedChangelog, after the clock was read. */
    method Arrive(ghost id: nat, key: string, now: int) returns (r: Arrival)
      requires Valid() && id !in requests
      modifies this`pending, this`calls, this`pendingIds, this`requests, this`replies
      ensures Valid() && View() == ArriveAt(old(View()), id, key, now)
      ensures r.Hit? <==> key in entries && now - entries[key].fetchedAt < 6 * 60 * 60 * 1_000_000_000
      ensures r.Hit? ==> id !in requests && r.content == entries[key].content
      ensures r.Join? ==> Holds(id, r.call) && requests[id].Waiting?
      ensures r.Lead? ==> Holds(id, r.call) && requests[id] == Leading(key, requests[id].call, now, r.stale)
      ensures r.Lead? ==> r.stale == if key in entries then Some(entries[key]) else None
    {
      if key in entries && now - entries[key].fetchedAt < CHANGELOG_CACHE_TTL {
        replies := replies + [Reply(key, Cached, Content(entries[key].content))];
        return Hit(entries[key].content);
      }
      if key in pending {
        requests := requests[id := Waiting(key, pendingIds[key])];
        return Join(pending[key]);
      }
      var stale := if key in entries then Some(entries[key]) else None;
      var call := StartCall(id, key, now, stale);
      return Lead(call, stale);
    }

    method StartCall(ghost id: nat, key: string, ghost now: int, ghost stale: Option<Entry>) returns (call: ChangelogCall)
      requires Valid() && id !in requests && key !in pending
      modifies this`pending, this`calls, this`pendingIds, this`requests
      ensures Valid() && calls == old(calls) + [call]
      ensures Calls() == old(Calls()) + [Call(key, id, None)]
      ensures pendingIds == old(pendingIds)[key := |old(calls)|]
      ensures requests == old(requests)[id := Leading(key, |old(calls)|, now, stale)]
    {
      ghost var before := Calls();
      call := new ChangelogCall(|calls|, key, id);
      pending := pending[key := call];
      pendingIds := pendingIds[key := |calls|];
      requests := requests[id := Leading(key, |calls|, now, stale)];
      calls := calls + [call];
      assert Calls() == before + [Call(key, id, None)];
    }

    /** The leader's second critical section, with the fetch's outcome as an input. */
    method Complete(ghost id: nat, key: string, call: ChangelogCall, now: int, stale: Option<Entry>, outcome: Outcome)
      returns (result: Result)
      requires Valid() && Holds(id, call) && requests[id] == Leading(key, requests[id].call, now, stale)
      modifies this`entries, this`pending, this`pendingIds, this`requests, this`stored, this`replies, call`result
      ensures Valid() && View() == CompleteCall(old(View()), id, outcome)
      ensures call.result == Some(result)
      ensures outcome.Fetched? ==> result == Content(outcome.content)
      ensures outcome.Fetched? ==> entries == old(entries)[key := Entry(outcome.content, now)]
      ensures outcome.FetchFailed? ==> entries == old(entries)
      ensures outcome.FetchFailed? ==>
        result == if stale.Some? then Content(stale.value.content) else Failure(outcome.message)
    {
      ghost var before, c := View(), requests[id].call;
      result := match outcome
        case Fetched(content) => Content(content)
        case FetchFailed(message) => if stale.Some? then Content(stale.value.content) else Failure(message);
      pending, pendingIds := pending - {key}, pendingIds - {key};
      if outcome.Fetched? {
        entries := entries[key := Entry(outcome.content, now)];
        stored := stored + [Store(key, outcome.content, now)];
      }
      call.result := Some(result);
      requests, replies := requests - {id}, replies + [Reply(key, FromCall(c), result)];
      assert Calls() == before.calls[c := before.calls[c].(result := Some(result))];
    }

    /** A waiter whose call's channel was closed. */
    method Wake(ghost id: nat, call: ChangelogCall) returns (result: Result)
      requires Valid() && Holds(id, call) && requests[id].Waiting? && call.result.Some?
      modifies this`requests, this`replies
      ensures Valid() && View() == WakeUp(old(View()), id)
      ensures Some(result) == call.result
    {
      result := call.result.value;
      ghost var r := requests[id];
      requests, replies := requests - {id}, replies + [Reply(r.key, FromCall(r.call), result)];
    }
  }
}
