/** What every interleaving of lookups and reloads keeps. */
module LookupSafety {
  import opened Orders
  import opened OpenShiftTypes
  import opened LookupProtocol

  // ---- Counting the lookups that hold a record

  lemma WaitersAfterBegin(active: map<nat, Ticket>, a: nat, ticket: Ticket, r: UpdateRequest)
    requires a !in active
    ensures Waiters(active[a := ticket], r) == if r == ticket.req then Waiters(active, r) + {a} else Waiters(active, r)
    ensures |Waiters(active[a := ticket], r)| == |Waiters(active, r)| + if r == ticket.req then 1 else 0
  {
    assert a !in Waiters(active, r);
    assert Waiters(active[a := ticket], r) == if r == ticket.req then Waiters(active, r) + {a} else Waiters(active, r);
  }

  lemma WaitersAfterLeave(active: map<nat, Ticket>, a: nat, r: UpdateRequest)
    requires a in active
    ensures a in Waiters(active, active[a].req)
    ensures Waiters(active - {a}, r) == Waiters(active, r) - {a}
    ensures |Waiters(active - {a}, r)| == |Waiters(active, r)| - if r == active[a].req then 1 else 0
  {
    assert Waiters(active - {a}, r) == Waiters(active, r) - {a};
    if r == active[a].req {
      assert a in Waiters(active, r);
    } else {
      assert Waiters(active - {a}, r) == Waiters(active, r);
    }
  }

  lemma ActiveHasRecord(s: State, a: nat)
    requires RecordsInv(s.inFlight, s.active) && a in s.active
    ensures s.active[a].req in s.inFlight
  {
    assert a in Waiters(s.active, s.active[a].req);
  }

  lemma BeginKeepsRecords(s: State, req: UpdateRequest, clientURL: string)
    requires RecordsInv(s.inFlight, s.active) && s.attempt + 1 !in s.active
    ensures var t := BeginLookup(s, req, clientURL); RecordsInv(t.inFlight, t.active)
  {
    var t := BeginLookup(s, req, clientURL);
    forall r
      ensures r in t.inFlight <==> Waiters(t.active, r) != {}
      ensures r in t.inFlight ==> t.inFlight[r].pending == |Waiters(t.active, r)|
    {
      WaitersAfterBegin(s.active, t.attempt, Ticket(req, s.generation, clientURL), r);
      assert req !in s.inFlight ==> Waiters(s.active, req) == {};
    }
  }

  lemma LeaveKeepsRecords(s: State, a: nat)
    requires RecordsInv(s.inFlight, s.active) && a in s.active
    ensures RecordsInv(Leave(s, a).inFlight, Leave(s, a).active)
  {
    var t := Leave(s, a);
    ActiveHasRecord(s, a);
    forall r
      ensures r in t.inFlight <==> Waiters(t.active, r) != {}
      ensures r in t.inFlight ==> t.inFlight[r].pending == |Waiters(t.active, r)|
    {
      WaitersAfterLeave(s.active, a, r);
    }
  }

  // ---- Each step keeps the invariant

  lemma BeginKeepsInv(s: State, req: UpdateRequest, clientURL: string)
    requires Inv(s)
    ensures Inv(BeginLookup(s, req, clientURL))
  {
    var t := BeginLookup(s, req, clientURL);
    BeginKeepsRecords(s, req, clientURL);
    assert MemoryInv(t) by {
      forall a | a in t.active ensures Remembered(t, a) {
        if a in s.active {
          assert Remembered(s, a);
          ActiveHasRecord(s, a);
        }
      }
    }
  }

  lemma ReloadKeepsInv(s: State, cfg: Config)
    requires Inv(s)
    ensures Inv(ReloadConfig(s, cfg))
  {
    var t := ReloadConfig(s, cfg);
    assert MemoryInv(t) by {
      forall a | a in t.active ensures Remembered(t, a) {
        assert Remembered(s, a);
      }
    }
  }

  lemma LeaveKeepsMemory(s: State, a: nat)
    requires MemoryInv(s) && a in s.active
    ensures MemoryInv(Leave(s, a))
  {
    var t := Leave(s, a);
    forall b | b in t.active ensures Remembered(t, b) {
      assert Remembered(s, b);
    }
  }

  lemma LeaveKeepsInv(s: State, a: nat)
    requires Inv(s) && a in s.active
    ensures Inv(Leave(s, a))
  {
    LeaveKeepsRecords(s, a);
    LeaveKeepsMemory(s, a);
  }

  /** The heart of the protocol: when the record and the snapshot show nothing newer, nothing
      newer was ever published for the key, however much has been evicted or cleared since. */
  lemma NothingNewerWasPublished(s: State, a: nat)
    requires Inv(s) && a in s.active && s.active[a].req in s.inFlight
    requires !NewerSucceeded(s, a) && Latest(s.published, s.active[a].req).Some?
    ensures Latest(s.published, s.active[a].req).value.attempt < a
  {
    assert Remembered(s, a);
  }

  lemma LatestAfterPublish(published: seq<Publication>, p: Publication, req: UpdateRequest)
    ensures Latest(published + [p], req) == if p.req == req then Some(p) else Latest(published, req)
    ensures Ordered(published + [p]) ==
            (Ordered(published) && (Latest(published, p.req).Some? ==> Latest(published, p.req).value.attempt < p.attempt))
  {
    assert (published + [p])[..|published|] == published;
  }

  lemma MakeRoomFits(snapshots: map<UpdateRequest, Snapshot>, req: UpdateRequest)
    requires |snapshots| <= MAX_OPENSHIFT_SNAPSHOTS
    ensures |MakeRoom(snapshots, req).Keys + {req}| <= MAX_OPENSHIFT_SNAPSHOTS
    ensures MakeRoom(snapshots, req).Keys <= snapshots.Keys
    ensures forall r :: r in MakeRoom(snapshots, req) ==> MakeRoom(snapshots, req)[r] == snapshots[r]
  {
    assert |snapshots| == |snapshots.Keys|;
    if req in snapshots {
      assert snapshots.Keys + {req} == snapshots.Keys;
    } else if |snapshots| >= MAX_OPENSHIFT_SNAPSHOTS {
      OldestExists(snapshots, snapshots.Keys);
      var victim := Oldest(snapshots);
      assert (snapshots - {victim}).Keys == snapshots.Keys - {victim};
      assert |snapshots.Keys - {victim}| == |snapshots.Keys| - 1;
    }
  }

  lemma {:induction false} OldestExists(snapshots: map<UpdateRequest, Snapshot>, keys: set<UpdateRequest>)
    requires keys != {} && keys <= snapshots.Keys
    ensures exists k :: k in keys && forall other :: other in keys ==> snapshots[k].attempt <= snapshots[other].attempt
    ensures keys == snapshots.Keys ==> exists k :: IsOldest(snapshots, k)
    decreases |keys|
  {
    var k :| k in keys;
    var best := k;
    if keys - {k} != {} {
      OldestExists(snapshots, keys - {k});
      var b :| b in keys - {k} && forall other :: other in keys - {k} ==> snapshots[b].attempt <= snapshots[other].attempt;
      if snapshots[b].attempt < snapshots[k].attempt {
        best := b;
      }
    }
    forall other | other in keys ensures snapshots[best].attempt <= snapshots[other].attempt {
      assert other == k || other in keys - {k};
    }
    if keys == snapshots.Keys {
      assert IsOldest(snapshots, best);
    }
  }

  lemma PublishKeepsSnapshots(s: State, a: nat, releases: seq<Release>, now: int)
    requires AttemptsInv(s) && SnapshotsInv(s) && a in s.active && s.active[a].req in s.inFlight && !Reconfigured(s, a)
    ensures SnapshotsInv(Publish(s, a, releases, now))
  {
    var req, p := s.active[a].req, Publish(s, a, releases, now);
    MakeRoomFits(s.snapshots, req);
    assert p.snapshots.Keys == MakeRoom(s.snapshots, req).Keys + {req};
    assert |p.snapshots| == |p.snapshots.Keys|;
    forall r | r in p.snapshots
      ensures Latest(p.published, r).Some?
      ensures var l := Latest(p.published, r).value;
              l.url == p.cfg.graphURL && p.snapshots[r] == Snapshot(l.releases, l.at, l.attempt)
      ensures r != req ==> p.snapshots[r].attempt != a
    {
      LatestAfterPublish(s.published, Publication(req, a, s.active[a].clientURL, releases, now), r);
    }
  }

  lemma PublishKeepsMemory(s: State, a: nat, releases: seq<Release>, now: int)
    requires MemoryInv(s) && a in s.active && s.active[a].req in s.inFlight
    ensures MemoryInv(Publish(s, a, releases, now))
  {
    var req, p := s.active[a].req, Publish(s, a, releases, now);
    forall r ensures Latest(p.published, r) == if r == req then Some(p.published[|s.published|]) else Latest(s.published, r) {
      LatestAfterPublish(s.published, p.published[|s.published|], r);
    }
    forall b | b in p.active ensures Remembered(p, b) {
      assert Remembered(s, b);
    }
  }

  lemma PublishKeepsInv(s: State, a: nat, releases: seq<Release>, now: int)
    requires Inv(s) && a in s.active && s.active[a].req in s.inFlight
    requires !Reconfigured(s, a) && !NewerSucceeded(s, a)
    ensures Inv(Leave(Publish(s, a, releases, now), a))
  {
    var req, p := s.active[a].req, Publish(s, a, releases, now);
    var t := Leave(p, a);
    PublishKeepsMemory(s, a, releases, now);
    LeaveKeepsMemory(p, a);
    PublishKeepsSnapshots(s, a, releases, now);
    assert RecordsInv(p.inFlight, p.active);
    LeaveKeepsRecords(p, a);
    if Latest(s.published, req).Some? {
      NothingNewerWasPublished(s, a);
    }
    LatestAfterPublish(s.published, p.published[|s.published|], req);
    assert AttemptsInv(t) by {
      forall r | Latest(t.published, r).Some?
        ensures var l := Latest(t.published, r).value; l.req == r && 0 < l.attempt <= t.attempt && l.attempt !in t.active
      {
        LatestAfterPublish(s.published, p.published[|s.published|], r);
      }
    }
  }

  lemma NextKeepsInv(s: State, step: Step)
    requires Inv(s) && Enabled(s, step)
    ensures Inv(Next(s, step))
  {
    match step
    case Begin(req, clientURL) => BeginKeepsInv(s, req, clientURL);
    case Reload(cfg) => ReloadKeepsInv(s, cfg);
    case Finish(a, outcome, now) =>
      if Reconfigured(s, a) || Complete(outcome).FetchFailed? || NewerSucceeded(s, a) {
        LeaveKeepsInv(s, a);
      } else {
        PublishKeepsInv(s, a, Complete(outcome).releases, now);
      }
  }

  lemma {:induction false} RunKeepsInv(states: seq<State>, steps: seq<Step>, n: nat)
    requires Run(states, steps) && n < |states|
    ensures Inv(states[n])
  {
    if n == 0 {
      InitHasInv(states[0]);
    } else {
      RunKeepsInv(states, steps, n - 1);
      NextKeepsInv(states[n - 1], steps[n - 1]);
    }
  }

  lemma InitHasInv(s: State)
    requires Init(s)
    ensures Inv(s)
  {
    assert forall r :: Waiters(s.active, r) == {};
  }

  lemma InvIsReadyToFinish(s: State, a: nat)
    requires Inv(s) && a in s.active
    ensures ReadyToFinish(s, a)
  {
    ActiveHasRecord(s, a);
    var holders := Waiters(s.active, s.active[a].req);
    assert a in holders;
    if |holders| == 1 {
      forall b | b in s.active && s.active[b].req == s.active[a].req ensures b == a {
        assert b in holders && |holders - {a}| == 0;
      }
    }
  }

  /** In every reachable state every active lookup can run its second section. */
  lemma RunsAreReadyToFinish(states: seq<State>, steps: seq<Step>, n: nat, a: nat)
    requires Run(states, steps) && n < |states| && a in states[n].active
    ensures ReadyToFinish(states[n], a)
  {
    RunKeepsInv(states, steps, n);
    InvIsReadyToFinish(states[n], a);
  }

  // ---- Safety over whole runs

  lemma {:induction false} LatestIsLast(published: seq<Publication>, req: UpdateRequest, i: nat)
    requires i < |published| && published[i].req == req
    ensures Latest(published, req).Some?
    ensures Ordered(published) ==> published[i].attempt <= Latest(published, req).value.attempt
    ensures Ordered(published) && i < |published| - 1 && published[|published| - 1].req == req ==>
              published[i].attempt < published[|published| - 1].attempt
  {
    var n := |published| - 1;
    if i < n {
      LatestIsLast(published[..n], req, i);
    }
  }

  lemma {:induction false} OrderedPrefix(published: seq<Publication>, n: nat)
    requires Ordered(published) && n <= |published|
    ensures Ordered(published[..n])
    decreases |published|
  {
    if n < |published| {
      OrderedPrefix(published[..|published| - 1], n);
      assert published[..|published| - 1][..n] == published[..n];
    } else {
      assert published[..n] == published;
    }
  }

  /** Attempts published for one lookup key strictly increase over the whole run, through
      evictions, and through the graph URL changing and changing back. */
  lemma PublishedAttemptsIncrease(states: seq<State>, steps: seq<Step>, n: nat, i: nat, j: nat)
    requires Run(states, steps) && n < |states|
    requires i < j < |states[n].published| && states[n].published[i].req == states[n].published[j].req
    ensures states[n].published[i].attempt < states[n].published[j].attempt
  {
    RunKeepsInv(states, steps, n);
    OrderedPrefix(states[n].published, j + 1);
    LatestIsLast(states[n].published[..j + 1], states[n].published[i].req, i);
  }

  /** The bounded memory of the service (a record that lives only while lookups overlap, and at
      most 128 snapshots) decides exactly as an unbounded memory of every publication would. */
  lemma BoundedMemoryDecidesLikeFullHistory(states: seq<State>, steps: seq<Step>, n: nat, a: nat)
    requires Run(states, steps) && n < |states| && a in states[n].active
    ensures var s := states[n]; var req := s.active[a].req;
      && req in s.inFlight
      && (NewerSucceeded(s, a) <==> exists i :: 0 <= i < |s.published| && s.published[i].req == req && s.published[i].attempt > a)
      && (NewerSucceeded(s, a) <==> s.inFlight[req].latestSuccess > a)
  {
    RunKeepsInv(states, steps, n);
    var s := states[n];
    var req := s.active[a].req;
    ActiveHasRecord(s, a);
    assert Remembered(s, a);
    if NewerSucceeded(s, a) {
      var i := LatestIndex(s.published, req);
      assert s.published[i].attempt > a;
    } else if i :| 0 <= i < |s.published| && s.published[i].req == req && s.published[i].attempt > a {
      LatestIsLast(s.published, req, i);
      NothingNewerWasPublished(s, a);
    }
  }

  lemma {:induction false} LatestIndex(published: seq<Publication>, req: UpdateRequest) returns (i: nat)
    requires Latest(published, req).Some?
    ensures i < |published| && published[i] == Latest(published, req).value && published[i].req == req
    ensures forall j :: i < j < |published| ==> published[j].req != req
  {
    var n := |published| - 1;
    if published[n].req == req {
      i := n;
    } else {
      i := LatestIndex(published[..n], req);
      assert forall j :: i < j < n ==> published[j] == published[..n][j];
    }
  }

  /** In-flight records are exactly those of the keys with active lookups, each counts them,
      retention is bounded, and no two retained results share an attempt. */
  lemma RecordsMirrorActiveLookups(states: seq<State>, steps: seq<Step>, n: nat)
    requires Run(states, steps) && n < |states|
    ensures var s := states[n];
      && (forall req :: req in s.inFlight <==> exists a :: a in s.active && s.active[a].req == req)
      && (forall req :: req in s.inFlight ==> s.inFlight[req].pending == |Waiters(s.active, req)| > 0)
      && |s.snapshots| <= MAX_OPENSHIFT_SNAPSHOTS
      && (forall q, r :: q in s.snapshots && r in s.snapshots && q != r ==> s.snapshots[q].attempt != s.snapshots[r].attempt)
  {
    RunKeepsInv(states, steps, n);
    var s := states[n];
    forall req ensures req in s.inFlight <==> exists a :: a in s.active && s.active[a].req == req {
      if req in s.inFlight {
        var a :| a in Waiters(s.active, req);
      }
      forall a | a in s.active && s.active[a].req == req ensures req in s.inFlight {
        ActiveHasRecord(s, a);
      }
    }
  }

  /** With every slot taken, publishing a new key gives up exactly the least retained attempt. */
  lemma EvictionDropsTheLeastAttempt(states: seq<State>, steps: seq<Step>, n: nat, req: UpdateRequest)
    requires Run(states, steps) && n < |states|
    requires req !in states[n].snapshots && |states[n].snapshots| == MAX_OPENSHIFT_SNAPSHOTS
    ensures var s := states[n]; exists victim ::
      && victim in s.snapshots && MakeRoom(s.snapshots, req) == s.snapshots - {victim}
      && forall k :: k in s.snapshots && k != victim ==> s.snapshots[victim].attempt < s.snapshots[k].attempt
  {
    RunKeepsInv(states, steps, n);
    var s := states[n];
    OldestExists(s.snapshots, s.snapshots.Keys);
    var victim := Oldest(s.snapshots);
    assert MakeRoom(s.snapshots, req) == s.snapshots - {victim};
  }

  /** The generation a state is in never goes back, and stands still only while the URL does. */
  lemma {:induction false} GenerationPinsTheURL(states: seq<State>, steps: seq<Step>, i: nat, j: nat)
    requires Run(states, steps) && i <= j < |states|
    ensures states[i].generation <= states[j].generation
    ensures states[i].generation == states[j].generation ==> states[i].cfg.graphURL == states[j].cfg.graphURL
  {
    if i < j {
      GenerationPinsTheURL(states, steps, i, j - 1);
      assert states[j] == Next(states[j - 1], steps[j - 1]);
    }
  }

  /** History is append-only. */
  lemma {:induction false} HistoryOnlyGrows(states: seq<State>, steps: seq<Step>, i: nat, j: nat)
    requires Run(states, steps) && i <= j < |states|
    ensures states[i].published <= states[j].published
  {
    if i < j {
      HistoryOnlyGrows(states, steps, i, j - 1);
      assert states[j] == Next(states[j - 1], steps[j - 1]);
    }
  }

  lemma StepKeepsTicket(s: State, step: Step, a: nat)
    requires Enabled(s, step) && a <= s.attempt && a in Next(s, step).active
    ensures a in s.active && Next(s, step).active[a] == s.active[a]
  {
  }

  /** A lookup remembers what was current at its Begin until its Finish. */
  lemma {:induction false} TicketsAreImmutable(states: seq<State>, steps: seq<Step>, i: nat, j: nat)
    requires Run(states, steps) && i < j < |states| && steps[i].Begin?
    requires states[i + 1].attempt in states[j].active
    ensures states[j].active[states[i + 1].attempt] == Ticket(steps[i].req, states[i].generation, steps[i].clientURL)
  {
    assert states[i + 1] == BeginLookup(states[i], steps[i].req, steps[i].clientURL);
    if i + 1 < j {
      AttemptsOnlyGrow(states, steps, i + 1, j - 1);
      StepKeepsTicket(states[j - 1], steps[j - 1], states[i + 1].attempt);
      TicketsAreImmutable(states, steps, i, j - 1);
    }
  }

  lemma {:induction false} AttemptsOnlyGrow(states: seq<State>, steps: seq<Step>, i: nat, j: nat)
    requires Run(states, steps) && i <= j < |states|
    ensures states[i].attempt <= states[j].attempt
  {
    if i < j {
      AttemptsOnlyGrow(states, steps, i, j - 1);
      assert states[j] == Next(states[j - 1], steps[j - 1]);
    }
  }

  ghost function ReplyAt(states: seq<State>, steps: seq<Step>, j: nat): Reply
    requires Run(states, steps) && j < |steps| && steps[j].Finish?
  {
    FinishLookup(states[j], steps[j].ticket, steps[j].outcome, steps[j].now).1
  }

  /** What a successful response is: the latest publication of its key at that moment, fetched
      from the URL configured now, within the age limit, and never older than a fetch that
      succeeded for this very lookup. */
  lemma ResponsesAreTheLatestPublication(states: seq<State>, steps: seq<Step>, j: nat)
    requires Run(states, steps) && j < |steps| && steps[j].Finish? && ReplyAt(states, steps, j).Served?
    ensures IsLatestPublication(states[j], states[j + 1], steps[j], ReplyAt(states, steps, j))
  {
    RunKeepsInv(states, steps, j);
    var s, a := states[j], steps[j].ticket;
    var complete := Complete(steps[j].outcome);
    if complete.Fetched? && !NewerSucceeded(s, a) {
      PublishedIsLatest(s, a, complete.releases, steps[j].now);
    } else {
      RetainedIsLatest(s, a, steps[j].now, if complete.FetchFailed? then UpstreamFailed else SnapshotExpired);
    }
  }

  ghost predicate IsLatestPublication(s: State, t: State, finish: Step, reply: Reply)
    requires finish.Finish? && finish.ticket in s.active && reply.Served?
  {
    var latest := Latest(t.published, s.active[finish.ticket].req);
    && latest.Some?
    && reply == Served(latest.value.releases, latest.value.at)
    && latest.value.url == t.cfg.graphURL == s.cfg.graphURL
    && finish.now - latest.value.at <= AgeLimit(t.cfg)
    && (Complete(finish.outcome).Fetched? ==> latest.value.attempt >= finish.ticket)
  }

  lemma PublishedIsLatest(s: State, a: nat, releases: seq<Release>, now: int)
    requires a in s.active && s.active[a].req in s.inFlight
    ensures var t := Leave(Publish(s, a, releases, now), a); var req := s.active[a].req;
      Latest(t.published, req) == Some(Publication(req, a, s.active[a].clientURL, releases, now))
  {
    LatestAfterPublish(s.published, Publication(s.active[a].req, a, s.active[a].clientURL, releases, now), s.active[a].req);
  }

  lemma RetainedIsLatest(s: State, a: nat, now: int, otherwise: Refusal)
    requires Inv(s) && a in s.active && s.active[a].req in s.inFlight
    requires Retained(s, s.active[a].req, now, otherwise).Served?
    ensures var latest := Latest(s.published, s.active[a].req);
      && latest.Some? && Retained(s, s.active[a].req, now, otherwise) == Served(latest.value.releases, latest.value.at)
      && latest.value.url == s.cfg.graphURL && now - latest.value.at <= AgeLimit(s.cfg)
      && (NewerSucceeded(s, a) ==> latest.value.attempt > a)
  {
  }

  /** No graph URL change falls inside a successful lookup: at every moment from its Begin to its
      Finish the configured URL is the one its client fetched from. */
  lemma SuccessSeesOneConfiguration(states: seq<State>, steps: seq<Step>, i: nat, j: nat, k: nat)
    requires Run(states, steps) && i < j < |steps| && steps[i].Begin? && steps[j].Finish?
    requires steps[j].ticket == states[i + 1].attempt && ReplyAt(states, steps, j).Served?
    requires i <= k <= j + 1
    ensures states[k].cfg.graphURL == steps[i].clientURL
  {
    TicketsAreImmutable(states, steps, i, j);
    assert states[j + 1] == Next(states[j], steps[j]);
    if k <= j {
      GenerationPinsTheURL(states, steps, i, k);
      GenerationPinsTheURL(states, steps, k, j);
    }
  }

  /** In finish order, responses for one key never go back to an earlier publication. */
  lemma ResponsesNeverGoBackwards(states: seq<State>, steps: seq<Step>, i: nat, j: nat) returns (p: nat, q: nat)
    requires Run(states, steps) && i < j < |steps| && steps[i].Finish? && steps[j].Finish?
    requires ReplyAt(states, steps, i).Served? && ReplyAt(states, steps, j).Served?
    requires states[i].active[steps[i].ticket].req == states[j].active[steps[j].ticket].req
    ensures var published := states[j + 1].published;
      && p <= q < |published|
      && published[p].req == published[q].req == states[j].active[steps[j].ticket].req
      && published[p].attempt <= published[q].attempt
      && ReplyAt(states, steps, i) == Served(published[p].releases, published[p].at)
      && ReplyAt(states, steps, j) == Served(published[q].releases, published[q].at)
  {
    var req := states[j].active[steps[j].ticket].req;
    ResponsesAreTheLatestPublication(states, steps, i);
    ResponsesAreTheLatestPublication(states, steps, j);
    p := LatestIndex(states[i + 1].published, req);
    q := LatestIndex(states[j + 1].published, req);
    HistoryOnlyGrows(states, steps, i + 1, j + 1);
    assert states[j + 1].published[p] == states[i + 1].published[p];
    if p < q {
      PublishedAttemptsIncrease(states, steps, j + 1, p, q);
    }
  }
}
