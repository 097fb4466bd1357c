/** The lookup half of the service as it is written: fields updated under one lock, in-flight records
    shared by pointer, and a loop that finds the eviction victim. Each critical section is
    proved to be the corresponding step of LookupProtocol. */
module LookupService {
  import opened OpenShiftTypes
  import opened LookupProtocol
  import opened LookupSafety

  /** The in-flight record that overlapping lookups of one key share. */
  class LookupRecord {
    ghost const key: UpdateRequest
    var pending: nat
    var latestSuccess: nat

    constructor (ghost key: UpdateRequest)
      ensures this.key == key && pending == 0 && latestSuccess == 0
    {
      this.key := key;
      pending, latestSuccess := 0, 0;
    }
  }

  class Service {
    var cfg: Config
    var openShiftSnapshots: map<UpdateRequest, Snapshot>
    var openShiftInFlight: map<UpdateRequest, LookupRecord>
    var openShiftAttempt: nat
    var openShiftGeneration: nat
    /** The local variables of the lookups that are between their two sections. */
    ghost var active: map<nat, Ticket>
    ghost var held: map<nat, LookupRecord>
    ghost var published: seq<Publication>

    /** Keys do not share records. */
    ghost predicate Separate()
      reads this`openShiftInFlight
    {
      forall r :: r in openShiftInFlight ==> openShiftInFlight[r].key == r
    }

    /** Every active lookup still holds the very record that the map holds for its key. */
    ghost predicate Linked()
      reads this`active, this`held, this`openShiftInFlight
    {
      forall a :: a in active ==> active[a].req in openShiftInFlight && a in held && held[a] == openShiftInFlight[active[a].req]
    }

    ghost predicate Wired()
      reads this`active, this`held, this`openShiftInFlight
    {
      Separate() && Linked()
    }

    ghost function Records(): map<UpdateRequest, Lookup>
      reads this`openShiftInFlight, openShiftInFlight.Values
    {
      map req | req in openShiftInFlight :: Lookup(openShiftInFlight[req].pending, openShiftInFlight[req].latestSuccess)
    }

    ghost function State(): State
      reads this, openShiftInFlight.Values
    {
      LookupProtocol.State(cfg, openShiftAttempt, openShiftGeneration, openShiftSnapshots, Records(), active, published)
    }

    /** The fields are wired up and their state is one that the protocol keeps. */
    ghost predicate Valid()
      reads this, openShiftInFlight.Values
    {
      Wired() && Inv(State())
    }

    constructor (cfg: Config)
      ensures Valid() && Init(State()) && State().cfg == cfg
    {
      this.cfg := cfg;
      openShiftSnapshots, openShiftInFlight, openShiftAttempt, openShiftGeneration := map[], map[], 0, 0;
      active, held, published := map[], map[], [];
      new;
      InitHasInv(State());
    }

    /** Find or create the key's record and take one reference to it. */
    method Attach(req: UpdateRequest) returns (lookup: LookupRecord)
      requires Wired()
      modifies this`openShiftInFlight, openShiftInFlight.Values`pending
      ensures Wired() && openShiftInFlight == old(openShiftInFlight)[req := lookup]
      ensures req in old(openShiftInFlight) ==> lookup == old(openShiftInFlight[req])
      ensures Records() == old(Records())[req := WithReference(old(Records()), req)]
    {
      ghost var before := Records();
      if req in openShiftInFlight {
        lookup := openShiftInFlight[req];
      } else {
        lookup := new LookupRecord(req);
        openShiftInFlight := openShiftInFlight[req := lookup];
      }
      lookup.pending := lookup.pending + 1;
      assert Records() == before[req := WithReference(before, req)];
    }

    /** The first critical section of openShiftUpdates. */
    method BeginUpdate(req: UpdateRequest, ghost clientURL: string)
      returns (attempt: nat, generation: nat, lookup: LookupRecord)
      requires Valid()
      modifies this`openShiftAttempt, this`active, this`held, this`openShiftInFlight, openShiftInFlight.Values`pending
      ensures Valid() && State() == BeginLookup(old(State()), req, clientURL)
      ensures attempt == openShiftAttempt == old(openShiftAttempt) + 1 && generation == openShiftGeneration
      ensures attempt in active && active[attempt] == Ticket(req, generation, clientURL) && held[attempt] == lookup
    {
      hide Inv, WithReference, Wired, Records;
      ghost var before := State();
      openShiftAttempt := openShiftAttempt + 1;
      attempt, generation := openShiftAttempt, openShiftGeneration;
      lookup := Attach(req);
      Hold(attempt, Ticket(req, generation, clientURL), lookup);
      assert State() == BeginLookup(before, req, clientURL);
      BeginKeepsInv(before, req, clientURL);
    }

    /** The local variables of a lookup between its sections. */
    ghost method Hold(attempt: nat, ticket: Ticket, lookup: LookupRecord)
      requires Wired() && ticket.req in openShiftInFlight && openShiftInFlight[ticket.req] == lookup
      modifies this`active, this`held
      ensures Wired() && Records() == old(Records())
      ensures active == old(active)[attempt := ticket] && held == old(held)[attempt := lookup]
    {
      active := active[attempt := ticket];
      held := held[attempt := lookup];
    }

    /** The eviction scan: the key with the least attempt, 0 standing for "none seen yet". */
    method OldestSnapshot() returns (oldest: UpdateRequest)
      requires |openShiftSnapshots| > 0
      requires forall k :: k in openShiftSnapshots ==> openShiftSnapshots[k].attempt > 0
      ensures IsOldest(openShiftSnapshots, oldest)
    {
      var oldestAttempt := 0;
      oldest := UpdateRequest("", "", "", 0);
      var keys := openShiftSnapshots.Keys;
      while keys != {}
        invariant keys <= openShiftSnapshots.Keys
        invariant oldestAttempt == 0 ==> keys == openShiftSnapshots.Keys
        invariant oldestAttempt != 0 ==> oldest in openShiftSnapshots && openShiftSnapshots[oldest].attempt == oldestAttempt
        invariant oldestAttempt != 0 ==>
          forall k :: k in openShiftSnapshots && k !in keys ==> oldestAttempt <= openShiftSnapshots[k].attempt
        decreases keys
      {
        var key :| key in keys;
        if oldestAttempt == 0 || openShiftSnapshots[key].attempt < oldestAttempt {
          oldest, oldestAttempt := key, openShiftSnapshots[key].attempt;
        }
        keys := keys - {key};
      }
    }

    /** The deferred half: drop one reference, and the record with the last one. */
    method Depart(ghost attempt: nat, req: UpdateRequest, lookup: LookupRecord)
      requires Wired() && attempt in active && active[attempt].req == req && held[attempt] == lookup && lookup.pending > 0
      requires lookup.pending == 1 ==> forall b :: b in active && b != attempt ==> active[b].req != req
      modifies this`active, this`held, this`openShiftInFlight, lookup`pending
      ensures Wired() && State() == Leave(old(State()), attempt)
    {
      ghost var after := Leave(State(), attempt);
      lookup.pending := lookup.pending - 1;
      if lookup.pending == 0 {
        openShiftInFlight := openShiftInFlight - {req};
      }
      active := active - {attempt};
      held := held - {attempt};
      assert Records() == after.inFlight;
    }

    /** The publishing branch of the second critical section. */
    method StoreResult(attempt: nat, req: UpdateRequest, ghost clientURL: string, lookup: LookupRecord, values: seq<Release>, now: int)
      requires Wired() && attempt in active && held[attempt] == lookup
      requires active[attempt].req == req && active[attempt].clientURL == clientURL
      requires forall k :: k in openShiftSnapshots ==> openShiftSnapshots[k].attempt > 0
      requires forall q, r :: q in openShiftSnapshots && r in openShiftSnapshots && q != r ==>
        openShiftSnapshots[q].attempt != openShiftSnapshots[r].attempt
      modifies this`openShiftSnapshots, this`published, lookup`latestSuccess
      ensures State() == Publish(old(State()), attempt, values, now)
    {
      ghost var before := State();
      if req !in openShiftSnapshots && |openShiftSnapshots| >= MAX_OPENSHIFT_SNAPSHOTS {
        var oldest := OldestSnapshot();
        assert oldest == Oldest(before.snapshots);
        openShiftSnapshots := openShiftSnapshots - {oldest};
      }
      lookup.latestSuccess := attempt;
      openShiftSnapshots := openShiftSnapshots[req := Snapshot(values, now, attempt)];
      published := published + [Publication(req, attempt, clientURL, values, now)];
      assert Records() == Publish(before, attempt, values, now).inFlight;
    }

    /** The second critical section of openShiftUpdates, with the clock reading as an input. */
    method FinishUpdate(attempt: nat, generation: nat, lookup: LookupRecord, clientURL: string, req: UpdateRequest,
                        outcome: Outcome, now: int)
      returns (reply: Reply)
      requires Valid() && attempt in active && active[attempt] == Ticket(req, generation, clientURL) && held[attempt] == lookup
      modifies this`active, this`held, this`openShiftInFlight, this`openShiftSnapshots, this`published, lookup
      ensures Valid() && (State(), reply) == FinishLookup(old(State()), attempt, outcome, now)
    {
      hide Inv, Leave, Publish, Acceptable;
      ghost var before := State();
      InvIsReadyToFinish(before, attempt);
      NextKeepsInv(before, Finish(attempt, outcome, now));
      assert lookup.pending == before.inFlight[req].pending;
      var result := if outcome.CurrentVersionNotFound? then Fetched([]) else outcome;
      var found := req in openShiftSnapshots;
      if generation != openShiftGeneration || clientURL != cfg.graphURL {
        reply := Refused(ConfigurationChanged);
      } else if result.FetchFailed? {
        if found && Acceptable(cfg, openShiftSnapshots[req].generatedAt, now) {
          reply := Served(openShiftSnapshots[req].releases, openShiftSnapshots[req].generatedAt);
        } else {
          reply := Refused(UpstreamFailed);
        }
      } else if lookup.latestSuccess > attempt || (found && openShiftSnapshots[req].attempt > attempt) {
        if !found {
          reply := Refused(NewerResultEvicted);
        } else if !Acceptable(cfg, openShiftSnapshots[req].generatedAt, now) {
          reply := Refused(SnapshotExpired);
        } else {
          reply := Served(openShiftSnapshots[req].releases, openShiftSnapshots[req].generatedAt);
        }
      } else {
        StoreResult(attempt, req, clientURL, lookup, result.releases, now);
        reply := Served(result.releases, now);
      }
      Depart(attempt, req, lookup);
    }

    /** The OpenShift part of Reload. */
    method Reload(next: Config)
      requires Valid()
      modifies this`cfg, this`openShiftSnapshots, this`openShiftGeneration
      ensures Valid() && State() == ReloadConfig(old(State()), next)
      ensures cfg == next
      ensures old(cfg).graphURL == next.graphURL ==>
        openShiftSnapshots == old(openShiftSnapshots) && openShiftGeneration == old(openShiftGeneration)
      ensures old(cfg).graphURL != next.graphURL ==>
        openShiftSnapshots == map[] && openShiftGeneration == old(openShiftGeneration) + 1
    {
      hide Inv;
      ReloadKeepsInv(State(), next);
      var previous := cfg;
      cfg := next;
      if previous.graphURL != next.graphURL {
        openShiftSnapshots := map[];
        openShiftGeneration := openShiftGeneration + 1;
      }
    }
  }
}
