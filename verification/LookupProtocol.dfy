/** The OpenShift lookup protocol as a state machine. A lookup is two critical sections,
    Begin and Finish, with the network fetch between them; Reload may run at any point.
    `active` holds the lookups between their two sections and what each remembers;
    `published` is history. Everything else is a field of the service. */
module LookupProtocol {
  import opened Orders
  import opened OpenShiftTypes

  const MAX_OPENSHIFT_SNAPSHOTS: nat := 128
  const DEFAULT_MAX_SNAPSHOT_AGE: int := 86_400_000_000_000 // 24 hours in nanoseconds

  /** Times are nanoseconds; 0 is Go's zero time. */
  datatype Snapshot = Snapshot(releases: seq<Release>, generatedAt: int, attempt: nat)

  datatype Lookup = Lookup(pending: nat, latestSuccess: nat)

  datatype Config = Config(graphURL: string, maxSnapshotAge: int)

  datatype Ticket = Ticket(req: UpdateRequest, generation: nat, clientURL: string)

  datatype Publication = Publication(req: UpdateRequest, attempt: nat, url: string, releases: seq<Release>, at: int)

  datatype State = State(
    cfg: Config,
    attempt: nat,
    generation: nat,
    snapshots: map<UpdateRequest, Snapshot>,
    inFlight: map<UpdateRequest, Lookup>,
    active: map<nat, Ticket>,
    published: seq<Publication>)

  /** What the fetch between the two sections produced. */
  datatype Outcome = Fetched(releases: seq<Release>) | CurrentVersionNotFound | FetchFailed

  datatype Refusal = ConfigurationChanged | UpstreamFailed | NewerResultEvicted | SnapshotExpired

  datatype Reply = Served(releases: seq<Release>, generatedAt: int) | Refused(why: Refusal)

  datatype Step =
    | Begin(req: UpdateRequest, clientURL: string)
    | Finish(ticket: nat, outcome: Outcome, now: int)
    | Reload(cfg: Config)

  // ---- Steps

  function AgeLimit(cfg: Config): int
  {
    if cfg.maxSnapshotAge <= 0 then DEFAULT_MAX_SNAPSHOT_AGE else cfg.maxSnapshotAge
  }

  predicate Acceptable(cfg: Config, generatedAt: int, now: int)
  {
    generatedAt != 0 && now - generatedAt <= AgeLimit(cfg)
  }

  /** The key's record, new if there is none, with one more reference. */
  function WithReference(inFlight: map<UpdateRequest, Lookup>, req: UpdateRequest): Lookup
  {
    var lookup := if req in inFlight then inFlight[req] else Lookup(0, 0);
    lookup.(pending := lookup.pending + 1)
  }

  function BeginLookup(s: State, req: UpdateRequest, clientURL: string): State
  {
    s.(attempt := s.attempt + 1,
       inFlight := s.inFlight[req := WithReference(s.inFlight, req)],
       active := s.active[s.attempt + 1 := Ticket(req, s.generation, clientURL)])
  }

  /** The deferred half of Finish: drop one reference, and the record with the last one. */
  function Leave(s: State, a: nat): State
    requires a in s.active
  {
    var req := s.active[a].req;
    var rest := s.active - {a};
    if req !in s.inFlight || s.inFlight[req].pending <= 1 then
      s.(active := rest, inFlight := s.inFlight - {req})
    else
      var lookup := s.inFlight[req];
      s.(active := rest, inFlight := s.inFlight[req := lookup.(pending := lookup.pending - 1)])
  }

  ghost predicate IsOldest(snapshots: map<UpdateRequest, Snapshot>, key: UpdateRequest)
  {
    key in snapshots && forall k :: k in snapshots ==> snapshots[key].attempt <= snapshots[k].attempt
  }

  ghost function Oldest(snapshots: map<UpdateRequest, Snapshot>): (key: UpdateRequest)
    requires exists k :: IsOldest(snapshots, k)
    ensures IsOldest(snapshots, key)
  {
    var key :| IsOldest(snapshots, key);
    key
  }

  ghost function MakeRoom(snapshots: map<UpdateRequest, Snapshot>, req: UpdateRequest): map<UpdateRequest, Snapshot>
  {
    if req !in snapshots && |snapshots| >= MAX_OPENSHIFT_SNAPSHOTS && exists k :: IsOldest(snapshots, k)
    then snapshots - {Oldest(snapshots)}
    else snapshots
  }

  ghost function Publish(s: State, a: nat, releases: seq<Release>, now: int): State
    requires a in s.active && s.active[a].req in s.inFlight
  {
    var req := s.active[a].req;
    s.(snapshots := MakeRoom(s.snapshots, req)[req := Snapshot(releases, now, a)],
       inFlight := s.inFlight[req := s.inFlight[req].(latestSuccess := a)],
       published := s.published + [Publication(req, a, s.active[a].clientURL, releases, now)])
  }

  /** The service's test for "a newer lookup already succeeded": it consults only the
      reference-counted record and the retained snapshot. */
  predicate NewerSucceeded(s: State, a: nat)
    requires a in s.active && s.active[a].req in s.inFlight
  {
    var req := s.active[a].req;
    s.inFlight[req].latestSuccess > a || (req in s.snapshots && s.snapshots[req].attempt > a)
  }

  predicate Reconfigured(s: State, a: nat)
    requires a in s.active
  {
    s.active[a].generation != s.generation || s.active[a].clientURL != s.cfg.graphURL
  }

  function Retained(s: State, req: UpdateRequest, now: int, otherwise: Refusal): Reply
  {
    if req in s.snapshots && Acceptable(s.cfg, s.snapshots[req].generatedAt, now)
    then Served(s.snapshots[req].releases, s.snapshots[req].generatedAt)
    else Refused(otherwise)
  }

  function Complete(outcome: Outcome): Outcome
  {
    if outcome.CurrentVersionNotFound? then Fetched([]) else outcome
  }

  ghost function FinishLookup(s: State, a: nat, outcome: Outcome, now: int): (State, Reply)
    requires a in s.active && s.active[a].req in s.inFlight
  {
    var req := s.active[a].req;
    if Reconfigured(s, a) then (Leave(s, a), Refused(ConfigurationChanged))
    else if Complete(outcome).FetchFailed? then (Leave(s, a), Retained(s, req, now, UpstreamFailed))
    else if NewerSucceeded(s, a) then
      (Leave(s, a), if req !in s.snapshots then Refused(NewerResultEvicted) else Retained(s, req, now, SnapshotExpired))
    else
      var releases := Complete(outcome).releases;
      (Leave(Publish(s, a, releases, now), a), Served(releases, now))
  }

  function ReloadConfig(s: State, cfg: Config): State
  {
    if s.cfg.graphURL != cfg.graphURL
    then s.(cfg := cfg, snapshots := map[], generation := s.generation + 1)
    else s.(cfg := cfg)
  }

  // ---- Runs

  ghost predicate Init(s: State)
  {
    s == State(s.cfg, 0, 0, map[], map[], map[], [])
  }

  ghost predicate Enabled(s: State, step: Step)
  {
    step.Finish? ==> step.ticket in s.active && s.active[step.ticket].req in s.inFlight
  }

  ghost function Next(s: State, step: Step): State
    requires Enabled(s, step)
  {
    match step
    case Begin(req, clientURL) => BeginLookup(s, req, clientURL)
    case Finish(a, outcome, now) => FinishLookup(s, a, outcome, now).0
    case Reload(cfg) => ReloadConfig(s, cfg)
  }

  /** states[i + 1] results from steps[i] in states[i]: any interleaving of any lookups. */
  ghost predicate Run(states: seq<State>, steps: seq<Step>)
  {
    && |states| == |steps| + 1
    && Init(states[0])
    && forall i :: 0 <= i < |steps| ==> Enabled(states[i], steps[i]) && states[i + 1] == Next(states[i], steps[i])
  }

  // ---- The invariant

  ghost function Waiters(active: map<nat, Ticket>, req: UpdateRequest): set<nat>
  {
    set a | a in active && active[a].req == req
  }

  /** The most recent publication for a key. */
  function Latest(published: seq<Publication>, req: UpdateRequest): Option<Publication>
  {
    if published == [] then None
    else
      var n := |published| - 1;
      if published[n].req == req then Some(published[n]) else Latest(published[..n], req)
  }

  /** Every publication has a later attempt than the one it replaced for its key. */
  ghost predicate Ordered(published: seq<Publication>)
  {
    published == [] ||
    var n := |published| - 1;
    && Ordered(published[..n])
    && match Latest(published[..n], published[n].req)
       case None => true
       case Some(previous) => previous.attempt < published[n].attempt
  }

  /** Attempts are dealt out in start order, and an active lookup's own attempt is unused. */
  ghost predicate AttemptsInv(s: State)
  {
    && (forall a :: a in s.active ==> 0 < a <= s.attempt && s.active[a].generation <= s.generation)
    && (forall req :: Latest(s.published, req).Some? ==>
          var p := Latest(s.published, req).value; p.req == req && 0 < p.attempt <= s.attempt && p.attempt !in s.active)
  }

  /** A record exists exactly while its key has active lookups, and counts them. */
  ghost predicate RecordsInv(inFlight: map<UpdateRequest, Lookup>, active: map<nat, Ticket>)
  {
    && (forall req :: req in inFlight <==> Waiters(active, req) != {})
    && (forall req :: req in inFlight ==> inFlight[req].pending == |Waiters(active, req)|)
  }

  /** A record remembers its key's latest publication whenever an active lookup predates it. */
  ghost predicate MemoryInv(s: State)
  {
    && (forall req :: req in s.inFlight && s.inFlight[req].latestSuccess != 0 ==>
          && Latest(s.published, req).Some?
          && Latest(s.published, req).value.attempt == s.inFlight[req].latestSuccess)
    && (forall a :: a in s.active ==> Remembered(s, a))
  }

  ghost predicate Remembered(s: State, a: nat)
    requires a in s.active
  {
    var req := s.active[a].req;
    req in s.inFlight && Latest(s.published, req).Some? && a < Latest(s.published, req).value.attempt ==>
      s.inFlight[req].latestSuccess == Latest(s.published, req).value.attempt
  }

  /** A retained snapshot is its key's latest publication, made under the current graph URL. */
  ghost predicate SnapshotsInv(s: State)
  {
    && |s.snapshots| <= MAX_OPENSHIFT_SNAPSHOTS
    && (forall req :: req in s.snapshots ==>
          && Latest(s.published, req).Some?
          && var p := Latest(s.published, req).value;
             p.url == s.cfg.graphURL && s.snapshots[req] == Snapshot(p.releases, p.at, p.attempt))
    && (forall q, r :: q in s.snapshots && r in s.snapshots && q != r ==> s.snapshots[q].attempt != s.snapshots[r].attempt)
  }

  ghost predicate Inv(s: State)
  {
    AttemptsInv(s) && RecordsInv(s.inFlight, s.active) && MemoryInv(s) && SnapshotsInv(s) && Ordered(s.published)
  }

  /** What the second section relies on: the lookup's record counts it, and counts one only
      when it is the last; retained attempts are positive and distinct. */
  ghost predicate ReadyToFinish(s: State, a: nat)
  {
    && a in s.active && s.active[a].req in s.inFlight && s.inFlight[s.active[a].req].pending > 0
    && (s.inFlight[s.active[a].req].pending == 1 ==> forall b :: b in s.active && b != a ==> s.active[b].req != s.active[a].req)
    && (forall k :: k in s.snapshots ==> s.snapshots[k].attempt > 0)
    && (forall q, r :: q in s.snapshots && r in s.snapshots && q != r ==> s.snapshots[q].attempt != s.snapshots[r].attempt)
  }
}
