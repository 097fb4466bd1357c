/** The critical sections of catalog refreshing, as functions of the state they lock. */
module RefreshState {
  import opened Orders
  import opened CatalogTypes

  datatype Config = Config(sources: seq<Source>, signaturePolicy: string, parseConcurrency: int, maxSnapshotAge: int)

  datatype Status = Status(
    source: Source,
    available: bool,
    refreshing: bool,
    lastAttempt: int,
    lastSuccess: int,
    lastError: string,
    packageCount: nat)

  const ZERO_STATUS := Status(Source("", "", ""), false, false, 0, 0, "", 0)
  const DEFAULT_MAX_SNAPSHOT_AGE: int := 86_400_000_000_000 // 24 hours in nanoseconds

  /** The fields of the service that its mutex guards. */
  datatype Shared = Shared(
    cfg: Config,
    snapshots: map<string, Snapshot>,
    statuses: map<string, Status>,
    queued: set<string>,
    running: set<string>)

  datatype QueueReply = NotConfigured | AlreadyRunning | AlreadyQueued | Started

  function SourceById(sources: seq<Source>, id: string): Option<Source>
  {
    if sources == [] then None
    else if sources[0].id == id then Some(sources[0])
    else SourceById(sources[1..], id)
  }

  /** The last source with this id: what sourcesByID keeps for it. */
  function LastById(sources: seq<Source>, id: string): Option<Source>
  {
    if sources == [] then None
    else
      var n := |sources| - 1;
      if sources[n].id == id then Some(sources[n]) else LastById(sources[..n], id)
  }

  function ChangedIds(previous: seq<Source>, next: seq<Source>): seq<string>
  {
    if next == [] then []
    else
      var n := |next| - 1;
      ChangedIds(previous, next[..n]) + if LastById(previous, next[n].id) == Some(next[n]) then [] else [next[n].id]
  }

  function StatusOf(sh: Shared, id: string): Status
  {
    if id in sh.statuses then sh.statuses[id] else ZERO_STATUS
  }

  predicate Busy(sh: Shared, id: string)
  {
    id in sh.running || id in sh.queued
  }

  function MarkAttempt(sh: Shared, source: Source, now: int): Shared
  {
    if source !in sh.cfg.sources then sh else
    var status := StatusOf(sh, source.id).(source := source, lastAttempt := now, refreshing := Busy(sh, source.id));
    sh.(statuses := sh.statuses[source.id := status])
  }

  function MarkFailure(sh: Shared, source: Source, error: string): Shared
  {
    if source !in sh.cfg.sources then sh else
    var status := StatusOf(sh, source.id).(
      source := source, lastError := error, refreshing := Busy(sh, source.id), available := source.id in sh.snapshots);
    sh.(statuses := sh.statuses[source.id := status])
  }

  function PublishSnapshot(sh: Shared, source: Source, packages: Packages, now: int): Shared
  {
    if source !in sh.cfg.sources then sh else
    var status := Status(source, true, Busy(sh, source.id), StatusOf(sh, source.id).lastAttempt, now, "", |packages|);
    sh.(snapshots := sh.snapshots[source.id := Snapshot(source, now, packages)],
        statuses := sh.statuses[source.id := status])
  }

  function ApplyConfig(sh: Shared, cfg: Config): Shared
  {
    sh.(cfg := cfg,
        snapshots := sh.snapshots - (set id | id in sh.snapshots && sh.snapshots[id].source !in cfg.sources),
        statuses := sh.statuses - (set id | id in sh.statuses && sh.statuses[id].source !in cfg.sources))
  }

  predicate RefreshesAll(previous: Config, next: Config)
  {
    previous.signaturePolicy != next.signaturePolicy || previous.parseConcurrency != next.parseConcurrency
  }

  function Enqueue(sh: Shared, id: string): (Shared, QueueReply)
  {
    match SourceById(sh.cfg.sources, id)
    case None => (sh, NotConfigured)
    case Some(source) =>
      if id in sh.running then (sh, AlreadyRunning)
      else if id in sh.queued then (sh, AlreadyQueued)
      else
        var status := StatusOf(sh, id).(source := source, refreshing := true);
        (sh.(queued := sh.queued + {id}, statuses := sh.statuses[id := status]), Started)
  }

  function TakeQueued(sh: Shared, id: string): (Shared, Option<Source>)
  {
    var source := SourceById(sh.cfg.sources, id);
    (sh.(queued := sh.queued - {id}, running := if source.Some? then sh.running + {id} else sh.running), source)
  }

  function ClearRefreshing(statuses: map<string, Status>, id: string): map<string, Status>
  {
    if id in statuses then statuses[id := statuses[id].(refreshing := false)] else statuses
  }

  function FinishRun(sh: Shared, id: string): Shared
  {
    sh.(running := sh.running - {id}, statuses := ClearRefreshing(sh.statuses, id))
  }

  function FinishQueued(sh: Shared, id: string): Shared
  {
    sh.(queued := sh.queued - {id}, running := sh.running - {id}, statuses := ClearRefreshing(sh.statuses, id))
  }

  // ---- What is served

  predicate Acceptable(cfg: Config, generatedAt: int, now: int)
  {
    var limit := if cfg.maxSnapshotAge <= 0 then DEFAULT_MAX_SNAPSHOT_AGE else cfg.maxSnapshotAge;
    generatedAt != 0 && now - generatedAt <= limit
  }

  function Serve(sh: Shared, id: string, now: int): Option<Snapshot>
  {
    if id in sh.snapshots && Acceptable(sh.cfg, sh.snapshots[id].generatedAt, now) then Some(sh.snapshots[id]) else None
  }

  predicate Ready(sh: Shared, now: int)
  {
    && |sh.cfg.sources| > 0
    && forall source :: source in sh.cfg.sources ==>
         && source.id in sh.snapshots && sh.snapshots[source.id].source == source
         && Acceptable(sh.cfg, sh.snapshots[source.id].generatedAt, now)
  }

  // ---- What every section keeps

  /** Snapshots and statuses are filed under the id of a source that is configured now, a status
      says "refreshing" only of a busy source, and no source is both queued and running. */
  ghost predicate SharedInv(sh: Shared)
  {
    && (forall id :: id in sh.snapshots ==> sh.snapshots[id].source in sh.cfg.sources && sh.snapshots[id].source.id == id)
    && (forall id :: id in sh.statuses ==> sh.statuses[id].source in sh.cfg.sources && sh.statuses[id].source.id == id)
    && (forall id :: id in sh.statuses && sh.statuses[id].refreshing ==> Busy(sh, id))
    && sh.queued !! sh.running
  }

  lemma {:induction false} SourceByIdFinds(sources: seq<Source>, id: string)
    ensures match SourceById(sources, id)
            case Some(source) => source in sources && source.id == id
            case None => forall source :: source in sources ==> source.id != id
  {
    if sources != [] {
      SourceByIdFinds(sources[1..], id);
    }
  }

  lemma {:induction false} SourceByIdUnique(sources: seq<Source>, source: Source)
    requires source in sources && UniqueIds(sources)
    ensures SourceById(sources, source.id) == Some(source)
  {
    if sources[0] != source {
      assert source in sources[1..];
      SourceByIdUnique(sources[1..], source);
    }
  }

  lemma UniqueIdsIdentify(sources: seq<Source>, a: Source, b: Source)
    requires UniqueIds(sources) && a in sources && b in sources && a.id == b.id
    ensures a == b
  {
    SourceByIdUnique(sources, a);
    SourceByIdUnique(sources, b);
  }

  lemma {:induction false} LastByIdUnique(sources: seq<Source>, source: Source)
    requires UniqueIds(sources)
    ensures LastById(sources, source.id) == Some(source) <==> source in sources
  {
    if sources != [] {
      var n := |sources| - 1;
      LastByIdUnique(sources[..n], source);
      assert source in sources <==> source in sources[..n] || source == sources[n];
      assert source in sources[..n] ==> source.id != sources[n].id;
    }
  }

  /** sourceChanges names exactly the sources that are new or different. */
  lemma {:induction false} ChangedIdsExact(previous: seq<Source>, next: seq<Source>, source: Source)
    requires UniqueIds(previous) && UniqueIds(next) && source in next
    ensures source.id in ChangedIds(previous, next) <==> source !in previous
  {
    var n := |next| - 1;
    LastByIdUnique(previous, next[n]);
    if next[n] == source {
      ChangedIdsFromNext(previous, next[..n], source.id);
    } else {
      assert source in next[..n];
      ChangedIdsExact(previous, next[..n], source);
      assert source.id != next[n].id;
    }
  }

  lemma {:induction false} ChangedIdsFromNext(previous: seq<Source>, next: seq<Source>, id: string)
    ensures id in ChangedIds(previous, next) ==> exists source :: source in next && source.id == id
  {
    if next != [] {
      var n := |next| - 1;
      ChangedIdsFromNext(previous, next[..n], id);
      assert next[n] in next;
    }
  }

  /** What is served for an id: the snapshot stored under it, when its time is set and its age is at
      most the configured one, or 24 hours when none is configured. */
  lemma ServedIffYoung(sh: Shared, id: string, now: int)
    ensures Serve(sh, id, now).Some? <==>
      && id in sh.snapshots && sh.snapshots[id].generatedAt != 0
      && now - sh.snapshots[id].generatedAt <= if sh.cfg.maxSnapshotAge > 0 then sh.cfg.maxSnapshotAge else 24 * 3600 * 1_000_000_000
    ensures Serve(sh, id, now).Some? ==> Serve(sh, id, now).value == sh.snapshots[id]
  {
  }

  /** Ready means that every configured source has a snapshot of its own that is that young. */
  lemma ReadyMeansYoung(sh: Shared, now: int)
    ensures Ready(sh, now) <==> |sh.cfg.sources| > 0 && forall source :: source in sh.cfg.sources ==>
      && source.id in sh.snapshots && sh.snapshots[source.id].source == source && sh.snapshots[source.id].generatedAt != 0
      && now - sh.snapshots[source.id].generatedAt
         <= if sh.cfg.maxSnapshotAge > 0 then sh.cfg.maxSnapshotAge else 24 * 3600 * 1_000_000_000
  {
  }

  /** Readiness is exactly that every configured source would be served its own snapshot. */
  lemma ReadyServesEverySource(sh: Shared, now: int)
    requires SharedInv(sh) && UniqueIds(sh.cfg.sources)
    ensures Ready(sh, now) <==> |sh.cfg.sources| > 0 && forall source :: source in sh.cfg.sources ==> Serve(sh, source.id, now).Some?
    ensures forall source :: source in sh.cfg.sources && Serve(sh, source.id, now).Some? ==>
      Serve(sh, source.id, now).value.source == source
  {
    forall source | source in sh.cfg.sources && source.id in sh.snapshots ensures sh.snapshots[source.id].source == source {
      UniqueIdsIdentify(sh.cfg.sources, source, sh.snapshots[source.id].source);
    }
  }

  lemma MarkAttemptKeepsInv(sh: Shared, source: Source, now: int)
    requires SharedInv(sh)
    ensures SharedInv(MarkAttempt(sh, source, now))
  {
  }

  lemma MarkFailureKeepsInv(sh: Shared, source: Source, error: string)
    requires SharedInv(sh)
    ensures SharedInv(MarkFailure(sh, source, error))
  {
  }

  lemma PublishKeepsInv(sh: Shared, source: Source, packages: Packages, now: int)
    requires SharedInv(sh)
    ensures SharedInv(PublishSnapshot(sh, source, packages, now))
  {
  }

  lemma QueueingKeepsInv(sh: Shared, id: string)
    requires SharedInv(sh)
    ensures SharedInv(Enqueue(sh, id).0)
    ensures SharedInv(TakeQueued(sh, id).0)
  {
    SourceByIdFinds(sh.cfg.sources, id);
  }

  lemma FinishingKeepsInv(sh: Shared, id: string)
    requires SharedInv(sh)
    ensures SharedInv(FinishRun(sh, id))
    ensures SharedInv(FinishQueued(sh, id))
  {
  }

  lemma ApplyConfigKeepsInv(sh: Shared, cfg: Config)
    requires SharedInv(sh)
    ensures SharedInv(ApplyConfig(sh, cfg))
  {
  }
}
