/** The refreshing half of the service as it is written: maps and flags updated under one mutex.
    Each critical section is proved to be the function of RefreshState that the protocol runs. */
module RefreshService {
  import opened Orders
  import opened CatalogTypes
  import opened RefreshState

  method SourcesByID(sources: seq<Source>) returns (result: map<string, Source>)
    ensures forall id :: id in result <==> LastById(sources, id).Some?
    ensures forall id :: id in result ==> LastById(sources, id) == Some(result[id])
  {
    result := map[];
    for n := 0 to |sources|
      invariant forall id :: id in result <==> LastById(sources[..n], id).Some?
      invariant forall id :: id in result ==> LastById(sources[..n], id) == Some(result[id])
    {
      assert sources[..n + 1][..n] == sources[..n];
      result := result[sources[n].id := sources[n]];
    }
    assert sources[..|sources|] == sources;
  }

  method SourceChanges(previous: Config, next: Config) returns (changed: seq<string>)
    ensures changed == ChangedIds(previous.sources, next.sources)
  {
    var existing := SourcesByID(previous.sources);
    changed := [];
    for n := 0 to |next.sources|
      invariant changed == ChangedIds(previous.sources, next.sources[..n])
    {
      var source := next.sources[n];
      assert next.sources[..n + 1][..n] == next.sources[..n];
      if source.id !in existing || existing[source.id] != source {
        changed := changed + [source.id];
      }
    }
    assert next.sources[..|next.sources|] == next.sources;
  }

  class Service {
    var cfg: Config
    var snapshots: map<string, Snapshot>
    var statuses: map<string, Status>
    var queued: set<string>
    var running: set<string>

    ghost function View(): Shared
      reads this
    {
      Shared(cfg, snapshots, statuses, queued, running)
    }

    /** A source's status, or the zero status. */
    ghost function StatusFor(id: string): Status
      reads this`statuses
    {
      if id in statuses then statuses[id] else Status(Source("", "", ""), false, false, 0, 0, "", 0)
    }

    /** Everything stored belongs to a source configured now, and flags and statuses agree. */
    ghost predicate Valid()
      reads this
    {
      SharedInv(View())
    }

    /** The section left every other id's snapshot, status and flags as they were. */
    twostate predicate OnlyTouches(id: string)
      reads this
    {
      && cfg == old(cfg)
      && (forall i :: i != id ==> (i in snapshots <==> i in old(snapshots)) && (i in statuses <==> i in old(statuses)))
      && (forall i :: i != id && i in snapshots ==> snapshots[i] == old(snapshots)[i])
      && (forall i :: i != id && i in statuses ==> statuses[i] == old(statuses)[i])
      && queued - {id} == old(queued) - {id} && running - {id} == old(running) - {id}
    }

    constructor (cfg: Config)
      ensures Valid() && View() == Shared(cfg, map[], map[], {}, {})
    {
      this.cfg := cfg;
      snapshots, statuses, queued, running := map[], map[], {}, {};
    }

    method CurrentSource(source: Source) returns (current: bool)
      ensures current <==> source in cfg.sources
    {
      for n := 0 to |cfg.sources|
        invariant source !in cfg.sources[..n]
      {
        if cfg.sources[n] == source {
          return true;
        }
      }
      return false;
    }

    method SourceLocked(id: string) returns (found: Option<Source>)
      ensures found == SourceById(cfg.sources, id)
      ensures found.Some? ==> found.value in cfg.sources && found.value.id == id
      ensures found.None? ==> forall source :: source in cfg.sources ==> source.id != id
    {
      SourceByIdFinds(cfg.sources, id);
      for n := 0 to |cfg.sources|
        invariant SourceById(cfg.sources[n..], id) == SourceById(cfg.sources, id)
      {
        assert cfg.sources[n..][1..] == cfg.sources[n + 1..];
        if cfg.sources[n].id == id {
          return Some(cfg.sources[n]);
        }
      }
      return None;
    }

    method MarkAttempt(source: Source, now: int)
      requires Valid()
      modifies this`statuses
      ensures Valid() && OnlyTouches(source.id)
      ensures View() == RefreshState.MarkAttempt(old(View()), source, now)
      ensures source !in cfg.sources ==> statuses == old(statuses)
      ensures source in cfg.sources ==>
        source.id in statuses && statuses[source.id] == old(StatusFor(source.id)).(source := source, lastAttempt := now, refreshing := source.id in running + queued)
    {
      MarkAttemptKeepsInv(View(), source, now);
      var current := CurrentSource(source);
      if !current {
        return;
      }
      var status := if source.id in statuses then statuses[source.id] else ZERO_STATUS;
      status := status.(source := source, lastAttempt := now, refreshing := source.id in running || source.id in queued);
      statuses := statuses[source.id := status];
    }

    method MarkFailure(source: Source, error: string)
      requires Valid()
      modifies this`statuses
      ensures Valid() && OnlyTouches(source.id)
      ensures View() == RefreshState.MarkFailure(old(View()), source, error)
      ensures source !in cfg.sources ==> statuses == old(statuses)
      ensures source in cfg.sources ==>
        source.id in statuses && statuses[source.id] == old(StatusFor(source.id)).(
          source := source, lastError := error, available := source.id in snapshots, refreshing := source.id in running + queued)
    {
      MarkFailureKeepsInv(View(), source, error);
      var current := CurrentSource(source);
      if !current {
        return;
      }
      var status := if source.id in statuses then statuses[source.id] else ZERO_STATUS;
      status := status.(source := source, lastError := error, refreshing := source.id in running || source.id in queued);
      status := status.(available := source.id in snapshots);
      statuses := statuses[source.id := status];
    }

    /** The publishing section of refresh. */
    method Publish(source: Source, packages: Packages, now: int)
      requires Valid()
      modifies this`snapshots, this`statuses
      ensures Valid() && OnlyTouches(source.id)
      ensures View() == PublishSnapshot(old(View()), source, packages, now)
      ensures source !in cfg.sources ==> snapshots == old(snapshots) && statuses == old(statuses)
      ensures source in cfg.sources ==>
        && source.id in snapshots && snapshots[source.id] == Snapshot(source, now, packages)
        && source.id in statuses && statuses[source.id].source == source && statuses[source.id].available
        && statuses[source.id].lastSuccess == now && statuses[source.id].lastError == ""
        && statuses[source.id].lastAttempt == old(StatusFor(source.id)).lastAttempt
        && statuses[source.id].packageCount == |packages|
        && (statuses[source.id].refreshing <==> source.id in running + queued)
    {
      PublishKeepsInv(View(), source, packages, now);
      var current := CurrentSource(source);
      if current {
        var lastAttempt := if source.id in statuses then statuses[source.id].lastAttempt else 0;
        snapshots := snapshots[source.id := Snapshot(source, now, packages)];
        statuses := statuses[source.id :=
          Status(source, true, source.id in running || source.id in queued, lastAttempt, now, "", |packages|)];
      }
    }

    /** Removes the entries whose source is not configured any more, one key at a time. */
    method DropSnapshots()
      modifies this`snapshots
      ensures snapshots == old(snapshots) - (set id | id in old(snapshots) && old(snapshots)[id].source !in cfg.sources)
    {
      var ids := snapshots.Keys;
      while ids != {}
        invariant ids <= snapshots.Keys <= old(snapshots).Keys
        invariant forall id :: id in snapshots ==> snapshots[id] == old(snapshots)[id]
        invariant forall id :: id in old(snapshots) && id !in ids ==> (id in snapshots <==> old(snapshots)[id].source in cfg.sources)
        decreases ids
      {
        var id :| id in ids;
        ids := ids - {id};
        var current := CurrentSource(snapshots[id].source);
        if !current {
          snapshots := snapshots - {id};
        }
      }
    }

    method DropStatuses()
      modifies this`statuses
      ensures statuses == old(statuses) - (set id | id in old(statuses) && old(statuses)[id].source !in cfg.sources)
    {
      var ids := statuses.Keys;
      while ids != {}
        invariant ids <= statuses.Keys <= old(statuses).Keys
        invariant forall id :: id in statuses ==> statuses[id] == old(statuses)[id]
        invariant forall id :: id in old(statuses) && id !in ids ==> (id in statuses <==> old(statuses)[id].source in cfg.sources)
        decreases ids
      {
        var id :| id in ids;
        ids := ids - {id};
        var current := CurrentSource(statuses[id].source);
        if !current {
          statuses := statuses - {id};
        }
      }
    }

    /** The critical section of Reload, and what it goes on to queue: everything, or the changed ids. */
    method Reload(next: Config) returns (changed: seq<string>, refreshAll: bool)
      requires Valid()
      modifies this`cfg, this`snapshots, this`statuses
      ensures Valid()
      ensures View() == ApplyConfig(old(View()), next) && cfg == next
      ensures changed == ChangedIds(old(cfg).sources, next.sources) && refreshAll == RefreshesAll(old(cfg), next)
      ensures refreshAll <==>
        old(cfg).signaturePolicy != next.signaturePolicy || old(cfg).parseConcurrency != next.parseConcurrency
      ensures forall id :: id in snapshots <==> id in old(snapshots) && old(snapshots)[id].source in next.sources
      ensures forall id :: id in snapshots ==> snapshots[id] == old(snapshots)[id]
      ensures forall id :: id in statuses <==> id in old(statuses) && old(statuses)[id].source in next.sources
      ensures forall id :: id in statuses ==> statuses[id] == old(statuses)[id]
    {
      ApplyConfigKeepsInv(View(), next);
      var previous := cfg;
      changed := SourceChanges(previous, next);
      refreshAll := previous.signaturePolicy != next.signaturePolicy || previous.parseConcurrency != next.parseConcurrency;
      cfg := next;
      DropSnapshots();
      DropStatuses();
    }

    method QueueRefresh(id: string) returns (reply: QueueReply)
      requires Valid()
      modifies this`queued, this`statuses
      ensures Valid() && OnlyTouches(id)
      ensures (View(), reply) == Enqueue(old(View()), id)
      ensures reply == NotConfigured <==> forall source :: source in cfg.sources ==> source.id != id
      ensures reply != NotConfigured ==> (reply == AlreadyRunning <==> id in old(running))
      ensures reply == AlreadyQueued ==> id in old(queued)
      ensures reply == Started ==> id !in old(queued) && id in queued && id in statuses && statuses[id].refreshing
      ensures reply != Started ==> queued == old(queued) && statuses == old(statuses)
    {
      QueueingKeepsInv(View(), id);
      var source := SourceLocked(id);
      if source.None? {
        return NotConfigured;
      }
      if id in running {
        return AlreadyRunning;
      }
      if id in queued {
        return AlreadyQueued;
      }
      queued := queued + {id};
      var status := if id in statuses then statuses[id] else ZERO_STATUS;
      statuses := statuses[id := status.(source := source.value, refreshing := true)];
      return Started;
    }

    /** refreshQueued once it holds the semaphore. */
    method TakeQueued(id: string) returns (source: Option<Source>)
      requires Valid()
      modifies this`queued, this`running
      ensures Valid() && OnlyTouches(id)
      ensures (View(), source) == RefreshState.TakeQueued(old(View()), id)
      ensures source.None? <==> forall s :: s in cfg.sources ==> s.id != id
      ensures source.Some? ==> source.value in cfg.sources && source.value.id == id
      ensures queued == old(queued) - {id} && running == if source.Some? then old(running) + {id} else old(running)
    {
      QueueingKeepsInv(View(), id);
      queued := queued - {id};
      source := SourceLocked(id);
      if source.Some? {
        running := running + {id};
      }
    }

    /** The last section of refreshQueued. */
    method FinishRun(id: string, source: Source) returns (changed: bool)
      requires Valid()
      modifies this`running, this`statuses
      ensures Valid() && OnlyTouches(id)
      ensures View() == RefreshState.FinishRun(old(View()), id)
      ensures running == old(running) - {id} && (id in statuses ==> !statuses[id].refreshing)
      ensures changed <==> source !in cfg.sources
    {
      FinishingKeepsInv(View(), id);
      running := running - {id};
      if id in statuses {
        statuses := statuses[id := statuses[id].(refreshing := false)];
      }
      var current := CurrentSource(source);
      changed := !current;
    }

    method FinishQueued(id: string)
      requires Valid()
      modifies this`queued, this`running, this`statuses
      ensures Valid() && OnlyTouches(id)
      ensures View() == RefreshState.FinishQueued(old(View()), id)
      ensures queued == old(queued) - {id} && running == old(running) - {id}
      ensures id in statuses ==> !statuses[id].refreshing
    {
      FinishingKeepsInv(View(), id);
      queued := queued - {id};
      running := running - {id};
      if id in statuses {
        statuses := statuses[id := statuses[id].(refreshing := false)];
      }
    }

    /** The decision of the catalog endpoints: what is served for an id, if anything. */
    method SnapshotFor(id: string, now: int) returns (snap: Option<Snapshot>)
      ensures snap == Serve(View(), id, now)
      ensures snap.Some? <==>
        && id in snapshots && snapshots[id].generatedAt != 0
        && now - snapshots[id].generatedAt <= if cfg.maxSnapshotAge > 0 then cfg.maxSnapshotAge else 24 * 3600 * 1_000_000_000
      ensures snap.Some? ==> snap.value == snapshots[id]
    {
      snap := if id in snapshots then Some(snapshots[id]) else None;
      if snap.Some? && !Acceptable(cfg, snap.value.generatedAt, now) { snap := None; }
    }

    /** The decision of the readiness endpoint. */
    method IsReady(now: int) returns (ready: bool)
      ensures ready <==> Ready(View(), now)
      ensures ready <==> |cfg.sources| > 0 && forall source :: source in cfg.sources ==>
        && source.id in snapshots && snapshots[source.id].source == source && snapshots[source.id].generatedAt != 0
        && now - snapshots[source.id].generatedAt
           <= if cfg.maxSnapshotAge > 0 then cfg.maxSnapshotAge else 24 * 3600 * 1_000_000_000
    {
      ready := |cfg.sources| > 0;
      for n := 0 to |cfg.sources|
        invariant ready == (|cfg.sources| > 0)
        invariant forall source :: source in cfg.sources[..n] ==>
          source.id in snapshots && snapshots[source.id].source == source && Acceptable(cfg, snapshots[source.id].generatedAt, now)
      {
        var source := cfg.sources[n];
        assert source in cfg.sources && cfg.sources[..n + 1] == cfg.sources[..n] + [source];
        if source.id !in snapshots || snapshots[source.id].source != source || !Acceptable(cfg, snapshots[source.id].generatedAt, now) {
          return false;
        }
      }
      assert cfg.sources[..|cfg.sources|] == cfg.sources;
    }
  }
}
