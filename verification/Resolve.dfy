/** The resolver's queries over a package's update graphs. */
module Resolve {
  import opened Orders
  import opened CatalogTypes
  import opened UpdateGraph
  import opened VersionOrders

  datatype ResolveError =
    | UnknownChannel(channel: string)
    | MissingCurrent
    | UnknownBundle(bundle: string)
    | AmbiguousVersion(version: string)
    | NoUpdatePath

  datatype Result<+T> = Ok(value: T) | Err(error: ResolveError)

  datatype UpdateRequest = UpdateRequest(currentVersion: string, currentBundle: string, channel: string, mode: string)

  datatype ChannelUpdateRequest = ChannelUpdateRequest(
    currentChannel: string, currentVersion: string, currentBundle: string, selection: string)

  datatype ChannelRelease = ChannelRelease(channel: string, bundle: string)

  // ---- The installed bundle

  predicate Carries(p: Package, e: Entry, version: string)
  {
    e.name in p.bundles && p.bundles[e.name].version == version
  }

  ghost predicate SomeCarries(p: Package, entries: seq<Entry>, version: string)
  {
    exists i :: 0 <= i < |entries| && Carries(p, entries[i], version)
  }

  ghost predicate TwoCarry(p: Package, entries: seq<Entry>, version: string)
  {
    exists i, j :: 0 <= i < j < |entries| && Carries(p, entries[i], version) && Carries(p, entries[j], version)
  }

  /** The bundle a request means: the named one, or the only entry that carries the version. */
  ghost function Installed(p: Package, ch: Channel, name: string, version: string): Result<Bundle>
  {
    if name == "" && version == "" then Err(MissingCurrent)
    else if name != "" then
      if name !in p.bundles then Err(UnknownBundle(name))
      else if !HasEntry(ch, name) then Err(NoUpdatePath)
      else Ok(p.bundles[name])
    else if !SomeCarries(p, ch.entries, version) then Err(NoUpdatePath)
    else if TwoCarry(p, ch.entries, version) then Err(AmbiguousVersion(version))
    else
      var i :| 0 <= i < |ch.entries| && Carries(p, ch.entries[i], version);
      Ok(p.bundles[ch.entries[i].name])
  }

  method ChannelContains(ch: Channel, bundle: string) returns (found: bool)
    ensures found == HasEntry(ch, bundle)
  {
    for i := 0 to |ch.entries|
      invariant forall k :: 0 <= k < i ==> ch.entries[k].name != bundle
    {
      if ch.entries[i].name == bundle { return true; }
    }
    return false;
  }

  method CurrentBundle(p: Package, ch: Channel, name: string, version: string) returns (r: Result<Bundle>)
    ensures r == Installed(p, ch, name, version)
  {
    if name == "" && version == "" { return Err(MissingCurrent); }
    if name != "" {
      if name !in p.bundles { return Err(UnknownBundle(name)); }
      var contained := ChannelContains(ch, name);
      return if contained then Ok(p.bundles[name]) else Err(NoUpdatePath);
    }
    var found: Option<Bundle> := None;
    ghost var at := 0;
    for i := 0 to |ch.entries|
      invariant found.None? ==> forall k :: 0 <= k < i ==> !Carries(p, ch.entries[k], version)
      invariant found.Some? ==> 0 <= at < i && Carries(p, ch.entries[at], version)
      invariant found.Some? ==> found.value == p.bundles[ch.entries[at].name]
      invariant found.Some? ==> forall k :: 0 <= k < i && Carries(p, ch.entries[k], version) ==> k == at
    {
      var e := ch.entries[i];
      if e.name in p.bundles && p.bundles[e.name].version == version {
        if found.Some? { return Err(AmbiguousVersion(version)); }
        found, at := Some(p.bundles[e.name]), i;
      }
    }
    return if found.None? then Err(NoUpdatePath) else Ok(found.value);
  }

  // ---- Successors

  method Successors(check: RangeCheck, p: Package, ch: Channel, name: string) returns (out: seq<Bundle>)
    requires NamedBundles(p)
    ensures forall b :: b in out <==> b.name in p.bundles && p.bundles[b.name] == b && Edge(check, p, ch, name, b.name)
    ensures out == [] <==> Terminal(check, p, ch, name)
  {
    out := [];
    var version := BundleVersion(p, name);
    for k := 0 to |ch.entries|
      invariant forall b :: b in out ==> b.name in p.bundles && p.bundles[b.name] == b && Edge(check, p, ch, name, b.name)
      invariant forall i :: 0 <= i < k && Accepts(check, ch.entries[i], name, version) ==>
        ch.entries[i].name in p.bundles ==> p.bundles[ch.entries[i].name] in out
    {
      var e := ch.entries[k];
      if Accepts(check, e, name, version) && e.name in p.bundles {
        assert Edge(check, p, ch, name, e.name);
        out := out + [p.bundles[e.name]];
      }
    }
    if out != [] { assert out[0] in out; }
  }

  // ---- VersionUpdates

  /** n is one edge from the current bundle or, in "reachable" mode, any number of edges. */
  ghost predicate Within(check: RangeCheck, p: Package, ch: Channel, current: string, mode: string, n: string)
  {
    if mode == "reachable" then Reaches(check, p, ch, current, n) else Edge(check, p, ch, current, n)
  }

  ghost predicate Live(p: Package, n: string, v: string)
  {
    n in p.bundles && !p.bundles[n].deprecated && p.bundles[n].version == v
  }

  /** The versions a request is offered: the current bundle's, and those of the bundles within
      reach that are not deprecated. */
  ghost predicate Offered(check: RangeCheck, p: Package, ch: Channel, current: Bundle, mode: string, v: string)
  {
    && v != ""
    && (v == current.version || exists n :: Live(p, n, v) && Within(check, p, ch, current.name, mode, n))
  }

  ghost predicate Contributes(p: Package, seen: set<string>, v: string)
  {
    exists n :: n in seen && Live(p, n, v)
  }

  /** versions is what the bundles in seen contribute. */
  ghost predicate Collected(p: Package, current: Bundle, seen: set<string>, versions: set<string>)
  {
    forall v :: v in versions <==> v != "" && (v == current.version || Contributes(p, seen, v))
  }

  lemma CollectCurrent(p: Package, current: Bundle)
    requires current.name in p.bundles && p.bundles[current.name] == current
    ensures Collected(p, current, {current.name}, if current.version != "" then {current.version} else {})
  {}

  lemma CollectOne(p: Package, current: Bundle, seen: set<string>, versions: set<string>, next: Bundle)
    requires NamedBundles(p) && Collected(p, current, seen, versions)
    requires next.name in p.bundles && p.bundles[next.name] == next
    ensures Collected(p, current, seen + {next.name},
              if !next.deprecated && next.version != "" then versions + {next.version} else versions)
  {
    var grown := seen + {next.name};
    forall v ensures Contributes(p, grown, v) <==> Contributes(p, seen, v) || Live(p, next.name, v) {
      if Contributes(p, seen, v) {
        var n :| n in seen && Live(p, n, v);
        assert n in grown;
      }
    }
  }

  /** The edges out of every settled name lead to seen names. */
  ghost predicate Settled(check: RangeCheck, p: Package, ch: Channel, seen: set<string>, settled: set<string>)
  {
    forall a, b :: a in settled && Edge(check, p, ch, a, b) ==> b in seen
  }

  /** Each next bundle not seen before is marked, collected, and in "reachable" mode queued. */
  method Visit(p: Package, current: Bundle, mode: string, next: seq<Bundle>,
               seen0: set<string>, queue0: seq<string>, versions0: set<string>)
    returns (seen: set<string>, queue: seq<string>, versions: set<string>)
    requires NamedBundles(p) && Collected(p, current, seen0, versions0)
    requires forall b :: b in next ==> b.name in p.bundles && p.bundles[b.name] == b
    ensures seen == seen0 + (set b | b in next :: b.name) && Collected(p, current, seen, versions)
    ensures mode == "reachable" ==> forall n :: n in queue <==> n in queue0 || n in seen - seen0
    ensures seen == seen0 ==> queue == queue0
  {
    seen, queue, versions := seen0, queue0, versions0;
    for k := 0 to |next|
      invariant forall n :: n in seen <==> n in seen0 || exists j :: 0 <= j < k && next[j].name == n
      invariant Collected(p, current, seen, versions)
      invariant mode == "reachable" ==> forall n :: n in queue <==> n in queue0 || n in seen - seen0
      invariant seen == seen0 ==> queue == queue0
    {
      var b := next[k];
      assert b in next;
      if b.name !in seen {
        CollectOne(p, current, seen, versions, b);
        seen := seen + {b.name};
        if !b.deprecated && b.version != "" { versions := versions + {b.version}; }
        if mode == "reachable" { queue := queue + [b.name]; }
      }
    }
  }

  /** The versions found from the current bundle, over possibly cyclic edges. */
  method Explore(check: RangeCheck, p: Package, ch: Channel, current: Bundle, mode: string)
    returns (versions: set<string>)
    requires NamedBundles(p) && current.name in p.bundles && p.bundles[current.name] == current
    ensures forall v :: v in versions <==> Offered(check, p, ch, current, mode, v)
  {
    hide Edge, Reaches, Contributes;
    var visited := {current.name};
    var queue := [current.name];
    versions := if current.version != "" then {current.version} else {};
    ReachesItself(check, p, ch, current.name);
    CollectCurrent(p, current);
    hide Collected, EntryNames;
    while queue != []
      invariant forall n :: n in queue ==> n in visited
      invariant current.name in visited && visited <= {current.name} + EntryNames(ch)
      invariant Collected(p, current, visited, versions)
      invariant forall n :: n in visited ==> Reaches(check, p, ch, current.name, n)
      invariant Settled(check, p, ch, visited, set n | n in visited && n !in queue)
      invariant mode != "reachable" ==> visited == {current.name} && queue == [current.name]
      decreases |{current.name} + EntryNames(ch) - visited|, |queue|
    {
      var name := queue[0];
      ghost var before, rest := visited, queue[1..];
      queue := queue[1..];
      var next := Successors(check, p, ch, name);
      visited, queue, versions := Visit(p, current, mode, next, visited, queue, versions);
      VisitedGrows(check, p, ch, current.name, name, next, before, visited);
      if mode != "reachable" { break; }
      Shrinks({current.name} + EntryNames(ch), before, visited);
    }
    if mode == "reachable" {
      forall n | Reaches(check, p, ch, current.name, n) ensures n in visited {
        ClosedHoldsReachable(check, p, ch, visited, current.name, n);
      }
    }
    CollectedIsOffered(check, p, ch, current, mode, visited, versions);
  }

  lemma CollectedIsOffered(check: RangeCheck, p: Package, ch: Channel, current: Bundle, mode: string,
                           seen: set<string>, versions: set<string>)
    requires current.name in p.bundles && p.bundles[current.name] == current && Collected(p, current, seen, versions)
    requires forall n :: n in seen <==> n == current.name || Within(check, p, ch, current.name, mode, n)
    ensures forall v :: v in versions <==> Offered(check, p, ch, current, mode, v)
  {
    hide Within;
    forall v ensures v in versions <==> Offered(check, p, ch, current, mode, v) {
      if v != "" && Contributes(p, seen, v) {
        var n :| n in seen && Live(p, n, v);
      }
      if Offered(check, p, ch, current, mode, v) && v != current.version {
        var n :| Live(p, n, v) && Within(check, p, ch, current.name, mode, n);
        assert n in seen;
      }
    }
  }

  /** Visiting a reachable name adds its successors, and only reachable entries. */
  lemma VisitedGrows(check: RangeCheck, p: Package, ch: Channel, start: string, name: string, next: seq<Bundle>,
                     before: set<string>, after: set<string>)
    requires NamedBundles(p) && Reaches(check, p, ch, start, name)
    requires forall b :: b in next <==> b.name in p.bundles && p.bundles[b.name] == b && Edge(check, p, ch, name, b.name)
    requires after == before + (set b | b in next :: b.name)
    ensures forall n :: n in after && n !in before ==>
      Edge(check, p, ch, name, n) && Reaches(check, p, ch, start, n) && n in EntryNames(ch)
    ensures forall n :: Edge(check, p, ch, name, n) ==> n in after
  {
    hide Edge, Reaches, EntryNames;
    forall n | n in after && n !in before
      ensures Edge(check, p, ch, name, n) && Reaches(check, p, ch, start, n) && n in EntryNames(ch)
    {
      var b :| b in next && b.name == n;
      ReachesFurther(check, p, ch, start, name, n);
      EdgeEntersEntry(check, p, ch, name, n);
    }
    forall n | Edge(check, p, ch, name, n) ensures n in after {
      EdgeEntersEntry(check, p, ch, name, n);
      assert p.bundles[n] in next;
    }
  }

  lemma EdgeEntersEntry(check: RangeCheck, p: Package, ch: Channel, name: string, next: string)
    requires Edge(check, p, ch, name, next)
    ensures next in EntryNames(ch) && next in p.bundles
  {}

  lemma Shrinks(all: set<string>, before: set<string>, after: set<string>)
    requires before <= after <= all
    ensures before == after || |all - after| < |all - before|
  {
    if before != after { ProperSubsetIsSmaller(all - after, all - before); }
  }

  /** A set's elements in some order, each once. */
  method Listed(s: set<string>) returns (xs: seq<string>)
    ensures Elements(xs) == s && Distinct(xs)
  {
    xs := [];
    var rest := s;
    while rest != {}
      invariant rest !! Elements(xs) && rest + Elements(xs) == s && Distinct(xs)
      decreases rest
    {
      var x :| x in rest;
      xs, rest := xs + [x], rest - {x};
    }
  }

  /** No entry for the installed bundle is an empty answer; any other failure is an error; and
      an installed bundle yields exactly the offered versions. */
  ghost predicate UpdatesFrom(check: RangeCheck, p: Package, ch: Channel, req: UpdateRequest, r: Result<seq<string>>)
  {
    match Installed(p, ch, req.currentBundle, req.currentVersion)
    case Err(e) =>
      r == (if e == NoUpdatePath then Ok([]) else Err(e))
    case Ok(b) =>
      && r.Ok? && Distinct(r.value) && Sorted(VersionTextLess, r.value)
      && (forall v :: v in r.value <==> Offered(check, p, ch, b, req.mode, v))
  }

  /** The current version and the graph successors' versions, each once and in order. */
  method VersionUpdates(check: RangeCheck, p: Package, req: UpdateRequest) returns (r: Result<seq<string>>)
    requires NamedBundles(p)
    ensures var channel := if req.channel == "" then p.defaultChannel else req.channel;
      if channel in p.channels then UpdatesFrom(check, p, p.channels[channel], req, r)
      else r == Err(UnknownChannel(channel))
  {
    var channel := req.channel;
    if channel == "" { channel := p.defaultChannel; }
    if channel !in p.channels { return Err(UnknownChannel(channel)); }
    var ch := p.channels[channel];
    var current := CurrentBundle(p, ch, req.currentBundle, req.currentVersion);
    if current.Err? { return if current.error == NoUpdatePath then Ok([]) else Err(current.error); }
    var versions := Explore(check, p, ch, current.value, req.mode);
    var listed := Listed(versions);
    var out := SortBy(VersionTextLess, listed);
    VersionTextLessIsStrictWeak(Elements(listed));
    DistinctPermutation(listed, out);
    SameElements(listed, out);
    forall v ensures v in out <==> Offered(check, p, ch, current.value, req.mode, v) {
      assert v in out <==> v in Elements(out);
    }
    return Ok(out);
  }
}
