/** The OpenShift datasource after decoding: the installed release, its direct successors but
    the `lag` highest, and the accepted stream releases in between. */
module ReleaseUpdates {
  import opened Orders
  import opened SemVer
  import opened FamilyOrder
  import opened OpenShiftTypes
  import opened ReleaseOrder
  import opened ReleaseStream
  import opened ReleaseGraph

  const DEFAULT_GRAPH_URL: string := "https://api.openshift.com/api/upgrades_info/v1/graph"

  datatype Result<+T> = Ok(value: T) | Err(error: Error)

  datatype Client = Client(graphURL: string, releaseControllerURL: string)

  /** The answer of the release controller; a missing or null list is None. */
  datatype StreamAnswer = StreamFailed | StreamTags(tags: Option<seq<Tag>>)

  /** Whether a changelog URL names an advisory. */
  type IsAdvisory = string -> bool

  predicate IsBlankChar(c: char)
  {
    '\t' <= c <= '\r' || c == ' ' || c == '\U{0085}' || c == '\U{00A0}' || c == '\U{1680}' || '\U{2000}' <= c <= '\U{200A}'
    || c == '\U{2028}' || c == '\U{2029}' || c == '\U{202F}' || c == '\U{205F}' || c == '\U{3000}'
  }

  /** strings.TrimSpace(s) == "" */
  predicate Blank(s: string)
  {
    forall c :: c in s ==> IsBlankChar(c)
  }

  /** The blank characters are those of Unicode's White_Space property. */
  lemma BlankIffWhiteSpace(c: char)
    ensures IsBlankChar(c) <==>
      || 0x09 <= c as int <= 0x0D || 0x2000 <= c as int <= 0x200A
      || c as int in {0x20, 0x85, 0xA0, 0x1680, 0x2028, 0x2029, 0x202F, 0x205F, 0x3000}
  {
    assert c == (c as int) as char;
  }

  lemma StartsWithText(s: string)
    requires s != [] && !IsBlankChar(s[0])
    ensures !Blank(s)
  {
    hide IsBlankChar;
    assert s[0] in s;
  }

  // ---- Stream history

  /** A private graph has no public stream unless its controller is named too. */
  predicate HasStream(client: Client, architecture: string)
  {
    && !(client.graphURL != "" && client.graphURL != DEFAULT_GRAPH_URL && client.releaseControllerURL == "")
    && (architecture == "multi" || architecture == "amd64" || architecture == "arm64" || architecture == "ppc64le"
        || architecture == "s390x")
  }

  predicate Complete(answer: StreamAnswer)
  {
    answer.StreamTags? && answer.tags.Some? && forall t :: t in answer.tags.value ==> t.name != "" && t.phase != ""
  }

  /** The advisory URLs the graph gives for its releases. */
  ghost predicate IsAdvisoryMap(nodes: seq<Node>, advisory: IsAdvisory, urls: map<string, string>)
  {
    && (forall n :: n in nodes && advisory(n.url) ==> n.version in urls && urls[n.version] == n.url)
    && (forall v :: v in urls ==> exists n :: n in nodes && advisory(n.url) && n.version == v)
  }

  method AdvisoryURLs(nodes: seq<Node>, advisory: IsAdvisory) returns (urls: map<string, string>)
    requires NodesSound(nodes)
    ensures IsAdvisoryMap(nodes, advisory, urls)
  {
    urls := map[];
    for i := 0 to |nodes|
      invariant forall k :: 0 <= k < i && advisory(nodes[k].url) ==> nodes[k].version in urls && urls[nodes[k].version] == nodes[k].url
      invariant forall v :: v in urls ==> exists n :: n in nodes && advisory(n.url) && n.version == v
    {
      if advisory(nodes[i].url) { urls := urls[nodes[i].version := nodes[i].url]; }
    }
  }

  function HistoryEntry(version: string, urls: map<string, string>): Release
  {
    Release(version, true, [], if version in urls then urls[version] else "", "")
  }

  ghost function Versions(releases: seq<Release>): seq<string>
  {
    seq(|releases|, i requires 0 <= i < |releases| => releases[i].version)
  }

  /** The accepted releases above the installed one, up to a limit, that releases does not name,
      as often as the stream lists them. */
  ghost function FreshNames(tags: seq<Tag>, from: string, limit: string, releases: seq<Release>): seq<string>
  {
    Filter(n => n !in Names(releases), StreamNames(tags, from, limit))
  }

  /** added are history entries for exactly these, up to the latest of releases. */
  ghost predicate IsHistory(tags: seq<Tag>, from: string, urls: map<string, string>, releases: seq<Release>, added: seq<Release>)
    requires releases != []
  {
    exists limit :: IsLatest(releases, limit) && HistoryUpTo(tags, from, limit, urls, releases, added)
  }

  ghost predicate HistoryUpTo(tags: seq<Tag>, from: string, limit: string, urls: map<string, string>,
                              releases: seq<Release>, added: seq<Release>)
  {
    && multiset(Versions(added)) == multiset(FreshNames(tags, from, limit, releases))
    && forall r :: r in added ==> r == HistoryEntry(r.version, urls)
  }

  method NewEntries(entries: seq<string>, urls: map<string, string>, releases: seq<Release>) returns (added: seq<Release>)
    ensures Versions(added) == Filter(n => n !in Names(releases), entries)
    ensures forall r :: r in added ==> r == HistoryEntry(r.version, urls)
  {
    var positions: map<string, nat> := map[];
    for i := 0 to |releases|
      invariant forall v :: v in positions <==> exists k :: 0 <= k < i && releases[k].version == v
    {
      positions := positions[releases[i].version := i];
    }
    assert forall v :: v in positions <==> v in Names(releases);
    added := [];
    for i := 0 to |entries|
      invariant Versions(added) == Filter(n => n !in Names(releases), entries[..i])
      invariant forall r :: r in added ==> r == HistoryEntry(r.version, urls)
    {
      assert entries[..i + 1][..i] == entries[..i];
      if entries[i] !in positions { added := added + [HistoryEntry(entries[i], urls)]; }
    }
    assert entries[..|entries|] == entries;
  }

  /** addReleaseStreamHistory: it appends deprecated releases that carry a version and an advisory URL
      only, or leaves the releases alone. */
  method AddReleaseStreamHistory(client: Client, architecture: string, currentVersion: string, urls: map<string, string>,
                                 releases: seq<Release>, answer: StreamAnswer)
    returns (r: Result<seq<Release>>)
    ensures |releases| < 2 || !HasStream(client, architecture) ==> r == Ok(releases)
    ensures |releases| >= 2 && HasStream(client, architecture) ==>
      if !Complete(answer) then r == Err(StreamUnavailable)
      else r.Ok? && releases <= r.value && IsHistory(answer.tags.value, currentVersion, urls, releases, r.value[|releases|..])
    ensures r.Ok? ==> |releases| <= |r.value| && forall e :: e in r.value[|releases|..] ==>
      && e.isDeprecated && e.changelogContent == [] && e.digest == ""
      && e.changelogURL == if e.version in urls then urls[e.version] else ""
    ensures |releases| >= 2 && architecture in {"multi", "amd64", "arm64", "ppc64le", "s390x"} ==>
      client.graphURL == "" || client.graphURL == DEFAULT_GRAPH_URL || client.releaseControllerURL != "" ==>
      (r.Err? <==> answer.StreamFailed? || answer.tags.None? || exists t :: t in answer.tags.value && (t.name == "" || t.phase == ""))
    ensures architecture !in {"multi", "amd64", "arm64", "ppc64le", "s390x"} ==> r == Ok(releases)
    ensures client.graphURL != "" && client.graphURL != DEFAULT_GRAPH_URL && client.releaseControllerURL == "" ==> r == Ok(releases)
  {
    hide StreamNames, IsLatest, InWindow, TextPrecedes;
    if |releases| < 2 || !HasStream(client, architecture) { return Ok(releases); }
    if !Complete(answer) { return Err(StreamUnavailable); }
    var tags := answer.tags.value;
    var limit := LatestVersion(releases);
    var entries := StreamReleasesBetween(tags, currentVersion, limit);
    var added := NewEntries(entries, urls, releases);
    FilterPermuted(n => n !in Names(releases), entries, StreamNames(tags, currentVersion, limit));
    assert HistoryUpTo(tags, currentVersion, limit, urls, releases, added);
    r := Ok(releases + added);
    assert r.value[|releases|..] == added;
  }

  // ---- Updates

  /** A request that is rejected before the graph is asked for. */
  function Rejected(req: UpdateRequest): Option<Error>
  {
    if Blank(req.channel) then Some(ChannelRequired)
    else if Blank(req.architecture) then Some(ArchitectureRequired)
    else if Blank(req.currentVersion) then Some(CurrentVersionRequired)
    else if req.lag < 0 then Some(NegativeLag)
    else None
  }

  ghost predicate Sound(graph: Graph)
  {
    graph.nodes.Some? && graph.edges.Some? && NodesSound(graph.nodes.value) && EdgesSound(graph.edges.value, |graph.nodes.value|)
  }

  ghost predicate GraphFault(graph: Graph, error: Error)
  {
    if graph.nodes.None? || graph.edges.None? then error == GraphIncomplete
    else if !NodesSound(graph.nodes.value) then FirstNodeFault(graph.nodes.value, error)
    else FirstEdgeFault(graph.edges.value, |graph.nodes.value|, error)
  }

  /** How an answer is put together: the targets that lag keeps, and the stream history. */
  datatype Parts = Parts(current: nat, targets: seq<Release>, added: seq<Release>)

  function Base(graph: Graph, lag: nat, parts: Parts): seq<Release>
    requires graph.nodes.Some? && parts.current < |graph.nodes.value|
  {
    [ReleaseOf(graph.nodes.value[parts.current])] + DropHighest(parts.targets, lag)
  }

  /** The parts the graph alone decides. */
  ghost predicate Selected(req: UpdateRequest, graph: Graph, parts: Parts)
    requires Sound(graph)
  {
    && parts.current < |graph.nodes.value| && graph.nodes.value[parts.current].version == req.currentVersion
    && SortedTargets(graph.nodes.value, graph.edges.value, parts.current, parts.targets)
  }

  predicate NeedsStream(client: Client, req: UpdateRequest, graph: Graph, parts: Parts)
    requires graph.nodes.Some? && parts.current < |graph.nodes.value| && req.lag >= 0
  {
    |Base(graph, req.lag, parts)| >= 2 && HasStream(client, req.architecture)
  }

  ghost predicate HistoryOf(req: UpdateRequest, graph: Graph, tags: Option<seq<Tag>>, advisory: IsAdvisory, parts: Parts)
    requires graph.nodes.Some? && parts.current < |graph.nodes.value| && req.lag >= 0 && tags.Some?
  {
    exists urls :: IsAdvisoryMap(graph.nodes.value, advisory, urls)
      && IsHistory(tags.value, req.currentVersion, urls, Base(graph, req.lag, parts), parts.added)
  }

  ghost predicate Assembled(graph: Graph, lag: nat, parts: Parts, out: seq<Release>)
    requires graph.nodes.Some? && parts.current < |graph.nodes.value|
  {
    var all := Base(graph, lag, parts) + parts.added;
    multiset(out) == multiset(all) && (Contiguous(VersionKey, Names(all)) ==> Sorted(ReleaseLess, out))
  }

  /** The error for a request without an answer, or the parts and their assembly. */
  ghost predicate Answers(client: Client, req: UpdateRequest, fetched: Option<Graph>, answer: StreamAnswer, advisory: IsAdvisory,
                          r: Result<seq<Release>>, parts: Parts)
  {
    if Rejected(req).Some? then r == Err(Rejected(req).value)
    else if fetched.None? then r == Err(GraphUnavailable)
    else if !Sound(fetched.value) then r.Err? && GraphFault(fetched.value, r.error)
    else if forall n :: n in fetched.value.nodes.value ==> n.version != req.currentVersion then r == Err(CurrentVersionNotFound)
    else Selected(req, fetched.value, parts) && AnswersFrom(client, req, fetched.value, answer, advisory, r, parts)
  }

  ghost predicate AnswersFrom(client: Client, req: UpdateRequest, graph: Graph, answer: StreamAnswer, advisory: IsAdvisory,
                              r: Result<seq<Release>>, parts: Parts)
    requires Sound(graph) && req.lag >= 0 && Selected(req, graph, parts)
  {
    if NeedsStream(client, req, graph, parts) then
      if !Complete(answer) then r == Err(StreamUnavailable)
      else r.Ok? && HistoryOf(req, graph, answer.tags, advisory, parts) && Assembled(graph, req.lag, parts, r.value)
    else r.Ok? && parts.added == [] && Assembled(graph, req.lag, parts, r.value)
  }

  ghost predicate IsAnswer(client: Client, req: UpdateRequest, fetched: Option<Graph>, answer: StreamAnswer,
                           advisory: IsAdvisory, r: Result<seq<Release>>)
  {
    exists parts :: Answers(client, req, fetched, answer, advisory, r, parts)
  }

  /** Updates, with the decoded graph, the stream's answer and the advisory test as inputs. The
      changelog texts are filled in afterwards. */
  method Updates(client: Client, req: UpdateRequest, fetched: Option<Graph>, answer: StreamAnswer, advisory: IsAdvisory)
    returns (r: Result<seq<Release>>)
    ensures IsAnswer(client, req, fetched, answer, advisory, r)
    ensures r == Err(ChannelRequired) <==> Blank(req.channel)
    ensures r == Err(ArchitectureRequired) <==> !Blank(req.channel) && Blank(req.architecture)
    ensures r == Err(CurrentVersionRequired) <==>
      !Blank(req.channel) && !Blank(req.architecture) && Blank(req.currentVersion)
    ensures r == Err(NegativeLag) <==>
      !Blank(req.channel) && !Blank(req.architecture) && !Blank(req.currentVersion) && req.lag < 0
  {
    hide Blank;
    ghost var none := Parts(0, [], []);
    if Rejected(req).Some? {
      r := Err(Rejected(req).value);
      assert Answers(client, req, fetched, answer, advisory, r, none);
      return;
    }
    if fetched.None? {
      r := Err(GraphUnavailable);
      assert Answers(client, req, fetched, answer, advisory, r, none);
      return;
    }
    var checked := CheckGraph(fetched.value);
    if checked.Some? {
      r := Err(checked.value);
      assert Answers(client, req, fetched, answer, advisory, r, none);
      return;
    }
    var current := FindCurrent(fetched.value.nodes.value, req.currentVersion);
    if current.None? {
      r := Err(CurrentVersionNotFound);
      assert Answers(client, req, fetched, answer, advisory, r, none);
      return;
    }
    ghost var parts: Parts;
    r, parts := Assemble(client, req, fetched.value, current.value, answer, advisory);
    assert Answers(client, req, fetched, answer, advisory, r, parts);
  }

  method CheckGraph(graph: Graph) returns (fault: Option<Error>)
    ensures fault.None? <==> Sound(graph)
    ensures fault.Some? ==> GraphFault(graph, fault.value)
  {
    hide NodesSound, EdgesSound;
    if graph.nodes.None? || graph.edges.None? { return Some(GraphIncomplete); }
    fault := CheckNodes(graph.nodes.value);
    if fault.None? { fault := CheckEdges(graph.edges.value, |graph.nodes.value|); }
  }

  /** Updates once the graph is sound and names the installed release. */
  method Assemble(client: Client, req: UpdateRequest, graph: Graph, current: nat, answer: StreamAnswer, advisory: IsAdvisory)
    returns (r: Result<seq<Release>>, ghost parts: Parts)
    requires Sound(graph) && req.lag >= 0
    requires current < |graph.nodes.value| && graph.nodes.value[current].version == req.currentVersion
    ensures Selected(req, graph, parts) && AnswersFrom(client, req, graph, answer, advisory, r, parts)
  {
    hide NodesSound, EdgesSound, SortedTargets, IsHistory, IsAdvisoryMap, Contiguous, HasStream, Complete;
    var nodes := graph.nodes.value;
    var targets := Targets(nodes, graph.edges.value, current);
    var base := [ReleaseOf(nodes[current])] + DropHighest(targets, req.lag);
    var urls := AdvisoryURLs(nodes, advisory);
    var merged := AddReleaseStreamHistory(client, req.architecture, req.currentVersion, urls, base, answer);
    parts := Parts(current, targets, []);
    if merged.Err? { return Err(merged.error), parts; }
    parts := Parts(current, targets, merged.value[|base|..]);
    assert merged.value == base + parts.added;
    var out := SortReleases(merged.value);
    r := Ok(out);
  }
}
