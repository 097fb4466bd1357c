/** The fields of the releases in a successful OpenShift answer: which are deprecated, and what
    each takes from the graph. */
module ReleaseFields {
  import opened Orders
  import opened SemVer
  import opened FamilyOrder
  import opened OpenShiftTypes
  import opened ReleaseOrder
  import opened ReleaseStream
  import opened ReleaseGraph
  import opened ReleaseUpdates
  import opened ReleaseAnswers

  /** The answer to a request that is not rejected, from a sound graph that names the installed release. */
  ghost predicate Successful(client: Client, req: UpdateRequest, graph: Graph, answer: StreamAnswer, advisory: IsAdvisory,
                             out: seq<Release>, parts: Parts)
  {
    && Rejected(req).None? && Sound(graph)
    && Selected(req, graph, parts) && AnswersFrom(client, req, graph, answer, advisory, Ok(out), parts)
  }

  /** The version of the installed release or of a direct successor that lag keeps. */
  ghost predicate Eligible(req: UpdateRequest, parts: Parts, version: string)
    requires req.lag >= 0
  {
    version == req.currentVersion || exists k :: k in DropHighest(parts.targets, req.lag) && k.version == version
  }

  ghost predicate NamedByGraph(graph: Graph, version: string)
    requires graph.nodes.Some?
  {
    exists n :: n in graph.nodes.value && n.version == version
  }

  /** The i-th node is the installed release, or an edge leads to it from there. */
  ghost predicate OneEdgeAway(graph: Graph, current: nat, i: nat)
    requires Sound(graph)
  {
    i == current || exists e :: e in graph.edges.value && e[0] == Some(current) && e[1] == Some(i)
  }

  /** The i-th node, one edge away at most, has exactly this release's version, URL and digest. */
  ghost predicate IsNodeOf(graph: Graph, current: nat, r: Release, i: nat)
    requires Sound(graph)
  {
    && i < |graph.nodes.value| && graph.nodes.value[i] == Node(r.version, r.changelogURL, r.digest)
    && OneEdgeAway(graph, current, i)
  }

  lemma AnswerParts(client: Client, req: UpdateRequest, graph: Graph, answer: StreamAnswer, advisory: IsAdvisory,
                    out: seq<Release>, parts: Parts, r: Release)
    requires req.lag >= 0 && Sound(graph) && Successful(client, req, graph, answer, advisory, out, parts)
    ensures r in out <==> r in Base(graph, req.lag, parts) || r in parts.added
  {
    hide Base, Contiguous, NodesSound, EdgesSound, NeedsStream, HistoryOf, SortedTargets, Complete, Blank;
    var all := Base(graph, req.lag, parts) + parts.added;
    SameElements(out, all);
    assert r in out <==> r in Elements(out);
    assert r in all <==> r in Elements(all);
  }

  /** A release of the graph's part of the answer, field by field. */
  lemma EligibleFields(req: UpdateRequest, graph: Graph, parts: Parts, r: Release)
    requires req.lag >= 0 && Sound(graph) && Selected(req, graph, parts) && r in Base(graph, req.lag, parts)
    ensures !r.isDeprecated && r.changelogContent == [] && Eligible(req, parts, r.version)
    ensures exists i :: IsNodeOf(graph, parts.current, r, i)
  {
    hide NodesSound, EdgesSound, Contiguous, Blank;
    var nodes := graph.nodes.value;
    if r == ReleaseOf(nodes[parts.current]) {
      assert IsNodeOf(graph, parts.current, r, parts.current);
    } else {
      assert r in DropHighest(parts.targets, req.lag) && r in parts.targets;
      assert IsTarget(nodes, graph.edges.value, parts.current, r);
      var edges: seq<Edge> := graph.edges.value;
      assert EdgesSound(edges, |nodes|);
      SuccessorIsOneEdgeAway(graph, parts.current, r);
    }
  }

  lemma SuccessorIsOneEdgeAway(graph: Graph, current: nat, r: Release)
    requires Sound(graph) && IsTarget(graph.nodes.value, graph.edges.value, current, r)
    ensures !r.isDeprecated && r.changelogContent == []
    ensures exists i :: IsNodeOf(graph, current, r, i)
  {
    var nodes: seq<Node>, edges: seq<Edge> := graph.nodes.value, graph.edges.value;
    var k :| 0 <= k < |edges| && edges[k][0].value == current && edges[k][1].value != current
      && r == ReleaseOf(nodes[edges[k][1].value]);
    assert edges[k] in edges && EdgeWellShaped(edges[k]);
    assert IsNodeOf(graph, current, r, edges[k][1].value);
  }

  /** The advisory URL that the graph gives for a version, or "". */
  ghost predicate AdvisoryURL(nodes: seq<Node>, advisory: IsAdvisory, version: string, url: string)
  {
    && (forall n :: n in nodes && n.version == version && advisory(n.url) ==> url == n.url)
    && ((forall n :: n in nodes && n.version == version ==> !advisory(n.url)) ==> url == "")
  }

  /** A release without a prerelease that the stream lists as accepted. */
  ghost predicate ListedAsAccepted(tags: seq<Tag>, version: string)
  {
    exists t :: t in tags && t.name == version && t.phase == "Accepted"
      && Parse(version).Some? && Parse(version).value.prerelease == []
  }

  /** An accepted release above the installed one, not above every kept successor, which is neither
      the installed release nor a kept successor itself. */
  ghost predicate FillsIn(req: UpdateRequest, parts: Parts, tags: seq<Tag>, version: string)
    requires req.lag >= 0
  {
    && ListedAsAccepted(tags, version) && TextPrecedes(req.currentVersion, version) && !Eligible(req, parts, version)
    && exists k :: k in DropHighest(parts.targets, req.lag) && Parse(k.version).Some? && !TextPrecedes(k.version, version)
  }

  lemma HistoryFields(req: UpdateRequest, graph: Graph, tags: seq<Tag>, advisory: IsAdvisory, parts: Parts, version: string, r: Release)
    requires Sound(graph) && req.lag >= 0 && Selected(req, graph, parts)
    requires HistoryOf(req, graph, Some(tags), advisory, parts)
    ensures r in parts.added ==>
      && r.isDeprecated && r.changelogContent == [] && r.digest == ""
      && AdvisoryURL(graph.nodes.value, advisory, r.version, r.changelogURL) && FillsIn(req, parts, tags, r.version)
    ensures FillsIn(req, parts, tags, version) ==> exists q :: q in parts.added && q.version == version
  {
    hide NodesSound, EdgesSound, TextPrecedes, Parse, InWindow, FreshNames, SortedTargets;
    var nodes := graph.nodes.value;
    var urls :| IsAdvisoryMap(nodes, advisory, urls)
      && IsHistory(tags, req.currentVersion, urls, Base(graph, req.lag, parts), parts.added);
    EligibleNames(req, graph, parts);
    HistoryIsExact(req, graph, tags, advisory, parts, urls, r);
    var entry := Release(version, true, [], if version in urls then urls[version] else "", "");
    HistoryIsExact(req, graph, tags, advisory, parts, urls, entry);
    hide IsHistory, Base, DropHighest;
    if r in parts.added {
      AdvisoryURLFromMap(nodes, advisory, urls, r.version, r.changelogURL);
    }
  }

  lemma AdvisoryURLFromMap(nodes: seq<Node>, advisory: IsAdvisory, urls: map<string, string>, version: string, url: string)
    requires IsAdvisoryMap(nodes, advisory, urls) && url == if version in urls then urls[version] else ""
    ensures AdvisoryURL(nodes, advisory, version, url)
  {
  }

  lemma EligibleNames(req: UpdateRequest, graph: Graph, parts: Parts)
    requires Sound(graph) && req.lag >= 0 && Selected(req, graph, parts)
    ensures forall v :: v in Names(Base(graph, req.lag, parts)) <==> Eligible(req, parts, v)
  {
    hide NodesSound, EdgesSound, SortedTargets;
    var base := Base(graph, req.lag, parts);
    assert base[0].version == req.currentVersion && base[0] in base;
    assert forall r :: r in base <==> r == base[0] || r in DropHighest(parts.targets, req.lag);
  }

  lemma HistoryNeedsTheStream(client: Client, req: UpdateRequest, graph: Graph, answer: StreamAnswer, advisory: IsAdvisory,
                              out: seq<Release>, parts: Parts)
    requires req.lag >= 0 && Sound(graph) && Successful(client, req, graph, answer, advisory, out, parts)
    ensures parts.added != [] ==> NeedsStream(client, req, graph, parts)
    ensures NeedsStream(client, req, graph, parts) ==>
      answer.StreamTags? && answer.tags.Some? && HistoryOf(req, graph, answer.tags, advisory, parts)
  {
    assert req.lag >= 0 && graph.nodes.Some? && parts.current < |graph.nodes.value|;
    hide *;
  }

  /** A release of a successful answer is deprecated exactly when it is neither the installed release
      nor a kept successor. The others carry their node's URL and digest; a deprecated one fills in
      an accepted stream release, and carries its advisory's URL and nothing else. */
  lemma AnswerFields(client: Client, req: UpdateRequest, graph: Graph, answer: StreamAnswer, advisory: IsAdvisory,
                     out: seq<Release>, parts: Parts, r: Release)
    requires req.lag >= 0 && Sound(graph) && Successful(client, req, graph, answer, advisory, out, parts)
    requires r in out
    ensures r.changelogContent == []
    ensures r.isDeprecated <==> !Eligible(req, parts, r.version)
    ensures !r.isDeprecated ==> exists i :: IsNodeOf(graph, parts.current, r, i)
    ensures r.isDeprecated ==> r.digest == "" && AdvisoryURL(graph.nodes.value, advisory, r.version, r.changelogURL)
    ensures r.isDeprecated ==> NeedsStream(client, req, graph, parts)
    ensures r.isDeprecated ==>
      answer.StreamTags? && answer.tags.Some? && FillsIn(req, parts, answer.tags.value, r.version)
  {
    assert req.lag >= 0 && graph.nodes.Some? && parts.current < |graph.nodes.value|;
    hide *;
    AnswerParts(client, req, graph, answer, advisory, out, parts, r);
    HistoryNeedsTheStream(client, req, graph, answer, advisory, out, parts);
    if r in Base(graph, req.lag, parts) {
      EligibleFields(req, graph, parts, r);
    } else {
      HistoryFields(req, graph, answer.tags.value, advisory, parts, r.version, r);
      FillsInIsNotEligible(req, parts, answer.tags.value, r.version);
    }
  }

  lemma FillsInIsNotEligible(req: UpdateRequest, parts: Parts, tags: seq<Tag>, version: string)
    requires req.lag >= 0 && FillsIn(req, parts, tags, version)
    ensures !Eligible(req, parts, version)
  {
  }

  /** Every accepted stream release that fills in is in the answer, when the stream is asked for. */
  lemma AcceptedReleasesFillIn(client: Client, req: UpdateRequest, graph: Graph, answer: StreamAnswer, advisory: IsAdvisory,
                               out: seq<Release>, parts: Parts, version: string)
    requires req.lag >= 0 && Sound(graph) && Successful(client, req, graph, answer, advisory, out, parts)
    requires NeedsStream(client, req, graph, parts)
    ensures answer.StreamTags? && answer.tags.Some?
    ensures FillsIn(req, parts, answer.tags.value, version) ==> exists q :: q in out && q.version == version && q.isDeprecated
  {
    hide Base, NodesSound, EdgesSound, SortedTargets, HistoryOf, Blank, Eligible, FillsIn, Assembled, AdvisoryURL, HasStream;
    if FillsIn(req, parts, answer.tags.value, version) {
      var any := Release(version, true, [], "", "");
      HistoryFields(req, graph, answer.tags.value, advisory, parts, version, any);
      var q :| q in parts.added && q.version == version;
      HistoryFields(req, graph, answer.tags.value, advisory, parts, version, q);
      AnswerParts(client, req, graph, answer, advisory, out, parts, q);
    }
  }

  /** The graph names a release that only the stream brings into the answer. */
  ghost predicate StreamBringsANode(client: Client, req: UpdateRequest, graph: Graph, answer: StreamAnswer, parts: Parts)
    requires req.lag >= 0 && graph.nodes.Some? && parts.current < |graph.nodes.value|
  {
    && NeedsStream(client, req, graph, parts) && answer.StreamTags? && answer.tags.Some?
    && exists v :: NamedByGraph(graph, v) && FillsIn(req, parts, answer.tags.value, v)
  }

  /** So the deprecated releases are the ones the graph does not name, exactly unless the stream
      brings back a node that is no kept successor. */
  lemma DeprecatedIffUnnamedIff(client: Client, req: UpdateRequest, graph: Graph, answer: StreamAnswer, advisory: IsAdvisory,
                                out: seq<Release>, parts: Parts)
    requires req.lag >= 0 && Sound(graph) && Successful(client, req, graph, answer, advisory, out, parts)
    ensures (forall r :: r in out ==> (r.isDeprecated <==> !NamedByGraph(graph, r.version)))
       <==> !StreamBringsANode(client, req, graph, answer, parts)
  {
    hide Base, NodesSound, EdgesSound, SortedTargets, HistoryOf, Blank, FillsIn, Assembled, AdvisoryURL, HasStream, Eligible;
    if StreamBringsANode(client, req, graph, answer, parts) {
      var v :| NamedByGraph(graph, v) && FillsIn(req, parts, answer.tags.value, v);
      AcceptedReleasesFillIn(client, req, graph, answer, advisory, out, parts, v);
    } else {
      forall r | r in out ensures r.isDeprecated <==> !NamedByGraph(graph, r.version) {
        NamedUnlessBrought(client, req, graph, answer, advisory, out, parts, r);
      }
    }
  }

  lemma NamedUnlessBrought(client: Client, req: UpdateRequest, graph: Graph, answer: StreamAnswer, advisory: IsAdvisory,
                           out: seq<Release>, parts: Parts, r: Release)
    requires req.lag >= 0 && Sound(graph) && Successful(client, req, graph, answer, advisory, out, parts)
    requires !StreamBringsANode(client, req, graph, answer, parts) && r in out
    ensures r.isDeprecated <==> !NamedByGraph(graph, r.version)
  {
    AnswerFields(client, req, graph, answer, advisory, out, parts, r);
    hide Sound, Selected, AnswersFrom, Rejected, FillsIn, AdvisoryURL, NeedsStream, Eligible, OneEdgeAway;
    if !r.isDeprecated {
      var i: nat :| IsNodeOf(graph, parts.current, r, i);
      assert graph.nodes.value[i] in graph.nodes.value;
    }
  }
}
