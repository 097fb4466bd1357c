/** What a successful OpenShift answer contains, and in which order. */
module ReleaseAnswers {
  import opened Orders
  import opened SemVer
  import opened FamilyOrder
  import opened OpenShiftTypes
  import opened ReleaseOrder
  import opened ReleaseStream
  import opened ReleaseGraph
  import opened ReleaseUpdates

  /** The releases of a successful answer, one by one: the installed one, each direct successor
      with at least `lag` higher ones, and the stream history. */
  lemma AnswerIsExact(client: Client, req: UpdateRequest, graph: Graph, answer: StreamAnswer, advisory: IsAdvisory,
                      out: seq<Release>, parts: Parts, r: Release)
    requires Rejected(req).None? && Sound(graph)
    requires Selected(req, graph, parts) && AnswersFrom(client, req, graph, answer, advisory, Ok(out), parts)
    requires PrecedenceDistinct(Names(parts.targets))
    ensures r in out <==>
      || r == ReleaseOf(graph.nodes.value[parts.current])
      || (IsTarget(graph.nodes.value, graph.edges.value, parts.current, r) && |Above(parts.targets, r)| >= req.lag)
      || r in parts.added
  {
    hide IsTarget, Above, HistoryOf, Contiguous, NodesSound, EdgesSound, Complete, HasStream;
    TargetsAscend(req, graph, parts);
    KeptIffEnoughAbove(parts.targets, req.lag, r);
    var all := Base(graph, req.lag, parts) + parts.added;
    SameElements(out, all);
    assert r in out <==> r in Elements(out);
    assert r in all <==> r in Elements(all);
  }

  lemma TargetsAscend(req: UpdateRequest, graph: Graph, parts: Parts)
    requires Sound(graph) && Selected(req, graph, parts) && PrecedenceDistinct(Names(parts.targets))
    ensures Ascending(parts.targets)
  {
    hide IsTarget, Contiguous, NodesSound, EdgesSound, Ascending;
    ValidNamesAreContiguous(Names(parts.targets));
    SortedIsAscending(parts.targets);
  }

  ghost predicate ReachesKept(kept: seq<Release>, version: string)
  {
    exists k :: k in kept && Parse(k.version).Some? && !TextPrecedes(k.version, version)
  }

  lemma VersionsHold(releases: seq<Release>)
    ensures forall v :: v in Versions(releases) <==> v in Names(releases)
  {
    forall v | v in Names(releases) ensures v in Versions(releases) {
      var i :| 0 <= i < |releases| && releases[i].version == v;
      assert Versions(releases)[i] == v;
    }
  }

  lemma HistoryMembers(tags: seq<Tag>, from: string, limit: string, urls: map<string, string>, releases: seq<Release>,
                       added: seq<Release>, r: Release)
    requires HistoryUpTo(tags, from, limit, urls, releases, added)
    ensures r in added <==>
      && r == HistoryEntry(r.version, urls) && r.version !in Names(releases)
      && AcceptedName(tags, r.version) && InWindow(r.version, from, limit)
  {
    hide InWindow, AcceptedName, HistoryEntry;
    var names := FreshNames(tags, from, limit, releases);
    FilterMembers(n => n !in Names(releases), StreamNames(tags, from, limit));
    FilterMembers(n => InWindow(n, from, limit), AcceptedNames(tags));
    AcceptedNamesHold(tags);
    VersionsHold(added);
    assert r.version in Versions(added) <==> r.version in names by {
      assert r.version in Versions(added) <==> r.version in multiset(Versions(added));
      assert r.version in names <==> r.version in multiset(names);
    }
    if r.version in Names(added) {
      var q :| q in added && q.version == r.version;
    }
  }

  /** The stream history, one by one: accepted releases without a prerelease, above the installed
      version, not above every kept successor, and not already named by the answer. */
  lemma HistoryIsExact(req: UpdateRequest, graph: Graph, tags: seq<Tag>, advisory: IsAdvisory, parts: Parts,
                       urls: map<string, string>, r: Release)
    requires Sound(graph) && req.lag >= 0 && Selected(req, graph, parts)
    requires HistoryOf(req, graph, Some(tags), advisory, parts) && IsAdvisoryMap(graph.nodes.value, advisory, urls)
    ensures r in parts.added <==>
      && r == HistoryEntry(r.version, urls)
      && AcceptedName(tags, r.version)
      && TextPrecedes(req.currentVersion, r.version)
      && ReachesKept(DropHighest(parts.targets, req.lag), r.version)
      && r.version !in Names(Base(graph, req.lag, parts))
  {
    hide NodesSound, EdgesSound, TextPrecedes, AcceptedName, IsAdvisoryMap, InWindow, ReachesKept, FreshNames;
    var base := Base(graph, req.lag, parts);
    var same :| IsAdvisoryMap(graph.nodes.value, advisory, same)
      && IsHistory(tags, req.currentVersion, same, base, parts.added);
    AdvisoryMapIsUnique(graph.nodes.value, advisory, same, urls);
    var limit :| IsLatest(base, limit) && HistoryUpTo(tags, req.currentVersion, limit, urls, base, parts.added);
    assert base[1..] == DropHighest(parts.targets, req.lag);
    hide Base, DropHighest, IsLatest, SortedTargets, HistoryUpTo;
    WindowReachesKept(req.currentVersion, base, limit, r.version);
    HistoryMembers(tags, req.currentVersion, limit, urls, base, parts.added, r);
  }

  lemma AdvisoryMapIsUnique(nodes: seq<Node>, advisory: IsAdvisory, a: map<string, string>, b: map<string, string>)
    requires NodesSound(nodes) && IsAdvisoryMap(nodes, advisory, a) && IsAdvisoryMap(nodes, advisory, b)
    ensures a == b
  {
    assert forall v :: v in a <==> v in b;
    forall v | v in a ensures a[v] == b[v] {
      var n :| n in nodes && advisory(n.url) && n.version == v;
    }
  }

  /** A version is in the window up to the latest release exactly when it is above the installed
      one and some release after the installed one is at least as high. */
  lemma WindowReachesKept(from: string, base: seq<Release>, limit: string, version: string)
    requires base != [] && base[0].version == from && IsLatest(base, limit)
    ensures InWindow(version, from, limit) <==> TextPrecedes(from, version) && ReachesKept(base[1..], version)
  {
    hide Parse, LessThan;
    if InWindow(version, from, limit) {
      PrecedesBoth(from, version, from);
      var k :| k in base && k.version == limit;
      if k == base[0] {
        assert false;
      }
      assert k in base[1..];
    }
    if TextPrecedes(from, version) && ReachesKept(base[1..], version) {
      var k :| k in base[1..] && Parse(k.version).Some? && !TextPrecedes(k.version, version);
      assert k in base && !TextPrecedes(limit, k.version);
      if TextPrecedes(limit, version) {
        LessThanOrder(Parse(limit).value, Parse(version).value, Parse(k.version).value);
        LessThanOrder(Parse(k.version).value, Parse(limit).value, Parse(version).value);
        assert false;
      }
    }
  }

  // ---- Order

  /** A successor is another node than the installed release, so it has another version. */
  lemma TargetIsNotCurrent(req: UpdateRequest, graph: Graph, parts: Parts, r: Release)
    requires Sound(graph) && Selected(req, graph, parts) && r in parts.targets
    ensures r.version != req.currentVersion
  {
    assert IsTarget(graph.nodes.value, graph.edges.value, parts.current, r);
  }

  /** No version twice, and no two of the same precedence. */
  ghost predicate Untied(versions: seq<string>)
  {
    Distinct(versions) && forall x, y :: x in versions && y in versions && x != y ==> Parse(x) != Parse(y)
  }

  lemma UntiedPermuted(xs: seq<string>, ys: seq<string>)
    requires multiset(xs) == multiset(ys) && Untied(xs)
    ensures Untied(ys)
  {
    hide Parse;
    DistinctPermutation(xs, ys);
    SameElements(xs, ys);
    assert forall y :: y in ys ==> y in Elements(ys) && y in Elements(xs);
  }

  function Without<T>(xs: seq<T>, i: nat): seq<T>
    requires i < |xs|
  {
    xs[..i] + xs[i + 1..]
  }

  lemma WithoutCounts<T>(xs: seq<T>, i: nat)
    requires i < |xs|
    ensures multiset(xs) == multiset(Without(xs, i)) + multiset{xs[i]}
  {
    assert xs == xs[..i] + [xs[i]] + xs[i + 1..];
  }

  lemma WithoutVersions(xs: seq<Release>, i: nat)
    requires i < |xs|
    ensures Versions(Without(xs, i)) == Without(Versions(xs), i)
    ensures multiset(Versions(xs)) == multiset(Versions(Without(xs, i))) + multiset{xs[i].version}
  {
    WithoutCounts(Versions(xs), i);
  }

  lemma {:induction false} VersionsPermuted(xs: seq<Release>, ys: seq<Release>)
    requires multiset(xs) == multiset(ys)
    ensures multiset(Versions(xs)) == multiset(Versions(ys))
    decreases |xs|
  {
    SameElements(xs, ys);
    if xs != [] {
      assert xs[0] in Elements(xs) && xs[0] in Elements(ys);
      var i :| 0 <= i < |ys| && ys[i] == xs[0];
      hide Without, Versions;
      WithoutCounts(xs, 0);
      WithoutCounts(ys, i);
      Cancel(multiset(Without(xs, 0)), multiset(Without(ys, i)), xs[0]);
      SameElements(Without(xs, 0), Without(ys, i));
      assert |multiset(xs)| == |multiset(Without(xs, 0))| + 1;
      VersionsPermuted(Without(xs, 0), Without(ys, i));
      WithoutVersions(xs, 0);
      WithoutVersions(ys, i);
    }
  }

  /** Sorted valid releases ascend exactly when none tie. */
  lemma AscendingIffUntied(out: seq<Release>)
    requires (forall r :: r in out ==> Parse(r.version).Some?) && Sorted(ReleaseLess, out)
    ensures Ascending(out) <==> Untied(Versions(out))
  {
    hide Parse, LessThan, TextLess;
    var versions := Versions(out);
    if Ascending(out) {
      forall i, j | 0 <= i < j < |out| ensures Parse(versions[i]) != Parse(versions[j]) {
        assert TextPrecedes(out[i].version, out[j].version);
        PrecedesBoth(out[i].version, out[j].version, out[j].version);
      }
    }
    if Untied(versions) {
      forall i, j | 0 <= i < j < |out| ensures TextPrecedes(out[i].version, out[j].version) {
        assert versions[i] in versions && versions[j] in versions && versions[i] != versions[j];
        var a, b := Parse(out[i].version).value, Parse(out[j].version).value;
        LessThanOrder(a, b, a);
        assert out[i] in out && out[j] in out && !ReleaseLess(out[j], out[i]);
      }
    }
  }

  /** The accepted releases above the installed one and not above every kept one that base does not
      name, as often as the stream lists them. */
  ghost function HistoryNames(tags: seq<Tag>, from: string, base: seq<Release>): seq<string>
    requires base != []
  {
    Filter(n => TextPrecedes(from, n) && ReachesKept(base[1..], n) && n !in Names(base), AcceptedNames(tags))
  }

  lemma FreshIsHistory(tags: seq<Tag>, from: string, limit: string, base: seq<Release>)
    requires base != [] && base[0].version == from && IsLatest(base, limit)
    ensures FreshNames(tags, from, limit, base) == HistoryNames(tags, from, base)
  {
    hide InWindow, TextPrecedes, ReachesKept, IsLatest;
    forall n ensures InWindow(n, from, limit) <==> TextPrecedes(from, n) && ReachesKept(base[1..], n) {
      WindowReachesKept(from, base, limit, n);
    }
    FilterTwice(n => n !in Names(base), n => InWindow(n, from, limit),
                n => TextPrecedes(from, n) && ReachesKept(base[1..], n) && n !in Names(base), AcceptedNames(tags));
  }

  /** The versions of the history of a request, as often as they are appended. */
  ghost function History(client: Client, req: UpdateRequest, graph: Graph, answer: StreamAnswer, parts: Parts): seq<string>
    requires graph.nodes.Some? && parts.current < |graph.nodes.value| && req.lag >= 0
  {
    if NeedsStream(client, req, graph, parts) && answer.StreamTags? && answer.tags.Some?
    then HistoryNames(answer.tags.value, req.currentVersion, Base(graph, req.lag, parts))
    else []
  }

  lemma HistoryOfIsHistory(req: UpdateRequest, graph: Graph, tags: seq<Tag>, advisory: IsAdvisory, parts: Parts)
    requires graph.nodes.Some? && parts.current < |graph.nodes.value| && req.lag >= 0
    requires graph.nodes.value[parts.current].version == req.currentVersion
    requires HistoryOf(req, graph, Some(tags), advisory, parts)
    ensures multiset(Versions(parts.added)) == multiset(HistoryNames(tags, req.currentVersion, Base(graph, req.lag, parts)))
    ensures forall r :: r in parts.added ==> Parse(r.version).Some? && TextPrecedes(req.currentVersion, r.version)
  {
    hide InWindow, TextPrecedes, ReachesKept, IsAdvisoryMap, FreshNames, HistoryNames;
    var base := Base(graph, req.lag, parts);
    var urls :| IsAdvisoryMap(graph.nodes.value, advisory, urls)
      && IsHistory(tags, req.currentVersion, urls, base, parts.added);
    var limit :| IsLatest(base, limit) && HistoryUpTo(tags, req.currentVersion, limit, urls, base, parts.added);
    FreshIsHistory(tags, req.currentVersion, limit, base);
    hide IsLatest, Base;
    forall r | r in parts.added ensures Parse(r.version).Some? && TextPrecedes(req.currentVersion, r.version) {
      HistoryMembers(tags, req.currentVersion, limit, urls, base, parts.added, r);
      WindowIsAbove(r.version, req.currentVersion, limit);
    }
  }

  lemma WindowIsAbove(version: string, from: string, limit: string)
    requires InWindow(version, from, limit)
    ensures TextPrecedes(from, version) && Parse(version).Some?
  {}

  /** What the parts come to: base and history, by their versions. */
  lemma AnswerVersions(client: Client, req: UpdateRequest, graph: Graph, answer: StreamAnswer, advisory: IsAdvisory,
                       out: seq<Release>, parts: Parts)
    requires Rejected(req).None? && Sound(graph)
    requires Selected(req, graph, parts) && AnswersFrom(client, req, graph, answer, advisory, Ok(out), parts)
    ensures multiset(Versions(parts.added)) == multiset(History(client, req, graph, answer, parts))
    ensures forall r :: r in parts.added ==> Parse(r.version).Some? && TextPrecedes(req.currentVersion, r.version)
    ensures |Base(graph, req.lag, parts)| < 2 ==> parts.added == []
  {
    hide NodesSound, EdgesSound, SortedTargets, HistoryOf, Assembled, HasStream, Blank, HistoryNames, TextPrecedes;
    if NeedsStream(client, req, graph, parts) {
      HistoryOfIsHistory(req, graph, answer.tags.value, advisory, parts);
    } else {
      assert parts.added == [];
    }
  }

  /** The installed release is alone, or every version from the graph is valid and none of them and
      of the history's tie. */
  ghost predicate NoTies(base: seq<Release>, history: seq<string>)
  {
    |base| == 1 || ((forall r :: r in base ==> Parse(r.version).Some?) && Untied(Versions(base) + history))
  }

  lemma AscendsIff(base: seq<Release>, added: seq<Release>, history: seq<string>, out: seq<Release>)
    requires multiset(out) == multiset(base + added) && multiset(Versions(added)) == multiset(history) && base != []
    requires Contiguous(VersionKey, Names(base + added)) ==> Sorted(ReleaseLess, out)
    requires forall r :: r in added ==> Parse(r.version).Some?
    requires |base| < 2 ==> added == []
    ensures Ascending(out) <==> NoTies(base, history)
  {
    hide Parse, LessThan, TextLess, Contiguous, ReleaseLess;
    SameElements(out, base + added);
    forall r ensures r in out <==> r in base || r in added {
      assert r in out <==> r in Elements(out);
      assert r in Elements(base + added) <==> r in base || r in added;
    }
    if forall r :: r in base ==> Parse(r.version).Some? {
      ValidNamesAreContiguous(Names(base + added));
      AscendingIffUntied(out);
      VersionsPermuted(out, base + added);
      assert Versions(base + added) == Versions(base) + Versions(added);
      assert multiset(Versions(out)) == multiset(Versions(base) + history);
      if Untied(Versions(out)) { UntiedPermuted(Versions(out), Versions(base) + history); }
      if Untied(Versions(base) + history) { UntiedPermuted(Versions(base) + history, Versions(out)); }
      if |base| == 1 { assert |out| == 1; }
    } else if |base| > 1 {
      var r :| r in base && Parse(r.version).None?;
      assert r in out;
      var i :| 0 <= i < |out| && out[i] == r;
      InvalidNeverAscends(out, i);
    }
  }

  lemma InvalidNeverAscends(out: seq<Release>, i: nat)
    requires i < |out| && |out| > 1 && Parse(out[i].version).None?
    ensures !Ascending(out)
  {
    var j := if i == 0 then 1 else 0;
    assert !TextPrecedes(out[i].version, out[j].version) && !TextPrecedes(out[j].version, out[i].version);
  }

  /** The answer is strictly ascending, and so names every release once, exactly when the installed
      release is alone, or the graph's versions are valid and nothing ties among them and the history
      names, counted as often as the stream lists them. */
  lemma AnswerAscendsIff(client: Client, req: UpdateRequest, graph: Graph, answer: StreamAnswer, advisory: IsAdvisory,
                         out: seq<Release>, parts: Parts)
    requires Rejected(req).None? && Sound(graph)
    requires Selected(req, graph, parts) && AnswersFrom(client, req, graph, answer, advisory, Ok(out), parts)
    ensures Ascending(out) <==> NoTies(Base(graph, req.lag, parts), History(client, req, graph, answer, parts))
  {
    hide NodesSound, EdgesSound, SortedTargets, HistoryOf, HasStream, Blank, History, Contiguous, TextPrecedes;
    AnswerVersions(client, req, graph, answer, advisory, out, parts);
    AscendsIff(Base(graph, req.lag, parts), parts.added, History(client, req, graph, answer, parts), out);
  }

  lemma BaseIsDistinct(req: UpdateRequest, graph: Graph, parts: Parts)
    requires Sound(graph) && req.lag >= 0 && Selected(req, graph, parts)
    ensures Distinct(Versions(Base(graph, req.lag, parts)))
  {
    hide NodesSound, EdgesSound, IsTarget, Contiguous;
    var versions, kept := Versions(Base(graph, req.lag, parts)), DropHighest(parts.targets, req.lag);
    forall i | 0 < i < |versions| ensures versions[i] == kept[i - 1].version == parts.targets[i - 1].version {}
    forall i | 0 < i < |versions| ensures versions[i] != versions[0] {
      TargetIsNotCurrent(req, graph, parts, parts.targets[i - 1]);
    }
  }

  ghost function StreamNamesOf(answer: StreamAnswer): set<string>
  {
    if answer.StreamTags? && answer.tags.Some? then Elements(AcceptedNames(answer.tags.value)) else {}
  }

  lemma DistinctInputsDoNotTie(client: Client, req: UpdateRequest, graph: Graph, answer: StreamAnswer, parts: Parts)
    requires Sound(graph) && req.lag >= 0 && Selected(req, graph, parts)
    requires PrecedenceDistinct({req.currentVersion} + Names(parts.targets) + StreamNamesOf(answer))
    requires answer.StreamTags? && answer.tags.Some? ==> DistinctNames(answer.tags.value)
    ensures NoTies(Base(graph, req.lag, parts), History(client, req, graph, answer, parts))
  {
    BaseIsDistinct(req, graph, parts);
    HistoryIsDistinct(client, req, graph, answer, parts);
    BaseNames(req, graph, parts);
    hide *;
    NothingTies(Base(graph, req.lag, parts), History(client, req, graph, answer, parts),
                {req.currentVersion} + Names(parts.targets) + StreamNamesOf(answer));
  }

  /** In particular it ascends when the graph's versions and the accepted tags are valid and differ
      in precedence, and no tag is listed twice. */
  lemma AnswerAscends(client: Client, req: UpdateRequest, graph: Graph, answer: StreamAnswer, advisory: IsAdvisory,
                      out: seq<Release>, parts: Parts)
    requires Rejected(req).None? && Sound(graph)
    requires Selected(req, graph, parts) && AnswersFrom(client, req, graph, answer, advisory, Ok(out), parts)
    requires PrecedenceDistinct({req.currentVersion} + Names(parts.targets) + StreamNamesOf(answer))
    requires answer.StreamTags? && answer.tags.Some? ==> DistinctNames(answer.tags.value)
    ensures Ascending(out)
  {
    assert req.lag >= 0;
    hide *;
    AnswerAscendsIff(client, req, graph, answer, advisory, out, parts);
    DistinctInputsDoNotTie(client, req, graph, answer, parts);
  }

  lemma BaseNames(req: UpdateRequest, graph: Graph, parts: Parts)
    requires Sound(graph) && req.lag >= 0 && Selected(req, graph, parts)
    ensures Names(Base(graph, req.lag, parts)) <= {req.currentVersion} + Names(parts.targets)
  {
    hide NodesSound, EdgesSound, SortedTargets;
    var base := Base(graph, req.lag, parts);
    assert forall r :: r in base ==> r == base[0] || r in DropHighest(parts.targets, req.lag);
  }

  lemma NothingTies(base: seq<Release>, history: seq<string>, all: set<string>)
    requires PrecedenceDistinct(all) && Distinct(Versions(base)) && Distinct(history) && Names(base) <= all
    requires forall n :: n in history ==> n in all && n !in Names(base)
    ensures NoTies(base, history)
  {
    hide Parse;
    VersionsHold(base);
    forall r | r in base ensures r.version in Names(base) {}
    assert forall v :: v in Versions(base) + history <==> v in Versions(base) || v in history;
    DistinctJoin(Versions(base), history);
  }

  lemma DistinctJoin<T>(xs: seq<T>, ys: seq<T>)
    requires Distinct(xs) && Distinct(ys) && forall y :: y in ys ==> y !in xs
    ensures Distinct(xs + ys)
  {
    var all := xs + ys;
    forall i, j | 0 <= i < j < |all| ensures all[i] != all[j] {
      if i < |xs| <= j { assert all[i] in xs && all[j] in ys; }
    }
  }

  lemma HistoryIsDistinct(client: Client, req: UpdateRequest, graph: Graph, answer: StreamAnswer, parts: Parts)
    requires graph.nodes.Some? && parts.current < |graph.nodes.value| && req.lag >= 0
    requires answer.StreamTags? && answer.tags.Some? ==> DistinctNames(answer.tags.value)
    ensures var history := History(client, req, graph, answer, parts);
      && Distinct(history)
      && forall n :: n in history ==> n in StreamNamesOf(answer) && n !in Names(Base(graph, req.lag, parts))
  {
    hide ReachesKept, TextPrecedes, HasStream;
    var base := Base(graph, req.lag, parts);
    if answer.StreamTags? && answer.tags.Some? {
      var keep := n => TextPrecedes(req.currentVersion, n) && ReachesKept(base[1..], n) && n !in Names(base);
      AcceptedNamesDistinct(answer.tags.value);
      FilterDistinct(keep, AcceptedNames(answer.tags.value));
      FilterMembers(keep, AcceptedNames(answer.tags.value));
    }
  }

  // ---- Withheld releases

  /** The graph's successors have an order and no two of them the same precedence. */
  ghost predicate SuccessorsOrdered(parts: Parts)
  {
    && Contiguous(VersionKey, Names(parts.targets))
    && (forall a, b :: a in parts.targets && b in parts.targets && a != b && Parse(a.version).Some? ==>
          Parse(a.version) != Parse(b.version))
  }

  /** A successor that lag withholds is not in the answer under any guise: the stream never
      brings it back, whatever tags it lists. */
  lemma WithheldNeverReappears(client: Client, req: UpdateRequest, graph: Graph, answer: StreamAnswer, advisory: IsAdvisory,
                               out: seq<Release>, parts: Parts, withheld: Release)
    requires Rejected(req).None? && Sound(graph)
    requires Selected(req, graph, parts) && AnswersFrom(client, req, graph, answer, advisory, Ok(out), parts)
    requires SuccessorsOrdered(parts)
    requires withheld in parts.targets && withheld !in DropHighest(parts.targets, req.lag)
    ensures withheld.version !in Names(out)
  {
    hide NodesSound, EdgesSound, IsTarget, SuccessorsOrdered, SortedTargets, HistoryOf, Contiguous, HasStream;
    var installed, kept := ReleaseOf(graph.nodes.value[parts.current]), DropHighest(parts.targets, req.lag);
    SameElements(out, [installed] + kept + parts.added);
    if withheld.version in Names(out) {
      var r :| r in out && r.version == withheld.version;
      assert r in Elements(out) && r in Elements([installed] + kept + parts.added);
      TargetIsNotCurrent(req, graph, parts, withheld);
      if r in parts.added {
        HistoryBelowWithheld(req, graph, answer.tags, advisory, parts, withheld, r);
      } else {
        assert r in kept;
        SameVersionSameTarget(graph, parts, r, withheld);
      }
    }
  }

  lemma SameVersionSameTarget(graph: Graph, parts: Parts, a: Release, b: Release)
    requires graph.nodes.Some? && graph.edges.Some? && EdgesSound(graph.edges.value, |graph.nodes.value|)
    requires SortedTargets(graph.nodes.value, graph.edges.value, parts.current, parts.targets)
    requires a in parts.targets && b in parts.targets && a.version == b.version
    ensures a == b
  {}

  /** Every release of the history lies in the window that ends at the latest release. */
  lemma HistoryWindow(req: UpdateRequest, graph: Graph, tags: Option<seq<Tag>>, advisory: IsAdvisory, parts: Parts, r: Release)
    returns (limit: string)
    requires graph.nodes.Some? && parts.current < |graph.nodes.value| && req.lag >= 0 && tags.Some?
    requires HistoryOf(req, graph, tags, advisory, parts) && r in parts.added
    ensures IsLatest(Base(graph, req.lag, parts), limit) && InWindow(r.version, req.currentVersion, limit)
  {
    hide InWindow, TextPrecedes, IsAdvisoryMap, FreshNames;
    var base := Base(graph, req.lag, parts);
    var urls :| IsAdvisoryMap(graph.nodes.value, advisory, urls)
      && IsHistory(tags.value, req.currentVersion, urls, base, parts.added);
    limit :| IsLatest(base, limit) && HistoryUpTo(tags.value, req.currentVersion, limit, urls, base, parts.added);
    hide IsLatest, Base;
    HistoryMembers(tags.value, req.currentVersion, limit, urls, base, parts.added, r);
  }

  lemma HistoryBelowWithheld(req: UpdateRequest, graph: Graph, tags: Option<seq<Tag>>, advisory: IsAdvisory, parts: Parts,
                             withheld: Release, r: Release)
    requires Sound(graph) && req.lag >= 0 && Selected(req, graph, parts) && tags.Some?
    requires HistoryOf(req, graph, tags, advisory, parts) && SuccessorsOrdered(parts)
    requires withheld in parts.targets && withheld !in DropHighest(parts.targets, req.lag) && r in parts.added
    ensures r.version != withheld.version
  {
    hide NodesSound, EdgesSound, IsTarget, HistoryOf, SuccessorsOrdered, Contiguous, Parse, LessThan;
    var limit := HistoryWindow(req, graph, tags, advisory, parts, r);
    LatestIsKept(ReleaseOf(graph.nodes.value[parts.current]), DropHighest(parts.targets, req.lag), limit, r.version);
    var k :| k in DropHighest(parts.targets, req.lag) && k.version == limit;
    if r.version == withheld.version {
      KeptPrecedesWithheld(parts, req.lag, k, withheld);
    }
  }

  /** A window that holds anything ends at a kept successor. */
  lemma LatestIsKept(installed: Release, kept: seq<Release>, limit: string, version: string)
    requires IsLatest([installed] + kept, limit) && InWindow(version, installed.version, limit)
    ensures Parse(limit).Some? && exists k :: k in kept && k.version == limit
  {
    hide Parse, LessThan;
    var r :| r in [installed] + kept && r.version == limit;
    if r == installed { PrecedesBoth(installed.version, version, version); }
  }

  lemma KeptPrecedesWithheld(parts: Parts, lag: nat, kept: Release, withheld: Release)
    requires SuccessorsOrdered(parts) && (Contiguous(VersionKey, Names(parts.targets)) ==> Sorted(ReleaseLess, parts.targets))
    requires kept in DropHighest(parts.targets, lag)
    requires withheld in parts.targets && withheld !in DropHighest(parts.targets, lag)
    requires Parse(kept.version).Some? && Parse(withheld.version).Some?
    ensures TextPrecedes(kept.version, withheld.version)
  {
    hide Contiguous, Parse, LessThan, TextLess;
    var i :| 0 <= i < |parts.targets| - lag && parts.targets[i] == kept;
    var j :| 0 <= j < |parts.targets| && parts.targets[j] == withheld;
    assert forall m :: 0 <= m < |parts.targets| - lag ==> parts.targets[m] == DropHighest(parts.targets, lag)[m];
    assert !ReleaseLess(parts.targets[j], parts.targets[i]);
    var a, b := Parse(kept.version).value, Parse(withheld.version).value;
    LessThanOrder(a, b, a);
  }

  // ---- The installed release

  /** For valid graph versions of distinct precedence, the installed release comes first exactly
      when no kept successor is a downgrade, whatever the stream adds. */
  lemma InstalledIsFirstIffNoDowngrade(client: Client, req: UpdateRequest, graph: Graph, answer: StreamAnswer,
                                       advisory: IsAdvisory, out: seq<Release>, parts: Parts)
    requires Rejected(req).None? && Sound(graph)
    requires Selected(req, graph, parts) && AnswersFrom(client, req, graph, answer, advisory, Ok(out), parts)
    requires PrecedenceDistinct({req.currentVersion} + Names(parts.targets))
    ensures out != []
    ensures out[0] == ReleaseOf(graph.nodes.value[parts.current]) <==>
      forall k :: k in DropHighest(parts.targets, req.lag) ==> TextPrecedes(req.currentVersion, k.version)
  {
    hide NodesSound, EdgesSound, SortedTargets, HistoryOf, HasStream, Blank, History, Contiguous, TextPrecedes, Parse;
    var installed, kept := ReleaseOf(graph.nodes.value[parts.current]), DropHighest(parts.targets, req.lag);
    AnswerVersions(client, req, graph, answer, advisory, out, parts);
    forall k | k in kept ensures k.version != req.currentVersion && k.version in Names(parts.targets) {
      TargetIsNotCurrent(req, graph, parts, k);
    }
    FirstIffBelowTheRest(out, installed, kept, parts.added);
  }

  lemma FirstIffBelowTheRest(out: seq<Release>, installed: Release, kept: seq<Release>, added: seq<Release>)
    requires multiset(out) == multiset([installed] + kept + added)
    requires Contiguous(VersionKey, Names([installed] + kept + added)) ==> Sorted(ReleaseLess, out)
    requires Parse(installed.version).Some?
    requires forall k :: k in kept ==> Parse(k.version).Some? && Parse(k.version) != Parse(installed.version)
    requires forall r :: r in added ==> Parse(r.version).Some? && TextPrecedes(installed.version, r.version)
    ensures out != []
    ensures out[0] == installed <==> forall k :: k in kept ==> TextPrecedes(installed.version, k.version)
  {
    hide Parse, LessThan, TextLess, Contiguous;
    var all := [installed] + kept + added;
    SameElements(out, all);
    forall r ensures r in out <==> r == installed || r in kept || r in added {
      assert r in out <==> r in Elements(out);
      assert r in Elements(all) <==> r == installed || r in kept || r in added;
    }
    ValidNamesAreContiguous(Names(all));
    assert installed in out;
    var at :| 0 <= at < |out| && out[at] == installed;
    var a := Parse(installed.version).value;
    if out[0] == installed {
      forall k | k in kept ensures TextPrecedes(installed.version, k.version) {
        assert k in out;
        var j :| 0 <= j < |out| && out[j] == k;
        LessThanOrder(a, Parse(k.version).value, a);
      }
    } else {
      assert out[0] in out && !ReleaseLess(out[at], out[0]);
    }
  }
}
