/** The decoded Cincinnati graph: its validation and the direct successors of one release. */
module ReleaseGraph {
  import opened Orders
  import opened SemVer
  import opened FamilyOrder
  import opened OpenShiftTypes
  import opened ReleaseOrder

  /** url and digest are the metadata values, "" when absent. */
  datatype Node = Node(version: string, url: string, digest: string)

  /** An edge is a JSON array of integers or nulls; a missing or null list is None. */
  type Edge = seq<Option<int>>

  datatype Graph = Graph(nodes: Option<seq<Node>>, edges: Option<seq<Edge>>)

  datatype Error =
    | ChannelRequired
    | ArchitectureRequired
    | CurrentVersionRequired
    | NegativeLag
    | GraphUnavailable
    | GraphIncomplete
    | NodeVersionMissing
    | DuplicateVersion(version: string)
    | EdgeShape
    | EdgeOutOfRange
    | CurrentVersionNotFound
    | StreamUnavailable

  function ReleaseOf(n: Node): Release
  {
    Release(n.version, false, [], n.url, n.digest)
  }

  // ---- Validation

  predicate NodeFault(nodes: seq<Node>, i: nat, error: Error)
    requires i < |nodes|
  {
    if nodes[i].version == "" then error == NodeVersionMissing
    else error == DuplicateVersion(nodes[i].version) && exists j :: 0 <= j < i && nodes[j].version == nodes[i].version
  }

  predicate NodesSound(nodes: seq<Node>)
  {
    && (forall i :: 0 <= i < |nodes| ==> nodes[i].version != "")
    && (forall i, j :: 0 <= i < j < |nodes| ==> nodes[i].version != nodes[j].version)
  }

  predicate EdgeWellShaped(edge: Edge)
  {
    |edge| == 2 && edge[0].Some? && edge[1].Some?
  }

  predicate EdgeInRange(edge: Edge, n: nat)
    requires EdgeWellShaped(edge)
  {
    0 <= edge[0].value < n && 0 <= edge[1].value < n
  }

  predicate EdgesSound(edges: seq<Edge>, n: nat)
  {
    forall k :: 0 <= k < |edges| ==> EdgeWellShaped(edges[k]) && EdgeInRange(edges[k], n)
  }

  /** The first fault in document order. */
  ghost predicate FirstNodeFault(nodes: seq<Node>, error: Error)
  {
    exists i :: 0 <= i < |nodes| && NodesSound(nodes[..i]) && NodeFault(nodes, i, error)
  }

  ghost predicate FirstEdgeFault(edges: seq<Edge>, n: nat, error: Error)
  {
    exists k :: 0 <= k < |edges| && EdgesSound(edges[..k], n)
      && error == (if !EdgeWellShaped(edges[k]) then EdgeShape else EdgeOutOfRange)
      && !(EdgeWellShaped(edges[k]) && EdgeInRange(edges[k], n))
  }

  method CheckNodes(nodes: seq<Node>) returns (error: Option<Error>)
    ensures error.None? <==> NodesSound(nodes)
    ensures error.Some? ==> FirstNodeFault(nodes, error.value)
  {
    var versions: set<string> := {};
    for i := 0 to |nodes|
      invariant forall v :: v in versions <==> exists k :: 0 <= k < i && nodes[k].version == v
      invariant NodesSound(nodes[..i])
    {
      if nodes[i].version == "" { return Some(NodeVersionMissing); }
      if nodes[i].version in versions { return Some(DuplicateVersion(nodes[i].version)); }
      versions := versions + {nodes[i].version};
    }
    assert nodes[..|nodes|] == nodes;
    return None;
  }

  method CheckEdges(edges: seq<Edge>, n: nat) returns (error: Option<Error>)
    ensures error.None? <==> EdgesSound(edges, n)
    ensures error.Some? ==> FirstEdgeFault(edges, n, error.value)
  {
    for k := 0 to |edges|
      invariant EdgesSound(edges[..k], n)
    {
      var edge := edges[k];
      if |edge| != 2 || edge[0].None? || edge[1].None? { return Some(EdgeShape); }
      if edge[0].value < 0 || edge[0].value >= n || edge[1].value < 0 || edge[1].value >= n {
        return Some(EdgeOutOfRange);
      }
    }
    assert edges[..|edges|] == edges;
    return None;
  }

  // ---- The installed release and its successors

  method FindCurrent(nodes: seq<Node>, version: string) returns (current: Option<nat>)
    ensures current.Some? ==> current.value < |nodes| && nodes[current.value].version == version
    ensures current.None? ==> forall n :: n in nodes ==> n.version != version
  {
    for i := 0 to |nodes|
      invariant forall k :: 0 <= k < i ==> nodes[k].version != version
    {
      if nodes[i].version == version { return Some(i); }
    }
    return None;
  }

  /** r is the release one edge away from current. */
  ghost predicate IsTarget(nodes: seq<Node>, edges: seq<Edge>, current: nat, r: Release)
    requires EdgesSound(edges, |nodes|)
  {
    exists k :: 0 <= k < |edges| && edges[k][0].value == current && edges[k][1].value != current
      && r == ReleaseOf(nodes[edges[k][1].value])
  }

  /** The direct successors in sortReleases' order, each once. */
  ghost predicate SortedTargets(nodes: seq<Node>, edges: seq<Edge>, current: nat, targets: seq<Release>)
    requires EdgesSound(edges, |nodes|)
  {
    && (forall r :: r in targets <==> IsTarget(nodes, edges, current, r))
    && DistinctVersions(targets)
    && (Contiguous(VersionKey, Names(targets)) ==> Sorted(ReleaseLess, targets))
  }

  ghost predicate DistinctVersions(releases: seq<Release>)
  {
    forall i, j :: 0 <= i < j < |releases| ==> releases[i].version != releases[j].version
  }

  lemma PermutedVersions(releases: seq<Release>, sorted: seq<Release>)
    requires multiset(sorted) == multiset(releases) && DistinctVersions(releases)
    ensures DistinctVersions(sorted) && forall r :: r in sorted <==> r in releases
  {
    SameElements(sorted, releases);
    assert forall r :: r in sorted <==> r in Elements(sorted);
    assert Distinct(releases);
    DistinctPermutation(releases, sorted);
    forall i, j | 0 <= i < j < |sorted| ensures sorted[i].version != sorted[j].version {
      assert sorted[i] in Elements(sorted) && sorted[j] in Elements(sorted);
    }
  }

  method TargetIndexes(nodes: seq<Node>, edges: seq<Edge>, current: nat) returns (indexes: set<nat>)
    requires EdgesSound(edges, |nodes|)
    ensures forall t :: t in indexes ==> t < |nodes|
    ensures forall r :: (exists t :: t in indexes && r == ReleaseOf(nodes[t])) <==> IsTarget(nodes, edges, current, r)
  {
    indexes := {};
    for k := 0 to |edges|
      invariant forall t :: t in indexes <==>
        exists m :: 0 <= m < k && edges[m][0].value == current && edges[m][1].value != current && edges[m][1].value == t
    {
      if edges[k][0].value == current && edges[k][1].value != current {
        indexes := indexes + {edges[k][1].value};
      }
    }
  }

  method Targets(nodes: seq<Node>, edges: seq<Edge>, current: nat) returns (targets: seq<Release>)
    requires NodesSound(nodes) && EdgesSound(edges, |nodes|)
    ensures SortedTargets(nodes, edges, current, targets)
  {
    hide Contiguous, IsTarget, ReleaseLess;
    var indexes := TargetIndexes(nodes, edges, current);
    var found: seq<Release> := [];
    var rest := indexes;
    while rest != {}
      invariant rest <= indexes && DistinctVersions(found)
      invariant forall r :: r in found <==> exists t :: t in indexes && t !in rest && r == ReleaseOf(nodes[t])
      decreases rest
    {
      var t :| t in rest;
      forall r | r in found ensures r.version != nodes[t].version {
        var u :| u in indexes && u !in rest && r == ReleaseOf(nodes[u]);
      }
      found, rest := found + [ReleaseOf(nodes[t])], rest - {t};
    }
    targets := SortReleases(found);
    PermutedVersions(found, targets);
    assert Names(targets) == Names(found);
  }

  /** All but the `lag` highest: those after which at least `lag` follow. */
  function DropHighest(targets: seq<Release>, lag: nat): seq<Release>
  {
    if lag >= |targets| then [] else targets[..|targets| - lag]
  }

  // ---- What lag withholds

  ghost function Above(targets: seq<Release>, r: Release): set<Release>
  {
    set q | q in targets && TextPrecedes(r.version, q.version)
  }

  lemma {:induction false} ElementsCount<T>(xs: seq<T>)
    requires Distinct(xs)
    ensures |Elements(xs)| == |xs|
  {
    if xs != [] {
      ElementsCount(xs[1..]);
      assert Elements(xs) == {xs[0]} + Elements(xs[1..]) && xs[0] !in xs[1..];
    }
  }

  lemma AboveCount(targets: seq<Release>, i: nat)
    requires Ascending(targets) && i < |targets|
    ensures |Above(targets, targets[i])| == |targets| - i - 1
  {
    hide TextPrecedes;
    var higher := targets[i + 1..];
    forall j, k | 0 <= j < |targets| && 0 <= k < |targets| && j <= k
      ensures !TextPrecedes(targets[k].version, targets[j].version)
    {
      NeverBack(targets, j, k);
    }
    forall j, k | 0 <= j < k < |higher| ensures higher[j] != higher[k] {
      assert TextPrecedes(targets[i + 1 + j].version, targets[i + 1 + k].version);
    }
    assert Above(targets, targets[i]) == Elements(higher);
    ElementsCount(higher);
  }

  lemma NeverBack(targets: seq<Release>, j: nat, k: nat)
    requires Ascending(targets) && j <= k < |targets|
    ensures !TextPrecedes(targets[k].version, targets[j].version)
  {
    hide Parse, LessThan;
    var a, b := targets[j].version, targets[k].version;
    if Parse(a).Some? && Parse(b).Some? { LessThanOrder(Parse(a).value, Parse(b).value, Parse(a).value); }
    if Parse(a).Some? { LessThanOrder(Parse(a).value, Parse(a).value, Parse(a).value); }
  }

  /** A successor is kept exactly when at least `lag` successors are higher. */
  lemma KeptIffEnoughAbove(targets: seq<Release>, lag: nat, r: Release)
    requires Ascending(targets)
    ensures r in DropHighest(targets, lag) <==> r in targets && |Above(targets, r)| >= lag
  {
    if r in targets {
      forall i | 0 <= i < |targets| && targets[i] == r ensures |Above(targets, r)| == |targets| - i - 1 {
        AboveCount(targets, i);
      }
    }
  }
}
