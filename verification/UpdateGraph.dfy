/** One channel's update graph: edges, reachability, and what the resolver must compute. */
module UpdateGraph {
  import opened SemVer
  import opened CatalogTypes

  /** Whether a valid skip range accepts a version; false for an invalid range. */
  type RangeCheck = (string, Version) -> bool

  predicate RangeMatches(check: RangeCheck, expr: string, version: string)
  {
    expr != "" && version != "" && Parse(version).Some? && check(expr, Parse(version).value)
  }

  /** The entry declares an update from this bundle name and version. */
  predicate Accepts(check: RangeCheck, e: Entry, name: string, version: string)
  {
    e.replacing == name || name in e.skips || RangeMatches(check, e.skipRange, version)
  }

  /** Every bundle is stored under its own name, as catalog building guarantees. */
  ghost predicate NamedBundles(p: Package)
  {
    forall n :: n in p.bundles ==> p.bundles[n].name == n
  }

  function BundleVersion(p: Package, name: string): string
  {
    if name in p.bundles then p.bundles[name].version else ""
  }

  predicate HasEntry(ch: Channel, name: string)
  {
    exists i :: 0 <= i < |ch.entries| && ch.entries[i].name == name
  }

  /** next is a bundle of this channel that accepts name's update. */
  predicate Edge(check: RangeCheck, p: Package, ch: Channel, name: string, next: string)
  {
    && next in p.bundles
    && (exists i :: 0 <= i < |ch.entries| && ch.entries[i].name == next
          && Accepts(check, ch.entries[i], name, BundleVersion(p, name)))
  }

  predicate Terminal(check: RangeCheck, p: Package, ch: Channel, name: string)
  {
    forall i :: 0 <= i < |ch.entries| && Accepts(check, ch.entries[i], name, BundleVersion(p, name))
      ==> ch.entries[i].name !in p.bundles
  }

  /** An entry that names the bundle in its replaces or skips, or whose skip range holds the
      bundle's valid version; nothing else makes an edge. */
  lemma EdgeIff(check: RangeCheck, p: Package, ch: Channel, name: string, next: string)
    ensures Edge(check, p, ch, name, next) <==> next in p.bundles && exists e ::
      e in ch.entries && e.name == next &&
      (|| e.replacing == name
       || (exists k :: 0 <= k < |e.skips| && e.skips[k] == name)
       || (e.skipRange != "" && name in p.bundles && Parse(p.bundles[name].version).Some?
             && check(e.skipRange, Parse(p.bundles[name].version).value)))
  {
    assert Parse("").None?;
    hide Parse;
    forall e | e in ch.entries ensures exists i :: 0 <= i < |ch.entries| && ch.entries[i] == e {}
  }

  // ---- Reachability

  ghost predicate Walk(check: RangeCheck, p: Package, ch: Channel, path: seq<string>)
  {
    path != [] && forall i :: 0 < i < |path| ==> Edge(check, p, ch, path[i - 1], path[i])
  }

  ghost predicate Reaches(check: RangeCheck, p: Package, ch: Channel, from: string, to: string)
  {
    exists path :: Walk(check, p, ch, path) && path[0] == from && path[|path| - 1] == to
  }

  lemma ReachesItself(check: RangeCheck, p: Package, ch: Channel, n: string)
    ensures Reaches(check, p, ch, n, n)
  {
    assert Walk(check, p, ch, [n]) && [n][0] == n;
  }

  lemma ReachesFurther(check: RangeCheck, p: Package, ch: Channel, a: string, b: string, c: string)
    requires Reaches(check, p, ch, a, b) && Edge(check, p, ch, b, c)
    ensures Reaches(check, p, ch, a, c)
  {
    hide Edge;
    var path :| Walk(check, p, ch, path) && path[0] == a && path[|path| - 1] == b;
    var longer := path + [c];
    assert Walk(check, p, ch, longer) && longer[0] == a && longer[|longer| - 1] == c;
  }

  /** Nothing outside a set closed under edges is reachable from inside it. */
  lemma ClosedHoldsReachable(check: RangeCheck, p: Package, ch: Channel, s: set<string>, from: string, to: string)
    requires forall a, b :: a in s && Edge(check, p, ch, a, b) ==> b in s
    requires from in s && Reaches(check, p, ch, from, to)
    ensures to in s
  {
    var path :| Walk(check, p, ch, path) && path[0] == from && path[|path| - 1] == to;
    WalkStays(check, p, ch, s, path);
  }

  lemma {:induction false} WalkStays(check: RangeCheck, p: Package, ch: Channel, s: set<string>, path: seq<string>)
    requires forall a, b :: a in s && Edge(check, p, ch, a, b) ==> b in s
    requires Walk(check, p, ch, path) && path[0] in s
    ensures path[|path| - 1] in s
  {
    hide Edge;
    if |path| > 1 {
      var init := path[..|path| - 1];
      assert Walk(check, p, ch, init);
      WalkStays(check, p, ch, s, init);
      assert Edge(check, p, ch, path[|path| - 1 - 1], path[|path| - 1]);
    }
  }

  lemma ReachableHasEntry(check: RangeCheck, p: Package, ch: Channel, from: string, to: string)
    requires HasEntry(ch, from) && Reaches(check, p, ch, from, to)
    ensures HasEntry(ch, to)
  {
    var path :| Walk(check, p, ch, path) && path[0] == from && path[|path| - 1] == to;
    if |path| > 1 {
      assert Edge(check, p, ch, path[|path| - 1 - 1], path[|path| - 1]);
    }
  }

  // ---- Heads

  /** The entry lets this installed bundle enter the channel. */
  predicate Admits(check: RangeCheck, e: Entry, installed: Bundle)
  {
    e.name == installed.name || Accepts(check, e, installed.name, installed.version)
  }

  ghost predicate Enters(check: RangeCheck, ch: Channel, installed: Bundle, start: string)
  {
    exists i :: 0 <= i < |ch.entries| && ch.entries[i].name == start && Admits(check, ch.entries[i], installed)
  }

  /** An installed bundle enters at its own entry and wherever an entry declares an update from it. */
  lemma EntersIff(check: RangeCheck, ch: Channel, installed: Bundle, start: string)
    ensures Enters(check, ch, installed, start) <==> exists e ::
      e in ch.entries && e.name == start &&
      (|| start == installed.name
       || e.replacing == installed.name
       || (exists k :: 0 <= k < |e.skips| && e.skips[k] == installed.name)
       || (e.skipRange != "" && Parse(installed.version).Some? && check(e.skipRange, Parse(installed.version).value)))
  {
    assert Parse("").None?;
    hide Parse;
    forall e | e in ch.entries ensures exists i :: 0 <= i < |ch.entries| && ch.entries[i] == e {}
  }

  /** b is a terminal bundle of the channel. */
  ghost predicate IsHead(check: RangeCheck, p: Package, ch: Channel, b: Bundle)
  {
    HasEntry(ch, b.name) && b.name in p.bundles && p.bundles[b.name] == b && Terminal(check, p, ch, b.name)
  }

  /** b is not deprecated, terminal, and reachable from an entry that admits the installed bundle. */
  ghost predicate IsUpgradeHead(check: RangeCheck, p: Package, ch: Channel, installed: Bundle, b: Bundle)
  {
    && b.name in p.bundles && p.bundles[b.name] == b && !b.deprecated
    && Terminal(check, p, ch, b.name)
    && exists start :: Enters(check, ch, installed, start) && Reaches(check, p, ch, start, b.name)
  }

  lemma UpgradeHeadsAreHeads(check: RangeCheck, p: Package, ch: Channel, installed: Bundle, b: Bundle)
    requires IsUpgradeHead(check, p, ch, installed, b)
    ensures IsHead(check, p, ch, b)
  {
    hide Terminal;
    var start :| Enters(check, ch, installed, start) && Reaches(check, p, ch, start, b.name);
    ReachableHasEntry(check, p, ch, start, b.name);
  }

  /** Every edge of the channel goes to a strictly higher valid version. */
  ghost predicate EdgesRaiseVersions(check: RangeCheck, p: Package, ch: Channel)
  {
    forall a, b :: HasEntry(ch, a) && Edge(check, p, ch, a, b) ==> TextPrecedes(BundleVersion(p, a), BundleVersion(p, b))
  }

  ghost function EntryNames(ch: Channel): set<string>
  {
    set i | 0 <= i < |ch.entries| :: ch.entries[i].name
  }

  ghost function Above(p: Package, ch: Channel, name: string): set<string>
  {
    set n | n in EntryNames(ch) && TextPrecedes(BundleVersion(p, name), BundleVersion(p, n))
  }

  /** When edges raise versions, every entry reaches a terminal one. */
  lemma {:induction false} RaisingEdgesReachATerminal(check: RangeCheck, p: Package, ch: Channel, name: string)
    returns (head: string)
    requires EdgesRaiseVersions(check, p, ch) && HasEntry(ch, name)
    ensures Reaches(check, p, ch, name, head) && HasEntry(ch, head) && Terminal(check, p, ch, head)
    decreases |Above(p, ch, name)|
  {
    if Terminal(check, p, ch, name) {
      ReachesItself(check, p, ch, name);
      head := name;
    } else {
      var i :| 0 <= i < |ch.entries| && Accepts(check, ch.entries[i], name, BundleVersion(p, name))
        && ch.entries[i].name in p.bundles;
      var next := ch.entries[i].name;
      assert Edge(check, p, ch, name, next);
      AboveShrinks(p, ch, name, next);
      head := RaisingEdgesReachATerminal(check, p, ch, next);
      ReachesFromEarlier(check, p, ch, name, next, head);
    }
  }

  lemma AboveShrinks(p: Package, ch: Channel, name: string, next: string)
    requires HasEntry(ch, next) && TextPrecedes(BundleVersion(p, name), BundleVersion(p, next))
    ensures |Above(p, ch, next)| < |Above(p, ch, name)|
  {
    hide Parse;
    var low, high := BundleVersion(p, name), BundleVersion(p, next);
    LessThanOrder(Parse(high).value, Parse(high).value, Parse(high).value);
    assert next in Above(p, ch, name) - Above(p, ch, next);
    forall n | n in Above(p, ch, next) ensures n in Above(p, ch, name) {
      LessThanOrder(Parse(low).value, Parse(high).value, Parse(BundleVersion(p, n)).value);
    }
    ProperSubsetIsSmaller(Above(p, ch, next), Above(p, ch, name));
  }

  lemma ProperSubsetIsSmaller<T>(a: set<T>, b: set<T>)
    requires a < b
    ensures |a| < |b|
  {
    assert b == a + (b - a);
    assert |b - a| > 0;
  }

  lemma ReachesFromEarlier(check: RangeCheck, p: Package, ch: Channel, a: string, b: string, c: string)
    requires Edge(check, p, ch, a, b) && Reaches(check, p, ch, b, c)
    ensures Reaches(check, p, ch, a, c)
  {
    hide Edge;
    var path :| Walk(check, p, ch, path) && path[0] == b && path[|path| - 1] == c;
    var longer := [a] + path;
    forall i | 0 < i < |longer| ensures Edge(check, p, ch, longer[i - 1], longer[i]) {
      if i > 1 { assert Edge(check, p, ch, path[i - 2], path[i - 1]); }
    }
    assert Walk(check, p, ch, longer) && longer[0] == a && longer[|longer| - 1] == c;
  }

  /** So a channel that admits the installed bundle has a head for it, unless the heads it
      leads to are deprecated. */
  lemma RaisingEdgesYieldAHead(check: RangeCheck, p: Package, ch: Channel, installed: Bundle)
    requires NamedBundles(p) && EdgesRaiseVersions(check, p, ch)
    requires exists start :: Enters(check, ch, installed, start)
    requires forall n :: HasEntry(ch, n) ==> n in p.bundles && !p.bundles[n].deprecated
    ensures exists b :: IsUpgradeHead(check, p, ch, installed, b)
  {
    var start :| Enters(check, ch, installed, start);
    var head := RaisingEdgesReachATerminal(check, p, ch, start);
    assert IsUpgradeHead(check, p, ch, installed, p.bundles[head]);
  }
}
