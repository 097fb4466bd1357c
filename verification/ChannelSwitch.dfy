/** Manual channel switches: the heads an installed bundle can reach in another channel, and
    the channels offered for it. */
module ChannelSwitch {
  import opened Orders
  import opened CatalogTypes
  import opened UpdateGraph
  import opened VersionOrders
  import opened Resolve

  // ---- Heads

  predicate NameLess(a: Bundle, b: Bundle) { TextLess(a.name, b.name) }

  lemma NameLessIsStrictWeak(s: set<Bundle>)
    ensures StrictWeak(NameLess, s)
  {
    hide TextLess;
    forall a: Bundle, b: Bundle, c: Bundle
      ensures !NameLess(a, a)
      ensures NameLess(a, b) && NameLess(b, c) ==> NameLess(a, c)
      ensures !NameLess(a, b) && !NameLess(b, c) ==> !NameLess(a, c)
    {
      TextOrder(a.name, b.name, c.name);
      TextOrder(c.name, b.name, a.name);
      TextOrder(a.name, c.name, b.name);
    }
  }

  /** Every terminal bundle of a channel, ordered by name. */
  method ChannelHeads(check: RangeCheck, p: Package, name: string) returns (out: seq<Bundle>)
    requires NamedBundles(p)
    ensures name !in p.channels ==> out == []
    ensures name in p.channels ==> forall b :: b in out <==> IsHead(check, p, p.channels[name], b)
    ensures forall i, j :: 0 <= i < j < |out| ==> !TextLess(out[j].name, out[i].name)
  {
    if name !in p.channels { return []; }
    var ch := p.channels[name];
    var heads: seq<Bundle> := [];
    for k := 0 to |ch.entries|
      invariant forall b :: b in heads ==> IsHead(check, p, ch, b)
      invariant forall i :: 0 <= i < k && ch.entries[i].name in p.bundles && Terminal(check, p, ch, ch.entries[i].name)
                  ==> p.bundles[ch.entries[i].name] in heads
    {
      var e := ch.entries[k];
      if e.name in p.bundles {
        var next := Successors(check, p, ch, e.name);
        if next == [] { heads := heads + [p.bundles[e.name]]; }
      }
    }
    out := SortBy(NameLess, heads);
    NameLessIsStrictWeak(Elements(heads));
    SameElements(heads, out);
    forall b ensures b in out <==> IsHead(check, p, ch, b) { assert b in out <==> b in Elements(out); }
  }

  method EntryPoints(check: RangeCheck, ch: Channel, installed: Bundle) returns (queue: seq<string>)
    ensures forall n :: n in queue <==> Enters(check, ch, installed, n)
  {
    queue := [];
    for k := 0 to |ch.entries|
      invariant forall n :: n in queue ==> Enters(check, ch, installed, n)
      invariant forall i :: 0 <= i < k && Admits(check, ch.entries[i], installed) ==> ch.entries[i].name in queue
    {
      if Admits(check, ch.entries[k], installed) { queue := queue + [ch.entries[k].name]; }
    }
  }

  ghost predicate Entered(check: RangeCheck, p: Package, ch: Channel, installed: Bundle, n: string)
  {
    exists start :: Enters(check, ch, installed, start) && Reaches(check, p, ch, start, n)
  }

  lemma EnteredHere(check: RangeCheck, p: Package, ch: Channel, installed: Bundle, n: string)
    requires Enters(check, ch, installed, n)
    ensures Entered(check, p, ch, installed, n)
  {
    ReachesItself(check, p, ch, n);
  }

  lemma EnteredFurther(check: RangeCheck, p: Package, ch: Channel, installed: Bundle, a: string, b: string)
    requires Entered(check, p, ch, installed, a) && Edge(check, p, ch, a, b)
    ensures Entered(check, p, ch, installed, b)
  {
    hide Edge, Enters, Reaches;
    var start :| Enters(check, ch, installed, start) && Reaches(check, p, ch, start, a);
    ReachesFurther(check, p, ch, start, a, b);
  }

  lemma EnteredHasEntry(check: RangeCheck, p: Package, ch: Channel, installed: Bundle, n: string)
    requires Entered(check, p, ch, installed, n)
    ensures n in EntryNames(ch)
  {
    hide Reaches;
    var start :| Enters(check, ch, installed, start) && Reaches(check, p, ch, start, n);
    ReachableHasEntry(check, p, ch, start, n);
  }

  // ---- The worklist search for heads

  /** Everything seen or queued was entered, and everything entered is still to be found from
      what is seen or queued. */
  ghost predicate Explored(check: RangeCheck, p: Package, ch: Channel, installed: Bundle,
                           seen: set<string>, queue: seq<string>)
  {
    && (forall n :: n in seen || n in queue ==> Entered(check, p, ch, installed, n))
    && (forall n :: Enters(check, ch, installed, n) ==> n in seen || n in queue)
    && (forall a, b :: a in seen && Edge(check, p, ch, a, b) ==> b in seen || b in queue)
  }

  lemma ExploreStart(check: RangeCheck, p: Package, ch: Channel, installed: Bundle, queue: seq<string>)
    requires forall n :: n in queue <==> Enters(check, ch, installed, n)
    ensures Explored(check, p, ch, installed, {}, queue)
  {
    hide Edge, Enters, Reaches, Entered;
    forall n | n in queue ensures Entered(check, p, ch, installed, n) {
      EnteredHere(check, p, ch, installed, n);
    }
  }

  lemma ExploreRepeat(check: RangeCheck, p: Package, ch: Channel, installed: Bundle, seen: set<string>, queue: seq<string>)
    requires Explored(check, p, ch, installed, seen, queue) && queue != [] && queue[0] in seen
    ensures Explored(check, p, ch, installed, seen, queue[1..])
  {
    hide Edge, Enters, Entered;
    assert forall n :: n in queue <==> n == queue[0] || n in queue[1..];
  }

  lemma ExploreNext(check: RangeCheck, p: Package, ch: Channel, installed: Bundle, seen: set<string>,
                    queue: seq<string>, longer: seq<string>)
    requires Explored(check, p, ch, installed, seen, queue) && queue != []
    requires forall n :: n in longer <==> n in queue[1..] || Edge(check, p, ch, queue[0], n)
    ensures Explored(check, p, ch, installed, seen + {queue[0]}, longer)
  {
    hide Edge, Enters, Entered;
    assert forall n :: n in queue <==> n == queue[0] || n in queue[1..];
    forall n | n in longer && n !in queue[1..] ensures Entered(check, p, ch, installed, n) {
      EnteredFurther(check, p, ch, installed, queue[0], n);
    }
  }

  lemma ExploreEnd(check: RangeCheck, p: Package, ch: Channel, installed: Bundle, seen: set<string>)
    requires Explored(check, p, ch, installed, seen, [])
    ensures forall n :: n in seen <==> Entered(check, p, ch, installed, n)
  {
    hide Edge, Enters, Reaches;
    forall n | Entered(check, p, ch, installed, n) ensures n in seen {
      var start :| Enters(check, ch, installed, start) && Reaches(check, p, ch, start, n);
      ClosedHoldsReachable(check, p, ch, seen, start, n);
    }
  }

  ghost predicate LiveTerminal(check: RangeCheck, p: Package, ch: Channel, b: Bundle)
  {
    b.name in p.bundles && p.bundles[b.name] == b && !b.deprecated && Terminal(check, p, ch, b.name)
  }

  /** heads lists the live terminal bundles among the names seen, each once. */
  ghost predicate HeadsAmong(check: RangeCheck, p: Package, ch: Channel, seen: set<string>, heads: seq<Bundle>)
  {
    Distinct(heads) && forall b :: b in heads <==> b.name in seen && LiveTerminal(check, p, ch, b)
  }

  /** The search queue after a name that is not terminal: its successors follow. */
  method Enqueue(queue: seq<string>, next: seq<Bundle>) returns (longer: seq<string>)
    ensures forall n :: n in longer <==> n in queue || exists b :: b in next && b.name == n
  {
    longer := queue;
    for k := 0 to |next|
      invariant forall n :: n in longer <==> n in queue || exists j :: 0 <= j < k && next[j].name == n
    {
      longer := longer + [next[k].name];
    }
  }

  /** The live terminal bundles reachable from the entries that admit the installed bundle. */
  method SearchHeads(check: RangeCheck, p: Package, target: Channel, installed: Bundle) returns (heads: seq<Bundle>)
    requires NamedBundles(p)
    ensures Distinct(heads)
    ensures forall b :: b in heads <==> IsUpgradeHead(check, p, target, installed, b)
  {
    hide Edge, Reaches, Enters, Terminal;
    var queue := EntryPoints(check, target, installed);
    ExploreStart(check, p, target, installed, queue);
    var seen: set<string> := {};
    heads := [];
    assert HeadsAmong(check, p, target, seen, heads);
    hide Entered, Explored, LiveTerminal, HeadsAmong, EntryNames, IsUpgradeHead;
    while queue != []
      invariant Explored(check, p, target, installed, seen, queue)
      invariant seen <= EntryNames(target) && HeadsAmong(check, p, target, seen, heads)
      decreases |EntryNames(target) - seen|, |queue|
    {
      var name := queue[0];
      if name in seen {
        ExploreRepeat(check, p, target, installed, seen, queue);
        queue := queue[1..];
        continue;
      }
      ExploredHasEntry(check, p, target, installed, seen, queue);
      Shrinks(EntryNames(target), seen, seen + {name});
      var next := Successors(check, p, target, name);
      var longer := Enqueue(queue[1..], next);
      SuccessorNames(check, p, target, name, next);
      ExploreNext(check, p, target, installed, seen, queue, longer);
      HeadStep(check, p, target, seen, name, heads);
      if next == [] && name in p.bundles && !p.bundles[name].deprecated {
        heads := heads + [p.bundles[name]];
      }
      seen, queue := seen + {name}, longer;
    }
    ExploreEnd(check, p, target, installed, seen);
    HeadsAmongAre(check, p, target, seen, heads);
    forall b ensures b in heads <==> IsUpgradeHead(check, p, target, installed, b) {
      UpgradeHeadIsEnteredLive(check, p, target, installed, b);
    }
  }

  lemma HeadsAmongAre(check: RangeCheck, p: Package, ch: Channel, seen: set<string>, heads: seq<Bundle>)
    requires HeadsAmong(check, p, ch, seen, heads)
    ensures Distinct(heads) && forall b :: b in heads <==> b.name in seen && LiveTerminal(check, p, ch, b)
  {}

  lemma ExploredHasEntry(check: RangeCheck, p: Package, ch: Channel, installed: Bundle, seen: set<string>, queue: seq<string>)
    requires Explored(check, p, ch, installed, seen, queue) && queue != []
    ensures queue[0] in EntryNames(ch)
  {
    hide Entered;
    EnteredHasEntry(check, p, ch, installed, queue[0]);
  }

  lemma SuccessorNames(check: RangeCheck, p: Package, ch: Channel, name: string, next: seq<Bundle>)
    requires NamedBundles(p)
    requires forall b :: b in next <==> b.name in p.bundles && p.bundles[b.name] == b && Edge(check, p, ch, name, b.name)
    ensures forall n :: Edge(check, p, ch, name, n) <==> exists b :: b in next && b.name == n
  {
    hide Edge;
    forall n | Edge(check, p, ch, name, n) ensures exists b :: b in next && b.name == n {
      EdgeEntersEntry(check, p, ch, name, n);
      assert p.bundles[n] in next;
    }
  }

  lemma HeadStep(check: RangeCheck, p: Package, ch: Channel, seen: set<string>, name: string, heads: seq<Bundle>)
    requires NamedBundles(p) && HeadsAmong(check, p, ch, seen, heads) && name !in seen
    ensures HeadsAmong(check, p, ch, seen + {name},
              if Terminal(check, p, ch, name) && name in p.bundles && !p.bundles[name].deprecated
              then heads + [p.bundles[name]] else heads)
  {
    hide Terminal;
  }

  lemma UpgradeHeadIsEnteredLive(check: RangeCheck, p: Package, ch: Channel, installed: Bundle, b: Bundle)
    ensures IsUpgradeHead(check, p, ch, installed, b)
        <==> LiveTerminal(check, p, ch, b) && Entered(check, p, ch, installed, b.name)
  {
    hide Terminal, Enters, Reaches;
  }

  /** The bundles an installed bundle can end on in this channel, each once, lowest first. */
  method ChannelUpgradeHeads(check: RangeCheck, p: Package, target: Channel, installed: Bundle)
    returns (heads: seq<Bundle>)
    requires NamedBundles(p)
    ensures Distinct(heads) && Sorted(BundleLess, heads)
    ensures forall b :: b in heads <==> IsUpgradeHead(check, p, target, installed, b)
  {
    hide IsUpgradeHead;
    var found := SearchHeads(check, p, target, installed);
    heads := SortBy(BundleLess, found);
    SameElements(found, heads);
    DistinctPermutation(found, heads);
    forall b ensures b in heads <==> b in found { assert b in heads <==> b in Elements(heads); }
    UpgradeHeadsAreNamed(check, p, target, installed, found);
    BundleLessIsStrictWeak(Elements(found));
  }

  lemma UpgradeHeadsAreNamed(check: RangeCheck, p: Package, ch: Channel, installed: Bundle, heads: seq<Bundle>)
    requires forall b :: b in heads ==> IsUpgradeHead(check, p, ch, installed, b)
    ensures forall a, b :: a in heads && b in heads && a.name == b.name ==> a == b
  {}
}
