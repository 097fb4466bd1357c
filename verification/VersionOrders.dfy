/** The resolver's orders over bundles and version texts. */
module VersionOrders {
  import opened Orders
  import opened SemVer
  import opened CatalogTypes

  /** By strict semantic version with invalid versions first; ties by name. */
  predicate BundleLess(a: Bundle, b: Bundle)
  {
    var av, bv := Parse(a.version), Parse(b.version);
    if av.Some? && bv.Some? && av != bv then LessThan(av.value, bv.value)
    else if av.Some? && bv.None? then false
    else if av.None? && bv.Some? then true
    else TextLess(a.name, b.name)
  }

  /** sortVersions: valid versions ascending, then invalid ones in text order. */
  predicate VersionTextLess(a: string, b: string)
  {
    var av, bv := Parse(a), Parse(b);
    if av.Some? && bv.Some? then LessThan(av.value, bv.value)
    else if av.Some? then true
    else if bv.Some? then false
    else TextLess(a, b)
  }

  /** BundleLess is a strict total order on bundles with distinct names. */
  lemma BundleLessOrder(a: Bundle, b: Bundle, c: Bundle)
    ensures !BundleLess(a, a)
    ensures BundleLess(a, b) ==> !BundleLess(b, a)
    ensures a.name != b.name ==> BundleLess(a, b) || BundleLess(b, a)
    ensures BundleLess(a, b) && BundleLess(b, c) ==> BundleLess(a, c)
  {
    hide Parse, TextLess, LessThan;
    TextOrder(a.name, b.name, c.name);
    VersionOrder(Parse(a.version), Parse(b.version), Parse(c.version));
  }

  lemma TextOrder(a: string, b: string, c: string)
    ensures !TextLess(a, a)
    ensures TextLess(a, b) ==> !TextLess(b, a)
    ensures a == b || TextLess(a, b) || TextLess(b, a)
    ensures TextLess(a, b) && TextLess(b, c) ==> TextLess(a, c)
  {
    TextLessTotal(a, b);
    if TextLess(a, a) { TextLessAsymmetric(a, a); }
    if TextLess(a, b) {
      TextLessAsymmetric(a, b);
      if TextLess(b, c) { TextLessTransitive(a, b, c); }
    }
  }

  lemma VersionOrder(a: Option<Version>, b: Option<Version>, c: Option<Version>)
    ensures a.Some? && b.Some? ==> (LessThan(a.value, b.value) ==> !LessThan(b.value, a.value) && a != b)
    ensures a.Some? && b.Some? ==> a == b || LessThan(a.value, b.value) || LessThan(b.value, a.value)
    ensures a.Some? && b.Some? && c.Some? && LessThan(a.value, b.value) && LessThan(b.value, c.value)
      ==> LessThan(a.value, c.value)
  {
    if a.Some? && b.Some? {
      LessThanOrder(a.value, b.value, if c.Some? then c.value else a.value);
    }
  }

  /** Two bundles that neither precedes share a name, so ties carry over. */
  lemma BundleLessIsStrictWeak(s: set<Bundle>)
    requires forall a, b :: a in s && b in s && a.name == b.name ==> a == b
    ensures StrictWeak(BundleLess, s)
  {
    hide BundleLess;
    forall a ensures !BundleLess(a, a) { BundleLessOrder(a, a, a); }
    forall a, b, c | a in s && b in s && c in s
      ensures BundleLess(a, b) && BundleLess(b, c) ==> BundleLess(a, c)
      ensures !BundleLess(a, b) && !BundleLess(b, c) ==> !BundleLess(a, c)
    {
      BundleLessOrder(a, b, c);
      BundleLessOrder(c, b, a);
      BundleLessOrder(a, c, b);
    }
  }

  lemma VersionTextLessIsStrictWeak(s: set<string>)
    ensures StrictWeak(VersionTextLess, s)
  {
    forall a, b, c
      ensures !VersionTextLess(a, a)
      ensures VersionTextLess(a, b) && VersionTextLess(b, c) ==> VersionTextLess(a, c)
      ensures !VersionTextLess(a, b) && !VersionTextLess(b, c) ==> !VersionTextLess(a, c)
    {
      VersionTextLessTriple(a, b, c);
    }
  }

  lemma VersionTextLessTriple(a: string, b: string, c: string)
    ensures !VersionTextLess(a, a)
    ensures VersionTextLess(a, b) && VersionTextLess(b, c) ==> VersionTextLess(a, c)
    ensures !VersionTextLess(a, b) && !VersionTextLess(b, c) ==> !VersionTextLess(a, c)
  {
    hide Parse, TextLess, LessThan;
    TextOrder(a, b, c);
    TextOrder(c, b, a);
    TextOrder(a, c, b);
    VersionOrder(Parse(a), Parse(b), Parse(c));
    VersionOrder(Parse(c), Parse(b), Parse(a));
    VersionOrder(Parse(a), Parse(a), Parse(a));
    VersionOrder(Parse(b), Parse(c), Parse(b));
    VersionOrder(Parse(a), Parse(c), Parse(b));
  }

  /** Bundles of equal rank or distinct names: the last of a sorted list is the greatest. */
  lemma LastIsGreatest(bs: seq<Bundle>)
    requires Sorted(BundleLess, bs) && bs != []
    requires forall i, j :: 0 <= i < j < |bs| ==> bs[i].name != bs[j].name
    ensures forall b :: b in bs && b != bs[|bs| - 1] ==> BundleLess(b, bs[|bs| - 1])
  {
    hide BundleLess;
    forall i | 0 <= i < |bs| - 1 ensures BundleLess(bs[i], bs[|bs| - 1]) {
      BundleLessOrder(bs[i], bs[|bs| - 1], bs[i]);
    }
  }
}
