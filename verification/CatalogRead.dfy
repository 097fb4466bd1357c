/** readFS after the walk: records become packages, packages are validated, entries sorted. */
module CatalogRead {
  import opened Orders
  import opened CatalogTypes
  import opened UpdateGraph
  import opened VersionOrders
  import opened CatalogBuild

  datatype ReadResult = Ok(packages: Packages) | Err(error: BuildError)

  predicate EntryLess(a: Entry, b: Entry) { TextLess(a.name, b.name) }

  // ---- What a read accepts

  predicate HasDefaultChannel(p: Package)
  {
    p.defaultChannel != "" && p.defaultChannel in p.channels
  }

  predicate EntriesHaveBundles(p: Package, ch: Channel)
  {
    forall e :: e in ch.entries ==> e.name in p.bundles
  }

  predicate Acceptable(p: Package)
  {
    HasDefaultChannel(p) && forall c :: c in p.channels ==> EntriesHaveBundles(p, p.channels[c])
  }

  predicate AllAcceptable(packages: Packages)
  {
    forall n :: n in packages ==> Acceptable(packages[n])
  }

  /** Why some package is refused. */
  predicate Refuses(p: Package, error: BuildError)
  {
    match error
    case NoDefaultChannel(name) => name == p.name && !HasDefaultChannel(p)
    case MissingBundle(name, channel, bundle) =>
      && name == p.name && bundle !in p.bundles
      && exists c :: c in p.channels && p.channels[c].name == channel && exists e :: e in p.channels[c].entries && e.name == bundle
    case _ => false
  }

  /** The same package with every channel's entries in name order. */
  ghost predicate SortedChannel(before: Channel, after: Channel)
  {
    && after == before.(entries := after.entries)
    && multiset(after.entries) == multiset(before.entries) && Sorted(EntryLess, after.entries)
  }

  ghost predicate SortedPackage(before: Package, after: Package)
  {
    && after == before.(channels := after.channels)
    && after.channels.Keys == before.channels.Keys
    && forall c :: c in before.channels ==> SortedChannel(before.channels[c], after.channels[c])
  }

  ghost predicate SortedPackages(before: Packages, after: Packages)
  {
    after.Keys == before.Keys && forall n :: n in before ==> SortedPackage(before[n], after[n])
  }

  lemma EntryLessIsStrictWeak(s: set<Entry>)
    ensures StrictWeak(EntryLess, s)
  {
    hide TextLess;
    forall a: Entry, b: Entry, c: Entry
      ensures !EntryLess(a, a)
      ensures EntryLess(a, b) && EntryLess(b, c) ==> EntryLess(a, c)
      ensures !EntryLess(a, b) && !EntryLess(b, c) ==> !EntryLess(a, c)
    {
      TextOrder(a.name, b.name, c.name);
      TextOrder(c.name, b.name, a.name);
      TextOrder(a.name, c.name, b.name);
    }
  }

  method CheckEntries(p: Package, ch: Channel) returns (missing: Option<string>)
    ensures missing.None? <==> EntriesHaveBundles(p, ch)
    ensures missing.Some? ==> missing.value !in p.bundles && exists e :: e in ch.entries && e.name == missing.value
  {
    for i := 0 to |ch.entries|
      invariant forall k :: 0 <= k < i ==> ch.entries[k].name in p.bundles
    {
      if ch.entries[i].name !in p.bundles {
        assert ch.entries[i] in ch.entries;
        return Some(ch.entries[i].name);
      }
    }
    return None;
  }

  /** The checks and the sort of one package. */
  method CheckPackage(p: Package) returns (error: Option<BuildError>, after: Package)
    ensures error.None? <==> Acceptable(p)
    ensures error.Some? ==> Refuses(p, error.value)
    ensures error.None? ==> SortedPackage(p, after)
  {
    hide EntryLess;
    after := p;
    if p.defaultChannel == "" || p.defaultChannel !in p.channels { return Some(NoDefaultChannel(p.name)), after; }
    var sorted: map<string, Channel> := map[];
    var rest := p.channels.Keys;
    while rest != {}
      invariant rest <= p.channels.Keys && sorted.Keys == p.channels.Keys - rest
      invariant forall c :: c in sorted ==> EntriesHaveBundles(p, p.channels[c]) && SortedChannel(p.channels[c], sorted[c])
      decreases rest
    {
      var c :| c in rest;
      var ch := p.channels[c];
      var missing := CheckEntries(p, ch);
      if missing.Some? { return Some(MissingBundle(p.name, ch.name, missing.value)), after; }
      var entries := SortBy(EntryLess, ch.entries);
      EntryLessIsStrictWeak(Elements(ch.entries));
      sorted, rest := sorted[c := ch.(entries := entries)], rest - {c};
    }
    after := p.(channels := sorted);
    error := None;
  }

  method CheckPackages(packages: Packages) returns (r: ReadResult)
    ensures r.Ok? <==> AllAcceptable(packages)
    ensures r.Ok? ==> SortedPackages(packages, r.packages)
    ensures r.Err? ==> exists n :: n in packages && Refuses(packages[n], r.error)
  {
    hide Acceptable, SortedPackage, Refuses;
    var sorted: Packages := map[];
    var rest := packages.Keys;
    while rest != {}
      invariant rest <= packages.Keys && sorted.Keys == packages.Keys - rest
      invariant forall n :: n in sorted ==> Acceptable(packages[n]) && SortedPackage(packages[n], sorted[n])
      decreases rest
    {
      var n :| n in rest;
      var error, after := CheckPackage(packages[n]);
      if error.Some? { return Err(error.value); }
      sorted, rest := sorted[n := after], rest - {n};
    }
    r := Ok(sorted);
  }

  /** readFS: the records in the order the walk delivered them. */
  method ReadFS(records: seq<Record>) returns (r: ReadResult)
    ensures r.Ok? <==> Faultless(records) && AllAcceptable(Build(records))
    ensures r.Ok? ==> SortedPackages(Build(records), r.packages)
    ensures r.Err? && !Faultless(records) ==> exists q :: q in records && Fault(q) == Some(r.error)
    ensures r.Err? && Faultless(records) ==> exists n :: n in Build(records) && Refuses(Build(records)[n], r.error)
  {
    hide Fault, Added, Refuses, AllAcceptable, SortedPackages;
    var b := new Builder();
    for i := 0 to |records|
      invariant Faultless(records[..i]) && b.packages == Build(records[..i])
    {
      var error := b.AddMeta(records[i]);
      if error.Some? {
        assert records[i] in records;
        return Err(error.value);
      }
      assert records[..i + 1][..i] == records[..i];
    }
    assert records[..|records|] == records;
    r := CheckPackages(b.packages);
  }

  // ---- What the resolver relies on

  ghost predicate InNameOrder(entries: seq<Entry>)
  {
    forall i, j :: 0 <= i < j < |entries| ==> !TextLess(entries[j].name, entries[i].name)
  }

  ghost predicate WellFormed(p: Package)
  {
    && NamedBundles(p)
    && (forall c :: c in p.channels ==> p.channels[c].name == c)
    && p.defaultChannel in p.channels
    && (forall c, n :: c in p.channels && HasEntry(p.channels[c], n) ==> n in p.bundles)
    && (forall c :: c in p.channels ==> InNameOrder(p.channels[c].entries))
  }

  ghost predicate Named(packages: Packages)
  {
    forall n :: n in packages ==>
      && packages[n].name == n && NamedBundles(packages[n])
      && forall c :: c in packages[n].channels ==> packages[n].channels[c].name == c
  }

  lemma {:induction false} BuildIsNamed(records: seq<Record>)
    requires Faultless(records)
    ensures Named(Build(records))
  {
    hide PackageVersion;
    if records != [] {
      var n := |records| - 1;
      assert forall r :: r in records[..n] ==> r in records;
      BuildIsNamed(records[..n]);
      assert records[n] in records;
      AddedIsNamed(Build(records[..n]), records[n]);
    }
  }

  lemma AddedIsNamed(packages: Packages, r: Record)
    requires Named(packages) && Fault(r).None?
    ensures Named(Added(packages, r))
  {
    hide PackageVersion;
  }

  /** Whatever records a read accepts, in whatever order, every package it serves is one the
      resolver can work with: map keys and names match, the default channel exists, no entry
      lacks a bundle, and entries are in name order. */
  lemma AcceptedPackagesAreWellFormed(records: seq<Record>, served: Packages, n: string)
    requires Faultless(records) && AllAcceptable(Build(records)) && SortedPackages(Build(records), served)
    requires n in served
    ensures served[n].name == n && WellFormed(served[n])
  {
    hide Build, TextLess;
    BuildIsNamed(records);
    var p, q := Build(records)[n], served[n];
    assert Acceptable(p) && SortedPackage(p, q);
    forall c, b | c in q.channels && HasEntry(q.channels[c], b) ensures b in q.bundles {
      assert SortedChannel(p.channels[c], q.channels[c]) && EntriesHaveBundles(p, p.channels[c]);
      SameElements(p.channels[c].entries, q.channels[c].entries);
      var i :| 0 <= i < |q.channels[c].entries| && q.channels[c].entries[i].name == b;
      assert q.channels[c].entries[i] in Elements(q.channels[c].entries);
      assert q.channels[c].entries[i] in Elements(p.channels[c].entries);
    }
  }

  /** Acceptance does not depend on the order of records that do not contradict each other. */
  lemma AcceptanceIsOrderIndependent(records: seq<Record>, permuted: seq<Record>)
    requires Elements(permuted) == Elements(records) && (Faultless(records) ==> Consistent(records))
    ensures Faultless(permuted) <==> Faultless(records)
    ensures Faultless(records) ==>
      Build(permuted) == Build(records) && (AllAcceptable(Build(permuted)) <==> AllAcceptable(Build(records)))
  {
    hide Fault, FactOf, Build, AllAcceptable;
    assert forall r :: r in permuted <==> r in Elements(permuted);
    assert forall r :: r in records <==> r in Elements(records);
    if Faultless(records) { OrderDoesNotMatter(records, permuted); }
  }
}
