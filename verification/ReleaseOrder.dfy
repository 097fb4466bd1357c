/** sortReleases: strict versions by precedence, and by text as soon as one side is not one. */
module ReleaseOrder {
  import opened Orders
  import opened SemVer
  import opened FamilyOrder
  import opened OpenShiftTypes

  /** All valid versions are one family. */
  function VersionKey(s: string): Option<Suffix>
  {
    if Parse(s).Some? then Some(Suffix("", Parse(s).value)) else None
  }

  predicate VersionLess(a: string, b: string)
  {
    FamilyLess(VersionKey, a, b)
  }

  predicate ReleaseLess(a: Release, b: Release)
  {
    VersionLess(a.version, b.version)
  }

  /** sortReleases has an order to sort by exactly when no invalid version sorts lexically
      between two valid ones that are not ascending. */
  lemma VersionLessOrdersIff(names: set<string>)
    ensures StrictWeak(VersionLess, names) <==> Contiguous(VersionKey, names)
  {
    hide FamilyLess, Contiguous;
    var less := (a, b) => FamilyLess(VersionKey, a, b);
    FamilyLessOrdersIffContiguous(VersionKey, names);
    assert forall a, b :: less(a, b) == VersionLess(a, b);
    assert StrictWeak(less, names) <==> StrictWeak(VersionLess, names);
  }

  ghost function Names(releases: seq<Release>): set<string>
  {
    set r | r in releases :: r.version
  }

  lemma ReleaseLessIsStrictWeak(releases: seq<Release>)
    requires Contiguous(VersionKey, Names(releases))
    ensures StrictWeak(ReleaseLess, Elements(releases))
  {
    hide VersionLess, Contiguous;
    VersionLessOrdersIff(Names(releases));
    forall r | r in Elements(releases) ensures r.version in Names(releases) {}
  }

  /** Every name a strict version, and no two of the same precedence. */
  ghost predicate PrecedenceDistinct(names: set<string>)
  {
    && (forall a :: a in names ==> Parse(a).Some?)
    && (forall a, b :: a in names && b in names && a != b ==> Parse(a) != Parse(b))
  }

  lemma ValidNamesAreContiguous(names: set<string>)
    requires forall a :: a in names ==> Parse(a).Some?
    ensures Contiguous(VersionKey, names)
  {
    hide Parse, TextLess;
  }

  ghost predicate Ascending(releases: seq<Release>)
  {
    forall i, j :: 0 <= i < j < |releases| ==> TextPrecedes(releases[i].version, releases[j].version)
  }

  /** A sorted list of releases whose versions all differ in precedence is strictly ascending. */
  lemma SortedIsAscending(releases: seq<Release>)
    requires PrecedenceDistinct(Names(releases)) && Sorted(ReleaseLess, releases)
    requires forall i, j :: 0 <= i < j < |releases| ==> releases[i].version != releases[j].version
    ensures Ascending(releases)
  {
    hide Parse, TextLess, LessThan;
    forall i, j | 0 <= i < j < |releases| ensures TextPrecedes(releases[i].version, releases[j].version) {
      assert releases[i].version in Names(releases) && releases[j].version in Names(releases);
      var a, b := Parse(releases[i].version).value, Parse(releases[j].version).value;
      LessThanOrder(a, b, a);
      assert !ReleaseLess(releases[j], releases[i]);
    }
  }

  /** sortReleases */
  method SortReleases(releases: seq<Release>) returns (sorted: seq<Release>)
    ensures multiset(sorted) == multiset(releases)
    ensures Contiguous(VersionKey, Names(releases)) ==> Sorted(ReleaseLess, sorted)
  {
    hide Contiguous, ReleaseLess;
    sorted := SortBy(ReleaseLess, releases);
    if Contiguous(VersionKey, Names(releases)) { ReleaseLessIsStrictWeak(releases); }
  }
}
