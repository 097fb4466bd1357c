/** The release-controller stream: which accepted releases fill in what the graph omits. */
module ReleaseStream {
  import opened Orders
  import opened SemVer
  import opened OpenShiftTypes

  datatype Tag = Tag(name: string, phase: string)

  // ---- latestVersion

  /** The highest of the valid versions, starting from the first; an invalid first version stays. */
  ghost predicate IsLatest(releases: seq<Release>, latest: string)
    requires releases != []
  {
    && (exists r :: r in releases && r.version == latest)
    && (Parse(releases[0].version).None? ==> latest == releases[0].version)
    && (Parse(releases[0].version).Some? ==>
          Parse(latest).Some? && forall r :: r in releases ==> !TextPrecedes(latest, r.version))
  }

  method LatestVersion(releases: seq<Release>) returns (latest: string)
    requires releases != []
    ensures IsLatest(releases, latest)
  {
    hide Parse, LessThan;
    latest := releases[0].version;
    ghost var at := 0;
    if Parse(latest).Some? { LessThanOrder(Parse(latest).value, Parse(latest).value, Parse(latest).value); }
    for i := 1 to |releases|
      invariant 0 <= at < |releases| && releases[at].version == latest
      invariant Parse(releases[0].version).None? ==> latest == releases[0].version
      invariant Parse(releases[0].version).Some? ==> Parse(latest).Some?
      invariant forall k :: 0 <= k < i ==> !TextPrecedes(latest, releases[k].version)
    {
      var next := releases[i].version;
      if TextPrecedes(latest, next) {
        forall k | 0 <= k < i ensures !TextPrecedes(next, releases[k].version) {
          PrecedesBoth(latest, next, releases[k].version);
        }
        PrecedesBoth(latest, next, next);
        latest, at := next, i;
      }
    }
  }

  lemma PrecedesBoth(a: string, b: string, c: string)
    requires TextPrecedes(a, b)
    ensures TextPrecedes(b, c) ==> TextPrecedes(a, c)
    ensures !TextPrecedes(b, b) && !TextPrecedes(b, a)
  {
    hide Parse, LessThan;
    var va, vb := Parse(a).value, Parse(b).value;
    LessThanOrder(va, vb, if Parse(c).Some? then Parse(c).value else va);
    LessThanOrder(vb, vb, vb);
  }

  lemma PrecedesIsStrictWeak(names: set<string>)
    requires forall n :: n in names ==> Parse(n).Some?
    ensures StrictWeak(TextPrecedes, names)
  {
    hide Parse, LessThan;
    forall a, b, c | a in names && b in names && c in names
      ensures !TextPrecedes(a, a)
      ensures TextPrecedes(a, b) && TextPrecedes(b, c) ==> TextPrecedes(a, c)
      ensures !TextPrecedes(a, b) && !TextPrecedes(b, c) ==> !TextPrecedes(a, c)
    {
      var va, vb, vc := Parse(a).value, Parse(b).value, Parse(c).value;
      LessThanOrder(va, vb, vc);
      LessThanOrder(vc, vb, va);
      LessThanOrder(va, va, va);
      LessThanOrder(va, vc, vb);
    }
  }

  // ---- streamReleasesBetween

  /** An accepted tag naming a strict version without a prerelease. */
  predicate Accepted(tag: Tag)
  {
    tag.phase == "Accepted" && Parse(tag.name).Some? && Parse(tag.name).value.prerelease == []
  }

  /** Strictly above from, and not above to. */
  predicate InWindow(name: string, from: string, to: string)
  {
    TextPrecedes(from, name) && Parse(to).Some? && !TextPrecedes(to, name)
  }

  /** The names of the accepted tags, as often as they are listed. */
  ghost function AcceptedNames(tags: seq<Tag>): seq<string>
  {
    if tags == [] then []
    else
      var n := |tags| - 1;
      AcceptedNames(tags[..n]) + if Accepted(tags[n]) then [tags[n].name] else []
  }

  ghost predicate AcceptedName(tags: seq<Tag>, name: string)
  {
    exists t :: t in tags && t.name == name && Accepted(t)
  }

  lemma {:induction false} AcceptedNamesHold(tags: seq<Tag>)
    ensures forall n :: n in AcceptedNames(tags) <==> AcceptedName(tags, n)
  {
    hide Accepted;
    if tags != [] {
      var k := |tags| - 1;
      AcceptedNamesHold(tags[..k]);
      assert forall t :: t in tags <==> t in tags[..k] || t == tags[k];
    }
  }

  ghost predicate DistinctNames(tags: seq<Tag>)
  {
    forall i, j :: 0 <= i < j < |tags| ==> tags[i].name != tags[j].name
  }

  lemma {:induction false} AcceptedNamesDistinct(tags: seq<Tag>)
    requires DistinctNames(tags)
    ensures Distinct(AcceptedNames(tags))
  {
    hide Accepted;
    if tags != [] {
      var k := |tags| - 1;
      AcceptedNamesDistinct(tags[..k]);
      AcceptedNamesHold(tags[..k]);
      assert forall t :: t in tags[..k] ==> t.name != tags[k].name;
      assert tags[k].name !in AcceptedNames(tags[..k]);
    }
  }

  /** The accepted names in the window. */
  ghost function StreamNames(tags: seq<Tag>, from: string, to: string): seq<string>
  {
    Filter(n => InWindow(n, from, to), AcceptedNames(tags))
  }

  lemma EmptyWindow(tags: seq<Tag>, from: string, to: string)
    requires !TextPrecedes(from, to)
    ensures StreamNames(tags, from, to) == []
  {
    hide Parse, LessThan;
    forall n ensures !InWindow(n, from, to) {
      if InWindow(n, from, to) {
        var a, b, c := Parse(from).value, Parse(n).value, Parse(to).value;
        LessThanOrder(b, c, b);
        LessThanOrder(a, b, c);
      }
    }
    FilterNone(n => InWindow(n, from, to), AcceptedNames(tags));
  }

  method StreamReleasesBetween(tags: seq<Tag>, from: string, to: string) returns (entries: seq<string>)
    ensures multiset(entries) == multiset(StreamNames(tags, from, to)) && Sorted(TextPrecedes, entries)
  {
    hide Parse, LessThan, TextLess;
    if Parse(from).None? || Parse(to).None? || !LessThan(Parse(from).value, Parse(to).value) {
      EmptyWindow(tags, from, to);
      return [];
    }
    var accepted: seq<string> := [];
    for i := 0 to |tags|
      invariant accepted == AcceptedNames(tags[..i])
    {
      assert tags[..i + 1][..i] == tags[..i];
      if Accepted(tags[i]) { accepted := accepted + [tags[i].name]; }
    }
    assert tags[..|tags|] == tags;
    AcceptedNamesHold(tags);
    var ordered := SortBy(TextPrecedes, accepted);
    PrecedesIsStrictWeak(Elements(accepted));
    FilterPermuted(n => InWindow(n, from, to), ordered, accepted);
    entries := KeepWindow(ordered, from, to);
  }

  method KeepWindow(ordered: seq<string>, from: string, to: string) returns (entries: seq<string>)
    requires Sorted(TextPrecedes, ordered) && Parse(from).Some? && Parse(to).Some?
    ensures entries == Filter(n => InWindow(n, from, to), ordered)
    ensures Sorted(TextPrecedes, entries)
  {
    hide Parse, LessThan, TextPrecedes;
    ghost var keep := (n: string) => InWindow(n, from, to);
    entries := [];
    for i := 0 to |ordered|
      invariant entries == Filter(keep, ordered[..i])
      invariant Sorted(TextPrecedes, entries)
    {
      assert ordered[..i + 1][..i] == ordered[..i];
      FilterMembers(keep, ordered[..i]);
      if InWindow(ordered[i], from, to) {
        forall k | 0 <= k < |entries| ensures !TextPrecedes(ordered[i], entries[k]) {
          assert entries[k] in ordered[..i];
        }
        entries := entries + [ordered[i]];
      }
    }
    assert ordered[..|ordered|] == ordered;
  }
}
