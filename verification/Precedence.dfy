/** What the order of versions and texts is, clause by clause: section 11 of Semantic Versioning
    2.0.0, and Go's order of strings. */
module Precedence {
  import opened Orders
  import opened SemVer

  // ---- Text

  /** The first n elements are the same. */
  ghost predicate Agree<T>(a: seq<T>, b: seq<T>, n: nat)
  {
    n <= |a| && n <= |b| && forall j :: 0 <= j < n ==> a[j] == b[j]
  }

  lemma AgreeTails<T>(a: seq<T>, b: seq<T>, n: nat)
    requires a != [] && b != [] && a[0] == b[0]
    ensures n > 0 ==> (Agree(a, b, n) <==> Agree(a[1..], b[1..], n - 1))
  {
    if n > 0 && Agree(a[1..], b[1..], n - 1) {
      forall j | 0 <= j < n ensures a[j] == b[j] {
        if j > 0 { assert a[1..][j - 1] == b[1..][j - 1]; }
      }
    }
  }

  /** a[i] is the first place where a and b differ, and there a has the smaller character. */
  ghost predicate SmallerAt(a: string, b: string, i: nat)
  {
    i < |a| && i < |b| && Agree(a, b, i) && a[i] < b[i]
  }

  /** Texts compare at their first difference; a proper prefix comes first. */
  ghost predicate TextFirst(a: string, b: string)
  {
    (|a| < |b| && Agree(a, b, |a|)) || exists i :: SmallerAt(a, b, i)
  }

  lemma {:induction false} TextLessIff(a: string, b: string)
    ensures TextLess(a, b) <==> TextFirst(a, b)
    decreases |a|
  {
    if a != [] && b != [] {
      if a[0] == b[0] {
        var x, y := a[1..], b[1..];
        TextLessIff(x, y);
        AgreeTails(a, b, |a|);
        forall i: nat | SmallerAt(a, b, i) ensures exists k :: SmallerAt(x, y, k) {
          AgreeTails(a, b, i);
          assert SmallerAt(x, y, i - 1);
        }
        forall i: nat | SmallerAt(x, y, i) ensures exists k :: SmallerAt(a, b, k) {
          AgreeTails(a, b, i + 1);
          assert SmallerAt(a, b, i + 1);
        }
      } else if a[0] < b[0] {
        assert SmallerAt(a, b, 0);
      }
    }
  }

  // ---- Section 11

  /** Lower by major, then minor, then patch number. */
  predicate CoreLess(a: Version, b: Version)
  {
    || a.major < b.major
    || (a.major == b.major && a.minor < b.minor)
    || (a.major == b.major && a.minor == b.minor && a.patch < b.patch)
  }

  predicate SameCore(a: Version, b: Version)
  {
    a.major == b.major && a.minor == b.minor && a.patch == b.patch
  }

  /** Clause 4.1 to 4.3: numbers numerically, texts as texts, and numbers below texts. */
  ghost predicate IdentifierPrecedes(a: Identifier, b: Identifier)
  {
    || (a.Numeric? && b.Numeric? && a.n < b.n)
    || (a.Alphanumeric? && b.Alphanumeric? && TextFirst(a.text, b.text))
    || (a.Numeric? && b.Alphanumeric?)
  }

  /** a[i] is the first place where a and b differ, and there a has the lower identifier. */
  ghost predicate LowerAt(a: seq<Identifier>, b: seq<Identifier>, i: nat)
  {
    i < |a| && i < |b| && Agree(a, b, i) && a[i] != b[i] && IdentifierPrecedes(a[i], b[i])
  }

  /** Clause 4: prereleases compare at their first differing identifier, and a longer list follows
      its prefix. */
  ghost predicate PrereleaseFirst(a: seq<Identifier>, b: seq<Identifier>)
  {
    (|a| < |b| && Agree(a, b, |a|)) || exists i :: LowerAt(a, b, i)
  }

  lemma IdentifierLessIff(a: Identifier, b: Identifier)
    ensures IdentifierLess(a, b) <==> IdentifierPrecedes(a, b)
  {
    hide TextLess, TextFirst;
    if a.Alphanumeric? && b.Alphanumeric? { TextLessIff(a.text, b.text); }
  }

  lemma {:induction false} PrereleaseLessIff(a: seq<Identifier>, b: seq<Identifier>)
    ensures PrereleaseLess(a, b) <==> PrereleaseFirst(a, b)
    decreases |a|
  {
    hide IdentifierLess, IdentifierPrecedes;
    if a != [] && b != [] {
      IdentifierLessIff(a[0], b[0]);
      if a[0] == b[0] {
        var x, y := a[1..], b[1..];
        PrereleaseLessIff(x, y);
        AgreeTails(a, b, |a|);
        forall i: nat | LowerAt(a, b, i) ensures exists k :: LowerAt(x, y, k) {
          AgreeTails(a, b, i);
          assert LowerAt(x, y, i - 1);
        }
        forall i: nat | LowerAt(x, y, i) ensures exists k :: LowerAt(a, b, k) {
          AgreeTails(a, b, i + 1);
          assert LowerAt(a, b, i + 1);
        }
      } else if IdentifierPrecedes(a[0], b[0]) {
        assert LowerAt(a, b, 0);
      }
    }
  }

  /** Section 11 as a whole: the numbers decide first (clause 2), then a prerelease precedes its
      release (clause 3), then the identifiers decide (clause 4). */
  ghost predicate Precedes(a: Version, b: Version)
  {
    || CoreLess(a, b)
    || (SameCore(a, b) && a.prerelease != [] && b.prerelease == [])
    || (SameCore(a, b) && a.prerelease != [] && b.prerelease != [] && PrereleaseFirst(a.prerelease, b.prerelease))
  }

  /** The comparison is section 11. */
  lemma LessThanIff(a: Version, b: Version)
    ensures LessThan(a, b) <==> Precedes(a, b)
  {
    hide PrereleaseLess, PrereleaseFirst;
    PrereleaseLessIff(a.prerelease, b.prerelease);
  }
}
