/** Strict semantic versions: the grammar of sections 2, 9 and 10 and the precedence
    of section 11 of Semantic Versioning 2.0.0. */
module SemVer {
  import opened Orders

  /** Numbers are unsigned 64-bit; a larger one makes the text invalid. */
  const MAX_UINT64: nat := 0xFFFF_FFFF_FFFF_FFFF

  datatype Identifier = Numeric(n: nat) | Alphanumeric(text: string)

  datatype Version = Version(major: nat, minor: nat, patch: nat, prerelease: seq<Identifier>)

  // ---- Precedence (section 11)

  predicate IdentifierLess(a: Identifier, b: Identifier)
  {
    match (a, b)
    case (Numeric(m), Numeric(n)) => m < n
    case (Numeric(_), Alphanumeric(_)) => true
    case (Alphanumeric(_), Numeric(_)) => false
    case (Alphanumeric(s), Alphanumeric(t)) => TextLess(s, t)
  }

  predicate PrereleaseLess(a: seq<Identifier>, b: seq<Identifier>)
    decreases |a|
  {
    if b == [] then false
    else if a == [] then true
    else if a[0] != b[0] then IdentifierLess(a[0], b[0])
    else PrereleaseLess(a[1..], b[1..])
  }

  /** Build metadata is not part of a Version: it never affects precedence, so two texts
      have the same precedence exactly when they parse to equal Versions. */
  predicate LessThan(a: Version, b: Version)
  {
    if a.major != b.major then a.major < b.major
    else if a.minor != b.minor then a.minor < b.minor
    else if a.patch != b.patch then a.patch < b.patch
    else if a.prerelease == [] then false
    else b.prerelease == [] || PrereleaseLess(a.prerelease, b.prerelease)
  }

  lemma IdentifierOrder(a: Identifier, b: Identifier, c: Identifier)
    ensures IdentifierLess(a, b) ==> !IdentifierLess(b, a) && a != b
    ensures a == b || IdentifierLess(a, b) || IdentifierLess(b, a)
    ensures IdentifierLess(a, b) && IdentifierLess(b, c) ==> IdentifierLess(a, c)
  {
    if a.Alphanumeric? && b.Alphanumeric? {
      TextLessTotal(a.text, b.text);
      if TextLess(a.text, b.text) {
        TextLessAsymmetric(a.text, b.text);
        if c.Alphanumeric? && TextLess(b.text, c.text) {
          TextLessTransitive(a.text, b.text, c.text);
        }
      }
    }
  }

  lemma {:induction false} PrereleaseOrder(a: seq<Identifier>, b: seq<Identifier>, c: seq<Identifier>)
    ensures PrereleaseLess(a, b) ==> !PrereleaseLess(b, a) && a != b
    ensures a == b || PrereleaseLess(a, b) || PrereleaseLess(b, a)
    ensures PrereleaseLess(a, b) && PrereleaseLess(b, c) ==> PrereleaseLess(a, c)
    decreases |a|
  {
    if a != [] && b != [] {
      IdentifierOrder(a[0], b[0], if c == [] then a[0] else c[0]);
      if a[0] == b[0] {
        PrereleaseOrder(a[1..], b[1..], if c == [] then [] else c[1..]);
        assert a == [a[0]] + a[1..] && b == [b[0]] + b[1..];
      }
    }
  }

  /** Precedence is a strict total order on versions. */
  lemma LessThanOrder(a: Version, b: Version, c: Version)
    ensures LessThan(a, b) ==> !LessThan(b, a) && a != b
    ensures a == b || LessThan(a, b) || LessThan(b, a)
    ensures LessThan(a, b) && LessThan(b, c) ==> LessThan(a, c)
  {
    PrereleaseOrder(a.prerelease, b.prerelease, c.prerelease);
  }

  // ---- Strict parsing (sections 2, 9 and 10)

  predicate IsDigit(c: char) { '0' <= c <= '9' }

  predicate IsIdentifierChar(c: char)
  {
    IsDigit(c) || 'a' <= c <= 'z' || 'A' <= c <= 'Z' || c == '-'
  }

  predicate AllDigits(s: string) { forall c :: c in s ==> IsDigit(c) }

  function DecimalValue(s: string): nat
    requires AllDigits(s)
    decreases |s|
  {
    if s == [] then 0
    else
      var n := |s| - 1;
      assert s[n] in s && forall c :: c in s[..n] ==> c in s;
      10 * DecimalValue(s[..n]) + (s[n] as int - '0' as int)
  }

  /** A number without leading zeros that fits in 64 bits. */
  function ParseNumber(s: string): Option<nat>
  {
    if s == [] || !AllDigits(s) || (|s| > 1 && s[0] == '0') || DecimalValue(s) > MAX_UINT64 then None
    else Some(DecimalValue(s))
  }

  /** The first position of c in s, or |s|. */
  function IndexOf(s: string, c: char): (i: nat)
    ensures i <= |s| && c !in s[..i]
    ensures i < |s| ==> s[i] == c
    decreases |s|
  {
    if s == [] || s[0] == c then 0
    else
      var i := 1 + IndexOf(s[1..], c);
      assert s[..i] == [s[0]] + s[1..][..i - 1];
      i
  }

  /** The first separator is found where it was put. */
  lemma {:induction false} IndexOfSeparator(a: string, c: char, rest: string)
    requires c !in a
    ensures IndexOf(a, c) == |a|
    ensures IndexOf(a + [c] + rest, c) == |a|
  {
    if a == [] {
      assert a + [c] + rest == [c] + rest;
    } else {
      IndexOfSeparator(a[1..], c, rest);
      assert (a + [c] + rest)[1..] == a[1..] + [c] + rest;
    }
  }

  /** strings.Split(s, c) for a one-character separator. */
  function Split(s: string, c: char): (parts: seq<string>)
    ensures |parts| > 0
    decreases |s|
  {
    var i := IndexOf(s, c);
    if i == |s| then [s] else [s[..i]] + Split(s[i + 1..], c)
  }

  function ParseIdentifier(s: string): Option<Identifier>
  {
    if s == [] || exists c :: c in s && !IsIdentifierChar(c) then None
    else if !AllDigits(s) then Some(Alphanumeric(s))
    else if |s| > 1 && s[0] == '0' then None
    else Some(Numeric(DecimalValue(s)))
  }

  function ParseIdentifiers(parts: seq<string>): Option<seq<Identifier>>
  {
    if parts == [] then Some([])
    else
      var head, rest := ParseIdentifier(parts[0]), ParseIdentifiers(parts[1..]);
      if head.None? || rest.None? then None else Some([head.value] + rest.value)
  }

  predicate ValidBuild(s: string)
  {
    forall part :: part in Split(s, '.') ==> part != [] && forall c :: c in part ==> IsIdentifierChar(c)
  }

  /** What follows the second dot: patch [ "-" prerelease ] [ "+" build ] */
  function ParsePatch(major: Option<nat>, minor: Option<nat>, last: string): Option<Version>
  {
    var plus := IndexOf(last, '+');
    if plus < |last| && !ValidBuild(last[plus + 1..]) then None else
    var core := last[..plus];
    var dash := IndexOf(core, '-');
    var prerelease := if dash < |core| then ParseIdentifiers(Split(core[dash + 1..], '.')) else Some([]);
    var patch := ParseNumber(core[..dash]);
    if major.None? || minor.None? || patch.None? || prerelease.None? then None
    else Some(Version(major.value, minor.value, patch.value, prerelease.value))
  }

  /** major "." minor "." patch [ "-" prerelease ] [ "+" build ] */
  function Parse(text: string): Option<Version>
  {
    var dot1 := IndexOf(text, '.');
    if dot1 == |text| then None else
    var tail := text[dot1 + 1..];
    var dot2 := IndexOf(tail, '.');
    if dot2 == |tail| then None
    else ParsePatch(ParseNumber(text[..dot1]), ParseNumber(tail[..dot2]), tail[dot2 + 1..])
  }

  /** semver.StrictNewVersion(a).LessThan(StrictNewVersion(b)), when both are valid. */
  predicate TextPrecedes(a: string, b: string)
  {
    Parse(a).Some? && Parse(b).Some? && LessThan(Parse(a).value, Parse(b).value)
  }
}
