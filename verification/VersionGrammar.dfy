/** Which texts are strict versions and what they mean: the grammar of sections 2, 9 and 10 of
    Semantic Versioning 2.0.0, in both directions. */
module VersionGrammar {
  import opened Orders
  import opened SemVer

  // ---- Splitting and joining

  /** The parts with the separator between them. */
  function Join(parts: seq<string>, c: char): string
    requires parts != []
  {
    if |parts| == 1 then parts[0] else parts[0] + [c] + Join(parts[1..], c)
  }

  lemma {:induction false} SplitOfJoin(parts: seq<string>, c: char)
    requires parts != [] && forall p :: p in parts ==> c !in p
    ensures Split(Join(parts, c), c) == parts
  {
    hide IndexOf;
    assert parts[0] in parts;
    var s := Join(parts, c);
    if |parts| == 1 {
      IndexOfSeparator(parts[0], c, "");
    } else {
      IndexOfSeparator(parts[0], c, Join(parts[1..], c));
      assert s[..|parts[0]|] == parts[0] && s[|parts[0]| + 1..] == Join(parts[1..], c);
      SplitOfJoin(parts[1..], c);
    }
  }

  lemma {:induction false} JoinOfSplit(s: string, c: char)
    ensures Join(Split(s, c), c) == s && forall p :: p in Split(s, c) ==> c !in p
    decreases |s|
  {
    hide IndexOf;
    var i := IndexOf(s, c);
    if i < |s| {
      JoinOfSplit(s[i + 1..], c);
      assert Split(s, c)[1..] == Split(s[i + 1..], c);
      assert s == s[..i] + [c] + s[i + 1..];
    } else {
      assert s[..i] == s;
    }
  }

  // ---- Numbers and identifiers

  predicate IsDigits(s: string)
  {
    s != [] && forall i :: 0 <= i < |s| ==> '0' <= s[i] <= '9'
  }

  /** A number of the core: digits without a leading zero, within 64 bits. */
  predicate IsCoreNumber(s: string)
  {
    IsDigits(s) && (|s| > 1 ==> s[0] != '0') && (assert AllDigits(s); DecimalValue(s)) <= 0xFFFF_FFFF_FFFF_FFFF
  }

  /** A prerelease identifier: letters, digits and hyphens, and no leading zero when it is a number. */
  predicate IsPrereleaseIdentifier(s: string)
  {
    IsBuildIdentifier(s) && (IsDigits(s) && |s| > 1 ==> s[0] != '0')
  }

  predicate IsBuildIdentifier(s: string)
  {
    s != [] && forall i :: 0 <= i < |s| ==>
      '0' <= s[i] <= '9' || 'a' <= s[i] <= 'z' || 'A' <= s[i] <= 'Z' || s[i] == '-'
  }

  function IdentifierOf(s: string): Identifier
  {
    if IsDigits(s) then assert AllDigits(s); Numeric(DecimalValue(s)) else Alphanumeric(s)
  }

  function IdentifiersOf(parts: seq<string>): seq<Identifier>
  {
    seq(|parts|, i requires 0 <= i < |parts| => IdentifierOf(parts[i]))
  }

  /** The decimal digits of a number. */
  function Decimal(n: nat): string
  {
    if n < 10 then [('0' as int + n) as char] else Decimal(n / 10) + [('0' as int + n % 10) as char]
  }

  /** Digits mean the number they spell. */
  lemma {:induction false} DecimalSpells(n: nat)
    ensures AllDigits(Decimal(n)) && DecimalValue(Decimal(n)) == n
  {
    if n < 10 {
      assert Decimal(n)[..0] == [] && DecimalValue([]) == 0;
    } else {
      DecimalSpells(n / 10);
      var s := Decimal(n);
      assert s[..|s| - 1] == Decimal(n / 10);
    }
  }

  /** And every number without a leading zero is the spelling of its value. */
  lemma {:induction false} SpellsItsValue(s: string)
    requires s != [] && AllDigits(s) && (|s| > 1 ==> s[0] != '0')
    ensures s == Decimal(DecimalValue(s))
    ensures s[0] != '0' ==> DecimalValue(s) > 0
    decreases |s|
  {
    var n := |s| - 1;
    assert s[n] in s && s == s[..n] + [s[n]];
    if n == 0 {
      assert s[..0] == [] && DecimalValue([]) == 0;
    } else {
      assert forall c :: c in s[..n] ==> c in s;
      SpellsItsValue(s[..n]);
    }
  }

  lemma {:induction false} DecimalIsCanonical(n: nat)
    ensures Decimal(n) != [] && (|Decimal(n)| > 1 ==> Decimal(n)[0] != '0') && (n > 0 ==> Decimal(n)[0] != '0')
  {
    if n >= 10 { DecimalIsCanonical(n / 10); }
  }

  /** Numbers are exactly the decimal spellings of the values of 64 bits. */
  lemma NumberIsDecimal(s: string, n: nat)
    ensures ParseNumber(s) == Some(n) <==> s == Decimal(n) && n < 0x1_0000_0000_0000_0000
  {
    DecimalSpells(n);
    DecimalIsCanonical(n);
    if s != [] && AllDigits(s) && (|s| > 1 ==> s[0] != '0') { SpellsItsValue(s); }
    hide Decimal, DecimalValue;
  }

  lemma NumberIff(s: string)
    ensures ParseNumber(s).Some? <==> IsCoreNumber(s)
    ensures IsCoreNumber(s) ==> AllDigits(s) && ParseNumber(s) == Some(DecimalValue(s))
  {
    hide DecimalValue;
    assert AllDigits(s) <==> forall i :: 0 <= i < |s| ==> '0' <= s[i] <= '9' by {
      assert forall i :: 0 <= i < |s| ==> s[i] in s;
    }
  }

  lemma IdentifierIff(s: string)
    ensures ParseIdentifier(s) == if IsPrereleaseIdentifier(s) then Some(IdentifierOf(s)) else None
  {
    hide DecimalValue;
    assert forall i :: 0 <= i < |s| ==> s[i] in s;
    if s != [] && AllDigits(s) { assert IsDigits(s); }
  }

  lemma {:induction false} IdentifiersIff(parts: seq<string>)
    ensures ParseIdentifiers(parts)
         == if forall p :: p in parts ==> IsPrereleaseIdentifier(p) then Some(IdentifiersOf(parts)) else None
  {
    hide ParseIdentifier, IsPrereleaseIdentifier, IdentifierOf;
    if parts != [] {
      IdentifierIff(parts[0]);
      IdentifiersIff(parts[1..]);
      assert forall p :: p in parts <==> p == parts[0] || p in parts[1..];
      assert IdentifiersOf(parts) == [IdentifierOf(parts[0])] + IdentifiersOf(parts[1..]);
    }
  }

  // ---- Versions

  /** The pieces of a version text; no prerelease or build is an empty list. */
  datatype Pieces = Pieces(major: string, minor: string, patch: string, prerelease: seq<string>, build: seq<string>)

  predicate WellFormed(p: Pieces)
  {
    && IsCoreNumber(p.major) && IsCoreNumber(p.minor) && IsCoreNumber(p.patch)
    && (forall s :: s in p.prerelease ==> IsPrereleaseIdentifier(s))
    && (forall s :: s in p.build ==> IsBuildIdentifier(s))
  }

  function Dashed(parts: seq<string>): string { if parts == [] then "" else "-" + Join(parts, '.') }

  function Plussed(parts: seq<string>): string { if parts == [] then "" else "+" + Join(parts, '.') }

  function Text(p: Pieces): string
  {
    p.major + "." + (p.minor + "." + (p.patch + Dashed(p.prerelease) + Plussed(p.build)))
  }

  /** What the pieces mean; build metadata is not part of it. */
  function Meaning(p: Pieces): Version
    requires WellFormed(p)
  {
    NumberIff(p.major); NumberIff(p.minor); NumberIff(p.patch);
    Version(DecimalValue(p.major), DecimalValue(p.minor), DecimalValue(p.patch), IdentifiersOf(p.prerelease))
  }

  lemma DigitsLack(s: string, c: char)
    requires IsDigits(s) && !('0' <= c <= '9')
    ensures c !in s
  {
  }

  lemma {:induction false} JoinLacks(parts: seq<string>, c: char)
    requires parts != [] && c != '.' && forall p :: p in parts ==> c !in p
    ensures c !in Join(parts, '.')
  {
    assert parts[0] in parts;
    if |parts| > 1 { JoinLacks(parts[1..], c); }
  }

  lemma BuildIff(parts: seq<string>)
    requires parts != [] && forall p :: p in parts ==> '.' !in p
    ensures ValidBuild(Join(parts, '.')) <==> forall p :: p in parts ==> IsBuildIdentifier(p)
  {
    hide IndexOf;
    SplitOfJoin(parts, '.');
    forall p ensures IsBuildIdentifier(p) <==> p != [] && forall c :: c in p ==> IsIdentifierChar(c) {
      assert forall i :: 0 <= i < |p| ==> p[i] in p;
    }
  }

  lemma WellFormedLacks(p: Pieces)
    requires WellFormed(p)
    ensures '.' !in p.major && '.' !in p.minor && '+' !in p.patch && '-' !in p.patch
    ensures forall s :: s in p.prerelease ==> '.' !in s && '+' !in s
    ensures forall s :: s in p.build ==> '.' !in s
  {
    hide DecimalValue;
    DigitsLack(p.major, '.');
    DigitsLack(p.minor, '.');
    DigitsLack(p.patch, '+');
    DigitsLack(p.patch, '-');
  }

  /** A text split at a separator it was joined by. */
  lemma Halves(a: string, c: char, b: string)
    requires c !in a
    ensures IndexOf(a + [c] + b, c) == |a| < |a + [c] + b|
    ensures (a + [c] + b)[..|a|] == a && (a + [c] + b)[|a| + 1..] == b
  {
    IndexOfSeparator(a, c, b);
  }

  lemma NoSeparator(a: string, c: char)
    requires c !in a
    ensures IndexOf(a, c) == |a|
    ensures a[..|a|] == a
  {
    IndexOfSeparator(a, c, "");
  }

  /** The text before the build metadata. */
  lemma CoreParses(patch: string, parts: seq<string>)
    requires '+' !in patch && '-' !in patch
    requires forall s :: s in parts ==> '.' !in s && '+' !in s && IsPrereleaseIdentifier(s)
    ensures var core := patch + Dashed(parts);
      && '+' !in core && IndexOf(core, '-') == |patch| && core[..|patch|] == patch
      && (|patch| < |core| <==> parts != [])
      && (parts != [] ==> ParseIdentifiers(Split(core[|patch| + 1..], '.')) == Some(IdentifiersOf(parts)))
  {
    hide IndexOf, Split, IdentifiersOf, ParseIdentifiers, IsPrereleaseIdentifier;
    if parts == [] {
      NoSeparator(patch, '-');
      assert patch + Dashed(parts) == patch;
    } else {
      var joined := Join(parts, '.');
      JoinLacks(parts, '+');
      SplitOfJoin(parts, '.');
      IdentifiersIff(parts);
      Halves(patch, '-', joined);
      hide Join;
      assert patch + Dashed(parts) == patch + ['-'] + joined;
    }
  }

  /** And the build metadata. */
  lemma BuildParses(core: string, parts: seq<string>)
    requires '+' !in core
    requires forall s :: s in parts ==> '.' !in s && IsBuildIdentifier(s)
    ensures var last := core + Plussed(parts);
      && IndexOf(last, '+') == |core| && last[..|core|] == core
      && (|core| < |last| ==> ValidBuild(last[|core| + 1..]))
  {
    hide IndexOf, ValidBuild, IsBuildIdentifier;
    if parts == [] {
      NoSeparator(core, '+');
      assert core + Plussed(parts) == core;
    } else {
      var joined := Join(parts, '.');
      BuildIff(parts);
      Halves(core, '+', joined);
      hide Join;
      assert core + Plussed(parts) == core + ['+'] + joined;
    }
  }

  lemma PatchMeans(major: nat, minor: nat, number: nat, patch: string, core: string, last: string, prerelease: seq<Identifier>)
    requires IndexOf(last, '+') == |core| && last[..|core|] == core
    requires |core| < |last| ==> ValidBuild(last[|core| + 1..])
    requires IndexOf(core, '-') == |patch| && core[..|patch|] == patch
    requires ParseNumber(patch) == Some(number)
    requires |patch| == |core| ==> prerelease == []
    requires |patch| < |core| ==> ParseIdentifiers(Split(core[|patch| + 1..], '.')) == Some(prerelease)
    ensures ParsePatch(Some(major), Some(minor), last) == Some(Version(major, minor, number, prerelease))
  {
    hide IndexOf, ParseNumber, Split, ValidBuild, ParseIdentifiers;
  }

  /** What follows the second dot. */
  lemma PatchPartParses(p: Pieces)
    requires WellFormed(p)
    ensures ParsePatch(ParseNumber(p.major), ParseNumber(p.minor), p.patch + Dashed(p.prerelease) + Plussed(p.build))
         == Some(Meaning(p))
  {
    WellFormedLacks(p);
    NumberIff(p.major);
    NumberIff(p.minor);
    NumberIff(p.patch);
    hide IndexOf, DecimalValue, AllDigits, ParseNumber, Split, ValidBuild, IsPrereleaseIdentifier, IsBuildIdentifier,
      IsCoreNumber, Dashed, Plussed, IdentifiersOf, ParseIdentifiers, ParsePatch;
    var core := p.patch + Dashed(p.prerelease);
    var last := core + Plussed(p.build);
    CoreParses(p.patch, p.prerelease);
    BuildParses(core, p.build);
    NoIdentifiers(p.prerelease);
    var m := Meaning(p);
    PatchMeans(m.major, m.minor, m.patch, p.patch, core, last, m.prerelease);
  }

  lemma NoIdentifiers(parts: seq<string>)
    ensures parts == [] ==> IdentifiersOf(parts) == []
  {
  }

  /** Every text of the grammar is a version, and means what its pieces mean. */
  lemma TextParses(p: Pieces)
    requires WellFormed(p)
    ensures Parse(Text(p)) == Some(Meaning(p))
  {
    WellFormedLacks(p);
    PatchPartParses(p);
    hide IndexOf, ParsePatch, ParseNumber, WellFormed, Dashed, Plussed, Meaning;
    var last := p.patch + Dashed(p.prerelease) + Plussed(p.build);
    var tail := p.minor + ['.'] + last;
    Halves(p.major, '.', tail);
    Halves(p.minor, '.', last);
    assert Text(p) == p.major + ['.'] + tail;
  }

  /** A text is what stands before a separator, the separator and what stands after it. */
  lemma Reassembled(s: string, c: char)
    ensures IndexOf(s, c) < |s| ==> s == s[..IndexOf(s, c)] + [c] + s[IndexOf(s, c) + 1..]
    ensures IndexOf(s, c) == |s| ==> s == s[..IndexOf(s, c)]
  {
    hide IndexOf;
  }

  /** The identifiers behind the hyphen, when there is one and they are valid. */
  lemma PrereleasePieces(core: string) returns (parts: seq<string>)
    requires IndexOf(core, '-') < |core| ==> ParseIdentifiers(Split(core[IndexOf(core, '-') + 1..], '.')).Some?
    ensures core == core[..IndexOf(core, '-')] + Dashed(parts)
    ensures forall s :: s in parts ==> IsPrereleaseIdentifier(s)
  {
    Reassembled(core, '-');
    hide IndexOf, ParseIdentifiers, Join, Split, IsPrereleaseIdentifier, IdentifierOf;
    var dash := IndexOf(core, '-');
    parts := [];
    if dash < |core| {
      parts := Split(core[dash + 1..], '.');
      JoinOfSplit(core[dash + 1..], '.');
      IdentifiersIff(parts);
    }
  }

  /** The identifiers behind the plus sign. */
  lemma BuildPieces(last: string) returns (parts: seq<string>)
    requires IndexOf(last, '+') < |last| ==> ValidBuild(last[IndexOf(last, '+') + 1..])
    ensures last == last[..IndexOf(last, '+')] + Plussed(parts)
    ensures forall s :: s in parts ==> IsBuildIdentifier(s)
  {
    Reassembled(last, '+');
    hide IndexOf, ValidBuild, Join, Split, IsBuildIdentifier;
    var plus := IndexOf(last, '+');
    parts := [];
    if plus < |last| {
      parts := Split(last[plus + 1..], '.');
      JoinOfSplit(last[plus + 1..], '.');
      BuildIff(parts);
    }
  }

  /** The pieces of what follows the second dot, when it is one. */
  lemma PatchPieces(major: string, minor: string, last: string) returns (p: Pieces)
    requires ParsePatch(ParseNumber(major), ParseNumber(minor), last).Some?
    ensures WellFormed(p) && p.major == major && p.minor == minor
    ensures last == p.patch + Dashed(p.prerelease) + Plussed(p.build)
  {
    hide IndexOf, DecimalValue, AllDigits, ParseNumber, ParseIdentifiers, Split, ValidBuild, IsPrereleaseIdentifier,
      IsBuildIdentifier, IsCoreNumber, Dashed, Plussed;
    var core := last[..IndexOf(last, '+')];
    var patch := core[..IndexOf(core, '-')];
    var build := BuildPieces(last);
    var prerelease := PrereleasePieces(core);
    NumberIff(major);
    NumberIff(minor);
    NumberIff(patch);
    p := Pieces(major, minor, patch, prerelease, build);
  }

  /** And every version text is of the grammar. */
  lemma ParsedTextIsWellFormed(text: string) returns (p: Pieces)
    requires Parse(text).Some?
    ensures WellFormed(p) && text == Text(p)
  {
    hide ParsePatch, ParseNumber, WellFormed, Dashed, Plussed;
    var dot1 := IndexOf(text, '.');
    var tail := text[dot1 + 1..];
    var dot2 := IndexOf(tail, '.');
    hide IndexOf;
    p := PatchPieces(text[..dot1], tail[..dot2], tail[dot2 + 1..]);
    assert tail == tail[..dot2] + "." + tail[dot2 + 1..];
    assert text == text[..dot1] + "." + tail;
  }

  // ---- The example of section 11

  lemma Release100(parts: seq<string>)
    requires forall s :: s in parts ==> IsPrereleaseIdentifier(s)
    ensures Parse("1.0.0" + Dashed(parts)) == Some(Version(1, 0, 0, IdentifiersOf(parts)))
  {
    Spelled();
    hide IndexOf, ParsePatch, ParseNumber, Dashed, IsPrereleaseIdentifier;
    var p := Pieces("1", "0", "0", parts, []);
    TextParses(p);
    hide Parse;
    assert Text(p) == "1.0.0" + Dashed(parts);
  }

  lemma Spelled()
    ensures IsCoreNumber("0") && AllDigits("0") && DecimalValue("0") == 0
    ensures IsCoreNumber("1") && AllDigits("1") && DecimalValue("1") == 1
    ensures AllDigits("2") && DecimalValue("2") == 2 && AllDigits("11") && DecimalValue("11") == 11
  {
    assert DecimalValue([]) == 0;
    assert "0"[..0] == [] && "1"[..0] == [] && "2"[..0] == [] && "11"[..1] == "1";
  }

  lemma IdentifierMeans()
    ensures IsPrereleaseIdentifier("alpha") && IdentifierOf("alpha") == Alphanumeric("alpha")
    ensures IsPrereleaseIdentifier("beta") && IdentifierOf("beta") == Alphanumeric("beta")
    ensures IsPrereleaseIdentifier("rc") && IdentifierOf("rc") == Alphanumeric("rc")
    ensures IsPrereleaseIdentifier("1") && IdentifierOf("1") == Numeric(1)
    ensures IsPrereleaseIdentifier("2") && IdentifierOf("2") == Numeric(2)
    ensures IsPrereleaseIdentifier("11") && IdentifierOf("11") == Numeric(11)
  {
    Spelled();
    hide DecimalValue, AllDigits;
    assert !IsDigits("alpha") && !IsDigits("beta") && !IsDigits("rc") by {
      assert "alpha"[0] == 'a' && "beta"[0] == 'b' && "rc"[0] == 'r';
    }
  }

  lemma OneIdentifier(a: string)
    requires IsPrereleaseIdentifier(a)
    ensures Parse("1.0.0" + ("-" + a)) == Some(Version(1, 0, 0, [IdentifierOf(a)]))
  {
    hide Parse, IsPrereleaseIdentifier, IdentifierOf;
    Release100([a]);
    assert IdentifiersOf([a]) == [IdentifierOf(a)];
  }

  lemma TwoIdentifiers(a: string, b: string)
    requires IsPrereleaseIdentifier(a) && IsPrereleaseIdentifier(b)
    ensures Parse("1.0.0" + ("-" + (a + "." + b))) == Some(Version(1, 0, 0, [IdentifierOf(a), IdentifierOf(b)]))
  {
    hide Parse, IsPrereleaseIdentifier, IdentifierOf;
    Release100([a, b]);
    assert IdentifiersOf([a, b]) == [IdentifierOf(a), IdentifierOf(b)];
    assert [a, b][1..] == [b];
    assert Join([a, b], '.') == a + "." + b;
  }

  /** Section 11: 1.0.0-alpha < 1.0.0-alpha.1 < 1.0.0-alpha.beta < 1.0.0-beta < 1.0.0-beta.2
      < 1.0.0-beta.11 < 1.0.0-rc.1 < 1.0.0. */
  lemma ExampleAscends()
    ensures TextPrecedes("1.0.0-alpha", "1.0.0-alpha.1") && TextPrecedes("1.0.0-alpha.1", "1.0.0-alpha.beta")
    ensures TextPrecedes("1.0.0-alpha.beta", "1.0.0-beta") && TextPrecedes("1.0.0-beta", "1.0.0-beta.2")
    ensures TextPrecedes("1.0.0-beta.2", "1.0.0-beta.11") && TextPrecedes("1.0.0-beta.11", "1.0.0-rc.1")
    ensures TextPrecedes("1.0.0-rc.1", "1.0.0")
  {
    ExampleMeans();
    hide Parse;
    assert TextLess("alpha", "beta") && TextLess("beta", "rc");
  }

  lemma ExampleMeans()
    ensures Parse("1.0.0-alpha") == Some(Version(1, 0, 0, [Alphanumeric("alpha")]))
    ensures Parse("1.0.0-alpha.1") == Some(Version(1, 0, 0, [Alphanumeric("alpha"), Numeric(1)]))
    ensures Parse("1.0.0-alpha.beta") == Some(Version(1, 0, 0, [Alphanumeric("alpha"), Alphanumeric("beta")]))
    ensures Parse("1.0.0-beta") == Some(Version(1, 0, 0, [Alphanumeric("beta")]))
    ensures Parse("1.0.0-beta.2") == Some(Version(1, 0, 0, [Alphanumeric("beta"), Numeric(2)]))
    ensures Parse("1.0.0-beta.11") == Some(Version(1, 0, 0, [Alphanumeric("beta"), Numeric(11)]))
    ensures Parse("1.0.0-rc.1") == Some(Version(1, 0, 0, [Alphanumeric("rc"), Numeric(1)]))
    ensures Parse("1.0.0") == Some(Version(1, 0, 0, []))
  {
    IdentifierMeans();
    hide Parse, IsPrereleaseIdentifier, IdentifierOf;
    OneIdentifier("alpha");
    assert "1.0.0" + ("-" + "alpha") == "1.0.0-alpha";
    TwoIdentifiers("alpha", "1");
    assert "1.0.0" + ("-" + ("alpha" + "." + "1")) == "1.0.0-alpha.1";
    TwoIdentifiers("alpha", "beta");
    assert "1.0.0" + ("-" + ("alpha" + "." + "beta")) == "1.0.0-alpha.beta";
    OneIdentifier("beta");
    assert "1.0.0" + ("-" + "beta") == "1.0.0-beta";
    TwoIdentifiers("beta", "2");
    assert "1.0.0" + ("-" + ("beta" + "." + "2")) == "1.0.0-beta.2";
    TwoIdentifiers("beta", "11");
    assert "1.0.0" + ("-" + ("beta" + "." + "11")) == "1.0.0-beta.11";
    TwoIdentifiers("rc", "1");
    assert "1.0.0" + ("-" + ("rc" + "." + "1")) == "1.0.0-rc.1";
    Release100([]);
    assert "1.0.0" + Dashed([]) == "1.0.0" && IdentifiersOf([]) == [];
  }
}
