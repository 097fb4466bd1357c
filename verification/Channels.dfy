/** Channel names: version suffixes, families, and the hand-written orders over them. */
module Channels {
  import opened Orders
  import opened SemVer
  import opened FamilyOrder
  import opened VersionGrammar

  function LowerChar(c: char): char
  {
    if 'A' <= c <= 'Z' then (c as int + 32) as char else c
  }

  function Lower(s: string): string
  {
    seq(|s|, i requires 0 <= i < |s| => LowerChar(s[i]))
  }

  function Wildcard(part: string): string
  {
    if part == "x" || part == "*" then "0" else part
  }

  /** "1" is 1.0.0, "1.6" is 1.6.0, "1.x" and "1.*" are 1.0.0. */
  function ParseChannelVersion(value: string): Option<Version>
  {
    if Parse(value).Some? then Parse(value) else
    var parts := Split(Lower(value), '.');
    if |parts| > 3 then None else
    var minor := if |parts| > 1 then Wildcard(parts[1]) else "0";
    var patch := if |parts| > 2 then Wildcard(parts[2]) else "0";
    Parse(Wildcard(parts[0]) + "." + minor + "." + patch)
  }

  /** The last position of c in s, or -1. */
  function LastIndexOf(s: string, c: char): (i: int)
    ensures -1 <= i < |s| && forall j :: i < j < |s| ==> s[j] != c
    ensures i >= 0 ==> s[i] == c
  {
    if s == [] then -1
    else if s[|s| - 1] == c then |s| - 1
    else LastIndexOf(s[..|s| - 1], c)
  }

  /** A channel name split at its last hyphen, when what follows is a version. */
  function ChannelSuffix(s: string): Option<Suffix>
  {
    var i := LastIndexOf(s, '-');
    if i < 0 then None else
    var version := ParseChannelVersion(s[i + 1..]);
    if version.None? then None else Some(Suffix(s[..i], version.value))
  }

  predicate SameFamily(a: string, b: string)
  {
    Related(ChannelSuffix, a, b)
  }

  /** The versions of two channels of one family, in order. */
  predicate OlderVersion(a: string, b: string)
    requires SameFamily(a, b)
  {
    Older(ChannelSuffix, a, b)
  }

  predicate ChannelLess(a: string, b: string)
  {
    FamilyLess(ChannelSuffix, a, b)
  }

  /** The current channel's family first, then ChannelLess. */
  predicate CandidateLess(current: string, a: string, b: string)
  {
    if ChannelSuffix(current).Some? && SameFamily(current, a) != SameFamily(current, b)
    then SameFamily(current, a)
    else ChannelLess(a, b)
  }

  // ---- When ChannelLess orders a set of names

  ghost predicate FamiliesContiguous(names: set<string>)
  {
    Contiguous(ChannelSuffix, names)
  }

  /** ChannelLess is a strict weak order on a set of names exactly when no foreign name
      separates two members of a family that are out of version order. */
  lemma ChannelLessOrdersIffContiguous(names: set<string>)
    ensures StrictWeak(ChannelLess, names) <==> FamiliesContiguous(names)
  {
    hide FamilyLess, Contiguous;
    var less := (a, b) => FamilyLess(ChannelSuffix, a, b);
    FamilyLessOrdersIffContiguous(ChannelSuffix, names);
    assert forall a, b :: less(a, b) == ChannelLess(a, b);
    assert StrictWeak(less, names) <==> StrictWeak(ChannelLess, names);
  }

  // ---- Abbreviated versions, and a cycle

  predicate IsNumber(s: string) { ParseNumber(s).Some? }

  lemma DigitsHaveNo(s: string, c: char)
    requires IsNumber(s) && !IsDigit(c)
    ensures c !in s && Lower(s) == s && Wildcard(s) == s && IndexOf(s, c) == |s|
  {
    IndexOfSeparator(s, c, "");
    assert forall i :: 0 <= i < |s| ==> s[i] in s;
    assert s[0] in s;
  }

  /** Three numbers are the version they spell. */
  lemma CoreVersion(major: string, minor: string, patch: string)
    requires IsNumber(major) && IsNumber(minor) && IsNumber(patch)
    ensures Parse(major + "." + minor + "." + patch)
         == Some(Version(DecimalValue(major), DecimalValue(minor), DecimalValue(patch), []))
  {
    PlainPatch(major, minor, patch);
    hide DecimalValue, IndexOf, ParsePatch, AllDigits, Parse;
    DigitsHaveNo(major, '.');
    DigitsHaveNo(minor, '.');
    ThreeParts(major, minor, patch);
  }

  lemma ThreeParts(a: string, b: string, c: string)
    requires '.' !in a && '.' !in b
    ensures Parse(a + "." + b + "." + c) == ParsePatch(ParseNumber(a), ParseNumber(b), c)
  {
    hide IndexOf, ParsePatch, ParseNumber;
    var text, tail := a + "." + b + "." + c, b + ['.'] + c;
    assert text == a + ['.'] + tail;
    IndexOfSeparator(a, '.', tail);
    IndexOfSeparator(b, '.', c);
    assert text[..|a|] == a && text[|a| + 1..] == tail;
    assert tail[..|b|] == b && tail[|b| + 1..] == c;
  }

  lemma PlainPatch(major: string, minor: string, patch: string)
    requires IsNumber(major) && IsNumber(minor) && IsNumber(patch)
    ensures ParsePatch(ParseNumber(major), ParseNumber(minor), patch)
         == Some(Version(DecimalValue(major), DecimalValue(minor), DecimalValue(patch), []))
  {
    hide DecimalValue, IndexOf, AllDigits;
    DigitsHaveNo(patch, '+');
    DigitsHaveNo(patch, '-');
    assert patch[..|patch|] == patch;
  }

  /** A number, or a wildcard in its place. */
  predicate IsPlace(part: string)
  {
    IsNumber(part) || part == "x" || part == "X" || part == "*"
  }

  /** A wildcard counts as zero, and so does a place that is left out. */
  function PlaceValue(parts: seq<string>, i: nat): nat
  {
    if i < |parts| && IsNumber(parts[i]) then DecimalValue(parts[i]) else 0
  }

  predicate Spells(s: string, n: nat) { ParseNumber(s) == Some(n) }

  lemma PlaceReads(part: string)
    requires IsPlace(part)
    ensures '.' !in part && '.' !in Lower(part)
    ensures Spells(Wildcard(Lower(part)), if IsNumber(part) then DecimalValue(part) else 0)
  {
    Zero();
    assert !IsDigit("x"[0]) && !IsDigit("X"[0]) && !IsDigit("*"[0]);
    assert Lower("x") == "x" && Lower("X") == "x" && Lower("*") == "*";
    hide DecimalValue, IndexOf;
    if IsNumber(part) { DigitsHaveNo(part, '.'); }
  }

  lemma SpelledCore(a: string, b: string, c: string, major: nat, minor: nat, patch: nat)
    requires Spells(a, major) && Spells(b, minor) && Spells(c, patch)
    ensures Parse(a + "." + b + "." + c) == Some(Version(major, minor, patch, []))
  {
    CoreVersion(a, b, c);
    hide DecimalValue, Parse;
  }

  function LowerAll(parts: seq<string>): seq<string>
  {
    seq(|parts|, i requires 0 <= i < |parts| => Lower(parts[i]))
  }

  lemma {:induction false} LowerJoin(parts: seq<string>)
    requires parts != []
    ensures Lower(Join(parts, '.')) == Join(LowerAll(parts), '.')
  {
    if |parts| > 1 {
      LowerJoin(parts[1..]);
      assert LowerAll(parts)[1..] == LowerAll(parts[1..]);
      assert Join(parts, '.') == parts[0] + ['.'] + Join(parts[1..], '.');
    }
  }

  lemma ThreeOfParts(a: string, b: string, c: string)
    ensures Join([a, b, c], '.') == a + "." + b + "." + c
  {
    assert [a, b, c][1..] == [b, c] && [b, c][1..] == [c];
    assert Join([b, c], '.') == b + ['.'] + c;
  }

  /** A text of up to three places is the strict version it spells, or none at all. */
  lemma PlacesParse(parts: seq<string>)
    requires 1 <= |parts| <= 3 && forall part :: part in parts ==> IsPlace(part)
    ensures Parse(Join(parts, '.')).Some? ==> |parts| == 3 && forall part :: part in parts ==> IsNumber(part)
  {
    forall part | part in parts ensures '.' !in part { PlaceReads(part); }
    hide IsPlace, IsNumber, ParsePatch;
    if |parts| == 3 {
      hide Parse;
      assert parts == [parts[0], parts[1], parts[2]];
      ThreeOfParts(parts[0], parts[1], parts[2]);
      ThreeParts(parts[0], parts[1], parts[2]);
      PlacePatch(parts[0], parts[1], parts[2]);
    } else {
      FewerParts(parts);
    }
  }

  lemma FewerParts(parts: seq<string>)
    requires 1 <= |parts| <= 2 && forall part :: part in parts ==> '.' !in part
    ensures Parse(Join(parts, '.')).None?
  {
    hide IndexOf, ParsePatch, ParseNumber;
    if |parts| == 1 {
      NoSeparator(parts[0], '.');
    } else {
      assert parts[1..] == [parts[1]];
      Halves(parts[0], '.', parts[1]);
      NoSeparator(parts[1], '.');
    }
  }

  lemma PlacePatch(major: string, minor: string, patch: string)
    requires IsPlace(patch)
    ensures ParsePatch(ParseNumber(major), ParseNumber(minor), patch).Some? ==>
      IsNumber(major) && IsNumber(minor) && IsNumber(patch)
  {
    hide DecimalValue, IndexOf;
    if !IsNumber(patch) {
      NoSeparator(patch, '+');
      NoSeparator(patch, '-');
    }
  }

  lemma NumbersAsTheyAre(parts: seq<string>)
    requires |parts| == 3 && forall part :: part in parts ==> IsNumber(part)
    ensures Parse(Join(parts, '.')) == Some(Version(PlaceValue(parts, 0), PlaceValue(parts, 1), PlaceValue(parts, 2), []))
  {
    hide Parse, IsNumber, Join;
    assert parts == [parts[0], parts[1], parts[2]];
    ThreeOfParts(parts[0], parts[1], parts[2]);
    CoreVersion(parts[0], parts[1], parts[2]);
  }

  /** One to three places are the version they spell, with zero for wildcards and what is left out. */
  lemma AbbreviatedVersion(parts: seq<string>)
    requires 1 <= |parts| <= 3 && forall part :: part in parts ==> IsPlace(part)
    ensures ParseChannelVersion(Join(parts, '.'))
         == Some(Version(PlaceValue(parts, 0), PlaceValue(parts, 1), PlaceValue(parts, 2), []))
  {
    hide Parse, Join, IsPlace, IsNumber, PlaceValue;
    PlacesParse(parts);
    if Parse(Join(parts, '.')).Some? {
      NumbersAsTheyAre(parts);
    } else {
      hide ParseChannelVersion;
      PlacesNormalize(parts);
    }
  }

  lemma PlacesNormalize(parts: seq<string>)
    requires 1 <= |parts| <= 3 && forall part :: part in parts ==> IsPlace(part)
    requires Parse(Join(parts, '.')).None?
    ensures ParseChannelVersion(Join(parts, '.'))
         == Some(Version(PlaceValue(parts, 0), PlaceValue(parts, 1), PlaceValue(parts, 2), []))
  {
    PlacesRead(parts);
    Zero();
    hide DecimalValue, ParseNumber, IsPlace, Lower, Wildcard, Parse, Split, Join, PlaceValue;
    var lower := LowerAll(parts);
    var minor, patch := if |parts| > 1 then Wildcard(lower[1]) else "0", if |parts| > 2 then Wildcard(lower[2]) else "0";
    assert Spells("0", 0);
    SpelledCore(Wildcard(lower[0]), minor, patch, PlaceValue(parts, 0), PlaceValue(parts, 1), PlaceValue(parts, 2));
  }

  lemma PlacesRead(parts: seq<string>)
    requires parts != [] && forall part :: part in parts ==> IsPlace(part)
    ensures Split(Lower(Join(parts, '.')), '.') == LowerAll(parts)
    ensures forall i: nat :: i < |parts| ==> Spells(Wildcard(LowerAll(parts)[i]), PlaceValue(parts, i))
    ensures forall i: nat :: i >= |parts| ==> PlaceValue(parts, i) == 0
  {
    hide DecimalValue, AllDigits, ParseNumber, IsPlace, Lower, Wildcard, Split, Join, Spells;
    forall i: nat | i < |parts|
      ensures Spells(Wildcard(Lower(parts[i])), PlaceValue(parts, i))
      ensures '.' !in Lower(parts[i])
    {
      PlaceReads(parts[i]);
    }
    LowerJoin(parts);
    SplitOfJoin(LowerAll(parts), '.');
  }

  /** Two numbers are that minor version's patch zero. */
  lemma MinorVersion(major: string, minor: string)
    requires IsNumber(major) && IsNumber(minor)
    ensures ParseChannelVersion(major + "." + minor)
         == Some(Version(DecimalValue(major), DecimalValue(minor), 0, []))
  {
    hide DecimalValue, AllDigits, ParseNumber, ParseChannelVersion;
    AbbreviatedVersion([major, minor]);
    assert [major, minor][1..] == [minor];
  }

  lemma Zero()
    ensures IsNumber("0") && DecimalValue("0") == 0
  {}

  /** Without a hyphen there is no suffix. */
  lemma NoHyphenNoSuffix(s: string)
    ensures '-' !in s ==> ChannelSuffix(s).None?
  {
    var i := LastIndexOf(s, '-');
    if i >= 0 { assert s[i] in s; }
  }

  /** What follows the last hyphen decides the suffix. */
  lemma SuffixAfterHyphen(family: string, value: string)
    requires '-' !in value
    ensures ChannelSuffix(family + "-" + value)
         == if ParseChannelVersion(value).Some? then Some(Suffix(family, ParseChannelVersion(value).value)) else None
  {
    var s := family + "-" + value;
    LastHyphen(family, value);
    assert s[|family| + 1..] == value && s[..|family|] == family;
  }

  lemma {:induction false} LastHyphen(family: string, value: string)
    requires '-' !in value
    ensures LastIndexOf(family + "-" + value, '-') == |family|
  {
    if value != [] {
      var n := |value| - 1;
      LastHyphen(family, value[..n]);
      assert (family + "-" + value)[..|family| + 1 + n] == family + "-" + value[..n];
    }
  }

  lemma WordIsNoVersion(word: string)
    requires word != [] && Lower(word) == word && '.' !in word && !IsDigit(word[0]) && Wildcard(word) == word
    ensures ParseChannelVersion(word).None?
  {
    IndexOfSeparator(word, '.', "");
    var text := word + "." + "0" + "." + "0";
    assert text == word + ['.'] + "0.0";
    IndexOfSeparator(word, '.', "0.0");
    assert text[..|word|] == word;
  }

  /** Otherwise three names can form a cycle: 1.6 before 1.10 before 1.5-foo before 1.6. */
  lemma ChannelLessCanCycle(family: string)
    ensures ChannelLess(family + "-" + "1.6", family + "-" + "1.10")
    ensures ChannelLess(family + "-" + "1.10", family + "-1.5" + "-" + "foo")
    ensures ChannelLess(family + "-1.5" + "-" + "foo", family + "-" + "1.6")
  {
    hide TextLess, ChannelSuffix;
    CycleSuffixes(family);
    CycleTexts(family);
  }

  lemma CycleTexts(family: string)
    ensures TextLess(family + "-" + "1.10", family + "-1.5" + "-" + "foo")
    ensures TextLess(family + "-1.5" + "-" + "foo", family + "-" + "1.6")
  {
    DigitsDiffer(family + "-1.", '1', "0", '5', "-foo");
    DigitsDiffer(family + "-1.", '5', "-foo", '6', "");
    assert family + "-1." + ['1'] + "0" == family + "-" + "1.10";
    assert family + "-1." + ['5'] + "-foo" == family + "-1.5" + "-" + "foo";
    assert family + "-1." + ['6'] + "" == family + "-" + "1.6";
  }

  lemma DigitsDiffer(prefix: string, c: char, a: string, d: char, b: string)
    requires c < d
    ensures TextLess(prefix + [c] + a, prefix + [d] + b)
  {
    SamePrefix(prefix, [c] + a, [d] + b);
    assert prefix + [c] + a == prefix + ([c] + a) && prefix + [d] + b == prefix + ([d] + b);
  }

  lemma {:induction false} SamePrefix(prefix: string, a: string, b: string)
    ensures TextLess(prefix + a, prefix + b) == TextLess(a, b)
  {
    if prefix == [] {
      assert prefix + a == a && prefix + b == b;
    } else {
      SamePrefix(prefix[1..], a, b);
      assert (prefix + a)[1..] == prefix[1..] + a && (prefix + b)[1..] == prefix[1..] + b;
    }
  }

  lemma CycleSuffixes(family: string)
    ensures ChannelSuffix(family + "-" + "1.6") == Some(Suffix(family, Version(1, 6, 0, [])))
    ensures ChannelSuffix(family + "-" + "1.10") == Some(Suffix(family, Version(1, 10, 0, [])))
    ensures ChannelSuffix(family + "-1.5" + "-" + "foo") == None
  {
    Numbers();
    hide DecimalValue, AllDigits, ParseNumber, ParsePatch, Parse, LastIndexOf, ChannelSuffix;
    MinorVersion("1", "6");
    MinorVersion("1", "10");
    assert "1" + "." + "6" == "1.6" && "1" + "." + "10" == "1.10";
    SuffixAfterHyphen(family, "1.6");
    SuffixAfterHyphen(family, "1.10");
    assert !IsDigit("foo"[0]);
    WordIsNoVersion("foo");
    SuffixAfterHyphen(family + "-1.5", "foo");
  }

  lemma Numbers()
    ensures IsNumber("1") && IsNumber("6") && IsNumber("10")
    ensures DecimalValue("1") == 1 && DecimalValue("6") == 6 && DecimalValue("10") == 10
  {
    assert DecimalValue([]) == 0;
    assert "1"[..0] == [] && "6"[..0] == [] && "10"[..1] == "1";
  }

  /** The candidates' order is a strict weak order exactly when ChannelLess is one on the
      names outside the current channel's family. */
  lemma CandidateLessOrdersIff(current: string, names: set<string>)
    ensures StrictWeak((a, b) => CandidateLess(current, a, b), names)
        <==> FamiliesContiguous(set n | n in names && !SameFamily(current, n))
  {
    var less := (a, b) => CandidateLess(current, a, b);
    var outside := set n | n in names && !SameFamily(current, n);
    ChannelLessOrdersIffContiguous(outside);
    if StrictWeak(less, names) {
      assert forall a, b :: a in outside && b in outside ==> less(a, b) == ChannelLess(a, b);
      assert StrictWeak(ChannelLess, outside);
    }
    if StrictWeak(ChannelLess, outside) {
      forall a ensures !less(a, a) { FamilyLessPair(ChannelSuffix, a, a); }
      forall a, b, c | a in names && b in names && c in names
        ensures less(a, b) && less(b, c) ==> less(a, c)
        ensures !less(a, b) && !less(b, c) ==> !less(a, c)
      {
        if SameFamily(current, a) && SameFamily(current, b) && SameFamily(current, c) {
          OlderWeak(ChannelSuffix, a, b, c);
        } else if !SameFamily(current, a) && !SameFamily(current, b) && !SameFamily(current, c) {
          assert a in outside && b in outside && c in outside;
        }
      }
    }
  }
}
