/** Catalog source identifiers: a catalog's name, "-v", and its version. */
module SourceIDs {
  import opened Orders
  import opened SemVer
  import opened VersionGrammar

  /** A catalog version "4.22" or "v4.22", by its two numbers. */
  datatype CatalogVersion = CatalogVersion(major: string, minor: string)

  /** [1-9][0-9]* */
  predicate IsPositive(s: string)
  {
    s != [] && AllDigits(s) && s[0] != '0'
  }

  /** ^v?([1-9][0-9]*)\.(0|[1-9][0-9]*)$ */
  function MatchVersion(s: string): Option<CatalogVersion>
  {
    var t := if s != [] && s[0] == 'v' then s[1..] else s;
    var dot := IndexOf(t, '.');
    if dot == |t| then None
    else if IsPositive(t[..dot]) && (t[dot + 1..] == "0" || IsPositive(t[dot + 1..]))
    then Some(CatalogVersion(t[..dot], t[dot + 1..]))
    else None
  }

  function Plain(v: CatalogVersion): string { v.major + "." + v.minor }

  /** What decoding makes of a configured catalog channel. */
  function CanonicalChannel(value: string): Option<string>
  {
    if MatchVersion(value).Some? then Some("v" + Plain(MatchVersion(value).value)) else None
  }

  function CatalogSourceID(name: string, version: string): Option<string>
  {
    if name == "" || MatchVersion(version).None? then None
    else Some(name + "-v" + Plain(MatchVersion(version).value))
  }

  /** strings.LastIndex(s, "-v") */
  function LastDashV(s: string): (i: int)
    ensures -1 <= i && (i >= 0 ==> i + 1 < |s| && s[i] == '-' && s[i + 1] == 'v')
    ensures forall j :: i < j && 0 <= j && j + 1 < |s| ==> !(s[j] == '-' && s[j + 1] == 'v')
  {
    if |s| < 2 then -1
    else if s[|s| - 2] == '-' && s[|s| - 1] == 'v' then |s| - 2
    else
      var i := LastDashV(s[..|s| - 1]);
      assert forall j :: 0 <= j < |s| - 1 ==> s[..|s| - 1][j] == s[j];
      i
  }

  datatype Reference = Reference(name: string, version: string)

  function CatalogReference(sourceID: string): Option<Reference>
  {
    var i := LastDashV(sourceID);
    if i <= 0 then None
    else
      var version := MatchVersion(sourceID[i + 1..]);
      if version.None? then None else Some(Reference(sourceID[..i], Plain(version.value)))
  }

  lemma MatchPlain(v: CatalogVersion)
    requires IsPositive(v.major) && (v.minor == "0" || IsPositive(v.minor))
    ensures MatchVersion(Plain(v)) == Some(v) && MatchVersion("v" + Plain(v)) == Some(v)
  {
    var t := Plain(v);
    assert v.major[0] in v.major && t[0] == v.major[0];
    NoDotInDigits(v.major);
    IndexOfSeparator(v.major, '.', v.minor);
    assert t[..|v.major|] == v.major && t[|v.major| + 1..] == v.minor;
    assert ("v" + t)[1..] == t;
  }

  lemma NoDotInDigits(s: string)
    requires AllDigits(s)
    ensures '.' !in s && '-' !in s && 'v' !in s
  {}

  lemma MatchedParts(s: string)
    requires MatchVersion(s).Some?
    ensures var v := MatchVersion(s).value;
      && IsPositive(v.major) && (v.minor == "0" || IsPositive(v.minor))
      && (s == Plain(v) || s == "v" + Plain(v)) && (s[0] == 'v' ==> s == "v" + Plain(v))
  {
    var t := if s != [] && s[0] == 'v' then s[1..] else s;
    var dot := IndexOf(t, '.');
    assert t == t[..dot] + "." + t[dot + 1..];
  }

  /** The last "-v" of an identifier is the one before its version. */
  lemma LastDashVBefore(name: string, v: CatalogVersion)
    requires IsPositive(v.major) && (v.minor == "0" || IsPositive(v.minor))
    ensures LastDashV(name + "-v" + Plain(v)) == |name|
  {
    NoDotInDigits(v.major);
    NoDotInDigits(v.minor);
    var s := name + "-v" + Plain(v);
    assert s[|name|] == '-' && s[|name| + 1] == 'v';
    forall j | |name| < j && j + 1 < |s| ensures s[j] != '-' {
      if j > |name| + 1 { assert s[j] in Plain(v); }
    }
  }

  /** An identifier made from a name and a version names that catalog and version. */
  lemma ReferenceOfSourceID(name: string, version: string)
    requires CatalogSourceID(name, version).Some?
    ensures CatalogReference(CatalogSourceID(name, version).value)
         == Some(Reference(name, Plain(MatchVersion(version).value)))
  {
    hide IndexOf, LastDashV, MatchVersion;
    MatchedParts(version);
    var v := MatchVersion(version).value;
    LastDashVBefore(name, v);
    MatchPlain(v);
    var s := name + "-v" + Plain(v);
    assert s[|name| + 1..] == "v" + Plain(v) && s[..|name|] == name;
  }

  /** An identifier that names a catalog and a version is the one made from them, with or
      without the "v" in the version. */
  lemma SourceIDOfReference(id: string)
    requires CatalogReference(id).Some?
    ensures var r := CatalogReference(id).value;
      CatalogSourceID(r.name, r.version) == Some(id) && CatalogSourceID(r.name, "v" + r.version) == Some(id)
  {
    hide IndexOf, LastDashV, MatchVersion;
    var i := LastDashV(id);
    var tail := id[i + 1..];
    MatchedParts(tail);
    var v := MatchVersion(tail).value;
    MatchPlain(v);
    assert tail[0] == id[i + 1] == 'v';
    assert id == id[..i] + "-v" + Plain(v);
  }

  // ---- What a catalog version is

  /** Two decimal numbers with a dot between them, the first positive, and perhaps a "v" before them. */
  ghost predicate IsCatalogVersion(s: string, major: nat, minor: nat)
  {
    major > 0 && (s == Decimal(major) + "." + Decimal(minor) || s == "v" + (Decimal(major) + "." + Decimal(minor)))
  }

  lemma PositiveIff(s: string)
    ensures IsPositive(s) ==> DecimalValueOf(s) > 0 && s == Decimal(DecimalValueOf(s))
    ensures forall n: nat :: n > 0 ==> IsPositive(Decimal(n)) && DecimalValueOf(Decimal(n)) == n
  {
    if IsPositive(s) { SpellsItsValue(s); }
    forall n: nat | n > 0 ensures IsPositive(Decimal(n)) && DecimalValueOf(Decimal(n)) == n {
      DecimalSpells(n);
      DecimalIsCanonical(n);
    }
  }

  function DecimalValueOf(s: string): nat
  {
    if AllDigits(s) then DecimalValue(s) else 0
  }

  /** Exactly these texts are catalog versions, and decoding makes the form with the "v" of them. */
  lemma CatalogVersionIff(s: string)
    ensures MatchVersion(s).Some? <==> exists major, minor :: IsCatalogVersion(s, major, minor)
    ensures forall major, minor :: IsCatalogVersion(s, major, minor) ==>
      CanonicalChannel(s) == Some("v" + (Decimal(major) + "." + Decimal(minor)))
  {
    hide MatchVersion, IsPositive, DecimalValueOf, Decimal;
    ZeroIsDecimal();
    if MatchVersion(s).Some? {
      MatchedParts(s);
      var v := MatchVersion(s).value;
      PositiveIff(v.major);
      PositiveIff(v.minor);
      assert IsCatalogVersion(s, DecimalValueOf(v.major), if v.minor == "0" then 0 else DecimalValueOf(v.minor));
    }
    forall major, minor | IsCatalogVersion(s, major, minor)
      ensures MatchVersion(s) == Some(CatalogVersion(Decimal(major), Decimal(minor)))
    {
      PositiveIff(s);
      MatchPlain(CatalogVersion(Decimal(major), Decimal(minor)));
    }
  }

  lemma ZeroIsDecimal()
    ensures Decimal(0) == "0"
  {
  }
}
