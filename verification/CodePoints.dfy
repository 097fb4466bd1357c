/** Valid text and white space, by the code points they encode. */
module CodePoints {
  import opened OpenShiftTypes
  import opened Utf8
  import opened TruncateText

  /** Unicode's code points without the surrogates. */
  predicate IsScalar(c: nat)
  {
    c <= 0x10FFFF && !(0xD800 <= c <= 0xDFFF)
  }

  /** The table of section 3 of RFC 3629. */
  function Encode(c: nat): (t: Text)
    requires IsScalar(c)
    ensures 1 <= |t| <= 4
  {
    if c < 0x80 then [c]
    else if c < 0x800 then [0xC0 + c / 0x40, 0x80 + c % 0x40]
    else if c < 0x10000 then [0xE0 + c / 0x1000, 0x80 + c / 0x40 % 0x40, 0x80 + c % 0x40]
    else [0xF0 + c / 0x40000, 0x80 + c / 0x1000 % 0x40, 0x80 + c / 0x40 % 0x40, 0x80 + c % 0x40]
  }

  ghost predicate AreScalars(cs: seq<nat>)
  {
    forall c :: c in cs ==> IsScalar(c)
  }

  function EncodeAll(cs: seq<nat>): Text
    requires AreScalars(cs)
  {
    if cs == [] then [] else Encode(cs[0]) + EncodeAll(cs[1..])
  }

  /** An encoded character is read back whole, whatever follows it. */
  lemma EncodedIsARune(c: nat, rest: Text)
    requires IsScalar(c)
    ensures RuneLength(Encode(c) + rest) == |Encode(c)|
  {
    var t := Encode(c) + rest;
    assert t[0] == Encode(c)[0];
    if c >= 0x80 { assert t[1] == Encode(c)[1]; }
    if c >= 0x800 { assert t[2] == Encode(c)[2]; }
    if c >= 0x10000 { assert t[3] == Encode(c)[3]; }
    AnnouncedLength(c);
    hide Encode, IsScalar, Announced, SecondByte, IsTail;
  }

  lemma AnnouncedLength(c: nat)
    requires IsScalar(c)
    ensures var t := Encode(c);
      && Announced(t[0]) == |t|
      && (|t| > 1 ==> SecondByte(t[0], t[1])) && (|t| > 2 ==> IsTail(t[2])) && (|t| > 3 ==> IsTail(t[3]))
    ensures c >= 0x80 <==> |Encode(c)| > 1
    ensures c >= 0x800 <==> |Encode(c)| > 2
    ensures c >= 0x10000 <==> |Encode(c)| > 3
  {
  }

  /** And what is read as a character is the encoding of one. */
  lemma RuneIsEncoded(t: Text) returns (c: nat)
    requires RuneLength(t) > 0
    ensures IsScalar(c) && Encode(c) == t[..RuneLength(t)]
  {
    var n := RuneLength(t);
    if n == 1 {
      c := t[0];
    } else if n == 2 {
      var a: int, b: int := t[0], t[1];
      c := (a - 0xC0) * 0x40 + (b - 0x80);
    } else if n == 3 {
      c := Three(t[0], t[1], t[2]);
    } else {
      c := Four(t[0], t[1], t[2], t[3]);
    }
    assert t[..n] == Encode(c);
  }

  lemma Three(a: byte, b: byte, d: byte) returns (c: nat)
    requires 0xE0 <= a <= 0xEF && SecondByte(a, b) && IsTail(d)
    ensures IsScalar(c) && Encode(c) == [a, b, d]
  {
    c := (a - 0xE0) * 0x1000 + (b - 0x80) * 0x40 + (d - 0x80);
    assert c / 0x40 == (a - 0xE0) * 0x40 + (b - 0x80);
  }

  lemma Four(a: byte, b: byte, d: byte, e: byte) returns (c: nat)
    requires 0xF0 <= a <= 0xF4 && SecondByte(a, b) && IsTail(d) && IsTail(e)
    ensures IsScalar(c) && Encode(c) == [a, b, d, e]
  {
    c := (a - 0xF0) * 0x40000 + (b - 0x80) * 0x1000 + (d - 0x80) * 0x40 + (e - 0x80);
    assert c / 0x40 == (a - 0xF0) * 0x1000 + (b - 0x80) * 0x40 + (d - 0x80);
    assert c / 0x1000 == (a - 0xF0) * 0x40 + (b - 0x80);
  }

  lemma {:induction false} EncodedIsValid(cs: seq<nat>)
    requires AreScalars(cs)
    ensures Valid(EncodeAll(cs))
  {
    hide Encode, RuneLength, IsScalar;
    if cs != [] {
      var t := EncodeAll(cs);
      EncodedIsARune(cs[0], EncodeAll(cs[1..]));
      EncodedIsValid(cs[1..]);
      assert t[|Encode(cs[0])|..] == EncodeAll(cs[1..]);
    }
  }

  lemma {:induction false} ValidIsEncoded(t: Text) returns (cs: seq<nat>)
    requires Valid(t)
    ensures AreScalars(cs) && EncodeAll(cs) == t
    decreases |t|
  {
    hide Encode, RuneLength, IsScalar;
    if t == [] {
      cs := [];
    } else {
      var n := RuneLength(t);
      var c := RuneIsEncoded(t);
      var rest := ValidIsEncoded(t[n..]);
      cs := [c] + rest;
      assert cs[1..] == rest && t == t[..n] + t[n..];
    }
  }

  /** Text is valid UTF-8 exactly when it encodes some code points. */
  lemma ValidIffEncoded(t: Text)
    ensures Valid(t) <==> exists cs :: AreScalars(cs) && EncodeAll(cs) == t
  {
    hide Valid, EncodeAll, AreScalars;
    if Valid(t) { var cs := ValidIsEncoded(t); }
    forall cs | AreScalars(cs) && EncodeAll(cs) == t ensures Valid(t) { EncodedIsValid(cs); }
  }

  /** Unicode's White_Space property. */
  predicate IsWhiteSpace(c: nat)
  {
    || 0x09 <= c <= 0x0D || 0x2000 <= c <= 0x200A
    || c == 0x20 || c == 0x85 || c == 0xA0 || c == 0x1680 || c == 0x2028 || c == 0x2029 || c == 0x202F || c == 0x205F || c == 0x3000
  }

  /** What trimming removes is exactly the encoded white space. */
  lemma SpaceIffWhiteSpace(c: nat)
    requires IsScalar(c)
    ensures IsSpace(Encode(c)) <==> IsWhiteSpace(c)
  {
    var t := Encode(c);
    if |t| == 3 { assert t[..2] == [t[0], t[1]]; }
  }

  lemma SpaceIsEncoded(t: Text) returns (c: nat)
    requires IsSpace(t)
    ensures IsWhiteSpace(c) && IsScalar(c) && Encode(c) == t
  {
    hide Encode, IsWhiteSpace;
    SpaceIsARune(t);
    c := RuneIsEncoded(t);
    assert t[..RuneLength(t)] == t;
    SpaceIffWhiteSpace(c);
  }

  lemma SpaceIsARune(t: Text)
    requires IsSpace(t)
    ensures RuneLength(t) == |t| > 0
  {
    if |t| == 3 && t[..2] == [0xE2, 0x80] { assert t[0] == t[..2][0] && t[1] == t[..2][1]; }
  }

  /** The mark of a shortened text is one character, U+2026. */
  lemma EllipsisIsOneCharacter()
    ensures ELLIPSIS == Encode(0x2026)
  {
  }

  // ---- Trimming

  ghost predicate AreWhiteSpace(cs: seq<nat>)
  {
    forall c :: c in cs ==> IsWhiteSpace(c) && IsScalar(c)
  }

  lemma {:induction false} EncodedJoin(cs: seq<nat>, ds: seq<nat>)
    requires AreScalars(cs) && AreScalars(ds)
    ensures AreScalars(cs + ds) && EncodeAll(cs + ds) == EncodeAll(cs) + EncodeAll(ds)
  {
    hide Encode, IsScalar;
    if cs == [] {
      assert cs + ds == ds;
    } else {
      EncodedJoin(cs[1..], ds);
      assert (cs + ds)[1..] == cs[1..] + ds;
    }
  }

  lemma EncodedFirst(c: nat, cs: seq<nat>)
    requires IsScalar(c) && AreScalars(cs)
    ensures AreScalars([c] + cs) && EncodeAll([c] + cs) == Encode(c) + EncodeAll(cs)
  {
    hide Encode, IsScalar;
    assert ([c] + cs)[1..] == cs;
  }

  lemma {:induction false} TrimmedLeft(t: Text) returns (cs: seq<nat>)
    ensures AreWhiteSpace(cs) && t == EncodeAll(cs) + TrimLeft(t)
    decreases |t|
  {
    hide Encode, EncodeAll, IsScalar, IsWhiteSpace, IsSpace, LeadingSpace;
    var n := LeadingSpace(t);
    if n == 0 {
      cs := [];
      NothingEncoded();
    } else {
      var c := SpaceIsEncoded(t[..n]);
      var rest := TrimmedLeft(t[n..]);
      cs := [c] + rest;
      EncodedFirst(c, rest);
      hide TrimLeft;
      TrimLeftOnce(t);
      assert t == t[..n] + t[n..];
    }
  }

  lemma TrimLeftOnce(t: Text)
    ensures LeadingSpace(t) > 0 ==> TrimLeft(t) == TrimLeft(t[LeadingSpace(t)..])
  {
    hide LeadingSpace;
  }

  lemma TrimRightOnce(t: Text)
    ensures TrailingSpace(t) > 0 ==> TrimRight(t) == TrimRight(t[..|t| - TrailingSpace(t)])
  {
    hide TrailingSpace;
  }

  lemma NothingEncoded()
    ensures AreScalars([]) && EncodeAll([]) == []
  {
  }

  lemma {:induction false} TrimmedRight(t: Text) returns (cs: seq<nat>)
    ensures AreWhiteSpace(cs) && t == TrimRight(t) + EncodeAll(cs)
    decreases |t|
  {
    hide Encode, EncodeAll, IsScalar, IsWhiteSpace, IsSpace, TrailingSpace;
    var n := |t| - TrailingSpace(t);
    NothingEncoded();
    if n == |t| {
      cs := [];
    } else {
      var c := SpaceIsEncoded(t[n..]);
      var rest := TrimmedRight(t[..n]);
      EncodedJoin(rest, [c]);
      EncodedFirst(c, []);
      cs := rest + [c];
      assert [c] + [] == [c];
      hide TrimRight;
      TrimRightOnce(t);
      assert t == t[..n] + t[n..];
    }
  }

  lemma WhiteSpaceIsScalar(cs: seq<nat>)
    requires AreWhiteSpace(cs)
    ensures AreScalars(cs)
  {
    hide IsWhiteSpace, IsScalar;
  }

  /** Trimming takes white space from both ends and nothing else. */
  lemma TrimmedIsWhiteSpace(t: Text) returns (before: seq<nat>, after: seq<nat>)
    ensures AreWhiteSpace(before) && AreWhiteSpace(after)
    ensures t == EncodeAll(before) + TrimSpace(t) + EncodeAll(after)
  {
    hide EncodeAll, TrimLeft, TrimRight, AreWhiteSpace, IsWhiteSpace, IsScalar;
    before := TrimmedLeft(t);
    after := TrimmedRight(TrimLeft(t));
    WhiteSpaceIsScalar(before);
    WhiteSpaceIsScalar(after);
    assert t == EncodeAll(before) + (TrimSpace(t) + EncodeAll(after));
  }
}
