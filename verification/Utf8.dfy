/** UTF-8 after section 4 of RFC 3629, and Go's strings.TrimSpace over it. */
module Utf8 {
  import opened OpenShiftTypes

  predicate IsTail(b: byte) { 0x80 <= b <= 0xBF }

  /** Go's utf8.RuneStart. */
  predicate RuneStart(b: byte) { !IsTail(b) }

  /** The second byte a multi-byte sequence may have after its first. */
  predicate SecondByte(first: byte, b: byte)
  {
    if first == 0xE0 then 0xA0 <= b <= 0xBF
    else if first == 0xED then 0x80 <= b <= 0x9F
    else if first == 0xF0 then 0x90 <= b <= 0xBF
    else if first == 0xF4 then 0x80 <= b <= 0x8F
    else IsTail(b)
  }

  /** The number of bytes a first byte announces; 0 for a byte that cannot come first. */
  function Announced(first: byte): nat
  {
    if first <= 0x7F then 1
    else if 0xC2 <= first <= 0xDF then 2
    else if 0xE0 <= first <= 0xEF then 3
    else if 0xF0 <= first <= 0xF4 then 4
    else 0
  }

  /** The length of the character at the start of t, or 0 when there is none. */
  function RuneLength(t: Text): (n: nat)
    ensures n <= |t| && n <= 4
    ensures n > 0 ==> RuneStart(t[0]) && forall i :: 0 < i < n ==> IsTail(t[i])
  {
    if t == [] then 0 else
    var n := Announced(t[0]);
    if n > |t| || (n > 1 && !SecondByte(t[0], t[1])) || (n > 2 && !IsTail(t[2])) || (n > 3 && !IsTail(t[3])) then 0
    else n
  }

  predicate Valid(t: Text)
    decreases |t|
  {
    t == [] || (RuneLength(t) > 0 && Valid(t[RuneLength(t)..]))
  }

  lemma RuneLengthOfPrefix(t: Text, n: nat)
    requires RuneLength(t) <= n <= |t|
    ensures RuneLength(t) > 0 ==> RuneLength(t[..n]) == RuneLength(t)
  {
    if RuneLength(t) > 0 { assert t[..n][0] == t[0]; }
  }

  /** Cutting valid text at a character's first byte leaves valid text on both sides. */
  lemma {:induction false} CutAtRuneStart(t: Text, cut: nat)
    requires Valid(t) && cut <= |t| && (cut == |t| || RuneStart(t[cut]))
    ensures Valid(t[..cut]) && Valid(t[cut..])
    decreases |t|
  {
    hide RuneLength, IsTail;
    if cut == 0 {
      assert t[cut..] == t;
    } else {
      var n := RuneLength(t);
      assert n <= cut;
      CutAtRuneStart(t[n..], cut - n);
      assert t[..cut][n..] == t[n..][..cut - n] && t[cut..] == t[n..][cut - n..];
      RuneLengthOfPrefix(t, cut);
    }
  }

  lemma {:induction false} ValidConcat(a: Text, b: Text)
    requires Valid(a) && Valid(b)
    ensures Valid(a + b)
    decreases |a|
  {
    if a == [] {
      assert a + b == b;
    } else {
      RuneLengthExtends(a, b);
      hide RuneLength;
      var n := RuneLength(a);
      ValidConcat(a[n..], b);
      assert (a + b)[n..] == a[n..] + b;
    }
  }

  lemma RuneLengthExtends(a: Text, b: Text)
    requires RuneLength(a) > 0
    ensures RuneLength(a + b) == RuneLength(a)
  {
    assert forall i :: 0 <= i < |a| ==> (a + b)[i] == a[i];
  }

  // ---- White space

  /** The UTF-8 forms of the characters of Unicode's White_Space property. */
  predicate IsSpace(t: Text)
  {
    || (|t| == 1 && (0x09 <= t[0] <= 0x0D || t[0] == 0x20))
    || (|t| == 2 && t[0] == 0xC2 && (t[1] == 0x85 || t[1] == 0xA0))
    || (|t| == 3 && (t == [0xE1, 0x9A, 0x80] || t == [0xE2, 0x81, 0x9F] || t == [0xE3, 0x80, 0x80]
                     || (t[..2] == [0xE2, 0x80] && (0x80 <= t[2] <= 0x8A || t[2] == 0xA8 || t[2] == 0xA9 || t[2] == 0xAF))))
  }

  function LeadingSpace(t: Text): (n: nat)
    ensures n <= |t| && (n > 0 ==> IsSpace(t[..n]))
  {
    if |t| >= 1 && IsSpace(t[..1]) then 1
    else if |t| >= 2 && IsSpace(t[..2]) then 2
    else if |t| >= 3 && IsSpace(t[..3]) then 3
    else 0
  }

  function TrailingSpace(t: Text): (n: nat)
    ensures n <= |t| && (n > 0 ==> IsSpace(t[|t| - n..]))
  {
    if |t| >= 1 && IsSpace(t[|t| - 1..]) then 1
    else if |t| >= 2 && IsSpace(t[|t| - 2..]) then 2
    else if |t| >= 3 && IsSpace(t[|t| - 3..]) then 3
    else 0
  }

  function TrimLeft(t: Text): (r: Text)
    ensures |r| <= |t| && LeadingSpace(r) == 0
    decreases |t|
  {
    var n := LeadingSpace(t);
    if n == 0 then t else TrimLeft(t[n..])
  }

  function TrimRight(t: Text): (r: Text)
    ensures r <= t && TrailingSpace(r) == 0
    decreases |t|
  {
    var n := TrailingSpace(t);
    if n == 0 then t else TrimRight(t[..|t| - n])
  }

  /** strings.TrimSpace */
  function TrimSpace(t: Text): (r: Text)
    ensures |r| <= |t|
  {
    TrimRight(TrimLeft(t))
  }

  lemma LeadingSpaceIsARune(t: Text)
    requires LeadingSpace(t) > 0 && Valid(t)
    ensures Valid(t[LeadingSpace(t)..])
  {
    var n := LeadingSpace(t);
    assert t[..n][0] == t[0];
    assert n > 1 ==> t[..n][1] == t[1];
    assert n > 2 ==> t[..n][2] == t[2] && t[..n][..2] == t[..2];
    assert RuneLength(t) == n;
  }

  lemma SpaceStartsARune(s: Text)
    requires IsSpace(s)
    ensures s != [] && RuneStart(s[0])
  {
    if |s| == 3 { assert s[..2][0] == s[0]; }
  }

  lemma TrailingSpaceIsARune(t: Text)
    requires TrailingSpace(t) > 0 && Valid(t)
    ensures Valid(t[..|t| - TrailingSpace(t)])
  {
    hide IsSpace, Valid, TrailingSpace;
    var n := TrailingSpace(t);
    SpaceStartsARune(t[|t| - n..]);
    CutAtRuneStart(t, |t| - n);
  }

  lemma {:induction false} TrimLeftKeepsValid(t: Text)
    requires Valid(t)
    ensures Valid(TrimLeft(t))
    decreases |t|
  {
    hide IsSpace, Valid, LeadingSpace;
    if LeadingSpace(t) > 0 {
      LeadingSpaceIsARune(t);
      TrimLeftKeepsValid(t[LeadingSpace(t)..]);
    }
  }

  lemma {:induction false} TrimRightKeepsValid(t: Text)
    requires Valid(t)
    ensures Valid(TrimRight(t))
    decreases |t|
  {
    hide IsSpace, Valid, TrailingSpace;
    if TrailingSpace(t) > 0 {
      TrailingSpaceIsARune(t);
      TrimRightKeepsValid(t[..|t| - TrailingSpace(t)]);
    }
  }

  /** Trimming takes whole characters away. */
  lemma TrimSpaceKeepsValid(t: Text)
    requires Valid(t)
    ensures Valid(TrimSpace(t))
  {
    hide Valid, TrimLeft, TrimRight;
    TrimLeftKeepsValid(t);
    TrimRightKeepsValid(TrimLeft(t));
  }

  /** No white space at either end. */
  predicate Tight(t: Text)
  {
    LeadingSpace(t) == 0 && TrailingSpace(t) == 0
  }

  lemma TrimSpaceIsTight(t: Text)
    ensures Tight(TrimSpace(t))
  {
    hide IsSpace;
    var l := TrimLeft(t);
    PrefixKeepsNoLeadingSpace(l, TrimRight(l));
  }

  lemma PrefixKeepsNoLeadingSpace(t: Text, r: Text)
    requires r <= t && LeadingSpace(t) == 0
    ensures LeadingSpace(r) == 0
  {
    if |r| >= 1 { assert r[..1] == t[..1]; }
    if |r| >= 2 { assert r[..2] == t[..2]; }
    if |r| >= 3 { assert r[..3] == t[..3]; }
  }
}
