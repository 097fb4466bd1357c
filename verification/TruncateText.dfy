/** truncateText: cut advisory text to a byte limit without splitting a character. */
module TruncateText {
  import opened OpenShiftTypes
  import opened Utf8

  const ELLIPSIS: Text := [0xE2, 0x80, 0xA6]

  /** The last position at or before bound that starts a character, or 0. */
  ghost predicate IsCut(value: Text, bound: nat, cut: nat)
    requires bound < |value|
  {
    && cut <= bound && (cut == 0 || RuneStart(value[cut]))
    && forall i :: cut < i <= bound ==> !RuneStart(value[i])
  }

  method CutBefore(value: Text, bound: nat) returns (cut: nat)
    requires bound < |value|
    ensures IsCut(value, bound, cut)
  {
    cut := bound;
    while cut > 0 && !RuneStart(value[cut])
      invariant cut <= bound && forall i :: cut < i <= bound ==> !RuneStart(value[i])
    {
      cut := cut - 1;
    }
  }

  /** In valid text the cut drops at most the three bytes of a split character. */
  lemma {:induction false} CutDropsAtMostOneRune(value: Text, bound: nat, cut: nat)
    requires Valid(value) && bound < |value| && IsCut(value, bound, cut)
    ensures cut + 3 >= bound
    decreases |value|
  {
    var n := RuneLength(value);
    if n <= bound {
      assert RuneStart(value[n]) by {
        assert value[n] == value[n..][0];
      }
      var rest := value[n..];
      assert cut >= n;
      assert forall i :: 0 <= i < |rest| ==> rest[i] == value[n + i];
      assert IsCut(rest, bound - n, cut - n);
      CutDropsAtMostOneRune(rest, bound - n, cut - n);
    }
  }

  method TruncateText(value: Text, limit: int) returns (r: Text)
    ensures |value| <= limit ==> r == value
    ensures limit < |value| && limit <= 0 ==> r == []
    ensures 0 < limit < |value| && limit <= |ELLIPSIS| ==>
      exists cut: nat :: IsCut(value, limit, cut) && r == TrimSpace(value[..cut]) && Tight(r)
    ensures |ELLIPSIS| < limit < |value| ==>
      exists cut: nat :: IsCut(value, limit - |ELLIPSIS|, cut)
        && r == TrimSpace(value[..cut]) + ELLIPSIS && Tight(TrimSpace(value[..cut]))
    ensures limit >= 0 ==> |r| <= limit
    ensures Valid(value) ==> Valid(r)
  {
    hide Valid, TrimSpace, RuneStart, Tight;
    if |value| <= limit { return value; }
    if limit <= 0 {
      NothingIsValid();
      return [];
    }
    if limit <= |ELLIPSIS| {
      var cut := CutBefore(value, limit);
      CutIsValid(value, limit, cut);
      TrimSpaceIsTight(value[..cut]);
      if Valid(value) { TrimSpaceKeepsValid(value[..cut]); }
      return TrimSpace(value[..cut]);
    }
    var cut := CutBefore(value, limit - |ELLIPSIS|);
    CutIsValid(value, limit - |ELLIPSIS|, cut);
    TrimSpaceIsTight(value[..cut]);
    r := TrimSpace(value[..cut]) + ELLIPSIS;
    NothingIsValid();
    if Valid(value) {
      TrimSpaceKeepsValid(value[..cut]);
      ValidConcat(TrimSpace(value[..cut]), ELLIPSIS);
    }
  }

  lemma NothingIsValid()
    ensures Valid([]) && Valid(ELLIPSIS)
  {
    assert RuneLength(ELLIPSIS) == 3 && ELLIPSIS[3..] == [];
  }

  lemma CutIsValid(value: Text, bound: nat, cut: nat)
    requires bound < |value| && IsCut(value, bound, cut)
    ensures Valid(value) ==> Valid(value[..cut])
  {
    if Valid(value) {
      if cut == 0 { assert RuneLength(value) > 0; }
      CutAtRuneStart(value, cut);
    }
  }
}
