/** Names that fall into families of comparable versions, and the order the program builds from
    them: by version inside a family, by text otherwise. `key` says how a name is read. */
module FamilyOrder {
  import opened Orders
  import opened SemVer

  datatype Suffix = Suffix(family: string, version: Version)

  type Key = string -> Option<Suffix>

  predicate Related(key: Key, a: string, b: string)
  {
    key(a).Some? && key(b).Some? && key(a).value.family == key(b).value.family
  }

  predicate Older(key: Key, a: string, b: string)
    requires Related(key, a, b)
  {
    LessThan(key(a).value.version, key(b).value.version)
  }

  predicate FamilyLess(key: Key, a: string, b: string)
  {
    if Related(key, a, b) then Older(key, a, b) else TextLess(a, b)
  }

  /** c is outside the family of a and b and lexically between them. */
  predicate Separates(key: Key, a: string, c: string, b: string)
  {
    Related(key, a, b) && !Related(key, a, c) && TextLess(a, c) && TextLess(c, b)
  }

  /** No foreign name sorts lexically between two members of a family that are not already
      in ascending version order. */
  ghost predicate Contiguous(key: Key, names: set<string>)
  {
    forall a, b, c :: a in names && b in names && c in names && Separates(key, a, c, b) ==> Older(key, a, b)
  }

  /** One pair of names: irreflexive, asymmetric, and total between families. */
  lemma FamilyLessPair(key: Key, a: string, b: string)
    ensures !FamilyLess(key, a, a)
    ensures FamilyLess(key, a, b) ==> !FamilyLess(key, b, a)
    ensures !Related(key, a, b) && a != b ==> FamilyLess(key, a, b) || FamilyLess(key, b, a)
  {
    hide TextLess, LessThan;
    TextLessTotal(a, b);
    if TextLess(a, a) { TextLessAsymmetric(a, a); }
    if TextLess(a, b) { TextLessAsymmetric(a, b); }
    if Related(key, a, b) {
      LessThanOrder(key(a).value.version, key(b).value.version, key(a).value.version);
    }
    if Related(key, a, a) {
      LessThanOrder(key(a).value.version, key(a).value.version, key(a).value.version);
    }
  }

  lemma OlderWeak(key: Key, a: string, b: string, c: string)
    requires Related(key, a, b) && Related(key, b, c)
    ensures Older(key, a, b) && Older(key, b, c) ==> Older(key, a, c)
    ensures !Older(key, a, b) && !Older(key, b, c) ==> !Older(key, a, c)
  {
    hide LessThan;
    var va, vb, vc := key(a).value.version, key(b).value.version, key(c).value.version;
    LessThanOrder(va, vb, vc);
    LessThanOrder(vc, vb, va);
    LessThanOrder(va, vc, vb);
    LessThanOrder(vb, va, vc);
  }

  lemma TextLessWeak(a: string, b: string, c: string)
    ensures TextLess(a, b) && TextLess(b, c) ==> TextLess(a, c)
    ensures !TextLess(a, b) && !TextLess(b, c) ==> !TextLess(a, c)
  {
    hide TextLess;
    TextLessTotal(a, b);
    TextLessTotal(b, c);
    if TextLess(a, b) && TextLess(b, c) { TextLessTransitive(a, b, c); }
    if TextLess(c, b) && TextLess(b, a) {
      TextLessTransitive(c, b, a);
      TextLessAsymmetric(c, a);
    }
    if TextLess(a, c) { TextLessAsymmetric(a, c); }
  }

  /** Transitivity of FamilyLess and of its negation on one triple. */
  lemma FamilyLessTriple(key: Key, a: string, b: string, c: string)
    requires Contiguous(key, {a, b, c})
    ensures FamilyLess(key, a, b) && FamilyLess(key, b, c) ==> FamilyLess(key, a, c)
    ensures !FamilyLess(key, a, b) && !FamilyLess(key, b, c) ==> !FamilyLess(key, a, c)
  {
    hide TextLess, LessThan;
    if Related(key, a, b) && Related(key, b, c) {
      OlderWeak(key, a, b, c);
    } else {
      TextLessWeak(a, b, c);
      TextLessTotal(a, b);
      TextLessTotal(b, c);
      TextLessTotal(a, c);
      FamilyLessPair(key, a, b);
      FamilyLessPair(key, b, c);
      FamilyLessPair(key, a, c);
    }
  }

  lemma ContiguousOrders(key: Key, names: set<string>)
    requires Contiguous(key, names)
    ensures StrictWeak((a, b) => FamilyLess(key, a, b), names)
  {
    hide FamilyLess, Separates, TextLess;
    forall a ensures !FamilyLess(key, a, a) { FamilyLessPair(key, a, a); }
    forall a, b, c | a in names && b in names && c in names
      ensures FamilyLess(key, a, b) && FamilyLess(key, b, c) ==> FamilyLess(key, a, c)
      ensures !FamilyLess(key, a, b) && !FamilyLess(key, b, c) ==> !FamilyLess(key, a, c)
    {
      assert Contiguous(key, {a, b, c});
      FamilyLessTriple(key, a, b, c);
    }
  }

  lemma OrderedIsContiguous(key: Key, names: set<string>)
    requires StrictWeak((a, b) => FamilyLess(key, a, b), names)
    ensures Contiguous(key, names)
  {
    hide TextLess, LessThan;
    var less := (a, b) => FamilyLess(key, a, b);
    forall a, b, c | a in names && b in names && c in names && Separates(key, a, c, b) ensures Older(key, a, b) {
      assert less(a, c) && less(c, b);
      assert less(a, b);
    }
  }

  /** FamilyLess is a strict weak order on a set of names exactly when no foreign name
      separates two members of a family that are out of version order. */
  lemma FamilyLessOrdersIffContiguous(key: Key, names: set<string>)
    ensures StrictWeak((a, b) => FamilyLess(key, a, b), names) <==> Contiguous(key, names)
  {
    hide FamilyLess, Contiguous, StrictWeak;
    if Contiguous(key, names) { ContiguousOrders(key, names); }
    if StrictWeak((a, b) => FamilyLess(key, a, b), names) { OrderedIsContiguous(key, names); }
  }
}
