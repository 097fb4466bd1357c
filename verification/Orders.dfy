/** Orderings shared by the resolver and the release merger: the byte order Go uses
    for strings, strict weak orders, and a library sort known only by its contract. */
module Orders {

  datatype Option<+T> = None | Some(value: T)

  /** Go's `<` on strings. Comparing UTF-8 byte by byte orders strings exactly as
      comparing code point by code point does. (Dafny's `<` is the prefix order.) */
  predicate TextLess(a: string, b: string)
    decreases |a|
  {
    if b == [] then false
    else if a == [] then true
    else if a[0] != b[0] then a[0] < b[0]
    else TextLess(a[1..], b[1..])
  }

  lemma {:induction false} TextLessAsymmetric(a: string, b: string)
    requires TextLess(a, b)
    ensures !TextLess(b, a) && a != b
    decreases |a|
  {
    if a != [] && a[0] == b[0] {
      TextLessAsymmetric(a[1..], b[1..]);
    }
  }

  lemma {:induction false} TextLessTransitive(a: string, b: string, c: string)
    requires TextLess(a, b) && TextLess(b, c)
    ensures TextLess(a, c)
    decreases |a|
  {
    if a != [] && a[0] == b[0] && b[0] == c[0] {
      TextLessTransitive(a[1..], b[1..], c[1..]);
    }
  }

  lemma {:induction false} TextLessTotal(a: string, b: string)
    ensures a == b || TextLess(a, b) || TextLess(b, a)
    decreases |a|
  {
    if a != [] && b != [] && a[0] == b[0] {
      TextLessTotal(a[1..], b[1..]);
      assert a == [a[0]] + a[1..] && b == [b[0]] + b[1..];
    }
  }

  /** What sort.Slice needs of `less` on the elements of `s`. */
  ghost predicate StrictWeak<T(!new)>(less: (T, T) -> bool, s: set<T>)
  {
    && (forall a :: a in s ==> !less(a, a))
    && (forall a, b, c :: a in s && b in s && c in s && less(a, b) && less(b, c) ==> less(a, c))
    && (forall a, b, c :: a in s && b in s && c in s && !less(a, b) && !less(b, c) ==> !less(a, c))
  }

  /** No element is preceded by a strictly greater one. */
  ghost predicate Sorted<T>(less: (T, T) -> bool, xs: seq<T>)
  {
    forall i, j :: 0 <= i < j < |xs| ==> !less(xs[j], xs[i])
  }

  ghost function Elements<T>(xs: seq<T>): set<T>
  {
    set x | x in xs
  }

  lemma SameElements<T>(xs: seq<T>, ys: seq<T>)
    requires multiset(xs) == multiset(ys)
    ensures |xs| == |ys| && Elements(xs) == Elements(ys)
  {
    assert |multiset(xs)| == |xs| && |multiset(ys)| == |ys|;
    forall x ensures x in xs <==> x in ys {
      assert x in xs <==> x in multiset(xs);
      assert x in ys <==> x in multiset(ys);
    }
  }

  ghost predicate Distinct<T>(xs: seq<T>)
  {
    forall i, j :: 0 <= i < j < |xs| ==> xs[i] != xs[j]
  }

  /** Distinctness is a property of the multiset of elements. */
  lemma {:induction false} DistinctCounts<T(!new)>(xs: seq<T>)
    ensures Distinct(xs) <==> forall x :: multiset(xs)[x] <= 1
  {
    if xs != [] {
      var n := |xs| - 1;
      var init, last := xs[..n], xs[n];
      assert xs == init + [last];
      DistinctCounts(init);
      assert last in init <==> multiset(init)[last] > 0;
      if forall x :: multiset(xs)[x] <= 1 {
        forall x ensures multiset(init)[x] <= 1 { assert multiset(init)[x] <= multiset(xs)[x]; }
        assert multiset(xs)[last] <= 1;
        assert last !in init;
      }
      if Distinct(xs) {
        assert Distinct(init);
        assert last !in init;
      }
    }
  }

  lemma DistinctPermutation<T(!new)>(xs: seq<T>, ys: seq<T>)
    requires multiset(xs) == multiset(ys) && Distinct(xs)
    ensures Distinct(ys)
  {
    DistinctCounts(xs);
    DistinctCounts(ys);
  }

  /** The elements to keep, in their order. */
  ghost function Filter<T>(keep: T -> bool, xs: seq<T>): seq<T>
  {
    if xs == [] then []
    else
      var n := |xs| - 1;
      Filter(keep, xs[..n]) + if keep(xs[n]) then [xs[n]] else []
  }

  lemma {:induction false} FilterCounts<T(!new)>(keep: T -> bool, xs: seq<T>)
    ensures forall x :: multiset(Filter(keep, xs))[x] == if keep(x) then multiset(xs)[x] else 0
  {
    if xs != [] {
      var n := |xs| - 1;
      FilterCounts(keep, xs[..n]);
      assert xs == xs[..n] + [xs[n]];
    }
  }

  lemma FilterMembers<T(!new)>(keep: T -> bool, xs: seq<T>)
    ensures forall x :: x in Filter(keep, xs) <==> x in xs && keep(x)
  {
    FilterCounts(keep, xs);
    forall x ensures x in Filter(keep, xs) <==> x in xs && keep(x) {
      assert x in Filter(keep, xs) <==> multiset(Filter(keep, xs))[x] > 0;
      assert x in xs <==> multiset(xs)[x] > 0;
    }
  }

  lemma {:induction false} FilterNone<T(!new)>(keep: T -> bool, xs: seq<T>)
    requires forall x :: x in xs ==> !keep(x)
    ensures Filter(keep, xs) == []
  {
    if xs != [] { FilterNone(keep, xs[..|xs| - 1]); }
  }

  lemma FilterPermuted<T(!new)>(keep: T -> bool, xs: seq<T>, ys: seq<T>)
    requires multiset(xs) == multiset(ys)
    ensures multiset(Filter(keep, xs)) == multiset(Filter(keep, ys))
  {
    FilterCounts(keep, xs);
    FilterCounts(keep, ys);
  }

  /** Filtering twice is filtering by both; predicates that agree filter alike. */
  lemma {:induction false} FilterTwice<T(!new)>(p: T -> bool, q: T -> bool, both: T -> bool, xs: seq<T>)
    requires forall x :: both(x) <==> p(x) && q(x)
    ensures Filter(p, Filter(q, xs)) == Filter(both, xs)
  {
    if xs != [] {
      var n := |xs| - 1;
      FilterTwice(p, q, both, xs[..n]);
      var kept := Filter(q, xs[..n]);
      if q(xs[n]) {
        assert (kept + [xs[n]])[..|kept|] == kept;
        assert Filter(q, xs) == kept + [xs[n]];
      } else {
        assert Filter(q, xs) == kept;
      }
    }
  }

  lemma Cancel<T(!new)>(a: multiset<T>, b: multiset<T>, x: T)
    requires a + multiset{x} == b + multiset{x}
    ensures a == b
  {
    forall y ensures a[y] == b[y] { assert (a + multiset{x})[y] == (b + multiset{x})[y]; }
  }

  lemma FilterDistinct<T(!new)>(keep: T -> bool, xs: seq<T>)
    requires Distinct(xs)
    ensures Distinct(Filter(keep, xs))
  {
    FilterCounts(keep, xs);
    DistinctCounts(xs);
    DistinctCounts(Filter(keep, xs));
  }

  /** Stands in for sort.Slice and sort.SliceStable, known to callers only by this contract:
      always a permutation, and in order whenever `less` is a strict weak order. */
  method SortBy<T(==, !new)>(less: (T, T) -> bool, xs: seq<T>) returns (ys: seq<T>)
    ensures multiset(ys) == multiset(xs)
    ensures StrictWeak(less, Elements(xs)) ==> Sorted(less, ys)
  {
    ys := [];
    for n := 0 to |xs|
      invariant multiset(ys) == multiset(xs[..n])
      invariant StrictWeak(less, Elements(xs)) ==> Sorted(less, ys)
    {
      SameElements(ys, xs[..n]);
      assert forall y :: y in ys ==> y in Elements(xs[..n]);
      ys := Insert(less, ys, xs[n], Elements(xs));
      assert xs[..n + 1] == xs[..n] + [xs[n]];
    }
    assert xs[..|xs|] == xs;
  }

  method Insert<T(==, !new)>(less: (T, T) -> bool, xs: seq<T>, x: T, ghost s: set<T>) returns (ys: seq<T>)
    requires x in s && forall y :: y in xs ==> y in s
    ensures multiset(ys) == multiset(xs + [x])
    ensures StrictWeak(less, s) && Sorted(less, xs) ==> Sorted(less, ys)
  {
    var i := |xs|;
    while i > 0 && less(x, xs[i - 1])
      invariant 0 <= i <= |xs|
      invariant forall k :: i <= k < |xs| ==> less(x, xs[k])
    {
      i := i - 1;
    }
    ys := xs[..i] + [x] + xs[i..];
    assert xs == xs[..i] + xs[i..];
    if StrictWeak(less, s) && Sorted(less, xs) {
      InsertionKeepsOrder(less, xs, x, i, s);
    }
  }

  lemma InsertionKeepsOrder<T(!new)>(less: (T, T) -> bool, xs: seq<T>, x: T, i: nat, s: set<T>)
    requires StrictWeak(less, s) && x in s && (forall y :: y in xs ==> y in s)
    requires Sorted(less, xs) && i <= |xs|
    requires i > 0 ==> !less(x, xs[i - 1])
    requires forall k :: i <= k < |xs| ==> less(x, xs[k])
    ensures Sorted(less, xs[..i] + [x] + xs[i..])
  {
    forall k | 0 <= k < i ensures !less(x, xs[k]) {
      if k < i - 1 {
        assert !less(xs[i - 1], xs[k]);
        assert xs[i - 1] in s && xs[k] in s;
      }
    }
    forall k | i <= k < |xs| ensures !less(xs[k], x) {
      assert xs[k] in s && less(x, xs[k]);
    }
    var ys := xs[..i] + [x] + xs[i..];
    forall p, q | 0 <= p < q < |ys| ensures !less(ys[q], ys[p]) {
      var op, oq := if p < i then p else p - 1, if q < i then q else q - 1;
      assert p != i ==> ys[p] == xs[op];
      assert q != i ==> ys[q] == xs[oq];
    }
  }
}
