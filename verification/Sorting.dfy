/** The order of texts by character code, as Python compares them. */
module Texts {
  predicate TextLess(a: string, b: string) {
    b != [] && (a == [] || a[0] < b[0] || (a[0] == b[0] && TextLess(a[1..], b[1..])))
  }

  lemma {:induction false} TextOrder(a: string, b: string)
    ensures !(TextLess(a, b) && TextLess(b, a))
    ensures a == b <==> !TextLess(a, b) && !TextLess(b, a)
  {
    if a != [] && b != [] && a[0] == b[0] {
      TextOrder(a[1..], b[1..]);
      assert a == [a[0]] + a[1..] && b == [b[0]] + b[1..];
    }
  }

  lemma {:induction false} TextTransitive(a: string, b: string, c: string)
    requires TextLess(a, b) && TextLess(b, c)
    ensures TextLess(a, c)
  {
    if a != [] && a[0] == b[0] == c[0] { TextTransitive(a[1..], b[1..], c[1..]); }
  }
}

/** Stable sorting by a key. */
module Sorting {
  ghost predicate TotalOrder<K(!new)>(less: (K, K) -> bool) {
    && (forall a, b :: less(a, b) || less(b, a) || a == b)
    && (forall a, b :: less(a, b) ==> !less(b, a) && a != b)
    && (forall a, b, c :: less(a, b) && less(b, c) ==> less(a, c))
  }

  ghost predicate Ordered<T, K(!new)>(xs: seq<T>, at: T -> K, less: (K, K) -> bool) {
    forall i, j | 0 <= i < j < |xs| :: !less(at(xs[j]), at(xs[i]))
  }

  ghost predicate StrictlyOrdered<T, K(!new)>(xs: seq<T>, at: T -> K, less: (K, K) -> bool) {
    forall i, j | 0 <= i < j < |xs| :: less(at(xs[i]), at(xs[j]))
  }

  function InsertBy<T, K(!new)>(x: T, sorted: seq<T>, at: T -> K, less: (K, K) -> bool): seq<T> {
    if sorted == [] then [x]
    else if less(at(x), at(sorted[0])) then [x] + sorted
    else [sorted[0]] + InsertBy(x, sorted[1..], at, less)
  }

  function SortBy<T, K(!new)>(xs: seq<T>, at: T -> K, less: (K, K) -> bool): seq<T> {
    if xs == [] then [] else InsertBy(xs[|xs| - 1], SortBy(xs[..|xs| - 1], at, less), at, less)
  }

  lemma {:induction false} InsertHolds<T, K(!new)>(x: T, sorted: seq<T>, at: T -> K, less: (K, K) -> bool)
    ensures multiset(InsertBy(x, sorted, at, less)) == multiset(sorted) + multiset{x}
  {
    if sorted == [] || less(at(x), at(sorted[0])) {
      assert InsertBy(x, sorted, at, less) == [x] + sorted;
    } else {
      InsertHolds(x, sorted[1..], at, less);
      assert sorted == [sorted[0]] + sorted[1..];
    }
  }

  lemma InsertHas<T, K(!new)>(x: T, sorted: seq<T>, at: T -> K, less: (K, K) -> bool, y: T)
    ensures y in InsertBy(x, sorted, at, less) <==> y == x || y in sorted
  {
    InsertHolds(x, sorted, at, less);
    assert y in InsertBy(x, sorted, at, less) <==> y in multiset(InsertBy(x, sorted, at, less));
    assert y in sorted <==> y in multiset(sorted);
  }

  lemma {:induction false} InsertOrders<T, K(!new)>(x: T, sorted: seq<T>, at: T -> K, less: (K, K) -> bool)
    requires TotalOrder(less) && Ordered(sorted, at, less)
    ensures Ordered(InsertBy(x, sorted, at, less), at, less)
  {
    if sorted != [] && !less(at(x), at(sorted[0])) {
      InsertOrders(x, sorted[1..], at, less);
      var rest := InsertBy(x, sorted[1..], at, less);
      forall y | y in rest ensures !less(at(y), at(sorted[0])) {
        InsertHas(x, sorted[1..], at, less, y);
        if y != x {
          var i :| 0 <= i < |sorted| - 1 && sorted[1..][i] == y;
          assert !less(at(sorted[i + 1]), at(sorted[0]));
        }
      }
      forall k | 0 <= k < |rest| ensures !less(at(rest[k]), at(sorted[0])) { assert rest[k] in rest; }
    }
  }

  lemma {:induction false} SortOrders<T, K(!new)>(xs: seq<T>, at: T -> K, less: (K, K) -> bool)
    requires TotalOrder(less)
    ensures Ordered(SortBy(xs, at, less), at, less) && multiset(SortBy(xs, at, less)) == multiset(xs)
  {
    if xs != [] {
      var front, last := xs[..|xs| - 1], xs[|xs| - 1];
      SortOrders(front, at, less);
      InsertOrders(last, SortBy(front, at, less), at, less);
      InsertHolds(last, SortBy(front, at, less), at, less);
      assert xs == front + [last];
    }
  }

  lemma SortHas<T, K(!new)>(xs: seq<T>, at: T -> K, less: (K, K) -> bool, x: T)
    requires TotalOrder(less)
    ensures x in SortBy(xs, at, less) <==> x in xs
    ensures |SortBy(xs, at, less)| == |xs|
  {
    SortOrders(xs, at, less);
    assert |multiset(SortBy(xs, at, less))| == |multiset(xs)|;
    assert x in SortBy(xs, at, less) <==> x in multiset(SortBy(xs, at, less));
    assert x in xs <==> x in multiset(xs);
  }

  lemma TwiceIn<T>(xs: seq<T>, i: nat, j: nat)
    requires i < j < |xs| && xs[i] == xs[j]
    ensures multiset(xs)[xs[i]] >= 2
  {
    assert xs == xs[..j] + xs[j..];
    assert xs[i] == xs[..j][i] && xs[i] == xs[j..][0];
    assert xs[i] in multiset(xs[..j]) && xs[i] in multiset(xs[j..]);
  }

  /** The elements at one position, in the order given. */
  ghost function AtKey<T, K(!new)>(xs: seq<T>, at: T -> K, c: K): seq<T> {
    if xs == [] then [] else AtKey(xs[..|xs| - 1], at, c) + (if at(xs[|xs| - 1]) == c then [xs[|xs| - 1]] else [])
  }

  lemma {:induction false} AtKeySplits<T, K(!new)>(xs: seq<T>, ys: seq<T>, at: T -> K, c: K)
    ensures AtKey(xs + ys, at, c) == AtKey(xs, at, c) + AtKey(ys, at, c)
  {
    if ys == [] {
      assert xs + ys == xs;
      assert AtKey(ys, at, c) == [];
    } else {
      AtKeySplits(xs, ys[..|ys| - 1], at, c);
      assert (xs + ys)[..|xs + ys| - 1] == xs + ys[..|ys| - 1];
    }
  }

  lemma {:induction false} NoneAtKey<T, K(!new)>(xs: seq<T>, at: T -> K, c: K)
    requires forall x | x in xs :: at(x) != c
    ensures AtKey(xs, at, c) == []
  {
    if xs != [] { NoneAtKey(xs[..|xs| - 1], at, c); }
  }

  /** Nothing in a sorted list stands at the position of what comes before its first element. */
  lemma NoneLater<T, K(!new)>(x: T, sorted: seq<T>, at: T -> K, less: (K, K) -> bool)
    requires TotalOrder(less) && Ordered(sorted, at, less) && sorted != [] && less(at(x), at(sorted[0]))
    ensures AtKey(sorted, at, at(x)) == []
  {
    forall y | y in sorted ensures at(y) != at(x) {
      var k :| 0 <= k < |sorted| && sorted[k] == y;
      assert k > 0 ==> !less(at(sorted[k]), at(sorted[0]));
    }
    hide TotalOrder, Ordered;
    NoneAtKey(sorted, at, at(x));
  }

  lemma InsertFirstIsStable<T, K(!new)>(x: T, sorted: seq<T>, at: T -> K, less: (K, K) -> bool, c: K)
    requires TotalOrder(less) && Ordered(sorted, at, less) && sorted != [] && less(at(x), at(sorted[0]))
    ensures AtKey([x] + sorted, at, c) == AtKey(sorted, at, c) + AtKey([x], at, c)
  {
    hide AtKey, TotalOrder, Ordered;
    AtKeySplits([x], sorted, at, c);
    if at(x) == c {
      NoneLater(x, sorted, at, less);
    } else {
      NoneAtKey([x], at, c);
    }
  }

  lemma AtKeyLater<T, K(!new)>(first: T, rest: seq<T>, inserted: seq<T>, x: T, at: T -> K, c: K)
    requires AtKey(inserted, at, c) == AtKey(rest, at, c) + AtKey([x], at, c)
    ensures AtKey([first] + inserted, at, c) == AtKey([first] + rest, at, c) + AtKey([x], at, c)
  {
    hide AtKey;
    AtKeySplits([first], rest, at, c);
    AtKeySplits([first], inserted, at, c);
  }

  lemma {:induction false} InsertIsStable<T, K(!new)>(x: T, sorted: seq<T>, at: T -> K, less: (K, K) -> bool, c: K)
    requires TotalOrder(less) && Ordered(sorted, at, less)
    ensures AtKey(InsertBy(x, sorted, at, less), at, c) == AtKey(sorted, at, c) + AtKey([x], at, c)
  {
    hide TotalOrder, AtKey;
    if sorted == [] {
      NoneAtKey(sorted, at, c);
      assert [] + AtKey([x], at, c) == AtKey([x], at, c);
    } else if less(at(x), at(sorted[0])) {
      assert InsertBy(x, sorted, at, less) == [x] + sorted;
      hide InsertBy, Ordered;
      InsertFirstIsStable(x, sorted, at, less, c);
    } else {
      var first, rest := sorted[0], sorted[1..];
      assert InsertBy(x, sorted, at, less) == [first] + InsertBy(x, rest, at, less);
      assert Ordered(rest, at, less);
      assert sorted == [first] + rest;
      hide InsertBy, Ordered;
      InsertIsStable(x, rest, at, less, c);
      AtKeyLater(first, rest, InsertBy(x, rest, at, less), x, at, c);
    }
  }

  /** Equal positions keep their order. */
  lemma {:induction false} SortIsStable<T, K(!new)>(xs: seq<T>, at: T -> K, less: (K, K) -> bool, c: K)
    requires TotalOrder(less)
    ensures AtKey(SortBy(xs, at, less), at, c) == AtKey(xs, at, c)
  {
    hide TotalOrder, Ordered, InsertBy;
    if xs != [] {
      var front, last := xs[..|xs| - 1], xs[|xs| - 1];
      SortOrders(front, at, less);
      SortIsStable(front, at, less, c);
      InsertIsStable(last, SortBy(front, at, less), at, less, c);
      AtKeySplits(front, [last], at, c);
      assert xs == front + [last];
    }
  }

  lemma {:induction false} InsertLast<T, K(!new)>(x: T, sorted: seq<T>, at: T -> K, less: (K, K) -> bool)
    requires forall y | y in sorted :: !less(at(x), at(y))
    ensures InsertBy(x, sorted, at, less) == sorted + [x]
  {
    if sorted != [] {
      InsertLast(x, sorted[1..], at, less);
      assert sorted == [sorted[0]] + sorted[1..];
    }
  }

  lemma {:induction false} OrderedStays<T, K(!new)>(xs: seq<T>, at: T -> K, less: (K, K) -> bool)
    requires Ordered(xs, at, less)
    ensures SortBy(xs, at, less) == xs
  {
    if xs != [] {
      var front, last := xs[..|xs| - 1], xs[|xs| - 1];
      OrderedStays(front, at, less);
      InsertLast(last, front, at, less);
    }
  }

  lemma StrictTail<T, K(!new)>(xs: seq<T>, at: T -> K, less: (K, K) -> bool)
    requires TotalOrder(less) && StrictlyOrdered(xs, at, less) && xs != []
    ensures StrictlyOrdered(xs[1..], at, less)
    ensures forall x :: x in xs[1..] <==> x in xs && x != xs[0]
    ensures forall x | x in xs :: x == xs[0] || less(at(xs[0]), at(x))
  {
    forall x | x in xs ensures (x == xs[0] || less(at(xs[0]), at(x))) && (x in xs[1..] <==> x != xs[0]) {
      var i :| 0 <= i < |xs| && xs[i] == x;
      if i > 0 { assert less(at(xs[0]), at(xs[i])) && xs[1..][i - 1] == x; }
      if x in xs[1..] {
        var j :| 0 <= j < |xs| - 1 && xs[1..][j] == x;
        assert less(at(xs[0]), at(xs[j + 1]));
      }
    }
  }

  /** Strict order leaves one arrangement of the same elements. */
  lemma {:induction false} StrictOrderIsUnique<T, K(!new)>(xs: seq<T>, ys: seq<T>, at: T -> K, less: (K, K) -> bool)
    requires TotalOrder(less) && StrictlyOrdered(xs, at, less) && StrictlyOrdered(ys, at, less) && forall x ::
             x in xs <==> x in ys
    ensures xs == ys
  {
    if ys != [] { assert ys[0] in xs; }
    if xs != [] {
      assert xs[0] in xs && xs[0] in ys;
      assert ys[0] in ys && ys[0] in xs;
      StrictTail(xs, at, less);
      StrictTail(ys, at, less);
      hide StrictlyOrdered;
      assert xs[0] == ys[0];
      StrictOrderIsUnique(xs[1..], ys[1..], at, less);
    }
  }
}
