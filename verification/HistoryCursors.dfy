/** Positions of messages in a conversation: time first, then id by character code. */
module HistoryCursors {
  import opened Texts
  import Sorting

  datatype Cursor = Cursor(createdAt: int, id: string)

  /** Negative, zero or positive, as a sort callback wants it. */
  function Compare(a: Cursor, b: Cursor): int {
    if a.createdAt != b.createdAt then a.createdAt - b.createdAt
    else if TextLess(a.id, b.id) then -1 else if TextLess(b.id, a.id) then 1 else 0
  }

  predicate Before(a: Cursor, b: Cursor) { Compare(a, b) < 0 }

  predicate AtMost(a: Cursor, b: Cursor) { Compare(a, b) <= 0 }

  lemma CompareOrders(a: Cursor, b: Cursor)
    ensures Before(a, b) <==> Compare(b, a) > 0
    ensures AtMost(a, b) <==> !Before(b, a)
    ensures Compare(a, b) == 0 <==> a == b
  {
    TextOrder(a.id, b.id);
  }

  lemma BeforeTransitive(a: Cursor, b: Cursor, c: Cursor)
    requires Before(a, b) && Before(b, c)
    ensures Before(a, c)
  {
    if a.createdAt == b.createdAt == c.createdAt { TextTransitive(a.id, b.id, c.id); }
  }

  /** Cursors are totally ordered, so every sort below has one result. */
  lemma CursorOrder()
    ensures forall a, b :: AtMost(a, b) <==> !Before(b, a)
    ensures forall a, b :: Before(a, b) || Before(b, a) || a == b
    ensures forall a, b :: Before(a, b) ==> !Before(b, a) && a != b
    ensures forall a, b, c :: Before(a, b) && Before(b, c) ==> Before(a, c)
  {
    forall a, b ensures (AtMost(a, b) <==> !Before(b, a)) && (Before(a, b) || Before(b, a) || a == b)
      && (Before(a, b) ==> !Before(b, a) && a != b) {
      CompareOrders(a, b);
      CompareOrders(b, a);
    }
    forall a, b, c | Before(a, b) && Before(b, c) ensures Before(a, c) { BeforeTransitive(a, b, c); }
  }

  // ---- stable sorting by cursor

  ghost predicate Ordered<T>(xs: seq<T>, at: T -> Cursor) {
    forall i, j | 0 <= i < j < |xs| :: AtMost(at(xs[i]), at(xs[j]))
  }

  ghost predicate StrictlyOrdered<T>(xs: seq<T>, at: T -> Cursor) {
    forall i, j | 0 <= i < j < |xs| :: Before(at(xs[i]), at(xs[j]))
  }

  function SortBy<T>(xs: seq<T>, at: T -> Cursor): seq<T> { Sorting.SortBy(xs, at, Before) }

  lemma BeforeIsTotal()
    ensures Sorting.TotalOrder(Before)
  {
    CursorOrder();
  }

  lemma SameOrder<T>(xs: seq<T>, at: T -> Cursor)
    ensures Ordered(xs, at) <==> Sorting.Ordered(xs, at, Before)
  {
    CursorOrder();
    hide Before, AtMost;
  }

  lemma SortOrders<T>(xs: seq<T>, at: T -> Cursor)
    ensures Ordered(SortBy(xs, at), at) && multiset(SortBy(xs, at)) == multiset(xs)
  {
    BeforeIsTotal();
    Sorting.SortOrders(xs, at, Before);
    SameOrder(SortBy(xs, at), at);
  }

  lemma SortHas<T>(xs: seq<T>, at: T -> Cursor, x: T)
    ensures x in SortBy(xs, at) <==> x in xs
    ensures |SortBy(xs, at)| == |xs|
  {
    BeforeIsTotal();
    Sorting.SortHas(xs, at, Before, x);
  }

  /** Equal positions keep their order. */
  lemma SortIsStable<T>(xs: seq<T>, at: T -> Cursor, c: Cursor)
    ensures Sorting.AtKey(SortBy(xs, at), at, c) == Sorting.AtKey(xs, at, c)
  {
    BeforeIsTotal();
    Sorting.SortIsStable(xs, at, Before, c);
  }

  lemma OrderedStays<T>(xs: seq<T>, at: T -> Cursor)
    requires Ordered(xs, at)
    ensures SortBy(xs, at) == xs
  {
    SameOrder(xs, at);
    Sorting.OrderedStays(xs, at, Before);
  }

  /** Strict order leaves one arrangement of the same elements. */
  lemma StrictOrderIsUnique<T>(xs: seq<T>, ys: seq<T>, at: T -> Cursor)
    requires StrictlyOrdered(xs, at) && StrictlyOrdered(ys, at) && forall x :: x in xs <==> x in ys
    ensures xs == ys
  {
    BeforeIsTotal();
    assert Sorting.StrictlyOrdered(xs, at, Before) && Sorting.StrictlyOrdered(ys, at, Before);
    Sorting.StrictOrderIsUnique(xs, ys, at, Before);
  }
}
