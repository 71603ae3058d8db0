/** When the order in which segments are held changes what they merge to. */
module HistoryOrder {
  import opened HistoryCursors
  import opened HistorySegments
  import Sorting

  // ---- merging up to ids

  function Nameless(s: Segment): Segment { s.(id := "") }

  ghost function Bare(m: seq<Segment>): seq<Segment> { seq(|m|, i requires 0 <= i < |m| => Nameless(m[i])) }

  /** The same stretches with the same flags; only the ids, which record what was joined, may differ. */
  ghost predicate SameUpToIds(m: seq<Segment>, m': seq<Segment>) {
    |m| == |m'| && forall i | 0 <= i < |m| :: Nameless(m[i]) == Nameless(m'[i])
  }

  lemma BareIsSame(m: seq<Segment>, m': seq<Segment>)
    ensures Bare(m) == Bare(m') <==> SameUpToIds(m, m')
  {
    if Bare(m) == Bare(m') {
      assert |m| == |Bare(m)| == |m'|;
      forall i | 0 <= i < |m| ensures Nameless(m[i]) == Nameless(m'[i]) { assert Bare(m)[i] == Bare(m')[i]; }
    }
  }

  lemma BareAppend(m: seq<Segment>, s: Segment)
    ensures Bare(Append(m, s)) == Append(Bare(m), Nameless(s))
  {
    if m != [] {
      var n := |m| - 1;
      assert Bare(m)[n] == Nameless(m[n]);
      assert Join(Nameless(m[n]), Nameless(s)) == Nameless(Join(m[n], s));
    }
  }

  lemma MergeAppend(x: seq<Segment>, s: Segment)
    ensures Merge(x + [s]) == Append(Merge(x), s)
  {
    assert (x + [s])[..|x + [s]| - 1] == x;
  }

  // ---- exchanging two segments that start together

  lemma JoinMeans(p: Segment, s: Segment)
    requires AtMost(p.start, s.start)
    ensures var joined := Join(p, s);
            && joined.start == p.start
            && joined.hasBefore == (p.hasBefore || (s.start == p.start && s.hasBefore))
            && joined.end == (if Before(p.end, s.end) then s.end else p.end)
            && joined.hasAfter == ((!Before(p.end, s.end) && p.hasAfter) || (!Before(s.end, p.end) && s.hasAfter))
            && (p.id == s.id ==> joined.id == p.id)
  {
    CompareOrders(s.start, p.start);
    CompareOrders(p.start, s.start);
    CompareOrders(s.end, p.end);
    CompareOrders(p.end, s.end);
  }

  lemma JoinsCommute(p: Segment, s: Segment, t: Segment)
    requires AtMost(p.start, s.start) && s.start == t.start && p.id == s.id == t.id
    ensures Join(Join(p, s), t) == Join(Join(p, t), s)
  {
    JoinMeans(p, s);
    JoinMeans(Join(p, s), t);
    JoinMeans(p, t);
    JoinMeans(Join(p, t), s);
    CursorOrder();
    hide Before, AtMost, Join;
  }

  /** Every segment that starts at `c` touches what has been merged, whatever it says about what came before. */
  ghost predicate Ready(m: seq<Segment>, c: Cursor) {
    m == [] || AtMost(c, m[|m| - 1].end) || !m[|m| - 1].hasAfter
  }

  lemma AppendsCommute(m: seq<Segment>, s: Segment, t: Segment)
    requires s.start == t.start && AtMost(s.start, s.end) && AtMost(t.start, t.end) && s.id == t.id
    requires m != [] ==> AtMost(m[|m| - 1].start, s.start) && m[|m| - 1].id == s.id
    requires s.hasBefore == t.hasBefore || Ready(m, s.start)
    ensures Append(Append(m, s), t) == Append(Append(m, t), s)
  {
    CursorOrder();
    hide Before, AtMost, Join;
    assert AtMost(s.start, s.start);
    if m == [] {
      JoinMeans(s, t);
      JoinMeans(t, s);
    } else {
      var p := m[|m| - 1];
      JoinMeans(p, s);
      JoinMeans(p, t);
      if Touches(p, s) {
        JoinsCommute(p, s, t);
        assert Touches(p, t) && Touches(Join(p, s), t) && Touches(Join(p, t), s);
      } else {
        JoinMeans(s, t);
        JoinMeans(t, s);
        assert !Touches(p, t) && Touches(s, t) && Touches(t, s);
        assert (m + [s])[|m| := Join(s, t)] == m + [Join(s, t)];
        assert (m + [t])[|m| := Join(t, s)] == m + [Join(t, s)];
      }
    }
  }

  // ---- how far merging has come

  /** The last merged segment ends farthest, and is open after exactly when one that ends there is. */
  ghost predicate Carries(last: Segment, done: seq<Segment>) {
    && (exists u | u in done :: u.end == last.end)
    && (forall u | u in done :: AtMost(u.end, last.end))
    && (last.hasAfter <==> exists u | u in done :: u.end == last.end && u.hasAfter)
  }

  lemma JoinCarries(p: Segment, done: seq<Segment>, s: Segment)
    requires Carries(p, done) && AtMost(p.start, s.start)
    ensures Carries(Join(p, s), done + [s])
  {
    JoinMeans(p, s);
    CursorOrder();
    hide Before, AtMost, Join;
    var done' := done + [s];
    assert s in done' && (forall u | u in done' :: u in done || u == s) && forall u | u in done :: u in done';
  }

  lemma PushCarries(p: Segment, done: seq<Segment>, s: Segment)
    requires Carries(p, done) && AtMost(s.start, s.end) && !Touches(p, s)
    ensures Carries(s, done + [s])
  {
    CursorOrder();
    hide Before, AtMost;
    assert s in done + [s] && forall u | u in done + [s] :: u in done || u == s;
    assert forall u | u in done :: AtMost(u.end, s.end) && u.end != s.end;
  }

  lemma InOrder(x: seq<Segment>, i: nat, j: nat)
    requires Ordered(x, StartOf) && i <= j < |x|
    ensures AtMost(x[i].start, x[j].start)
  {
    CompareOrders(x[i].start, x[i].start);
    assert i < j ==> AtMost(StartOf(x[i]), StartOf(x[j]));
  }

  lemma FrontInOrder(x: seq<Segment>)
    requires Ordered(x, StartOf) && Proper(x) && x != []
    ensures Ordered(x[..|x| - 1], StartOf) && Proper(x[..|x| - 1])
  {
    hide AtMost;
  }

  lemma LastMergedStarts(w: seq<Segment>, c: Cursor)
    requires Ordered(w, StartOf) && w != [] && AtMost(w[|w| - 1].start, c)
    ensures Merge(w) != [] && AtMost(Merge(w)[|Merge(w)| - 1].start, c)
  {
    MergeSeparates(w);
    CursorOrder();
    hide Before, AtMost, Merge, Separated;
  }

  lemma {:induction false} MergeCarries(x: seq<Segment>)
    requires Ordered(x, StartOf) && Proper(x) && x != []
    ensures Merge(x) != [] && Carries(Merge(x)[|Merge(x)| - 1], x)
  {
    hide Before, AtMost, Join, Touches, Carries;
    var n := |x| - 1;
    var front, s := x[..n], x[n];
    assert x == front + [s];
    if front == [] {
      assert Merge(x) == [s] && x == [s];
      OneCarries(s);
    } else {
      assert x[n] in x && AtMost(s.start, s.end);
      InOrder(x, n - 1, n);
      FrontInOrder(x);
      hide Ordered, Proper;
      MergeCarries(front);
      MergeAppend(front, s);
      LastMergedStarts(front, s.start);
      AppendCarries(Merge(front), front, s);
    }
  }

  lemma AppendCarries(m: seq<Segment>, done: seq<Segment>, s: Segment)
    requires m != [] && Carries(m[|m| - 1], done) && AtMost(m[|m| - 1].start, s.start) && AtMost(s.start, s.end)
    ensures Append(m, s) != [] && Carries(Append(m, s)[|Append(m, s)| - 1], done + [s])
  {
    hide AtMost, Join, Touches, Carries;
    if Touches(m[|m| - 1], s) {
      JoinCarries(m[|m| - 1], done, s);
    } else {
      PushCarries(m[|m| - 1], done, s);
    }
  }

  lemma OneCarries(s: Segment)
    ensures Carries(s, [s])
  {
    CompareOrders(s.end, s.end);
  }

  // ---- ties, and when they are harmless

  /** Before `c` a merged stretch ends that is open after: the farthest of the earlier segments stops short of `c`. */
  ghost predicate OpenBefore(all: seq<Segment>, c: Cursor) {
    exists u | u in all :: Before(u.start, c) && FarthestBefore(all, u, c)
  }

  ghost predicate FarthestBefore(all: seq<Segment>, u: Segment, c: Cursor) {
    u.hasAfter && Before(u.end, c) && forall v | v in all && Before(v.start, c) :: AtMost(v.end, u.end)
  }

  /** Segments that start together say the same about what came before, unless no open stretch ends before them. */
  ghost predicate HarmlessTies(all: seq<Segment>) {
    forall s, t | s in all && t in all && s.start == t.start && s.hasBefore != t.hasBefore :: !OpenBefore(all, s.start)
  }

  ghost predicate OrderIndependent(a: seq<Segment>) {
    forall b | multiset(b) == multiset(a) :: SameUpToIds(Merged(a), Merged(b))
  }

  /** Every segment that starts before `c` is among the merged ones. */
  ghost predicate HasEarlier(all: seq<Segment>, w: seq<Segment>, c: Cursor) {
    && (forall u | u in w :: u in all)
    && (forall u | u in all && Before(u.start, c) :: u in w)
  }

  lemma OpenBy(all: seq<Segment>, u: Segment, c: Cursor)
    requires u in all && Before(u.start, c) && FarthestBefore(all, u, c)
    ensures OpenBefore(all, c)
  {
  }

  lemma MergedIsReady(all: seq<Segment>, w: seq<Segment>, c: Cursor)
    requires Ordered(w, StartOf) && Proper(w) && HasEarlier(all, w, c) && !OpenBefore(all, c)
    ensures Ready(Merge(w), c)
  {
    if w != [] {
      MergeCarries(w);
      var last := Merge(w)[|Merge(w)| - 1];
      CursorOrder();
      hide Before, AtMost, Merge, OpenBefore;
      if Before(last.end, c) && last.hasAfter {
        var u :| u in w && u.end == last.end && u.hasAfter;
        OpenBy(all, u, c);
      }
    }
  }

  // ---- one order for all

  function RemoveAt(x: seq<Segment>, i: nat): seq<Segment>
    requires i < |x|
  {
    x[..i] + x[i + 1..]
  }

  lemma RemoveKeeps(x: seq<Segment>, i: nat)
    requires Ordered(x, StartOf) && Proper(x) && i < |x|
    ensures Ordered(RemoveAt(x, i), StartOf) && Proper(RemoveAt(x, i))
    ensures multiset(x) == multiset(RemoveAt(x, i)) + multiset{x[i]}
    ensures forall u | u in x :: u == x[i] || u in RemoveAt(x, i)
    ensures forall u | u in RemoveAt(x, i) :: u in x
  {
    hide AtMost;
    assert x == x[..i] + [x[i]] + x[i + 1..];
  }

  /** Two neighbours of one start may be exchanged at the end of what is merged. */
  lemma ExchangeLast(all: seq<Segment>, w: seq<Segment>, s: Segment, t: Segment)
    requires Ordered(w, StartOf) && Proper(w) && HasEarlier(all, w, s.start) && HarmlessTies(all)
    requires s in all && t in all && s.start == t.start && AtMost(s.start, s.end) && AtMost(t.start, t.end)
    requires w != [] ==> AtMost(w[|w| - 1].start, s.start)
    ensures var m := Bare(Merge(w));
            Append(Append(m, Nameless(s)), Nameless(t)) == Append(Append(m, Nameless(t)), Nameless(s))
  {
    hide AtMost, Merge, Append, Ordered;
    var m := Merge(w);
    if w != [] { LastMergedStarts(w, s.start); }
    if w == [] { assert Merge(w) == [] by { MergeOfNone(); } }
    if s.hasBefore != t.hasBefore {
      MergedIsReady(all, w, s.start);
      assert Ready(Bare(m), s.start);
    }
    AppendsCommute(Bare(m), Nameless(s), Nameless(t));
  }

  lemma MergeOfNone()
    ensures Merge([]) == []
  {
  }

  lemma MergeLastTwo(w: seq<Segment>, front: seq<Segment>, s: Segment, t: Segment)
    requires Bare(Merge(front)) == Append(Bare(Merge(w)), Nameless(s))
    requires var m := Bare(Merge(w));
             Append(Append(m, Nameless(s)), Nameless(t)) == Append(Append(m, Nameless(t)), Nameless(s))
    ensures Bare(Merge(front + [t])) == Append(Bare(Merge(w + [t])), Nameless(s))
  {
    hide Merge, Append, Bare;
    MergeAppend(front, t);
    BareAppend(Merge(front), t);
    MergeAppend(w, t);
    BareAppend(Merge(w), t);
  }

  lemma EarlierStay(all: seq<Segment>, x: seq<Segment>, x': seq<Segment>, s: Segment, c: Cursor)
    requires HasEarlier(all, x, c) && AtMost(c, s.start)
    requires (forall u | u in x :: u in x' || u == s) && forall u | u in x' :: u in x
    ensures HasEarlier(all, x', c)
  {
    CompareOrders(c, s.start);
    hide Before, AtMost;
  }

  lemma RemoveBeforeLast(x: seq<Segment>, i: nat)
    requires i < |x| - 1
    ensures var n := |x| - 1;
            var w := RemoveAt(x[..n], i);
            && RemoveAt(x, i) == w + [x[n]] && (forall u | u in x :: u in x[..n] || u == x[n])
            && (forall u | u in w :: u in x[..n]) && forall u | u in x[..n] :: u in x
  {
    assert x == x[..|x| - 1] + [x[|x| - 1]];
  }

  lemma NoneStartsAfterLast(x: seq<Segment>, u: Segment)
    requires Ordered(x, StartOf) && u in x
    ensures AtMost(u.start, x[|x| - 1].start)
  {
    hide Ordered;
    var k :| 0 <= k < |x| && x[k] == u;
    InOrder(x, k, |x| - 1);
  }

  /** What is left of `x` without its last segment and without another one that starts with it. */
  lemma RestOfTie(all: seq<Segment>, x: seq<Segment>, i: nat)
    requires Ordered(x, StartOf) && Proper(x) && i < |x| - 1 && x[i].start == x[|x| - 1].start
    requires HasEarlier(all, x, x[i].start)
    ensures var n := |x| - 1;
            var w := RemoveAt(x[..n], i);
            && RemoveAt(x, i) == w + [x[n]] && x[n - 1].start == x[n].start
            && HasEarlier(all, x[..n], x[i].start) && HasEarlier(all, w, x[i].start)
            && Ordered(w, StartOf) && Proper(w) && (w != [] ==> AtMost(w[|w| - 1].start, x[n].start))
  {
    hide Ordered, Proper, AtMost, HasEarlier, RemoveAt;
    var n := |x| - 1;
    var front, w, c := x[..n], RemoveAt(x[..n], i), x[i].start;
    RemoveBeforeLast(x, i);
    FrontInOrder(x);
    RemoveKeeps(front, i);
    InOrder(x, i, n - 1);
    InOrder(x, n - 1, n);
    CompareOrders(c, x[n - 1].start);
    CompareOrders(x[n - 1].start, c);
    InOrder(x, i, i);
    EarlierStay(all, x, front, x[n], c);
    EarlierStay(all, front, w, front[i], c);
    if w != [] { NoneStartsAfterLast(x, w[|w| - 1]); }
  }

  lemma IsProperIn(all: seq<Segment>, x: seq<Segment>, s: Segment, c: Cursor)
    requires Proper(x) && HasEarlier(all, x, c) && s in x
    ensures AtMost(s.start, s.end) && s in all
  {
    hide AtMost, Before;
  }

  /** A segment that starts last may be merged last. */
  lemma {:induction false} MergedLast(all: seq<Segment>, x: seq<Segment>, i: nat)
    requires Ordered(x, StartOf) && Proper(x) && i < |x| && x[i].start == x[|x| - 1].start
    requires HasEarlier(all, x, x[i].start) && HarmlessTies(all)
    ensures Bare(Merge(x)) == Append(Bare(Merge(RemoveAt(x, i))), Nameless(x[i]))
  {
    hide Merge, Append, Bare, HarmlessTies, Ordered, Proper, HasEarlier, AtMost;
    var n := |x| - 1;
    var s, t, front := x[i], x[n], x[..n];
    assert x == front + [t];
    if i == n {
      assert RemoveAt(x, i) == front;
      MergeAppend(front, t);
      BareAppend(Merge(front), t);
    } else {
      hide RemoveAt;
      IsProperIn(all, x, s, s.start);
      IsProperIn(all, x, t, s.start);
      FrontInOrder(x);
      RestOfTie(all, x, i);
      MergedLast(all, front, i);
      var w := RemoveAt(front, i);
      ExchangeLast(all, w, s, t);
      MergeLastTwo(w, front, s, t);
    }
  }

  /** The earlier segments of every merged one are merged too. */
  ghost predicate DownClosed(all: seq<Segment>, x: seq<Segment>) { forall v | v in x :: HasEarlier(all, x, v.start) }

  /** The last segment of `y` has a place in `x`; without it, the same segments are left. */
  lemma FindLast(x: seq<Segment>, y: seq<Segment>) returns (i: nat)
    requires multiset(x) == multiset(y) && y != []
    ensures i < |x| && x[i] == y[|y| - 1] && multiset(RemoveAt(x, i)) == multiset(y[..|y| - 1])
  {
    var s := y[|y| - 1];
    assert y == y[..|y| - 1] + [s];
    assert s in multiset(x);
    i :| 0 <= i < |x| && x[i] == s;
    WithoutOne(x, i);
    assert multiset(y) == multiset(y[..|y| - 1]) + multiset{s};
    SameWithoutOne(multiset(RemoveAt(x, i)), multiset(y[..|y| - 1]), s);
  }

  lemma WithoutOne(x: seq<Segment>, i: nat)
    requires i < |x|
    ensures multiset(x) == multiset(RemoveAt(x, i)) + multiset{x[i]}
  {
    assert x == x[..i] + [x[i]] + x[i + 1..];
  }

  lemma SameWithoutOne(a: multiset<Segment>, b: multiset<Segment>, s: Segment)
    requires a + multiset{s} == b + multiset{s}
    ensures a == b
  {
    assert a == a + multiset{s} - multiset{s};
    assert b == b + multiset{s} - multiset{s};
  }

  lemma {:induction false} OrdersMergeAlike(all: seq<Segment>, x: seq<Segment>, y: seq<Segment>)
    requires Ordered(x, StartOf) && Ordered(y, StartOf) && Proper(x) && Proper(y) && multiset(x) == multiset(y)
    requires DownClosed(all, x) && HarmlessTies(all)
    ensures Bare(Merge(x)) == Bare(Merge(y))
    decreases |y|
  {
    hide HarmlessTies, Merge, Append, Bare, AtMost, Ordered, Proper, HasEarlier, RemoveAt;
    if y != [] {
      var n := |y| - 1;
      var s, front := y[n], y[..n];
      assert y == front + [s];
      var i := FindLast(x, y);
      assert HasEarlier(all, x, x[i].start);
      hide DownClosed;
      StartsLast(x, y, i);
      MergedLast(all, x, i);
      RemoveKeeps(x, i);
      RemoveStaysClosed(all, x, i);
      FrontInOrder(y);
      OrdersMergeAlike(all, RemoveAt(x, i), front);
      MergeAppend(front, s);
      BareAppend(Merge(front), s);
    } else {
      assert |multiset(x)| == |multiset(y)|;
      assert x == y;
    }
  }

  lemma StartsLast(x: seq<Segment>, y: seq<Segment>, i: nat)
    requires Ordered(x, StartOf) && Ordered(y, StartOf) && multiset(x) == multiset(y)
    requires i < |x| && y != [] && x[i] == y[|y| - 1]
    ensures x[i].start == x[|x| - 1].start
  {
    CursorOrder();
    hide Before, AtMost;
    var last := x[|x| - 1];
    assert last in multiset(y);
    var j :| 0 <= j < |y| && y[j] == last;
    assert j < |y| - 1 ==> AtMost(StartOf(y[j]), StartOf(y[|y| - 1]));
    assert i < |x| - 1 ==> AtMost(StartOf(x[i]), StartOf(x[|x| - 1]));
  }

  lemma RemoveStaysClosed(all: seq<Segment>, x: seq<Segment>, i: nat)
    requires Ordered(x, StartOf) && Proper(x) && i < |x| && x[i].start == x[|x| - 1].start && DownClosed(all, x)
    ensures DownClosed(all, RemoveAt(x, i))
  {
    hide Before, AtMost, Proper, Ordered, RemoveAt, HasEarlier;
    RemoveKeeps(x, i);
    forall v | v in RemoveAt(x, i) ensures HasEarlier(all, RemoveAt(x, i), v.start) {
      assert HasEarlier(all, x, v.start);
      NoneStartsAfterLast(x, v);
      EarlierStay(all, x, RemoveAt(x, i), x[i], v.start);
    }
  }

  lemma HarmlessTiesMergeAlike(a: seq<Segment>, b: seq<Segment>)
    requires Proper(a) && multiset(a) == multiset(b) && HarmlessTies(a)
    ensures SameUpToIds(Merged(a), Merged(b))
  {
    var x, y := SortBy(a, StartOf), SortBy(b, StartOf);
    SortOrders(a, StartOf);
    SortOrders(b, StartOf);
    forall u ensures (u in x <==> u in a) && (u in y ==> u in a) {
      SortHas(a, StartOf, u);
      assert u in y ==> u in multiset(y);
    }
    hide HarmlessTies, Merge;
    OrdersMergeAlike(a, x, y);
    BareIsSame(Merged(a), Merged(b));
  }

  // ---- a tie that is not harmless

  /** One merged list has a segment more, and both have come equally far. */
  ghost predicate Lags(m: seq<Segment>, m': seq<Segment>) {
    && m != [] && |m'| == |m| + 1
    && m[|m| - 1].end == m'[|m'| - 1].end && m[|m| - 1].hasAfter == m'[|m'| - 1].hasAfter
  }

  lemma AppendKeepsLag(m: seq<Segment>, m': seq<Segment>, u: Segment)
    requires Lags(m, m')
    ensures Lags(Append(m, u), Append(m', u))
  {
    hide AtMost;
  }

  lemma {:induction false} MergeKeepsLag(x: seq<Segment>, x': seq<Segment>, w: seq<Segment>)
    requires Lags(Merge(x), Merge(x'))
    ensures Lags(Merge(x + w), Merge(x' + w))
    decreases |w|
  {
    hide Merge, Append, Lags;
    if w == [] {
      assert x + w == x && x' + w == x';
    } else {
      var front, u := w[..|w| - 1], w[|w| - 1];
      MergeKeepsLag(x, x', front);
      assert x + w == (x + front) + [u] && x' + w == (x' + front) + [u];
      MergeAppend(x + front, u);
      MergeAppend(x' + front, u);
      AppendKeepsLag(Merge(x + front), Merge(x' + front), u);
    }
  }

  lemma TieStartsALag(m: seq<Segment>, s: Segment, t: Segment)
    requires s.start == t.start && !s.hasBefore && t.hasBefore && AtMost(s.start, s.end) && AtMost(t.start, t.end)
    requires m != [] && AtMost(m[|m| - 1].start, s.start) && m[|m| - 1].hasAfter && Before(m[|m| - 1].end, s.start)
    ensures Lags(Append(Append(m, s), t), Append(Append(m, t), s))
  {
    var p := m[|m| - 1];
    CursorOrder();
    JoinMeans(p, s);
    JoinMeans(Join(p, s), t);
    assert AtMost(s.start, t.start);
    JoinMeans(t, s);
    hide Before, AtMost, Join;
  }

  lemma OpenMergesOpen(e: seq<Segment>, all: seq<Segment>, c: Cursor)
    requires Ordered(e, StartOf) && Proper(e) && OpenBefore(all, c)
    requires (forall u | u in e :: u in all && Before(u.start, c)) && forall u | u in all && Before(u.start, c) ::
             u in e
    ensures Merge(e) != []
    ensures var last := Merge(e)[|Merge(e)| - 1]; AtMost(last.start, c) && last.hasAfter && Before(last.end, c)
  {
    var u :| u in all && Before(u.start, c) && FarthestBefore(all, u, c);
    assert u in e;
    MergeCarries(e);
    CursorOrder();
    hide Before, AtMost, Merge;
    assert AtMost(StartOf(e[|e| - 1]), c) by { assert e[|e| - 1] in e; }
    LastMergedStarts(e, c);
  }

  lemma OrderedJoins(a: seq<Segment>, b: seq<Segment>)
    requires Ordered(a, StartOf) && Ordered(b, StartOf)
    requires forall u, v | u in a && v in b :: AtMost(u.start, v.start)
    ensures Ordered(a + b, StartOf)
  {
    hide AtMost;
    var x := a + b;
    forall i, j | 0 <= i < j < |x| ensures AtMost(StartOf(x[i]), StartOf(x[j])) {
      if i < |a| <= j {
        assert x[i] == a[i] && x[j] == b[j - |a|];
        assert x[i] in a && x[j] in b;
      } else if |a| <= i {
        assert x[i] == b[i - |a|] && x[j] == b[j - |a|];
      }
    }
  }

  lemma SplitAt(x: seq<Segment>, c: Cursor) returns (e: seq<Segment>, f: seq<Segment>)
    requires Ordered(x, StartOf) && Proper(x)
    ensures x == e + f && Ordered(e, StartOf) && Ordered(f, StartOf) && Proper(e) && Proper(f)
    ensures (forall u | u in e :: Before(u.start, c)) && forall u | u in f :: AtMost(c, u.start)
  {
    CursorOrder();
    hide Before, AtMost, Proper;
    var k := 0;
    while k < |x| && Before(x[k].start, c)
      invariant k <= |x| && forall u | u in x[..k] :: Before(u.start, c)
    {
      assert x[..k + 1] == x[..k] + [x[k]];
      k := k + 1;
    }
    e, f := x[..k], x[k..];
    forall u | u in f ensures AtMost(c, u.start) {
      var j :| k <= j < |x| && x[j] == u;
      InOrder(x, k, j);
    }
    PartsAreProper(x, e, f);
  }

  lemma PartsAreProper(x: seq<Segment>, e: seq<Segment>, f: seq<Segment>)
    requires Proper(x) && x == e + f
    ensures Proper(e) && Proper(f)
  {
    hide AtMost;
    assert forall u | u in e :: u in x;
    assert forall u | u in f :: u in x;
  }

  /** The segments of `f` without two of them. */
  lemma TakeTwo(f: seq<Segment>, s: Segment, t: Segment) returns (w: seq<Segment>)
    requires Ordered(f, StartOf) && Proper(f) && s in f && t in f && s != t
    ensures Ordered(w, StartOf) && multiset(f) == multiset(w) + multiset{s, t} && forall u | u in w :: u in f
  {
    hide Ordered, Proper;
    var i :| 0 <= i < |f| && f[i] == s;
    RemoveKeeps(f, i);
    var f' := RemoveAt(f, i);
    hide RemoveAt;
    var j :| 0 <= j < |f'| && f'[j] == t;
    RemoveKeeps(f', j);
    w := RemoveAt(f', j);
    assert multiset{s, t} == multiset{s} + multiset{t};
  }

  /** An order of the segments of `x` in which `s` and `t` are neighbours, in either order. */
  lemma SplitTie(x: seq<Segment>, s: Segment, t: Segment) returns (e: seq<Segment>, w: seq<Segment>)
    requires Ordered(x, StartOf) && Proper(x) && s in x && t in x && s != t && s.start == t.start
    ensures multiset(e + [s, t] + w) == multiset(x) && multiset(e + [t, s] + w) == multiset(x)
    ensures Ordered(e + [s, t] + w, StartOf) && Ordered(e + [t, s] + w, StartOf)
    ensures Ordered(e, StartOf) && Proper(e) && forall u | u in e :: u in x && Before(u.start, s.start)
    ensures forall u | u in x && Before(u.start, s.start) :: u in e
  {
    hide Before, AtMost, Ordered, Proper;
    var c, f := s.start, [];
    e, f := SplitAt(x, c);
    forall u | u in x ensures u in e || u in f { assert u in e + f; }
    CursorOrder();
    w := TakeTwo(f, s, t);
    TieInOrder(e, s, t, w);
    TieInOrder(e, t, s, w);
    TieHolds(x, e, f, s, t, w);
    TieHolds(x, e, f, t, s, w);
  }

  lemma TieHolds(x: seq<Segment>, e: seq<Segment>, f: seq<Segment>, s: Segment, t: Segment, w: seq<Segment>)
    requires x == e + f && multiset(f) == multiset(w) + multiset{s, t}
    ensures multiset(e + [s, t] + w) == multiset(x)
  {
    assert multiset([s, t]) == multiset{s, t};
    assert multiset(e + [s, t] + w) == multiset(e) + multiset([s, t]) + multiset(w);
  }

  lemma TieInOrder(e: seq<Segment>, s: Segment, t: Segment, w: seq<Segment>)
    requires Ordered(e, StartOf) && Ordered(w, StartOf) && s.start == t.start
    requires (forall u | u in e :: Before(u.start, s.start)) && forall u | u in w :: AtMost(s.start, u.start)
    ensures Ordered(e + [s, t] + w, StartOf)
  {
    CursorOrder();
    hide Before, AtMost;
    assert Ordered([s, t], StartOf);
    OrderedJoins(e, [s, t]);
    OrderedJoins(e + [s, t], w);
  }

  lemma TieMergesUnevenly(e: seq<Segment>, s: Segment, t: Segment, w: seq<Segment>)
    requires Lags(Append(Append(Merge(e), s), t), Append(Append(Merge(e), t), s))
    ensures |Merge(e + [s, t] + w)| != |Merge(e + [t, s] + w)|
  {
    hide Merge, Append;
    MergeAppend(e, s);
    MergeAppend(e + [s], t);
    MergeAppend(e, t);
    MergeAppend(e + [t], s);
    assert e + [s] + [t] == e + [s, t] && e + [t] + [s] == e + [t, s];
    MergeKeepsLag(e + [s, t], e + [t, s], w);
  }

  lemma SortedTie(a: seq<Segment>, s: Segment, t: Segment) returns (e: seq<Segment>, w: seq<Segment>)
    requires Proper(a) && s in a && t in a && s != t && s.start == t.start
    ensures multiset(e + [s, t] + w) == multiset(a) && multiset(e + [t, s] + w) == multiset(a)
    ensures Merged(e + [s, t] + w) == Merge(e + [s, t] + w) && Merged(e + [t, s] + w) == Merge(e + [t, s] + w)
    ensures Ordered(e, StartOf) && Proper(e) && forall u | u in e :: u in a && Before(u.start, s.start)
    ensures forall u | u in a && Before(u.start, s.start) :: u in e
  {
    hide Before, AtMost, Merge, Ordered, SortBy;
    var x := SortBy(a, StartOf);
    SortOrders(a, StartOf);
    forall u ensures u in x <==> u in a { SortHas(a, StartOf, u); }
    assert Proper(x);
    hide Proper;
    e, w := SplitTie(x, s, t);
    OrderedStays(e + [s, t] + w, StartOf);
    OrderedStays(e + [t, s] + w, StartOf);
  }

  lemma OpenTieLags(e: seq<Segment>, a: seq<Segment>, s: Segment, t: Segment)
    requires Proper(a) && s in a && t in a && OpenBefore(a, s.start)
    requires s.start == t.start && !s.hasBefore && t.hasBefore
    requires Ordered(e, StartOf) && Proper(e) && forall u | u in e :: u in a && Before(u.start, s.start)
    requires forall u | u in a && Before(u.start, s.start) :: u in e
    ensures Lags(Append(Append(Merge(e), s), t), Append(Append(Merge(e), t), s))
  {
    assert AtMost(s.start, s.end) && AtMost(t.start, t.end);
    hide Before, AtMost, OpenBefore, Merge, Append, Ordered, Proper, Lags;
    OpenMergesOpen(e, a, s.start);
    TieStartsALag(Merge(e), s, t);
  }

  /** With an open stretch before them, two segments of one start that disagree merge differently in some two orders. */
  lemma HarmfulTieDependsOnOrder(a: seq<Segment>, s: Segment, t: Segment)
    requires Proper(a) && s in a && t in a && OpenBefore(a, s.start)
    requires s.start == t.start && !s.hasBefore && t.hasBefore
    ensures !OrderIndependent(a)
  {
    hide Before, AtMost, OpenBefore, Merge, Merged, Append, Ordered, OrderIndependent, Proper, Lags;
    var e, w := SortedTie(a, s, t);
    OpenTieLags(e, a, s, t);
    TieMergesUnevenly(e, s, t, w);
    LengthsDiffer(a, e + [s, t] + w, e + [t, s] + w);
  }

  lemma LengthsDiffer(a: seq<Segment>, b: seq<Segment>, b': seq<Segment>)
    requires multiset(b) == multiset(a) == multiset(b') && |Merged(b)| != |Merged(b')|
    ensures !OrderIndependent(a)
  {
    hide Merged;
    assert !(SameUpToIds(Merged(a), Merged(b)) && SameUpToIds(Merged(a), Merged(b')));
  }

  /**
   * Proper segments merge alike, up to ids, in whatever order they are held, exactly when no two that start together
   * disagree on what came before while an open stretch ends before them.
   */
  lemma MergesAlikeExactlyWhenTiesAreHarmless(a: seq<Segment>)
    requires Proper(a)
    ensures OrderIndependent(a) <==> HarmlessTies(a)
  {
    hide Proper, OpenBefore, SameUpToIds, Merged;
    if HarmlessTies(a) {
      forall b | multiset(b) == multiset(a) ensures SameUpToIds(Merged(a), Merged(b)) { HarmlessTiesMergeAlike(a, b); }
    } else {
      var s, t :| s in a && t in a && s.start == t.start && s.hasBefore != t.hasBefore && OpenBefore(a, s.start);
      if s.hasBefore { HarmfulTieDependsOnOrder(a, t, s); } else { HarmfulTieDependsOnOrder(a, s, t); }
    }
  }

  ghost predicate TiesAgree(a: seq<Segment>) {
    forall s, t | s in a && t in a && s.start == t.start :: s.hasBefore == t.hasBefore
  }

  /** Segments whose ties agree on what came before merge alike, up to ids, in every order. */
  lemma AgreeingTiesMergeAlike(a: seq<Segment>, b: seq<Segment>)
    requires Proper(a) && multiset(a) == multiset(b) && TiesAgree(a)
    ensures SameUpToIds(Merged(a), Merged(b))
  {
    HarmlessTiesMergeAlike(a, b);
  }

  /** For every tie that disagrees there is an earlier segment with which two orders merge differently. */
  lemma DisagreeingTiesDependOnOrder(s: Segment, t: Segment) returns (e: Segment)
    requires Proper([s, t]) && s.start == t.start && s.hasBefore != t.hasBefore
    ensures Proper([e, s, t]) && !OrderIndependent([e, s, t])
  {
    var c := Cursor(s.start.createdAt - 1, "");
    e := Segment("e", c, c, true, true);
    var a := [e, s, t];
    assert AtMost(s.start, s.end) && AtMost(t.start, t.end) by { assert s in [s, t] && t in [s, t]; }
    CompareOrders(s.start, s.start);
    assert FarthestBefore(a, e, s.start);
    assert e in a && OpenBefore(a, s.start);
    if s.hasBefore { HarmfulTieDependsOnOrder(a, t, s); } else { HarmfulTieDependsOnOrder(a, s, t); }
  }

  /** No two segments start together. */
  ghost predicate DistinctStarts(a: multiset<Segment>) {
    forall s | s in a :: a[s] == 1 && forall t | t in a && t.start == s.start :: t == s
  }

  lemma SortStrictly(a: seq<Segment>)
    requires DistinctStarts(multiset(a))
    ensures StrictlyOrdered(SortBy(a, StartOf), StartOf)
  {
    SortOrders(a, StartOf);
    var x := SortBy(a, StartOf);
    forall i, j | 0 <= i < j < |x| ensures Before(StartOf(x[i]), StartOf(x[j])) {
      CompareOrders(x[i].start, x[j].start);
      assert AtMost(StartOf(x[i]), StartOf(x[j]));
      if x[i].start == x[j].start {
        assert x[i] in multiset(x) && x[j] in multiset(x);
        Sorting.TwiceIn(x, i, j);
      }
    }
  }

  /** Segments that start apart merge alike in whatever order they are held. */
  lemma DistinctStartsMergeAlike(a: seq<Segment>, b: seq<Segment>)
    requires multiset(a) == multiset(b) && DistinctStarts(multiset(a))
    ensures Merged(a) == Merged(b)
  {
    SortStrictly(a);
    SortStrictly(b);
    hide DistinctStarts, Merge;
    var x, y := SortBy(a, StartOf), SortBy(b, StartOf);
    forall s ensures s in x <==> s in y {
      SortHas(a, StartOf, s);
      SortHas(b, StartOf, s);
      assert (s in a <==> s in multiset(a)) && (s in b <==> s in multiset(b));
    }
    StrictOrderIsUnique(x, y, StartOf);
  }

  /** Segments that start together but disagree on what came before can merge differently: here, one segment or two. */
  lemma TiedStartsDependOnOrder()
    ensures var early := Segment("a", Cursor(1, ""), Cursor(2, ""), true, true);
            var closed := Segment("b", Cursor(5, ""), Cursor(6, ""), false, true);
            var open := closed.(id := "c", hasBefore := true);
            && multiset([early, closed, open]) == multiset([early, open, closed])
            && |Merged([early, closed, open])| == 1 && |Merged([early, open, closed])| == 2
  {
    var early := Segment("a", Cursor(1, ""), Cursor(2, ""), true, true);
    var closed := Segment("b", Cursor(5, ""), Cursor(6, ""), false, true);
    var open := closed.(id := "c", hasBefore := true);
    ThreeInOrder(early, closed, open);
    ThreeInOrder(early, open, closed);
    assert Touches(early, closed) && Touches(Join(early, closed), open);
    assert !Touches(early, open) && Touches(open, closed);
    assert [early, open][1 := Join(open, closed)] == [early, Join(open, closed)];
  }

  lemma ThreeInOrder(a: Segment, b: Segment, c: Segment)
    requires a.start.createdAt < b.start.createdAt && b.start == c.start
    ensures Merged([a, b, c]) == Append(Append([a], b), c)
  {
    CompareOrders(b.start, b.start);
    forall i, j | 0 <= i < j < 3 ensures AtMost(StartOf([a, b, c][i]), StartOf([a, b, c][j])) {}
    OrderedStays([a, b, c], StartOf);
    MergeOfThree(a, b, c);
  }

  lemma MergeOfThree(a: Segment, b: Segment, c: Segment)
    ensures Merge([a, b, c]) == Append(Append([a], b), c)
  {
    assert [a, b, c][..2] == [a, b] && [a, b][..1] == [a] && [a][..0] == [];
    assert Merge([a]) == Append([], a);
    assert Merge([a, b]) == Append([a], b);
  }
}
