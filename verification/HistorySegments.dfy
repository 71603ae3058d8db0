/** Loaded stretches of a conversation and the gaps between them. */
module HistorySegments {
  import opened HistoryCursors
  import Sorting

  datatype Segment = Segment(id: string, start: Cursor, end: Cursor, hasBefore: bool, hasAfter: bool)

  datatype Gap = Gap(id: string, after: Cursor, before: Cursor)

  function StartOf(s: Segment): Cursor { s.start }

  /** The next segment in order extends, touches or leaves the last merged one. */
  predicate Touches(previous: Segment, s: Segment) {
    AtMost(s.start, previous.end) || !previous.hasAfter || !s.hasBefore
  }

  function Join(previous: Segment, s: Segment): Segment {
    var extendsLeft, extendsRight := Compare(s.start, previous.start) < 0, Compare(s.end, previous.end) > 0;
    var sameStart, sameEnd := Compare(s.start, previous.start) == 0, Compare(s.end, previous.end) == 0;
    Segment(if previous.id == s.id then previous.id else previous.id + "+" + s.id,
            if extendsLeft then s.start else previous.start,
            if extendsRight then s.end else previous.end,
            if extendsLeft then s.hasBefore
            else if sameStart then previous.hasBefore || s.hasBefore
            else previous.hasBefore,
            if extendsRight then s.hasAfter else if sameEnd then previous.hasAfter || s.hasAfter else previous.hasAfter)
  }

  function Append(merged: seq<Segment>, s: Segment): seq<Segment> {
    if merged == [] then [s]
    else if Touches(merged[|merged| - 1], s) then merged[|merged| - 1 := Join(merged[|merged| - 1], s)]
    else merged + [s]
  }

  function Merge(ordered: seq<Segment>): seq<Segment> {
    if ordered == [] then [] else Append(Merge(ordered[..|ordered| - 1]), ordered[|ordered| - 1])
  }

  function Merged(segments: seq<Segment>): seq<Segment> { Merge(SortBy(segments, StartOf)) }

  method MergeSegments(segments: seq<Segment>) returns (merged: seq<Segment>)
    ensures merged == Merged(segments)
  {
    hide Touches, Join;
    var ordered := SortBy(segments, StartOf);
    merged := [];
    for i := 0 to |ordered|
      invariant merged == Merge(ordered[..i])
    {
      var s := ordered[i];
      assert ordered[..i + 1][..i] == ordered[..i];
      if merged == [] {
        merged := [s];
      } else {
        var previous := merged[|merged| - 1];
        if Touches(previous, s) {
          merged := merged[|merged| - 1 := Join(previous, s)];
        } else {
          merged := merged + [s];
        }
      }
    }
    assert ordered[..|ordered|] == ordered;
  }

  // ---- what merging leaves

  ghost predicate Apart(a: Segment, b: Segment) { Before(a.end, b.start) && a.hasAfter && b.hasBefore }

  ghost predicate ApartAt(merged: seq<Segment>, j: int)
    requires 0 < j < |merged|
  {
    Apart(merged[j - 1], merged[j])
  }

  /** Neighbours are apart, and both sides of the space between them are marked open. */
  ghost predicate Separated(merged: seq<Segment>) {
    && (forall j | 0 < j < |merged| :: ApartAt(merged, j))
    && (forall i, j | 0 <= i < j < |merged| :: AtMost(merged[i].start, merged[j].start))
  }

  ghost predicate StartsBy(merged: seq<Segment>, c: Cursor) {
    forall k | 0 <= k < |merged| :: AtMost(merged[k].start, c)
  }

  /** Joining a later segment keeps the start and takes the farther end, with the flag of whichever reaches it. */
  lemma JoinFacts(previous: Segment, s: Segment)
    requires AtMost(previous.start, s.start)
    ensures var joined := Join(previous, s);
            && joined.start == previous.start
            && (previous.hasBefore ==> joined.hasBefore)
            && AtMost(previous.end, joined.end) && AtMost(s.end, joined.end)
            && (joined.end == previous.end || joined.end == s.end)
            && (!joined.hasAfter ==>
                  (joined.end == previous.end && !previous.hasAfter) || (joined.end == s.end && !s.hasAfter))
  {
    CompareOrders(s.start, previous.start);
    CompareOrders(s.end, previous.end);
    CompareOrders(previous.end, s.end);
    CompareOrders(previous.end, previous.end);
  }

  lemma AppendSeparates(merged: seq<Segment>, s: Segment)
    requires Separated(merged) && StartsBy(merged, s.start)
    ensures Separated(Append(merged, s)) && StartsBy(Append(merged, s), s.start)
  {
    CursorOrder();
    hide Before, AtMost, Join;
    assert AtMost(s.start, s.start);
    if merged != [] {
      var n, previous, out := |merged| - 1, merged[|merged| - 1], Append(merged, s);
      JoinFacts(previous, s);
      if Touches(previous, s) {
        assert out == merged[n := Join(previous, s)];
        assert forall k | 0 <= k < |merged| ::
          out[k].start == merged[k].start && (merged[k].hasBefore ==> out[k].hasBefore);
        assert StartsBy(out, s.start);
        forall j | 0 < j < |out| ensures ApartAt(out, j) { assert ApartAt(merged, j); }
      } else {
        assert Before(previous.end, s.start);
        forall j | 0 < j < |merged| ensures ApartAt(out, j) { assert ApartAt(merged, j); }
      }
    }
  }

  lemma {:induction false} MergeSeparates(ordered: seq<Segment>)
    requires Ordered(ordered, StartOf)
    ensures Separated(Merge(ordered))
    ensures ordered != [] ==> Merge(ordered) != [] && StartsBy(Merge(ordered), ordered[|ordered| - 1].start)
  {
    hide Append, Separated, AtMost;
    if ordered != [] {
      var front, s := ordered[..|ordered| - 1], ordered[|ordered| - 1];
      MergeSeparates(front);
      if front == [] {
        assert Separated([]) && StartsBy([], s.start) by { StartIsSeparated(s.start); }
      } else {
        assert AtMost(StartOf(front[|front| - 1]), StartOf(s));
        LaterStart(Merge(front), front[|front| - 1].start, s.start);
      }
      AppendSeparates(Merge(front), s);
      AppendIsNonEmpty(Merge(front), s);
    }
    if ordered == [] { StartIsSeparated(Cursor(0, "")); }
  }

  lemma StartIsSeparated(c: Cursor)
    ensures Separated([]) && StartsBy([], c)
  {
  }

  lemma AppendIsNonEmpty(merged: seq<Segment>, s: Segment)
    ensures Append(merged, s) != [] && |Append(merged, s)| <= |merged| + 1
  {
  }

  lemma LaterStart(merged: seq<Segment>, b: Cursor, c: Cursor)
    requires StartsBy(merged, b) && AtMost(b, c)
    ensures StartsBy(merged, c)
  {
    CursorOrder();
    hide Before, AtMost;
    forall k | 0 <= k < |merged| ensures AtMost(merged[k].start, c) { assert AtMost(merged[k].start, b); }
  }

  lemma SeparatedPrefix(merged: seq<Segment>)
    requires Separated(merged) && merged != []
    ensures Separated(merged[..|merged| - 1])
    ensures |merged| > 1 ==> Apart(merged[|merged| - 2], merged[|merged| - 1])
  {
    hide Apart, AtMost;
    var front := merged[..|merged| - 1];
    forall j | 0 < j < |front| ensures ApartAt(front, j) { assert ApartAt(merged, j); }
    if |merged| > 1 { assert ApartAt(merged, |merged| - 1); }
  }

  lemma {:induction false} SeparatedStays(merged: seq<Segment>)
    requires Separated(merged)
    ensures Merge(merged) == merged
  {
    hide Separated, Apart, Touches;
    if merged != [] {
      var n := |merged| - 1;
      SeparatedPrefix(merged);
      SeparatedStays(merged[..n]);
      if n > 0 { ApartDoNotTouch(merged[n - 1], merged[n]); }
    }
  }

  lemma ApartDoNotTouch(a: Segment, b: Segment)
    requires Apart(a, b)
    ensures !Touches(a, b)
  {
    CompareOrders(b.start, a.end);
    CompareOrders(a.end, b.start);
  }

  /** What merging returns is apart, open on every facing side, and merging it again changes nothing. */
  lemma MergedIsStable(segments: seq<Segment>)
    ensures Separated(Merged(segments)) && Merged(Merged(segments)) == Merged(segments)
  {
    hide Separated, Merge;
    SortOrders(segments, StartOf);
    MergeSeparates(SortBy(segments, StartOf));
    assert Ordered(Merged(segments), StartOf) by { SeparatedIsOrdered(Merged(segments)); }
    OrderedStays(Merged(segments), StartOf);
    SeparatedStays(Merged(segments));
  }

  lemma SeparatedIsOrdered(merged: seq<Segment>)
    requires Separated(merged)
    ensures Ordered(merged, StartOf)
  {
    hide AtMost;
  }

  // ---- gaps

  function GapBetween(left: Segment, right: Segment): Gap {
    Gap("gap:" + left.id + ":" + right.id, left.end, right.start)
  }

  function Gaps(ordered: seq<Segment>): seq<Gap> {
    if |ordered| < 2 then [] else
      var left, right := ordered[|ordered| - 2], ordered[|ordered| - 1];
      var gaps := Gaps(ordered[..|ordered| - 1]);
      if !left.hasAfter || !right.hasBefore || !Before(left.end, right.start) then gaps
      else gaps + [GapBetween(left, right)]
  }

  method DeriveHistoryGaps(segments: seq<Segment>) returns (gaps: seq<Gap>)
    ensures gaps == Gaps(Merged(segments))
  {
    hide Merged, Before;
    var ordered := MergeSegments(segments);
    gaps := [];
    var i := 0;
    while i < |ordered| - 1
      invariant if ordered == [] then i == 0 && gaps == [] else 0 <= i < |ordered| && gaps == Gaps(ordered[..i + 1])
    {
      var left, right := ordered[i], ordered[i + 1];
      assert ordered[..i + 2][..i + 1] == ordered[..i + 1];
      CompareOrders(left.end, right.start);
      if left.hasAfter && right.hasBefore && Before(left.end, right.start) {
        gaps := gaps + [GapBetween(left, right)];
      }
      i := i + 1;
    }
    if ordered != [] { assert ordered[..i + 1] == ordered; }
  }

  lemma {:induction false} EverySpaceIsAGap(merged: seq<Segment>)
    requires Separated(merged)
    ensures |Gaps(merged)| == (if merged == [] then 0 else |merged| - 1)
    ensures forall i | 0 <= i < |Gaps(merged)| :: Gaps(merged)[i] == GapBetween(merged[i], merged[i + 1])
  {
    hide Separated, GapBetween;
    if |merged| >= 2 {
      SeparatedPrefix(merged);
      EverySpaceIsAGap(merged[..|merged| - 1]);
    }
  }

  // ---- gap soundness

  ghost predicate Proper(segments: seq<Segment>) { forall s | s in segments :: AtMost(s.start, s.end) }

  ghost predicate Inside(s: Segment, c: Cursor) { AtMost(s.start, c) && AtMost(c, s.end) }

  /**
   * The segments tell the truth about the rows not loaded: none lies inside a segment, none between a segment without
   * `hasAfter` and the next start beyond it, none between a segment without `hasBefore` and the last end before it.
   */
  ghost predicate Truthful(segments: seq<Segment>, unloaded: iset<Cursor>) {
    && (forall s, r | s in segments && r in unloaded :: !Inside(s, r))
    && (forall s, t, r | s in segments && t in segments && r in unloaded && !s.hasAfter && Before(s.end, r)
        && Before(r, t.start) ::
          exists u | u in segments :: Before(s.end, u.start) && AtMost(u.start, r))
    && (forall s, t, r | s in segments && t in segments && r in unloaded && !s.hasBefore && Before(t.end, r)
        && Before(r, s.start) ::
          exists u | u in segments :: Before(u.end, s.start) && AtMost(r, u.end))
  }

  ghost predicate Solid(merged: seq<Segment>, unloaded: iset<Cursor>) {
    forall m, r | m in merged && r in unloaded :: !Inside(m, r)
  }

  ghost predicate Holds(merged: seq<Segment>, s: Segment) {
    exists m | m in merged :: AtMost(m.start, s.start) && AtMost(s.end, m.end)
  }

  /** The end reached so far is the farthest one, with its flag. */
  ghost predicate Reaches(last: Segment, done: seq<Segment>) {
    && (exists s | s in done :: s.end == last.end)
    && (!last.hasAfter ==> exists s | s in done :: s.end == last.end && !s.hasAfter)
    && (forall s | s in done :: AtMost(s.end, last.end))
  }

  ghost predicate Spans(merged: seq<Segment>, done: seq<Segment>) {
    if done == [] then merged == []
    else merged != [] && merged[0].start == done[0].start && Reaches(merged[|merged| - 1], done)
  }

  /** Between the merged end and a segment that touches it there is nothing unloaded. */
  lemma NothingBetween(segments: seq<Segment>, done: seq<Segment>, s: Segment, last: Segment, r: Cursor,
                       unloaded: iset<Cursor>)
    requires Proper(segments) && Truthful(segments, unloaded) && r in unloaded && s in segments
    requires forall u | u in segments :: u in done || AtMost(s.start, u.start)
    requires (forall u | u in done :: u in segments) && Reaches(last, done)
    requires !last.hasAfter || !s.hasBefore
    ensures !(Before(last.end, r) && Before(r, s.start))
  {
    CursorOrder();
    hide Before, AtMost;
  }

  lemma JoinHidesNothing(segments: seq<Segment>, done: seq<Segment>, s: Segment, previous: Segment, r: Cursor,
                         unloaded: iset<Cursor>)
    requires Proper(segments) && Truthful(segments, unloaded) && r in unloaded && s in segments
    requires forall u | u in segments :: u in done || AtMost(s.start, u.start)
    requires (forall u | u in done :: u in segments) && Reaches(previous, done)
    requires AtMost(previous.start, s.start) && Touches(previous, s) && !Inside(previous, r)
    ensures !Inside(Join(previous, s), r)
  {
    CursorOrder();
    JoinFacts(previous, s);
    if !AtMost(s.start, previous.end) { NothingBetween(segments, done, s, previous, r, unloaded); }
    assert !Inside(s, r);
    hide Before, AtMost, Join, Truthful, Proper, Reaches;
  }

  lemma AppendHidesNothing(segments: seq<Segment>, merged: seq<Segment>, done: seq<Segment>, s: Segment,
                           unloaded: iset<Cursor>)
    requires Proper(segments) && Truthful(segments, unloaded) && s in segments
    requires forall u | u in segments :: u in done || AtMost(s.start, u.start)
    requires forall u | u in done :: u in segments
    requires Solid(merged, unloaded) && Spans(merged, done) && StartsBy(merged, s.start)
    ensures Solid(Append(merged, s), unloaded)
  {
    hide AtMost, Join, Truthful, Touches, Inside, Proper, Reaches;
    NotInside(segments, s, unloaded);
    if merged != [] {
      var previous := merged[|merged| - 1];
      if Touches(previous, s) {
        var joined := Join(previous, s);
        assert AtMost(previous.start, s.start);
        forall r | r in unloaded ensures !Inside(joined, r) {
          JoinHidesNothing(segments, done, s, previous, r, unloaded);
        }
        assert forall m | m in Append(merged, s) :: m in merged || m == joined;
      } else {
        assert forall m | m in Append(merged, s) :: m in merged || m == s;
      }
    }
  }

  lemma JoinReaches(previous: Segment, done: seq<Segment>, s: Segment)
    requires Reaches(previous, done) && AtMost(previous.start, s.start)
    ensures Reaches(Join(previous, s), done + [s])
  {
    CursorOrder();
    JoinFacts(previous, s);
    hide Before, AtMost, Join;
    var joined, done' := Join(previous, s), done + [s];
    assert s in done' && forall u | u in done' :: u in done || u == s;
    assert forall u | u in done :: u in done';
  }

  lemma AppendSpans(merged: seq<Segment>, done: seq<Segment>, s: Segment)
    requires Spans(merged, done) && StartsBy(merged, s.start) && AtMost(s.start, s.end)
    ensures Spans(Append(merged, s), done + [s])
  {
    hide AtMost, Join, Touches, Reaches;
    var out, done' := Append(merged, s), done + [s];
    if merged == [] {
      assert out == [s] == done';
      FirstReaches(s);
    } else {
      var previous := merged[|merged| - 1];
      assert AtMost(previous.start, s.start);
      if Touches(previous, s) {
        JoinReaches(previous, done, s);
        JoinFacts(previous, s);
      } else {
        PushReaches(previous, done, s);
      }
    }
  }

  lemma FirstReaches(s: Segment)
    ensures Reaches(s, [s])
  {
    CompareOrders(s.end, s.end);
  }

  lemma PushReaches(previous: Segment, done: seq<Segment>, s: Segment)
    requires Reaches(previous, done) && !Touches(previous, s) && AtMost(s.start, s.end)
    ensures Reaches(s, done + [s])
  {
    CursorOrder();
    NotTouching(previous, s);
    hide Before, AtMost, Touches;
    assert s in done + [s] && forall u | u in done + [s] :: u in done || u == s;
  }

  lemma AppendHolds(merged: seq<Segment>, s: Segment, u: Segment)
    requires StartsBy(merged, s.start) && (u == s || Holds(merged, u))
    ensures Holds(Append(merged, s), u)
  {
    CursorOrder();
    hide Before, AtMost, Join, Touches;
    var out := Append(merged, s);
    if merged == [] {
      assert s in out;
    } else {
      var n, previous := |merged| - 1, merged[|merged| - 1];
      JoinFacts(previous, s);
      if u == s {
        assert out[|out| - 1] in out;
      } else {
        var m :| m in merged && AtMost(m.start, u.start) && AtMost(u.end, m.end);
        var k :| 0 <= k < |merged| && merged[k] == m;
        assert out[k] in out;
      }
    }
  }

  lemma {:induction false} MergeCovers(segments: seq<Segment>, done: seq<Segment>, rest: seq<Segment>,
                                       unloaded: iset<Cursor>)
    requires Proper(segments) && Truthful(segments, unloaded) && Ordered(done + rest, StartOf)
    requires forall s :: s in segments <==> s in done + rest
    ensures Solid(Merge(done), unloaded) && Spans(Merge(done), done) && (forall s | s in done :: Holds(Merge(done), s))
    decreases |done|
  {
    hide Append, AtMost, Truthful, Solid, Spans, Holds, Ordered;
    if done == [] {
      assert Solid([], unloaded) && Spans([], []) by { NothingCovered(unloaded); }
    } else {
      var n := |done| - 1;
      var front, s := done[..n], done[n];
      assert done + rest == front + ([s] + rest);
      MergeCovers(segments, front, [s] + rest, unloaded);
      StartsOfOrdered(front, s, rest);
      assert s in done + rest && forall u | u in front :: u in done + rest by { assert done[n] in done; }
      AppendHidesNothing(segments, Merge(front), front, s, unloaded);
      AppendSpans(Merge(front), front, s);
      assert front + [s] == done;
      forall u | u in done ensures Holds(Merge(done), u) { AppendHolds(Merge(front), s, u); }
    }
  }

  lemma NothingCovered(unloaded: iset<Cursor>)
    ensures Solid([], unloaded) && Spans([], [])
  {
  }

  lemma StartsOfOrdered(front: seq<Segment>, s: Segment, rest: seq<Segment>)
    requires Ordered(front + ([s] + rest), StartOf)
    ensures StartsBy(Merge(front), s.start)
    ensures forall u | u in front + ([s] + rest) :: u in front || AtMost(s.start, u.start)
  {
    var all, n := front + ([s] + rest), |front|;
    hide Merge, AtMost;
    assert all[n] == s;
    forall u | u in all ensures u in front || AtMost(s.start, u.start) {
      var k :| 0 <= k < |all| && all[k] == u;
      if k < n {
        assert front[k] == u;
      } else if k > n {
        assert AtMost(StartOf(all[n]), StartOf(all[k]));
      } else {
        CompareOrders(s.start, s.start);
      }
    }
    forall i, j | 0 <= i < j < n ensures AtMost(StartOf(front[i]), StartOf(front[j])) {
      assert AtMost(StartOf(all[i]), StartOf(all[j]));
    }
    assert Ordered(front, StartOf);
    MergeSeparates(front);
    if n > 0 {
      assert AtMost(StartOf(all[n - 1]), StartOf(all[n]));
      LaterStart(Merge(front), front[n - 1].start, s.start);
    } else {
      assert Merge(front) == [] by { MergeNothing(); }
    }
  }

  lemma MergeNothing()
    ensures Merge([]) == []
  {
  }

  lemma NotInside(segments: seq<Segment>, s: Segment, unloaded: iset<Cursor>)
    requires Truthful(segments, unloaded) && s in segments
    ensures forall r | r in unloaded :: !Inside(s, r)
  {
  }

  lemma NotTouching(previous: Segment, s: Segment)
    requires !Touches(previous, s)
    ensures Before(previous.end, s.start)
  {
    CompareOrders(previous.end, s.start);
    CompareOrders(s.start, previous.end);
  }

  lemma {:induction false} MergeIsProper(ordered: seq<Segment>)
    requires Ordered(ordered, StartOf) && Proper(ordered)
    ensures Proper(Merge(ordered))
  {
    CursorOrder();
    hide Before, AtMost, Join, Touches;
    if ordered != [] {
      var n := |ordered| - 1;
      var front, s := ordered[..n], ordered[n];
      MergeIsProper(front);
      assert front + ([s] + []) == ordered && s in ordered;
      StartsOfOrdered(front, s, []);
      var merged := Merge(front);
      if merged != [] {
        JoinFacts(merged[|merged| - 1], s);
        assert merged[|merged| - 1] in merged;
      }
    }
  }

  /** Everything the later proofs need to know about the merged segments. */
  lemma MergedFacts(segments: seq<Segment>, unloaded: iset<Cursor>)
    requires Proper(segments) && Truthful(segments, unloaded)
    ensures var m := Merged(segments);
            && Separated(m) && Proper(m) && Solid(m, unloaded) && (forall s | s in segments :: Holds(m, s))
            && (segments != [] ==>
                  && m != []
                  && forall s | s in segments :: AtMost(m[0].start, s.start) && AtMost(s.end, m[|m| - 1].end))
  {
    hide AtMost, Merge, Truthful, Separated, Holds, Solid, Ordered, SortBy;
    var ordered := SortBy(segments, StartOf);
    SortOrders(segments, StartOf);
    forall s ensures s in segments <==> s in ordered { SortHas(segments, StartOf, s); }
    assert ordered + [] == ordered;
    MergeSeparates(ordered);
    MergeIsProper(ordered);
    MergeCovers(segments, ordered, [], unloaded);
    if segments != [] {
      assert segments[0] in ordered;
      assert Reaches(Merge(ordered)[|Merge(ordered)| - 1], ordered);
      forall s | s in segments ensures AtMost(ordered[0].start, s.start) { FirstStart(ordered, s); }
    }
  }

  lemma FirstStart(ordered: seq<Segment>, s: Segment)
    requires Ordered(ordered, StartOf) && s in ordered
    ensures AtMost(ordered[0].start, s.start)
  {
    hide AtMost;
    var k :| 0 <= k < |ordered| && ordered[k] == s;
    if k > 0 { assert AtMost(StartOf(ordered[0]), StartOf(ordered[k])); } else { CompareOrders(s.start, s.start); }
  }

  /** The last merged segment that starts by `r`. */
  lemma LastStart(m: seq<Segment>, r: Cursor) returns (i: nat)
    requires m != [] && AtMost(m[0].start, r)
    ensures i < |m| && AtMost(m[i].start, r) && (i + 1 < |m| ==> !AtMost(m[i + 1].start, r))
  {
    i := 0;
    while i + 1 < |m| && AtMost(m[i + 1].start, r)
      invariant i < |m| && AtMost(m[i].start, r)
    {
      i := i + 1;
    }
  }

  ghost predicate Within(g: Gap, c: Cursor) { Before(g.after, c) && Before(c, g.before) }

  /** A place between merged segment i and the next is outside every other space. */
  lemma OneSpace(m: seq<Segment>, r: Cursor, i: nat, j: nat)
    requires Separated(m) && Proper(m) && i + 1 < |m| && j + 1 < |m| && i != j
    requires AtMost(m[i].start, r) && !AtMost(m[i + 1].start, r)
    ensures !Within(GapBetween(m[j], m[j + 1]), r)
  {
    CursorOrder();
    hide Before, AtMost;
    if j < i {
      if j + 1 < i { assert AtMost(m[j + 1].start, m[i].start); }
    } else {
      assert m[j] in m;
      if i + 1 < j { assert AtMost(m[i + 1].start, m[j].start); }
    }
  }

  /**
   * No unloaded row is hidden: with truthful segments, every unloaded row from the first start to the last end lies
   * strictly inside exactly one derived gap.
   */
  lemma EveryUnloadedRowIsInOneGap(segments: seq<Segment>, unloaded: iset<Cursor>, r: Cursor, s: Segment, t: Segment)
    requires Proper(segments) && Truthful(segments, unloaded) && r in unloaded
    requires s in segments && t in segments && AtMost(s.start, r) && AtMost(r, t.end)
    ensures var gaps := Gaps(Merged(segments));
            exists i | 0 <= i < |gaps| :: Within(gaps[i], r) && forall j | 0 <= j < |gaps| && j != i ::
              !Within(gaps[j], r)
  {
    hide Before, AtMost, Truthful, Merged, Gaps, Separated;
    var m, gaps := Merged(segments), Gaps(Merged(segments));
    MergedFacts(segments, unloaded);
    EverySpaceIsAGap(m);
    CursorOrder();
    assert AtMost(m[0].start, s.start) && AtMost(t.end, m[|m| - 1].end);
    var i := LastStart(m, r);
    assert m[i] in m && !Inside(m[i], r);
    assert i + 1 < |m|;
    assert Within(gaps[i], r);
    forall j | 0 <= j < |gaps| && j != i ensures !Within(gaps[j], r) { OneSpace(m, r, i, j); }
  }

  /** No gap reaches into a loaded segment. */
  lemma NoLoadedRowIsInAGap(segments: seq<Segment>, s: Segment, c: Cursor, i: nat)
    requires Proper(segments) && s in segments && Inside(s, c) && i < |Gaps(Merged(segments))|
    ensures !Within(Gaps(Merged(segments))[i], c)
  {
    assert Truthful(segments, iset{});
    hide Before, AtMost, Truthful, Merged, Gaps, Separated, Proper, Solid, GapBetween, Within;
    var m := Merged(segments);
    MergedFacts(segments, iset{});
    EverySpaceIsAGap(m);
    assert Holds(m, s);
    var x :| x in m && AtMost(x.start, s.start) && AtMost(s.end, x.end);
    var k :| 0 <= k < |m| && m[k] == x;
    InsideTheLarger(m[k], s, c);
    OutsideTheSpaces(m, k, i, c);
  }

  lemma InsideTheLarger(m: Segment, s: Segment, c: Cursor)
    requires AtMost(m.start, s.start) && AtMost(s.end, m.end) && Inside(s, c)
    ensures Inside(m, c)
  {
    CursorOrder();
    hide Before, AtMost;
  }

  lemma OutsideTheSpaces(m: seq<Segment>, k: nat, i: nat, c: Cursor)
    requires Separated(m) && Proper(m) && k < |m| && i + 1 < |m| && AtMost(m[k].start, c) && AtMost(c, m[k].end)
    ensures !Within(GapBetween(m[i], m[i + 1]), c)
  {
    CursorOrder();
    hide Before, AtMost;
    if k <= i {
      EndsRise(m, k, i);
    } else if i + 1 < k {
      assert AtMost(m[i + 1].start, m[k].start);
    }
  }

  lemma {:induction false} EndsRise(m: seq<Segment>, k: nat, i: nat)
    requires Separated(m) && Proper(m) && k <= i < |m|
    ensures AtMost(m[k].end, m[i].end)
  {
    CursorOrder();
    hide Before, AtMost;
    if k < i {
      EndsRise(m, k, i - 1);
      assert ApartAt(m, i) && m[i] in m;
    }
  }
}
