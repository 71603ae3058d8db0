/** What each merged segment is: the summary of one run of consecutive segments, all of them accounted for. */
module HistoryRuns {
  import opened HistoryCursors
  import opened HistorySegments

  /** The ids joined in order; joining an id to itself adds nothing. */
  function ChainedId(run: seq<Segment>): string {
    if run == [] then "" else if |run| == 1 then run[0].id else
      var before, last := ChainedId(run[..|run| - 1]), run[|run| - 1].id;
      if before == last then before else before + "+" + last
  }

  ghost predicate OpenBefore(run: seq<Segment>, c: Cursor) {
    exists i | 0 <= i < |run| :: run[i].start == c && run[i].hasBefore
  }

  ghost predicate OpenAfter(run: seq<Segment>, c: Cursor) {
    exists i | 0 <= i < |run| :: run[i].end == c && run[i].hasAfter
  }

  ghost predicate Farthest(run: seq<Segment>, c: Cursor) {
    && (exists i | 0 <= i < |run| :: run[i].end == c)
    && (forall i | 0 <= i < |run| :: AtMost(run[i].end, c))
  }

  /** From the first start to the farthest end, open on either side if some segment that reaches that side is. */
  ghost predicate Summarises(run: seq<Segment>, m: Segment) {
    && run != [] && m.start == run[0].start && Farthest(run, m.end) && m.id == ChainedId(run)
    && (m.hasBefore <==> OpenBefore(run, m.start)) && (m.hasAfter <==> OpenAfter(run, m.end))
  }

  /** Each segment of the run touches what those before it come to. */
  ghost predicate Connected(run: seq<Segment>) { forall i | 0 < i < |run| :: TouchesEarlier(run[..i], run[i]) }

  ghost predicate TouchesEarlier(earlier: seq<Segment>, s: Segment) {
    exists m :: Summarises(earlier, m) && Touches(m, s)
  }

  function Flat(runs: seq<seq<Segment>>): seq<Segment> {
    if runs == [] then [] else Flat(runs[..|runs| - 1]) + runs[|runs| - 1]
  }

  ghost predicate SummarisesAll(runs: seq<seq<Segment>>, merged: seq<Segment>) {
    |runs| == |merged| && forall k | 0 <= k < |runs| :: IsRunOf(runs[k], merged[k])
  }

  ghost predicate IsRunOf(run: seq<Segment>, m: Segment) { Summarises(run, m) && Connected(run) }

  lemma FlatSnoc(runs: seq<seq<Segment>>, run: seq<Segment>)
    ensures Flat(runs + [run]) == Flat(runs) + run
  {
    assert (runs + [run])[..|runs|] == runs;
  }

  /** One more run, or one more segment in the last run. */
  lemma RunsGoOn(runs: seq<seq<Segment>>, merged: seq<Segment>, s: Segment) returns (longer: seq<seq<Segment>>)
    requires SummarisesAll(runs, merged)
    requires merged != [] ==> AtMost(merged[|merged| - 1].start, s.start)
    ensures SummarisesAll(longer, Append(merged, s)) && Flat(longer) == Flat(runs) + [s]
  {
    hide Touches, Join, IsRunOf, AtMost;
    if merged == [] || !Touches(merged[|merged| - 1], s) {
      OneIsARun(s);
      FlatSnoc(runs, [s]);
      longer := runs + [[s]];
    } else {
      var n := |merged| - 1;
      LongerIsARun(runs[n], merged[n], s);
      FlatSnoc(runs[..n], runs[n]);
      FlatSnoc(runs[..n], runs[n] + [s]);
      hide Flat;
      assert runs == runs[..n] + [runs[n]];
      longer := runs[..n] + [runs[n] + [s]];
    }
  }

  lemma OneIsARun(s: Segment)
    ensures IsRunOf([s], s)
  {
    CompareOrders(s.end, s.end);
  }

  lemma LongerIsARun(run: seq<Segment>, m: Segment, s: Segment)
    requires IsRunOf(run, m) && AtMost(m.start, s.start) && Touches(m, s)
    ensures IsRunOf(run + [s], Join(m, s))
  {
    hide Summarises, Connected, Touches, Join;
    JoinSummarises(run, m, s);
    ConnectedSnoc(run, m, s);
  }

  lemma ChainedSnoc(run: seq<Segment>, s: Segment)
    requires run != []
    ensures ChainedId(run + [s]) == if ChainedId(run) == s.id then s.id else ChainedId(run) + "+" + s.id
  {
    assert (run + [s])[..|run|] == run;
  }

  lemma OpenSnoc(run: seq<Segment>, s: Segment, c: Cursor)
    ensures OpenBefore(run + [s], c) <==> OpenBefore(run, c) || (s.start == c && s.hasBefore)
    ensures OpenAfter(run + [s], c) <==> OpenAfter(run, c) || (s.end == c && s.hasAfter)
  {
    var longer := run + [s];
    assert longer[|run|] == s && forall i | 0 <= i < |run| :: longer[i] == run[i];
  }

  /** Nothing of the run reaches beyond its farthest end. */
  lemma BeyondIsClosed(run: seq<Segment>, end: Cursor, c: Cursor)
    requires Farthest(run, end) && Before(end, c)
    ensures !OpenAfter(run, c)
  {
    CompareOrders(end, c);
    forall i | 0 <= i < |run| ensures run[i].end != c { CompareOrders(run[i].end, c); }
  }

  lemma FarthestSnoc(run: seq<Segment>, s: Segment, end: Cursor)
    requires Farthest(run, end)
    ensures Farthest(run + [s], if Compare(s.end, end) > 0 then s.end else end)
  {
    CursorOrder();
    CompareOrders(s.end, end);
    CompareOrders(s.end, s.end);
    var longer, next := run + [s], if Compare(s.end, end) > 0 then s.end else end;
    var k :| 0 <= k < |run| && run[k].end == end;
    assert longer[|run|] == s && longer[k].end == end;
    hide Before, AtMost;
    forall i | 0 <= i < |longer| ensures AtMost(longer[i].end, next) {
      if i < |run| { assert longer[i] == run[i]; }
    }
  }

  /** Joining a later segment that touches goes on with the run. */
  lemma JoinSummarises(run: seq<Segment>, m: Segment, s: Segment)
    requires Summarises(run, m) && AtMost(m.start, s.start)
    ensures Summarises(run + [s], Join(m, s))
  {
    CompareOrders(s.start, m.start);
    CompareOrders(s.end, m.end);
    ChainedSnoc(run, s);
    FarthestSnoc(run, s, m.end);
    var joined := Join(m, s);
    OpenSnoc(run, s, joined.start);
    OpenSnoc(run, s, joined.end);
    if Compare(s.end, m.end) > 0 { BeyondIsClosed(run, m.end, s.end); }
    hide Farthest, OpenBefore, OpenAfter, ChainedId;
    assert (run + [s])[0] == run[0];
  }

  lemma ConnectedSnoc(run: seq<Segment>, m: Segment, s: Segment)
    requires Connected(run) && Summarises(run, m) && Touches(m, s)
    ensures Connected(run + [s])
  {
    assert TouchesEarlier(run, s);
    hide TouchesEarlier;
    var longer := run + [s];
    forall i | 0 < i < |longer| ensures TouchesEarlier(longer[..i], longer[i]) {
      assert longer[..i] == run[..i] && run[..|run|] == run;
    }
  }

  lemma {:induction false} MergedAreRuns(ordered: seq<Segment>) returns (runs: seq<seq<Segment>>)
    requires Ordered(ordered, StartOf)
    ensures Flat(runs) == ordered && SummarisesAll(runs, Merge(ordered)) && Separated(Merge(ordered))
  {
    hide SummarisesAll, Append, Separated, AtMost;
    MergeSeparates(ordered);
    if ordered == [] {
      runs := [];
      assert SummarisesAll([], []) by { NoRuns(); }
    } else {
      var front, s := ordered[..|ordered| - 1], ordered[|ordered| - 1];
      var before := MergedAreRuns(front);
      if Merge(front) != [] { LastStartsBy(ordered); }
      runs := RunsGoOn(before, Merge(front), s);
      assert ordered == front + [s];
    }
  }

  lemma NoRuns()
    ensures SummarisesAll([], []) && Flat([]) == []
  {
  }

  /** The last merged segment so far starts by the next start. */
  lemma LastStartsBy(ordered: seq<Segment>)
    requires ordered != [] && Ordered(ordered, StartOf) && Merge(ordered[..|ordered| - 1]) != []
    ensures var merged := Merge(ordered[..|ordered| - 1]);
            AtMost(merged[|merged| - 1].start, ordered[|ordered| - 1].start)
  {
    CursorOrder();
    var front := ordered[..|ordered| - 1];
    if front != [] {
      hide AtMost, Before, Merge;
      MergeSeparates(front);
      assert AtMost(StartOf(front[|front| - 1]), StartOf(ordered[|ordered| - 1]));
    }
  }

  /**
   * Whatever the segments: those in order fall into consecutive runs, one for each merged segment, each of segments
   * that touch what came before. The merged segment goes from its run's first start to the farthest end, open on a side
   * if and only if some segment that reaches that side is open there; and between two of them there is a space that
   * both leave open.
   */
  lemma EachMergedSegmentIsARun(segments: seq<Segment>) returns (runs: seq<seq<Segment>>)
    ensures multiset(Flat(runs)) == multiset(segments) && Ordered(Flat(runs), StartOf)
    ensures SummarisesAll(runs, Merged(segments)) && Separated(Merged(segments))
  {
    hide SummarisesAll, Separated, Merge;
    SortOrders(segments, StartOf);
    runs := MergedAreRuns(SortBy(segments, StartOf));
  }
}
