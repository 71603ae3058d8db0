/** The canonical form is a fixed point, unpacks without refusal, and survives unpacking and packing. */
module ArchiveLaws {
  import opened Prelude
  import opened Texts
  import opened Archive
  import Sorting

  // ---- what the scan accepts

  function Total(es: seq<Entry>): nat { if es == [] then 0 else Total(es[..|es| - 1]) + |es[|es| - 1].content| }

  ghost predicate EntryOk(e: Entry) { SafePath(e.path) && |e.content| <= MAX_FILE && (e.directory ==> e.content == []) }

  ghost predicate DistinctPaths(es: seq<Entry>) { forall i, j | 0 <= i < j < |es| :: es[i].path != es[j].path }

  function Paths(es: seq<Entry>): set<Path> { set e | e in es :: e.path }

  /** Within the limits, whatever lies above what. */
  ghost predicate Bounded(es: seq<Entry>) {
    && (forall e | e in es :: EntryOk(e)) && DistinctPaths(es) && |es| <= MAX_FILES && Total(es) <= MAX_WORKSPACE
  }

  ghost predicate Canon(es: seq<Entry>) { Bounded(es) && !Collides(es) }

  lemma PathsSnoc(front: seq<Entry>, e: Entry)
    ensures Paths(front + [e]) == Paths(front) + {e.path}
  {
    assert forall x :: x in front + [e] <==> x in front || x == e;
  }

  lemma DistinctSnoc(front: seq<Entry>, e: Entry)
    ensures DistinctPaths(front + [e]) <==> DistinctPaths(front) && e.path !in Paths(front)
  {
    var es, n := front + [e], |front|;
    assert es[n] == e && forall i | 0 <= i < n :: es[i] == front[i];
    if DistinctPaths(es) {
      forall x | x in front ensures x.path != e.path {
        var i :| 0 <= i < n && front[i] == x;
        assert es[i].path != es[n].path;
      }
      forall i, j | 0 <= i < j < n ensures front[i].path != front[j].path { assert es[i].path != es[j].path; }
    }
    if DistinctPaths(front) && e.path !in Paths(front) {
      forall i, j | 0 <= i < j < |es| ensures es[i].path != es[j].path {
        if j == n { assert front[i] in front; } else { assert front[i].path != front[j].path; }
      }
    }
  }

  lemma BoundedSnoc(front: seq<Entry>, e: Entry)
    ensures Bounded(front + [e]) <==> && Bounded(front) && EntryOk(e) && e.path !in Paths(front) && |front| < MAX_FILES
                                      && Total(front) + |e.content| <= MAX_WORKSPACE
    ensures Total(front + [e]) == Total(front) + |e.content|
  {
    DistinctSnoc(front, e);
    var es := front + [e];
    assert es[..|front|] == front;
    assert forall x :: x in es <==> x in front || x == e;
    hide EntryOk, DistinctPaths, Paths;
  }

  lemma {:induction false} PathsSize(es: seq<Entry>)
    requires DistinctPaths(es)
    ensures |Paths(es)| == |es|
  {
    if es != [] {
      var front, last := es[..|es| - 1], es[|es| - 1];
      assert es == front + [last];
      DistinctSnoc(front, last);
      PathsSnoc(front, last);
      PathsSize(front);
    }
  }

  lemma KeepIsBounded(s: Scan, name: Path, item: Item)
    requires Keep(s, name, item).Some? && Bounded(s.entries) && s.seen == Paths(s.entries)
             && s.total == Total(s.entries)
    ensures var s' := Keep(s, name, item).value;
            Bounded(s'.entries) && s'.seen == Paths(s'.entries) && s'.total == Total(s'.entries)
  {
    hide SafePath, Paths, Total, DistinctPaths;
    var e := Entry(name, item.kind.Directory?, if item.kind.Regular? then item.content else []);
    PathsSize(s.entries);
    BoundedSnoc(s.entries, e);
    PathsSnoc(s.entries, e);
  }

  lemma {:induction false} ScanIsBounded(items: seq<Item>, exported: bool)
    requires ScanAll(items, exported).Some?
    ensures var s := ScanAll(items, exported).value;
            Bounded(s.entries) && s.seen == Paths(s.entries) && s.total == Total(s.entries)
  {
    hide Keep, Bounded, Total;
    if items == [] {
      NothingIsBounded();
    } else {
      var front, item := items[..|items| - 1], items[|items| - 1];
      ScanIsBounded(front, exported);
      var s := ScanAll(front, exported).value;
      var inner := if exported && |Clean(item.path)| > 0 then Clean(item.path)[1..] else Clean(item.path);
      if Keep(s, inner, item).Some? { KeepIsBounded(s, inner, item); }
    }
  }

  lemma NothingIsBounded()
    ensures Bounded([]) && Paths([]) == {} && Total([]) == 0
  {
  }

  // ---- a bounded list of entries is scanned as it is

  lemma SafeIsClean(p: Path, kind: Kind)
    requires SafePath(p)
    ensures Clean(p) == p && !Skipped(p, kind)
  {
    assert p[0] in p && p[|p| - 1] in p;
    assert SafePart(p[0]) && SafePart(p[|p| - 1]);
  }

  lemma KeepReadsBack(front: seq<Entry>, e: Entry)
    requires Bounded(front + [e])
    ensures ScanItem(Scan(front, Paths(front), Total(front)), AsItem(e), false)
            == Some(Scan(front + [e], Paths(front + [e]), Total(front + [e])))
  {
    hide SafePath, Paths, Total, DistinctPaths, Clean;
    BoundedSnoc(front, e);
    PathsSnoc(front, e);
    PathsSize(front);
    SafeIsClean(e.path, AsItem(e).kind);
  }

  lemma {:induction false} ScanReadsBack(es: seq<Entry>)
    requires Bounded(es)
    ensures ScanAll(AsItems(es), false) == Some(Scan(es, Paths(es), Total(es)))
  {
    hide Bounded, Paths, Total, ScanItem;
    if es == [] {
      assert AsItems(es) == [];
      NothingIsBounded();
    } else {
      var front, last := es[..|es| - 1], es[|es| - 1];
      assert es == front + [last];
      BoundedSnoc(front, last);
      ScanReadsBack(front);
      KeepReadsBack(front, last);
      assert AsItems(es)[..|es| - 1] == AsItems(front) && AsItems(es)[|es| - 1] == AsItem(last);
    }
  }

  // ---- sorting

  lemma {:induction false} InsertTotal(e: Entry, es: seq<Entry>)
    ensures Total(Sorting.InsertBy(e, es, NameOf, TextLess)) == Total(es) + |e.content|
  {
    if es == [] {
      assert [e][..0] == [];
    } else if TextLess(NameOf(e), NameOf(es[0])) {
      TotalSplits([e], es);
      assert [e][..0] == [];
    } else {
      InsertTotal(e, es[1..]);
      TotalSplits([es[0]], es[1..]);
      TotalSplits([es[0]], Sorting.InsertBy(e, es[1..], NameOf, TextLess));
      assert es == [es[0]] + es[1..];
    }
  }

  lemma {:induction false} TotalSplits(a: seq<Entry>, b: seq<Entry>)
    ensures Total(a + b) == Total(a) + Total(b)
  {
    if b == [] {
      assert a + b == a;
    } else {
      assert (a + b)[..|a + b| - 1] == a + b[..|b| - 1];
      TotalSplits(a, b[..|b| - 1]);
    }
  }

  lemma {:induction false} SortTotal(es: seq<Entry>)
    ensures Total(Sorted(es)) == Total(es)
  {
    if es != [] {
      SortTotal(es[..|es| - 1]);
      InsertTotal(es[|es| - 1], Sorted(es[..|es| - 1]));
    }
  }

  /** A list with as many distinct paths as entries repeats none. */
  lemma {:induction false} DistinctByCount(es: seq<Entry>)
    requires |Paths(es)| == |es|
    ensures DistinctPaths(es)
  {
    if es != [] {
      var front, last := es[..|es| - 1], es[|es| - 1];
      assert es == front + [last];
      PathsSnoc(front, last);
      PathsAtMost(front);
      DistinctByCount(front);
      DistinctSnoc(front, last);
    }
  }

  lemma {:induction false} PathsAtMost(es: seq<Entry>)
    ensures |Paths(es)| <= |es|
  {
    if es != [] {
      assert es == es[..|es| - 1] + [es[|es| - 1]];
      PathsSnoc(es[..|es| - 1], es[|es| - 1]);
      PathsAtMost(es[..|es| - 1]);
    }
  }

  lemma SameEntries(a: seq<Entry>, b: seq<Entry>)
    requires (forall e :: e in a <==> e in b) && |a| == |b| && DistinctPaths(a)
    ensures DistinctPaths(b) && Collides(b) == Collides(a)
  {
    PathsSize(a);
    assert Paths(a) == Paths(b);
    DistinctByCount(b);
    CollidesSame(a, b);
    CollidesSame(b, a);
  }

  lemma CollidesSame(a: seq<Entry>, b: seq<Entry>)
    requires forall e | e in a :: e in b
    ensures Collides(a) ==> Collides(b)
  {
    if Collides(a) {
      var e, i :| e in a && 0 < i < |e.path| && IsFile(a, e.path[..i]);
      var x :| x in a && x.path == e.path[..i] && !x.directory;
      assert x in b && IsFile(b, e.path[..i]);
    }
  }

  lemma SortKeepsCanon(es: seq<Entry>)
    requires Canon(es)
    ensures Canon(Sorted(es)) && Sorted(Sorted(es)) == Sorted(es) && (forall e :: e in Sorted(es) <==> e in es)
            && |Sorted(es)| == |es|
  {
    TextsAreOrdered();
    Sorting.SortOrders(es, NameOf, TextLess);
    Sorting.OrderedStays(Sorted(es), NameOf, TextLess);
    forall e ensures e in Sorted(es) <==> e in es { Sorting.SortHas(es, NameOf, TextLess, e); }
    Sorting.SortHas(es, NameOf, TextLess, Entry([], true, []));
    SortTotal(es);
    hide EntryOk, Total, Collides, Sorted;
    SameEntries(es, Sorted(es));
  }

  // ---- the canonical form

  /** What canonicalising returns: a sorted, bounded list without collisions. */
  lemma CanonicalIsCanon(f: Format, data: Data, exported: bool) returns (es: seq<Entry>)
    requires data.Tar? && Canonical(f, data, exported).Some?
    ensures Canonical(f, data, exported) == Some(Tar(AsItems(es))) && Canon(es) && Sorted(es) == es
    ensures (forall e | e in es :: f.fits(e)) && f.length(Tar(AsItems(es))) <= MAX_ARCHIVE
    ensures ScanAll(data.items, exported).Some? && forall e ::
            e in es <==> e in ScanAll(data.items, exported).value.entries
  {
    hide ScanAll, Collides, Bounded, Sorted;
    ScanIsBounded(data.items, exported);
    SortKeepsCanon(ScanAll(data.items, exported).value.entries);
    es := Sorted(ScanAll(data.items, exported).value.entries);
  }

  lemma CanonIsCanonical(f: Format, es: seq<Entry>)
    requires Canon(es) && Sorted(es) == es && (forall e | e in es :: f.fits(e))
             && f.length(Tar(AsItems(es))) <= MAX_ARCHIVE
    ensures Canonical(f, Tar(AsItems(es)), false) == Some(Tar(AsItems(es)))
  {
    hide ScanAll, Collides, Sorted;
    ScanReadsBack(es);
  }

  /** The archives that canonicalising returns are exactly those it leaves alone. */
  lemma CanonicalIsIdempotent(f: Format, data: Data, exported: bool)
    requires Canonical(f, data, exported).Some?
    ensures Canonical(f, Canonical(f, data, exported).value, false) == Canonical(f, data, exported)
  {
    hide Canonical;
    if data.Tar? {
      var es := CanonicalIsCanon(f, data, exported);
      CanonIsCanonical(f, es);
    } else {
      NoDataIsCanonical(f, data, exported);
    }
  }

  lemma NoDataIsCanonical(f: Format, data: Data, exported: bool)
    requires !data.Tar? && Canonical(f, data, exported).Some?
    ensures data.NoData? && Canonical(f, data, exported) == Some(NoData) && Canonical(f, NoData, false) == Some(NoData)
  {
  }
}
