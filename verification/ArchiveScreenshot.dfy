/** Adding a screenshot to a workspace archive changes that one entry. */
module ArchiveScreenshot {
  import opened Prelude
  import opened Texts
  import opened Archive
  import opened ArchiveLaws
  import Sorting

  function OtherEntries(es: seq<Entry>, name: Path): seq<Entry> {
    if es == [] then [] else
      var n := |es| - 1;
      OtherEntries(es[..n], name) + (if es[n].path == name then [] else [es[n]])
  }

  lemma {:induction false} OthersAreEntries(es: seq<Entry>, name: Path)
    ensures Others(AsItems(es), name) == AsItems(OtherEntries(es, name))
  {
    if es != [] {
      var n := |es| - 1;
      OthersAreEntries(es[..n], name);
      assert AsItems(es)[..n] == AsItems(es[..n]);
      assert AsItems(OtherEntries(es[..n], name) + [es[n]]) == AsItems(OtherEntries(es[..n], name)) + [AsItem(es[n])];
      assert OtherEntries(es[..n], name) + [] == OtherEntries(es[..n], name);
    }
  }

  lemma {:induction false} OtherEntriesHas(es: seq<Entry>, name: Path, e: Entry)
    ensures e in OtherEntries(es, name) <==> e in es && e.path != name
  {
    if es != [] {
      var n := |es| - 1;
      OtherEntriesHas(es[..n], name, e);
      assert es == es[..n] + [es[n]];
    }
  }

  lemma {:induction false} OthersStayBounded(es: seq<Entry>, name: Path)
    requires Bounded(es)
    ensures Bounded(OtherEntries(es, name)) && name !in Paths(OtherEntries(es, name))
            && Total(OtherEntries(es, name)) <= Total(es)
    ensures Paths(OtherEntries(es, name)) <= Paths(es) && |OtherEntries(es, name)| <= |es|
  {
    hide Bounded, Paths, Total;
    if es == [] {
      NothingIsBounded();
    } else {
      var n := |es| - 1;
      assert es == es[..n] + [es[n]];
      BoundedSnoc(es[..n], es[n]);
      PathsSnoc(es[..n], es[n]);
      OthersStayBounded(es[..n], name);
      var others := OtherEntries(es[..n], name);
      assert others + [] == others;
      BoundedSnoc(others, es[n]);
      PathsSnoc(others, es[n]);
    }
  }

  /** The entries of a canonical archive, none for no archive. */
  ghost predicate Holds(data: Data, es: seq<Entry>) { if data.NoData? then es == [] else data == Tar(AsItems(es)) }

  /**
   * When merging succeeds, the new archive is canonical, holds the screenshot under its name, and every other entry of
   * the old archive, and nothing else.
   */
  lemma ScreenshotChangesOneEntry(f: Format, es: seq<Entry>, snapshot: Data, name: Path, data: Bytes)
    returns (merged: seq<Entry>)
    requires Canon(es) && Holds(snapshot, es) && Canonical(f, snapshot, false) == Some(snapshot)
    requires SafePath(name) && WithScreenshot(f, snapshot, name, data).Some?
    ensures WithScreenshot(f, snapshot, name, data) == Some(Tar(AsItems(merged))) && Canon(merged)
            && Sorted(merged) == merged
    ensures forall e :: e in merged <==> (e in es && e.path != name) || e == Entry(name, false, data)
  {
    var kept, shot := OtherEntries(es, name), Entry(name, false, data);
    var input := Tar(AsItems(kept + [shot]));
    ScreenshotInput(f, es, snapshot, name, data);
    hide Canonical, SafePath, ScanAll, Sorted, Canon;
    merged := CanonicalIsCanon(f, input, false);
    ScreenshotScan(es, name, data);
    forall e ensures e in merged <==> (e in es && e.path != name) || e == shot {
      OtherEntriesHas(es, name, e);
      assert e in kept + [shot] <==> e in kept || e == shot;
    }
  }

  lemma ScreenshotInput(f: Format, es: seq<Entry>, snapshot: Data, name: Path, data: Bytes)
    requires Holds(snapshot, es) && Canonical(f, snapshot, false) == Some(snapshot)
    ensures WithScreenshot(f, snapshot, name, data)
            == Canonical(f, Tar(AsItems(OtherEntries(es, name) + [Entry(name, false, data)])), false)
  {
    hide Canonical;
    OthersAreEntries(es, name);
    var kept, shot := OtherEntries(es, name), Entry(name, false, data);
    assert AsItems(kept + [shot]) == AsItems(kept) + [Item(name, Regular, false, |data|, data)];
    if snapshot.NoData? { assert AsItems(kept) == []; }
  }

  /** The scan of the merged list takes it as it is, once the screenshot fits beside the rest. */
  lemma ScanSnoc(kept: seq<Entry>, e: Entry)
    requires Bounded(kept)
    ensures ScanAll(AsItems(kept + [e]), false) == ScanItem(Scan(kept, Paths(kept), Total(kept)), AsItem(e), false)
  {
    hide Bounded, Total, Paths, ScanItem, AsItem;
    var items := AsItems(kept + [e]);
    ScanReadsBack(kept);
    assert items[..|kept|] == AsItems(kept) && items[|kept|] == AsItem(e);
  }

  lemma KeptAsGiven(s: Scan, e: Entry)
    requires SafePath(e.path) && !e.directory && ScanItem(s, AsItem(e), false).Some?
    ensures ScanItem(s, AsItem(e), false).value.entries == s.entries + [e]
  {
    hide SafePath, Clean;
    SafeIsClean(e.path, Regular);
  }

  lemma ScreenshotScan(es: seq<Entry>, name: Path, data: Bytes)
    requires Canon(es) && SafePath(name)
    requires ScanAll(AsItems(OtherEntries(es, name) + [Entry(name, false, data)]), false).Some?
    ensures var list := OtherEntries(es, name) + [Entry(name, false, data)];
            ScanAll(AsItems(list), false).value.entries == list
  {
    hide SafePath, Bounded, Total, Paths, OtherEntries, ScanAll, ScanItem, AsItems, AsItem, Collides;
    var kept, shot := OtherEntries(es, name), Entry(name, false, data);
    OthersStayBounded(es, name);
    ScanSnoc(kept, shot);
    KeptAsGiven(Scan(kept, Paths(kept), Total(kept)), shot);
  }

  /**
   * The merge succeeds exactly when the screenshot fits the limits beside the other entries and none lies across it.
   */
  lemma ScreenshotFits(f: Format, es: seq<Entry>, snapshot: Data, name: Path, data: Bytes)
    requires Canon(es) && Holds(snapshot, es) && Canonical(f, snapshot, false) == Some(snapshot) && SafePath(name)
    ensures var list := OtherEntries(es, name) + [Entry(name, false, data)];
            WithScreenshot(f, snapshot, name, data).Some?
            <==> && f.length(Tar(AsItems(list))) <= MAX_ARCHIVE && !Collides(list) && Written(f, Sorted(list)).Some?
                 && |OtherEntries(es, name)| < MAX_FILES && |data| <= MAX_FILE
                    && Total(OtherEntries(es, name)) + |data| <= MAX_WORKSPACE
  {
    var kept, shot := OtherEntries(es, name), Entry(name, false, data);
    ScreenshotInput(f, es, snapshot, name, data);
    OthersStayBounded(es, name);
    BoundedSnoc(kept, shot);
    assert EntryOk(shot) <==> |data| <= MAX_FILE;
    hide Written, Sorted, SafePath, Collides, Total, Paths, EntryOk, OtherEntries, AsItems;
    if Bounded(kept + [shot]) { ScanReadsBack(kept + [shot]); }
    if ScanAll(AsItems(kept + [shot]), false).Some? {
      ScreenshotScan(es, name, data);
      ScanIsBounded(AsItems(kept + [shot]), false);
    }
  }
}
