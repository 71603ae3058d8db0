/** The length of the archives that are written, and the round trip without any premise on it. */
module ArchiveLength {
  import opened Prelude
  import opened Archive
  import opened ArchiveLaws
  import opened ArchiveRoundTrip

  const BLOCK: nat := 512
  const RECORD: nat := 10240

  function WholeBlocks(n: nat): (m: nat)
    ensures n <= m < n + BLOCK && m % BLOCK == 0
  {
    (n + 511) / 512 * 512
  }

  function WholeRecords(n: nat): (m: nat)
    ensures n <= m < n + RECORD && m % RECORD == 0
  {
    (n + 10239) / 10240 * 10240
  }

  /** A header block for each entry, and its content in whole blocks. */
  function Blocks(es: seq<Entry>): nat {
    if es == [] then 0 else Blocks(es[..|es| - 1]) + BLOCK + WholeBlocks(|es[|es| - 1].content|)
  }

  /** In the ustar format two empty blocks end the archive, which is filled up to whole records. */
  function UstarLength(es: seq<Entry>): nat { WholeRecords(Blocks(es) + 2 * BLOCK) }

  ghost predicate Ustar(f: Format) { forall es :: f.length(Tar(AsItems(es))) == UstarLength(es) }

  lemma {:induction false} BlocksBound(es: seq<Entry>)
    ensures Blocks(es) <= Total(es) + |es| * (2 * BLOCK - 1)
  {
    if es != [] {
      var n := |es| - 1;
      BlocksBound(es[..n]);
      hide WholeBlocks;
      assert (n + 1) * (2 * BLOCK - 1) == n * (2 * BLOCK - 1) + (2 * BLOCK - 1);
    }
  }

  /** Entries within the limits on count and content are never too long to write. */
  lemma WithinLimitsFits(es: seq<Entry>)
    requires |es| <= MAX_FILES && Total(es) <= MAX_WORKSPACE
    ensures UstarLength(es) <= MAX_ARCHIVE
  {
    BlocksBound(es);
    hide Blocks, Total;
  }

  /** In the ustar format, packing an unpacked archive succeeds exactly when the nodes are few and their names fit. */
  lemma UstarSnapshot(f: Format, es: seq<Entry>)
    requires Canon(es) && Ustar(f)
    ensures var t := Unpacked(es);
            Snapshot(f, t) == if |t| <= MAX_FILES && AllFit(f, t) then Some(Tar(AsItems(TourEntries(t)))) else None
  {
    var t := Unpacked(es);
    hide Unpacked, Unpacks, Canon, TourEntries, Snapshot, UstarLength;
    SnapshotOfUnpacked(f, es);
    TourCompletes(es, t);
    TourWithin(es, t);
    if |t| <= MAX_FILES { WithinLimitsFits(TourEntries(t)); }
  }

  /** In the ustar format the round trip needs no premise on lengths: whatever is packed is canonical again. */
  lemma UstarRoundTrip(f: Format, es: seq<Entry>)
    requires Canon(es) && Sorted(es) == es && Ustar(f)
    ensures var t := Unpacked(es);
            var again := Sorted(TourEntries(t));
            && Snapshot(f, t).Some? == (|t| <= MAX_FILES && AllFit(f, t))
            && (Snapshot(f, t).Some? ==>
                  && Canonical(f, Snapshot(f, t).value, false) == Some(Tar(AsItems(again)))
                  && Completes(es, again)
                  && ((forall p | Needed(es, p) :: p in Paths(es)) ==> again == es))
  {
    var t := Unpacked(es);
    var out := TourEntries(t);
    hide Unpacked, Unpacks, Canon, TourEntries, Snapshot, UstarLength, Canonical, Sorted, Completes, AllFit;
    UstarSnapshot(f, es);
    if |t| <= MAX_FILES && AllFit(f, t) {
      TourIsCanon(es, t);
      SortedIsCanon(out);
      CanonFits(Sorted(out));
      RoundTrip(f, es);
    }
  }

  lemma CanonFits(es: seq<Entry>)
    requires Canon(es)
    ensures UstarLength(es) <= MAX_ARCHIVE
  {
    hide UstarLength, Total;
    WithinLimitsFits(es);
  }
}
