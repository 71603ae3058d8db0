/** Exactly which archives the host accepts, and what their entries then are. */
module ArchiveAcceptance {
  import opened Prelude
  import opened Texts
  import opened Archive
  import opened ArchiveLaws
  import Sorting

  // ---- names

  /** A part that names a file or directory and cannot lead elsewhere. */
  predicate GoodPart(s: string) { s != "" && s != "." && s != ".." && forall c | c in s :: c != '/' && c != '\\' }

  predicate GoodName(p: Path) { 1 <= |p| <= 16 && forall s | s in p :: GoodPart(s) }

  /** The length of a text in UTF-8, character by character. */
  lemma {:induction false} TextBytesAdd(a: string, b: string)
    ensures TextBytes(a + b) == TextBytes(a) + TextBytes(b)
  {
    if a == [] {
      assert a + b == b;
    } else {
      assert (a + b)[1..] == a[1..] + b;
      TextBytesAdd(a[1..], b);
    }
  }

  /** How many code points fit so many bytes of UTF-8: 7 bits in one, then 11, 16 and 21. */
  function Capacity(n: nat): nat
    requires 1 <= n <= 4
  {
    if n == 1 then 0x80 else if n == 2 then 0x800 else 32 * Capacity(n - 1)
  }

  /** A character takes as few bytes as its code point fits. */
  lemma CharBytesAreUtf8(c: char)
    ensures 1 <= CharBytes(c) <= 4 && TextBytes([c]) == CharBytes(c)
    ensures c as int < Capacity(CharBytes(c)) && (CharBytes(c) > 1 ==> Capacity(CharBytes(c) - 1) <= c as int)
  {
    assert [c][1..] == [];
  }

  /** The length of a name is that of its text. */
  lemma {:induction false} NameBytesAreItsText(p: Path)
    ensures NameBytes(p) == TextBytes(NameText(p))
  {
    if |p| > 1 {
      var front, last := p[..|p| - 1], p[|p| - 1];
      NameBytesAreItsText(front);
      TextBytesAdd(NameText(front) + "/", last);
      TextBytesAdd(NameText(front), "/");
      CharBytesAreUtf8('/');
    }
  }

  /** A name the host stores: good, of at most 512 bytes, without control characters. */
  predicate StorableName(p: Path) {
    GoodName(p) && TextBytes(NameText(p)) <= 512 && forall s, c | s in p && c in s :: c as int >= 32
  }

  lemma SafePathsAreStorable(p: Path)
    ensures SafePath(p) <==> StorableName(p)
    ensures SafeParts(p) <==> GoodName(p)
  {
    NameBytesAreItsText(p);
    hide NameBytes, NameText, TextBytes;
    assert forall s :: SafePart(s) <==> GoodPart(s);
    assert Printable(p) <==> forall s, c | s in p && c in s :: c as int >= 32;
  }

  function Empties(n: nat): Path { seq(n, i => "") }

  lemma {:induction false} EndsAreDropped(p: Path, n: nat)
    requires p != [] && p[|p| - 1] != ""
    ensures WithoutEnd(p + Empties(n)) == p
  {
    if n == 0 {
      assert p + Empties(0) == p;
    } else {
      var q := p + Empties(n);
      assert q[|q| - 1] == "" && q[..|q| - 1] == p + Empties(n - 1);
      EndsAreDropped(p, n - 1);
    }
  }

  /** One leading "./" and all trailing slashes make no difference to a name. */
  lemma NamesAreCleaned(p: Path, n: nat)
    requires p != [] && p[|p| - 1] != "" && p[0] != "."
    ensures Clean(p + Empties(n)) == p && Clean(["."] + p + Empties(n)) == p
  {
    EndsAreDropped(p, n);
    assert (p + Empties(n))[0] == p[0];
    assert (["."] + p + Empties(n))[1..] == p + Empties(n);
  }

  // ---- items

  datatype Member = Member(name: Path, item: Item)

  /** In an export of the container every name lies in the directory "workspace". */
  predicate InRoot(item: Item, exported: bool) {
    exported ==>
      var name := Clean(item.path);
      (|name| >= 2 && name[0] == "workspace") || (name == ["workspace"] && item.kind.Directory?)
  }

  predicate IsRoot(item: Item, exported: bool) {
    var name := Clean(item.path);
    item.kind.Directory?
    && if exported then name in {["workspace"], ["workspace", ""], ["workspace", "."]} else name in {[""], ["."]}
  }

  function NameIn(item: Item, exported: bool): Path {
    var name := Clean(item.path);
    if exported && name != [] then name[1..] else name
  }

  /** The items that stand for something below the root, under their names there. */
  function Members(items: seq<Item>, exported: bool): seq<Member> {
    if items == [] then [] else
      var last := items[|items| - 1];
      Members(items[..|items| - 1], exported)
      + (if IsRoot(last, exported) then [] else [Member(NameIn(last, exported), last)])
  }

  /** An ordinary file with all its content, or an empty directory entry. */
  predicate GoodItem(item: Item) {
    && !item.sparse && 0 <= item.size <= MAX_FILE
    && ((item.kind.Regular? && |item.content| == item.size) || (item.kind.Directory? && item.size == 0))
  }

  function Sizes(ms: seq<Member>): int { if ms == [] then 0 else Sizes(ms[..|ms| - 1]) + ms[|ms| - 1].item.size }

  ghost predicate DistinctNames(ms: seq<Member>) { forall i, j | 0 <= i < j < |ms| :: ms[i].name != ms[j].name }

  ghost predicate AllInRoot(items: seq<Item>, exported: bool) { forall item | item in items :: InRoot(item, exported) }

  ghost predicate AllGood(ms: seq<Member>) { forall m | m in ms :: StorableName(m.name) && GoodItem(m.item) }

  /** Every name lies in the root and is storable, every item is good, no name comes twice, and the limits are kept. */
  ghost predicate Acceptable(items: seq<Item>, exported: bool) {
    var ms := Members(items, exported);
    && AllInRoot(items, exported) && AllGood(ms)
    && DistinctNames(ms) && |ms| <= MAX_FILES && Sizes(ms) <= MAX_WORKSPACE
  }

  function EntriesOf(ms: seq<Member>): seq<Entry> {
    seq(|ms|, i requires 0 <= i < |ms| =>
        Entry(ms[i].name, ms[i].item.kind.Directory?, if ms[i].item.kind.Directory? then [] else ms[i].item.content))
  }

  function NamesOf(ms: seq<Member>): set<Path> { set m | m in ms :: m.name }

  // ---- the scan

  /** What one more item needs. */
  ghost predicate Admits(ms: seq<Member>, item: Item, exported: bool) {
    && InRoot(item, exported)
    && (!IsRoot(item, exported) ==>
          && StorableName(NameIn(item, exported)) && GoodItem(item) && NameIn(item, exported) !in NamesOf(ms)
          && |ms| < MAX_FILES && Sizes(ms) + item.size <= MAX_WORKSPACE)
  }

  lemma AcceptableSnoc(front: seq<Item>, item: Item, exported: bool)
    ensures Acceptable(front + [item], exported) <==>
            Acceptable(front, exported) && Admits(Members(front, exported), item, exported)
    ensures Members(front + [item], exported)
         == Members(front, exported) + (if IsRoot(item, exported) then [] else [Member(NameIn(item, exported), item)])
  {
    var items, ms := front + [item], Members(front, exported);
    MembersSnoc(front, item, exported);
    AllInRootSnoc(front, item, exported);
    hide Members, StorableName, InRoot, IsRoot, NameIn, AllInRoot, AllGood, DistinctNames, NamesOf, Sizes;
    if !IsRoot(item, exported) {
      var m := Member(NameIn(item, exported), item);
      AllGoodSnoc(ms, m);
      DistinctNamesSnoc(ms, m);
      MembersGrow(ms, m);
      assert GoodItem(item) ==> item.size >= 0;
      hide GoodItem;
    } else {
      assert ms + [] == ms;
    }
  }

  lemma MembersSnoc(front: seq<Item>, item: Item, exported: bool)
    ensures Members(front + [item], exported)
         == Members(front, exported) + (if IsRoot(item, exported) then [] else [Member(NameIn(item, exported), item)])
  {
    assert (front + [item])[..|front|] == front;
  }

  lemma AllInRootSnoc(front: seq<Item>, item: Item, exported: bool)
    ensures AllInRoot(front + [item], exported) <==> AllInRoot(front, exported) && InRoot(item, exported)
  {
    hide InRoot;
    assert forall x :: x in front + [item] <==> x in front || x == item;
  }

  lemma AllGoodSnoc(ms: seq<Member>, m: Member)
    ensures AllGood(ms + [m]) <==> AllGood(ms) && StorableName(m.name) && GoodItem(m.item)
  {
    hide StorableName, GoodItem;
    assert forall x :: x in ms + [m] <==> x in ms || x == m;
  }

  lemma DistinctNamesSnoc(ms: seq<Member>, m: Member)
    ensures DistinctNames(ms + [m]) <==> DistinctNames(ms) && m.name !in NamesOf(ms)
  {
    var all := ms + [m];
    assert forall i | 0 <= i < |ms| :: all[i] == ms[i];
    assert all[|ms|] == m;
    forall i | 0 <= i < |ms| ensures ms[i].name in NamesOf(ms) { assert ms[i] in ms; }
    assert m.name in NamesOf(ms) ==> exists i | 0 <= i < |ms| :: ms[i].name == m.name;
  }

  lemma {:induction false} NamesSize(ms: seq<Member>)
    requires DistinctNames(ms)
    ensures |NamesOf(ms)| == |ms|
  {
    if ms != [] {
      var front, last := ms[..|ms| - 1], ms[|ms| - 1];
      assert ms == front + [last];
      DistinctNamesSnoc(front, last);
      NamesSize(front);
      assert NamesOf(ms) == NamesOf(front) + {last.name};
    }
  }

  /** The state of the scan after acceptable items. */
  ghost predicate Scanned(s: Scan, ms: seq<Member>) {
    s.entries == EntriesOf(ms) && s.seen == NamesOf(ms) && s.total == Sizes(ms) && |s.seen| == |ms|
  }

  lemma KeepAdmits(s: Scan, ms: seq<Member>, name: Path, item: Item)
    requires Scanned(s, ms)
    ensures Keep(s, name, item).Some? <==>
            && StorableName(name) && GoodItem(item) && name !in NamesOf(ms)
            && |ms| < MAX_FILES && Sizes(ms) + item.size <= MAX_WORKSPACE
  {
    SafePathsAreStorable(name);
    hide SafePath, StorableName, NamesOf, Sizes, EntriesOf;
  }

  lemma KeepScans(s: Scan, ms: seq<Member>, name: Path, item: Item)
    requires Scanned(s, ms) && Keep(s, name, item).Some?
    ensures Scanned(Keep(s, name, item).value, ms + [Member(name, item)])
  {
    var all := ms + [Member(name, item)];
    MembersGrow(ms, Member(name, item));
    hide SafePath, NamesOf, Sizes, EntriesOf;
  }

  lemma MembersGrow(ms: seq<Member>, m: Member)
    ensures var all, directory := ms + [m], m.item.kind.Directory?;
            && Sizes(all) == Sizes(ms) + m.item.size && NamesOf(all) == NamesOf(ms) + {m.name}
            && EntriesOf(all)
               == EntriesOf(ms) + [Entry(m.name, directory, if directory then [] else m.item.content)]
  {
    assert (ms + [m])[..|ms|] == ms;
  }

  lemma ScanAdmits(s: Scan, ms: seq<Member>, item: Item, exported: bool)
    requires Scanned(s, ms)
    ensures ScanItem(s, item, exported).Some? <==> Admits(ms, item, exported)
    ensures ScanItem(s, item, exported).Some? ==>
            Scanned(ScanItem(s, item, exported).value,
                    ms + (if IsRoot(item, exported) then [] else [Member(NameIn(item, exported), item)]))
  {
    hide Clean, Keep, StorableName, Sizes, EntriesOf, NamesOf;
    var name := Clean(item.path);
    assert ms + [] == ms;
    if InRoot(item, exported) {
      var inner := NameIn(item, exported);
      assert exported && |name| >= 2 ==> (inner == [""] <==> name == ["workspace", ""]) by {
        if exported && |name| >= 2 { assert name == [name[0]] + inner; }
      }
      assert exported && |name| >= 2 ==> (inner == ["."] <==> name == ["workspace", "."]) by {
        if exported && |name| >= 2 { assert name == [name[0]] + inner; }
      }
      KeepAdmits(s, ms, inner, item);
      if Keep(s, inner, item).Some? { KeepScans(s, ms, inner, item); }
    }
  }

  /** The scan goes through exactly the acceptable lists, and takes their members as they are. */
  lemma {:induction false} ScannedExactlyWhenAcceptable(items: seq<Item>, exported: bool)
    ensures ScanAll(items, exported).Some? <==> Acceptable(items, exported)
    ensures ScanAll(items, exported).Some? ==> Scanned(ScanAll(items, exported).value, Members(items, exported))
  {
    hide ScanItem, Acceptable, Admits, Scanned;
    if items == [] {
      NothingIsAcceptable(exported);
    } else {
      var front, last := items[..|items| - 1], items[|items| - 1];
      assert items == front + [last];
      ScannedExactlyWhenAcceptable(front, exported);
      AcceptableSnoc(front, last, exported);
      if ScanAll(front, exported).Some? {
        ScanAdmits(ScanAll(front, exported).value, Members(front, exported), last, exported);
      }
    }
  }

  lemma NothingIsAcceptable(exported: bool)
    ensures Acceptable([], exported) && Scanned(NOTHING, Members([], exported))
  {
    assert NamesOf([]) == {};
  }

  /** A file stands where another member's name needs a directory. */
  ghost predicate FileAbove(ms: seq<Member>) {
    exists m, d | m in ms && d in ms :: !d.item.kind.Directory? && |d.name| < |m.name| && d.name == m.name[..|d.name|]
  }

  lemma CollidesMeans(ms: seq<Member>)
    requires forall m | m in ms :: m.name != []
    ensures Collides(EntriesOf(ms)) <==> FileAbove(ms)
  {
    if Collides(EntriesOf(ms)) { CollisionIsAFileAbove(ms); }
    if FileAbove(ms) { FileAboveCollides(ms); }
  }

  lemma EntryOfMember(ms: seq<Member>, e: Entry) returns (m: Member)
    requires e in EntriesOf(ms)
    ensures m in ms && m.name == e.path && m.item.kind.Directory? == e.directory
  {
    var a :| 0 <= a < |ms| && EntriesOf(ms)[a] == e;
    m := ms[a];
  }

  lemma MemberHasEntry(ms: seq<Member>, m: Member) returns (e: Entry)
    requires m in ms
    ensures e in EntriesOf(ms) && m.name == e.path && m.item.kind.Directory? == e.directory
  {
    var a :| 0 <= a < |ms| && ms[a] == m;
    e := EntriesOf(ms)[a];
  }

  lemma CollisionIsAFileAbove(ms: seq<Member>)
    requires Collides(EntriesOf(ms))
    ensures FileAbove(ms)
  {
    var es := EntriesOf(ms);
    var e :| e in es && exists i | 0 < i < |e.path| :: IsFile(es, e.path[..i]);
    var i :| 0 < i < |e.path| && IsFile(es, e.path[..i]);
    var d :| d in es && d.path == e.path[..i] && !d.directory;
    hide EntriesOf;
    var m := EntryOfMember(ms, e);
    var above := EntryOfMember(ms, d);
  }

  lemma FileAboveCollides(ms: seq<Member>)
    requires FileAbove(ms) && forall m | m in ms :: m.name != []
    ensures Collides(EntriesOf(ms))
  {
    var m, d :| m in ms && d in ms && !d.item.kind.Directory? && |d.name| < |m.name|
                && d.name == m.name[..|d.name|];
    var e := MemberHasEntry(ms, m);
    var above := MemberHasEntry(ms, d);
    hide EntriesOf;
    assert IsFile(EntriesOf(ms), e.path[..|d.name|]);
  }

  /**
   * The host accepts an archive exactly when it is short enough, its items are acceptable, no file stands where a name
   * needs a directory, and the sorted entries can be written within the limit; these then are the canonical archive.
   */
  lemma AcceptedExactlyWhen(f: Format, items: seq<Item>, exported: bool)
    ensures var ms := Members(items, exported);
            Canonical(f, Tar(items), exported)
            == if f.length(Tar(items)) <= MAX_ARCHIVE && Acceptable(items, exported) && !FileAbove(ms)
                  && (forall e | e in EntriesOf(ms) :: f.fits(e))
                  && f.length(Tar(AsItems(Sorted(EntriesOf(ms))))) <= MAX_ARCHIVE
               then Some(Tar(AsItems(Sorted(EntriesOf(ms))))) else None
  {
    var ms := Members(items, exported);
    ScannedExactlyWhenAcceptable(items, exported);
    hide Members, ScanAll, AsItems, Collides, FileAbove, EntriesOf, Sorted, StorableName;
    if Acceptable(items, exported) {
      assert forall m | m in ms :: m.name != [] by { NamesAreNotEmpty(items, exported); }
      CollidesMeans(ms);
      forall e ensures e in Sorted(EntriesOf(ms)) <==> e in EntriesOf(ms) { SortedHas(EntriesOf(ms), e); }
    }
  }

  lemma NamesAreNotEmpty(items: seq<Item>, exported: bool)
    requires Acceptable(items, exported)
    ensures forall m | m in Members(items, exported) :: m.name != []
  {
    hide Members, GoodPart, TextBytes, NameText;
  }

  lemma SortedHas(es: seq<Entry>, e: Entry)
    ensures e in Sorted(es) <==> e in es
  {
    TextsAreOrdered();
    hide Sorting.SortBy, Sorting.TotalOrder, NameOf;
    Sorting.SortHas(es, NameOf, TextLess, e);
  }
}
