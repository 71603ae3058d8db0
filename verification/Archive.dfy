/**
 * Workspace archives: the host's canonical form, and the two programs that unpack one in the computer and pack it
 * again. A name is the list of its parts; no part holds a slash. None is a raised error, and nothing is kept of a
 * failed run.
 */
module Archive {
  import opened Prelude
  import opened Texts
  import Sorting

  const MAX_FILE: nat := 1024 * 1024
  const MAX_FILES: nat := 256
  const MAX_WORKSPACE: nat := 4 * 1024 * 1024
  const MAX_ARCHIVE: nat := 8 * 1024 * 1024
  const MAX_NAME_BYTES: nat := 512
  const MAX_PARTS: nat := 16

  type Path = seq<string>

  datatype Kind = Regular | Directory | Other

  /** One member of a tar file, as the reader reports it. */
  datatype Item = Item(path: Path, kind: Kind, sparse: bool, size: int, content: Bytes)

  datatype Data = NoData | Tar(items: seq<Item>) | Garbage

  datatype Entry = Entry(path: Path, directory: bool, content: Bytes)

  /** The tar format: how long an archive is, and whether a name fits the USTAR header. Both are arbitrary. */
  datatype Format = Format(length: Data -> nat, fits: Entry -> bool)

  // ---- names

  function CharBytes(c: char): nat {
    if c as int < 0x80 then 1 else if c as int < 0x800 then 2 else if c as int < 0x10000 then 3 else 4
  }

  function TextBytes(s: string): nat { if s == [] then 0 else CharBytes(s[0]) + TextBytes(s[1..]) }

  /** The length in UTF-8 of the parts with their slashes. */
  function NameBytes(p: Path): nat {
    if p == [] then 0 else if |p| == 1 then TextBytes(p[0]) else NameBytes(p[..|p| - 1]) + 1 + TextBytes(p[|p| - 1])
  }

  /** Splitting a name at its slashes leaves none in its parts. */
  predicate SafePart(s: string) { s != "" && s != "." && s != ".." && '\\' !in s && '/' !in s }

  predicate SafeParts(p: Path) { p != [] && |p| <= MAX_PARTS && forall s | s in p :: SafePart(s) }

  predicate Printable(p: Path) { forall s | s in p :: forall c | c in s :: c >= ' ' }

  predicate SafePath(p: Path) { SafeParts(p) && NameBytes(p) <= MAX_NAME_BYTES && Printable(p) }

  function WithoutEnd(p: Path): Path { if |p| >= 2 && p[|p| - 1] == "" then WithoutEnd(p[..|p| - 1]) else p }

  /** A leading "./" and trailing slashes are dropped. */
  function Clean(p: Path): Path { WithoutEnd(if |p| >= 2 && p[0] == "." then p[1..] else p) }

  function NameText(p: Path): string {
    if p == [] then "" else if |p| == 1 then p[0] else NameText(p[..|p| - 1]) + "/" + p[|p| - 1]
  }

  function NameOf(e: Entry): string { NameText(e.path) }

  // ---- the canonical archive

  datatype Scan = Scan(entries: seq<Entry>, seen: set<Path>, total: int)

  predicate Skipped(name: Path, kind: Kind) { kind.Directory? && (name == [""] || name == ["."]) }

  function Keep(s: Scan, name: Path, item: Item): Option<Scan> {
    if !SafePath(name) || name in s.seen || |s.seen| >= MAX_FILES then None
    else if item.kind.Other? || item.sparse then None
    else if item.size < 0 || item.size > MAX_FILE || (item.kind.Directory? && item.size != 0) then None
    else if s.total + item.size > MAX_WORKSPACE then None
    else
      var content := if item.kind.Regular? then item.content else [];
      if |content| != item.size then None
      else Some(Scan(s.entries + [Entry(name, item.kind.Directory?, content)], s.seen + {name}, s.total + item.size))
  }

  function ScanItem(s: Scan, item: Item, exported: bool): Option<Scan> {
    var name := Clean(item.path);
    if exported && name == ["workspace"] && item.kind.Directory? then Some(s)
    else if exported && !(|name| >= 2 && name[0] == "workspace") then None
    else
      var inner := if exported then name[1..] else name;
      if Skipped(inner, item.kind) then Some(s) else Keep(s, inner, item)
  }

  const NOTHING := Scan([], {}, 0)

  function ScanAll(items: seq<Item>, exported: bool): Option<Scan> {
    if items == [] then Some(NOTHING) else
      var front := ScanAll(items[..|items| - 1], exported);
      if front.None? then None else ScanItem(front.value, items[|items| - 1], exported)
  }

  predicate IsFile(entries: seq<Entry>, p: Path) { exists e | e in entries :: e.path == p && !e.directory }

  /** Some entry lies below a file. */
  predicate Collides(entries: seq<Entry>) {
    exists e | e in entries :: exists i | 0 < i < |e.path| :: IsFile(entries, e.path[..i])
  }

  function AsItem(e: Entry): Item {
    Item(e.path, if e.directory then Directory else Regular, false, |e.content|, e.content)
  }

  function AsItems(entries: seq<Entry>): seq<Item> {
    seq(|entries|, i requires 0 <= i < |entries| => AsItem(entries[i]))
  }

  function Sorted(entries: seq<Entry>): seq<Entry> { Sorting.SortBy(entries, NameOf, TextLess) }

  function Written(f: Format, entries: seq<Entry>): Option<Data> {
    if exists e | e in entries :: !f.fits(e) then None
    else if f.length(Tar(AsItems(entries))) > MAX_ARCHIVE then None
    else Some(Tar(AsItems(entries)))
  }

  function Canonical(f: Format, data: Data, exported: bool): Option<Data> {
    if f.length(data) > MAX_ARCHIVE then None
    else match data
      case NoData => Some(NoData)
      case Garbage => None
      case Tar(items) =>
        var scan := ScanAll(items, exported);
        if scan.None? || Collides(scan.value.entries) then None else Written(f, Sorted(scan.value.entries))
  }

  method CanonicalArchive(f: Format, data: Data, exported: bool) returns (result: Option<Data>)
    ensures result == Canonical(f, data, exported)
  {
    hide ScanItem, Collides, Written;
    if f.length(data) > MAX_ARCHIVE { return None; }
    match data {
      case NoData => return Some(NoData);
      case Garbage => return None;
      case Tar(items) =>
        var scan := NOTHING;
        for i := 0 to |items|
          invariant ScanAll(items[..i], exported) == Some(scan)
        {
          assert items[..i + 1][..i] == items[..i];
          var next := ScanItem(scan, items[i], exported);
          if next.None? {
            ScanFailed(items, i + 1, exported);
            return None;
          }
          scan := next.value;
        }
        assert items[..|items|] == items;
        if Collides(scan.entries) { return None; }
        result := Written(f, Sorted(scan.entries));
    }
  }

  lemma {:induction false} ScanFailed(items: seq<Item>, n: nat, exported: bool)
    requires n <= |items| && ScanAll(items[..n], exported).None?
    ensures ScanAll(items, exported).None?
    decreases |items|
  {
    if n == |items| {
      assert items[..n] == items;
    } else {
      assert items[..|items| - 1][..n] == items[..n];
      ScanFailed(items[..|items| - 1], n, exported);
    }
  }

  // ---- unpacking

  datatype Node = Dir | File(content: Bytes)

  /** Everything below the root, by its path. */
  type Tree = map<Path, Node>

  datatype Restoring = Restoring(tree: Tree, seen: set<Path>, total: int)

  predicate BelowFile(tree: Tree, p: Path) { exists i | 0 < i < |p| :: p[..i] in tree && tree[p[..i]].File? }

  function Parents(p: Path): set<Path> { set i | 0 < i < |p| :: p[..i] }

  /** Missing parents are made; the rest of the tree stays. */
  function WithParents(tree: Tree, p: Path): Tree {
    map q | q in tree.Keys + Parents(p) :: if q in tree then tree[q] else Dir
  }

  function RestoreItem(r: Restoring, item: Item): Option<Restoring> {
    if !SafeParts(item.path) || item.path in r.seen || |r.seen| >= MAX_FILES || item.kind.Other? || item.sparse
      || !(0 <= item.size <= MAX_FILE)
    then None
    else if r.total + item.size > MAX_WORKSPACE then None
    else if BelowFile(r.tree, item.path) then None
    else
      var tree := WithParents(r.tree, item.path);
      var seen, total := r.seen + {item.path}, r.total + item.size;
      if item.kind.Directory? then
        if item.path in tree && tree[item.path].File? then None
        else Some(Restoring(tree[item.path := Dir], seen, total))
      else if item.path in tree || |item.content| != item.size then None
      else Some(Restoring(tree[item.path := File(item.content)], seen, total))
  }

  const EMPTY_ROOT := Restoring(map[], {}, 0)

  function RestoreAll(items: seq<Item>): Option<Restoring> {
    if items == [] then Some(EMPTY_ROOT) else
      var front := RestoreAll(items[..|items| - 1]);
      if front.None? then None else RestoreItem(front.value, items[|items| - 1])
  }

  /** The restore program, on an empty workspace. */
  method Restore(f: Format, data: Data) returns (tree: Option<Tree>)
    ensures tree == if f.length(data) > MAX_ARCHIVE || !data.Tar? || RestoreAll(data.items).None? then None
            else Some(RestoreAll(data.items).value.tree)
  {
    hide RestoreItem;
    if f.length(data) > MAX_ARCHIVE || !data.Tar? { return None; }
    var r := EMPTY_ROOT;
    for i := 0 to |data.items|
      invariant RestoreAll(data.items[..i]) == Some(r)
    {
      assert data.items[..i + 1][..i] == data.items[..i];
      var next := RestoreItem(r, data.items[i]);
      if next.None? {
        RestoreFailed(data.items, i + 1);
        return None;
      }
      r := next.value;
    }
    assert data.items[..|data.items|] == data.items;
    tree := Some(r.tree);
  }

  lemma {:induction false} RestoreFailed(items: seq<Item>, n: nat)
    requires n <= |items| && RestoreAll(items[..n]).None?
    ensures RestoreAll(items).None?
    decreases |items|
  {
    if n == |items| {
      assert items[..n] == items;
    } else {
      assert items[..|items| - 1][..n] == items[..n];
      RestoreFailed(items[..|items| - 1], n);
    }
  }

  // ---- packing

  function Children(t: Tree, d: Path): set<string> { set p | p in t && |p| == |d| + 1 && p[..|d|] == d :: p[|d|] }

  ghost function SomeOrder(s: set<string>): seq<string> {
    if s == {} then [] else var x :| x in s; [x] + SomeOrder(s - {x})
  }

  function Itself(s: string): string { s }

  /** The names in a directory, sorted: the order in which the system lists them does not matter. */
  ghost function Listing(t: Tree, d: Path): seq<string> { Sorting.SortBy(SomeOrder(Children(t, d)), Itself, TextLess) }

  lemma TextsAreOrdered()
    ensures Sorting.TotalOrder(TextLess)
  {
    forall a, b ensures (TextLess(a, b) || TextLess(b, a) || a == b) && (TextLess(a, b) ==> !TextLess(b, a) && a != b) {
      TextOrder(a, b);
    }
    forall a, b, c | TextLess(a, b) && TextLess(b, c) ensures TextLess(a, c) { TextTransitive(a, b, c); }
  }

  lemma {:induction false} SomeOrderHas(s: set<string>)
    ensures (forall x :: x in SomeOrder(s) <==> x in s) && Distinct(SomeOrder(s))
  {
    if s != {} {
      var x :| x in s && SomeOrder(s) == [x] + SomeOrder(s - {x});
      SomeOrderHas(s - {x});
    }
  }

  lemma {:induction false} InsertIsDistinct(x: string, sorted: seq<string>)
    requires Distinct(sorted) && x !in sorted
    ensures Distinct(Sorting.InsertBy(x, sorted, Itself, TextLess))
  {
    if sorted != [] && !TextLess(x, sorted[0]) {
      InsertIsDistinct(x, sorted[1..]);
      var rest := Sorting.InsertBy(x, sorted[1..], Itself, TextLess);
      forall k | 0 <= k < |rest| ensures rest[k] != sorted[0] {
        Sorting.InsertHas(x, sorted[1..], Itself, TextLess, rest[k]);
        assert rest[k] in rest;
      }
    }
  }

  lemma {:induction false} SortedNames(names: seq<string>)
    requires Distinct(names)
    ensures var sorted := Sorting.SortBy(names, Itself, TextLess);
            && Distinct(sorted) && (forall x :: x in sorted <==> x in names)
               && Sorting.StrictlyOrdered(sorted, Itself, TextLess)
  {
    TextsAreOrdered();
    var sorted := Sorting.SortBy(names, Itself, TextLess);
    Sorting.SortOrders(names, Itself, TextLess);
    forall x ensures x in sorted <==> x in names { Sorting.SortHas(names, Itself, TextLess, x); }
    assert Distinct(sorted) by { SortIsDistinct(names); }
    hide TextLess;
    forall i, j | 0 <= i < j < |sorted| ensures TextLess(Itself(sorted[i]), Itself(sorted[j])) {
      assert !TextLess(Itself(sorted[j]), Itself(sorted[i]));
    }
  }

  lemma {:induction false} SortIsDistinct(names: seq<string>)
    requires Distinct(names)
    ensures Distinct(Sorting.SortBy(names, Itself, TextLess))
  {
    if names != [] {
      var front, last := names[..|names| - 1], names[|names| - 1];
      SortIsDistinct(front);
      TextsAreOrdered();
      Sorting.SortHas(front, Itself, TextLess, last);
      InsertIsDistinct(last, Sorting.SortBy(front, Itself, TextLess));
    }
  }

  lemma ListingHas(t: Tree, d: Path)
    ensures Distinct(Listing(t, d)) && forall c :: c in Listing(t, d) <==> d + [c] in t
  {
    SomeOrderHas(Children(t, d));
    SortedNames(SomeOrder(Children(t, d)));
    forall c ensures c in Children(t, d) <==> d + [c] in t {
      if d + [c] in t { assert (d + [c])[..|d|] == d && (d + [c])[|d|] == c; }
      if c in Children(t, d) { var p :| p in t && |p| == |d| + 1 && p[..|d|] == d && p[|d|] == c; assert p == d + [c]; }
    }
  }

  /** The paths below a directory in the order they are visited: parents before children, siblings sorted. */
  ghost function Walk(t: Tree, d: Path, names: seq<string>): (paths: seq<Path>)
    requires |d| <= MAX_PARTS && forall c | c in names :: d + [c] in t
    ensures forall p | p in paths :: p in t
    decreases MAX_PARTS - |d|, |names|
  {
    if names == [] then [] else
      var p := d + [names[0]];
      ListingHas(t, p);
      [p] + (if |p| <= MAX_PARTS && t[p].Dir? then Walk(t, p, Listing(t, p)) else []) + Walk(t, d, names[1..])
  }

  datatype Packing = Packing(out: seq<Entry>, total: nat, count: nat)

  function EntryAt(t: Tree, p: Path): Entry
    requires p in t
  {
    match t[p] case Dir => Entry(p, true, []) case File(content) => Entry(p, false, content)
  }

  function Pack(f: Format, s: Packing, t: Tree, p: Path): Option<Packing>
    requires p in t
  {
    var e := EntryAt(t, p);
    if s.count + 1 > MAX_FILES || NameBytes(p) > MAX_NAME_BYTES || |p| > MAX_PARTS then None
    else if |e.content| > MAX_FILE || s.total + |e.content| > MAX_WORKSPACE || !f.fits(e) then None
    else Some(Packing(s.out + [e], s.total + |e.content|, s.count + 1))
  }

  function PackAll(f: Format, s: Packing, t: Tree, paths: seq<Path>): Option<Packing>
    requires forall p | p in paths :: p in t
    decreases |paths|
  {
    if paths == [] then Some(s) else
      var next := Pack(f, s, t, paths[0]);
      if next.None? then None else PackAll(f, next.value, t, paths[1..])
  }

  ghost function WalkBelow(t: Tree, d: Path): (paths: seq<Path>)
    requires |d| <= MAX_PARTS
    ensures forall p | p in paths :: p in t
  {
    ListingHas(t, d);
    Walk(t, d, Listing(t, d))
  }

  ghost function Tour(t: Tree): (paths: seq<Path>)
    ensures forall p | p in paths :: p in t
  {
    WalkBelow(t, [])
  }

  ghost function Snapshot(f: Format, t: Tree): Option<Data> {
    var packed := PackAll(f, Packing([], 0, 0), t, Tour(t));
    if packed.None? || f.length(Tar(AsItems(packed.value.out))) > MAX_ARCHIVE then None
    else Some(Tar(AsItems(packed.value.out)))
  }

  lemma {:induction false} PackMore(f: Format, s: Packing, t: Tree, a: seq<Path>, b: seq<Path>)
    requires (forall p | p in a :: p in t) && (forall p | p in b :: p in t)
    ensures (forall p | p in a + b :: p in t)
    ensures PackAll(f, s, t, a + b) == var mid := PackAll(f, s, t, a); if mid.None? then None
            else PackAll(f, mid.value, t, b)
    decreases |a|
  {
    hide Pack;
    if a == [] {
      assert a + b == b;
    } else {
      assert a[0] in a && (a + b)[1..] == a[1..] + b;
      var next := Pack(f, s, t, a[0]);
      if next.Some? { PackMore(f, next.value, t, a[1..], b); }
    }
  }

  /** The snapshot program: a recursive visit that writes the archive and counts as it goes. */
  class Packer {
    const format: Format
    const tree: Tree
    var out: seq<Entry>
    var total: nat
    var count: nat

    function View(): Packing
      reads this
    {
      Packing(out, total, count)
    }

    constructor (f: Format, t: Tree)
      ensures format == f && tree == t && View() == Packing([], 0, 0)
    {
      format, tree, out, total, count := f, t, [], 0, 0;
    }

    /** The directory's names in whatever order the system gives them. */
    method ListNames(d: Path) returns (names: seq<string>)
      ensures Distinct(names) && forall c :: c in names <==> c in Children(tree, d)
    {
      names := [];
      var rest := Children(tree, d);
      while rest != {}
        invariant Distinct(names) && (forall c :: c in Children(tree, d) <==> c in names || c in rest)
                  && forall c | c in names :: c !in rest
        decreases |rest|
      {
        var c :| c in rest;
        names, rest := names + [c], rest - {c};
      }
    }

    method Visit(d: Path) returns (ok: bool)
      requires |d| <= MAX_PARTS
      modifies this
      ensures var spec := PackAll(format, old(View()), tree, WalkBelow(tree, d));
              ok == spec.Some? && (ok ==> View() == spec.value)
      decreases MAX_PARTS - |d|
    {
      hide Pack, PackAll, Listing, Walk, Distinct, Children, Sorting.SortBy;
      var listed := ListNames(d);
      var names := Sorting.SortBy(listed, Itself, TextLess);
      SameListing(tree, d, listed);
      ListingHas(tree, d);
      assert WalkBelow(tree, d) == Walk(tree, d, names);
      hide WalkBelow;
      ghost var all := PackAll(format, View(), tree, Walk(tree, d, names));
      var i := 0;
      assert names[0..] == names;
      while i < |names|
        invariant 0 <= i <= |names|
        invariant all == PackAll(format, View(), tree, Walk(tree, d, names[i..]))
      {
        var p := d + [names[i]];
        assert names[i..][1..] == names[i + 1..];
        VisitStep(format, View(), tree, d, names[i..]);
        var next := Pack(format, View(), tree, p);
        if next.None? { return false; }
        PackedIsShort(format, View(), tree, p);
        out, total, count := next.value.out, next.value.total, next.value.count;
        if tree[p].Dir? {
          var visited := Visit(p);
          if !visited { return false; }
        }
        i := i + 1;
      }
      VisitEnds(format, View(), tree, d, names[i..]);
      ok := true;
    }
  }

  lemma PackedIsShort(f: Format, s: Packing, t: Tree, p: Path)
    requires p in t && Pack(f, s, t, p).Some?
    ensures |p| <= MAX_PARTS
  {
  }

  lemma VisitEnds(f: Format, s: Packing, t: Tree, d: Path, names: seq<string>)
    requires |d| <= MAX_PARTS && names == []
    ensures PackAll(f, s, t, Walk(t, d, names)) == Some(s)
  {
  }

  lemma WalkIs(t: Tree, d: Path, names: seq<string>)
    requires |d| <= MAX_PARTS && names != [] && (forall c | c in names :: d + [c] in t) && |d + [names[0]]| <= MAX_PARTS
    ensures var first := d + [names[0]];
            (forall c | c in Listing(t, first) :: first + [c] in t)
            && Walk(t, d, names) == [first] + (if t[first].Dir? then Walk(t, first, Listing(t, first)) else [])
               + Walk(t, d, names[1..])
  {
    ListingHas(t, d + [names[0]]);
    hide Listing;
  }

  lemma WalkTooDeep(t: Tree, d: Path, names: seq<string>)
    requires |d| <= MAX_PARTS && names != [] && (forall c | c in names :: d + [c] in t) && |d + [names[0]]| > MAX_PARTS
    ensures Walk(t, d, names) == [d + [names[0]]] + [] + Walk(t, d, names[1..])
  {
    ListingHas(t, d + [names[0]]);
    hide Listing;
  }

  lemma WalkBelowIs(t: Tree, p: Path)
    requires |p| <= MAX_PARTS && forall c | c in Listing(t, p) :: p + [c] in t
    ensures WalkBelow(t, p) == Walk(t, p, Listing(t, p))
  {
    hide Walk, Listing;
  }

  lemma WalkFirst(t: Tree, d: Path, names: seq<string>)
    requires |d| <= MAX_PARTS && names != [] && forall c | c in names :: d + [c] in t
    ensures var p := d + [names[0]];
            Walk(t, d, names)
            == [p] + ((if |p| <= MAX_PARTS && t[p].Dir? then WalkBelow(t, p) else []) + Walk(t, d, names[1..]))
  {
    hide Walk, WalkBelow, Listing;
    var p, rest := d + [names[0]], Walk(t, d, names[1..]);
    if |p| <= MAX_PARTS {
      WalkIs(t, d, names);
      WalkBelowIs(t, p);
    } else {
      WalkTooDeep(t, d, names);
    }
    var below := if |p| <= MAX_PARTS && t[p].Dir? then WalkBelow(t, p) else [];
    assert [p] + below + rest == [p] + (below + rest);
  }

  lemma PackFirst(f: Format, s: Packing, t: Tree, p: Path, rest: seq<Path>)
    requires p in t && forall q | q in rest :: q in t
    ensures forall q | q in [p] + rest :: q in t
    ensures PackAll(f, s, t, [p] + rest)
            == var next := Pack(f, s, t, p); if next.None? then None else PackAll(f, next.value, t, rest)
  {
    hide Pack;
    assert ([p] + rest)[1..] == rest;
  }

  lemma PackNone(f: Format, s: Packing, t: Tree)
    ensures PackAll(f, s, t, []) == Some(s)
  {
  }

  /** Packing what is below the first name, then the other names. */
  lemma VisitStep(f: Format, s: Packing, t: Tree, d: Path, names: seq<string>)
    requires |d| <= MAX_PARTS && names != [] && forall c | c in names :: d + [c] in t
    ensures var p := d + [names[0]];
            var next := Pack(f, s, t, p);
            var below := if next.None? then None
              else if t[p].Dir? && |p| <= MAX_PARTS then PackAll(f, next.value, t, WalkBelow(t, p)) else next;
            PackAll(f, s, t, Walk(t, d, names)) == if below.None? then None
              else PackAll(f, below.value, t, Walk(t, d, names[1..]))
  {
    hide Pack, Listing, PackAll, Walk, WalkBelow;
    var p := d + [names[0]];
    WalkFirst(t, d, names);
    var below := if |p| <= MAX_PARTS && t[p].Dir? then WalkBelow(t, p) else [];
    var rest := Walk(t, d, names[1..]);
    PackFirst(f, s, t, p, below + rest);
    var next := Pack(f, s, t, p);
    if next.Some? {
      PackMore(f, next.value, t, below, rest);
      PackNone(f, next.value, t);
    }
  }

  lemma SameListing(t: Tree, d: Path, listed: seq<string>)
    requires Distinct(listed) && forall c :: c in listed <==> c in Children(t, d)
    ensures Sorting.SortBy(listed, Itself, TextLess) == Listing(t, d)
  {
    SomeOrderHas(Children(t, d));
    SortedNames(listed);
    SortedNames(SomeOrder(Children(t, d)));
    TextsAreOrdered();
    Sorting.StrictOrderIsUnique(Sorting.SortBy(listed, Itself, TextLess), Listing(t, d), Itself, TextLess);
  }

  method PackWorkspace(f: Format, t: Tree) returns (data: Option<Data>)
    ensures data == Snapshot(f, t)
  {
    hide WalkBelow, PackAll;
    var packer := new Packer(f, t);
    var ok := packer.Visit([]);
    if !ok || f.length(Tar(AsItems(packer.out))) > MAX_ARCHIVE { return None; }
    data := Some(Tar(AsItems(packer.out)));
  }

  // ---- screenshots

  /** The snapshot's own entries without the one replaced, then the screenshot. */
  function WithScreenshot(f: Format, snapshot: Data, name: Path, data: Bytes): Option<Data> {
    var old' := if snapshot.NoData? then Some(NoData) else Canonical(f, snapshot, false);
    if old'.None? then None else
      var kept := if old'.value.Tar? then Others(old'.value.items, name) else [];
      Canonical(f, Tar(kept + [Item(name, Regular, false, |data|, data)]), false)
  }

  function Others(items: seq<Item>, name: Path): seq<Item> {
    if items == [] then []
    else Others(items[..|items| - 1], name) + (if items[|items| - 1].path == name then [] else [items[|items| - 1]])
  }

  method MergeScreenshot(f: Format, snapshot: Data, name: Path, data: Bytes) returns (merged: Option<Data>)
    ensures merged == WithScreenshot(f, snapshot, name, data)
  {
    hide Canonical;
    var items: seq<Item> := [];
    if !snapshot.NoData? {
      var source := CanonicalArchive(f, snapshot, false);
      if source.None? { return None; }
      if source.value.Tar? {
        for i := 0 to |source.value.items|
          invariant items == Others(source.value.items[..i], name)
        {
          assert source.value.items[..i + 1][..i] == source.value.items[..i];
          if source.value.items[i].path == name { continue; }
          items := items + [source.value.items[i]];
        }
        assert source.value.items[..|source.value.items|] == source.value.items;
      }
    }
    items := items + [Item(name, Regular, false, |data|, data)];
    merged := CanonicalArchive(f, Tar(items), false);
  }
}
