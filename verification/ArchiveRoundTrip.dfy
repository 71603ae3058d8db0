/**
 * Unpacking a canonical archive never refuses, and packing the result gives the archive back with its missing parents.
 */
module ArchiveRoundTrip {
  import opened Prelude
  import opened Texts
  import opened Archive
  import opened ArchiveLaws
  import Sorting

  // ---- what unpacking must build

  predicate Above(p: Path, q: Path) { p != [] && |p| <= |q| && q[..|p|] == p }

  /** The path of an entry, or of one of its parents. */
  ghost predicate Needed(es: seq<Entry>, p: Path) { exists e | e in es :: Above(p, e.path) }

  /** The files of the entries with their contents, and directories everywhere else they need one. */
  ghost predicate Unpacks(es: seq<Entry>, t: Tree) {
    && (forall p :: p in t <==> Needed(es, p))
    && (forall e | e in es && !e.directory :: e.path in t && t[e.path] == File(e.content))
    && (forall p | p in t && !IsFile(es, p) :: t[p].Dir?)
  }

  lemma NeededSnoc(front: seq<Entry>, e: Entry, p: Path)
    ensures Needed(front + [e], p) <==> Needed(front, p) || Above(p, e.path)
    ensures IsFile(front + [e], p) <==> IsFile(front, p) || (p == e.path && !e.directory)
  {
    var es := front + [e];
    assert e in es && (forall x | x in front :: x in es) && forall x | x in es :: x in front || x == e;
  }

  lemma NotBelowFile(es: seq<Entry>, front: seq<Entry>, e: Entry, t: Tree)
    requires !Collides(es) && e in es && (forall x | x in front :: x in es) && Unpacks(front, t)
    ensures !BelowFile(t, e.path)
  {
    forall i | 0 < i < |e.path| && e.path[..i] in t ensures t[e.path[..i]].Dir? {
      assert !IsFile(es, e.path[..i]);
      assert !IsFile(front, e.path[..i]);
    }
  }

  lemma FileIsNew(es: seq<Entry>, front: seq<Entry>, e: Entry, t: Tree)
    requires !Collides(es) && e in es && !e.directory && (forall x | x in front :: x in es) && Unpacks(front, t)
             && e.path !in Paths(front)
    ensures e.path !in t
  {
    assert IsFile(es, e.path);
    forall x | x in front ensures !Above(e.path, x.path) {
      assert x.path in Paths(front) && x in es;
      assert x.path[..|x.path|] == x.path;
    }
  }

  function NodeOf(e: Entry): Node { if e.directory then Dir else File(e.content) }

  lemma UnpacksMore(front: seq<Entry>, e: Entry, t: Tree)
    requires Unpacks(front, t) && e.path != [] && e.path !in Paths(front) && (e.directory || e.path !in t)
    ensures Unpacks(front + [e], WithParents(t, e.path)[e.path := NodeOf(e)])
  {
    var es, t' := front + [e], WithParents(t, e.path)[e.path := NodeOf(e)];
    forall p ensures p in t' <==> Needed(es, p) {
      NeededSnoc(front, e, p);
      if Above(p, e.path) && p != e.path { assert p == e.path[..|p|]; }
      if p in Parents(e.path) { var i :| 0 < i < |e.path| && p == e.path[..i]; }
    }
    forall x | x in es && !x.directory ensures x.path in t' && t'[x.path] == File(x.content) {
      if x != e { assert x in front && x.path in Paths(front); }
    }
    forall p | p in t' && !IsFile(es, p) ensures t'[p].Dir? { NeededSnoc(front, e, p); }
  }

  lemma RestoreOne(es: seq<Entry>, front: seq<Entry>, e: Entry, t: Tree)
    requires Bounded(front + [e]) && !Collides(es) && e in es && (forall x | x in front :: x in es) && Unpacks(front, t)
    ensures var r := RestoreItem(Restoring(t, Paths(front), Total(front)), AsItem(e));
            r.Some? && r.value.seen == Paths(front + [e]) && r.value.total == Total(front + [e])
              && Unpacks(front + [e], r.value.tree)
  {
    hide Paths, Total, DistinctPaths, Collides, Unpacks, BelowFile, WithParents, NameBytes, Printable;
    BoundedSnoc(front, e);
    PathsSnoc(front, e);
    PathsSize(front);
    NotBelowFile(es, front, e, t);
    if !e.directory { FileIsNew(es, front, e, t); }
    UnpacksMore(front, e, t);
    ParentsKeep(t, e.path);
    if e.directory && e.path in t { DirectoryStays(front, e, t); }
  }

  lemma ParentsKeep(t: Tree, p: Path)
    ensures p in WithParents(t, p) <==> p in t
    ensures p in t ==> WithParents(t, p)[p] == t[p]
  {
  }

  lemma DirectoryStays(front: seq<Entry>, e: Entry, t: Tree)
    requires Unpacks(front, t) && e.path in t && e.path !in Paths(front)
    ensures t[e.path].Dir?
  {
    assert forall x | x in front :: x.path in Paths(front);
  }

  lemma {:induction false} RestoreAllOf(es: seq<Entry>, done: seq<Entry>, rest: seq<Entry>)
    requires Canon(es) && es == done + rest
    ensures var r := RestoreAll(AsItems(done));
            r.Some? && r.value.seen == Paths(done) && r.value.total == Total(done) && Unpacks(done, r.value.tree)
              && Bounded(done)
    decreases |done|
  {
    hide Bounded, Collides, RestoreItem, Unpacks, Paths, Total;
    if done == [] {
      assert AsItems(done) == [];
      NothingIsBounded();
      assert Unpacks([], map[]) by { NothingUnpacks(); }
      if es == done { assert Bounded(done); }
    } else {
      var n := |done| - 1;
      var front, e := done[..n], done[n];
      assert done == front + [e] && es == front + ([e] + rest);
      RestoreAllOf(es, front, [e] + rest);
      assert AsItems(done)[..n] == AsItems(front) && AsItems(done)[n] == AsItem(e);
      assert e in es && forall x | x in front :: x in es;
      BoundedPrefix(es, done, rest);
      RestoreOne(es, front, e, RestoreAll(AsItems(front)).value.tree);
    }
  }

  lemma NothingUnpacks()
    ensures Unpacks([], map[])
  {
  }

  lemma {:induction false} BoundedPrefix(es: seq<Entry>, done: seq<Entry>, rest: seq<Entry>)
    requires Bounded(es) && es == done + rest
    ensures Bounded(done)
    decreases |rest|
  {
    hide Bounded;
    if rest == [] {
      assert done == es;
    } else {
      var n := |rest| - 1;
      assert es == (done + rest[..n]) + [rest[n]];
      BoundedSnoc(done + rest[..n], rest[n]);
      BoundedPrefix(done + rest[..n], done, rest[..n]);
    }
  }

  /** Any canonical archive, in any order of its entries, unpacks into an empty workspace without refusal. */
  lemma RestoreNeverRefuses(es: seq<Entry>)
    requires Canon(es)
    ensures RestoreAll(AsItems(es)).Some? && Unpacks(es, RestoreAll(AsItems(es)).value.tree)
  {
    assert es == es + [];
    RestoreAllOf(es, es, []);
  }

  // ---- the tour

  /** Everything in the tree has its parents there, as directories, and none is too deep. */
  ghost predicate Closed(t: Tree) {
    && (forall p | p in t :: p != [] && |p| <= MAX_PARTS)
    && (forall p, i | p in t && 0 < i < |p| :: p[..i] in t && t[p[..i]].Dir?)
  }

  ghost predicate Below(t: Tree, d: Path, names: seq<string>, p: Path) {
    p in t && |p| > |d| && p[..|d|] == d && p[|d|] in names
  }

  lemma ChildIsThere(t: Tree, d: Path, p: Path)
    requires Closed(t) && p in t && |p| > |d| && p[..|d|] == d
    ensures d + [p[|d|]] in t && p[|d|] in Listing(t, d) && (d != [] ==> t[d].Dir?)
  {
    ListingHas(t, d);
    assert p[..|d| + 1] == d + [p[|d|]];
    if |p| == |d| + 1 { assert p[..|p|] == p; }
  }

  lemma BelowChild(t: Tree, d: Path, c: string, p: Path)
    requires Closed(t) && d + [c] in t
    ensures var first := d + [c];
            (p in t && |p| > |d| && p[..|d|] == d && p[|d|] == c) <==>
              p == first || (t[first].Dir? && Below(t, first, Listing(t, first), p))
  {
    var first := d + [c];
    ListingHas(t, first);
    hide Listing;
    if p in t && |p| > |d| && p[..|d|] == d && p[|d|] == c {
      assert p[..|first|] == first;
      if |p| > |first| { ChildIsThere(t, first, p); } else { assert p[..|p|] == p; }
    }
    if t[first].Dir? && Below(t, first, Listing(t, first), p) {
      assert p[..|d|] == p[..|first|][..|d|] && p[|d|] == p[..|first|][|d|];
    }
  }

  lemma BelowNames(t: Tree, d: Path, names: seq<string>, p: Path)
    requires names != []
    ensures Below(t, d, names, p) <==>
            (p in t && |p| > |d| && p[..|d|] == d && p[|d|] == names[0]) || Below(t, d, names[1..], p)
  {
    assert names == [names[0]] + names[1..];
  }

  lemma {:induction false} WalkHas(t: Tree, d: Path, names: seq<string>, p: Path)
    requires Closed(t) && |d| <= MAX_PARTS && forall c | c in names :: d + [c] in t
    ensures p in Walk(t, d, names) <==> Below(t, d, names, p)
    decreases MAX_PARTS - |d|, |names|
  {
    hide Listing, Below;
    if names == [] {
      BelowNothing(t, d, p);
    } else {
      var first := d + [names[0]];
      BelowNames(t, d, names, p);
      BelowChild(t, d, names[0], p);
      WalkHas(t, d, names[1..], p);
      ListingHas(t, first);
      assert |first| <= MAX_PARTS;
      if t[first].Dir? { WalkHas(t, first, Listing(t, first), p); }
    }
  }

  lemma BelowNothing(t: Tree, d: Path, p: Path)
    ensures !Below(t, d, [], p)
  {
  }

  lemma DistinctParts(a: seq<Path>, b: seq<Path>)
    requires Distinct(a) && Distinct(b) && forall p | p in a :: p !in b
    ensures Distinct(a + b)
  {
    var ab := a + b;
    forall i, j | 0 <= i < j < |ab| ensures ab[i] != ab[j] {
      if i < |a| <= j { assert a[i] in a && b[j - |a|] in b; }
    }
  }

  /** Where a walked path leaves its directory. */
  lemma WalkedFrom(t: Tree, d: Path, names: seq<string>, p: Path)
    requires Closed(t) && |d| <= MAX_PARTS && (forall c | c in names :: d + [c] in t) && p in Walk(t, d, names)
    ensures |p| > |d| && p[..|d|] == d && p[|d|] in names
  {
    WalkHas(t, d, names, p);
  }

  lemma {:induction false} WalkIsDistinct(t: Tree, d: Path, names: seq<string>)
    requires Closed(t) && |d| <= MAX_PARTS && Distinct(names) && forall c | c in names :: d + [c] in t
    ensures Distinct(Walk(t, d, names))
    decreases MAX_PARTS - |d|, |names|
  {
    hide Listing, Closed;
    if names != [] {
      var c := names[0];
      var first := d + [c];
      ListingHas(t, first);
      WalkIsDistinct(t, d, names[1..]);
      assert |first| <= MAX_PARTS by { DepthOf(t, first); }
      var below := if t[first].Dir? then Walk(t, first, Listing(t, first)) else [];
      if t[first].Dir? { WalkIsDistinct(t, first, Listing(t, first)); }
      assert c !in names[1..];
      hide Distinct, Walk;
      forall p | p in below ensures |p| > |first| && p[|d|] == c {
        WalkedFrom(t, first, Listing(t, first), p);
        assert p[|d|] == p[..|first|][|d|];
      }
      forall p | p in Walk(t, d, names[1..]) ensures |p| > |d| && p[|d|] != c { WalkedFrom(t, d, names[1..], p); }
      OneIsDistinct(first);
      DistinctParts([first], below);
      DistinctParts([first] + below, Walk(t, d, names[1..]));
      WalkIs(t, d, names);
    }
  }

  lemma DepthOf(t: Tree, p: Path)
    requires Closed(t) && p in t
    ensures |p| <= MAX_PARTS
  {
  }

  lemma OneIsDistinct(p: Path)
    ensures Distinct([p])
  {
  }

  /** The tour meets everything in the tree once. */
  lemma TourMeetsAll(t: Tree)
    requires Closed(t)
    ensures Distinct(Tour(t)) && (forall p :: p in Tour(t) <==> p in t) && |Tour(t)| == |t|
  {
    ListingHas(t, []);
    WalkIsDistinct(t, [], Listing(t, []));
    forall p ensures p in Tour(t) <==> p in t {
      WalkHas(t, [], Listing(t, []), p);
      if p in t { ChildIsThere(t, [], p); }
    }
    DistinctSize(Tour(t), t.Keys);
    assert |t| == |t.Keys|;
  }

  lemma {:induction false} DistinctSize(xs: seq<Path>, s: set<Path>)
    requires Distinct(xs) && forall x :: x in xs <==> x in s
    ensures |xs| == |s|
  {
    if xs == [] {
      assert s == {};
    } else {
      var n := |xs| - 1;
      assert xs == xs[..n] + [xs[n]];
      assert xs[n] !in xs[..n];
      DistinctSize(xs[..n], s - {xs[n]});
    }
  }

  // ---- packing a list of paths

  ghost function EntriesAt(t: Tree, paths: seq<Path>): (es: seq<Entry>)
    requires forall p | p in paths :: p in t
    ensures |es| == |paths| && forall i | 0 <= i < |paths| :: es[i] == EntryAt(t, paths[i])
  {
    if paths == [] then [] else [EntryAt(t, paths[0])] + EntriesAt(t, paths[1..])
  }

  ghost predicate Packable(f: Format, t: Tree, p: Path)
    requires p in t
  {
    NameBytes(p) <= MAX_NAME_BYTES && |p| <= MAX_PARTS && |EntryAt(t, p).content| <= MAX_FILE && f.fits(EntryAt(t, p))
  }

  lemma PackOne(f: Format, s: Packing, t: Tree, p: Path)
    requires p in t
    ensures var e := EntryAt(t, p);
            Pack(f, s, t, p) == if s.count + 1 <= MAX_FILES && s.total + |e.content| <= MAX_WORKSPACE
              && Packable(f, t, p)
                                then Some(Packing(s.out + [e], s.total + |e.content|, s.count + 1)) else None
  {
  }

  ghost predicate AllPackable(f: Format, t: Tree, paths: seq<Path>)
    requires forall p | p in paths :: p in t
  {
    forall p | p in paths :: Packable(f, t, p)
  }

  lemma PackableFirst(f: Format, t: Tree, paths: seq<Path>)
    requires (forall p | p in paths :: p in t) && paths != []
    ensures AllPackable(f, t, paths) <==> Packable(f, t, paths[0]) && AllPackable(f, t, paths[1..])
  {
    hide Packable;
    assert paths == [paths[0]] + paths[1..];
  }

  lemma EntriesFirst(t: Tree, paths: seq<Path>)
    requires (forall p | p in paths :: p in t) && paths != []
    ensures var e, more := EntryAt(t, paths[0]), EntriesAt(t, paths[1..]);
            EntriesAt(t, paths) == [e] + more && Total(EntriesAt(t, paths)) == |e.content| + Total(more)
  {
    hide EntryAt;
    TotalSplits([EntryAt(t, paths[0])], EntriesAt(t, paths[1..]));
    TotalOne(EntryAt(t, paths[0]));
  }

  ghost function Packed(f: Format, s: Packing, t: Tree, paths: seq<Path>): Option<Packing>
    requires forall p | p in paths :: p in t
  {
    var es := EntriesAt(t, paths);
    if s.count + |paths| <= MAX_FILES && s.total + Total(es) <= MAX_WORKSPACE && AllPackable(f, t, paths)
    then Some(Packing(s.out + es, s.total + Total(es), s.count + |paths|)) else None
  }

  lemma PackedNothing(f: Format, s: Packing, t: Tree)
    requires s.count <= MAX_FILES && s.total <= MAX_WORKSPACE
    ensures PackAll(f, s, t, []) == Some(s) == Packed(f, s, t, [])
  {
    assert s.out + EntriesAt(t, []) == s.out;
  }

  lemma PackedFirst(f: Format, s: Packing, t: Tree, paths: seq<Path>)
    requires (forall p | p in paths :: p in t) && paths != [] && s.count <= MAX_FILES && s.total <= MAX_WORKSPACE
    ensures var next := Pack(f, s, t, paths[0]);
            && (next.Some? ==> next.value.count <= MAX_FILES && next.value.total <= MAX_WORKSPACE)
            && Packed(f, s, t, paths) == if next.None? then None else Packed(f, next.value, t, paths[1..])
  {
    hide Pack, Packable, EntryAt, EntriesAt, Total, AllPackable;
    EntriesFirst(t, paths);
    PackableFirst(f, t, paths);
    PackOne(f, s, t, paths[0]);
    var e, more := EntryAt(t, paths[0]), EntriesAt(t, paths[1..]);
    OutGrows(s.out, e, more);
    assert |paths| == 1 + |paths[1..]|;
  }

  lemma OutGrows(out: seq<Entry>, e: Entry, more: seq<Entry>)
    ensures out + [e] + more == out + ([e] + more)
  {
  }

  /** Packing succeeds exactly within the limits on count, names, sizes and total, and writes the entries in order. */
  lemma {:induction false} PackAllExactly(f: Format, s: Packing, t: Tree, paths: seq<Path>)
    requires (forall p | p in paths :: p in t) && s.count <= MAX_FILES && s.total <= MAX_WORKSPACE
    ensures PackAll(f, s, t, paths) == Packed(f, s, t, paths)
    decreases |paths|
  {
    hide Pack, Packed;
    if paths == [] {
      PackedNothing(f, s, t);
    } else {
      PackedFirst(f, s, t, paths);
      var next := Pack(f, s, t, paths[0]);
      if next.Some? { PackAllExactly(f, next.value, t, paths[1..]); }
    }
  }

  lemma TotalOne(e: Entry)
    ensures Total([e]) == |e.content|
  {
    assert [e][..0] == [];
  }

  // ---- what the snapshot of an unpacked archive holds

  lemma {:induction false} ShorterName(p: Path, q: Path)
    requires Above(p, q)
    ensures NameBytes(p) <= NameBytes(q)
    decreases |q|
  {
    if |p| < |q| {
      assert q[..|q| - 1][..|p|] == p;
      ShorterName(p, q[..|q| - 1]);
    } else {
      assert q[..|q|] == q;
    }
  }

  lemma SafeAbove(p: Path, q: Path)
    requires Above(p, q) && SafePath(q)
    ensures SafePath(p)
  {
    ShorterName(p, q);
    assert forall s | s in p :: s in q;
  }

  lemma UnpackedIsSafe(es: seq<Entry>, t: Tree, p: Path)
    requires Canon(es) && Unpacks(es, t) && p in t
    ensures SafePath(p)
  {
    hide SafePath, DistinctPaths, Total, Collides, IsFile;
    var e :| e in es && Above(p, e.path);
    assert EntryOk(e);
    SafeAbove(p, e.path);
  }

  lemma UnpackedHasParents(es: seq<Entry>, t: Tree, p: Path, i: nat)
    requires !Collides(es) && Unpacks(es, t) && p in t && 0 < i < |p|
    ensures p[..i] in t && t[p[..i]].Dir?
  {
    var e :| e in es && Above(p, e.path);
    assert e.path[..|p|][..i] == e.path[..i];
    assert Above(p[..i], e.path);
    assert !IsFile(es, e.path[..i]);
  }

  lemma UnpackedIsClosed(es: seq<Entry>, t: Tree)
    requires Canon(es) && Unpacks(es, t)
    ensures Closed(t) && forall p | p in t :: SafePath(p)
  {
    hide SafePath, Bounded, Collides, Unpacks;
    forall p | p in t ensures p != [] && |p| <= MAX_PARTS && SafePath(p) {
      UnpackedIsSafe(es, t, p);
      DepthOfSafe(p);
      SafeIsNamed(p);
    }
    forall p, i | p in t && 0 < i < |p| ensures p[..i] in t && t[p[..i]].Dir? { UnpackedHasParents(es, t, p, i); }
  }

  lemma DepthOfSafe(p: Path)
    requires SafePath(p)
    ensures |p| <= MAX_PARTS
  {
  }

  /** A directory that no entry names, above one that some entry does. */
  ghost predicate Implied(es: seq<Entry>, e: Entry) {
    e.directory && e.content == [] && e.path !in Paths(es) && Needed(es, e.path)
  }

  lemma NodesAreEntries(es: seq<Entry>, t: Tree, e: Entry)
    requires Canon(es) && Unpacks(es, t)
    ensures e.path in t && e == EntryAt(t, e.path) <==> e in es || Implied(es, e)
  {
    hide Collides, Total, SafePath;
    if e in es {
      assert Above(e.path, e.path) && Needed(es, e.path) by { assert EntryOk(e); SafeIsNamed(e.path); }
      if e.directory { DirectoryIsDir(es, t, e); }
    } else {
      if e.path in t && IsFile(es, e.path) {
        var x :| x in es && x.path == e.path && !x.directory;
        assert t[e.path] == File(x.content);
      }
      if Implied(es, e) { assert !IsFile(es, e.path); }
    }
  }

  lemma SafeIsNamed(p: Path)
    requires SafePath(p)
    ensures p != [] && p[..|p|] == p
  {
  }

  lemma DirectoryIsDir(es: seq<Entry>, t: Tree, e: Entry)
    requires Canon(es) && Unpacks(es, t) && e in es && e.directory && e.path in t
    ensures e == EntryAt(t, e.path)
  {
    hide Collides, Total, SafePath;
    assert EntryOk(e);
    if IsFile(es, e.path) {
      var x :| x in es && x.path == e.path && !x.directory;
      OnePerPath(es, x, e);
    }
  }

  lemma OnePerPath(es: seq<Entry>, a: Entry, b: Entry)
    requires DistinctPaths(es) && a in es && b in es && a.path == b.path
    ensures a == b
  {
    var i :| 0 <= i < |es| && es[i] == a;
    var j :| 0 <= j < |es| && es[j] == b;
    assert i == j;
  }

  /** Entries with empty contents add nothing to the total. */
  lemma {:induction false} SameTotal(es: seq<Entry>, out: seq<Entry>)
    requires DistinctPaths(es) && DistinctPaths(out)
    requires (forall e | e in es :: e in out) && forall e | e in out :: e in es || e.content == []
    ensures Total(es) == Total(out)
    decreases |out|
  {
    if out != [] {
      var front, last := out[..|out| - 1], out[|out| - 1];
      assert out == front + [last];
      assert Total(out) == Total(front) + |last.content|;
      hide DistinctPaths, Total;
      LastIsOnce(front, last);
      if last in es {
        var i :| 0 <= i < |es| && es[i] == last;
        var less := es[..i] + es[i + 1..];
        TakeOut(es, i);
        hide Paths;
        SameTotal(less, front);
      } else {
        SameTotal(es, front);
      }
    }
  }

  lemma LastIsOnce(front: seq<Entry>, last: Entry)
    requires DistinctPaths(front + [last])
    ensures DistinctPaths(front) && last !in front && forall e :: e in front + [last] <==> e in front || e == last
  {
    DistinctSnoc(front, last);
    hide DistinctPaths;
    assert last in front ==> last.path in Paths(front);
  }

  lemma TakeOut(es: seq<Entry>, i: nat)
    requires DistinctPaths(es) && i < |es|
    ensures var less := es[..i] + es[i + 1..];
            DistinctPaths(less) && Total(es) == Total(less) + |es[i].content| && forall e ::
              e in less <==> e in es && e != es[i]
  {
    TakeOutTotal(es, i);
    TakeOutDistinct(es, i);
    var less := es[..i] + es[i + 1..];
    forall e ensures e in less <==> e in es && e != es[i] { TakeOutHas(es, i, e); }
  }

  lemma TakeOutTotal(es: seq<Entry>, i: nat)
    requires i < |es|
    ensures Total(es) == Total(es[..i] + es[i + 1..]) + |es[i].content|
  {
    assert es == es[..i] + ([es[i]] + es[i + 1..]);
    TotalSplits(es[..i], [es[i]] + es[i + 1..]);
    TotalSplits([es[i]], es[i + 1..]);
    TotalSplits(es[..i], es[i + 1..]);
    TotalOne(es[i]);
  }

  lemma TakeOutDistinct(es: seq<Entry>, i: nat)
    requires DistinctPaths(es) && i < |es|
    ensures DistinctPaths(es[..i] + es[i + 1..])
  {
    var less := es[..i] + es[i + 1..];
    forall a, b | 0 <= a < b < |less| ensures less[a].path != less[b].path {
      assert es[if a < i then a else a + 1].path != es[if b < i then b else b + 1].path;
    }
  }

  lemma TakeOutHas(es: seq<Entry>, i: nat, e: Entry)
    requires DistinctPaths(es) && i < |es|
    ensures e in es[..i] + es[i + 1..] <==> e in es && e != es[i]
  {
    var less := es[..i] + es[i + 1..];
    if e in es && e != es[i] {
      var k :| 0 <= k < |es| && es[k] == e;
      if k < i { assert less[k] == e; } else { assert less[k - 1] == e; }
    }
    if e in less {
      var k :| 0 <= k < |less| && less[k] == e;
      var m := if k < i then k else k + 1;
      assert es[m] == e && es[m].path != es[i].path;
    }
  }

  ghost function TourEntries(t: Tree): seq<Entry> { EntriesAt(t, Tour(t)) }

  /** The entries of the whole tree, each node once. */
  ghost predicate Lists(t: Tree, out: seq<Entry>) { forall e :: e in out <==> e.path in t && e == EntryAt(t, e.path) }

  lemma ListsEntry(t: Tree, out: seq<Entry>, e: Entry)
    requires Lists(t, out)
    ensures e in out <==> e.path in t && e == EntryAt(t, e.path)
  {
  }

  lemma TourEntriesAre(t: Tree)
    requires Closed(t)
    ensures |TourEntries(t)| == |t| && DistinctPaths(TourEntries(t)) && Lists(t, TourEntries(t))
  {
    TourMeetsAll(t);
    var paths, out := Tour(t), TourEntries(t);
    hide Tour, Closed, EntriesAt;
    EntriesAreDistinct(t, paths);
    forall e ensures e in out <==> e.path in t && e == EntryAt(t, e.path) { TourEntry(t, paths, e); }
  }

  lemma EntriesAreDistinct(t: Tree, paths: seq<Path>)
    requires Distinct(paths) && forall p | p in paths :: p in t
    ensures DistinctPaths(EntriesAt(t, paths))
  {
    var out := EntriesAt(t, paths);
    hide EntriesAt;
    assert forall i | 0 <= i < |paths| :: out[i].path == paths[i];
  }

  lemma TourEntry(t: Tree, paths: seq<Path>, e: Entry)
    requires forall p :: p in paths <==> p in t
    ensures e in EntriesAt(t, paths) <==> e.path in t && e == EntryAt(t, e.path)
  {
    var out := EntriesAt(t, paths);
    hide EntriesAt;
    if e.path in t && e == EntryAt(t, e.path) {
      assert e.path in paths;
      var i :| 0 <= i < |paths| && paths[i] == e.path;
      assert out[i] == e;
    }
    if e in out {
      var i :| 0 <= i < |out| && out[i] == e;
      assert paths[i] in paths;
    }
  }

  /** The same entries, and the directories they imply. */
  ghost predicate Completes(es: seq<Entry>, out: seq<Entry>) { forall e :: e in out <==> e in es || Implied(es, e) }

  lemma TourCompletes(es: seq<Entry>, t: Tree)
    requires Canon(es) && Unpacks(es, t)
    ensures Closed(t) && |TourEntries(t)| == |t| && DistinctPaths(TourEntries(t)) && Completes(es, TourEntries(t))
  {
    UnpackedIsClosed(es, t);
    hide Closed, Unpacks, Canon, TourEntries, Lists, Completes;
    TourEntriesAre(t);
    ListsCompletes(es, t, TourEntries(t));
  }

  lemma ListsCompletes(es: seq<Entry>, t: Tree, out: seq<Entry>)
    requires Canon(es) && Unpacks(es, t) && Lists(t, out)
    ensures Completes(es, out)
  {
    hide Lists, Implied, Unpacks, Canon, EntryAt;
    forall e ensures e in out <==> e in es || Implied(es, e) {
      ListsEntry(t, out, e);
      NodesAreEntries(es, t, e);
    }
  }

  lemma CompletingAddsNothing(es: seq<Entry>, out: seq<Entry>)
    requires DistinctPaths(es) && DistinctPaths(out) && Completes(es, out)
    ensures Total(out) == Total(es)
  {
    forall e | e in out ensures e in es || e.content == [] { if Implied(es, e) { ImpliedIsEmpty(es, e); } }
    hide Implied, Total, DistinctPaths;
    SameTotal(es, out);
  }

  lemma ImpliedIsEmpty(es: seq<Entry>, e: Entry)
    requires Implied(es, e)
    ensures e.directory && e.content == []
  {
  }

  lemma CompletedIsOk(es: seq<Entry>, t: Tree, e: Entry)
    requires Canon(es) && Unpacks(es, t) && (e in es || Implied(es, e))
    ensures EntryOk(e)
  {
    hide SafePath, Total, Collides, DistinctPaths, EntryOk;
    if e !in es {
      NodesAreEntries(es, t, e);
      UnpackedIsSafe(es, t, e.path);
      OkIfEmpty(e);
    }
  }

  lemma OkIfEmpty(e: Entry)
    requires SafePath(e.path) && e.content == []
    ensures EntryOk(e)
  {
  }

  lemma CompletedIsBounded(es: seq<Entry>, t: Tree, out: seq<Entry>)
    requires Canon(es) && Unpacks(es, t) && Completes(es, out) && DistinctPaths(out) && |out| <= MAX_FILES
    ensures Bounded(out)
  {
    CompletingAddsNothing(es, out);
    assert Canon(es) && Total(out) <= MAX_WORKSPACE;
    hide Canon, Unpacks, Total, DistinctPaths, EntryOk, Implied;
    forall e | e in out ensures EntryOk(e) { CompletedIsOk(es, t, e); }
  }

  lemma TourIsCanon(es: seq<Entry>, t: Tree)
    requires Canon(es) && Unpacks(es, t) && |t| <= MAX_FILES
    ensures Canon(TourEntries(t))
  {
    hide Unpacks, TourEntries, Completes, Closed, Bounded, Collides, Lists, DistinctPaths;
    TourCompletes(es, t);
    TourEntriesAre(t);
    CompletedIsBounded(es, t, TourEntries(t));
    TourDoesNotCollide(t, TourEntries(t));
  }

  lemma TourDoesNotCollide(t: Tree, out: seq<Entry>)
    requires Closed(t) && Lists(t, out)
    ensures !Collides(out)
  {
    forall e, i | e in out && 0 < i < |e.path| ensures !IsFile(out, e.path[..i]) {
      assert e.path[..i] in t && t[e.path[..i]].Dir?;
    }
  }

  ghost predicate AllFit(f: Format, t: Tree) { forall p | p in t :: f.fits(EntryAt(t, p)) }

  lemma TourIsPackable(f: Format, es: seq<Entry>, t: Tree)
    requires Canon(es) && Unpacks(es, t)
    ensures AllPackable(f, t, Tour(t)) <==> AllFit(f, t)
  {
    UnpackedIsClosed(es, t);
    TourMeetsAll(t);
    hide Tour, SafePath, NameBytes;
    forall p | p in t ensures Packable(f, t, p) <==> f.fits(EntryAt(t, p)) {
      NamedWithin(p);
      assert |EntryAt(t, p).content| <= MAX_FILE by { ContentWithin(es, t, p); }
    }
  }

  lemma NamedWithin(p: Path)
    requires SafePath(p)
    ensures NameBytes(p) <= MAX_NAME_BYTES && |p| <= MAX_PARTS
  {
  }

  lemma ContentWithin(es: seq<Entry>, t: Tree, p: Path)
    requires Canon(es) && Unpacks(es, t) && p in t
    ensures |EntryAt(t, p).content| <= MAX_FILE
  {
    hide SafePath, Collides, Total, DistinctPaths;
    if IsFile(es, p) {
      var e :| e in es && e.path == p && !e.directory;
      assert EntryOk(e);
    }
  }

  /** The tree a canonical archive unpacks to. */
  ghost function Unpacked(es: seq<Entry>): (t: Tree)
    requires Canon(es)
    ensures Unpacks(es, t)
  {
    RestoreNeverRefuses(es);
    RestoreAll(AsItems(es)).value.tree
  }

  lemma PackedFromNothing(f: Format, t: Tree, paths: seq<Path>)
    requires forall p | p in paths :: p in t
    ensures var es := EntriesAt(t, paths);
            PackAll(f, Packing([], 0, 0), t, paths)
            == if |paths| <= MAX_FILES && Total(es) <= MAX_WORKSPACE && AllPackable(f, t, paths)
              then Some(Packing(es, Total(es), |paths|)) else None
  {
    hide AllPackable, EntriesAt, Total, PackAll;
    PackAllExactly(f, Packing([], 0, 0), t, paths);
    assert [] + EntriesAt(t, paths) == EntriesAt(t, paths);
  }

  lemma PackedTour(f: Format, es: seq<Entry>, t: Tree)
    requires Canon(es) && Unpacks(es, t)
    ensures var out := TourEntries(t);
            PackAll(f, Packing([], 0, 0), t, Tour(t)) == if |t| <= MAX_FILES && AllFit(f, t)
              then Some(Packing(out, Total(out), |t|)) else None
  {
    TourIsPackable(f, es, t);
    TourWithin(es, t);
    hide Canon, Unpacks, AllPackable, AllFit, Tour, EntriesAt, Total, PackAll;
    PackedFromNothing(f, t, Tour(t));
  }

  lemma SnapshotIs(f: Format, es: seq<Entry>, t: Tree)
    requires Canon(es) && Unpacks(es, t)
    ensures Snapshot(f, t) == if |t| <= MAX_FILES && AllFit(f, t)
            && f.length(Tar(AsItems(TourEntries(t)))) <= MAX_ARCHIVE
                              then Some(Tar(AsItems(TourEntries(t)))) else None
  {
    hide Canon, Unpacks, AllFit, Tour, TourEntries, PackAll, Total;
    PackedTour(f, es, t);
  }

  lemma TourWithin(es: seq<Entry>, t: Tree)
    requires Canon(es) && Unpacks(es, t)
    ensures Total(TourEntries(t)) <= MAX_WORKSPACE && |Tour(t)| == |t|
  {
    assert Total(es) <= MAX_WORKSPACE;
    hide Unpacks, Total, Tour, Closed, Completes;
    TourCompletes(es, t);
    CompletingAddsNothing(es, TourEntries(t));
    TourMeetsAll(t);
  }

  /**
   * Packing an unpacked archive succeeds exactly when the tree with its missing parents has at most 256 nodes, every
   * name fits the header and the result the archive limit. It then holds the same entries and only those parents more.
   */
  lemma SnapshotOfUnpacked(f: Format, es: seq<Entry>)
    requires Canon(es)
    ensures var t := Unpacked(es);
            var out := TourEntries(t);
            && Completes(es, out)
            && Snapshot(f, t) == if |t| <= MAX_FILES && AllFit(f, t) && f.length(Tar(AsItems(out))) <= MAX_ARCHIVE
                                 then Some(Tar(AsItems(out))) else None
  {
    var t := Unpacked(es);
    hide Unpacked, Unpacks, Canon, TourEntries, Snapshot;
    TourCompletes(es, t);
    SnapshotIs(f, es, t);
  }

  // ---- names as texts

  lemma LastSlash(a: string, x: string, b: string, y: string)
    requires a + "/" + x == b + "/" + y && '/' !in x && '/' !in y
    ensures a == b && x == y
  {
    var s, t := a + "/" + x, b + "/" + y;
    assert s[|a|] == '/' && t[|b|] == '/';
    assert |a| == |b| by {
      assert forall k | |a| < k < |s| :: s[k] == x[k - |a| - 1];
      assert forall k | |b| < k < |t| :: t[k] == y[k - |b| - 1];
    }
    assert s[..|a|] == a && t[..|b|] == b && s[|a| + 1..] == x && t[|b| + 1..] == y;
  }

  lemma {:induction false} NameTextIsInjective(p: Path, q: Path)
    requires p != [] && q != [] && (forall s | s in p :: '/' !in s) && (forall s | s in q :: '/' !in s)
             && NameText(p) == NameText(q)
    ensures p == q
  {
    var m, n := |p| - 1, |q| - 1;
    assert p[m] in p && q[n] in q;
    if m > 0 && n > 0 {
      LastSlash(NameText(p[..m]), p[m], NameText(q[..n]), q[n]);
      NameTextIsInjective(p[..m], q[..n]);
      assert p == p[..m] + [p[m]] && q == q[..n] + [q[n]];
    }
  }

  lemma SortedStrictly(es: seq<Entry>)
    requires Bounded(es) && Sorted(es) == es
    ensures Sorting.StrictlyOrdered(es, NameOf, TextLess)
  {
    TextsAreOrdered();
    Sorting.SortOrders(es, NameOf, TextLess);
    hide Sorted, Total;
    forall i, j | 0 <= i < j < |es| ensures TextLess(NameOf(es[i]), NameOf(es[j])) {
      assert es[i] in es && es[j] in es && es[i].path != es[j].path;
      if NameOf(es[i]) == NameOf(es[j]) { NameTextIsInjective(es[i].path, es[j].path); }
    }
  }

  /** There is one canonical archive with given entries. */
  lemma OneCanonicalOrder(a: seq<Entry>, b: seq<Entry>)
    requires Canon(a) && Canon(b) && Sorted(a) == a && Sorted(b) == b && forall e :: e in a <==> e in b
    ensures a == b
  {
    hide Sorted, Bounded, Collides;
    SortedStrictly(a);
    SortedStrictly(b);
    TextsAreOrdered();
    Sorting.StrictOrderIsUnique(a, b, NameOf, TextLess);
  }

  lemma SortCompletes(es: seq<Entry>, out: seq<Entry>)
    requires Canon(out) && Completes(es, out)
    ensures Completes(es, Sorted(out))
  {
    SortKeepsCanon(out);
    hide Implied, Sorted;
  }

  lemma NothingImplied(es: seq<Entry>, out: seq<Entry>)
    requires Completes(es, out) && forall p | Needed(es, p) :: p in Paths(es)
    ensures forall e :: e in out <==> e in es
  {
  }

  lemma PackedIsCanonical(f: Format, t: Tree, out: seq<Entry>)
    requires Canon(out) && Snapshot(f, t) == Some(Tar(AsItems(out))) && (forall e | e in out :: f.fits(e))
    requires f.length(Tar(AsItems(out))) <= MAX_ARCHIVE && f.length(Tar(AsItems(Sorted(out)))) <= MAX_ARCHIVE
    ensures Canonical(f, Snapshot(f, t).value, false) == Some(Tar(AsItems(Sorted(out))))
  {
    ScanReadsBack(out);
    SortKeepsCanon(out);
    hide ScanAll, Sorted, Collides, Bounded, Snapshot;
  }

  lemma TourFits(f: Format, t: Tree)
    requires Closed(t) && AllFit(f, t)
    ensures forall e | e in TourEntries(t) :: f.fits(e)
  {
    TourEntriesAre(t);
    hide TourEntries, Closed;
  }

  /**
   * The computer's round trip: a canonical archive, unpacked, packed and made canonical again, has the same entries and
   * its missing parents; an archive that names all its directories comes back as it was.
   */
  lemma RoundTrip(f: Format, es: seq<Entry>)
    requires Canon(es) && Sorted(es) == es && Snapshot(f, Unpacked(es)).Some?
    requires f.length(Tar(AsItems(Sorted(TourEntries(Unpacked(es)))))) <= MAX_ARCHIVE
    ensures var again := Sorted(TourEntries(Unpacked(es)));
            && Canonical(f, Snapshot(f, Unpacked(es)).value, false) == Some(Tar(AsItems(again)))
            && Completes(es, again)
            && ((forall p | Needed(es, p) :: p in Paths(es)) ==> again == es)
  {
    var t, out := Unpacked(es), TourEntries(Unpacked(es));
    hide Unpacked, Unpacks, Sorted, Snapshot, Canonical, TourEntries, Completes, Closed;
    assert Canon(es);
    hide Canon;
    TourCompletes(es, t);
    SnapshotIs(f, es, t);
    TourIsCanon(es, t);
    TourFits(f, t);
    PackedIsCanonical(f, t, out);
    SortCompletes(es, out);
    if forall p | Needed(es, p) :: p in Paths(es) {
      NothingImplied(es, Sorted(out));
      SortedIsCanon(out);
      OneCanonicalOrder(Sorted(out), es);
    }
  }

  lemma SortedIsCanon(out: seq<Entry>)
    requires Canon(out)
    ensures Canon(Sorted(out)) && Sorted(Sorted(out)) == Sorted(out)
  {
    SortKeepsCanon(out);
  }
}
