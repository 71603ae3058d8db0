/** Exactly which archives the restore program unpacks, in whatever order their items come, and into which tree. */
module RestoreAcceptance {
  import opened Prelude
  import opened Archive
  import opened ArchiveLaws
  import opened ArchiveAcceptance

  /** An ordinary file with all its content, or a directory, under a name that leads nowhere else. */
  predicate Unpackable(item: Item) {
    && GoodName(item.path) && !item.sparse && 0 <= item.size <= MAX_FILE
    && ((item.kind.Regular? && |item.content| == item.size) || item.kind.Directory?)
  }

  function ItemSizes(items: seq<Item>): int {
    if items == [] then 0 else ItemSizes(items[..|items| - 1]) + items[|items| - 1].size
  }

  ghost predicate DistinctItems(items: seq<Item>) {
    forall i, j | 0 <= i < j < |items| :: items[i].path != items[j].path
  }

  /** The first path lies strictly above the second. */
  predicate Above(p: Path, q: Path) { |p| < |q| && p == q[..|p|] }

  /** Some item lies below a file. */
  ghost predicate BelowAFile(items: seq<Item>) {
    exists a, b | a in items && b in items :: a.kind.Regular? && Above(a.path, b.path)
  }

  /** Every item can be unpacked, no name comes twice, the limits are kept, and nothing lies below a file. */
  ghost predicate Restorable(items: seq<Item>) {
    && (forall item | item in items :: Unpackable(item))
    && DistinctItems(items) && |items| <= MAX_FILES && ItemSizes(items) <= MAX_WORKSPACE
    && !BelowAFile(items)
  }

  function ItemPaths(items: seq<Item>): set<Path> { set item | item in items :: item.path }

  /** One path's part of the description of the tree. */
  ghost predicate NodeFits(tree: Tree, items: seq<Item>, p: Path) {
    && (p in tree <==> exists item | item in items :: p == item.path || (p != [] && Above(p, item.path)))
    && (p in tree ==> forall item | item in items && item.path == p ::
          tree[p] == if item.kind.Directory? then Dir else File(item.content))
    && (p in tree && p !in ItemPaths(items) ==> tree[p] == Dir)
  }

  /** The tree of the items: their files, their directories, and the directories that lie above either. */
  ghost predicate IsTreeOf(tree: Tree, items: seq<Item>) { forall p :: NodeFits(tree, items, p) }

  ghost predicate Restored(r: Restoring, items: seq<Item>) {
    && r.seen == ItemPaths(items) && |r.seen| == |items| && r.total == ItemSizes(items) && IsTreeOf(r.tree, items)
  }

  /** What one more item needs. */
  ghost predicate Joins(items: seq<Item>, item: Item) {
    && Unpackable(item) && item.path !in ItemPaths(items)
    && |items| < MAX_FILES && ItemSizes(items) + item.size <= MAX_WORKSPACE
    && (forall a | a in items :: a.kind.Regular? ==> !Above(a.path, item.path))
    && (item.kind.Regular? ==> forall b | b in items :: !Above(item.path, b.path))
  }

  lemma AboveIsStrict(p: Path)
    ensures !Above(p, p)
  {
  }

  lemma SizesGrow(items: seq<Item>, item: Item)
    ensures ItemSizes(items + [item]) == ItemSizes(items) + item.size
    ensures ItemPaths(items + [item]) == ItemPaths(items) + {item.path}
  {
    assert (items + [item])[..|items|] == items;
    assert forall x :: x in items + [item] <==> x in items || x == item;
  }

  lemma DistinctGrows(items: seq<Item>, item: Item)
    ensures DistinctItems(items + [item]) <==> DistinctItems(items) && item.path !in ItemPaths(items)
  {
    var all := items + [item];
    assert all[|items|] == item && forall i | 0 <= i < |items| :: all[i] == items[i];
    forall i | 0 <= i < |items| ensures items[i].path in ItemPaths(items) { assert items[i] in items; }
    assert item.path in ItemPaths(items) ==> exists i | 0 <= i < |items| :: items[i].path == item.path;
  }

  lemma ItemsGrow(items: seq<Item>, item: Item)
    ensures ItemSizes(items + [item]) == ItemSizes(items) + item.size
    ensures ItemPaths(items + [item]) == ItemPaths(items) + {item.path}
    ensures forall x :: x in items + [item] <==> x in items || x == item
    ensures DistinctItems(items + [item]) <==> DistinctItems(items) && item.path !in ItemPaths(items)
  {
    SizesGrow(items, item);
    DistinctGrows(items, item);
    hide ItemSizes, ItemPaths, DistinctItems;
  }

  lemma BelowAFileGrows(items: seq<Item>, item: Item)
    ensures BelowAFile(items + [item]) <==>
            || BelowAFile(items)
            || (exists a | a in items :: a.kind.Regular? && Above(a.path, item.path))
            || (item.kind.Regular? && exists b | b in items :: Above(item.path, b.path))
  {
    assert forall x :: x in items + [item] <==> x in items || x == item;
    AboveIsStrict(item.path);
  }

  lemma RestorableSnoc(items: seq<Item>, item: Item)
    ensures Restorable(items + [item]) <==> Restorable(items) && Joins(items, item)
  {
    ItemsGrow(items, item);
    BelowAFileGrows(items, item);
    assert Unpackable(item) ==> item.size >= 0;
    hide Unpackable, DistinctItems, ItemSizes, ItemPaths, BelowAFile, Above;
  }

  // ---- the tree so far

  /** What lies above a path and is no item is a directory; so only an item that is a file can be in the way. */
  lemma InTheWay(tree: Tree, items: seq<Item>, p: Path)
    requires IsTreeOf(tree, items) && forall item | item in items :: Unpackable(item)
    ensures BelowFile(tree, p) <==> exists a | a in items :: a.kind.Regular? && Above(a.path, p)
  {
    hide GoodName;
    if BelowFile(tree, p) {
      var i :| 0 < i < |p| && p[..i] in tree && tree[p[..i]].File?;
      assert NodeFits(tree, items, p[..i]);
      var a :| a in items && a.path == p[..i];
      assert Above(a.path, p);
    }
    forall a | a in items && a.kind.Regular? && Above(a.path, p) ensures BelowFile(tree, p) {
      assert a.path != [] by { assert Unpackable(a); NamesHaveParts(a.path); }
      assert NodeFits(tree, items, p[..|a.path|]);
    }
  }

  lemma NamesHaveParts(p: Path)
    requires GoodName(p)
    ensures p != []
  {
  }

  lemma HeldNames(tree: Tree, items: seq<Item>, item: Item)
    requires IsTreeOf(tree, items) && Unpackable(item)
    ensures item.path in WithParents(tree, item.path) <==>
            item.path in ItemPaths(items) || exists b | b in items :: Above(item.path, b.path)
    ensures item.path in WithParents(tree, item.path) && item.path !in ItemPaths(items) ==>
            WithParents(tree, item.path)[item.path] == Dir
  {
    NamesHaveParts(item.path);
    hide GoodName;
    var p := item.path;
    assert p !in Parents(p) by { assert forall i | 0 < i < |p| :: |p[..i]| < |p|; }
    assert p in WithParents(tree, p) <==> p in tree;
    assert NodeFits(tree, items, p);
  }

  /** One more item changes the tree by its own node and the directories above it. */
  lemma TreeGrows(tree: Tree, items: seq<Item>, item: Item)
    requires IsTreeOf(tree, items) && Joins(items, item) && (forall x | x in items :: Unpackable(x))
    ensures IsTreeOf(WithParents(tree, item.path)[item.path := if item.kind.Directory? then Dir
                                                  else File(item.content)],
                     items + [item])
  {
    var p, all := item.path, items + [item];
    var node := if item.kind.Directory? then Dir else File(item.content);
    var next := WithParents(tree, p)[p := node];
    NamesHaveParts(p);
    ItemsGrow(items, item);
    hide Unpackable, ItemSizes, DistinctItems, GoodName;
    forall q ensures NodeFits(next, all, q) {
      ParentsAreAbove(p, q);
      NodeGrows(tree, items, item, q);
    }
  }

  lemma ParentsAreAbove(p: Path, q: Path)
    ensures q in Parents(p) <==> q != [] && Above(q, p)
  {
    if q != [] && Above(q, p) { assert p[..|q|] in Parents(p); }
  }

  lemma NodeGrows(tree: Tree, items: seq<Item>, item: Item, q: Path)
    requires NodeFits(tree, items, q) && item.path !in ItemPaths(items)
    requires q in Parents(item.path) <==> q != [] && Above(q, item.path)
    requires forall a | a in items :: a.kind.Regular? ==> !Above(a.path, item.path)
    requires forall x | x in items :: x.kind.Regular? || x.kind.Directory?
    ensures NodeFits(WithParents(tree, item.path)[item.path := if item.kind.Directory? then Dir
                                                  else File(item.content)],
                     items + [item], q)
  {
    var all := items + [item];
    ItemsGrow(items, item);
    hide DistinctItems, ItemSizes;
    AboveIsStrict(item.path);
  }

  // ---- the whole list

  lemma ItemJoins(r: Restoring, items: seq<Item>, item: Item)
    requires Restored(r, items) && forall x | x in items :: Unpackable(x)
    ensures RestoreItem(r, item).Some? <==> Joins(items, item)
  {
    SafePathsAreStorable(item.path);
    InTheWay(r.tree, items, item.path);
    if Unpackable(item) { HeldNames(r.tree, items, item); }
    hide SafeParts, GoodName, BelowFile, WithParents, ItemPaths, ItemSizes, IsTreeOf, Above;
  }

  lemma ItemRestored(r: Restoring, items: seq<Item>, item: Item)
    requires Restored(r, items) && (forall x | x in items :: Unpackable(x)) && Joins(items, item)
    requires RestoreItem(r, item).Some?
    ensures Restored(RestoreItem(r, item).value, items + [item])
  {
    hide RestoreItem, WithParents, IsTreeOf, Above;
    RestoredAsOne(r, item);
    ItemsGrow(items, item);
    TreeGrows(r.tree, items, item);
    OneMore(ItemPaths(items), item.path);
    hide ItemPaths, ItemSizes, DistinctItems, Unpackable;
  }

  /** What the program does with an item it takes. */
  lemma RestoredAsOne(r: Restoring, item: Item)
    requires RestoreItem(r, item).Some?
    ensures var node := if item.kind.Directory? then Dir else File(item.content);
            RestoreItem(r, item).value
            == Restoring(WithParents(r.tree, item.path)[item.path := node], r.seen + {item.path}, r.total + item.size)
  {
    hide SafeParts, BelowFile, WithParents;
  }

  lemma NothingRestored()
    ensures Restorable([]) && Restored(EMPTY_ROOT, [])
  {
    assert ItemPaths([]) == {};
  }

  /**
   * The program unpacks exactly the lists whose items can be unpacked, with no name twice, within the limits, and with
   * nothing below a file, whichever comes first; the tree is then that of the items.
   */
  lemma {:induction false} RestoredExactlyWhen(items: seq<Item>)
    ensures RestoreAll(items).Some? <==> Restorable(items)
    ensures RestoreAll(items).Some? ==>
            IsTreeOf(RestoreAll(items).value.tree, items) && Restored(RestoreAll(items).value, items)
  {
    hide RestoreItem, Joins, IsTreeOf, ItemPaths, ItemSizes, BelowAFile, DistinctItems, Unpackable;
    if items == [] {
      NothingRestored();
    } else {
      var front, last := items[..|items| - 1], items[|items| - 1];
      assert items == front + [last];
      RestoredExactlyWhen(front);
      RestorableSnoc(front, last);
      if RestoreAll(front).Some? {
        ItemJoins(RestoreAll(front).value, front, last);
        if Joins(front, last) { ItemRestored(RestoreAll(front).value, front, last); }
      }
    }
  }

  // ---- any order

  lemma {:induction false} DistinctByNames(items: seq<Item>)
    ensures |ItemPaths(items)| <= |items| && (|ItemPaths(items)| == |items| <==> DistinctItems(items))
  {
    if items == [] {
      assert ItemPaths(items) == {};
    } else {
      var front, last := items[..|items| - 1], items[|items| - 1];
      assert items == front + [last];
      DistinctByNames(front);
      ItemsGrow(front, last);
      hide ItemPaths, DistinctItems;
      OneMore(ItemPaths(front), last.path);
    }
  }

  lemma OneMore(paths: set<Path>, p: Path)
    ensures |paths + {p}| == if p in paths then |paths| else |paths| + 1
  {
    if p in paths { assert paths + {p} == paths; }
  }

  lemma {:induction false} SizesWithout(items: seq<Item>, i: nat)
    requires i < |items|
    ensures ItemSizes(items) == ItemSizes(items[..i] + items[i + 1..]) + items[i].size
    decreases |items|
  {
    var n := |items| - 1;
    var front, last := items[..n], items[n];
    if i == n {
      assert items[..i] + items[i + 1..] == front;
    } else {
      SizesWithout(front, i);
      var less := front[..i] + front[i + 1..];
      assert items[..i] + items[i + 1..] == less + [last];
      ItemsGrow(less, last);
    }
  }

  lemma WithoutOne(items: seq<Item>, i: nat)
    requires i < |items|
    ensures multiset(items[..i] + items[i + 1..]) == multiset(items) - multiset{items[i]}
  {
    assert items == items[..i] + ([items[i]] + items[i + 1..]);
  }

  lemma {:induction false} SizesOfAnyOrder(a: seq<Item>, b: seq<Item>)
    requires multiset(a) == multiset(b)
    ensures ItemSizes(a) == ItemSizes(b)
    decreases |a|
  {
    assert |multiset(a)| == |multiset(b)|;
    if a != [] {
      var n := |a| - 1;
      assert a[n] in multiset(b);
      var i :| 0 <= i < |b| && b[i] == a[n];
      WithoutOne(a, n);
      WithoutOne(b, i);
      assert a[..n] + a[n + 1..] == a[..n];
      SizesWithout(b, i);
      SizesOfAnyOrder(a[..n], b[..i] + b[i + 1..]);
    }
  }

  lemma RestorableInAnyOrder(a: seq<Item>, b: seq<Item>)
    requires multiset(a) == multiset(b)
    ensures Restorable(a) <==> Restorable(b)
    ensures forall x :: x in a <==> x in b
  {
    forall x ensures x in a <==> x in b { assert x in multiset(a) <==> x in multiset(b); }
    assert |multiset(a)| == |multiset(b)|;
    DistinctByNames(a);
    DistinctByNames(b);
    SizesOfAnyOrder(a, b);
    assert ItemPaths(a) == ItemPaths(b);
    assert BelowAFile(a) <==> BelowAFile(b);
    hide ItemPaths, ItemSizes, DistinctItems, BelowAFile, Unpackable;
  }

  /** So the order of the items makes no difference, neither to whether they are unpacked nor to the tree. */
  lemma OrderMakesNoDifference(a: seq<Item>, b: seq<Item>)
    requires multiset(a) == multiset(b)
    ensures RestoreAll(a).Some? <==> RestoreAll(b).Some?
    ensures RestoreAll(a).Some? ==> RestoreAll(a).value.tree == RestoreAll(b).value.tree
  {
    RestoredExactlyWhen(a);
    RestoredExactlyWhen(b);
    RestorableInAnyOrder(a, b);
    hide RestoreAll, Above, Restorable;
    if RestoreAll(a).Some? {
      var s, t := RestoreAll(a).value.tree, RestoreAll(b).value.tree;
      forall p ensures (p in s <==> p in t) && (p in s ==> s[p] == t[p]) {
        assert NodeFits(s, a, p) && NodeFits(t, b, p);
      }
    }
  }
}
