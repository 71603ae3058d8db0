/** Loaded messages: responses arrive in any order, and the newest request wins row by row. */
module HistoryRows {
  import opened Prelude
  import opened HistoryCursors
  import Sorting

  datatype Message = Message(id: string, createdAt: int, content: string)

  datatype Rows = Rows(messages: seq<Message>, revisions: map<string, int>)

  function CursorOf(m: Message): Cursor { Cursor(m.createdAt, m.id) }

  predicate HasId(rows: seq<Message>, id: string) { exists i | 0 <= i < |rows| :: rows[i].id == id }

  // ---- a map from ids to messages, in the order the ids first appeared

  function Put(rows: seq<Message>, m: Message): seq<Message> {
    if HasId(rows, m.id) then seq(|rows|, i requires 0 <= i < |rows| => if rows[i].id == m.id then m else rows[i])
    else rows + [m]
  }

  function Keep(existing: seq<Message>, tombstones: set<string>): seq<Message> {
    if existing == [] then [] else
      var front, last := Keep(existing[..|existing| - 1], tombstones), existing[|existing| - 1];
      if last.id in tombstones then front else Put(front, last)
  }

  // ---- merging one response

  datatype Merging = Merging(byId: seq<Message>, revisions: map<string, int>, accepted: seq<Message>)

  function Accept(s: Merging, m: Message, tombstones: set<string>, revision: int): Merging {
    if m.id in tombstones || (m.id in s.revisions && s.revisions[m.id] > revision) then s
    else Merging(Put(s.byId, m), s.revisions[m.id := revision], Put(s.accepted, m))
  }

  function AcceptAll(s: Merging, incoming: seq<Message>, tombstones: set<string>, revision: int): Merging
    decreases |incoming|
  {
    if incoming == [] then s
    else Accept(AcceptAll(s, incoming[..|incoming| - 1], tombstones, revision), incoming[|incoming| - 1], tombstones,
                revision)
  }

  function Accepted(h: Rows, incoming: seq<Message>, tombstones: set<string>, revision: int): Merging {
    AcceptAll(Merging(Keep(h.messages, tombstones), h.revisions, []), incoming, tombstones, revision)
  }

  function MergeAt(h: Rows, incoming: seq<Message>, tombstones: set<string>, revision: int): Rows {
    var done := Accepted(h, incoming, tombstones, revision);
    Rows(SortBy(done.byId, CursorOf), done.revisions)
  }

  method MergeMessageRowsAtRevision(h: Rows, incoming: seq<Message>, tombstones: set<string>, revision: int)
    returns (merged: Rows, accepted: seq<Message>)
    ensures merged == MergeAt(h, incoming, tombstones, revision)
    ensures accepted == SortBy(Accepted(h, incoming, tombstones, revision).accepted, CursorOf)
  {
    hide Put;
    var byId: seq<Message> := [];
    for i := 0 to |h.messages|
      invariant byId == Keep(h.messages[..i], tombstones)
    {
      assert h.messages[..i + 1][..i] == h.messages[..i];
      if h.messages[i].id !in tombstones { byId := Put(byId, h.messages[i]); }
    }
    assert h.messages[..|h.messages|] == h.messages;
    ghost var start := Merging(byId, h.revisions, []);
    var next := h.revisions;
    var taken: seq<Message> := [];
    for i := 0 to |incoming|
      invariant Merging(byId, next, taken) == AcceptAll(start, incoming[..i], tombstones, revision)
    {
      assert incoming[..i + 1][..i] == incoming[..i];
      var message := incoming[i];
      if message.id in tombstones { continue; }
      if message.id in next && next[message.id] > revision { continue; }
      byId := Put(byId, message);
      taken := Put(taken, message);
      next := next[message.id := revision];
    }
    assert incoming[..|incoming|] == incoming;
    merged := Rows(SortBy(byId, CursorOf), next);
    accepted := SortBy(taken, CursorOf);
  }

  // ---- one row at a time

  /** What is held about one id. */
  datatype Entry = Entry(row: Option<Message>, revision: Option<int>)

  function Latest(rows: seq<Message>, id: string): Option<Message> {
    if rows == [] then None
    else if rows[|rows| - 1].id == id then Some(rows[|rows| - 1])
    else Latest(rows[..|rows| - 1], id)
  }

  function EntryOf(h: Rows, id: string): Entry {
    Entry(Latest(h.messages, id), if id in h.revisions then Some(h.revisions[id]) else None)
  }

  /** A response touches a row if it names it and is no older than what is held; a deleted row is never held. */
  function MergeEntry(e: Entry, incoming: Option<Message>, dead: bool, revision: int): Entry {
    if dead then Entry(None, e.revision)
    else if incoming.Some? && (e.revision.None? || e.revision.value <= revision) then Entry(incoming, Some(revision))
    else e
  }

  ghost predicate UniqueIds(rows: seq<Message>) { forall i, j | 0 <= i < j < |rows| :: rows[i].id != rows[j].id }

  lemma {:induction false} LatestIsARow(rows: seq<Message>, id: string)
    ensures Latest(rows, id).Some? ==> Latest(rows, id).value in rows && Latest(rows, id).value.id == id
  {
    if rows != [] { LatestIsARow(rows[..|rows| - 1], id); }
  }

  lemma {:induction false} LatestAt(rows: seq<Message>, i: nat)
    requires UniqueIds(rows) && i < |rows|
    ensures Latest(rows, rows[i].id) == Some(rows[i])
  {
    if i < |rows| - 1 { LatestAt(rows[..|rows| - 1], i); }
  }

  lemma LatestIsTheRow(rows: seq<Message>, x: Message)
    requires UniqueIds(rows)
    ensures Latest(rows, x.id) == Some(x) <==> x in rows
  {
    hide UniqueIds;
    LatestIsARow(rows, x.id);
    if x in rows {
      var i :| 0 <= i < |rows| && rows[i] == x;
      LatestAt(rows, i);
    }
  }

  lemma PutUpdates(rows: seq<Message>, m: Message, x: Message)
    requires UniqueIds(rows)
    ensures UniqueIds(Put(rows, m))
    ensures x in Put(rows, m) <==> if x.id == m.id then x == m else x in rows
  {
    var out := Put(rows, m);
    if HasId(rows, m.id) {
      var k :| 0 <= k < |rows| && rows[k].id == m.id;
      assert out[k] == m;
      if x in rows && x.id != m.id { var i :| 0 <= i < |rows| && rows[i] == x; assert out[i] == x; }
    } else {
      assert out == rows + [m] && out[|rows|] == m;
    }
  }

  lemma PutLatest(rows: seq<Message>, m: Message, id: string)
    requires UniqueIds(rows)
    ensures UniqueIds(Put(rows, m))
    ensures Latest(Put(rows, m), id) == if id == m.id then Some(m) else Latest(rows, id)
  {
    var out := Put(rows, m);
    PutUpdates(rows, m, m);
    hide Put, UniqueIds;
    var now, was := Latest(out, id), Latest(rows, id);
    LatestIsARow(out, id);
    LatestIsARow(rows, id);
    if now.Some? { PutUpdates(rows, m, now.value); LatestIsTheRow(rows, now.value); }
    if was.Some? { PutUpdates(rows, m, was.value); LatestIsTheRow(out, was.value); }
    LatestIsTheRow(out, m);
  }

  lemma {:induction false} KeepLatest(existing: seq<Message>, tombstones: set<string>, id: string)
    ensures UniqueIds(Keep(existing, tombstones))
    ensures Latest(Keep(existing, tombstones), id) == if id in tombstones then None else Latest(existing, id)
  {
    if existing != [] {
      var front, last := existing[..|existing| - 1], existing[|existing| - 1];
      KeepLatest(front, tombstones, id);
      PutLatest(Keep(front, tombstones), last, id);
    }
  }

  lemma {:induction false} AcceptLatest(s: Merging, incoming: seq<Message>, tombstones: set<string>, revision: int,
                                        id: string)
    requires UniqueIds(s.byId) && UniqueIds(s.accepted) && (id in tombstones ==> Latest(s.byId, id).None?)
    ensures var out := AcceptAll(s, incoming, tombstones, revision);
            && UniqueIds(out.byId) && UniqueIds(out.accepted)
            && EntryOf(Rows(out.byId, out.revisions), id)
               == MergeEntry(EntryOf(Rows(s.byId, s.revisions), id), Latest(incoming, id), id in tombstones, revision)
            && Latest(out.accepted, id)
               == if id !in tombstones && Latest(incoming, id).Some?
                 && (id !in s.revisions || s.revisions[id] <= revision)
                  then Latest(incoming, id) else Latest(s.accepted, id)
  {
    hide Put, UniqueIds;
    if incoming != [] {
      var front, m := incoming[..|incoming| - 1], incoming[|incoming| - 1];
      AcceptLatest(s, front, tombstones, revision, id);
      var mid := AcceptAll(s, front, tombstones, revision);
      PutLatest(mid.byId, m, id);
      PutLatest(mid.accepted, m, id);
    }
  }

  // ---- rows in order

  ghost predicate InOrder(messages: seq<Message>) { StrictlyOrdered(messages, CursorOf) && UniqueIds(messages) }

  lemma SortedRows(byId: seq<Message>, id: string)
    requires UniqueIds(byId)
    ensures InOrder(SortBy(byId, CursorOf)) && Latest(SortBy(byId, CursorOf), id) == Latest(byId, id)
  {
    var out := SortBy(byId, CursorOf);
    SortOrders(byId, CursorOf);
    forall i, j | 0 <= i < j < |out| ensures out[i].id != out[j].id && Before(CursorOf(out[i]), CursorOf(out[j])) {
      if out[i].id == out[j].id { SameIdTwice(byId, out, i, j); }
      CompareOrders(CursorOf(out[i]), CursorOf(out[j]));
      assert AtMost(CursorOf(out[i]), CursorOf(out[j]));
    }
    hide Before, SortBy, StrictlyOrdered;
    LatestIsARow(out, id);
    LatestIsARow(byId, id);
    if Latest(out, id).Some? {
      SortHas(byId, CursorOf, Latest(out, id).value);
      LatestIsTheRow(byId, Latest(out, id).value);
    }
    if Latest(byId, id).Some? {
      SortHas(byId, CursorOf, Latest(byId, id).value);
      LatestIsTheRow(out, Latest(byId, id).value);
    }
  }

  /** Two rows with one id cannot appear in an arrangement of rows with different ids. */
  lemma SameIdTwice(rows: seq<Message>, out: seq<Message>, i: nat, j: nat)
    requires UniqueIds(rows) && multiset(out) == multiset(rows) && i < j < |out|
    ensures out[i].id != out[j].id
  {
    if out[i].id == out[j].id {
      assert out[i] in multiset(rows) && out[j] in multiset(rows);
      var a :| 0 <= a < |rows| && rows[a] == out[i];
      var b :| 0 <= b < |rows| && rows[b] == out[j];
      assert out[i] == out[j];
      Sorting.TwiceIn(out, i, j);
      OnceIn(rows, a);
    }
  }

  lemma OnceIn(x: seq<Message>, i: nat)
    requires UniqueIds(x) && i < |x|
    ensures multiset(x)[x[i]] == 1
  {
    assert x == x[..i] + [x[i]] + x[i + 1..];
    assert x[i] !in x[..i] && x[i] !in x[i + 1..];
  }

  /** Rows in order are determined by what they hold of each id. */
  lemma SameEntriesSameRows(a: Rows, b: Rows)
    requires InOrder(a.messages) && InOrder(b.messages) && forall id :: EntryOf(a, id) == EntryOf(b, id)
    ensures a == b
  {
    hide UniqueIds, StrictlyOrdered;
    forall x ensures x in a.messages <==> x in b.messages {
      LatestIsTheRow(a.messages, x);
      LatestIsTheRow(b.messages, x);
      assert EntryOf(a, x.id) == EntryOf(b, x.id);
    }
    StrictOrderIsUnique(a.messages, b.messages, CursorOf);
    forall id ensures id in a.revisions <==> id in b.revisions { assert EntryOf(a, id) == EntryOf(b, id); }
    forall id | id in a.revisions ensures a.revisions[id] == b.revisions[id] {
      assert EntryOf(a, id) == EntryOf(b, id);
    }
    assert a.revisions == b.revisions;
  }

  /** A merge acts on every id by itself, and leaves the rows in order. */
  lemma MergeActsByRow(h: Rows, incoming: seq<Message>, tombstones: set<string>, revision: int, id: string)
    ensures InOrder(MergeAt(h, incoming, tombstones, revision).messages)
    ensures EntryOf(MergeAt(h, incoming, tombstones, revision), id)
            == MergeEntry(EntryOf(h, id), Latest(incoming, id), id in tombstones, revision)
  {
    hide UniqueIds, InOrder, SortBy;
    KeepLatest(h.messages, tombstones, id);
    var s := Merging(Keep(h.messages, tombstones), h.revisions, []);
    assert UniqueIds([]) by { NoRows(); }
    AcceptLatest(s, incoming, tombstones, revision, id);
    SortedRows(AcceptAll(s, incoming, tombstones, revision).byId, id);
  }

  lemma NoRows()
    ensures UniqueIds([])
  {
  }

  /** The caller is told of exactly the rows the merge took over. */
  lemma AcceptedRows(h: Rows, incoming: seq<Message>, tombstones: set<string>, revision: int, id: string)
    ensures var accepted := SortBy(Accepted(h, incoming, tombstones, revision).accepted, CursorOf);
            && InOrder(accepted)
            && Latest(accepted, id) == if id !in tombstones && (id !in h.revisions || h.revisions[id] <= revision)
               then Latest(incoming, id) else None
  {
    hide UniqueIds, InOrder, SortBy;
    KeepLatest(h.messages, tombstones, id);
    var s := Merging(Keep(h.messages, tombstones), h.revisions, []);
    assert UniqueIds([]) by { NoRows(); }
    AcceptLatest(s, incoming, tombstones, revision, id);
    SortedRows(AcceptAll(s, incoming, tombstones, revision).accepted, id);
  }

  // ---- responses in any order

  datatype Response = Response(incoming: seq<Message>, revision: int)

  function Receive(h: Rows, responses: seq<Response>, tombstones: set<string>): Rows
    decreases |responses|
  {
    if responses == [] then h
    else Receive(MergeAt(h, responses[0].incoming, tombstones, responses[0].revision), responses[1..], tombstones)
  }

  lemma TwoResponsesCommute(h: Rows, a: Response, b: Response, tombstones: set<string>)
    requires a.revision != b.revision
    ensures MergeAt(MergeAt(h, a.incoming, tombstones, a.revision), b.incoming, tombstones, b.revision)
            == MergeAt(MergeAt(h, b.incoming, tombstones, b.revision), a.incoming, tombstones, a.revision)
  {
    hide MergeAt, EntryOf, InOrder;
    var first, second := MergeAt(h, a.incoming, tombstones, a.revision), MergeAt(h, b.incoming, tombstones, b.revision);
    var x, y := MergeAt(first, b.incoming, tombstones, b.revision), MergeAt(second, a.incoming, tombstones, a.revision);
    MergeActsByRow(first, b.incoming, tombstones, b.revision, "");
    MergeActsByRow(second, a.incoming, tombstones, a.revision, "");
    forall id ensures EntryOf(x, id) == EntryOf(y, id) {
      MergeActsByRow(h, a.incoming, tombstones, a.revision, id);
      MergeActsByRow(h, b.incoming, tombstones, b.revision, id);
      MergeActsByRow(first, b.incoming, tombstones, b.revision, id);
      MergeActsByRow(second, a.incoming, tombstones, a.revision, id);
    }
    SameEntriesSameRows(x, y);
  }

  ghost predicate DistinctRevisions(responses: seq<Response>) {
    forall i, j | 0 <= i < j < |responses| :: responses[i].revision != responses[j].revision
  }

  function MoveFirst(responses: seq<Response>, i: nat): seq<Response>
    requires i < |responses|
  {
    [responses[i]] + responses[..i] + responses[i + 1..]
  }

  lemma ReceiveTwo(h: Rows, x: Response, y: Response, others: seq<Response>, tombstones: set<string>)
    ensures Receive(h, [x] + ([y] + others), tombstones)
            == Receive(MergeAt(MergeAt(h, x.incoming, tombstones, x.revision), y.incoming, tombstones, y.revision),
                       others, tombstones)
  {
    hide MergeAt;
    assert ([x] + ([y] + others))[1..] == [y] + others && ([y] + others)[1..] == others;
  }

  lemma MovePastFirst(responses: seq<Response>, i: nat)
    requires 0 < i < |responses|
    ensures var others := responses[1..i] + responses[i + 1..];
            && MoveFirst(responses, i) == [responses[i]] + ([responses[0]] + others)
            && MoveFirst(responses[1..], i - 1) == [responses[i]] + others
  {
    assert responses[..i] == [responses[0]] + responses[1..i];
    assert responses[1..][..i - 1] == responses[1..i] && responses[1..][i..] == responses[i + 1..];
  }

  lemma {:induction false} ReceiveFirst(h: Rows, responses: seq<Response>, i: nat, tombstones: set<string>)
    requires DistinctRevisions(responses) && i < |responses|
    ensures Receive(h, responses, tombstones) == Receive(h, MoveFirst(responses, i), tombstones)
    decreases i
  {
    hide MergeAt, MoveFirst;
    if i == 0 {
      assert MoveFirst(responses, 0) == responses by { MoveNone(responses); }
    } else {
      var x, y, others := responses[0], responses[i], responses[1..i] + responses[i + 1..];
      var h' := MergeAt(h, x.incoming, tombstones, x.revision);
      ReceiveFirst(h', responses[1..], i - 1, tombstones);
      MovePastFirst(responses, i);
      assert x.revision != y.revision;
      hide DistinctRevisions;
      assert ([y] + others)[1..] == others;
      TwoResponsesCommute(h, x, y, tombstones);
      ReceiveTwo(h, y, x, others, tombstones);
    }
  }

  lemma MoveNone(responses: seq<Response>)
    requires responses != []
    ensures MoveFirst(responses, 0) == responses
  {
  }

  /** Responses with different revisions leave the same rows and revisions in whatever order they arrive. */
  lemma {:induction false} EveryOrderConverges(h: Rows, a: seq<Response>, b: seq<Response>, tombstones: set<string>)
    requires DistinctRevisions(a) && DistinctRevisions(b) && multiset(a) == multiset(b)
    ensures Receive(h, a, tombstones) == Receive(h, b, tombstones)
    decreases |a|
  {
    hide MergeAt, MoveFirst;
    assert |multiset(a)| == |multiset(b)|;
    if a != [] {
      assert a[0] in multiset(b);
      var i :| 0 <= i < |b| && b[i] == a[0];
      ReceiveFirst(h, b, i, tombstones);
      var c := MoveFirst(b, i);
      MoveFirstKeeps(b, i);
      WithoutFirst(a);
      WithoutFirst(c);
      EveryOrderConverges(MergeAt(h, a[0].incoming, tombstones, a[0].revision), a[1..], c[1..], tombstones);
    }
  }

  lemma WithoutFirst(x: seq<Response>)
    requires x != []
    ensures multiset(x[1..]) == multiset(x) - multiset{x[0]}
  {
    assert x == [x[0]] + x[1..];
  }

  lemma MoveFirstKeeps(b: seq<Response>, i: nat)
    requires DistinctRevisions(b) && i < |b|
    ensures var c := MoveFirst(b, i);
            multiset(c) == multiset(b) && |c| == |b| && c[0] == b[i] && DistinctRevisions(c[1..])
  {
    var c := MoveFirst(b, i);
    assert b == b[..i] + [b[i]] + b[i + 1..];
    assert c[1..] == b[..i] + b[i + 1..];
    forall x, y | 0 <= x < y < |c| - 1 ensures c[1..][x].revision != c[1..][y].revision {
      assert c[1..][x] == b[if x < i then x else x + 1] && c[1..][y] == b[if y < i then y else y + 1];
    }
  }

  // ---- reconciling an exact-id response

  function Held(revisions: map<string, int>, id: string): int { if id in revisions then revisions[id] else -1 }

  /** The row or the id has changed since the reconciliation began, or is newer than it. */
  predicate Moved(revisions: map<string, int>, baseline: map<string, int>, id: string, revision: int) {
    var current := Held(revisions, id);
    current > (if id in baseline then baseline[id] else current) || current > revision
  }

  function Sieve(messages: seq<Message>, revisions: map<string, int>, batch: set<string>, present: set<string>,
                 baseline: map<string, int>, revision: int): Rows
    decreases |messages|
  {
    if messages == [] then Rows([], revisions) else
      var front, m := Sieve(messages[..|messages| - 1], revisions, batch, present, baseline, revision),
        messages[|messages| - 1];
      if m.id !in batch || m.id in present || Moved(front.revisions, baseline, m.id, revision)
        then Rows(front.messages + [m], front.revisions)
      else Rows(front.messages, front.revisions[m.id := revision])
  }

  function Stamp(revisions: map<string, int>, ids: seq<string>, present: set<string>, baseline: map<string, int>,
                 revision: int): map<string, int>
    decreases |ids|
  {
    if ids == [] then revisions else
      var done, id := Stamp(revisions, ids[..|ids| - 1], present, baseline, revision), ids[|ids| - 1];
      if id in present || Moved(done, baseline, id, revision) then done else done[id := revision]
  }

  function Ids(messages: seq<Message>): set<string> { set m | m in messages :: m.id }

  function Asked(batchIds: seq<string>): set<string> { set id | id in batchIds }

  function Reconcile(h: Rows, incoming: seq<Message>, batchIds: seq<string>, tombstones: set<string>, revision: int,
                     baseline: map<string, int>): Rows {
    var merged := MergeAt(h, incoming, tombstones, revision);
    var sieved := Sieve(merged.messages, merged.revisions, Asked(batchIds), Ids(incoming), baseline, revision);
    Rows(sieved.messages, Stamp(sieved.revisions, batchIds, Ids(incoming), baseline, revision))
  }

  method ReconcileMessageBatch(h: Rows, incoming: seq<Message>, batchIds: seq<string>, tombstones: set<string>,
                               revision: int, baseline: map<string, int>) returns (reconciled: Rows)
    ensures reconciled == Reconcile(h, incoming, batchIds, tombstones, revision, baseline)
  {
    hide MergeAt, Moved;
    var merged, _ := MergeMessageRowsAtRevision(h, incoming, tombstones, revision);
    var batch, present := Asked(batchIds), Ids(incoming);
    var next := merged.revisions;
    var messages: seq<Message> := [];
    for i := 0 to |merged.messages|
      invariant Rows(messages, next)
                == Sieve(merged.messages[..i], merged.revisions, batch, present, baseline, revision)
    {
      assert merged.messages[..i + 1][..i] == merged.messages[..i];
      var message := merged.messages[i];
      if message.id !in batch || message.id in present || Moved(next, baseline, message.id, revision) {
        messages := messages + [message];
      } else {
        next := next[message.id := revision];
      }
    }
    assert merged.messages[..|merged.messages|] == merged.messages;
    ghost var sieved := next;
    for i := 0 to |batchIds|
      invariant next == Stamp(sieved, batchIds[..i], present, baseline, revision)
    {
      assert batchIds[..i + 1][..i] == batchIds[..i];
      var id := batchIds[i];
      if id in present { continue; }
      if !Moved(next, baseline, id, revision) { next := next[id := revision]; }
    }
    assert batchIds[..|batchIds|] == batchIds;
    reconciled := Rows(messages, next);
  }

  /** An id asked for and not returned is dropped and stamped, unless it moved since the request began. */
  function ReconcileEntry(e: Entry, incoming: Option<Message>, asked: bool, dead: bool, revision: int,
                          baseline: Option<int>): Entry {
    var m := MergeEntry(e, incoming, dead, revision);
    var current := if m.revision.Some? then m.revision.value else -1;
    if !asked || incoming.Some? || current > (if baseline.Some? then baseline.value else current) || current > revision
      then m
    else Entry(None, Some(revision))
  }

  function Baseline(baseline: map<string, int>, id: string): Option<int> {
    if id in baseline then Some(baseline[id]) else None
  }

  /** The unmoved absentees: what the sieve drops and the stamp marks. */
  predicate Drops(revisions: map<string, int>, batch: set<string>, present: set<string>, baseline: map<string, int>,
                  id: string, revision: int) {
    id in batch && id !in present && !Moved(revisions, baseline, id, revision)
  }

  lemma {:induction false} SieveLatest(messages: seq<Message>, revisions: map<string, int>, batch: set<string>,
                                       present: set<string>, baseline: map<string, int>, revision: int, id: string)
    requires UniqueIds(messages)
    ensures var out := Sieve(messages, revisions, batch, present, baseline, revision);
            var dropped := Latest(messages, id).Some? && Drops(revisions, batch, present, baseline, id, revision);
            && Latest(out.messages, id) == (if dropped then None else Latest(messages, id))
            && (id in out.revisions <==> dropped || id in revisions)
            && (id in out.revisions ==> out.revisions[id] == if dropped then revision else revisions[id])
    decreases |messages|
  {
    hide Moved;
    if messages != [] {
      var n := |messages| - 1;
      var m := messages[n];
      SieveLatest(messages[..n], revisions, batch, present, baseline, revision, id);
      LatestIsARow(messages[..n], id);
      var front := Sieve(messages[..n], revisions, batch, present, baseline, revision);
      if m.id == id {
        assert Latest(messages[..n], id).None?;
        MovedAlike(front.revisions, revisions, baseline, id, revision);
      }
    }
  }

  lemma MovedAlike(a: map<string, int>, b: map<string, int>, baseline: map<string, int>, id: string, revision: int)
    requires Held(a, id) == Held(b, id)
    ensures Moved(a, baseline, id, revision) == Moved(b, baseline, id, revision)
  {
  }

  lemma {:induction false} SieveKeepsOrder(messages: seq<Message>, revisions: map<string, int>, batch: set<string>,
                                           present: set<string>, baseline: map<string, int>, revision: int)
    requires InOrder(messages)
    ensures var out := Sieve(messages, revisions, batch, present, baseline, revision).messages;
            InOrder(out) && forall x | x in out :: x in messages
    decreases |messages|
  {
    hide Before, Moved;
    if messages != [] {
      var n := |messages| - 1;
      var m := messages[n];
      assert messages == messages[..n] + [m];
      FrontInOrder(messages);
      SieveKeepsOrder(messages[..n], revisions, batch, present, baseline, revision);
      var front := Sieve(messages[..n], revisions, batch, present, baseline, revision).messages;
      BeforeTheLast(messages);
      hide InOrder;
      AppendInOrder(front, m);
    }
  }

  lemma FrontInOrder(messages: seq<Message>)
    requires InOrder(messages) && messages != []
    ensures InOrder(messages[..|messages| - 1])
  {
    hide Before;
  }

  lemma BeforeTheLast(messages: seq<Message>)
    requires InOrder(messages) && messages != []
    ensures var n := |messages| - 1; forall x | x in messages[..n] ::
            Before(CursorOf(x), CursorOf(messages[n])) && x.id != messages[n].id
  {
    hide Before;
    var n := |messages| - 1;
    forall x | x in messages[..n] ensures Before(CursorOf(x), CursorOf(messages[n])) && x.id != messages[n].id {
      var i :| 0 <= i < n && messages[i] == x;
    }
  }

  lemma AppendInOrder(front: seq<Message>, m: Message)
    requires InOrder(front) && forall x | x in front :: Before(CursorOf(x), CursorOf(m)) && x.id != m.id
    ensures InOrder(front + [m])
  {
    hide Before;
  }

  lemma {:induction false} StampActsById(revisions: map<string, int>, ids: seq<string>, present: set<string>,
                                         baseline: map<string, int>, revision: int, id: string)
    ensures var out := Stamp(revisions, ids, present, baseline, revision);
            var dropped := Drops(revisions, Asked(ids), present, baseline, id, revision);
            && (id in out <==> dropped || id in revisions)
            && (id in out ==> out[id] == if dropped then revision else revisions[id])
    decreases |ids|
  {
    if ids != [] {
      var n := |ids| - 1;
      StampActsById(revisions, ids[..n], present, baseline, revision, id);
      assert ids == ids[..n] + [ids[n]];
      assert id in Asked(ids) <==> id in Asked(ids[..n]) || id == ids[n];
    }
  }

  lemma PresentIds(incoming: seq<Message>, id: string)
    ensures id in Ids(incoming) <==> Latest(incoming, id).Some?
  {
    LatestIsARow(incoming, id);
    if id in Ids(incoming) {
      var m :| m in incoming && m.id == id;
      var i :| 0 <= i < |incoming| && incoming[i] == m;
      SomeLatest(incoming, i);
    }
  }

  lemma {:induction false} SomeLatest(rows: seq<Message>, i: nat)
    requires i < |rows|
    ensures Latest(rows, rows[i].id).Some?
  {
    if i < |rows| - 1 { SomeLatest(rows[..|rows| - 1], i); }
  }

  /** Reconciling acts on every id by itself: the exact condition under which a row is deleted. */
  lemma ReconcileActsByRow(h: Rows, incoming: seq<Message>, batchIds: seq<string>, tombstones: set<string>,
                           revision: int, baseline: map<string, int>, id: string)
    ensures InOrder(Reconcile(h, incoming, batchIds, tombstones, revision, baseline).messages)
    ensures EntryOf(Reconcile(h, incoming, batchIds, tombstones, revision, baseline), id)
            == ReconcileEntry(EntryOf(h, id), Latest(incoming, id), id in batchIds, id in tombstones, revision,
                              Baseline(baseline, id))
  {
    hide MergeAt, UniqueIds, StrictlyOrdered, Sieve, Stamp, Latest;
    var merged := MergeAt(h, incoming, tombstones, revision);
    var batch, present := Asked(batchIds), Ids(incoming);
    MergeActsByRow(h, incoming, tombstones, revision, id);
    SieveLatest(merged.messages, merged.revisions, batch, present, baseline, revision, id);
    SieveKeepsOrder(merged.messages, merged.revisions, batch, present, baseline, revision);
    var sieved := Sieve(merged.messages, merged.revisions, batch, present, baseline, revision);
    StampActsById(sieved.revisions, batchIds, present, baseline, revision, id);
    PresentIds(incoming, id);
  }

  // ---- no resurrection

  datatype Event = Merged(response: Response)
    | Reconciled(reply: Response, batchIds: seq<string>, baseline: map<string, int>)

  function RevisionOf(e: Event): int { if e.Merged? then e.response.revision else e.reply.revision }

  function Apply(h: Rows, e: Event, tombstones: set<string>): Rows {
    match e
    case Merged(r) => MergeAt(h, r.incoming, tombstones, r.revision)
    case Reconciled(r, batchIds, baseline) => Reconcile(h, r.incoming, batchIds, tombstones, r.revision, baseline)
  }

  /** Every event may come with its own, larger or smaller, set of deleted ids. */
  function Run(h: Rows, events: seq<(Event, set<string>)>): Rows
    decreases |events|
  {
    if events == [] then h else Run(Apply(h, events[0].0, events[0].1), events[1..])
  }

  /** An id stamped at a revision with no row gets none from anything older. */
  lemma {:induction false} GoneStaysGone(h: Rows, events: seq<(Event, set<string>)>, id: string, revision: int)
    requires EntryOf(h, id) == Entry(None, Some(revision)) && forall e | e in events :: RevisionOf(e.0) < revision
    ensures EntryOf(Run(h, events), id) == Entry(None, Some(revision))
    decreases |events|
  {
    hide MergeAt, Reconcile, EntryOf;
    if events != [] {
      var e, tombstones := events[0].0, events[0].1;
      assert events[0] in events && forall x | x in events[1..] :: x in events;
      match e {
        case Merged(r) => MergeActsByRow(h, r.incoming, tombstones, r.revision, id);
        case Reconciled(r, batchIds, baseline) =>
          ReconcileActsByRow(h, r.incoming, batchIds, tombstones, r.revision, baseline, id);
      }
      GoneStaysGone(Apply(h, e, tombstones), events[1..], id, revision);
    }
  }

  /** What a reconcile deletes at its revision is not brought back by any later event of an older request. */
  lemma DeletedStaysDeleted(h: Rows, incoming: seq<Message>, batchIds: seq<string>, tombstones: set<string>,
                            revision: int, baseline: map<string, int>, id: string, events: seq<(Event, set<string>)>)
    requires id in batchIds && id !in Ids(incoming)
    requires Held(h.revisions, id) <= revision && (id in baseline ==> Held(h.revisions, id) <= baseline[id])
    requires forall e | e in events :: RevisionOf(e.0) < revision
    ensures Latest(Run(Reconcile(h, incoming, batchIds, tombstones, revision, baseline), events).messages, id).None?
  {
    hide MergeAt, Reconcile, Latest;
    PresentIds(incoming, id);
    ReconcileActsByRow(h, incoming, batchIds, tombstones, revision, baseline, id);
    GoneStaysGone(Reconcile(h, incoming, batchIds, tombstones, revision, baseline), events, id, revision);
  }
}
