/** What the cache promises its callers: which reply a fetch gets, what an answer does, and how long a detail stays. */
module CacheRetention {
  import opened Prelude
  import opened CacheSteps

  // ---- replies

  lemma HeldIsKept(c: Cache, k: Key, limit: nat)
    requires Sound(c, limit)
    ensures Get(c, k).1.Some? <==> KeyOf(k) in Keys(c.ready)
    ensures Get(c, k).1.Some? ==> exists s | s in c.ready :: s.origin == k && Get(c, k).1 == Some(s.detail)
  {
    hide Recent, Paired, Part;
    FindFinds(c.ready, KeyOf(k));
    var found := Find(c.ready, KeyOf(k));
    if found.Some? {
      assert Genuine(found.value, c.stored);
      KeyOfIsInjective(found.value.origin, k);
    }
  }

  /** The request outstanding for a key. */
  ghost predicate Outstanding(c: Cache, k: Key, id: int) { id in c.requests && c.requests[id].key == k }

  /**
   * In every run: a fetch is answered from the cache if the key's detail is kept, else joins the request outstanding
   * for the key, else starts its own, which is then outstanding. Only a hit or a start changes anything.
   */
  lemma FetchRepliesExactly(run: seq<Event>, limit: nat, k: Key, id: int)
    requires limit > 0 && Possible(EMPTY, run, limit) && id !in After(EMPTY, run, limit).requests
    ensures var c := After(EMPTY, run, limit);
            var (c', reply) := GetOrFetch(c, k, id);
            if KeyOf(k) in Keys(c.ready) then reply.Hit? && Some(reply.detail) == Get(c, k).1 && c' == Get(c, k).0
            else if exists r :: Outstanding(c, k, r) then reply.Joined? && Outstanding(c, k, reply.request) && c' == c
            else
              && reply == Started(id) && c'.requests == c.requests[id := Fetching(k)]
              && c'.ready == c.ready && c'.recency == c.recency && GetOrFetch(c', k, id).1 == Joined(id)
  {
    assert Sound(EMPTY, limit);
    RunKeepsSound(EMPTY, run, limit);
    var c := After(EMPTY, run, limit);
    hide After, Possible, Part;
    HeldIsKept(c, k, limit);
    hide Recent, Genuine;
    if KeyOf(k) in c.pending { KeyOfIsInjective(c.requests[c.pending[KeyOf(k)]].key, k); }
  }

  // ---- answers

  /** An answer of the asked artifact and revision. */
  predicate Matches(k: Key, answer: Option<Detail>) {
    answer.Some? && answer.value.id == k.artifactId && answer.value.revisionId == k.revisionId
  }

  /**
   * Every caller of a settled request gets the detail exactly if it is the one asked for, else the reason. It is kept
   * exactly if it is ready as well, under its own key and as the one used last; nothing else is put or moved.
   */
  lemma AnswersAreKeptExactly(c: Cache, id: int, answer: Option<Detail>, limit: nat)
    requires Sound(c, limit) && limit > 0 && Enabled(c, SettleEvent(id, answer))
    ensures var k, c' := c.requests[id].key, Next(c, SettleEvent(id, answer), limit);
            && c'.pending == c.pending && c'.requests.Keys == c.requests.Keys
            && (forall r | r in c.requests && r != id :: c'.requests[r] == c.requests[r])
            && c'.requests[id] == Settled(k, if Matches(k, answer) then Ok(answer.value)
                                             else if answer.None? then Err(NotFound) else Err(MismatchedRevision))
            && if Matches(k, answer) && answer.value.status == "ready"
               then Get(c', k).1 == Some(answer.value) && c'.recency == Used(c.recency, KeyOf(k))
               else c'.ready == c.ready && c'.recency == c.recency
  {
    var k := c.requests[id].key;
    var settled := c.(requests := c.requests[id := Settled(k, Checked(k, answer))]);
    hide Sound, KeyOf, Used, Put, Get;
    if Matches(k, answer) && answer.value.status == "ready" {
      KeptLast(settled, k, answer.value, limit);
      PutIsUse(settled, k, answer.value, limit);
    }
  }

  lemma {:induction false} FindLast(ready: seq<Stored>, s: Stored)
    requires s.key !in Keys(ready)
    ensures Find(ready + [s], s.key) == Some(s)
  {
    if ready != [] {
      assert Keys(ready)[0] == ready[0].key;
      assert (ready + [s])[1..] == ready[1..] + [s];
      assert forall i | 0 <= i < |ready| - 1 :: Keys(ready[1..])[i] == Keys(ready)[i + 1];
      FindLast(ready[1..], s);
    }
  }

  lemma KeptLast(c: Cache, k: Key, detail: Detail, limit: nat)
    requires limit > 0
    ensures Get(Put(c, k, detail, limit), k).1 == Some(detail)
  {
    hide KeyOf, Without;
    var key := KeyOf(k);
    var s := Stored(key, k, detail);
    var others := Without(c.ready, key);
    WithoutKeeps(c.ready, key);
    var moved := others + [s];
    var kept := Evict(moved, limit);
    assert kept == others[|moved| - |kept|..] + [s];
    assert key !in Keys(others[|moved| - |kept|..]);
    FindLast(others[|moved| - |kept|..], s);
  }

  lemma PutIsUse(c: Cache, k: Key, detail: Detail, limit: nat)
    ensures var c' := Put(c, k, detail, limit);
            c'.recency == Used(c.recency, KeyOf(k)) && c'.pending == c.pending && c'.requests == c.requests
  {
    hide KeyOf, Used, Without, Evict;
  }

  // ---- retention

  /** The key an event is about. */
  ghost function About(c: Cache, e: Event): Option<Key> {
    match e
    case GetEvent(k) => Some(k)
    case FetchEvent(k, _) => Some(k)
    case SettleEvent(id, _) => if id in c.requests then Some(c.requests[id].key) else None
    case _ => None
  }

  /** The run never clears the cache, gets no other answer for `k`, and is otherwise about the given keys only. */
  ghost predicate Spares(c: Cache, run: seq<Event>, limit: nat, k: Key, others: set<Key>)
    requires Possible(c, run, limit)
    decreases |run|
  {
    run == [] ||
    (&& !run[0].ClearEvent?
     && (About(c, run[0]) == Some(k) ==> !run[0].SettleEvent?)
     && (About(c, run[0]).Some? ==> About(c, run[0]).value == k || About(c, run[0]).value in others)
     && Spares(Next(c, run[0], limit), run[1..], limit, k, others))
  }

  /** The key is in use, and only the given ones were used after it. */
  ghost predicate Behind(recency: seq<string>, key: string, later: set<string>) {
    exists i | 0 <= i < |recency| :: recency[i] == key && forall y | y in recency[i + 1..] :: y in later
  }

  lemma DistinctParts(front: seq<string>, tail: seq<string>)
    requires Distinct(front + tail)
    ensures Distinct(tail)
  {
    forall i, j | 0 <= i < j < |tail| ensures tail[i] != tail[j] {
      assert (front + tail)[|front| + i] == tail[i] && (front + tail)[|front| + j] == tail[j];
    }
  }

  lemma DropAround(front: seq<string>, key: string, tail: seq<string>, x: string)
    requires x != key
    ensures Drop(front + ([key] + tail), x) == Drop(front, x) + ([key] + Drop(tail, x))
  {
    DropSplits(front, [key] + tail, x);
    DropSplits([key], tail, x);
    assert Drop([key], x) == [key] by { assert [key][1..] == []; }
  }

  lemma BehindParts(xs: seq<string>, key: string, later: set<string>) returns (front: seq<string>, tail: seq<string>)
    requires Behind(xs, key, later)
    ensures xs == front + ([key] + tail) && xs == (front + [key]) + tail && forall y | y in tail :: y in later
  {
    var i :| 0 <= i < |xs| && xs[i] == key && forall y | y in xs[i + 1..] :: y in later;
    front, tail := xs[..i], xs[i + 1..];
  }

  lemma PartsAreBehind(front: seq<string>, key: string, tail: seq<string>, later: set<string>)
    requires forall y | y in tail :: y in later
    ensures Behind(front + ([key] + tail), key, later)
  {
    var xs := front + ([key] + tail);
    assert xs[|front|] == key && xs[|front| + 1..] == tail;
  }

  lemma DropKeepsOrder(xs: seq<string>, x: string, key: string, later: set<string>)
    requires Behind(xs, key, later) && x != key && Distinct(xs)
    ensures Behind(Drop(xs, x), key, later)
  {
    hide Drop, Distinct, Behind;
    var front, tail := BehindParts(xs, key, later);
    DistinctParts(front + [key], tail);
    DropAround(front, key, tail, x);
    DropDistinct(tail, x);
    PartsAreBehind(Drop(front, x), key, Drop(tail, x), later);
  }

  lemma UsedKeepsOrder(recency: seq<string>, x: string, key: string, later: set<string>)
    requires Distinct(recency) && (x == key || (Behind(recency, key, later) && x in later))
    ensures Behind(Used(recency, x), key, later)
  {
    if x == key {
      LastIsBehindNone(Drop(recency, x), key, later);
    } else {
      DropKeepsOrder(recency, x, key, later);
      OneMoreBehind(Drop(recency, x), x, key, later);
    }
  }

  lemma LastIsBehindNone(kept: seq<string>, key: string, later: set<string>)
    ensures Behind(kept + [key], key, later)
  {
    var used := kept + [key];
    assert used[|kept|] == key && used[|kept| + 1..] == [];
  }

  lemma OneMoreBehind(kept: seq<string>, x: string, key: string, later: set<string>)
    requires Behind(kept, key, later) && x in later
    ensures Behind(kept + [x], key, later)
  {
    var i :| 0 <= i < |kept| && kept[i] == key && forall y | y in kept[i + 1..] :: y in later;
    var used := kept + [x];
    assert used[i] == key && used[i + 1..] == kept[i + 1..] + [x];
  }

  /** Fewer than `limit` keys after it: the key is among the last `limit`. */
  lemma BehindFewIsKept(recency: seq<string>, key: string, later: set<string>, limit: nat)
    requires Distinct(recency) && Behind(recency, key, later) && |later| < limit
    ensures key in Tail(recency, limit)
  {
    var i :| 0 <= i < |recency| && recency[i] == key && forall y | y in recency[i + 1..] :: y in later;
    var after := recency[i + 1..];
    var seen := set x | x in after;
    assert seen <= later;
    assert later == seen + (later - seen);
    DistinctSize(after);
    if |recency| > limit { assert Tail(recency, limit)[i - (|recency| - limit)] == key; }
  }

  lemma {:induction false} DistinctSize(xs: seq<string>)
    requires Distinct(xs)
    ensures |set x | x in xs| == |xs|
  {
    if xs != [] {
      DistinctSize(xs[1..]);
      assert xs == [xs[0]] + xs[1..];
      assert (set x | x in xs) == {xs[0]} + (set x | x in xs[1..]);
      assert xs[0] !in xs[1..];
    }
  }

  lemma GetRecency(c: Cache, k: Key)
    ensures Get(c, k).0.stored == c.stored
    ensures Get(c, k).0.recency == c.recency || Get(c, k).0.recency == Used(c.recency, KeyOf(k))
  {
  }

  /** A step about one of the given keys leaves the detail in place, behind those keys only. */
  lemma StepSpares(c: Cache, e: Event, limit: nat, k: Key, others: set<Key>)
    requires Sound(c, limit) && limit > 0 && Enabled(c, e) && !e.ClearEvent?
    requires About(c, e) == Some(k) ==> !e.SettleEvent?
    requires About(c, e).Some? ==> About(c, e).value == k || About(c, e).value in others
    requires k in c.stored && Behind(c.recency, KeyOf(k), set o | o in others :: KeyOf(o))
    ensures var c' := Next(c, e, limit);
            && k in c'.stored && c'.stored[k] == c.stored[k]
            && Behind(c'.recency, KeyOf(k), set o | o in others :: KeyOf(o))
  {
    hide KeyOf, Behind, Used, Genuine, Paired, Sound;
    assert Distinct(c.recency) by { SoundIsDistinct(c, limit); }
    var later := set o | o in others :: KeyOf(o);
    match e
    case GetEvent(x) =>
      GetRecency(c, x);
      UsedKeepsOrder(c.recency, KeyOf(x), KeyOf(k), later);
    case FetchEvent(x, id) =>
      GetRecency(c, x);
      UsedKeepsOrder(c.recency, KeyOf(x), KeyOf(k), later);
    case SettleEvent(id, answer) =>
      UsedKeepsOrder(c.recency, KeyOf(c.requests[id].key), KeyOf(k), later);
    case FinishEvent(_) =>
  }

  lemma SoundIsDistinct(c: Cache, limit: nat)
    requires Sound(c, limit)
    ensures Distinct(c.recency) && Keys(c.ready) == Tail(c.recency, limit)
  {
  }

  lemma {:induction false} RunSpares(c: Cache, run: seq<Event>, limit: nat, k: Key, others: set<Key>)
    requires Sound(c, limit) && limit > 0 && Possible(c, run, limit) && Spares(c, run, limit, k, others)
    requires k in c.stored && Behind(c.recency, KeyOf(k), set o | o in others :: KeyOf(o))
    ensures var c' := After(c, run, limit);
            && Sound(c', limit) && k in c'.stored && c'.stored[k] == c.stored[k]
            && Behind(c'.recency, KeyOf(k), set o | o in others :: KeyOf(o))
    decreases |run|
  {
    hide Sound, Enabled, Next, Behind, KeyOf, About;
    if run != [] {
      StepSpares(c, run[0], limit, k, others);
      StepKeepsSound(c, run[0], limit);
      RunSpares(Next(c, run[0], limit), run[1..], limit, k, others);
    }
  }

  lemma FewKeys(others: set<Key>)
    ensures |set o | o in others :: KeyOf(o)| <= |others|
    decreases others
  {
    hide KeyOf;
    if others != {} {
      var o :| o in others;
      FewKeys(others - {o});
      assert (set x | x in others :: KeyOf(x)) == {KeyOf(o)} + (set x | x in others - {o} :: KeyOf(x));
    }
  }

  /**
   * A kept detail stays: in every run, from the moment it is put until the cache is cleared or another answer for its
   * key arrives, it is hit as long as fewer than `limit` other keys are looked up, fetched or answered meanwhile.
   */
  lemma KeptUntilCrowdedOut(before: seq<Event>, id: int, answer: Option<Detail>, run: seq<Event>, limit: nat,
                            others: set<Key>)
    requires limit > 0 && Possible(EMPTY, before, limit)
    requires Enabled(After(EMPTY, before, limit), SettleEvent(id, answer))
    requires var c := After(EMPTY, before, limit);
             var k, c1 := c.requests[id].key, Next(c, SettleEvent(id, answer), limit);
             && Matches(k, answer) && answer.value.status == "ready" && Possible(c1, run, limit)
             && Spares(c1, run, limit, k, others) && |others| < limit
    ensures var c := After(EMPTY, before, limit);
            var k, c1 := c.requests[id].key, Next(c, SettleEvent(id, answer), limit);
            Get(After(c1, run, limit), k).1 == Some(answer.value)
  {
    var c := After(EMPTY, before, limit);
    var k, c1 := c.requests[id].key, Next(c, SettleEvent(id, answer), limit);
    assert Sound(EMPTY, limit);
    RunKeepsSound(EMPTY, before, limit);
    StepKeepsSound(c, SettleEvent(id, answer), limit);
    var later := set o | o in others :: KeyOf(o);
    hide Possible, After, Genuine, Paired, KeyOf, Spares, Part;
    SoundIsDistinct(c, limit);
    UsedKeepsOrder(c.recency, KeyOf(k), KeyOf(k), later);
    assert c1.recency == Used(c.recency, KeyOf(k)) && k in c1.stored && c1.stored[k] == answer.value;
    hide Next, Sound, Used, Behind;
    RunSpares(c1, run, limit, k, others);
    var c' := After(c1, run, limit);
    SoundIsDistinct(c', limit);
    FewKeys(others);
    BehindFewIsKept(c'.recency, KeyOf(k), later, limit);
    HeldIsKept(c', k, limit);
    HeldIsStored(c', k, limit);
  }

  lemma HeldIsStored(c: Cache, k: Key, limit: nat)
    requires Sound(c, limit) && Get(c, k).1.Some?
    ensures k in c.stored && Get(c, k).1 == Some(c.stored[k])
  {
    hide Recent, Paired, Part;
    HeldIsKept(c, k, limit);
    var s :| s in c.ready && s.origin == k && Get(c, k).1 == Some(s.detail);
    assert Genuine(s, c.stored);
  }

  /** After a clear nothing is hit. */
  lemma ClearedHoldsNothing(c: Cache, k: Key, limit: nat)
    ensures Get(Next(c, ClearEvent, limit), k).1 == None
  {
  }
}
