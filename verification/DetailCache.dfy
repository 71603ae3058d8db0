/** The session's cache of artifact details: a bounded least-recently-used map with one fetch per key. */
module CacheSteps {
  import opened Prelude
  import opened Numerals

  datatype Key = Key(accountId: string, conversationId: string, artifactId: string, revisionId: string)

  datatype Detail = Detail(id: string, revisionId: string, status: string, body: string)

  function Part(s: string): string { Digits(|s|) + ":" + s }

  function KeyOf(k: Key): string {
    Part(k.accountId) + "|" + Part(k.conversationId) + "|" + Part(k.artifactId) + "|" + Part(k.revisionId)
  }

  lemma SameFirstColon(a: string, x: string, b: string, y: string)
    requires a + ":" + x == b + ":" + y && ':' !in a && ':' !in b
    ensures a == b && x == y
  {
    var s, t := a + ":" + x, b + ":" + y;
    assert s[|a|] == ':' && t[|b|] == ':';
    assert |a| == |b|;
    assert s[..|a|] == a && t[..|b|] == b && s[|a| + 1..] == x && t[|b| + 1..] == y;
  }

  lemma SamePrefix(a: string, x: string, b: string, y: string)
    requires a + x == b + y && |a| == |b|
    ensures a == b && x == y
  {
    assert (a + x)[..|a|] == a && (b + y)[..|b|] == b && (a + x)[|a|..] == x && (b + y)[|b|..] == y;
  }

  /** A part says how long it is, so it cannot be confused with what follows it. */
  lemma PartSplits(a: string, x: string, b: string, y: string)
    requires Part(a) + x == Part(b) + y
    ensures a == b && x == y
  {
    var da, db := Digits(|a|), Digits(|b|);
    DigitsAreDigits(|a|);
    DigitsAreDigits(|b|);
    hide Digits;
    assert Part(a) + x == da + ":" + (a + x) && Part(b) + y == db + ":" + (b + y);
    SameFirstColon(da, a + x, db, b + y);
    DigitsAreUnique(|a|, |b|);
    SamePrefix(a, x, b, y);
  }

  lemma PartsSplit(a: string, x: string, b: string, y: string)
    requires Part(a) + "|" + x == Part(b) + "|" + y
    ensures a == b && x == y
  {
    hide Part;
    assert Part(a) + "|" + x == Part(a) + ("|" + x) && Part(b) + "|" + y == Part(b) + ("|" + y);
    PartSplits(a, "|" + x, b, "|" + y);
    SamePrefix("|", x, "|", y);
  }

  lemma KeyOfNests(k: Key)
    ensures KeyOf(k) == Part(k.accountId) + "|"
            + (Part(k.conversationId) + "|" + (Part(k.artifactId) + "|" + Part(k.revisionId)))
  {
    hide Part;
  }

  /** No two of all the four-part keys share a cache key. */
  lemma KeyOfIsInjective(j: Key, k: Key)
    requires KeyOf(j) == KeyOf(k)
    ensures j == k
  {
    KeyOfNests(j);
    KeyOfNests(k);
    hide Part, KeyOf;
    var j2, k2 := Part(j.artifactId) + "|" + Part(j.revisionId), Part(k.artifactId) + "|" + Part(k.revisionId);
    PartsSplit(j.accountId, Part(j.conversationId) + "|" + j2, k.accountId, Part(k.conversationId) + "|" + k2);
    PartsSplit(j.conversationId, j2, k.conversationId, k2);
    PartsSplit(j.artifactId, Part(j.revisionId), k.artifactId, Part(k.revisionId));
    assert Part(j.revisionId) + [] == Part(k.revisionId) + [];
    PartSplits(j.revisionId, [], k.revisionId, []);
  }

  // ---- the ordered map

  /** One entry of the insertion-ordered map; `origin` is the key it was fetched for, which the source does not keep. */
  datatype Stored = Stored(key: string, origin: Key, detail: Detail)

  function Keys(ready: seq<Stored>): seq<string> { seq(|ready|, i requires 0 <= i < |ready| => ready[i].key) }

  function Find(ready: seq<Stored>, key: string): Option<Stored> {
    if ready == [] then None else if ready[0].key == key then Some(ready[0]) else Find(ready[1..], key)
  }

  function Without(ready: seq<Stored>, key: string): seq<Stored> {
    if ready == [] then [] else (if ready[0].key == key then [] else [ready[0]]) + Without(ready[1..], key)
  }

  /** Delete the oldest entries until the rest fit. */
  function Evict(ready: seq<Stored>, limit: nat): seq<Stored> {
    if |ready| > limit then ready[|ready| - limit..] else ready
  }

  // ---- the cache

  datatype Failure = NotFound | MismatchedRevision

  datatype Request = Fetching(key: Key) | Settled(key: Key, result: Result<Detail, Failure>)

  /**
   * `ready` and `pending` are the cache's two maps and `requests` the promises behind `pending`. For the statements
   * only: `recency` lists the keys used since the last clear, each once, latest last, and `stored` what was last put
   * under each key.
   */
  datatype Cache = Cache(ready: seq<Stored>, pending: map<string, int>, requests: map<int, Request>,
                         recency: seq<string>, stored: map<Key, Detail>)

  datatype Reply = Hit(detail: Detail) | Joined(request: int) | Started(request: int)

  function Drop(keys: seq<string>, key: string): seq<string> {
    if keys == [] then [] else (if keys[0] == key then [] else [keys[0]]) + Drop(keys[1..], key)
  }

  function Used(recency: seq<string>, key: string): seq<string> { Drop(recency, key) + [key] }

  /** A hit moves its entry to the end. */
  function Get(c: Cache, k: Key): (Cache, Option<Detail>) {
    var found := Find(c.ready, KeyOf(k));
    if found.None? then (c, None)
    else (c.(ready := Without(c.ready, KeyOf(k)) + [found.value], recency := Used(c.recency, KeyOf(k))),
          Some(found.value.detail))
  }

  /** Up to the first await: a hit, a fetch already under way for the key, or a new one. */
  function GetOrFetch(c: Cache, k: Key, id: int): (Cache, Reply) {
    var (c', cached) := Get(c, k);
    if cached.Some? then (c', Hit(cached.value))
    else if KeyOf(k) in c.pending then (c, Joined(c.pending[KeyOf(k)]))
    else (c.(pending := c.pending[KeyOf(k) := id], requests := c.requests[id := Fetching(k)]), Started(id))
  }

  function Put(c: Cache, k: Key, detail: Detail, limit: nat): Cache {
    var moved := Without(c.ready, KeyOf(k)) + [Stored(KeyOf(k), k, detail)];
    c.(ready := Evict(moved, limit), recency := Used(c.recency, KeyOf(k)), stored := c.stored[k := detail])
  }

  function Checked(k: Key, answer: Option<Detail>): Result<Detail, Failure> {
    if answer.None? then Err(NotFound)
    else if answer.value.id != k.artifactId || answer.value.revisionId != k.revisionId then Err(MismatchedRevision)
    else Ok(answer.value)
  }

  /** The fetch resolved: only a matching, ready detail is kept. A fetch that fails of itself settles with any error. */
  function Settle(c: Cache, id: int, answer: Option<Detail>, limit: nat): Cache
    requires id in c.requests
  {
    var k := c.requests[id].key;
    var result := Checked(k, answer);
    var settled := c.(requests := c.requests[id := Settled(k, result)]);
    if result.Ok? && result.value.status == "ready" then Put(settled, k, result.value, limit) else settled
  }

  /** The starter's `finally`. */
  function Finish(c: Cache, id: int): Cache
    requires id in c.requests
  {
    var key := KeyOf(c.requests[id].key);
    c.(pending := if key in c.pending && c.pending[key] == id then c.pending - {key} else c.pending,
       requests := c.requests - {id})
  }

  function Clear(c: Cache): Cache { c.(ready := [], recency := [], stored := map[]) }

  const EMPTY := Cache([], map[], map[], [], map[])

  // ---- what always holds

  function Tail(xs: seq<string>, n: nat): seq<string> { if |xs| > n then xs[|xs| - n..] else xs }

  /** Kept under its own key, for the revision it was fetched for, ready, and the last one put there. */
  ghost predicate Genuine(s: Stored, stored: map<Key, Detail>) {
    && s.key == KeyOf(s.origin) && s.detail.id == s.origin.artifactId && s.detail.revisionId == s.origin.revisionId
    && s.detail.status == "ready" && s.origin in stored && stored[s.origin] == s.detail
  }

  ghost predicate Paired(c: Cache) {
    && (forall key | key in c.pending :: c.pending[key] in c.requests && KeyOf(c.requests[c.pending[key]].key) == key)
    && (forall id | id in c.requests ::
        KeyOf(c.requests[id].key) in c.pending && c.pending[KeyOf(c.requests[id].key)] == id)
  }

  /** The kept keys are the most recently used ones, as many as fit. */
  ghost predicate Recent(c: Cache, limit: nat) { Distinct(c.recency) && Keys(c.ready) == Tail(c.recency, limit) }

  ghost predicate Sound(c: Cache, limit: nat) {
    && (forall s | s in c.ready :: Genuine(s, c.stored))
    && Paired(c) && Recent(c, limit)
  }

  lemma {:induction false} WithoutKeeps(ready: seq<Stored>, key: string)
    ensures forall s | s in Without(ready, key) :: s in ready && s.key != key
  {
    if ready != [] { WithoutKeeps(ready[1..], key); }
  }

  lemma {:induction false} KeysWithout(ready: seq<Stored>, key: string)
    ensures Keys(Without(ready, key)) == Drop(Keys(ready), key)
  {
    if ready != [] {
      var rest := Without(ready[1..], key);
      KeysWithout(ready[1..], key);
      assert Keys(ready)[1..] == Keys(ready[1..]);
      assert Keys([ready[0]] + rest) == [ready[0].key] + Keys(rest);
      assert [] + rest == rest;
    }
  }

  lemma {:induction false} DropSplits(a: seq<string>, b: seq<string>, k: string)
    ensures Drop(a + b, k) == Drop(a, k) + Drop(b, k)
  {
    if a == [] { assert a + b == b; } else { assert (a + b)[1..] == a[1..] + b; DropSplits(a[1..], b, k); }
  }

  lemma {:induction false} DropDistinct(xs: seq<string>, k: string)
    requires Distinct(xs)
    ensures Distinct(Drop(xs, k)) && k !in Drop(xs, k) && (forall x :: x in Drop(xs, k) <==> x in xs && x != k)
    ensures if k in xs then |Drop(xs, k)| == |xs| - 1 else Drop(xs, k) == xs
  {
    if xs != [] {
      DropDistinct(xs[1..], k);
      assert xs == [xs[0]] + xs[1..];
      assert xs[0] !in xs[1..];
      if k in xs && xs[0] != k { assert k in xs[1..]; }
    }
  }

  lemma TailParts(xs: seq<string>, n: nat) returns (front: seq<string>)
    requires Distinct(xs)
    ensures var tail := Tail(xs, n);
            xs == front + tail && Distinct(front) && Distinct(tail) && (front != [] ==> |tail| == n) && |tail| <= n
              && forall x | x in tail :: x !in front
  {
    var tail := Tail(xs, n);
    front := xs[..|xs| - |tail|];
    forall x | x in tail ensures x !in front {
      var i :| 0 <= i < |tail| && tail[i] == x;
      assert xs[|front| + i] == x;
    }
  }

  /** Using a key at the end of the list and at the end of its kept part comes to the same. */
  lemma UsedTail(recency: seq<string>, k: string, limit: nat)
    requires Distinct(recency) && limit > 0
    ensures Distinct(Used(recency, k))
            && Tail(Used(recency, k), limit) == Tail(Drop(Tail(recency, limit), k) + [k], limit)
    ensures k in Tail(recency, limit) ==> |Drop(Tail(recency, limit), k) + [k]| <= limit
  {
    hide Distinct, Drop, Tail;
    var tail := Tail(recency, limit);
    var front := TailParts(recency, limit);
    DropSplits(front, tail, k);
    DropDistinct(recency, k);
    DropDistinct(tail, k);
    DropDistinct(front, k);
    assert Distinct(Used(recency, k)) by { DistinctSnoc(Drop(recency, k), k); }
    assert Used(recency, k) == Drop(front, k) + (Drop(tail, k) + [k]);
    TailOfLong(Drop(front, k), Drop(tail, k) + [k], limit);
  }

  lemma DistinctSnoc(xs: seq<string>, k: string)
    requires Distinct(xs) && k !in xs
    ensures Distinct(xs + [k])
  {
  }

  lemma TailOfLong(front: seq<string>, tail: seq<string>, limit: nat)
    requires front == [] || |tail| >= limit
    ensures Tail(front + tail, limit) == Tail(tail, limit)
  {
    if front == [] { assert front + tail == tail; }
  }

  lemma KeysOfMoved(ready: seq<Stored>, s: Stored)
    ensures Keys(Without(ready, s.key) + [s]) == Drop(Keys(ready), s.key) + [s.key]
  {
    KeysWithout(ready, s.key);
  }

  lemma KeysEvict(ready: seq<Stored>, limit: nat)
    ensures Keys(Evict(ready, limit)) == Tail(Keys(ready), limit)
  {
  }

  lemma {:induction false} FindFinds(ready: seq<Stored>, key: string)
    ensures Find(ready, key).Some? ==> Find(ready, key).value in ready && Find(ready, key).value.key == key
    ensures Find(ready, key).Some? <==> key in Keys(ready)
  {
    if ready != [] {
      FindFinds(ready[1..], key);
      assert Keys(ready) == [ready[0].key] + Keys(ready[1..]);
    }
  }

  lemma GetKeepsSound(c: Cache, k: Key, limit: nat)
    requires Sound(c, limit) && limit > 0
    ensures Sound(Get(c, k).0, limit) && Get(c, k).0.pending == c.pending
  {
    hide Genuine, Paired;
    var key := KeyOf(k);
    FindFinds(c.ready, key);
    var found := Find(c.ready, key);
    if found.Some? {
      KeysOfMoved(c.ready, found.value);
      WithoutKeeps(c.ready, key);
      UsedTail(c.recency, key, limit);
      var c' := Get(c, k).0;
      assert Paired(c') by { SamePairs(c, c'); }
      assert forall s | s in c'.ready :: s in c.ready;
    }
  }

  lemma SamePairs(c: Cache, c': Cache)
    requires Paired(c) && c'.pending == c.pending && c'.requests == c.requests
    ensures Paired(c')
  {
  }

  lemma PutKeepsRecent(c: Cache, k: Key, detail: Detail, limit: nat)
    requires Recent(c, limit) && limit > 0
    ensures Recent(Put(c, k, detail, limit), limit)
  {
    hide Without, Evict, Drop, Tail, Used, Distinct, KeyOf;
    var key := KeyOf(k);
    KeysOfMoved(c.ready, Stored(key, k, detail));
    KeysEvict(Without(c.ready, key) + [Stored(key, k, detail)], limit);
    UsedTail(c.recency, key, limit);
  }

  lemma PutKeepsGenuine(c: Cache, k: Key, detail: Detail, limit: nat)
    requires (forall s | s in c.ready :: Genuine(s, c.stored)) && Checked(k, Some(detail)).Ok?
             && detail.status == "ready"
    ensures var c' := Put(c, k, detail, limit); forall s | s in c'.ready :: Genuine(s, c'.stored)
  {
    hide KeyOf, Without;
    var key := KeyOf(k);
    WithoutKeeps(c.ready, key);
    var s, c' := Stored(key, k, detail), Put(c, k, detail, limit);
    forall x | x in c'.ready ensures Genuine(x, c'.stored) {
      assert x in Without(c.ready, key) || x == s;
    }
  }

  lemma PutKeepsSound(c: Cache, k: Key, detail: Detail, limit: nat)
    requires Sound(c, limit) && limit > 0 && Checked(k, Some(detail)).Ok? && detail.status == "ready"
    ensures Sound(Put(c, k, detail, limit), limit)
  {
    PutKeepsRecent(c, k, detail, limit);
    PutKeepsGenuine(c, k, detail, limit);
    SamePairs(c, Put(c, k, detail, limit));
    hide Paired, Recent, Genuine;
  }

  datatype Event =
    | GetEvent(key: Key)
    | FetchEvent(key: Key, id: int)
    | SettleEvent(id: int, answer: Option<Detail>)
    | FinishEvent(id: int)
    | ClearEvent

  ghost predicate Enabled(c: Cache, e: Event) {
    match e
    case GetEvent(_) => true
    case FetchEvent(_, id) => id !in c.requests
    case SettleEvent(id, _) => id in c.requests && c.requests[id].Fetching?
    case FinishEvent(id) => id in c.requests && c.requests[id].Settled?
    case ClearEvent => true
  }

  ghost function Next(c: Cache, e: Event, limit: nat): Cache
    requires Enabled(c, e)
  {
    match e
    case GetEvent(k) => Get(c, k).0
    case FetchEvent(k, id) => GetOrFetch(c, k, id).0
    case SettleEvent(id, answer) => Settle(c, id, answer, limit)
    case FinishEvent(id) => Finish(c, id)
    case ClearEvent => Clear(c)
  }

  lemma StartKeepsPairs(c: Cache, k: Key, id: int)
    requires Paired(c) && id !in c.requests && KeyOf(k) !in c.pending
    ensures Paired(c.(pending := c.pending[KeyOf(k) := id], requests := c.requests[id := Fetching(k)]))
  {
    hide KeyOf;
  }

  lemma FetchKeepsSound(c: Cache, k: Key, id: int, limit: nat)
    requires Sound(c, limit) && limit > 0 && id !in c.requests
    ensures Sound(GetOrFetch(c, k, id).0, limit)
  {
    GetKeepsSound(c, k, limit);
    hide Genuine, Recent, Paired, Get, KeyOf;
    if Get(c, k).1.None? && KeyOf(k) !in c.pending {
      StartKeepsPairs(c, k, id);
      SameRecency(c, GetOrFetch(c, k, id).0, limit);
    }
  }

  lemma SameRecency(c: Cache, c': Cache, limit: nat)
    requires Recent(c, limit) && c'.ready == c.ready && c'.recency == c.recency
    ensures Recent(c', limit)
  {
  }

  lemma AnswerKeepsPairs(c: Cache, id: int, result: Result<Detail, Failure>)
    requires Paired(c) && id in c.requests
    ensures Paired(c.(requests := c.requests[id := Settled(c.requests[id].key, result)]))
  {
    hide KeyOf;
  }

  lemma SettleKeepsSound(c: Cache, id: int, answer: Option<Detail>, limit: nat)
    requires Sound(c, limit) && limit > 0 && id in c.requests
    ensures Sound(Settle(c, id, answer, limit), limit)
  {
    var k := c.requests[id].key;
    var settled := c.(requests := c.requests[id := Settled(k, Checked(k, answer))]);
    AnswerKeepsPairs(c, id, Checked(k, answer));
    SameRecency(c, settled, limit);
    hide Genuine, Put, Paired, Recent;
    if answer.Some? && Checked(k, answer).Ok? && answer.value.status == "ready" {
      PutKeepsSound(settled, k, answer.value, limit);
    }
  }

  lemma FinishKeepsSound(c: Cache, id: int, limit: nat)
    requires Sound(c, limit) && id in c.requests
    ensures Sound(Finish(c, id), limit) && KeyOf(c.requests[id].key) !in Finish(c, id).pending
  {
    hide Genuine, Recent;
    assert Recent(Finish(c, id), limit) by { SameRecency(c, Finish(c, id), limit); }
  }

  lemma StepKeepsSound(c: Cache, e: Event, limit: nat)
    requires Sound(c, limit) && limit > 0 && Enabled(c, e)
    ensures Sound(Next(c, e, limit), limit)
  {
    hide Sound, Get, GetOrFetch, Settle, Finish;
    match e
    case GetEvent(k) => GetKeepsSound(c, k, limit);
    case FetchEvent(k, id) => FetchKeepsSound(c, k, id, limit);
    case SettleEvent(id, answer) => SettleKeepsSound(c, id, answer, limit);
    case FinishEvent(id) => FinishKeepsSound(c, id, limit);
    case ClearEvent => ClearKeepsSound(c, limit);
  }

  lemma ClearKeepsSound(c: Cache, limit: nat)
    requires Sound(c, limit)
    ensures Sound(Clear(c), limit)
  {
    SamePairs(c, Clear(c));
  }

  ghost predicate Possible(c: Cache, run: seq<Event>, limit: nat)
    decreases |run|
  {
    run == [] || (Enabled(c, run[0]) && Possible(Next(c, run[0], limit), run[1..], limit))
  }

  ghost function After(c: Cache, run: seq<Event>, limit: nat): Cache
    requires Possible(c, run, limit)
    decreases |run|
  {
    if run == [] then c else After(Next(c, run[0], limit), run[1..], limit)
  }

  lemma {:induction false} RunKeepsSound(c: Cache, run: seq<Event>, limit: nat)
    requires Sound(c, limit) && limit > 0 && Possible(c, run, limit)
    ensures Sound(After(c, run, limit), limit)
    decreases |run|
  {
    hide Sound, Enabled, Next;
    if run != [] {
      StepKeepsSound(c, run[0], limit);
      RunKeepsSound(Next(c, run[0], limit), run[1..], limit);
    }
  }

  /**
   * Over every run of lookups, fetches, answers, failures and clears: a hit is a ready detail of the asked revision,
   * the last one put under exactly this account, conversation, artifact and revision; a caller that joins a fetch
   * joins one for exactly its key; and at most one fetch per key is outstanding.
   */
  lemma EveryHitIsExact(run: seq<Event>, limit: nat, k: Key, id: int)
    requires limit > 0 && Possible(EMPTY, run, limit) && id !in After(EMPTY, run, limit).requests
    ensures var c := After(EMPTY, run, limit);
            && (Get(c, k).1.Some? ==> k in c.stored && Get(c, k).1.value == c.stored[k])
            && (Get(c, k).1.Some? ==>
                  && c.stored[k].id == k.artifactId && c.stored[k].revisionId == k.revisionId
                  && c.stored[k].status == "ready")
            && (GetOrFetch(c, k, id).1.Joined? ==>
                  GetOrFetch(c, k, id).1.request in c.requests && c.requests[GetOrFetch(c, k, id).1.request].key == k)
            && (forall i, j | i in c.requests && j in c.requests && c.requests[i].key == c.requests[j].key :: i == j)
            && |c.ready| <= limit && Keys(c.ready) == Tail(c.recency, limit)
  {
    assert Sound(EMPTY, limit);
    RunKeepsSound(EMPTY, run, limit);
    var c := After(EMPTY, run, limit);
    hide Possible, After, Part;
    FindFinds(c.ready, KeyOf(k));
    var found := Find(c.ready, KeyOf(k));
    hide KeyOf;
    if found.Some? {
      assert Genuine(found.value, c.stored);
      KeyOfIsInjective(found.value.origin, k);
    }
    if KeyOf(k) in c.pending { KeyOfIsInjective(c.requests[c.pending[KeyOf(k)]].key, k); }
    assert |Keys(c.ready)| == |c.ready|;
  }
}

/** The cache object. Promises are modelled by their request numbers. */
module DetailCache {
  import opened Prelude
  import opened CacheSteps

  class ArtifactDetailCache {
    var ready: seq<Stored>
    var pending: map<string, int>
    ghost var requests: map<int, Request>
    ghost var recency: seq<string>
    ghost var stored: map<Key, Detail>
    const maxEntries: nat

    ghost function View(): Cache
      reads this
    {
      Cache(ready, pending, requests, recency, stored)
    }

    constructor (limit: int)
      ensures View() == EMPTY && maxEntries >= 1 && (limit >= 1 ==> maxEntries == limit)
    {
      ready, pending, requests, recency, stored := [], map[], map[], [], map[];
      maxEntries := if limit < 1 then 1 else limit;
    }

    method Get(k: Key) returns (detail: Option<Detail>)
      modifies this
      ensures (View(), detail) == CacheSteps.Get(old(View()), k)
    {
      var cacheKey := KeyOf(k);
      var found := Find(ready, cacheKey);
      if found.None? { return None; }
      ready := Without(ready, cacheKey);
      ready := ready + [found.value];
      recency := Used(recency, cacheKey);
      detail := Some(found.value.detail);
    }

    /** The part before the await; `id` names the promise the fetcher would return. */
    method GetOrFetch(k: Key, id: int) returns (reply: Reply)
      modifies this
      ensures (View(), reply) == CacheSteps.GetOrFetch(old(View()), k, id)
    {
      var cacheKey := KeyOf(k);
      var cached := Get(k);
      if cached.Some? { return Hit(cached.value); }
      if cacheKey in pending { return Joined(pending[cacheKey]); }
      pending := pending[cacheKey := id];
      requests := requests[id := Fetching(k)];
      reply := Started(id);
    }

    /** The callback on the fetched detail. */
    method Resolve(k: Key, id: int, answer: Option<Detail>) returns (result: Result<Detail, Failure>)
      requires id in requests && requests[id].key == k
      modifies this
      ensures View() == Settle(old(View()), id, answer, maxEntries) && result == Checked(k, answer)
    {
      result := Checked(k, answer);
      requests := requests[id := Settled(k, result)];
      if answer.None? { return; }
      var detail := answer.value;
      if detail.id != k.artifactId || detail.revisionId != k.revisionId { return; }
      if detail.status != "ready" { return; }
      Put(k, detail);
    }

    method Put(k: Key, detail: Detail)
      modifies this
      ensures View() == CacheSteps.Put(old(View()), k, detail, maxEntries)
    {
      var cacheKey := KeyOf(k);
      ready := Without(ready, cacheKey) + [Stored(cacheKey, k, detail)];
      ghost var moved := ready;
      recency := Used(recency, cacheKey);
      stored := stored[k := detail];
      while |ready| > maxEntries
        invariant View() == CacheSteps.Put(old(View()), k, detail, maxEntries).(ready := ready)
        invariant Evict(ready, maxEntries) == Evict(moved, maxEntries)
        decreases |ready|
      {
        ready := ready[1..];
      }
    }

    method Finish(k: Key, id: int)
      requires id in requests && requests[id].key == k
      modifies this
      ensures View() == CacheSteps.Finish(old(View()), id)
    {
      var cacheKey := KeyOf(k);
      if cacheKey in pending && pending[cacheKey] == id { pending := pending - {cacheKey}; }
      requests := requests - {id};
    }

    method Clear()
      modifies this
      ensures View() == CacheSteps.Clear(old(View()))
    {
      ready := [];
      recency, stored := [], map[];
    }
  }
}
