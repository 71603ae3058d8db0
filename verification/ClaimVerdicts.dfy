/** What each claim is matched to, in terms of the pool, the scores and the judge's verdicts alone. */
module ClaimVerdicts {
  import opened Prelude
  import opened ClaimEvidence
  import opened ClaimEvents
  import opened ClaimPlanner
  import opened ClaimTurns
  import opened ClaimMatcher

  // ---- the decision

  /** The judge lets the two be one, or says nothing of them and they are near-identical with the same figures. */
  predicate Merges(j: Judging, c: Candidate, i: nat, text: string, verdicts: map<PairId, Verdict>) {
    var id := PairId(i, c.entry.ref);
    if id in verdicts then verdicts[id] == VerdictSame && j.allowMerge(c.entry.text, text, c.score)
    else c.score >= MATCH_AUTO_SCORE && j.sameNumbers(c.entry.text, text)
  }

  predicate Contradicts(c: Candidate, i: nat, verdicts: map<PairId, Verdict>) {
    PairId(i, c.entry.ref) in verdicts && verdicts[PairId(i, c.entry.ref)] == VerdictContradicts
  }

  /** The first candidate that merges. */
  ghost predicate FirstToMerge(j: Judging, candidates: seq<Candidate>, i: nat, text: string,
                               verdicts: map<PairId, Verdict>, k: int) {
    && 0 <= k < |candidates| && Merges(j, candidates[k], i, text, verdicts)
    && forall l | 0 <= l < k :: !Merges(j, candidates[l], i, text, verdicts)
  }

  ghost predicate FirstToContradict(candidates: seq<Candidate>, i: nat, verdicts: map<PairId, Verdict>, k: int) {
    && 0 <= k < |candidates| && Contradicts(candidates[k], i, verdicts)
    && forall l | 0 <= l < k :: !Contradicts(candidates[l], i, verdicts)
  }

  ghost predicate NoneMerges(j: Judging, candidates: seq<Candidate>, i: nat, text: string,
                             verdicts: map<PairId, Verdict>) {
    forall k | 0 <= k < |candidates| :: !Merges(j, candidates[k], i, text, verdicts)
  }

  /** The first candidate that merges; if none does, the first in contradiction; else a new claim. */
  ghost predicate DecidedBy(j: Judging, candidates: seq<Candidate>, i: nat, text: string,
                            verdicts: map<PairId, Verdict>, m: Match) {
    match m
    case Same(ref) =>
      exists k :: FirstToMerge(j, candidates, i, text, verdicts, k) && candidates[k].entry.ref == ref
    case Conflicting(ref) =>
      && NoneMerges(j, candidates, i, text, verdicts)
      && exists k :: FirstToContradict(candidates, i, verdicts, k) && candidates[k].entry.ref == ref
    case New =>
      && NoneMerges(j, candidates, i, text, verdicts)
      && forall k | 0 <= k < |candidates| :: !Contradicts(candidates[k], i, verdicts)
  }

  lemma {:induction false} DecideSkips(j: Judging, candidates: seq<Candidate>, i: nat, text: string,
                                       verdicts: map<PairId, Verdict>, conflict: Option<Ref>, n: nat)
    requires n <= |candidates| && forall k | 0 <= k < n :: !Merges(j, candidates[k], i, text, verdicts)
    requires conflict.None? ==> forall k | 0 <= k < n :: !Contradicts(candidates[k], i, verdicts)
    ensures Decide(j, candidates, i, text, verdicts, conflict)
         == Decide(j, candidates[n..], i, text, verdicts, conflict)
  {
    if n > 0 {
      assert candidates[1..][n - 1..] == candidates[n..];
      assert forall k | 0 <= k < n - 1 :: candidates[1..][k] == candidates[k + 1];
      assert !Merges(j, candidates[0], i, text, verdicts);
      DecideSkips(j, candidates[1..], i, text, verdicts, conflict, n - 1);
    }
  }

  lemma DecideMerges(j: Judging, candidates: seq<Candidate>, i: nat, text: string, verdicts: map<PairId, Verdict>,
                     conflict: Option<Ref>)
    requires candidates != [] && Merges(j, candidates[0], i, text, verdicts)
    ensures Decide(j, candidates, i, text, verdicts, conflict) == Same(candidates[0].entry.ref)
  {
  }

  lemma DecideNotes(j: Judging, candidates: seq<Candidate>, i: nat, text: string, verdicts: map<PairId, Verdict>)
    requires candidates != [] && Contradicts(candidates[0], i, verdicts)
    ensures Decide(j, candidates, i, text, verdicts, None)
         == Decide(j, candidates[1..], i, text, verdicts, Some(candidates[0].entry.ref))
  {
  }

  /** A merge is found behind whatever contradictions come before it. */
  lemma {:induction false} DecideFindsMerge(j: Judging, candidates: seq<Candidate>, i: nat, text: string,
                                            verdicts: map<PairId, Verdict>, conflict: Option<Ref>, k: nat)
    requires k < |candidates| && Merges(j, candidates[k], i, text, verdicts)
    requires forall l | 0 <= l < k :: !Merges(j, candidates[l], i, text, verdicts)
    ensures Decide(j, candidates, i, text, verdicts, conflict) == Same(candidates[k].entry.ref)
  {
    if k == 0 {
      DecideMerges(j, candidates, i, text, verdicts, conflict);
    } else {
      assert forall l | 0 <= l < |candidates| - 1 :: candidates[1..][l] == candidates[l + 1];
      assert !Merges(j, candidates[0], i, text, verdicts);
      var conflict' := if Contradicts(candidates[0], i, verdicts) && conflict.None? then Some(candidates[0].entry.ref)
        else conflict;
      DecideFindsMerge(j, candidates[1..], i, text, verdicts, conflict', k - 1);
    }
  }

  lemma DecideFindsConflict(j: Judging, candidates: seq<Candidate>, i: nat, text: string,
                            verdicts: map<PairId, Verdict>, k: nat)
    requires forall l | 0 <= l < |candidates| :: !Merges(j, candidates[l], i, text, verdicts)
    requires k < |candidates| && Contradicts(candidates[k], i, verdicts)
    requires forall l | 0 <= l < k :: !Contradicts(candidates[l], i, verdicts)
    ensures Decide(j, candidates, i, text, verdicts, None) == Conflicting(candidates[k].entry.ref)
  {
    var rest := candidates[k..];
    DecideSkips(j, candidates, i, text, verdicts, None, k);
    DecideNotes(j, rest, i, text, verdicts);
    assert forall l | 0 <= l < |rest| - 1 :: rest[1..][l] == candidates[k + 1 + l];
    DecideSkips(j, rest[1..], i, text, verdicts, Some(rest[0].entry.ref), |rest| - 1);
  }

  lemma DecideNothing(j: Judging, i: nat, text: string, verdicts: map<PairId, Verdict>)
    ensures Decide(j, [], i, text, verdicts, None) == New
  {
  }

  lemma {:induction false} SomeMerge(j: Judging, candidates: seq<Candidate>, i: nat, text: string,
                                     verdicts: map<PairId, Verdict>) returns (k: int)
    requires !NoneMerges(j, candidates, i, text, verdicts)
    ensures FirstToMerge(j, candidates, i, text, verdicts, k)
  {
    hide Merges;
    k := 0;
    while !Merges(j, candidates[k], i, text, verdicts)
      invariant 0 <= k < |candidates| && forall l | 0 <= l < k :: !Merges(j, candidates[l], i, text, verdicts)
      decreases |candidates| - k
    {
      k := k + 1;
    }
  }

  lemma {:induction false} SomeContradiction(candidates: seq<Candidate>, i: nat, verdicts: map<PairId, Verdict>)
    returns (k: int)
    requires exists l | 0 <= l < |candidates| :: Contradicts(candidates[l], i, verdicts)
    ensures FirstToContradict(candidates, i, verdicts, k)
  {
    hide Contradicts;
    k := 0;
    while !Contradicts(candidates[k], i, verdicts)
      invariant 0 <= k < |candidates| && forall l | 0 <= l < k :: !Contradicts(candidates[l], i, verdicts)
      decreases |candidates| - k
    {
      k := k + 1;
    }
  }

  /** For every judge, candidates and verdicts the outcome is exactly that one. */
  lemma DecideIsDecided(j: Judging, candidates: seq<Candidate>, i: nat, text: string, verdicts: map<PairId, Verdict>,
                        m: Match)
    ensures Decide(j, candidates, i, text, verdicts, None) == m <==> DecidedBy(j, candidates, i, text, verdicts, m)
  {
    hide Decide, Merges, Contradicts;
    if !NoneMerges(j, candidates, i, text, verdicts) {
      var k := SomeMerge(j, candidates, i, text, verdicts);
      DecideFindsMerge(j, candidates, i, text, verdicts, None, k);
      assert forall l :: FirstToMerge(j, candidates, i, text, verdicts, l) ==> l == k;
    } else if exists k | 0 <= k < |candidates| :: Contradicts(candidates[k], i, verdicts) {
      var k := SomeContradiction(candidates, i, verdicts);
      DecideFindsConflict(j, candidates, i, text, verdicts, k);
      assert forall l :: FirstToContradict(candidates, i, verdicts, l) ==> l == k;
    } else {
      DecideSkips(j, candidates, i, text, verdicts, None, |candidates|);
      assert candidates[|candidates|..] == [];
      DecideNothing(j, i, text, verdicts);
    }
  }

  // ---- the whole match

  /** The entry is the first of the pool with the text among its keys. */
  ghost predicate FirstWithKey(pool: seq<Entry>, key: string, k: int) {
    0 <= k < |pool| && key in pool[k].keys && forall l | 0 <= l < k :: key !in pool[l].keys
  }

  ghost predicate NoneHasKey(pool: seq<Entry>, key: string) { forall k | 0 <= k < |pool| :: key !in pool[k].keys }

  /** The best scored entries of the pool, at most three, with their scores. */
  ghost predicate BestOf(j: Judging, pool: seq<Entry>, text: string, candidates: seq<Candidate>) {
    && |candidates| <= MATCH_CANDIDATES && Descending(candidates)
    && (forall c | c in candidates ::
          c.entry in pool && c.score == j.score(text, c.entry) && c.score >= MATCH_MIN_SCORE)
    && (forall e | e in pool && j.score(text, e) >= MATCH_MIN_SCORE ::
          Candidate(e, j.score(text, e)) in candidates
          || (|candidates| == MATCH_CANDIDATES && forall c | c in candidates :: c.score >= j.score(text, e)))
  }

  /** What the judge says of the pairs it is given; nothing if there is none, it cannot be reached, or has no pairs. */
  ghost predicate SaidOf(j: Judging, pairs: seq<Pair>, verdicts: map<PairId, Verdict>) {
    if j.judge.Some? && pairs != [] && j.judge.value(pairs).Some? then verdicts == j.judge.value(pairs).value
    else verdicts == map[]
  }

  lemma {:induction false} PairsAsked(env: Env, j: Judging, active: seq<Claim>, incoming: seq<LedgerClaim>, n: nat,
                                      pair: Pair)
    requires n <= |incoming|
    ensures pair in Pairs(env, j, active, incoming, n) <==>
              && pair.id.index < n && pair.b == incoming[pair.id.index].claim
              && exists c | c in Candidates(env, j, active, Pool(env, active, incoming, pair.id.index),
                                            incoming[pair.id.index]) ::
                   c.entry.ref == pair.id.ref && c.entry.text == pair.a
  {
    hide Candidates, Pool;
    if n > 0 {
      PairsAsked(env, j, active, incoming, n - 1, pair);
      var found := Candidates(env, j, active, Pool(env, active, incoming, n - 1), incoming[n - 1]);
      var asked := PairsOf(found, n - 1, incoming[n - 1].claim);
      if pair in asked {
        var k :| 0 <= k < |asked| && asked[k] == pair;
        assert found[k] in found;
      }
      if pair.id.index == n - 1 && pair.b == incoming[n - 1].claim {
        forall c | c in found && c.entry.ref == pair.id.ref && c.entry.text == pair.a ensures pair in asked {
          var k :| 0 <= k < |found| && found[k] == c;
          assert asked[k] == pair;
        }
      }
    }
  }

  lemma CandidatesAreBest(env: Env, j: Judging, active: seq<Claim>, pool: seq<Entry>, claim: LedgerClaim)
    ensures var found := Candidates(env, j, active, pool, claim);
            if Supersedes(active, claim) || !NoneHasKey(pool, env.normalize(claim.claim)) then found == []
            else BestOf(j, pool, claim.claim, found)
  {
    hide Ranked, FindExact, Has;
    var ranked, found := Ranked(j, pool, claim.claim), Candidates(env, j, active, pool, claim);
    FindExactIsVisible(pool, env.normalize(claim.claim));
    RankedIsComplete(j, pool, claim.claim);
    if !Supersedes(active, claim) && NoneHasKey(pool, env.normalize(claim.claim)) {
      assert found == Capped(ranked, MATCH_CANDIDATES);
      assert forall c | c in found :: c in ranked;
      forall e | e in pool && j.score(claim.claim, e) >= MATCH_MIN_SCORE
        ensures var c := Candidate(e, j.score(claim.claim, e));
                c in found || (|found| == MATCH_CANDIDATES && forall x | x in found :: x.score >= c.score)
      {
        var c := Candidate(e, j.score(claim.claim, e));
        assert c in ranked;
        var k :| 0 <= k < |ranked| && ranked[k] == c;
        if k < |found| { assert found[k] == c; }
      }
    }
  }

  /**
   * Every incoming claim, whatever the judge does: one that names a stored claim it replaces is matched to it; else one
   * whose normalized text some earlier entry has, to the first of those; any other is decided by what the judge says
   * of it and the best-scored entries, all of which, and only those, the judge is asked about.
   */
  lemma MatchedExactly(env: Env, j: Judging, active: seq<Claim>, incoming: seq<LedgerClaim>, i: nat)
    requires i < |incoming|
    ensures var m, claim, pool := Matches(env, j, active, incoming)[i], incoming[i], Pool(env, active, incoming, i);
            var key := env.normalize(claim.claim);
            && (Supersedes(active, claim) ==> m == Same(Existing(claim.supersedes.value)))
            && (!Supersedes(active, claim) && !NoneHasKey(pool, key) ==>
                  exists k :: FirstWithKey(pool, key, k) && m == Same(pool[k].ref))
            && (!Supersedes(active, claim) && NoneHasKey(pool, key) ==>
                  exists found: seq<Candidate>, verdicts ::
                    && BestOf(j, pool, claim.claim, found)
                    && SaidOf(j, Pairs(env, j, active, incoming, |incoming|), verdicts)
                    && (forall c | c in found ::
                          Pair(PairId(i, c.entry.ref), c.entry.text, claim.claim)
                            in Pairs(env, j, active, incoming, |incoming|))
                    && DecidedBy(j, found, i, claim.claim, verdicts, m))
  {
    hide FindExact, Candidates, Pool, Pairs, BestOf, DecidedBy, Decide;
    var m, claim, pool := Matches(env, j, active, incoming)[i], incoming[i], Pool(env, active, incoming, i);
    var key, pairs := env.normalize(claim.claim), Pairs(env, j, active, incoming, |incoming|);
    if !Supersedes(active, claim) {
      FindExactIsVisible(pool, key);
      if !NoneHasKey(pool, key) {
        var n :| 0 <= n < |pool| && key in pool[n].keys;
        var k := LeastWithKey(pool, key, n);
        FirstExact(pool, key, k);
        assert FirstWithKey(pool, key, k);
      } else {
        var found, verdicts := Candidates(env, j, active, pool, claim), Verdicts(j, pairs);
        CandidatesAreBest(env, j, active, pool, claim);
        DecideIsDecided(j, found, i, claim.claim, verdicts, m);
        forall c | c in found ensures Pair(PairId(i, c.entry.ref), c.entry.text, claim.claim) in pairs {
          PairsAsked(env, j, active, incoming, |incoming|, Pair(PairId(i, c.entry.ref), c.entry.text, claim.claim));
        }
        assert SaidOf(j, pairs, verdicts);
      }
    }
  }

  /** What each claim sees: every stored claim under all its wordings, then the earlier claims of the turn. */
  lemma PoolHolds(env: Env, active: seq<Claim>, incoming: seq<LedgerClaim>, n: nat, k: nat, key: string)
    requires n <= |incoming| && k < |active| + n
    ensures var e := Pool(env, active, incoming, n)[k];
            if k < |active| then
              && e.ref == Existing(active[k].id) && e.text == active[k].claim
              && e.texts == [active[k].claim] + active[k].variants
              && (key in e.keys <==> exists text | text in e.texts :: env.normalize(text) == key)
            else
              && e.ref == Incoming(k - |active|) && e.text == incoming[k - |active|].claim && e.texts == [e.text]
              && (key in e.keys <==> env.normalize(e.text) == key)
  {
    var pool := Pool(env, active, incoming, n);
    assert k >= |active| ==> pool[k] == IncomingEntry(env, incoming[k - |active|], k - |active|);
    if k < |active| {
      assert pool[k] == ActiveEntry(env, active[k]);
      var texts := [active[k].claim] + active[k].variants;
      if key in Normalized(env, texts) {
        var x :| 0 <= x < |texts| && env.normalize(texts[x]) == key;
        assert texts[x] in texts;
      }
      forall text | text in texts && env.normalize(text) == key ensures key in Normalized(env, texts) {
        var x :| 0 <= x < |texts| && texts[x] == text;
      }
    }
  }
}
