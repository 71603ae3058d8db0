/** Which stored or earlier claim each incoming claim restates or contradicts. */
module ClaimMatcher {
  import opened Prelude
  import opened ClaimEvidence
  import opened ClaimEvents
  import opened ClaimPlanner
  import opened ClaimTurns
  import Sorting

  datatype Entry = Entry(ref: Ref, text: string, keys: set<string>, texts: seq<string>)

  datatype Candidate = Candidate(entry: Entry, score: real)

  datatype Verdict = VerdictSame | VerdictContradicts | VerdictDifferent

  datatype PairId = PairId(index: nat, ref: Ref)

  datatype Pair = Pair(id: PairId, a: string, b: string)

  /** Similarity, the judge (absent, unreachable or answering some pairs) and the merge tests are arbitrary. */
  datatype Judging = Judging(score: (string, Entry) -> real, judge: Option<seq<Pair> -> Option<map<PairId, Verdict>>>,
                             allowMerge: (string, string, real) -> bool, sameNumbers: (string, string) -> bool)

  const MATCH_CANDIDATES: nat := 3
  const MATCH_MIN_SCORE := 0.2
  const MATCH_AUTO_SCORE := 0.86

  // ---- the pool

  function Normalized(env: Env, texts: seq<string>): set<string> { set i | 0 <= i < |texts| :: env.normalize(texts[i]) }

  function ActiveEntry(env: Env, c: Claim): Entry {
    Entry(Existing(c.id), c.claim, Normalized(env, [c.claim] + c.variants), [c.claim] + c.variants)
  }

  function IncomingEntry(env: Env, claim: LedgerClaim, i: nat): Entry {
    Entry(Incoming(i), claim.claim, {env.normalize(claim.claim)}, [claim.claim])
  }

  /** What claim `n` sees: the stored claims, then the incoming claims before it. */
  function Pool(env: Env, active: seq<Claim>, incoming: seq<LedgerClaim>, n: nat): (pool: seq<Entry>)
    requires n <= |incoming|
    ensures |pool| == |active| + n
  {
    seq(|active| + n, k requires 0 <= k < |active| + n =>
      if k < |active| then ActiveEntry(env, active[k]) else IncomingEntry(env, incoming[k - |active|], k - |active|))
  }

  function FindExact(pool: seq<Entry>, key: string): Option<Ref> {
    if pool == [] then None else if key in pool[0].keys then Some(pool[0].ref) else FindExact(pool[1..], key)
  }

  /** Explicit ids first, then exact wordings. */
  function Early(env: Env, active: seq<Claim>, pool: seq<Entry>, claim: LedgerClaim): Option<Match> {
    if claim.supersedes.Some? && claim.supersedes.value != "" && Has(active, claim.supersedes.value)
    then Some(Same(Existing(claim.supersedes.value)))
    else
      var exact := FindExact(pool, env.normalize(claim.claim));
      if exact.Some? then Some(Same(exact.value)) else None
  }

  // ---- candidates and the judge

  function ScoreOf(c: Candidate): real { c.score }

  predicate Higher(a: real, b: real) { a > b }

  /** Entries above the threshold, in the pool's order. */
  function Scored(j: Judging, pool: seq<Entry>, text: string): seq<Candidate> {
    if pool == [] then [] else
      var front, last := pool[..|pool| - 1], pool[|pool| - 1];
      var score := j.score(text, last);
      Scored(j, front, text) + (if score >= MATCH_MIN_SCORE then [Candidate(last, score)] else [])
  }

  /** The same, best first; equal scores keep the pool's order. */
  function Ranked(j: Judging, pool: seq<Entry>, text: string): seq<Candidate> {
    Sorting.SortBy(Scored(j, pool, text), ScoreOf, Higher)
  }

  function Candidates(env: Env, j: Judging, active: seq<Claim>, pool: seq<Entry>, claim: LedgerClaim): seq<Candidate> {
    if Early(env, active, pool, claim).Some? then [] else Capped(Ranked(j, pool, claim.claim), MATCH_CANDIDATES)
  }

  function PairsOf(candidates: seq<Candidate>, i: nat, text: string): seq<Pair> {
    seq(|candidates|, k requires 0 <= k < |candidates| =>
        Pair(PairId(i, candidates[k].entry.ref), candidates[k].entry.text, text))
  }

  function Pairs(env: Env, j: Judging, active: seq<Claim>, incoming: seq<LedgerClaim>, n: nat): seq<Pair>
    requires n <= |incoming|
  {
    if n == 0 then [] else
      Pairs(env, j, active, incoming, n - 1)
      + PairsOf(Candidates(env, j, active, Pool(env, active, incoming, n - 1), incoming[n - 1]), n - 1,
                incoming[n - 1].claim)
  }

  function Verdicts(j: Judging, pairs: seq<Pair>): map<PairId, Verdict> {
    if pairs == [] || j.judge.None? then map[] else
      var answer := j.judge.value(pairs);
      if answer.Some? then answer.value else map[]
  }

  function Decide(j: Judging, candidates: seq<Candidate>, i: nat, text: string, verdicts: map<PairId, Verdict>,
                  conflict: Option<Ref>): Match {
    if candidates == [] then (if conflict.Some? then Conflicting(conflict.value) else New) else
      var c := candidates[0];
      var id := PairId(i, c.entry.ref);
      if id in verdicts && verdicts[id] == VerdictSame && j.allowMerge(c.entry.text, text, c.score)
        then Same(c.entry.ref)
      else if id !in verdicts && c.score >= MATCH_AUTO_SCORE && j.sameNumbers(c.entry.text, text) then Same(c.entry.ref)
      else
        var conflict' := if id in verdicts && verdicts[id] == VerdictContradicts && conflict.None?
          then Some(c.entry.ref) else conflict;
        Decide(j, candidates[1..], i, text, verdicts, conflict')
  }

  function MatchOne(env: Env, j: Judging, active: seq<Claim>, incoming: seq<LedgerClaim>,
                    verdicts: map<PairId, Verdict>, i: nat): Match
    requires i < |incoming|
  {
    var pool := Pool(env, active, incoming, i);
    var early := Early(env, active, pool, incoming[i]);
    if early.Some? then early.value
    else Decide(j, Candidates(env, j, active, pool, incoming[i]), i, incoming[i].claim, verdicts, None)
  }

  function Matches(env: Env, j: Judging, active: seq<Claim>, incoming: seq<LedgerClaim>): seq<Match> {
    var verdicts := Verdicts(j, Pairs(env, j, active, incoming, |incoming|));
    seq(|incoming|, i requires 0 <= i < |incoming| => MatchOne(env, j, active, incoming, verdicts, i))
  }

  /** First pass over the incoming claims, one judge call for all pairs, then the decisions in order. */
  method MatchIncoming(env: Env, j: Judging, active: seq<Claim>, incoming: seq<LedgerClaim>)
    returns (matches: seq<Match>)
    ensures matches == Matches(env, j, active, incoming)
  {
    hide Candidates, Early, Decide, PairsOf, Verdicts;
    var pool := seq(|active|, k requires 0 <= k < |active| => ActiveEntry(env, active[k]));
    var early: seq<Option<Match>> := [];
    var candidates: seq<seq<Candidate>> := [];
    var pairs: seq<Pair> := [];
    for i := 0 to |incoming|
      invariant pool == Pool(env, active, incoming, i) && |early| == i && |candidates| == i
      invariant pairs == Pairs(env, j, active, incoming, i)
      invariant forall k | 0 <= k < i :: early[k] == Early(env, active, Pool(env, active, incoming, k), incoming[k])
      invariant forall k | 0 <= k < i ::
                candidates[k] == Candidates(env, j, active, Pool(env, active, incoming, k), incoming[k])
    {
      var claim := incoming[i];
      var found := Candidates(env, j, active, pool, claim);
      early := early + [Early(env, active, pool, claim)];
      candidates := candidates + [found];
      pairs := pairs + PairsOf(found, i, claim.claim);
      pool := pool + [IncomingEntry(env, claim, i)];
    }
    matches := DecideAll(env, j, active, incoming, early, candidates, Verdicts(j, pairs));
  }

  method DecideAll(env: Env, j: Judging, active: seq<Claim>, incoming: seq<LedgerClaim>, early: seq<Option<Match>>,
                   candidates: seq<seq<Candidate>>, verdicts: map<PairId, Verdict>) returns (matches: seq<Match>)
    requires |early| == |candidates| == |incoming|
    requires forall k | 0 <= k < |incoming| ::
             early[k] == Early(env, active, Pool(env, active, incoming, k), incoming[k])
    requires forall k | 0 <= k < |incoming| ::
             candidates[k] == Candidates(env, j, active, Pool(env, active, incoming, k), incoming[k])
    ensures matches == seq(|incoming|, i requires 0 <= i < |incoming| =>
                           MatchOne(env, j, active, incoming, verdicts, i))
  {
    hide Candidates, Early, Decide, Pool;
    matches := [];
    for i := 0 to |incoming|
      invariant |matches| == i && forall k | 0 <= k < i :: matches[k] == MatchOne(env, j, active, incoming, verdicts, k)
    {
      matches := matches + [if early[i].Some? then early[i].value
                            else Decide(j, candidates[i], i, incoming[i].claim, verdicts, None)];
    }
  }

  // ---- the ranking

  ghost predicate Descending(cs: seq<Candidate>) { forall a, b | 0 <= a < b < |cs| :: cs[a].score >= cs[b].score }

  lemma {:induction false} ScoredIsComplete(j: Judging, pool: seq<Entry>, text: string, c: Candidate)
    ensures c in Scored(j, pool, text) <==>
            c.entry in pool && c.score == j.score(text, c.entry) && c.score >= MATCH_MIN_SCORE
  {
    if pool != [] {
      var front, last := pool[..|pool| - 1], pool[|pool| - 1];
      ScoredIsComplete(j, front, text, c);
      assert pool == front + [last];
    }
  }

  lemma HigherIsTotal()
    ensures Sorting.TotalOrder(Higher)
  {
  }

  /**
   * The ranking holds exactly the entries above the threshold, as often as the pool does, best first and equal scores
   * in the pool's order; so the candidates are the best of them.
   */
  lemma RankedIsComplete(j: Judging, pool: seq<Entry>, text: string)
    ensures var ranked := Ranked(j, pool, text);
            && Descending(ranked) && multiset(ranked) == multiset(Scored(j, pool, text))
            && (forall c :: c in ranked <==>
                  c.entry in pool && c.score == j.score(text, c.entry) && c.score >= MATCH_MIN_SCORE)
            && (forall s :: Sorting.AtKey(ranked, ScoreOf, s) == Sorting.AtKey(Scored(j, pool, text), ScoreOf, s))
  {
    var scored, ranked := Scored(j, pool, text), Ranked(j, pool, text);
    HigherIsTotal();
    Sorting.SortOrders(scored, ScoreOf, Higher);
    forall a, b | 0 <= a < b < |ranked| ensures ranked[a].score >= ranked[b].score {
      assert !Higher(ScoreOf(ranked[b]), ScoreOf(ranked[a]));
    }
    forall c ensures c in ranked <==>
      c.entry in pool && c.score == j.score(text, c.entry) && c.score >= MATCH_MIN_SCORE
    {
      Sorting.SortHas(scored, ScoreOf, Higher, c);
      ScoredIsComplete(j, pool, text, c);
    }
    forall s ensures Sorting.AtKey(ranked, ScoreOf, s) == Sorting.AtKey(scored, ScoreOf, s) {
      Sorting.SortIsStable(scored, ScoreOf, Higher, s);
    }
  }

  // ---- references

  ghost predicate Visible(active: seq<Claim>, i: nat, ref: Ref) {
    match ref
    case Existing(id) => Has(active, id)
    case Incoming(k) => 0 <= k < i
  }

  lemma {:induction false} FindExactIsVisible(pool: seq<Entry>, key: string)
    ensures FindExact(pool, key).Some? <==> exists k | 0 <= k < |pool| :: key in pool[k].keys
    ensures FindExact(pool, key).Some? ==> exists k | 0 <= k < |pool| :: pool[k].ref == FindExact(pool, key).value
  {
    if pool != [] {
      FindExactIsVisible(pool[1..], key);
      if key in pool[0].keys {
        assert pool[0].ref == FindExact(pool, key).value;
      } else {
        assert forall k | 0 <= k < |pool| - 1 :: pool[1..][k] == pool[k + 1];
        if exists k | 0 <= k < |pool| :: key in pool[k].keys {
          var k :| 0 <= k < |pool| && key in pool[k].keys;
          assert key in pool[1..][k - 1].keys;
        }
        if FindExact(pool[1..], key).Some? {
          var k :| 0 <= k < |pool| - 1 && pool[1..][k].ref == FindExact(pool[1..], key).value;
          assert pool[k + 1].ref == FindExact(pool, key).value;
        }
      }
    }
  }

  lemma {:induction false} DecideIsFromCandidates(j: Judging, candidates: seq<Candidate>, i: nat, text: string,
                                                  verdicts: map<PairId, Verdict>, conflict: Option<Ref>)
    ensures var m := Decide(j, candidates, i, text, verdicts, conflict);
            && (m.Same? ==> exists c | c in candidates :: c.entry.ref == m.ref)
            && (m.Conflicting? ==> conflict == Some(m.ref) || exists c | c in candidates :: c.entry.ref == m.ref)
  {
    if candidates != [] {
      var c := candidates[0];
      assert c in candidates;
      var id := PairId(i, c.entry.ref);
      var conflict' := if id in verdicts && verdicts[id] == VerdictContradicts && conflict.None? then Some(c.entry.ref)
        else conflict;
      DecideIsFromCandidates(j, candidates[1..], i, text, verdicts, conflict');
      assert forall x | x in candidates[1..] :: x in candidates;
    }
  }

  /** Every match names a stored claim or an earlier claim of the turn, whatever the judge answers. */
  lemma MatchesLookBack(env: Env, j: Judging, active: seq<Claim>, incoming: seq<LedgerClaim>, i: nat)
    requires i < |incoming|
    ensures var m := Matches(env, j, active, incoming)[i]; !m.New? ==> Visible(active, i, m.ref)
  {
    hide Ranked, Decide, FindExact;
    var pool := Pool(env, active, incoming, i);
    forall k | 0 <= k < |pool| ensures Visible(active, i, pool[k].ref) {
      if k < |active| {
        assert pool[k] == ActiveEntry(env, active[k]) && Has(active, active[k].id);
      } else {
        assert pool[k] == IncomingEntry(env, incoming[k - |active|], k - |active|);
      }
    }
    FindExactIsVisible(pool, env.normalize(incoming[i].claim));
    if Early(env, active, pool, incoming[i]).None? {
      RankedIsComplete(j, pool, incoming[i].claim);
      var candidates := Candidates(env, j, active, pool, incoming[i]);
      DecideIsFromCandidates(j, candidates, i, incoming[i].claim,
                             Verdicts(j, Pairs(env, j, active, incoming, |incoming|)), None);
    }
  }

  // ---- outages

  lemma {:induction false} DecideWithoutVerdicts(j: Judging, candidates: seq<Candidate>, i: nat, text: string)
    ensures var m := Decide(j, candidates, i, text, map[], None);
            && !m.Conflicting?
            && (m.Same? <==> exists c | c in candidates ::
                c.score >= MATCH_AUTO_SCORE && j.sameNumbers(c.entry.text, text))
            && (m.Same? ==> exists c | c in candidates ::
                c.entry.ref == m.ref && c.score >= MATCH_AUTO_SCORE && j.sameNumbers(c.entry.text, text))
  {
    if candidates != [] {
      DecideWithoutVerdicts(j, candidates[1..], i, text);
      assert candidates[0] in candidates;
      assert forall x | x in candidates[1..] :: x in candidates;
      forall x | x in candidates ensures x == candidates[0] || x in candidates[1..] {
        var k :| 0 <= k < |candidates| && candidates[k] == x;
        if k > 0 { assert candidates[1..][k - 1] == x; }
      }
    }
  }

  lemma {:induction false} FindExactHas(pool: seq<Entry>, key: string)
    ensures var ref := FindExact(pool, key); ref.Some? ==> exists e | e in pool :: e.ref == ref.value && key in e.keys
  {
    if pool != [] {
      assert pool[0] in pool && forall e | e in pool[1..] :: e in pool;
      FindExactHas(pool[1..], key);
    }
  }

  ghost predicate Supersedes(active: seq<Claim>, claim: LedgerClaim) {
    claim.supersedes.Some? && claim.supersedes.value != "" && Has(active, claim.supersedes.value)
  }

  /** A merge that was named, that is of equal normalized texts, or that is of near-identical wordings and figures. */
  ghost predicate Warranted(env: Env, j: Judging, active: seq<Claim>, pool: seq<Entry>, claim: LedgerClaim, ref: Ref) {
    || (Supersedes(active, claim) && ref == Existing(claim.supersedes.value))
    || exists e | e in pool ::
         e.ref == ref && (env.normalize(claim.claim) in e.keys
                          || (j.score(claim.claim, e) >= MATCH_AUTO_SCORE && j.sameNumbers(e.text, claim.claim)))
  }

  /**
   * With the judge absent or unreachable, nothing is declared a contradiction, and a claim merges only into the stored
   * claim it names, into one with its normalized text, or into a near-identical one with the same figures.
   */
  lemma OutageNeverMergesLoosely(env: Env, j: Judging, active: seq<Claim>, incoming: seq<LedgerClaim>, i: nat)
    requires i < |incoming|
    requires Verdicts(j, Pairs(env, j, active, incoming, |incoming|)) == map[]
    ensures var m := Matches(env, j, active, incoming)[i];
            && !m.Conflicting?
            && (m.Same? ==> Warranted(env, j, active, Pool(env, active, incoming, i), incoming[i], m.ref))
  {
    hide Ranked, Decide, FindExact, Pool, Verdicts, Pairs, Has;
    var pool := Pool(env, active, incoming, i);
    FindExactHas(pool, env.normalize(incoming[i].claim));
    if Early(env, active, pool, incoming[i]).None? {
      var candidates := Candidates(env, j, active, pool, incoming[i]);
      DecideWithoutVerdicts(j, candidates, i, incoming[i].claim);
      RankedIsComplete(j, pool, incoming[i].claim);
      assert forall c | c in candidates :: c in Ranked(j, pool, incoming[i].claim);
    }
  }

  /**
   * Equal normalized texts are not always one claim: texts without Latin letters or digits all normalize to nothing, so
   * the second of two such claims merges into the first whatever they say, with a judge or without.
   */
  lemma EmptyTextsMerge(env: Env, j: Judging, a: LedgerClaim, b: LedgerClaim)
    requires env.normalize(a.claim) == "" && env.normalize(b.claim) == ""
    ensures Matches(env, j, [], [a, b])[1] == Same(Incoming(0))
  {
    hide Matches;
    DuplicatesShareAReference(env, j, [], [a, b], 0, 1);
  }

  // ---- exact duplicates

  /** The first pool entry with the key, by position. */
  lemma {:induction false} FirstExact(pool: seq<Entry>, key: string, f: nat)
    requires f < |pool| && key in pool[f].keys && forall k | 0 <= k < f :: key !in pool[k].keys
    ensures FindExact(pool, key) == Some(pool[f].ref)
  {
    if f > 0 {
      assert forall k | 0 <= k < f - 1 :: pool[1..][k] == pool[k + 1];
      FirstExact(pool[1..], key, f - 1);
    }
  }

  lemma {:induction false} LeastWithKey(pool: seq<Entry>, key: string, n: nat) returns (f: nat)
    requires n < |pool| && key in pool[n].keys
    ensures f <= n && key in pool[f].keys && forall k | 0 <= k < f :: key !in pool[k].keys
  {
    f := 0;
    while key !in pool[f].keys
      invariant f <= n && forall k | 0 <= k < f :: key !in pool[k].keys
      decreases n - f
    {
      f := f + 1;
    }
  }

  /** Two claims with one normalized text are matched to the same reference, or the second to the first. */
  lemma DuplicatesShareAReference(env: Env, j: Judging, active: seq<Claim>, incoming: seq<LedgerClaim>, a: nat, b: nat)
    requires a < b < |incoming| && env.normalize(incoming[a].claim) == env.normalize(incoming[b].claim)
    requires !Supersedes(active, incoming[a]) && !Supersedes(active, incoming[b])
    ensures var m := Matches(env, j, active, incoming);
            m[b] == Same(Incoming(a)) || (m[a].Same? && m[b] == m[a] && Visible(active, a, m[a].ref))
  {
    hide Candidates, Decide, Verdicts, Pairs, FindExact;
    var key := env.normalize(incoming[a].claim);
    var pool := Pool(env, active, incoming, b);
    assert pool[|active| + a] == IncomingEntry(env, incoming[a], a);
    assert key in pool[|active| + a].keys;
    var f := LeastWithKey(pool, key, |active| + a);
    FirstExact(pool, key, f);
    if f < |active| + a {
      var early := Pool(env, active, incoming, a);
      assert early == pool[..|active| + a];
      FirstExact(early, key, f);
      assert Early(env, active, early, incoming[a]) == Some(Same(pool[f].ref));
      assert Early(env, active, pool, incoming[b]) == Some(Same(pool[f].ref));
      if f < |active| {
        assert pool[f].ref == Existing(active[f].id) && Has(active, active[f].id);
      } else {
        assert pool[f].ref == Incoming(f - |active|);
      }
    } else {
      assert Early(env, active, pool, incoming[b]) == Some(Same(Incoming(a)));
    }
  }

  /** Emitting and asserting change neither what was resolved or created nor which claims are known. */
  ghost predicate SameRecords(p: Plan, p': Plan) {
    p'.resolved == p.resolved && p'.created == p.created && p'.states.Keys == p.states.Keys
  }

  lemma EmitOnRecords(env: Env, p: Plan, id: string, rule: Claim -> seq<Event>)
    ensures SameRecords(p, EmitOn(env, p, id, rule))
  {
    hide Fold;
  }

  lemma AssertRecords(env: Env, t: Turn, p: Plan, id: string, claim: LedgerClaim, isNew: bool)
    requires id in p.states
    ensures SameRecords(p, AssertInto(env, t, p, id, claim, isNew))
  {
    hide Fold, StatusEvents, FlagEvents, StaleEvents, Assertion, EmitOn;
    var p0 := RecordAssertion(env, t, p, id, claim);
    var p1 := EmitOn(env, p0, id, st => StatusEvents(t, st, claim, isNew));
    var p2 := EmitOn(env, p1, id, st => FlagEvents(t, st, claim, isNew));
    EmitOnRecords(env, p0, id, st => StatusEvents(t, st, claim, isNew));
    EmitOnRecords(env, p1, id, st => FlagEvents(t, st, claim, isNew));
    EmitOnRecords(env, p2, id, st => StaleEvents(env, t, st));
  }

  lemma LinkRecords(env: Env, t: Turn, p: Plan, a: string, b: string)
    ensures SameRecords(p, Link(env, t, p, a, b))
  {
    hide Fold, ConflictEvents, SettleEvents, EmitOn;
    var p1 := Emit(env, p, [TurnEvent(t, a, ContradictedBy(b), Model)]);
    var p2 := Emit(env, p1, [TurnEvent(t, b, ContradictedBy(a), Model)]);
    var p3 := EmitOn(env, p2, a, st => ConflictEvents(t, st, true));
    var p4 := EmitOn(env, p3, b, st => ConflictEvents(t, st, false));
    EmitOnRecords(env, p2, a, st => ConflictEvents(t, st, true));
    EmitOnRecords(env, p3, b, st => ConflictEvents(t, st, false));
    EmitOnRecords(env, p4, a, st => SettleEvents(t, st));
    EmitOnRecords(env, Settle(env, t, p4, a), b, st => SettleEvents(t, st));
  }

  lemma CreateRecords(env: Env, t: Turn, activeCount: nat, p: Plan, claim: LedgerClaim)
    ensures var (p', id) := CreateClaim(env, t, activeCount, p, claim);
            && p'.resolved == p.resolved && p.states.Keys <= p'.states.Keys
            && if activeCount + |p.created| >= t.maxActive
               then id.None? && p'.created == p.created
               else id.Some? && |p'.created| == |p.created| + 1
  {
    hide AssertInto;
    if activeCount + |p.created| < t.maxActive {
      var id := t.newId(|p.created|);
      AssertRecords(env, t, p.(states := p.states[id := Initial(id, t.at)], created := p.created + [id]), id, claim,
                    true);
    }
  }

  /** What one step of the plan records for its claim, and that nothing recorded is revised. */
  lemma StepRecords(env: Env, active: seq<Claim>, t: Turn, p: Plan, i: nat)
    requires i < |t.incoming|
    ensures var p' := Step(env, t, |active|, p, i);
            var r := if MatchAt(t, i).Same? then ResolveRef(p, MatchAt(t, i).ref) else None;
            && |p'.resolved| == |p.resolved| + 1 && p.resolved <= p'.resolved && |p.created| <= |p'.created|
            && p.states.Keys <= p'.states.Keys
            && (r.Some? && r.value in p.states ==> p'.resolved[|p.resolved|] == r)
            && (p'.resolved[|p.resolved|].None? ==> |active| + |p'.created| >= t.maxActive)
            && (|active| + |p.created| >= t.maxActive && (r.None? || r.value !in p.states) ==>
                p'.resolved[|p.resolved|].None?)
  {
    hide AssertInto, CreateClaim, Link, ResolveRef;
    var claim, m := t.incoming[i], MatchAt(t, i);
    var same := if m.Same? then ResolveRef(p, m.ref) else None;
    if same.Some? && same.value in p.states {
      AssertRecords(env, t, p, same.value, claim, false);
    } else {
      var (p1, target) := CreateClaim(env, t, |active|, p, claim);
      CreateRecords(env, t, |active|, p, claim);
      if target.Some? && m.Conflicting? && ResolveRef(p, m.ref).Some? {
        LinkRecords(env, t, p1, target.value, ResolveRef(p, m.ref).value);
      }
      if target.None? { CreateRecords(env, t, |active|, p1, claim); }
    }
  }

  lemma {:induction false} PrefixRecords(env: Env, active: seq<Claim>, t: Turn, m: nat, n: nat)
    requires m <= n <= |t.incoming|
    ensures var p, q := PlanPrefix(env, active, t, m), PlanPrefix(env, active, t, n);
            |p.resolved| == m && |q.resolved| == n && p.resolved <= q.resolved && |p.created| <= |q.created|
              && p.states.Keys <= q.states.Keys
    decreases n
  {
    hide Step, StartPlan;
    if n > 0 {
      StepRecords(env, active, t, PlanPrefix(env, active, t, n - 1), n - 1);
      if m < n { PrefixRecords(env, active, t, m, n - 1); } else { PrefixRecords(env, active, t, 0, n - 1); }
    }
    if n == 0 { assert StartPlan(active).resolved == [] by { StartsEmpty(active); } }
  }

  lemma StartsEmpty(active: seq<Claim>)
    ensures StartPlan(active).resolved == []
  {
  }

  /** The entry of a claim in the final plan, in terms of the plan its step started from. */
  lemma ResolvedAt(env: Env, active: seq<Claim>, t: Turn, i: nat)
    requires Admissible(active, t) && i < |t.incoming|
    ensures var p, p', q := PlanPrefix(env, active, t, i), PlanPrefix(env, active, t, i + 1), PlanTurn(env, active, t);
            var r := if MatchAt(t, i).Same? then ResolveRef(p, MatchAt(t, i).ref) else None;
            && |p.resolved| == i && |q.resolved| == |t.incoming| && p.resolved <= q.resolved
            && (r.Some? ==> q.resolved[i] == r)
            && (q.resolved[i].None? ==> |active| + |p'.created| >= t.maxActive)
            && (|active| + |p.created| >= t.maxActive && r.None? ==> q.resolved[i].None?)
  {
    hide Step, StartPlan, Sound, Admissible, ResolveRef, PlanOk, Tidy;
    var p := PlanPrefix(env, active, t, i);
    PrefixRecords(env, active, t, i, |t.incoming|);
    PrefixRecords(env, active, t, i + 1, |t.incoming|);
    StepRecords(env, active, t, p, i);
    PrefixIsSound(env, active, t, i);
    if MatchAt(t, i).Same? {
      assert PlanOk(env, active, t, p) by { SoundFacts(env, active, t, p); }
      ReferenceResolves(env, active, t, p, MatchAt(t, i).ref);
    }
  }

  lemma SoundFacts(env: Env, active: seq<Claim>, t: Turn, p: Plan)
    requires Sound(env, active, t, p)
    ensures PlanOk(env, active, t, p)
  {
  }

  /** A claim matched to an earlier one of its turn shares its fate: both are in one claim, or both are dropped. */
  lemma FollowsEarlier(env: Env, active: seq<Claim>, t: Turn, k: nat, b: nat)
    requires Admissible(active, t) && k < b < |t.incoming| && MatchAt(t, b) == Same(Incoming(k))
    ensures |PlanTurn(env, active, t).resolved| == |t.incoming|
    ensures PlanTurn(env, active, t).resolved[b] == PlanTurn(env, active, t).resolved[k]
  {
    hide Step, StartPlan, Admissible, PlanPrefix;
    ResolvedAt(env, active, t, k);
    ResolvedAt(env, active, t, b);
    PrefixRecords(env, active, t, k + 1, b);
  }

  lemma FollowsStored(env: Env, active: seq<Claim>, t: Turn, b: nat, id: string)
    requires Admissible(active, t) && b < |t.incoming| && MatchAt(t, b) == Same(Existing(id)) && Has(active, id)
    ensures |PlanTurn(env, active, t).resolved| == |t.incoming|
    ensures PlanTurn(env, active, t).resolved[b] == Some(id)
  {
    hide Step, StartPlan, Admissible, PlanPrefix, Sound, PlanOk, Tidy, Has;
    ResolvedAt(env, active, t, b);
    var p := PlanPrefix(env, active, t, b);
    PrefixIsSound(env, active, t, b);
    SoundFacts(env, active, t, p);
    PlanReferences(env, active, t, p);
  }

  /**
   * One turn never splits an exact duplicate: two incoming claims with one normalized text, neither naming a stored
   * claim it replaces, end up in the same claim or are both left out, for every judge and every score.
   */
  lemma DuplicatesLandTogether(env: Env, j: Judging, active: seq<Claim>, t: Turn, a: nat, b: nat)
    requires Admissible(active, t) && t.matches == Matches(env, j, active, t.incoming)
    requires a < b < |t.incoming| && env.normalize(t.incoming[a].claim) == env.normalize(t.incoming[b].claim)
    requires !Supersedes(active, t.incoming[a]) && !Supersedes(active, t.incoming[b])
    ensures var resolved := PlanTurn(env, active, t).resolved;
            |resolved| == |t.incoming| && resolved[a] == resolved[b]
  {
    hide Admissible, PlanTurn, Supersedes, MatchOne, Verdicts, Pairs, Has;
    DuplicatesShareAReference(env, j, active, t.incoming, a, b);
    if t.matches[b] == Same(Incoming(a)) {
      FollowsEarlier(env, active, t, a, b);
    } else {
      match t.matches[a].ref
      case Existing(id) =>
        FollowsStored(env, active, t, a, id);
        FollowsStored(env, active, t, b, id);
      case Incoming(k) =>
        FollowsEarlier(env, active, t, k, a);
        FollowsEarlier(env, active, t, k, b);
    }
  }
}
