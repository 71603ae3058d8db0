/** Over many turns: no wording belongs to two claims, and one asserted again lands on the claim that has it. */
module ClaimVariants {
  import opened Prelude
  import opened ClaimEvidence
  import opened ClaimEvents
  import opened ClaimPlanner
  import opened ClaimLaws
  import opened ClaimTurns
  import opened ClaimLedger
  import opened ClaimWordings
  import opened ClaimMatcher

  /** Normalizing the normal form again changes nothing. It does change "1,2,3", which becomes "12,3" and then "123". */
  predicate Stable(env: Env, text: string) { env.normalize(env.normalize(text)) == env.normalize(text) }

  /** The wording a claim shows is among its variants, and every variant is a normal form. */
  ghost predicate Voiced(env: Env, c: Claim) {
    && (c.claim != "" && env.normalize(c.claim) != "" ==> env.normalize(c.claim) in c.variants)
    && (forall key | key in c.variants :: key != "" && env.normalize(key) == key)
  }

  ghost predicate Share(a: Claim, b: Claim) { exists key :: key in a.variants && key in b.variants }

  /** No two claims share a variant. */
  ghost predicate Filed(env: Env, active: seq<Claim>) {
    && (forall i | 0 <= i < |active| :: Voiced(env, active[i]))
    && (forall i, j | 0 <= i < j < |active| :: !Share(active[i], active[j]))
  }

  // ---- where a turn's matches lead

  lemma KeysAreVariants(env: Env, c: Claim, key: string)
    requires Voiced(env, c) && c.claim != "" && key != ""
    ensures key in ActiveEntry(env, c).keys <==> key in c.variants
  {
    var texts := [c.claim] + c.variants;
    if key in c.variants {
      var i :| 0 <= i < |c.variants| && c.variants[i] == key;
      assert texts[i + 1] == key && env.normalize(texts[i + 1]) == key;
    }
    if key in Normalized(env, texts) {
      var i :| 0 <= i < |texts| && env.normalize(texts[i]) == key;
      if i > 0 { assert texts[i] == c.variants[i - 1] && texts[i] in c.variants; }
    }
  }

  /** A wording that some stored claim has is matched to that claim, and lands there. */
  lemma KnownWordingLands(env: Env, j: Judging, active: seq<Claim>, t: Turn, i: nat, n: nat)
    requires Admissible(active, t) && WellFormed(active) && Filed(env, active)
    requires t.matches == Matches(env, j, active, t.incoming)
    requires i < |t.incoming| && n < |active| && !Supersedes(active, t.incoming[i])
    requires env.normalize(t.incoming[i].claim) in active[n].variants
    ensures |PlanTurn(env, active, t).resolved| == |t.incoming|
    ensures PlanTurn(env, active, t).resolved[i] == Some(active[n].id)
  {
    var key, pool := env.normalize(t.incoming[i].claim), Pool(env, active, t.incoming, i);
    assert Voiced(env, active[n]);
    hide Admissible, ActiveEntry, Matches, PlanTurn, Has, Verdicts, Pairs, Decide, Candidates, Supersedes, Voiced;
    KeysAreVariants(env, active[n], key);
    assert pool[n] == ActiveEntry(env, active[n]);
    forall k | 0 <= k < n ensures key !in pool[k].keys {
      assert !Share(active[k], active[n]);
      assert pool[k] == ActiveEntry(env, active[k]);
      KeysAreVariants(env, active[k], key);
    }
    FirstExact(pool, key, n);
    StoredEntry(env, active[n]);
    StoredMatch(env, j, active, t, i, active[n].id);
    assert Has(active, active[n].id) by { StoredIsHad(active, n); }
    FollowsStored(env, active, t, i, active[n].id);
  }

  lemma StoredEntry(env: Env, c: Claim)
    ensures ActiveEntry(env, c).ref == Existing(c.id)
  {
  }

  lemma StoredIsHad(active: seq<Claim>, n: nat)
    requires n < |active|
    ensures Has(active, active[n].id)
  {
  }

  lemma StoredMatch(env: Env, j: Judging, active: seq<Claim>, t: Turn, i: nat, id: string)
    requires t.matches == Matches(env, j, active, t.incoming) && i < |t.incoming| && !Supersedes(active, t.incoming[i])
    requires FindExact(Pool(env, active, t.incoming, i), env.normalize(t.incoming[i].claim)) == Some(Existing(id))
    ensures MatchAt(t, i) == Same(Existing(id))
  {
    hide Pool, Verdicts, Pairs, Decide, Candidates, Has, FindExact;
  }

  // ---- where a turn's new variants come from

  /** Every recorded wording is the text of an incoming claim that landed on the claim it is recorded for. */
  ghost predicate FromIncoming(t: Turn, p: Plan, n: nat) {
    && n <= |t.incoming| && |p.resolved| == n
    && forall k | 0 <= k < |p.wordings| :: HeardFrom(t, p, n, p.wordings[k])
  }

  ghost predicate HeardFrom(t: Turn, p: Plan, n: nat, w: Wording)
    requires n <= |t.incoming| && |p.resolved| == n
  {
    exists i | 0 <= i < n :: p.resolved[i] == Some(w.claimId) && t.incoming[i].claim == w.text
  }

  lemma WordsAreHeard(env: Env, t: Turn, p: Plan, p': Plan, n: nat)
    requires n < |t.incoming| && FromIncoming(t, p, n) && Words(env, t.incoming[n].claim, p, p')
    ensures FromIncoming(t, p', n + 1)
  {
    forall k | 0 <= k < |p'.wordings| ensures HeardFrom(t, p', n + 1, p'.wordings[k]) {
      if k < |p.wordings| {
        assert p'.wordings[k] == p.wordings[k] && HeardFrom(t, p, n, p.wordings[k]);
        var i :| 0 <= i < n && p.resolved[i] == Some(p.wordings[k].claimId)
          && t.incoming[i].claim == p.wordings[k].text;
        assert p'.resolved[i] == p.resolved[i];
      } else {
        assert p'.resolved[n] == Some(p'.wordings[k].claimId);
      }
    }
  }

  lemma {:induction false} PrefixIsHeard(env: Env, active: seq<Claim>, t: Turn, n: nat)
    requires Admissible(active, t) && NoEmptyVariant(active) && n <= |t.incoming|
    ensures FromIncoming(t, PlanPrefix(env, active, t, n), n)
  {
    hide FromIncoming, Step, Words, Lands, Sound, Admissible, NoEmptyVariant;
    if n == 0 {
      NothingIsHeard(active, t);
    } else {
      PrefixIsHeard(env, active, t, n - 1);
      PrefixIsSound(env, active, t, n - 1);
      var p := PlanPrefix(env, active, t, n - 1);
      StepWords(env, active, t, p, n - 1);
      WordsAreHeard(env, t, p, PlanPrefix(env, active, t, n), n - 1);
    }
  }

  lemma NothingIsHeard(active: seq<Claim>, t: Turn)
    ensures FromIncoming(t, StartPlan(active), 0)
  {
  }

  lemma {:induction false} KeyIsOfAWording(env: Env, wordings: seq<Wording>, id: string, key: string)
    requires key in KeysOf(env, wordings, id)
    ensures key != "" && exists k | 0 <= k < |wordings| ::
            wordings[k].claimId == id && env.normalize(wordings[k].text) == key
  {
    var n := |wordings| - 1;
    if key in KeysOf(env, wordings[..n], id) {
      KeyIsOfAWording(env, wordings[..n], id, key);
      var k :| 0 <= k < n && wordings[..n][k].claimId == id && env.normalize(wordings[..n][k].text) == key;
      assert wordings[k] == wordings[..n][k];
    } else {
      assert wordings[n].claimId == id && env.normalize(wordings[n].text) == key;
    }
  }

  ghost predicate Landed(env: Env, t: Turn, resolved: seq<Option<string>>, id: string, key: string)
    requires |resolved| == |t.incoming|
  {
    exists i | 0 <= i < |resolved| :: resolved[i] == Some(id) && env.normalize(t.incoming[i].claim) == key
  }

  /** A variant was there before the turn, or an incoming claim with that normal form landed on its claim. */
  lemma VariantOrigin(env: Env, active: seq<Claim>, t: Turn, id: string, key: string)
    requires Admissible(active, t) && NoEmptyVariant(active)
    requires id in PlanTurn(env, active, t).states && key in PlanTurn(env, active, t).states[id].variants
    ensures var p := PlanTurn(env, active, t);
            && |p.resolved| == |t.incoming|
            && (key in Before(active, t, p.created, id).variants || (key != "" && Landed(env, t, p.resolved, id, key)))
  {
    hide Admissible, NoEmptyVariant, PlanPrefix, Before, KeysOf, Recorded;
    var p := PlanTurn(env, active, t);
    PrefixIsHeard(env, active, t, |t.incoming|);
    RecordedWordingsAreTheNewVariants(env, active, t, id);
    if key !in Before(active, t, p.created, id).variants {
      KeyIsOfAWording(env, p.wordings, id, key);
      var k :| 0 <= k < |p.wordings| && p.wordings[k].claimId == id && env.normalize(p.wordings[k].text) == key;
      assert HeardFrom(t, p, |t.incoming|, p.wordings[k]);
    }
  }

  // ---- one turn

  /** The turn was matched by the matcher, names no stored claim it replaces, and its texts are stable. */
  ghost predicate Matched(env: Env, j: Judging, active: seq<Claim>, t: Turn) {
    && t.matches == Matches(env, j, active, t.incoming)
    && forall i | 0 <= i < |t.incoming| :: !Supersedes(active, t.incoming[i]) && Stable(env, t.incoming[i].claim)
  }

  lemma FiledHasNoEmpty(env: Env, active: seq<Claim>)
    requires Filed(env, active)
    ensures NoEmptyVariant(active)
  {
    hide Share;
    forall i | 0 <= i < |active| ensures "" !in active[i].variants { assert Voiced(env, active[i]); }
  }

  lemma {:induction false} FoldKeepsShown(env: Env, c: Claim, events: seq<Event>)
    requires c.claim != "" && env.normalize(c.claim) != "" ==> env.normalize(c.claim) in c.variants
    ensures var c' := Fold(env, c, events);
            c'.claim != "" && env.normalize(c'.claim) != "" ==> env.normalize(c'.claim) in c'.variants
    decreases |events|
  {
    hide Apply;
    if events != [] {
      ApplyKeepsShown(env, c, events[0]);
      FoldKeepsShown(env, Apply(env, c, events[0]), events[1..]);
    }
  }

  lemma ApplyKeepsShown(env: Env, c: Claim, e: Event)
    requires c.claim != "" && env.normalize(c.claim) != "" ==> env.normalize(c.claim) in c.variants
    ensures var c' := Apply(env, c, e);
            c'.claim != "" && env.normalize(c'.claim) != "" ==> env.normalize(c'.claim) in c'.variants
  {
    hide Merge, Summarize, MergeCitations;
  }

  lemma CreatedAreNew(active: seq<Claim>, t: Turn, p: Plan, next: seq<Claim>)
    requires Admissible(active, t) && Continues(active, t, p, next)
    ensures forall k | 0 <= k < |p.created| :: !Has(active, p.created[k])
  {
    hide Has;
    forall k | 0 <= k < |p.created| ensures !Has(active, p.created[k]) {
      assert next[|active| + k].id == p.created[k] == t.newId(k);
    }
  }

  /** Before the turn a claim of the new ledger was stored in its place, or empty. */
  lemma BeforeIsStored(env: Env, active: seq<Claim>, t: Turn, p: Plan, next: seq<Claim>, i: nat)
    requires Admissible(active, t) && WellFormed(active) && Continues(active, t, p, next) && i < |next|
    ensures next[i].id in p.states && next[i] == p.states[next[i].id]
    ensures Before(active, t, p.created, next[i].id)
            == if i < |active| then active[i] else Initial(next[i].id, t.at)
  {
    if i < |active| {
      StoredIsFound(active, i);
      StoredIsHad(active, i);
      CreatedAreNew(active, t, p, next);
    } else {
      assert next[i].id in p.created;
    }
  }

  lemma TurnKeepsVoiced(env: Env, j: Judging, active: seq<Claim>, t: Turn, i: nat)
    requires WellFormed(active) && FreshIds(active, TakeTurn(t)) && Filed(env, active) && Matched(env, j, active, t)
    requires i < |AfterTurn(env, active, t)|
    ensures Voiced(env, AfterTurn(env, active, t)[i])
  {
    hide PlanTurn, AfterTurn, Admissible, FreshIds, Matches, Fold, Share, WellFormed;
    var p, next := PlanTurn(env, active, t), AfterTurn(env, active, t);
    AdmissibleTurn(active, t);
    TurnContinues(env, active, t);
    BeforeIsStored(env, active, t, p, next, i);
    FiledHasNoEmpty(env, active);
    hide Continues, NoEmptyVariant, Supersedes, Before;
    var id := next[i].id;
    forall key | key in next[i].variants ensures key != "" && env.normalize(key) == key {
      VariantOrigin(env, active, t, id, key);
      if key in Before(active, t, p.created, id).variants {
        assert i < |active| && Voiced(env, active[i]);
      }
    }
    TurnFollowsTheLog(env, active, t, id);
    if i < |active| { assert Voiced(env, active[i]); }
    FoldKeepsShown(env, Before(active, t, p.created, id), p.events);
  }

  lemma OneHolder(env: Env, active: seq<Claim>, a: nat, b: nat, key: string)
    requires Filed(env, active) && a < |active| && b < |active|
    requires key in active[a].variants && key in active[b].variants
    ensures a == b
  {
    assert a < b ==> !Share(active[a], active[b]);
    assert b < a ==> !Share(active[b], active[a]);
  }

  lemma TurnKeepsApart(env: Env, j: Judging, active: seq<Claim>, t: Turn, a: nat, b: nat, key: string)
    requires WellFormed(active) && FreshIds(active, TakeTurn(t)) && Filed(env, active) && Matched(env, j, active, t)
    requires a < |AfterTurn(env, active, t)| && b < |AfterTurn(env, active, t)|
    requires key in AfterTurn(env, active, t)[a].variants && key in AfterTurn(env, active, t)[b].variants
    ensures AfterTurn(env, active, t)[a].id == AfterTurn(env, active, t)[b].id
  {
    hide PlanTurn, AfterTurn, Admissible, FreshIds, Matches, WellFormed, Supersedes, Voiced, Continues, Before;
    var p, next := PlanTurn(env, active, t), AfterTurn(env, active, t);
    AdmissibleTurn(active, t);
    TurnContinues(env, active, t);
    BeforeIsStored(env, active, t, p, next, a);
    BeforeIsStored(env, active, t, p, next, b);
    FiledHasNoEmpty(env, active);
    VariantOrigin(env, active, t, next[a].id, key);
    VariantOrigin(env, active, t, next[b].id, key);
    if key in Before(active, t, p.created, next[a].id).variants {
      if key in Before(active, t, p.created, next[b].id).variants {
        OneHolder(env, active, a, b, key);
      } else {
        KnownLandsOn(env, j, active, t, a, next[b].id, key);
      }
    } else if key in Before(active, t, p.created, next[b].id).variants {
      KnownLandsOn(env, j, active, t, b, next[a].id, key);
    } else {
      SameLanding(env, j, active, t, next[a].id, next[b].id, key);
    }
  }

  lemma KnownLandsOn(env: Env, j: Judging, active: seq<Claim>, t: Turn, n: nat, id: string, key: string)
    requires Admissible(active, t) && WellFormed(active) && Filed(env, active) && Matched(env, j, active, t)
    requires n < |active| && key in active[n].variants
    requires |PlanTurn(env, active, t).resolved| == |t.incoming|
             && Landed(env, t, PlanTurn(env, active, t).resolved, id, key)
    ensures id == active[n].id
  {
    hide PlanTurn, Admissible, Matches, Supersedes, Filed, WellFormed;
    var resolved := PlanTurn(env, active, t).resolved;
    var i :| 0 <= i < |resolved| && resolved[i] == Some(id) && env.normalize(t.incoming[i].claim) == key;
    KnownWordingLands(env, j, active, t, i, n);
  }

  lemma SameLanding(env: Env, j: Judging, active: seq<Claim>, t: Turn, a: string, b: string, key: string)
    requires Admissible(active, t) && Matched(env, j, active, t)
    requires |PlanTurn(env, active, t).resolved| == |t.incoming|
    requires Landed(env, t, PlanTurn(env, active, t).resolved, a, key)
    requires Landed(env, t, PlanTurn(env, active, t).resolved, b, key)
    ensures a == b
  {
    hide PlanTurn, Admissible, Matches, Supersedes;
    var resolved := PlanTurn(env, active, t).resolved;
    var i :| 0 <= i < |resolved| && resolved[i] == Some(a) && env.normalize(t.incoming[i].claim) == key;
    var k :| 0 <= k < |resolved| && resolved[k] == Some(b) && env.normalize(t.incoming[k].claim) == key;
    if i < k { DuplicatesLandTogether(env, j, active, t, i, k); }
    if k < i { DuplicatesLandTogether(env, j, active, t, k, i); }
  }

  lemma TurnKeepsFiled(env: Env, j: Judging, active: seq<Claim>, t: Turn)
    requires WellFormed(active) && FreshIds(active, TakeTurn(t)) && Filed(env, active) && Matched(env, j, active, t)
    ensures WellFormed(AfterTurn(env, active, t)) && Filed(env, AfterTurn(env, active, t))
  {
    TurnAdvances(env, active, t);
    var next := AfterTurn(env, active, t);
    assert DistinctIds(next);
    hide AfterTurn, WellFormed, FreshIds, Matched, Voiced, Advances;
    forall i | 0 <= i < |next| ensures Voiced(env, next[i]) { TurnKeepsVoiced(env, j, active, t, i); }
    forall a, b | 0 <= a < b < |next| ensures !Share(next[a], next[b]) {
      if key :| key in next[a].variants && key in next[b].variants { TurnKeepsApart(env, j, active, t, a, b, key); }
    }
  }

  lemma ReviewKeepsFiled(env: Env, active: seq<Claim>, i: nat, review: Review, reviewer: string, at: int)
    requires Filed(env, active) && i < |active|
    ensures Filed(env, active[i := Fold(env, active[i], PlanReview(active[i], review, reviewer, at))])
  {
    hide Fold, PlanReview;
    ReviewSettlesTheClaim(env, active[i], review, reviewer, at);
    var next := active[i := Fold(env, active[i], PlanReview(active[i], review, reviewer, at))];
    forall k | 0 <= k < |next| ensures Voiced(env, next[k]) { assert Voiced(env, active[k]); }
    forall a, b | 0 <= a < b < |next| ensures !Share(next[a], next[b]) { assert !Share(active[a], active[b]); }
  }

  // ---- any history

  /** Every turn of the history was matched by the matcher, each with a judge of its own. */
  ghost predicate MatchedRun(env: Env, active: seq<Claim>, steps: seq<LedgerStep>, judges: seq<Judging>)
    requires |judges| == |steps|
    decreases |steps|
  {
    steps == []
    || ((steps[0].TakeTurn? ==> Matched(env, judges[0], active, steps[0].turn))
        && MatchedRun(env, AfterStep(env, active, steps[0]), steps[1..], judges[1..]))
  }

  /** Over any matched turns and reviews no two claims come to share a variant, whatever the judges say. */
  lemma {:induction false} VariantsStayApart(env: Env, active: seq<Claim>, steps: seq<LedgerStep>, judges: seq<Judging>)
    requires WellFormed(active) && Filed(env, active) && |judges| == |steps|
    requires FreshRun(env, active, steps) && MatchedRun(env, active, steps, judges)
    ensures WellFormed(AfterSteps(env, active, steps)) && Filed(env, AfterSteps(env, active, steps))
    decreases |steps|
  {
    hide WellFormed, Filed, AfterTurn, FreshIds, Matched;
    if steps != [] {
      match steps[0] {
        case TakeTurn(t) => TurnKeepsFiled(env, judges[0], active, t);
        case TakeReview(i, review, reviewer, at) =>
          if i < |active| {
            ReviewKeepsWellFormed(env, active, i, review, reviewer, at);
            ReviewKeepsFiled(env, active, i, review, reviewer, at);
          }
      }
      VariantsStayApart(env, AfterStep(env, active, steps[0]), steps[1..], judges[1..]);
    }
  }

  /**
   * From the empty ledger, after any matched turns and reviews: a wording belongs to one claim, and when a later turn
   * asserts it again, naming no claim it replaces, it lands on that claim, whatever the judge says.
   */
  lemma ReassertedWordingLands(env: Env, steps: seq<LedgerStep>, judges: seq<Judging>, j: Judging, t: Turn, i: nat,
                               n: nat)
    requires |judges| == |steps| && FreshRun(env, [], steps) && MatchedRun(env, [], steps, judges)
    requires var ledger := AfterSteps(env, [], steps);
             && FreshIds(ledger, TakeTurn(t)) && t.matches == Matches(env, j, ledger, t.incoming)
             && i < |t.incoming| && !Supersedes(ledger, t.incoming[i])
             && n < |ledger| && env.normalize(t.incoming[i].claim) in ledger[n].variants
    ensures var ledger := AfterSteps(env, [], steps);
            var p := PlanTurn(env, ledger, t);
            && |p.resolved| == |t.incoming| && p.resolved[i] == Some(ledger[n].id)
            && forall m | 0 <= m < |ledger| && env.normalize(t.incoming[i].claim) in ledger[m].variants :: m == n
  {
    hide PlanTurn, AfterSteps, FreshIds, Matches, Supersedes, Voiced;
    VariantsStayApart(env, [], steps, judges);
    var ledger := AfterSteps(env, [], steps);
    AdmissibleTurn(ledger, t);
    KnownWordingLands(env, j, ledger, t, i, n);
    var key := env.normalize(t.incoming[i].claim);
    forall m | 0 <= m < |ledger| && key in ledger[m].variants ensures m == n { OneHolder(env, ledger, m, n, key); }
  }

  /**
   * Stability is needed: a stored variant is normalized once more before it is compared, so one that is not a normal
   * form of itself is no longer found, once the claim shows another wording.
   */
  lemma UnstableWordingIsNotFound(env: Env, c: Claim, claim: LedgerClaim)
    requires claim.supersedes == None && env.normalize(claim.claim) in c.variants
    requires env.normalize(c.claim) != env.normalize(claim.claim)
    requires forall key | key in c.variants :: env.normalize(key) != env.normalize(claim.claim)
    ensures Early(env, [c], Pool(env, [c], [claim], 0), claim) == None
  {
    var pool, texts := Pool(env, [c], [claim], 0), [c.claim] + c.variants;
    assert pool == [ActiveEntry(env, c)];
    assert forall x | x in texts :: x == c.claim || x in c.variants;
    assert forall i | 0 <= i < |texts| :: texts[i] in texts;
    assert FindExact(pool, env.normalize(claim.claim)) == FindExact(pool[1..], env.normalize(claim.claim));
  }
}
