/** When the wordings a turn records for a claim are the variants it adds. */
module ClaimWordings {
  import opened Prelude
  import opened ClaimEvidence
  import opened ClaimEvents
  import opened ClaimPlanner
  import opened ClaimLaws
  import opened ClaimTurns
  import opened ClaimLedger

  // ---- wordings

  /** The wordings a turn recorded for a claim, normalized. */
  function Recorded(env: Env, wordings: seq<Wording>, id: string): seq<string> {
    if wordings == [] then [] else
      var w := wordings[|wordings| - 1];
      Recorded(env, wordings[..|wordings| - 1], id) + (if w.claimId == id then [env.normalize(w.text)] else [])
  }

  lemma {:induction false} KeysAreTheNonEmptyRecorded(env: Env, wordings: seq<Wording>, id: string)
    ensures |KeysOf(env, wordings, id)| <= |Recorded(env, wordings, id)|
    ensures KeysOf(env, wordings, id) == Recorded(env, wordings, id) <==> "" !in Recorded(env, wordings, id)
    ensures |KeysOf(env, wordings, id)| == |Recorded(env, wordings, id)| <==> "" !in Recorded(env, wordings, id)
  {
    if wordings != [] { KeysAreTheNonEmptyRecorded(env, wordings[..|wordings| - 1], id); }
  }

  /**
   * The wordings a turn records for a claim are exactly the variants it adds, in order, if and only if none of
   * them normalizes to nothing; such a wording is recorded but never becomes a variant.
   */
  lemma RecordedWordingsAreTheNewVariants(env: Env, active: seq<Claim>, t: Turn, id: string)
    requires Admissible(active, t) && id in PlanTurn(env, active, t).states
    ensures var p := PlanTurn(env, active, t);
            && p.states[id].variants == Before(active, t, p.created, id).variants + KeysOf(env, p.wordings, id)
            && (p.states[id].variants == Before(active, t, p.created, id).variants + Recorded(env, p.wordings, id)
                <==> "" !in Recorded(env, p.wordings, id))
  {
    hide Advances, Settled, Symmetric, Lawful, Fold, Before, Follows;
    PrefixIsSound(env, active, t, |t.incoming|);
    var p := PlanTurn(env, active, t);
    assert Worded(env, active, t, p, id);
    KeysAreTheNonEmptyRecorded(env, p.wordings, id);
    SameSuffix(Before(active, t, p.created, id).variants, KeysOf(env, p.wordings, id), Recorded(env, p.wordings, id));
  }

  lemma SameSuffix(a: seq<string>, x: seq<string>, y: seq<string>)
    ensures a + x == a + y <==> x == y
  {
    if a + x == a + y { assert (a + x)[|a|..] == x && (a + y)[|a|..] == y; }
  }

  // ---- the same, as a condition on what the turn is given

  lemma {:induction false} RecordedHas(env: Env, wordings: seq<Wording>, id: string)
    ensures "" in Recorded(env, wordings, id) <==>
            exists k | 0 <= k < |wordings| :: wordings[k].claimId == id && env.normalize(wordings[k].text) == ""
  {
    if wordings != [] {
      var n := |wordings| - 1;
      RecordedHas(env, wordings[..n], id);
      assert wordings == wordings[..n] + [wordings[n]];
    }
  }

  lemma {:induction false} KeysAreNonEmpty(env: Env, wordings: seq<Wording>, id: string)
    ensures "" !in KeysOf(env, wordings, id)
  {
    if wordings != [] { KeysAreNonEmpty(env, wordings[..|wordings| - 1], id); }
  }

  ghost predicate NoEmptyVariant(active: seq<Claim>) { forall i | 0 <= i < |active| :: "" !in active[i].variants }

  lemma VariantsStayNonEmpty(env: Env, active: seq<Claim>, t: Turn, p: Plan, id: string)
    requires Sound(env, active, t, p) && NoEmptyVariant(active) && id in p.states
    ensures "" !in p.states[id].variants
  {
    hide PlanOk, AllSettled, Symmetric, KeysOf;
    KeysAreNonEmpty(env, p.wordings, id);
    ByIdFinds(active, id);
    assert Worded(env, active, t, p, id);
  }

  /**
   * What one incoming claim adds: it lands or not, and records its text for the claim where it landed at most once,
   * always if it normalizes to "".
   */
  ghost predicate Words(env: Env, text: string, p: Plan, p': Plan) {
    && |p'.resolved| == |p.resolved| + 1 && p.resolved <= p'.resolved && p.wordings <= p'.wordings
    && var r := p'.resolved[|p.resolved|];
    && (forall k | |p.wordings| <= k < |p'.wordings| :: r.Some? && p'.wordings[k] == Wording(r.value, text))
    && (r.Some? && env.normalize(text) == "" ==> |p'.wordings| > |p.wordings|)
  }

  ghost predicate Lands(t: Turn, activeCount: nat, p: Plan, p': Plan) {
    && |p'.created| <= |p.created| + 1 && |p'.resolved| > |p.resolved|
    && (activeCount + |p.created| < t.maxActive ==> p'.resolved[|p.resolved|].Some?)
  }

  lemma SameWords(env: Env, active: seq<Claim>, t: Turn, p: Plan, id: string, claim: LedgerClaim)
    requires Sound(env, active, t, p) && NoEmptyVariant(active) && id in p.states && claim.claim != ""
    ensures var p1 := AssertInto(env, t, p, id, claim, false);
            var p' := p1.(resolved := p1.resolved + [Some(id)]);
            Words(env, claim.claim, p, p') && Lands(t, |active|, p, p')
  {
    hide PlanOk, AssertInto, NoEmptyVariant, Heard, Settled, Touched, AssertedIn;
    SoundIsPlanOk(env, active, t, p);
    VariantsStayNonEmpty(env, active, t, p, id);
    hide Sound;
    AssertIntoKeepsPlan(env, active, t, p, id, claim, false);
  }

  ghost predicate CreationWords(env: Env, text: string, p: Plan, p': Plan, target: Option<string>) {
    && p'.resolved == p.resolved
    && p'.wordings == (if target.Some? then p.wordings + [Wording(target.value, text)] else p.wordings)
    && |p'.created| == |p.created| + (if target.Some? then 1 else 0)
  }

  lemma CreateWords(env: Env, active: seq<Claim>, t: Turn, p: Plan, claim: LedgerClaim)
    requires Admissible(active, t) && PlanOk(env, active, t, p) && claim.claim != ""
    ensures var (p', target) := CreateClaim(env, t, |active|, p, claim);
            && CreationWords(env, claim.claim, p, p', target)
            && (target.None? <==> |active| + |p.created| >= t.maxActive)
  {
    hide Admissible, PlanOk, CreateClaim, Touched, AssertedIn, Settled, Heard;
    CreateKeepsPlan(env, active, t, |active|, p, claim);
    var (p', target) := CreateClaim(env, t, |active|, p, claim);
    if target.Some? {
      assert p'.resolved == p.resolved;
      assert p'.wordings == p.wordings + [Wording(target.value, claim.claim)];
      assert p'.created == p.created + [target.value];
    } else {
      assert p'.wordings == p.wordings;
      assert p'.resolved == p.resolved;
    }
  }

  lemma LinkWords(env: Env, active: seq<Claim>, t: Turn, p: Plan, claim: LedgerClaim, other: string)
    requires Admissible(active, t) && PlanOk(env, active, t, p) && claim.claim != "" && other in p.states
    ensures var (p1, target) := CreateClaim(env, t, |active|, p, claim);
            target.Some? && other != target.value ==>
              target.value in p1.states && other in p1.states
              && var p2 := Link(env, t, p1, target.value, other);
                 p2.resolved == p1.resolved && p2.wordings == p1.wordings && p2.created == p1.created
  {
    hide Admissible, PlanOk, CreateClaim, Link, Touched, AssertedIn, Settled, Heard;
    CreateKeepsPlan(env, active, t, |active|, p, claim);
    var (p1, target) := CreateClaim(env, t, |active|, p, claim);
    if target.Some? && other != target.value {
      IdsAreNonEmpty(env, active, t, p1, target.value);
      IdsAreNonEmpty(env, active, t, p1, other);
      LinkKeepsPlan(env, active, t, p1, target.value, other);
    }
  }

  lemma StepWords(env: Env, active: seq<Claim>, t: Turn, p: Plan, i: nat)
    requires Admissible(active, t) && Sound(env, active, t, p) && i < |t.incoming| && NoEmptyVariant(active)
    ensures var p' := Step(env, t, |active|, p, i);
            Words(env, t.incoming[i].claim, p, p') && Lands(t, |active|, p, p')
  {
    hide Sound, PlanOk, CreateClaim, AssertInto, Link, ResolveRef, Admissible, NoEmptyVariant;
    var claim, m := t.incoming[i], MatchAt(t, i);
    ClaimsAreNonEmpty(active, t, i);
    SoundIsPlanOk(env, active, t, p);
    var same := if m.Same? then ResolveRef(p, m.ref) else None;
    if same.Some? && same.value in p.states {
      SameWords(env, active, t, p, same.value, claim);
    } else {
      if m.Conflicting? { ReferenceResolves(env, active, t, p, m.ref); }
      var other := if m.Conflicting? then ResolveRef(p, m.ref) else None;
      CreateWords(env, active, t, p, claim);
      if other.Some? { LinkWords(env, active, t, p, claim, other.value); }
      var (p1, target) := CreateClaim(env, t, |active|, p, claim);
      if target.None? {
        CreateKeepsPlan(env, active, t, |active|, p, claim);
        CreateWords(env, active, t, p1, claim);
      }
    }
  }

  lemma SoundIsPlanOk(env: Env, active: seq<Claim>, t: Turn, p: Plan)
    requires Sound(env, active, t, p)
    ensures PlanOk(env, active, t, p)
  {
    hide PlanOk, Tidy;
  }

  /** Some recorded wording normalizes to nothing exactly when some claim that landed does. */
  ghost predicate EmptyIsRecorded(env: Env, t: Turn, p: Plan, n: nat) {
    && n <= |t.incoming| && |p.resolved| == n
    && ((exists k | 0 <= k < |p.wordings| :: env.normalize(p.wordings[k].text) == "")
        <==> exists i | 0 <= i < n :: p.resolved[i].Some? && env.normalize(t.incoming[i].claim) == "")
  }

  lemma WordsKeepRecord(env: Env, t: Turn, p: Plan, p': Plan, i: nat)
    requires i < |t.incoming| && EmptyIsRecorded(env, t, p, i) && Words(env, t.incoming[i].claim, p, p')
    ensures EmptyIsRecorded(env, t, p', i + 1)
  {
    if k :| 0 <= k < |p'.wordings| && env.normalize(p'.wordings[k].text) == "" {
      if k < |p.wordings| {
        assert p.wordings[k] == p'.wordings[k];
        var j :| 0 <= j < i && p.resolved[j].Some? && env.normalize(t.incoming[j].claim) == "";
        assert p'.resolved[j] == p.resolved[j];
      } else {
        assert p'.resolved[i].Some? && p'.wordings[k].text == t.incoming[i].claim;
      }
    }
    if j :| 0 <= j < i + 1 && p'.resolved[j].Some? && env.normalize(t.incoming[j].claim) == "" {
      if j < i {
        assert p'.resolved[j] == p.resolved[j];
        var k :| 0 <= k < |p.wordings| && env.normalize(p.wordings[k].text) == "";
        assert p.wordings[k] == p'.wordings[k];
      } else {
        assert p'.wordings[|p.wordings|].text == t.incoming[i].claim;
      }
    }
  }

  lemma {:induction false} PrefixRecords(env: Env, active: seq<Claim>, t: Turn, n: nat)
    requires Admissible(active, t) && NoEmptyVariant(active) && n <= |t.incoming|
    ensures EmptyIsRecorded(env, t, PlanPrefix(env, active, t, n), n)
  {
    hide EmptyIsRecorded, Step, Words, Lands, Sound, Admissible, NoEmptyVariant;
    if n == 0 {
      NothingRecorded(env, active, t);
    } else {
      PrefixRecords(env, active, t, n - 1);
      PrefixIsSound(env, active, t, n - 1);
      var p := PlanPrefix(env, active, t, n - 1);
      StepWords(env, active, t, p, n - 1);
      WordsKeepRecord(env, t, p, PlanPrefix(env, active, t, n), n - 1);
    }
  }

  lemma NothingRecorded(env: Env, active: seq<Claim>, t: Turn)
    ensures EmptyIsRecorded(env, t, StartPlan(active), 0)
  {
  }

  lemma {:induction false} RoomLetsAllLand(env: Env, active: seq<Claim>, t: Turn, n: nat)
    requires Admissible(active, t) && NoEmptyVariant(active) && n <= |t.incoming|
             && |active| + |t.incoming| <= t.maxActive
    ensures var p := PlanPrefix(env, active, t, n);
            |p.resolved| == n && |p.created| <= n && forall i | 0 <= i < n :: p.resolved[i].Some?
  {
    hide Step, Sound, Admissible, NoEmptyVariant;
    if n > 0 {
      RoomLetsAllLand(env, active, t, n - 1);
      PrefixIsSound(env, active, t, n - 1);
      StepWords(env, active, t, PlanPrefix(env, active, t, n - 1), n - 1);
    }
  }

  /**
   * If no stored claim has an empty variant: every claim's new variants are its recorded wordings exactly when every
   * incoming claim that lands normalizes to something; and with room for all of them, all land.
   */
  lemma WordingsAreVariantsExactlyWhen(env: Env, active: seq<Claim>, t: Turn)
    requires Admissible(active, t) && NoEmptyVariant(active)
    ensures var p := PlanTurn(env, active, t);
            && |p.resolved| == |t.incoming|
            && (AllWordingsAreVariants(env, active, t, p)
                <==> forall i | 0 <= i < |t.incoming| && p.resolved[i].Some? ::
                  env.normalize(t.incoming[i].claim) != "")
    ensures |active| + |t.incoming| <= t.maxActive ==>
              (AllWordingsAreVariants(env, active, t, PlanTurn(env, active, t))
               <==> forall i | 0 <= i < |t.incoming| :: env.normalize(t.incoming[i].claim) != "")
  {
    hide PlanPrefix, Sound, Admissible, NoEmptyVariant;
    var p := PlanTurn(env, active, t);
    PrefixRecords(env, active, t, |t.incoming|);
    RecordedAreVariants(env, active, t);
    if |active| + |t.incoming| <= t.maxActive { RoomLetsAllLand(env, active, t, |t.incoming|); }
  }

  ghost predicate AllWordingsAreVariants(env: Env, active: seq<Claim>, t: Turn, p: Plan) {
    forall id | id in p.states ::
      p.states[id].variants == Before(active, t, p.created, id).variants + Recorded(env, p.wordings, id)
  }

  lemma RecordedAreVariants(env: Env, active: seq<Claim>, t: Turn)
    requires Admissible(active, t)
    ensures var p := PlanTurn(env, active, t);
            AllWordingsAreVariants(env, active, t, p)
            <==> forall k | 0 <= k < |p.wordings| :: env.normalize(p.wordings[k].text) != ""
  {
    hide PlanPrefix, Sound, Admissible, Before, Recorded;
    var p := PlanTurn(env, active, t);
    PrefixIsSound(env, active, t, |t.incoming|);
    forall id | id in p.states
      ensures p.states[id].variants == Before(active, t, p.created, id).variants + Recorded(env, p.wordings, id) <==>
              forall k | 0 <= k < |p.wordings| && p.wordings[k].claimId == id :: env.normalize(p.wordings[k].text) != ""
    {
      RecordedWordingsAreTheNewVariants(env, active, t, id);
      RecordedHas(env, p.wordings, id);
    }
    forall k | 0 <= k < |p.wordings| ensures p.wordings[k].claimId in p.states { WordingsName(env, active, t, p, k); }
  }

  lemma WordingsName(env: Env, active: seq<Claim>, t: Turn, p: Plan, k: nat)
    requires Sound(env, active, t, p) && k < |p.wordings|
    ensures p.wordings[k].claimId in p.states
  {
    hide Tidy, Follows, CreatedInOrder;
    assert p.wordings[k] in p.wordings;
  }

  /**
   * A text without Latin letters or digits normalizes to nothing: its claim is created and recorded, without a variant.
   */
  lemma EmptyTextIsRecordedAlone(env: Env, t: Turn, claim: LedgerClaim)
    requires Admissible([], t) && t.incoming == [claim] && t.matches == [] && t.maxActive > 0
    requires env.normalize(claim.claim) == ""
    ensures var p := PlanTurn(env, [], t);
            var id := t.newId(0);
            && p.created == [id] && p.wordings == [Wording(id, claim.claim)] && id in p.states
               && p.states[id].variants == []
            && !AllWordingsAreVariants(env, [], t, p)
  {
    hide Admissible, CreateClaim, Sound, PlanOk, Step, AllWordingsAreVariants, Recorded;
    var p0, id, p := PlanPrefix(env, [], t, 0), t.newId(0), PlanTurn(env, [], t);
    ClaimsAreNonEmpty([], t, 0);
    PrefixIsSound(env, [], t, 0);
    SoundIsPlanOk(env, [], t, p0);
    OnlyStep(env, t, claim, p0);
    assert id in p.states && p.wordings == [Wording(id, claim.claim)] && p.states[id].variants == [];
    RecordedAreVariants(env, [], t);
    assert env.normalize(p.wordings[0].text) == "";
  }

  /** The only claim of a turn over an empty ledger is created. */
  lemma OnlyStep(env: Env, t: Turn, claim: LedgerClaim, p: Plan)
    requires Admissible([], t) && PlanOk(env, [], t, p) && p == StartPlan([]) && claim.claim != ""
    requires t.incoming == [claim] && t.matches == [] && t.maxActive > 0
    ensures var p', id := PlanTurn(env, [], t), t.newId(0);
            && p'.created == [id] && p'.wordings == [Wording(id, claim.claim)]
            && id in p'.states && p'.states[id].variants == Heard(env, [], claim.claim)
  {
    hide Admissible, PlanOk, CreateClaim, Settled, Touched, AssertedIn, Heard;
    CreateKeepsPlan(env, [], t, 0, p, claim);
    var (p1, target) := CreateClaim(env, t, 0, p, claim);
    assert PlanPrefix(env, [], t, 0) == p;
    var step := Step(env, t, 0, p, 0);
    assert PlanPrefix(env, [], t, 1) == step;
    assert MatchAt(t, 0) == New;
    assert step == p1.(resolved := p1.resolved + [target]);
    assert [] + [t.newId(0)] == [t.newId(0)];
    assert [] + [Wording(t.newId(0), claim.claim)] == [Wording(t.newId(0), claim.claim)];
  }

  // ---- the premise holds of every ledger

  lemma TurnKeepsVariants(env: Env, active: seq<Claim>, t: Turn)
    requires WellFormed(active) && FreshIds(active, TakeTurn(t)) && NoEmptyVariant(active)
    ensures NoEmptyVariant(AfterTurn(env, active, t))
  {
    hide WellFormed, FreshIds, PlanTurn, AfterTurn, Sound;
    AdmissibleTurn(active, t);
    TurnContinues(env, active, t);
    var p, next := PlanTurn(env, active, t), AfterTurn(env, active, t);
    forall i | 0 <= i < |next| ensures "" !in next[i].variants { VariantsStayNonEmpty(env, active, t, p, next[i].id); }
  }

  /** No history of turns and reviews gives a claim an empty variant if none had one. */
  lemma {:induction false} RunKeepsVariants(env: Env, active: seq<Claim>, steps: seq<LedgerStep>)
    requires WellFormed(active) && NoEmptyVariant(active) && FreshRun(env, active, steps)
    ensures NoEmptyVariant(AfterSteps(env, active, steps))
    decreases |steps|
  {
    hide WellFormed, AfterTurn, FreshIds, Fold, PlanReview;
    if steps != [] {
      match steps[0] {
        case TakeTurn(t) =>
          TurnAdvances(env, active, t);
          TurnKeepsVariants(env, active, t);
        case TakeReview(i, review, reviewer, at) =>
          if i < |active| {
            ReviewSettlesTheClaim(env, active[i], review, reviewer, at);
            ReviewKeepsWellFormed(env, active, i, review, reviewer, at);
          }
      }
      RunKeepsVariants(env, AfterStep(env, active, steps[0]), steps[1..]);
    }
  }

  lemma ReviewKeepsWellFormed(env: Env, active: seq<Claim>, i: nat, review: Review, reviewer: string, at: int)
    requires WellFormed(active) && i < |active|
    ensures WellFormed(active[i := Fold(env, active[i], PlanReview(active[i], review, reviewer, at))])
  {
    hide Fold, PlanReview;
    ReviewSettlesTheClaim(env, active[i], review, reviewer, at);
  }
}
