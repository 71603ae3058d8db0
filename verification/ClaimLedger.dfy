/** The ledger over any number of turns and reviews. */
module ClaimLedger {
  import opened Prelude
  import opened ClaimEvidence
  import opened ClaimEvents
  import opened ClaimPlanner
  import opened ClaimLaws
  import opened ClaimTurns

  // ---- one turn

  /** Each claim after a turn is its earlier state with the emitted events folded in; the others are as they were. */
  lemma TurnFollowsTheLog(env: Env, active: seq<Claim>, t: Turn, id: string)
    requires Admissible(active, t) && id in PlanTurn(env, active, t).states
    ensures var p := PlanTurn(env, active, t);
            && p.states[id] == Fold(env, Before(active, t, p.created, id), p.events)
            && (!Touched(p, id) ==> id !in p.created && id in ById(active) && p.states[id] == ById(active)[id])
  {
    hide Advances, Settled, Symmetric, Worded, Lawful, Fold, Before;
    PrefixIsSound(env, active, t, |t.incoming|);
    var p := PlanTurn(env, active, t);
    assert Follows(env, active, t, p, id);
    if !Touched(p, id) {
      assert AssertedIn(p, id) ==> Touched(p, id);
      ByIdFinds(active, id);
      BeforeStored(active, t, p.created, id);
      FoldIgnoresOthers(env, Before(active, t, p.created, id), p.events);
    }
  }

  /**
   * Every event of a turn is a lawful one for the claim as it stands when the event meets it: nobody poses as a person,
   * a reviewed claim keeps its status and check, a status event changes the status and says who follows what, a
   * retraction is logged as one, checks open only where none is open and close only for the model's or stale reasons.
   */
  lemma EveryEventIsLawful(env: Env, active: seq<Claim>, t: Turn, k: nat)
    requires Admissible(active, t) && k < |PlanTurn(env, active, t).events|
    ensures var p := PlanTurn(env, active, t);
            var id := p.events[k].claimId;
            && id in p.states && p.events[k].at == t.at
            && Allowed(Fold(env, Before(active, t, p.created, id), p.events[..k]), p.events[k])
  {
    hide Advances, Settled, Symmetric, Worded, Lawful, Fold, Before, Allowed, Admissible;
    PrefixIsSound(env, active, t, |t.incoming|);
    var p := PlanTurn(env, active, t);
    assert p.events[k] in p.events;
    var id := p.events[k].claimId;
    assert Follows(env, active, t, p, id);
    LawfulAt(env, Before(active, t, p.created, id), p.events, k);
  }

  lemma BeforeStored(active: seq<Claim>, t: Turn, created: seq<string>, id: string)
    requires id !in created && id in ById(active)
    ensures Before(active, t, created, id) == ById(active)[id]
  {
  }

  /** Two folds of the same events that began apart only in their times. */
  ghost predicate ApartInTime(x: Claim, y: Claim, at: int) {
    && y == x.(createdAt := y.createdAt, updatedAt := y.updatedAt)
    && x.createdAt == at && x.updatedAt == at
    && (y.updatedAt == 0 || y.updatedAt == if at > 0 then at else 0)
    && (x.claim != "" ==> y.createdAt == at && y.updatedAt == if at > 0 then at else 0)
  }

  lemma {:induction false} FoldsStayApartInTime(env: Env, x: Claim, y: Claim, events: seq<Event>, at: int)
    requires ApartInTime(x, y, at) && forall e | e in events :: e.at == at
    ensures ApartInTime(Fold(env, x, events), Fold(env, y, events), at)
    decreases |events|
  {
    if events != [] {
      ApplyStaysApartInTime(env, x, y, events[0], at);
      assert events[0] in events;
      FoldsStayApartInTime(env, Apply(env, x, events[0]), Apply(env, y, events[0]), events[1..], at);
    }
  }

  lemma StampStaysApartInTime(x: Claim, y: Claim, e: Event, at: int)
    requires ApartInTime(x, y, at) && e.at == at
    ensures ApartInTime(Stamp(x, e), Stamp(y, e), at) && Stamp(y, e).updatedAt == if at > 0 then at else 0
  {
  }

  /** Only an assertion looks at a claim's creation time. */
  lemma EffectIgnoresTimes(env: Env, x: Claim, createdAt: int, updatedAt: int, e: Event)
    requires !e.kind.AssertedAs?
    ensures Effect(env, x.(createdAt := createdAt, updatedAt := updatedAt), e)
         == Effect(env, x, e).(createdAt := createdAt, updatedAt := updatedAt)
    ensures var z := Effect(env, x, e); z.createdAt == x.createdAt && z.updatedAt == x.updatedAt && z.claim == x.claim
  {
    hide ApplyAssertion, ActorName, Or;
    var x' := x.(createdAt := createdAt, updatedAt := updatedAt);
    match e.kind {
      case StatusChanged(_) => assert Effect(env, x', e)
        == Effect(env, x, e).(createdAt := createdAt, updatedAt := updatedAt);
      case Withdrawn => assert Effect(env, x', e) == Effect(env, x, e).(createdAt := createdAt, updatedAt := updatedAt);
      case ContradictedBy(_) => assert Effect(env, x', e)
        == Effect(env, x, e).(createdAt := createdAt, updatedAt := updatedAt);
      case CheckOpened(_) => assert Effect(env, x', e)
        == Effect(env, x, e).(createdAt := createdAt, updatedAt := updatedAt);
      case CheckClosed(_) => assert Effect(env, x', e)
        == Effect(env, x, e).(createdAt := createdAt, updatedAt := updatedAt);
    }
  }

  lemma ApplyStaysApartInTime(env: Env, x: Claim, y: Claim, e: Event, at: int)
    requires ApartInTime(x, y, at) && e.at == at
    ensures ApartInTime(Apply(env, x, e), Apply(env, y, e), at)
  {
    hide Effect, Stamp;
    StampStaysApartInTime(x, y, e, at);
    if e.kind.AssertedAs? {
      AssertionStaysApartInTime(env, Stamp(x, e), Stamp(y, e), e, at);
      AssertionIsItsEffect(env, Stamp(x, e), e);
      AssertionIsItsEffect(env, Stamp(y, e), e);
    } else {
      var nx, ny := Stamp(x, e), Stamp(y, e);
      EffectIgnoresTimes(env, nx, ny.createdAt, ny.updatedAt, e);
    }
  }

  lemma AssertionIsItsEffect(env: Env, x: Claim, e: Event)
    requires e.kind.AssertedAs?
    ensures Effect(env, x, e) == ApplyAssertion(env, x, e)
  {
  }

  lemma AssertionStaysApartInTime(env: Env, x: Claim, y: Claim, e: Event, at: int)
    requires ApartInTime(x, y, at) && e.at == at && e.kind.AssertedAs? && y.updatedAt == if at > 0 then at else 0
    ensures ApartInTime(ApplyAssertion(env, x, e), ApplyAssertion(env, y, e), at)
  {
    hide Merge, Summarize, MergeCitations;
  }

  /** A created claim is the fold of the log from the empty claim exactly when the turn's time is not negative. */
  lemma CreatedClaimIsTheFoldOfItsEvents(env: Env, active: seq<Claim>, t: Turn, id: string)
    requires Admissible(active, t) && id in PlanTurn(env, active, t).created
    ensures id in PlanTurn(env, active, t).states
    ensures PlanTurn(env, active, t).states[id] == FoldClaim(env, id, PlanTurn(env, active, t).events) <==> t.at >= 0
  {
    hide Fold, Lawful, PlanPrefix, Settled, Symmetric, Worded, Advances;
    PrefixIsSound(env, active, t, |t.incoming|);
    var p := PlanTurn(env, active, t);
    CreatedHasText(env, active, t, p, id);
    assert Follows(env, active, t, p, id);
    FoldsStayApartInTime(env, Initial(id, t.at), EmptyClaim(id), p.events, t.at);
  }

  // ---- many turns and reviews

  datatype LedgerStep = TakeTurn(turn: Turn) | TakeReview(index: nat, review: Review, reviewer: string, at: int)

  function AfterTurn(env: Env, active: seq<Claim>, t: Turn): seq<Claim> {
    var p := PlanTurn(env, active, t);
    seq(|active|, i requires 0 <= i < |active| =>
        if active[i].id in p.states then p.states[active[i].id] else active[i])
    + seq(|p.created|, i requires 0 <= i < |p.created| =>
          if p.created[i] in p.states then p.states[p.created[i]] else EmptyClaim(p.created[i]))
  }

  function AfterStep(env: Env, active: seq<Claim>, step: LedgerStep): seq<Claim> {
    match step
    case TakeTurn(t) => AfterTurn(env, active, t)
    case TakeReview(i, review, reviewer, at) =>
      if i < |active| then active[i := Fold(env, active[i], PlanReview(active[i], review, reviewer, at))] else active
  }

  function AfterSteps(env: Env, active: seq<Claim>, steps: seq<LedgerStep>): seq<Claim>
    decreases |steps|
  {
    if steps == [] then active else AfterSteps(env, AfterStep(env, active, steps[0]), steps[1..])
  }

  ghost predicate FreshIds(active: seq<Claim>, step: LedgerStep) {
    step.TakeTurn? ==>
      && (forall n: nat :: step.turn.newId(n) != "" && !Has(active, step.turn.newId(n)))
      && (forall m: nat, n: nat :: step.turn.newId(m) == step.turn.newId(n) ==> m == n)
      && (forall i | 0 <= i < |step.turn.incoming| :: step.turn.incoming[i].claim != "")
  }

  ghost predicate FreshRun(env: Env, active: seq<Claim>, steps: seq<LedgerStep>)
    decreases |steps|
  {
    steps == [] || (FreshIds(active, steps[0]) && FreshRun(env, AfterStep(env, active, steps[0]), steps[1..]))
  }

  ghost predicate WellFormed(active: seq<Claim>) {
    && DistinctIds(active)
    && (forall i | 0 <= i < |active| :: active[i].id != "" && active[i].claim != "")
  }

  lemma AdmissibleTurn(active: seq<Claim>, t: Turn)
    requires WellFormed(active) && FreshIds(active, TakeTurn(t))
    ensures Admissible(active, t)
  {
  }

  /** Where the claims of a turn come from: the stored ones in place, then the created ones in order. */
  ghost predicate Continues(active: seq<Claim>, t: Turn, p: Plan, next: seq<Claim>) {
    && |next| == |active| + |p.created|
    && (forall i | 0 <= i < |active| ::
          active[i].id in p.states && next[i] == p.states[active[i].id] && next[i].id == active[i].id)
    && (forall i | |active| <= i < |next| ::
          var id := p.created[i - |active|];
          id == t.newId(i - |active|) && id in p.states && next[i] == p.states[id] && next[i].id == id)
  }

  lemma PlanHoldsItsClaims(env: Env, active: seq<Claim>, t: Turn, p: Plan)
    requires Admissible(active, t) && Sound(env, active, t, p)
    ensures forall i | 0 <= i < |active| :: active[i].id in p.states && p.states[active[i].id].id == active[i].id
    ensures forall i | 0 <= i < |p.created| ::
              var id := p.created[i];
              id == t.newId(i) && id in p.states && p.states[id].id == id && p.states[id].claim != ""
  {
    hide PlanOk, Settled, Symmetric, Worded, Advances, AllSettled, Admissible;
    forall i | 0 <= i < |active| ensures active[i].id in p.states && p.states[active[i].id].id == active[i].id {
      assert DistinctIds(active) by { AdmissibleIsDistinct(active, t); }
      StoredAdvances(env, active, t, p, i);
    }
    PlanReferences(env, active, t, p);
    forall i | 0 <= i < |p.created|
      ensures p.created[i] in p.states && p.states[p.created[i]].id == p.created[i]
              && p.states[p.created[i]].claim != "" {
      assert p.created[i] in p.created;
      CreatedHasText(env, active, t, p, p.created[i]);
    }
  }

  lemma AdmissibleIsDistinct(active: seq<Claim>, t: Turn)
    requires Admissible(active, t)
    ensures DistinctIds(active)
  {
  }

  lemma TurnContinues(env: Env, active: seq<Claim>, t: Turn)
    requires Admissible(active, t)
    ensures Continues(active, t, PlanTurn(env, active, t), AfterTurn(env, active, t))
            && Sound(env, active, t, PlanTurn(env, active, t))
  {
    hide Sound, Admissible, PlanPrefix;
    PrefixIsSound(env, active, t, |t.incoming|);
    PlanHoldsItsClaims(env, active, t, PlanTurn(env, active, t));
  }

  lemma ContinuesDistinctly(active: seq<Claim>, t: Turn, p: Plan, next: seq<Claim>)
    requires Admissible(active, t) && Continues(active, t, p, next)
    ensures DistinctIds(next) && forall i | 0 <= i < |next| :: next[i].id != ""
  {
    forall i, j | 0 <= i < j < |next| ensures next[i].id != next[j].id {
      if i < |active| <= j { assert Has(active, active[i].id); }
    }
  }

  /** Every stored claim keeps its place and advances lawfully; the ledger stays well formed. */
  lemma TurnAdvances(env: Env, active: seq<Claim>, t: Turn)
    requires WellFormed(active) && FreshIds(active, TakeTurn(t))
    ensures |active| <= |AfterTurn(env, active, t)| && WellFormed(AfterTurn(env, active, t))
    ensures forall i | 0 <= i < |active| :: Advances(active[i], AfterTurn(env, active, t)[i])
  {
    hide Advances, AfterTurn, PlanTurn, PlanOk, Admissible, FreshIds;
    AdmissibleTurn(active, t);
    TurnContinues(env, active, t);
    var p, next := PlanTurn(env, active, t), AfterTurn(env, active, t);
    ContinuesDistinctly(active, t, p, next);
    forall i | 0 <= i < |next| ensures next[i].claim != "" && (i < |active| ==> Advances(active[i], next[i])) {
      if i < |active| {
        StoredAdvances(env, active, t, p, i);
        AdvancesKeepsText(active[i], next[i]);
      } else {
        PlanHoldsItsClaims(env, active, t, p);
      }
    }
  }

  lemma AdvancesKeepsText(a: Claim, b: Claim)
    requires Advances(a, b) && a.claim != ""
    ensures b.claim != ""
  {
  }

  lemma StoredAdvances(env: Env, active: seq<Claim>, t: Turn, p: Plan, i: nat)
    requires DistinctIds(active) && PlanOk(env, active, t, p) && i < |active| && Admissible(active, t)
    ensures active[i].id in p.states && p.states[active[i].id].id == active[i].id
            && Advances(active[i], p.states[active[i].id])
  {
    hide Lawful, Fold, Advances;
    var id := active[i].id;
    assert Has(active, id);
    ByIdFinds(active, id);
    assert Follows(env, active, t, p, id);
    FollowsFacts(env, active, t, p, id);
    assert id !in p.created;
  }

  /** A claim with an assertion among its lawful events ends with text. */
  lemma {:induction false} AssertionGivesText(env: Env, st: Claim, events: seq<Event>)
    requires Lawful(env, st, events)
    requires st.claim != "" || exists e | e in events :: e.claimId == st.id && e.kind.AssertedAs?
    ensures Fold(env, st, events).claim != ""
    decreases |events|
  {
    hide Merge, Summarize, MergeCitations;
    if events != [] { AssertionGivesText(env, Apply(env, st, events[0]), events[1..]); }
  }

  lemma CreatedHasText(env: Env, active: seq<Claim>, t: Turn, p: Plan, id: string)
    requires PlanOk(env, active, t, p) && id in p.created && AssertedIn(p, id)
    ensures id in p.states && p.states[id].id == id && p.states[id].claim != ""
  {
    hide Lawful, Fold, Advances;
    assert Follows(env, active, t, p, id);
    FollowsFacts(env, active, t, p, id);
    AssertionGivesText(env, Before(active, t, p.created, id), p.events);
  }

  /** Across any number of turns, with or without evidence, a claim only advances. */
  lemma {:induction false} TurnsAdvance(env: Env, active: seq<Claim>, steps: seq<LedgerStep>)
    requires WellFormed(active) && FreshRun(env, active, steps) && (forall s | s in steps :: s.TakeTurn?)
    ensures var next := AfterSteps(env, active, steps);
            |active| <= |next| && WellFormed(next) && forall i | 0 <= i < |active| :: Advances(active[i], next[i])
    decreases |steps|
  {
    hide Advances, AfterTurn, WellFormed, FreshIds;
    if steps == [] {
      forall i | 0 <= i < |active| ensures Advances(active[i], active[i]) { AdvancesReflexive(active[i]); }
    } else {
      var mid := AfterStep(env, active, steps[0]);
      assert steps[0] in steps;
      TurnAdvances(env, active, steps[0].turn);
      TurnsAdvance(env, mid, steps[1..]);
      var next := AfterSteps(env, active, steps);
      forall i | 0 <= i < |active| ensures Advances(active[i], next[i]) {
        AdvancesTransitive(active[i], mid[i], next[i]);
      }
    }
  }

  /** What a person decided on a claim, and any check opened by a person or a conflict, outlives every later turn. */
  lemma TurnsKeepDecisions(env: Env, active: seq<Claim>, steps: seq<LedgerStep>, i: nat)
    requires WellFormed(active) && FreshRun(env, active, steps) && (forall s | s in steps :: s.TakeTurn?)
             && i < |active|
    ensures i < |AfterSteps(env, active, steps)|
    ensures var c, c' := active[i], AfterSteps(env, active, steps)[i];
            && (c.reviewedAt.Some? ==>
                  && c'.status == c.status && c'.needsCheck == c.needsCheck && c'.checkReason == c.checkReason
                  && c'.reviewedAt == c.reviewedAt && c'.reviewedBy == c.reviewedBy)
            && (c.needsCheck && c.checkReason in {Some("contradicted"), Some("person")} ==>
                  c'.needsCheck && c'.checkReason == c.checkReason)
            && c.contradicts <= c'.contradicts && c.variants <= c'.variants
  {
    TurnsAdvance(env, active, steps);
  }

  // ---- what the status rule needs of each claim

  ghost predicate ClaimOk(c: Claim) {
    Settled(c) && Summarised(c) && UrlUnique(c.evidence) && |c.evidence| <= MAX_EVIDENCE
  }

  ghost predicate LedgerOk(active: seq<Claim>) {
    WellFormed(active) && Symmetric(ById(active)) && forall i | 0 <= i < |active| :: ClaimOk(active[i])
  }

  lemma AdvancesKeepsEvidence(a: Claim, b: Claim)
    requires Advances(a, b) && Summarised(a) && UrlUnique(a.evidence) && |a.evidence| <= MAX_EVIDENCE
    ensures Summarised(b) && UrlUnique(b.evidence) && |b.evidence| <= MAX_EVIDENCE
  {
  }

  /** In evidence mode, every claim a turn touches ends settled, whatever it was before. */
  lemma TouchedIsSettled(env: Env, active: seq<Claim>, t: Turn, id: string)
    requires Admissible(active, t) && t.sources.Some?
    requires id in PlanTurn(env, active, t).states && Touched(PlanTurn(env, active, t), id)
    ensures var c := PlanTurn(env, active, t).states[id];
            c.reviewedAt.None? ==> c.status == Derive(c.suggested, c.evidence, c.contradicts != [])
  {
    hide PlanPrefix, PlanOk;
    PrefixIsSound(env, active, t, |t.incoming|);
  }

  lemma TurnKeepsClaimOk(env: Env, active: seq<Claim>, t: Turn, p: Plan, id: string)
    requires LedgerOk(active) && Admissible(active, t) && t.sources.Some? && p == PlanTurn(env, active, t)
             && Sound(env, active, t, p)
    requires id in p.states
    ensures ClaimOk(p.states[id])
  {
    hide PlanPrefix, Settled, Summarised, UrlUnique, Advances, Lawful, Fold, Symmetric, Admissible, Worded;
    assert Follows(env, active, t, p, id);
    FollowsFacts(env, active, t, p, id);
    var st := Before(active, t, p.created, id);
    assert ClaimOk(st) by {
      ByIdFinds(active, id);
      InitialOk(id, t.at);
      assert PlanReferencesHere(env, active, t, p, id);
    }
    AdvancesKeepsEvidence(st, p.states[id]);
    if Touched(p, id) {
      assert Settled(p.states[id]);
    } else {
      TurnFollowsTheLog(env, active, t, id);
      BeforeStored(active, t, p.created, id);
    }
  }

  ghost predicate PlanReferencesHere(env: Env, active: seq<Claim>, t: Turn, p: Plan, id: string) {
    id in p.states ==> id in p.created || Has(active, id)
  }

  lemma InitialOk(id: string, at: int)
    ensures ClaimOk(Initial(id, at))
  {
    assert Publishers([], false) == {};
  }

  lemma SameClaims(next: seq<Claim>, states: map<string, Claim>)
    requires DistinctIds(next) && (forall id :: id in states <==> Has(next, id))
    requires forall i | 0 <= i < |next| :: next[i].id in states && next[i] == states[next[i].id]
    ensures ById(next) == states
  {
    forall id ensures (id in ById(next) <==> id in states) && (id in states ==> ById(next)[id] == states[id]) {
      ByIdFinds(next, id);
    }
  }

  lemma ContinuesCovers(env: Env, active: seq<Claim>, t: Turn, p: Plan, next: seq<Claim>, id: string)
    requires PlanOk(env, active, t, p) && Continues(active, t, p, next)
    ensures id in p.states <==> Has(next, id)
  {
    hide Follows;
    if id in p.states {
      if id in p.created {
        var i :| 0 <= i < |p.created| && p.created[i] == id;
        assert next[|active| + i].id == id;
      } else {
        var i :| 0 <= i < |active| && active[i].id == id;
        assert next[i].id == id;
      }
    }
  }

  lemma TurnKeepsLedgerOk(env: Env, active: seq<Claim>, t: Turn)
    requires LedgerOk(active) && FreshIds(active, TakeTurn(t)) && t.sources.Some?
    ensures LedgerOk(AfterTurn(env, active, t))
  {
    hide ClaimOk, Symmetric, AfterTurn, PlanTurn, Admissible, FreshIds, PlanOk, Advances, Worded, AllSettled;
    AdmissibleTurn(active, t);
    TurnAdvances(env, active, t);
    TurnContinues(env, active, t);
    var p, next := PlanTurn(env, active, t), AfterTurn(env, active, t);
    forall i | 0 <= i < |next| ensures ClaimOk(next[i]) { TurnKeepsClaimOk(env, active, t, p, next[i].id); }
    forall id ensures id in p.states <==> Has(next, id) { ContinuesCovers(env, active, t, p, next, id); }
    SameClaims(next, p.states);
  }

  lemma ReviewKeepsLedgerOk(env: Env, active: seq<Claim>, i: nat, review: Review, reviewer: string, at: int)
    requires LedgerOk(active) && i < |active|
    ensures LedgerOk(active[i := Fold(env, active[i], PlanReview(active[i], review, reviewer, at))])
  {
    hide Fold, PlanReview, Derive, Symmetric, Summarised;
    ReviewSettlesTheClaim(env, active[i], review, reviewer, at);
    var c := Fold(env, active[i], PlanReview(active[i], review, reviewer, at));
    assert Summarised(c) by { SummaryOfSame(active[i], c); }
    ReplacedKeepsSymmetry(active, i, c);
  }

  lemma SummaryOfSame(a: Claim, b: Claim)
    requires Summarised(a) && b.evidence == a.evidence && b.tier == a.tier && b.corroboration == a.corroboration
    ensures Summarised(b)
  {
  }

  lemma ReplacedKeepsSymmetry(active: seq<Claim>, i: nat, c: Claim)
    requires DistinctIds(active) && Symmetric(ById(active)) && i < |active| && c.id == active[i].id
             && c.contradicts == active[i].contradicts
    ensures DistinctIds(active[i := c]) && Symmetric(ById(active[i := c]))
  {
    hide Symmetric;
    var next := active[i := c];
    forall id ensures (id in ById(next) <==> id in ById(active))
      && (id in ById(active) ==> ById(next)[id].contradicts == ById(active)[id].contradicts) {
      ByIdFinds(active, id);
      ByIdFinds(next, id);
      if Has(active, id) {
        var j :| 0 <= j < |active| && active[j].id == id;
        assert next[j].id == id;
      }
      if Has(next, id) {
        var j :| 0 <= j < |next| && next[j].id == id;
        assert active[j].id == id;
      }
    }
    SymmetricSame(ById(active), ById(next));
  }

  // ---- conflicts, with or without evidence

  lemma TurnKeepsSymmetry(env: Env, active: seq<Claim>, t: Turn)
    requires WellFormed(active) && FreshIds(active, TakeTurn(t)) && Symmetric(ById(active))
    ensures WellFormed(AfterTurn(env, active, t)) && Symmetric(ById(AfterTurn(env, active, t)))
  {
    hide Symmetric, AfterTurn, PlanTurn, Admissible, FreshIds, PlanOk, Advances, Worded, AllSettled;
    AdmissibleTurn(active, t);
    TurnAdvances(env, active, t);
    TurnContinues(env, active, t);
    var p, next := PlanTurn(env, active, t), AfterTurn(env, active, t);
    PlanHoldsItsClaims(env, active, t, p);
    forall id ensures id in p.states <==> Has(next, id) { ContinuesCovers(env, active, t, p, next, id); }
    SameClaims(next, p.states);
  }

  lemma ReviewKeepsSymmetry(env: Env, active: seq<Claim>, i: nat, review: Review, reviewer: string, at: int)
    requires WellFormed(active) && Symmetric(ById(active)) && i < |active|
    ensures var next := active[i := Fold(env, active[i], PlanReview(active[i], review, reviewer, at))];
            WellFormed(next) && Symmetric(ById(next))
  {
    hide Fold, PlanReview, Symmetric;
    ReviewSettlesTheClaim(env, active[i], review, reviewer, at);
    ReplacedKeepsSymmetry(active, i, Fold(env, active[i], PlanReview(active[i], review, reviewer, at)));
  }

  lemma {:induction false} RunKeepsSymmetry(env: Env, active: seq<Claim>, steps: seq<LedgerStep>)
    requires WellFormed(active) && Symmetric(ById(active)) && FreshRun(env, active, steps)
    ensures WellFormed(AfterSteps(env, active, steps)) && Symmetric(ById(AfterSteps(env, active, steps)))
    decreases |steps|
  {
    hide WellFormed, Symmetric, AfterTurn, FreshIds;
    if steps != [] {
      match steps[0] {
        case TakeTurn(t) => TurnKeepsSymmetry(env, active, t);
        case TakeReview(i, review, reviewer, at) =>
          if i < |active| { ReviewKeepsSymmetry(env, active, i, review, reviewer, at); }
      }
      RunKeepsSymmetry(env, AfterStep(env, active, steps[0]), steps[1..]);
    }
  }

  /** Two claims name each other as conflicting or neither does; no claim conflicts with itself or with one unknown. */
  ghost predicate MutualConflicts(ledger: seq<Claim>) {
    && (forall i, j | 0 <= i < |ledger| && 0 <= j < |ledger| ::
          ledger[j].id in ledger[i].contradicts <==> ledger[i].id in ledger[j].contradicts)
    && (forall i, x | 0 <= i < |ledger| && x in ledger[i].contradicts :: x != ledger[i].id && Has(ledger, x))
  }

  lemma SymmetricIsMutual(ledger: seq<Claim>)
    requires DistinctIds(ledger) && Symmetric(ById(ledger))
    ensures MutualConflicts(ledger)
  {
    hide ById, DistinctIds, Has;
    forall i | 0 <= i < |ledger| ensures ledger[i].id in ById(ledger) && ById(ledger)[ledger[i].id] == ledger[i] {
      StoredIsFound(ledger, i);
    }
    forall i, x | 0 <= i < |ledger| && x in ledger[i].contradicts ensures x != ledger[i].id && Has(ledger, x) {
      assert x in ById(ledger)[ledger[i].id].contradicts;
      ByIdFinds(ledger, x);
    }
  }

  lemma StoredIsFound(ledger: seq<Claim>, i: nat)
    requires DistinctIds(ledger) && i < |ledger|
    ensures ledger[i].id in ById(ledger) && ById(ledger)[ledger[i].id] == ledger[i]
  {
    ByIdFinds(ledger, ledger[i].id);
  }

  /** Across any turns, in either mode, and any reviews, ids stay distinct and conflicts mutual. */
  lemma ConflictsStayMutual(env: Env, active: seq<Claim>, steps: seq<LedgerStep>)
    requires WellFormed(active) && MutualConflicts(active) && FreshRun(env, active, steps)
    ensures WellFormed(AfterSteps(env, active, steps)) && MutualConflicts(AfterSteps(env, active, steps))
  {
    hide AfterSteps, FreshRun;
    MutualIsSymmetric(active);
    RunKeepsSymmetry(env, active, steps);
    SymmetricIsMutual(AfterSteps(env, active, steps));
  }

  lemma MutualIsSymmetric(ledger: seq<Claim>)
    requires MutualConflicts(ledger)
    ensures Symmetric(ById(ledger))
  {
    hide ById, Has;
    forall id ensures (id in ById(ledger) <==> Has(ledger, id))
      && (id in ById(ledger) ==> ById(ledger)[id].id == id && ById(ledger)[id] in ledger) {
      ByIdFinds(ledger, id);
    }
  }

  // ---- the status rule over whole histories of evidence

  ghost predicate EvidenceRun(steps: seq<LedgerStep>) { forall s | s in steps && s.TakeTurn? :: s.turn.sources.Some? }

  lemma {:induction false} RunKeepsLedgerOk(env: Env, active: seq<Claim>, steps: seq<LedgerStep>)
    requires LedgerOk(active) && FreshRun(env, active, steps) && EvidenceRun(steps)
    ensures LedgerOk(AfterSteps(env, active, steps))
    decreases |steps|
  {
    hide LedgerOk, AfterTurn, FreshIds;
    if steps != [] {
      assert steps[0] in steps;
      match steps[0] {
        case TakeTurn(t) => TurnKeepsLedgerOk(env, active, t);
        case TakeReview(i, review, reviewer, at) => if i < |active| {
          ReviewKeepsLedgerOk(env, active, i, review, reviewer, at);
        }
      }
      assert forall s | s in steps[1..] :: s in steps;
      RunKeepsLedgerOk(env, AfterStep(env, active, steps[0]), steps[1..]);
    }
  }

  /**
   * Over every history of evidence-mode turns and reviews from an empty ledger: an unreviewed claim has exactly
   * the status its evidence supports, so if it is confirmed nothing conflicts with it and it rests on an
   * official source or on two independent wire or major outlets; and conflicts are mutual.
   */
  lemma EveryLedgerFollowsItsEvidence(env: Env, steps: seq<LedgerStep>, i: nat)
    requires FreshRun(env, [], steps) && EvidenceRun(steps) && i < |AfterSteps(env, [], steps)|
    ensures var ledger := AfterSteps(env, [], steps);
            var c := ledger[i];
            && Settled(c) && Summarised(c) && UrlUnique(c.evidence) && |c.evidence| <= MAX_EVIDENCE
            && Symmetric(ById(ledger))
            && (c.reviewedAt.None? && c.status == Confirmed ==>
                  && c.contradicts == []
                  && ((exists k | 0 <= k < |c.evidence| :: c.evidence[k].tier == Official)
                      || (exists k, l | 0 <= k < |c.evidence| && 0 <= l < |c.evidence| ::
                            c.evidence[k].tier == WireMajor && c.evidence[l].tier == WireMajor
                            && c.evidence[k].publisher != c.evidence[l].publisher)))
  {
    hide Derive, Symmetric, AfterTurn, UrlUnique, Summarised;
    assert LedgerOk([]) by { assert Symmetric(ById([])) by { EmptyIsSymmetric(); } }
    RunKeepsLedgerOk(env, [], steps);
    var c := AfterSteps(env, [], steps)[i];
    ConfirmedMeans(c.suggested, c.evidence, c.contradicts != []);
  }

  lemma EmptyIsSymmetric()
    ensures Symmetric(ById([]))
  {
  }
}
