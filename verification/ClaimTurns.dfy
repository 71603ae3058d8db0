/** What a whole turn keeps of the ledger. */
module ClaimTurns {
  import opened Prelude
  import opened ClaimEvidence
  import opened ClaimEvents
  import opened ClaimPlanner
  import opened ClaimLaws

  // ---- admissible turns

  ghost predicate DistinctIds(active: seq<Claim>) {
    forall i, j | 0 <= i < j < |active| :: active[i].id != active[j].id
  }

  predicate Has(active: seq<Claim>, id: string) { exists i | 0 <= i < |active| :: active[i].id == id }

  /** New ids are non-empty, distinct and not in use; claim texts are non-empty. */
  ghost predicate Admissible(active: seq<Claim>, t: Turn) {
    && DistinctIds(active)
    && (forall n: nat :: t.newId(n) != "" && !Has(active, t.newId(n)))
    && (forall m: nat, n: nat :: t.newId(m) == t.newId(n) ==> m == n)
    && (forall i | 0 <= i < |t.incoming| :: t.incoming[i].claim != "")
    && (forall i | 0 <= i < |active| :: active[i].id != "" && (active[i].reviewedAt.Some? ==> active[i].claim != ""))
  }

  lemma {:induction false} ByIdFinds(active: seq<Claim>, id: string)
    ensures id in ById(active) <==> Has(active, id)
    ensures id in ById(active) ==> ById(active)[id].id == id && ById(active)[id] in active
    ensures DistinctIds(active) ==> forall i | 0 <= i < |active| && active[i].id == id :: ById(active)[id] == active[i]
  {
    if active != [] {
      var front := active[..|active| - 1];
      ByIdFinds(front, id);
      if Has(front, id) {
        var i :| 0 <= i < |front| && front[i].id == id;
        assert active[i].id == id;
      }
      if active[|active| - 1].id == id { assert Has(active, id); }
      else if Has(active, id) {
        var i :| 0 <= i < |active| && active[i].id == id;
        assert front[i].id == id;
      }
    }
  }

  /** A claim as it stood before the turn: stored, or created empty. */
  function Before(active: seq<Claim>, t: Turn, created: seq<string>, id: string): Claim {
    if id !in created && id in ById(active) then ById(active)[id] else Initial(id, t.at)
  }

  // ---- the plan invariant

  /** Every claim is its earlier state with the turn's events folded in, and those events are lawful for it. */
  ghost predicate Follows(env: Env, active: seq<Claim>, t: Turn, p: Plan, id: string)
    requires id in p.states
  {
    var st := Before(active, t, p.created, id);
    && st.id == id
    && (st.reviewedAt.Some? ==> st.claim != "")
    && p.states[id] == Fold(env, st, p.events)
    && Lawful(env, st, p.events)
  }

  ghost predicate CreatedInOrder(active: seq<Claim>, t: Turn, p: Plan) {
    && (forall i | 0 <= i < |p.created| :: p.created[i] == t.newId(i))
    && (forall id :: id in p.states <==> Has(active, id) || id in p.created)
  }

  ghost predicate References(p: Plan) {
    && (forall e | e in p.events :: e.claimId in p.states)
    && (forall i | 0 <= i < |p.resolved| && p.resolved[i].Some? :: p.resolved[i].value in p.states)
    && (forall w | w in p.wordings :: w.claimId in p.states)
  }

  ghost predicate PlanOk(env: Env, active: seq<Claim>, t: Turn, p: Plan) {
    && CreatedInOrder(active, t, p)
    && References(p)
    && (forall e | e in p.events :: e.at == t.at)
    && (forall id | id in p.states :: Follows(env, active, t, p, id))
  }

  lemma FollowsFacts(env: Env, active: seq<Claim>, t: Turn, p: Plan, id: string)
    requires id in p.states && Follows(env, active, t, p, id)
    ensures p.states[id].id == id && (p.states[id].reviewedAt.Some? ==> p.states[id].claim != "")
    ensures Advances(Before(active, t, p.created, id), p.states[id])
  {
    hide Fold, Lawful;
    LawfulAdvances(env, Before(active, t, p.created, id), p.events);
  }

  /** Lawful events of one claim change that claim only, and keep the plan. */
  lemma EmitKeepsPlan(env: Env, active: seq<Claim>, t: Turn, p: Plan, id: string, es: seq<Event>)
    requires PlanOk(env, active, t, p) && id in p.states && OwnEvents(t, id, es) && Lawful(env, p.states[id], es)
    ensures PlanOk(env, active, t, Emit(env, p, es))
    ensures Emit(env, p, es).states[id] == Fold(env, p.states[id], es)
    ensures forall j | j in p.states && j != id :: Emit(env, p, es).states[j] == p.states[j]
  {
    hide Fold, Lawful, Before, Advances, Follows;
    var p' := Emit(env, p, es);
    forall j | j in p.states ensures Follows(env, active, t, p', j) && (j != id ==> p'.states[j] == p.states[j]) {
      assert Follows(env, active, t, p, j);
      FollowsFacts(env, active, t, p, j);
      if j != id {
        FoldIgnoresOthers(env, p.states[j], es);
        OthersAreLawful(env, p.states[j], es);
      }
      EmitFollows(env, active, t, p, p', j, es);
    }
  }

  lemma EmitFollows(env: Env, active: seq<Claim>, t: Turn, p: Plan, p': Plan, j: string, es: seq<Event>)
    requires j in p.states && Follows(env, active, t, p, j) && Lawful(env, p.states[j], es)
    requires j in p'.states && p'.states[j] == Fold(env, p.states[j], es)
    requires p'.created == p.created && p'.events == p.events + es
    ensures Follows(env, active, t, p', j)
  {
    hide Fold, Lawful, Before;
    FoldConcat(env, Before(active, t, p.created, j), p.events, es);
    LawfulConcat(env, Before(active, t, p.created, j), p.events, es);
  }

  // ---- what a step of the plan moves

  ghost predicate Touched(p: Plan, id: string) { exists e | e in p.events :: e.claimId == id }

  ghost predicate AssertedIn(p: Plan, id: string) { exists e | e in p.events :: e.claimId == id && e.kind.AssertedAs? }

  /** Claims outside `ids` neither change nor get events; the bookkeeping stays. */
  ghost predicate Moved(p: Plan, p': Plan, ids: set<string>) {
    && p'.states.Keys == p.states.Keys
    && p'.created == p.created && p'.resolved == p.resolved && p'.skipped == p.skipped
    && p.events <= p'.events
    && (forall j | j in p.states && j !in ids :: p'.states[j] == p.states[j])
    && (forall k | |p.events| <= k < |p'.events| :: p'.events[k].claimId in ids)
  }

  lemma MovedComposes(p: Plan, q: Plan, r: Plan, ids: set<string>, more: set<string>)
    requires Moved(p, q, ids) && Moved(q, r, more)
    ensures Moved(p, r, ids + more)
  {
    forall k | |p.events| <= k < |r.events| ensures r.events[k].claimId in ids + more {
      if k < |q.events| { assert r.events[k] == q.events[k]; }
    }
  }

  lemma EmitMoves(env: Env, active: seq<Claim>, t: Turn, p: Plan, id: string, es: seq<Event>)
    requires PlanOk(env, active, t, p) && id in p.states && OwnEvents(t, id, es) && Lawful(env, p.states[id], es)
    ensures var p' := Emit(env, p, es);
            PlanOk(env, active, t, p') && Moved(p, p', {id}) && p'.states[id] == Fold(env, p.states[id], es)
            && p'.events == p.events + es && p'.wordings == p.wordings
  {
    hide Lawful, Follows, CreatedInOrder, References, Fold;
    EmitKeepsPlan(env, active, t, p, id, es);
  }

  lemma AddWordingKeepsPlan(env: Env, active: seq<Claim>, t: Turn, p: Plan, w: Wording)
    requires PlanOk(env, active, t, p) && w.claimId in p.states
    ensures PlanOk(env, active, t, p.(wordings := p.wordings + [w]))
  {
    hide Lawful, Fold, Before;
    var p' := p.(wordings := p.wordings + [w]);
    forall id | id in p'.states ensures Follows(env, active, t, p', id) { assert Follows(env, active, t, p, id); }
  }

  /** Recording one assertion: the plan holds, the claim is settled, and its wording is heard once. */
  ghost predicate Asserted(env: Env, t: Turn, p: Plan, p': Plan, id: string, text: string)
    requires id in p.states
  {
    && Moved(p, p', {id})
    && Touched(p', id) && AssertedIn(p', id)
    && p'.states[id].contradicts == p.states[id].contradicts
    && p'.states[id].variants == Heard(env, p.states[id].variants, text)
    && (t.sources.Some? ==> Settled(p'.states[id]))
    && p'.wordings == p.wordings + (if env.normalize(text) in p.states[id].variants then [] else [Wording(id, text)])
  }

  lemma RecordKeepsPlan(env: Env, active: seq<Claim>, t: Turn, p: Plan, id: string, claim: LedgerClaim)
    requires PlanOk(env, active, t, p) && id in p.states && claim.claim != ""
    ensures var p' := RecordAssertion(env, t, p, id, claim);
            && PlanOk(env, active, t, p') && Moved(p, p', {id}) && Touched(p', id) && AssertedIn(p', id)
            && p'.states[id].contradicts == p.states[id].contradicts
               && p'.states[id].reviewedAt == p.states[id].reviewedAt && p'.states[id].suggested == claim.status
            && p'.states[id].variants == Heard(env, p.states[id].variants, claim.claim)
            && p'.wordings == p.wordings
               + (if env.normalize(claim.claim) in p.states[id].variants then [] else [Wording(id, claim.claim)])
  {
    hide PlanOk, Emit, Lawful, Fold, OwnEvents, Heard, Assertion;
    PlanFacts(env, active, t, p, id);
    AssertionIsLawful(env, t, p.states[id], claim);
    EmitMoves(env, active, t, p, id, [Assertion(env, t, id, claim)]);
    var p1 := Emit(env, p, [Assertion(env, t, id, claim)]);
    AssertionIsOwn(env, t, p, p1, id, claim);
    AddWordingKeepsPlan(env, active, t, p1, Wording(id, claim.claim));
  }

  lemma ChecksKeepPlan(env: Env, active: seq<Claim>, t: Turn, p: Plan, id: string, claim: LedgerClaim, isNew: bool)
    requires PlanOk(env, active, t, p) && id in p.states && (isNew ==> p.states[id].reviewedAt.None?)
    ensures var p' := UpdateChecks(env, t, p, id, claim, isNew);
            PlanOk(env, active, t, p') && Moved(p, p', {id}) && SameSubstance(p.states[id], p'.states[id])
              && p'.wordings == p.wordings
  {
    hide PlanOk, Emit, Lawful, Fold, FlagEvents, StaleEvents, ConflictEvents, OwnEvents;
    PlanFacts(env, active, t, p, id);
    ChecksAreLawful(env, t, p.states[id], claim, isNew);
    EmitMoves(env, active, t, p, id, FlagEvents(t, p.states[id], claim, isNew));
    var p1 := EmitOn(env, p, id, st => FlagEvents(t, st, claim, isNew));
    ChecksAreLawful(env, t, p1.states[id], claim, isNew);
    EmitMoves(env, active, t, p1, id, StaleEvents(env, t, p1.states[id]));
    MovedComposes(p, p1, UpdateChecks(env, t, p, id, claim, isNew), {id}, {id});
    assert {id} + {id} == {id};
  }

  lemma AssertIntoKeepsPlan(env: Env, active: seq<Claim>, t: Turn, p: Plan, id: string, claim: LedgerClaim, isNew: bool)
    requires PlanOk(env, active, t, p) && id in p.states && claim.claim != ""
             && (isNew ==> p.states[id].reviewedAt.None?)
    ensures PlanOk(env, active, t, AssertInto(env, t, p, id, claim, isNew))
    ensures Asserted(env, t, p, AssertInto(env, t, p, id, claim, isNew), id, claim.claim)
  {
    hide PlanOk, Emit, Lawful, Fold, StatusEvents, UpdateChecks, RecordAssertion, OwnEvents, Heard, Derive;
    RecordKeepsPlan(env, active, t, p, id, claim);
    var p1 := RecordAssertion(env, t, p, id, claim);
    PlanFacts(env, active, t, p1, id);
    StatusIsLawful(env, t, p1.states[id], claim, isNew);
    EmitMoves(env, active, t, p1, id, StatusEvents(t, p1.states[id], claim, isNew));
    var p2 := EmitOn(env, p1, id, st => StatusEvents(t, st, claim, isNew));
    ChecksKeepPlan(env, active, t, p2, id, claim, isNew);
    var p3 := AssertInto(env, t, p, id, claim, isNew);
    MovedComposes(p, p1, p2, {id}, {id});
    MovedComposes(p, p2, p3, {id} + {id}, {id});
    assert {id} + {id} + {id} == {id};
    StillTouched(p1, p3, id);
  }

  lemma StillTouched(p: Plan, p': Plan, id: string)
    requires p.events <= p'.events
    ensures Touched(p, id) ==> Touched(p', id)
    ensures AssertedIn(p, id) ==> AssertedIn(p', id)
  {
    forall k | 0 <= k < |p.events| ensures p'.events[k] == p.events[k] {}
  }

  lemma PlanFacts(env: Env, active: seq<Claim>, t: Turn, p: Plan, id: string)
    requires PlanOk(env, active, t, p) && id in p.states
    ensures p.states[id].id == id && (p.states[id].reviewedAt.Some? ==> p.states[id].claim != "")
  {
    FollowsFacts(env, active, t, p, id);
  }

  lemma AssertionIsOwn(env: Env, t: Turn, p: Plan, p': Plan, id: string, claim: LedgerClaim)
    requires p.events + [Assertion(env, t, id, claim)] <= p'.events
    ensures Touched(p', id) && AssertedIn(p', id)
  {
    assert p'.events[|p.events|] == Assertion(env, t, id, claim);
  }

  // ---- conflicts

  function With(xs: seq<string>, x: string): seq<string> { if x in xs then xs else xs + [x] }

  ghost predicate Linked(t: Turn, p: Plan, p': Plan, a: string, b: string)
    requires a in p.states && b in p.states
  {
    && Moved(p, p', {a, b}) && Touched(p', a) && Touched(p', b)
    && p'.states[a].contradicts == With(p.states[a].contradicts, b)
    && p'.states[b].contradicts == With(p.states[b].contradicts, a)
    && p'.states[a].variants == p.states[a].variants && p'.states[b].variants == p.states[b].variants
    && (t.sources.Some? ==> Settled(p'.states[a]) && Settled(p'.states[b]))
    && p'.wordings == p.wordings
  }

  lemma ContradictIsLawful(env: Env, t: Turn, st: Claim, other: string)
    requires other != ""
    ensures var es := [TurnEvent(t, st.id, ContradictedBy(other), Model)];
            var st' := Fold(env, st, es);
            && Lawful(env, st, es) && OwnEvents(t, st.id, es)
            && st'.contradicts == With(st.contradicts, other) && st'.variants == st.variants
               && st'.reviewedAt == st.reviewedAt
  {
    hide ApplyAssertion, Lawful, Fold;
    SingleIsLawful(env, st, [TurnEvent(t, st.id, ContradictedBy(other), Model)]);
  }

  /** The two `contradicted` events. */
  lemma ContradictKeepsPlan(env: Env, active: seq<Claim>, t: Turn, p: Plan, a: string, b: string)
    requires PlanOk(env, active, t, p) && a in p.states && b in p.states && a != b && a != "" && b != ""
    ensures var p' := Emit(env, Emit(env, p, [TurnEvent(t, a, ContradictedBy(b), Model)]),
                           [TurnEvent(t, b, ContradictedBy(a), Model)]);
            && PlanOk(env, active, t, p') && Moved(p, p', {a, b}) && Touched(p', a) && Touched(p', b)
               && p'.wordings == p.wordings
            && p'.states[a].contradicts == With(p.states[a].contradicts, b)
               && p'.states[a].variants == p.states[a].variants
            && p'.states[b].contradicts == With(p.states[b].contradicts, a)
               && p'.states[b].variants == p.states[b].variants
            && p'.states[a].reviewedAt == p.states[a].reviewedAt
  {
    hide PlanOk, Emit, Lawful, Fold, OwnEvents;
    var ea, eb := TurnEvent(t, a, ContradictedBy(b), Model), TurnEvent(t, b, ContradictedBy(a), Model);
    PlanFacts(env, active, t, p, a);
    ContradictIsLawful(env, t, p.states[a], b);
    EmitMoves(env, active, t, p, a, [ea]);
    var p1 := Emit(env, p, [ea]);
    PlanFacts(env, active, t, p1, b);
    ContradictIsLawful(env, t, p1.states[b], a);
    EmitMoves(env, active, t, p1, b, [eb]);
    var p2 := Emit(env, p1, [eb]);
    MovedComposes(p, p1, p2, {a}, {b});
    assert {a} + {b} == {a, b};
    assert p2.events == p.events + [ea, eb];
    assert p2.events[|p.events|] == ea && p2.events[|p.events| + 1] == eb;
  }

  /** A check or status event on one of the two. */
  lemma ConflictCheckKeepsPlan(env: Env, active: seq<Claim>, t: Turn, p: Plan, id: string, isNew: bool)
    requires PlanOk(env, active, t, p) && id in p.states && (isNew ==> p.states[id].reviewedAt.None?)
    ensures var p' := EmitOn(env, p, id, st => ConflictEvents(t, st, isNew));
            PlanOk(env, active, t, p') && Moved(p, p', {id}) && SameSubstance(p.states[id], p'.states[id])
              && p'.wordings == p.wordings
  {
    hide PlanOk, Emit, Lawful, Fold, FlagEvents, StaleEvents, ConflictEvents, OwnEvents;
    PlanFacts(env, active, t, p, id);
    ChecksAreLawful(env, t, p.states[id], LedgerClaim("", Unverified, "", [], "", false, None), isNew);
    EmitMoves(env, active, t, p, id, ConflictEvents(t, p.states[id], isNew));
  }

  lemma SettleKeepsPlan(env: Env, active: seq<Claim>, t: Turn, p: Plan, id: string)
    requires PlanOk(env, active, t, p) && id in p.states
    ensures var p' := Settle(env, t, p, id);
            && PlanOk(env, active, t, p') && Moved(p, p', {id}) && p'.wordings == p.wordings
            && p'.states[id].contradicts == p.states[id].contradicts && p'.states[id].variants == p.states[id].variants
            && (t.sources.Some? ==> Settled(p'.states[id]))
  {
    hide PlanOk, Emit, Lawful, Fold, SettleEvents, OwnEvents, Settled;
    PlanFacts(env, active, t, p, id);
    SettleIsLawful(env, t, p.states[id]);
    EmitMoves(env, active, t, p, id, SettleEvents(t, p.states[id]));
  }

  lemma LinkKeepsPlan(env: Env, active: seq<Claim>, t: Turn, p: Plan, a: string, b: string)
    requires PlanOk(env, active, t, p) && a in p.states && b in p.states && a != b && a != "" && b != ""
    requires p.states[a].reviewedAt.None?
    ensures PlanOk(env, active, t, Link(env, t, p, a, b)) && Linked(t, p, Link(env, t, p, a, b), a, b)
  {
    hide PlanOk, Emit, EmitOn, Settle, Settled, Touched;
    ContradictKeepsPlan(env, active, t, p, a, b);
    var p2 := Emit(env, Emit(env, p, [TurnEvent(t, a, ContradictedBy(b), Model)]),
                   [TurnEvent(t, b, ContradictedBy(a), Model)]);
    ConflictCheckKeepsPlan(env, active, t, p2, a, true);
    var p3 := EmitOn(env, p2, a, st => ConflictEvents(t, st, true));
    ConflictCheckKeepsPlan(env, active, t, p3, b, false);
    var p4 := EmitOn(env, p3, b, st => ConflictEvents(t, st, false));
    SettleKeepsPlan(env, active, t, p4, a);
    var p5 := Settle(env, t, p4, a);
    SettleKeepsPlan(env, active, t, p5, b);
    var p6 := Settle(env, t, p5, b);
    MovedComposes(p2, p3, p4, {a}, {b});
    MovedComposes(p2, p4, p5, {a} + {b}, {a});
    MovedComposes(p2, p5, p6, {a} + {b} + {a}, {b});
    MovedComposes(p, p2, p6, {a, b}, {a} + {b} + {a} + {b});
    assert {a, b} + ({a} + {b} + {a} + {b}) == {a, b};
    StillTouched(p2, p6, a);
    StillTouched(p2, p6, b);
  }

  // ---- creation

  ghost predicate Born(p: Plan, p': Plan, id: string, at: int) {
    && id !in p.states && p' == p.(states := p.states[id := Initial(id, at)], created := p.created + [id])
  }

  lemma BeforeAfterBirth(active: seq<Claim>, t: Turn, created: seq<string>, id: string, j: string)
    ensures Before(active, t, created + [id], j) == if j == id then Initial(id, t.at) else Before(active, t, created, j)
    ensures Initial(id, t.at).id == id && Initial(id, t.at).reviewedAt.None?
  {
  }

  lemma BirthKeepsPlan(env: Env, active: seq<Claim>, t: Turn, p: Plan)
    requires Admissible(active, t) && PlanOk(env, active, t, p)
    ensures var id := t.newId(|p.created|);
            var p' := p.(states := p.states[id := Initial(id, t.at)], created := p.created + [id]);
            Born(p, p', id, t.at) && PlanOk(env, active, t, p')
  {
    hide Lawful, Fold, Before;
    var id := t.newId(|p.created|);
    var p' := p.(states := p.states[id := Initial(id, t.at)], created := p.created + [id]);
    hide Follows, Has;
    forall j | j in p'.states ensures Follows(env, active, t, p', j) {
      if j != id { assert Follows(env, active, t, p, j); }
      BirthFollows(env, active, t, p, p', id, j);
    }
  }

  lemma BirthFollows(env: Env, active: seq<Claim>, t: Turn, p: Plan, p': Plan, id: string, j: string)
    requires p' == p.(states := p.states[id := Initial(id, t.at)], created := p.created + [id])
    requires j != id ==> j in p.states && Follows(env, active, t, p, j)
    requires forall e | e in p.events :: e.claimId != id
    ensures Follows(env, active, t, p', j)
  {
    hide Lawful, Fold, Before;
    BeforeAfterBirth(active, t, p.created, id, j);
    if j == id {
      FoldIgnoresOthers(env, Initial(id, t.at), p.events);
      OthersAreLawful(env, Initial(id, t.at), p.events);
    }
  }

  ghost predicate CreatedAs(env: Env, t: Turn, p: Plan, p': Plan, id: string, text: string) {
    && id !in p.states && p'.states.Keys == p.states.Keys + {id}
    && p'.created == p.created + [id] && p'.resolved == p.resolved
    && p.events <= p'.events && Touched(p', id) && AssertedIn(p', id)
    && (forall j | j in p.states :: p'.states[j] == p.states[j])
    && (forall k | |p.events| <= k < |p'.events| :: p'.events[k].claimId == id)
    && p'.states[id].contradicts == [] && p'.states[id].variants == Heard(env, [], text)
       && p'.states[id].reviewedAt.None?
    && (t.sources.Some? ==> Settled(p'.states[id]))
    && p'.wordings == p.wordings + [Wording(id, text)]
  }

  lemma CreateKeepsPlan(env: Env, active: seq<Claim>, t: Turn, activeCount: nat, p: Plan, claim: LedgerClaim)
    requires Admissible(active, t) && PlanOk(env, active, t, p) && claim.claim != ""
    ensures var (p', target) := CreateClaim(env, t, activeCount, p, claim);
            && PlanOk(env, active, t, p')
            && (target.None? <==> activeCount + |p.created| >= t.maxActive)
            && (target.None? ==> p' == p.(skipped := p.skipped + 1))
            && (target.Some? ==>
                  target.value == t.newId(|p.created|) && CreatedAs(env, t, p, p', target.value, claim.claim))
  {
    hide PlanOk, Follows, AssertInto, Heard, Settled, Admissible, Advances, AssertedIn, Touched;
    if activeCount + |p.created| < t.maxActive {
      BirthKeepsPlan(env, active, t, p);
      var id := t.newId(|p.created|);
      var p1 := p.(states := p.states[id := Initial(id, t.at)], created := p.created + [id]);
      AssertIntoKeepsPlan(env, active, t, p1, id, claim, true);
      var p' := AssertInto(env, t, p1, id, claim, true);
      NewIsUnreviewed(env, active, t, p', id);
    } else {
      SkipKeepsPlan(env, active, t, p);
    }
  }

  lemma SkipKeepsPlan(env: Env, active: seq<Claim>, t: Turn, p: Plan)
    requires PlanOk(env, active, t, p)
    ensures PlanOk(env, active, t, p.(skipped := p.skipped + 1))
  {
    hide Follows;
    SkipFollows(env, active, t, p);
  }

  lemma NewIsUnreviewed(env: Env, active: seq<Claim>, t: Turn, p: Plan, id: string)
    requires PlanOk(env, active, t, p) && id in p.states && id in p.created
    ensures p.states[id].reviewedAt.None?
  {
    hide Lawful, Fold;
    assert Follows(env, active, t, p, id);
    FollowsFacts(env, active, t, p, id);
  }

  lemma SkipFollows(env: Env, active: seq<Claim>, t: Turn, p: Plan)
    ensures forall id | id in p.states ::
            Follows(env, active, t, p, id) ==> Follows(env, active, t, p.(skipped := p.skipped + 1), id)
  {
  }

  // ---- a step, and the whole turn

  /** The recorded wordings of a claim that normalize to something, normalized. */
  function KeysOf(env: Env, wordings: seq<Wording>, id: string): seq<string> {
    if wordings == [] then [] else
      var w := wordings[|wordings| - 1];
      KeysOf(env, wordings[..|wordings| - 1], id)
      + (if w.claimId == id && env.normalize(w.text) != "" then [env.normalize(w.text)] else [])
  }

  lemma KeysOfSnoc(env: Env, wordings: seq<Wording>, w: Wording, id: string)
    ensures KeysOf(env, wordings + [w], id) == KeysOf(env, wordings, id)
              + (if w.claimId == id && env.normalize(w.text) != "" then [env.normalize(w.text)] else [])
  {
    assert (wordings + [w])[..|wordings|] == wordings;
  }

  ghost predicate Symmetric(states: map<string, Claim>) {
    && (forall a, b | a in states && b in states :: b in states[a].contradicts <==> a in states[b].contradicts)
    && (forall a, x | a in states && x in states[a].contradicts :: x in states && x != a)
  }

  ghost predicate Worded(env: Env, active: seq<Claim>, t: Turn, p: Plan, id: string)
    requires id in p.states
  {
    p.states[id].variants == Before(active, t, p.created, id).variants + KeysOf(env, p.wordings, id)
  }

  ghost predicate AllSettled(t: Turn, p: Plan) {
    t.sources.Some? ==> forall id | id in p.states && Touched(p, id) :: Settled(p.states[id])
  }

  ghost predicate Tidy(env: Env, active: seq<Claim>, t: Turn, p: Plan) {
    && AllSettled(t, p)
    && (Symmetric(ById(active)) ==> Symmetric(p.states))
    && (forall id | id in p.states :: Worded(env, active, t, p, id))
    && (forall id | id in p.created :: AssertedIn(p, id))
  }

  lemma NotTouched(p: Plan, p': Plan, ids: set<string>, id: string)
    requires p.events <= p'.events && (forall k | |p.events| <= k < |p'.events| :: p'.events[k].claimId in ids)
             && id !in ids
    ensures Touched(p', id) ==> Touched(p, id)
  {
    if Touched(p', id) {
      var k :| 0 <= k < |p'.events| && p'.events[k].claimId == id;
      assert p.events[k] == p'.events[k];
    }
  }

  /** If the claims that got events are settled, so are all that ever did. */
  lemma SettledGoesOn(t: Turn, p: Plan, p': Plan, ids: set<string>)
    requires AllSettled(t, p) && p.events <= p'.events
             && (forall k | |p.events| <= k < |p'.events| :: p'.events[k].claimId in ids)
    requires forall j | j in p'.states && j !in ids :: j in p.states && p'.states[j] == p.states[j]
    requires t.sources.Some? ==> forall j | j in p'.states && j in ids :: Settled(p'.states[j])
    ensures AllSettled(t, p')
  {
    hide Settled;
    forall j | j in p'.states && Touched(p', j) && j !in ids ensures Touched(p, j) { NotTouched(p, p', ids, j); }
  }

  lemma SymmetricSame(m: map<string, Claim>, m': map<string, Claim>)
    requires Symmetric(m) && m'.Keys == m.Keys && (forall j | j in m :: m'[j].contradicts == m[j].contradicts)
    ensures Symmetric(m')
  {
  }

  lemma SymmetricLinked(m: map<string, Claim>, m': map<string, Claim>, a: string, b: string)
    requires Symmetric(m) && m'.Keys == m.Keys && a in m && b in m && a != b
    requires forall j | j in m && j != a && j != b :: m'[j] == m[j]
    requires m'[a].contradicts == With(m[a].contradicts, b) && m'[b].contradicts == With(m[b].contradicts, a)
    ensures Symmetric(m')
  {
    hide With;
    forall x, y | x in m ensures y in m'[x].contradicts <==>
      y in m[x].contradicts || (x == a && y == b) || (x == b && y == a) {
      WithHas(m[a].contradicts, b, y);
      WithHas(m[b].contradicts, a, y);
    }
  }

  lemma WithHas(xs: seq<string>, x: string, y: string)
    ensures y in With(xs, x) <==> y in xs || y == x
  {
  }

  lemma SymmetricCreated(m: map<string, Claim>, m': map<string, Claim>, id: string)
    requires Symmetric(m) && id !in m && m'.Keys == m.Keys + {id} && m'[id].contradicts == []
    requires forall j | j in m :: m'[j] == m[j]
    ensures Symmetric(m')
  {
  }

  lemma AssertedIsWorded(env: Env, active: seq<Claim>, t: Turn, p: Plan, p': Plan, id: string, text: string, j: string)
    requires id in p.states && j in p.states && Worded(env, active, t, p, j) && Asserted(env, t, p, p', id, text)
    ensures Worded(env, active, t, p', j)
  {
    hide Settled, Before, Touched, AssertedIn, KeysOf;
    KeysOfSnoc(env, p.wordings, Wording(id, text), j);
    var key := env.normalize(text);
    assert p.wordings + [] == p.wordings;
    assert Before(active, t, p.created, j).variants + KeysOf(env, p.wordings, j) + [key]
        == Before(active, t, p.created, j).variants + (KeysOf(env, p.wordings, j) + [key]);
  }

  lemma AssertedIsTidy(env: Env, active: seq<Claim>, t: Turn, p: Plan, p': Plan, id: string, text: string)
    requires Tidy(env, active, t, p) && id in p.states && Asserted(env, t, p, p', id, text)
    ensures Tidy(env, active, t, p')
  {
    hide Settled, Before, Worded, Symmetric, AllSettled;
    SettledGoesOn(t, p, p', {id});
    if Symmetric(p.states) { SymmetricSame(p.states, p'.states); }
    forall j | j in p.created ensures AssertedIn(p', j) { StillTouched(p, p', j); }
    forall j | j in p'.states ensures Worded(env, active, t, p', j) {
      AssertedIsWorded(env, active, t, p, p', id, text, j);
    }
  }

  lemma LinkedIsTidy(env: Env, active: seq<Claim>, t: Turn, p: Plan, p': Plan, a: string, b: string)
    requires Tidy(env, active, t, p) && a in p.states && b in p.states && a != b && Linked(t, p, p', a, b)
    ensures Tidy(env, active, t, p')
  {
    hide Settled, Before, Symmetric, AllSettled, KeysOf;
    SettledGoesOn(t, p, p', {a, b});
    if Symmetric(p.states) { SymmetricLinked(p.states, p'.states, a, b); }
    forall j | j in p.created ensures AssertedIn(p', j) { StillTouched(p, p', j); }
    forall j | j in p'.states ensures Worded(env, active, t, p', j) { assert Worded(env, active, t, p, j); }
  }

  lemma CreatedIsWorded(env: Env, active: seq<Claim>, t: Turn, p: Plan, p': Plan, id: string, text: string, j: string)
    requires References(p) && CreatedAs(env, t, p, p', id, text) && j in p'.states
    requires j in p.states ==> Worded(env, active, t, p, j)
    ensures Worded(env, active, t, p', j)
  {
    hide Settled, Touched;
    KeysOfSnoc(env, p.wordings, Wording(id, text), j);
    if j == id { NoKeys(env, p.wordings, id); }
  }

  lemma CreatedIsTidy(env: Env, active: seq<Claim>, t: Turn, p: Plan, p': Plan, id: string, text: string)
    requires Tidy(env, active, t, p) && References(p) && CreatedAs(env, t, p, p', id, text)
    ensures Tidy(env, active, t, p')
  {
    hide Settled, Worded, Symmetric, AllSettled, References;
    SettledGoesOn(t, p, p', {id});
    if Symmetric(p.states) { SymmetricCreated(p.states, p'.states, id); }
    forall j | j in p.created ensures AssertedIn(p', j) { StillTouched(p, p', j); }
    forall j | j in p'.states ensures Worded(env, active, t, p', j) {
      CreatedIsWorded(env, active, t, p, p', id, text, j);
    }
  }

  lemma {:induction false} NoKeys(env: Env, wordings: seq<Wording>, id: string)
    requires forall w | w in wordings :: w.claimId != id
    ensures KeysOf(env, wordings, id) == []
  {
    if wordings != [] { NoKeys(env, wordings[..|wordings| - 1], id); }
  }

  /** Everything the plan keeps. */
  ghost predicate Sound(env: Env, active: seq<Claim>, t: Turn, p: Plan) {
    PlanOk(env, active, t, p) && Tidy(env, active, t, p)
  }

  lemma CreateIsSound(env: Env, active: seq<Claim>, t: Turn, p: Plan, claim: LedgerClaim)
    requires Admissible(active, t) && Sound(env, active, t, p) && claim.claim != ""
    ensures Sound(env, active, t, CreateClaim(env, t, |active|, p, claim).0)
  {
    hide PlanOk, Tidy, Settled, CreateClaim, Admissible;
    CreateKeepsPlan(env, active, t, |active|, p, claim);
    var (p', target) := CreateClaim(env, t, |active|, p, claim);
    if target.Some? {
      assert References(p) by { PlanReferences(env, active, t, p); }
      CreatedIsTidy(env, active, t, p, p', target.value, claim.claim);
    } else {
      SkipIsTidy(env, active, t, p);
    }
  }

  lemma PlanReferences(env: Env, active: seq<Claim>, t: Turn, p: Plan)
    requires PlanOk(env, active, t, p)
    ensures References(p) && CreatedInOrder(active, t, p)
  {
  }

  lemma SkipIsTidy(env: Env, active: seq<Claim>, t: Turn, p: Plan)
    requires Tidy(env, active, t, p)
    ensures Tidy(env, active, t, p.(skipped := p.skipped + 1))
  {
    hide Settled, KeysOf, Before, Symmetric;
    var p' := p.(skipped := p.skipped + 1);
    forall id | id in p'.states && Touched(p', id) ensures Touched(p, id) {}
    forall id | id in p'.states ensures Worded(env, active, t, p', id) { assert Worded(env, active, t, p, id); }
  }

  lemma ResolveKeepsSound(env: Env, active: seq<Claim>, t: Turn, p: Plan, target: Option<string>)
    requires Sound(env, active, t, p) && (target.Some? ==> target.value in p.states)
    ensures Sound(env, active, t, p.(resolved := p.resolved + [target]))
  {
    hide PlanOk, Tidy;
    ResolveIsTidy(env, active, t, p, target);
    ResolveKeepsPlan(env, active, t, p, target);
  }

  lemma ResolveIsTidy(env: Env, active: seq<Claim>, t: Turn, p: Plan, target: Option<string>)
    requires Tidy(env, active, t, p)
    ensures Tidy(env, active, t, p.(resolved := p.resolved + [target]))
  {
    hide Settled, KeysOf, Before, Symmetric;
    var p' := p.(resolved := p.resolved + [target]);
    forall id | id in p'.states && Touched(p', id) ensures Touched(p, id) {}
    forall id | id in p'.states ensures Worded(env, active, t, p', id) { assert Worded(env, active, t, p, id); }
  }

  lemma ResolveKeepsPlan(env: Env, active: seq<Claim>, t: Turn, p: Plan, target: Option<string>)
    requires PlanOk(env, active, t, p) && (target.Some? ==> target.value in p.states)
    ensures PlanOk(env, active, t, p.(resolved := p.resolved + [target]))
  {
    hide Before, Fold, Lawful;
    var p' := p.(resolved := p.resolved + [target]);
    forall id | id in p'.states ensures Follows(env, active, t, p', id) { assert Follows(env, active, t, p, id); }
  }

  lemma IdsAreNonEmpty(env: Env, active: seq<Claim>, t: Turn, p: Plan, id: string)
    requires Admissible(active, t) && PlanOk(env, active, t, p) && id in p.states
    ensures id != ""
  {
    hide Follows;
  }

  lemma ReferenceResolves(env: Env, active: seq<Claim>, t: Turn, p: Plan, ref: Ref)
    requires PlanOk(env, active, t, p)
    ensures ResolveRef(p, ref).Some? ==> ResolveRef(p, ref).value in p.states
  {
    hide Follows;
  }

  lemma StepIsSound(env: Env, active: seq<Claim>, t: Turn, p: Plan, i: nat)
    requires Admissible(active, t) && Sound(env, active, t, p) && i < |t.incoming|
    ensures Sound(env, active, t, Step(env, t, |active|, p, i))
  {
    hide PlanOk, Tidy, Settled, CreateClaim, AssertInto, Link, ResolveRef, Admissible;
    var claim, m := t.incoming[i], MatchAt(t, i);
    assert claim.claim != "" by { ClaimsAreNonEmpty(active, t, i); }
    if m.Same? { ReferenceResolves(env, active, t, p, m.ref); }
    if m.Conflicting? { ReferenceResolves(env, active, t, p, m.ref); }
    var same := if m.Same? then ResolveRef(p, m.ref) else None;
    if same.Some? && same.value in p.states {
      AssertIntoKeepsPlan(env, active, t, p, same.value, claim, false);
      var p1 := AssertInto(env, t, p, same.value, claim, false);
      AssertedIsTidy(env, active, t, p, p1, same.value, claim.claim);
      ResolveKeepsSound(env, active, t, p1, same);
    } else {
      var other := if m.Conflicting? then ResolveRef(p, m.ref) else None;
      CreateIsSound(env, active, t, p, claim);
      CreateKeepsPlan(env, active, t, |active|, p, claim);
      var (p1, target) := CreateClaim(env, t, |active|, p, claim);
      var p2 := if target.Some? && other.Some? && other != target then Link(env, t, p1, target.value, other.value)
        else p1;
      if target.Some? && other.Some? && other != target {
        IdsAreNonEmpty(env, active, t, p1, target.value);
        IdsAreNonEmpty(env, active, t, p1, other.value);
        LinkKeepsPlan(env, active, t, p1, target.value, other.value);
        LinkedIsTidy(env, active, t, p1, p2, target.value, other.value);
      }
      CreateIsSound(env, active, t, p2, claim);
      CreateKeepsPlan(env, active, t, |active|, p2, claim);
      var (p3, target') := if m.Conflicting? && target.None? then CreateClaim(env, t, |active|, p2, claim)
        else (p2, target);
      ResolveKeepsSound(env, active, t, p3, target');
    }
  }

  lemma ClaimsAreNonEmpty(active: seq<Claim>, t: Turn, i: nat)
    requires Admissible(active, t) && i < |t.incoming|
    ensures t.incoming[i].claim != ""
  {
  }

  lemma StartIsSound(env: Env, active: seq<Claim>, t: Turn)
    requires Admissible(active, t)
    ensures Sound(env, active, t, StartPlan(active))
  {
    hide Advances, Settled;
    var p := StartPlan(active);
    forall id ensures id in p.states <==> Has(active, id) { ByIdFinds(active, id); }
    forall id | id in p.states ensures Follows(env, active, t, p, id) && Worded(env, active, t, p, id) {
      ByIdFinds(active, id);
      assert Fold(env, p.states[id], []) == p.states[id];
    }
  }

  lemma {:induction false} PrefixIsSound(env: Env, active: seq<Claim>, t: Turn, n: nat)
    requires Admissible(active, t) && n <= |t.incoming|
    ensures Sound(env, active, t, PlanPrefix(env, active, t, n))
  {
    hide Sound, Admissible, Step, StartPlan;
    if n == 0 {
      StartIsSound(env, active, t);
    } else {
      PrefixIsSound(env, active, t, n - 1);
      StepIsSound(env, active, t, PlanPrefix(env, active, t, n - 1), n - 1);
    }
  }
}
