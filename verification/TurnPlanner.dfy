/** The planner as it runs: closures that emit events into one log and keep the folded states beside it. */
module TurnPlanner {
  import opened Prelude
  import opened ClaimEvidence
  import opened ClaimEvents
  import opened ClaimPlanner
  import opened ClaimTurns

  datatype TurnResult = TurnResult(created: seq<Claim>, events: seq<Event>, wordings: seq<Wording>,
                                   touched: map<string, Claim>, skipped: nat, resolved: seq<Option<string>>)

  /** States are filed under their own ids; the touched claims are those with events, in their latest state. */
  ghost predicate Consistent(p: Plan, touched: map<string, Claim>) {
    && (forall id | id in p.states :: p.states[id].id == id)
    && (forall e | e in p.events :: e.claimId in touched)
    && (forall id | id in touched :: id in p.states && touched[id] == p.states[id] && Touched(p, id))
    && (forall i | 0 <= i < |p.resolved| && p.resolved[i].Some? :: p.resolved[i].value in p.states)
  }

  /** Emitting one event updates the one claim it names, since every other claim ignores it. */
  lemma EmitIsOneUpdate(env: Env, p: Plan, touched: map<string, Claim>, e: Event)
    requires Consistent(p, touched) && e.claimId in p.states
    ensures var next := Apply(env, p.states[e.claimId], e);
            var p' := p.(events := p.events + [e], states := p.states[e.claimId := next]);
            Emit(env, p, [e]) == p' && Consistent(p', touched[e.claimId := next])
  {
    hide Apply, Fold;
    var id := e.claimId;
    var next := Apply(env, p.states[id], e);
    var p' := p.(events := p.events + [e], states := p.states[id := next]);
    FoldOne(env, p.states[id], e);
    FoldKeepsId(env, p.states[id], [e]);
    forall j | j in p.states ensures p'.states[j] == Fold(env, p.states[j], [e]) {
      if j != id { FoldIgnoresOthers(env, p.states[j], [e]); }
    }
    assert Emit(env, p, [e]).states == p'.states;
    assert p'.events[|p.events|] == e;
    StillTouchedAll(p, p');
  }

  lemma StillTouchedAll(p: Plan, p': Plan)
    requires p.events <= p'.events
    ensures forall j | Touched(p, j) :: Touched(p', j)
  {
    forall k | 0 <= k < |p.events| ensures p'.events[k] == p.events[k] {}
  }

  lemma CreationIsConsistent(p: Plan, touched: map<string, Claim>, id: string, at: int)
    requires Consistent(p, touched) && id !in p.states
    ensures Consistent(p.(states := p.states[id := Initial(id, at)], created := p.created + [id]), touched)
  {
    var p' := p.(states := p.states[id := Initial(id, at)], created := p.created + [id]);
    StillTouchedAll(p, p');
  }

  lemma WordingIsConsistent(p: Plan, touched: map<string, Claim>, w: Wording)
    requires Consistent(p, touched)
    ensures Consistent(p.(wordings := p.wordings + [w]), touched)
  {
    StillTouchedAll(p, p.(wordings := p.wordings + [w]));
  }

  lemma ReferencesExist(p: Plan, touched: map<string, Claim>, ref: Ref)
    requires Consistent(p, touched)
    ensures ResolveRef(p, ref).Some? ==> ResolveRef(p, ref).value in p.states
  {
  }

  class Planner {
    const env: Env
    const t: Turn
    const activeCount: nat
    var states: map<string, Claim>
    var touched: map<string, Claim>
    var events: seq<Event>
    var wordings: seq<Wording>
    var resolved: seq<Option<string>>
    var created: seq<string>
    var skipped: nat

    function View(): Plan
      reads this
    {
      Plan(states, events, wordings, resolved, created, skipped)
    }

    ghost predicate Valid()
      reads this
    {
      Consistent(View(), touched)
    }

    constructor (env: Env, active: seq<Claim>, t: Turn)
      ensures Valid() && View() == StartPlan(active)
      ensures this.env == env && this.t == t && activeCount == |active| && touched == map[]
    {
      this.env, this.t, activeCount := env, t, |active|;
      states := ById(active);
      touched, events, wordings, resolved, created, skipped := map[], [], [], [], [], 0;
      new;
      forall id | id in states ensures states[id].id == id { ByIdFinds(active, id); }
    }

    method EmitEvent(id: string, kind: Kind, actor: Actor)
      requires Valid() && id in states
      modifies this`events, this`states, this`touched
      ensures Valid() && View() == Emit(env, old(View()), [TurnEvent(t, id, kind, actor)])
      ensures states.Keys == old(states.Keys)
    {
      hide Apply, Emit, Consistent;
      var e := TurnEvent(t, id, kind, actor);
      EmitIsOneUpdate(env, View(), touched, e);
      events := events + [e];
      var next := Apply(env, states[id], e);
      states := states[id := next];
      touched := touched[id := next];
    }

    /** Move a claim to the status its evidence supports, unless a person settled it. */
    method SettleClaim(id: string)
      requires Valid() && id in states
      modifies this`events, this`states, this`touched
      ensures Valid() && View() == Settle(env, t, old(View()), id)
      ensures states.Keys == old(states.Keys)
    {
      assert states[id].id == id;
      hide Consistent, Derive, Stale, Fold, Apply;
      var st := states[id];
      ghost var before := View();
      NothingEmitted(env, before);
      if t.sources.None? || st.reviewedAt.Some? { return; }
      var to := Derive(st.suggested, st.evidence, st.contradicts != []);
      if to == st.status { return; }
      if to == Retracted {
        EmitEvent(id, Withdrawn, Model);
      } else {
        EmitEvent(id, StatusChanged(to), if to == st.suggested then Model else System);
      }
    }

    method RecordClaim(id: string, claim: LedgerClaim)
      requires Valid() && id in states
      modifies this`events, this`states, this`touched, this`wordings
      ensures Valid() && View() == RecordAssertion(env, t, old(View()), id, claim)
      ensures states.Keys == old(states.Keys)
    {
      hide Fold, Apply, Resolve, Emit, Consistent;
      var before := states[id];
      var key := env.normalize(claim.claim);
      var sources := [];
      if t.sources.Some? { sources := ResolveEvidence(env, claim.citations, t.sources.value); }
      EmitEvent(id, AssertedAs(claim.claim, claim.status, claim.attributedTo, claim.citations, claim.date, sources),
                Model);
      WordingIsConsistent(View(), touched, Wording(id, claim.claim));
      if key !in before.variants { wordings := wordings + [Wording(id, claim.claim)]; }
    }

    method UpdateStatus(id: string, claim: LedgerClaim, isNew: bool)
      requires Valid() && id in states
      modifies this`events, this`states, this`touched
      ensures Valid() && View() == EmitOn(env, old(View()), id, st => StatusEvents(t, st, claim, isNew))
      ensures states.Keys == old(states.Keys)
    {
      assert states[id].id == id;
      hide Consistent, Derive, Stale, Fold, Apply;
      var after := states[id];
      NothingEmitted(env, View());
      if t.sources.Some? {
        SettleClaim(id);
      } else if !isNew && after.reviewedAt.None? && claim.status != after.status {
        if claim.status == Retracted {
          EmitEvent(id, Withdrawn, Model);
        } else {
          EmitEvent(id, StatusChanged(claim.status), Model);
        }
      }
    }

    method UpdateFlag(id: string, claim: LedgerClaim, isNew: bool)
      requires Valid() && id in states
      modifies this`events, this`states, this`touched
      ensures Valid() && View() == EmitOn(env, old(View()), id, st => FlagEvents(t, st, claim, isNew))
      ensures states.Keys == old(states.Keys)
    {
      assert states[id].id == id;
      hide Consistent, Derive, Stale, Fold, Apply;
      var current := states[id];
      NothingEmitted(env, View());
      var locked := current.reviewedAt.Some?;
      if !locked && claim.needsCheck && !current.needsCheck { EmitEvent(id, CheckOpened("model"), Model); }
      // The model may only withdraw a flag it raised itself.
      if !locked && !isNew && !claim.needsCheck && current.needsCheck && current.checkReason == Some("model") {
        EmitEvent(id, CheckClosed("model"), Model);
      }
    }

    method UpdateStale(id: string)
      requires Valid() && id in states
      modifies this`events, this`states, this`touched
      ensures Valid() && View() == EmitOn(env, old(View()), id, st => StaleEvents(env, t, st))
      ensures states.Keys == old(states.Keys)
    {
      assert states[id].id == id;
      hide Consistent, Derive, Stale, Fold, Apply;
      var st := states[id];
      NothingEmitted(env, View());
      if t.sources.Some? && st.reviewedAt.None? {
        var stale := Stale(env, st.evidence, st.date, t.at);
        if stale && !st.needsCheck { EmitEvent(id, CheckOpened("stale"), System); }
        if !stale && st.needsCheck && st.checkReason == Some("stale") { EmitEvent(id, CheckClosed("stale"), System); }
      }
    }

    method AssertClaim(id: string, claim: LedgerClaim, isNew: bool)
      requires Valid() && id in states
      modifies this`events, this`states, this`touched, this`wordings
      ensures Valid() && View() == AssertInto(env, t, old(View()), id, claim, isNew)
      ensures states.Keys == old(states.Keys)
    {
      hide Consistent, RecordAssertion, Emit, StatusEvents, FlagEvents, StaleEvents;
      RecordClaim(id, claim);
      UpdateStatus(id, claim, isNew);
      UpdateFlag(id, claim, isNew);
      UpdateStale(id);
    }

    method Create(claim: LedgerClaim) returns (target: Option<string>)
      requires Valid() && (activeCount + |created| < t.maxActive ==> t.newId(|created|) !in states)
      modifies this
      ensures Valid() && (View(), target) == CreateClaim(env, t, activeCount, old(View()), claim)
      ensures old(states).Keys <= states.Keys && resolved == old(resolved) && (target.Some? ==> target.value in states)
      ensures target.None? ==> activeCount + |created| >= t.maxActive && created == old(created)
    {
      hide AssertInto;
      if activeCount + |created| >= t.maxActive {
        skipped := skipped + 1;
        return None;
      }
      var id := t.newId(|created|);
      CreationIsConsistent(View(), touched, id, t.at);
      states := states[id := Initial(id, t.at)];
      created := created + [id];
      AssertClaim(id, claim, true);
      return Some(id);
    }

    method OpenConflictCheck(id: string, isNew: bool)
      requires Valid() && id in states
      modifies this`events, this`states, this`touched
      ensures Valid() && View() == EmitOn(env, old(View()), id, st => ConflictEvents(t, st, isNew))
      ensures states.Keys == old(states.Keys)
    {
      assert states[id].id == id;
      hide Consistent, Derive, Stale, Fold, Apply;
      NothingEmitted(env, View());
      if !states[id].needsCheck && (isNew || states[id].reviewedAt.None?) {
        EmitEvent(id, CheckOpened("contradicted"), Model);
      }
    }

    method LinkClaims(a: string, b: string)
      requires Valid() && a in states && b in states
      modifies this`events, this`states, this`touched
      ensures Valid() && View() == Link(env, t, old(View()), a, b)
      ensures states.Keys == old(states.Keys)
    {
      hide Consistent, Settle, Fold, Apply, ConflictEvents;
      EmitEvent(a, ContradictedBy(b), Model);
      EmitEvent(b, ContradictedBy(a), Model);
      OpenConflictCheck(a, true);
      OpenConflictCheck(b, false);
      SettleClaim(a);
      SettleClaim(b);
    }

    method ResolveTo(target: Option<string>)
      requires Valid() && (target.Some? ==> target.value in states)
      modifies this`resolved
      ensures Valid() && View() == old(View()).(resolved := old(resolved) + [target])
    {
      StillTouchedAll(View(), View().(resolved := resolved + [target]));
      resolved := resolved + [target];
    }

    /** Where one incoming claim lands. */
    method Take(i: nat, ghost active: seq<Claim>)
      requires Valid() && i < |t.incoming| && activeCount == |active| && Admissible(active, t)
               && Sound(env, active, t, View())
      modifies this
      ensures Valid() && View() == Step(env, t, activeCount, old(View()), i)
    {
      hide Sound, Admissible, AssertInto, CreateClaim, Link, Consistent, Touched;
      CreationIdIsFresh(env, active, t, View());
      var claim, m := t.incoming[i], MatchAt(t, i);
      var target: Option<string> := None;
      if m.Same? {
        target := ResolveRef(View(), m.ref);
        ReferencesExist(View(), touched, m.ref);
        if target.Some? { AssertClaim(target.value, claim, false); }
      }
      if target.None? && m.Conflicting? {
        var other := ResolveRef(View(), m.ref);
        ReferencesExist(View(), touched, m.ref);
        target := Create(claim);
        if target.Some? && other.Some? && other != target { LinkClaims(target.value, other.value); }
      }
      if target.None? { target := Create(claim); }
      ResolveTo(target);
    }

    /** Created claims carry their final state and are not reported as touched. */
    method Finished() returns (r: TurnResult)
      requires Valid() && forall i | 0 <= i < |created| :: created[i] in states
      ensures r.events == events && r.wordings == wordings && r.skipped == skipped && r.resolved == resolved
      ensures |r.created| == |created| && forall i | 0 <= i < |created| :: r.created[i] == states[created[i]]
      ensures forall id :: id in r.touched <==> Touched(View(), id) && id !in created
      ensures forall id | id in r.touched :: id in states && r.touched[id] == states[id]
    {
      var final: seq<Claim> := [];
      for i := 0 to |created|
        invariant |final| == i && forall j | 0 <= j < i :: final[j] == states[created[j]]
      {
        final := final + [states[created[i]]];
      }
      r := TurnResult(final, events, wordings, map id | id in touched && id !in created :: touched[id],
                      skipped, resolved);
    }
  }

  /** Only a claim the cap refused is offered a second time, and it is refused again. */
  lemma CreationIdIsFresh(env: Env, active: seq<Claim>, t: Turn, p: Plan)
    requires Admissible(active, t) && Sound(env, active, t, p)
    ensures t.newId(|p.created|) !in p.states
  {
    hide Follows, Tidy;
  }

  lemma NothingEmitted(env: Env, p: Plan)
    ensures Emit(env, p, []) == p
  {
    assert p.events + [] == p.events;
    assert Emit(env, p, []).states == p.states;
  }

  lemma PlanHoldsItsCreated(env: Env, active: seq<Claim>, t: Turn, p: Plan)
    requires Sound(env, active, t, p)
    ensures forall i | 0 <= i < |p.created| :: p.created[i] in p.states
  {
    hide Follows, Tidy;
    forall i | 0 <= i < |p.created| ensures p.created[i] in p.states { assert p.created[i] in p.created; }
  }

  /** One answer's ledger block turned into events, new wordings and the new states of the claims it touches. */
  method PlanAnswer(env: Env, active: seq<Claim>, t: Turn) returns (r: TurnResult)
    requires Admissible(active, t)
    ensures var p := PlanTurn(env, active, t);
            && r.events == p.events && r.wordings == p.wordings && r.skipped == p.skipped && r.resolved == p.resolved
            && |r.created| == |p.created|
            && (forall i | 0 <= i < |p.created| :: p.created[i] in p.states && r.created[i] == p.states[p.created[i]])
            && (forall id :: id in r.touched <==> Touched(p, id) && id !in p.created)
            && (forall id | id in r.touched :: id in p.states && r.touched[id] == p.states[id])
  {
    hide Consistent, Sound, Admissible, Step, StartPlan, Touched;
    var planner := new Planner(env, active, t);
    for i := 0 to |t.incoming|
      invariant planner.env == env && planner.t == t && planner.activeCount == |active|
      invariant planner.Valid() && planner.View() == PlanPrefix(env, active, t, i)
    {
      PrefixIsSound(env, active, t, i);
      planner.Take(i, active);
    }
    PrefixIsSound(env, active, t, |t.incoming|);
    PlanHoldsItsCreated(env, active, t, planner.View());
    r := planner.Finished();
  }
}
