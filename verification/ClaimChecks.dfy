/** What a turn makes of each claim's status and check: the last claim that landed on it decides, and its sources. */
module ClaimChecks {
  import opened Prelude
  import opened ClaimEvidence
  import opened ClaimEvents
  import opened ClaimPlanner
  import opened ClaimLaws
  import opened ClaimTurns
  import opened ClaimMatcher
  import opened ClaimLandings
  import opened ClaimOutcomes

  // ---- one assertion

  lemma OneEvent(env: Env, st: Claim, e: Event)
    ensures Fold(env, st, [e]) == Apply(env, st, e) && Fold(env, st, []) == st
  {
    hide Apply;
    FoldOne(env, st, e);
  }

  lemma AssertedState(env: Env, t: Turn, st: Claim, claim: LedgerClaim)
    ensures var st' := Fold(env, st, [Assertion(env, t, st.id, claim)]);
            && st'.id == st.id && st'.suggested == claim.status && st'.reviewedAt == st.reviewedAt
            && st'.needsCheck == st.needsCheck && st'.checkReason == st.checkReason
            && st'.status == if st.claim == "" then claim.status else st.status
  {
    hide Merge, Summarize, MergeCitations, Resolve, Fold;
    OneEvent(env, st, Assertion(env, t, st.id, claim));
  }

  /** The fields that a status event leaves alone. */
  ghost predicate SameButStatus(st: Claim, st': Claim) {
    st' == st.(status := st'.status, updatedAt := st'.updatedAt, lastUpdated := st'.lastUpdated)
  }

  lemma SettleState(env: Env, t: Turn, st: Claim)
    ensures var st' := Fold(env, st, SettleEvents(t, st));
            SameButStatus(st, st') && (t.sources.None? ==> st' == st)
  {
    hide Derive, ApplyAssertion, Fold;
    var es := SettleEvents(t, st);
    if es != [] {
      OneEvent(env, st, es[0]);
      assert es == [es[0]];
    } else {
      OneEvent(env, st, TurnEvent(t, st.id, Withdrawn, Model));
    }
  }

  lemma StatusState(env: Env, t: Turn, st: Claim, claim: LedgerClaim, isNew: bool)
    ensures var st' := Fold(env, st, StatusEvents(t, st, claim, isNew));
            && SameButStatus(st, st')
            && (t.sources.None? && st.reviewedAt.None? && !isNew ==> st'.status == claim.status)
            && (t.sources.None? && isNew ==> st'.status == st.status)
  {
    hide SettleEvents, ApplyAssertion, Fold;
    if t.sources.Some? { SettleState(env, t, st); } else { GivenStatus(env, t, st, claim, isNew); }
  }

  lemma GivenStatus(env: Env, t: Turn, st: Claim, claim: LedgerClaim, isNew: bool)
    requires t.sources.None?
    ensures var st' := Fold(env, st, StatusEvents(t, st, claim, isNew));
            SameButStatus(st, st') && st'.status == if isNew || st.reviewedAt.Some? then st.status else claim.status
  {
    hide SettleEvents, ApplyAssertion, Fold;
    var es := StatusEvents(t, st, claim, isNew);
    if es != [] {
      OneEvent(env, st, es[0]);
      assert es == [es[0]];
    } else {
      OneEvent(env, st, TurnEvent(t, st.id, Withdrawn, Model));
    }
  }

  /** The fields that a check event leaves alone. */
  ghost predicate SameButCheck(st: Claim, st': Claim) {
    st' == st.(needsCheck := st'.needsCheck, checkReason := st'.checkReason, updatedAt := st'.updatedAt,
               lastUpdated := st'.lastUpdated)
  }

  /** At most one check event of the claim. */
  lemma CheckState(env: Env, st: Claim, es: seq<Event>)
    requires |es| <= 1
    requires es != [] ==> es[0].claimId == st.id && es[0].actor != Person
                          && (es[0].kind.CheckOpened? || es[0].kind.CheckClosed?)
    ensures var st' := Fold(env, st, es);
            && SameButCheck(st, st')
            && (es == [] ==> st' == st)
            && (es != [] && es[0].kind.CheckOpened? ==>
                  st'.needsCheck && st'.checkReason == Some(Or(es[0].kind.reason, ActorName(es[0].actor))))
            && (es != [] && es[0].kind.CheckClosed? ==> !st'.needsCheck && st'.checkReason == None)
  {
    hide ApplyAssertion, Fold, Or, ActorName;
    if es != [] {
      OneEvent(env, st, es[0]);
      assert es == [es[0]];
    } else {
      OneEvent(env, st, Event("", Withdrawn, Model, "", None, 0));
    }
  }

  /** One rule's events about one claim: it is folded over them, and the others stay. */
  lemma EmitOnState(env: Env, p: Plan, id: string, rule: Claim -> seq<Event>, j: string)
    requires id in p.states && j in p.states && p.states[j].id == j
    requires forall e | e in rule(p.states[id]) :: e.claimId == id
    ensures var p' := EmitOn(env, p, id, rule);
            && p'.states.Keys == p.states.Keys
            && p'.states[j] == if j == id then Fold(env, p.states[id], rule(p.states[id])) else p.states[j]
  {
    if j != id { FoldIgnoresOthers(env, p.states[j], rule(p.states[id])); }
  }

  /** Status, suggestion and check of an asserted claim, from how it stood before. */
  ghost predicate AssertedOn(env: Env, t: Turn, before: Claim, after: Claim, claim: LedgerClaim, isNew: bool) {
    var stale := t.sources.Some? && Stale(env, after.evidence, after.date, t.at);
    && after.id == before.id && after.reviewedAt == before.reviewedAt && after.suggested == claim.status
    && (before.reviewedAt.Some? ==>
          after.needsCheck == before.needsCheck && after.checkReason == before.checkReason)
    && (before.reviewedAt.None? ==>
          // With pages the status follows the evidence; without, it is the one given.
          && (t.sources.None? && (isNew ==> before.claim == "") ==> after.status == claim.status)
          // Stale sources need a check, and that reason stands only for stale sources.
          && (stale ==> after.needsCheck)
          && (t.sources.Some? && after.needsCheck && after.checkReason == Some("stale") ==> stale)
          // The model's own flag goes with the claim that no longer raises it.
          && (!claim.needsCheck && !isNew ==> !(after.needsCheck && after.checkReason == Some("model")))
          // A flag opens a check, unless the one already open was for sources that no longer are stale.
          && (claim.needsCheck ==>
                after.needsCheck || (t.sources.Some? && !stale && before.needsCheck
                                     && before.checkReason == Some("stale")))
          // Checks opened for any other reason stay, and none comes from nothing.
          && (before.needsCheck && before.checkReason !in {Some("model"), Some("stale")} ==>
                after.needsCheck && after.checkReason == before.checkReason)
          && (after.needsCheck ==>
                || (claim.needsCheck && !before.needsCheck && after.checkReason == Some("model"))
                || (stale && after.checkReason == Some("stale"))
                || (before.needsCheck && after.checkReason == before.checkReason)))
  }

  lemma FlaggedAndStale(env: Env, t: Turn, before: Claim, st1: Claim, st2: Claim, claim: LedgerClaim, isNew: bool)
    requires before.reviewedAt == st1.reviewedAt && SameButStatus(st1, st2)
    requires st1.id == before.id && st1.suggested == claim.status && st1.needsCheck == before.needsCheck
             && st1.checkReason == before.checkReason
    requires before.reviewedAt.None? && t.sources.None? && (isNew ==> before.claim == "") ==> st2.status == claim.status
    ensures var st3 := Fold(env, st2, FlagEvents(t, st2, claim, isNew));
            AssertedOn(env, t, before, Fold(env, st3, StaleEvents(env, t, st3)), claim, isNew)
  {
    hide Stale, Fold;
    CheckState(env, st2, FlagEvents(t, st2, claim, isNew));
    var st3 := Fold(env, st2, FlagEvents(t, st2, claim, isNew));
    CheckState(env, st3, StaleEvents(env, t, st3));
  }

  /** The assertion itself, as the plan records it. */
  lemma RecordedState(env: Env, t: Turn, p: Plan, id: string, claim: LedgerClaim, j: string)
    requires id in p.states && p.states[id].id == id && j in p.states && p.states[j].id == j
    ensures var p' := RecordAssertion(env, t, p, id, claim);
            && p'.states.Keys == p.states.Keys
            && p'.states[j] == if j == id then Fold(env, p.states[id], [Assertion(env, t, id, claim)]) else p.states[j]
  {
    hide Fold, Assertion;
    AssertionIsOf(env, t, id, claim);
    if j != id { FoldIgnoresOthers(env, p.states[j], [Assertion(env, t, id, claim)]); }
  }

  /** One rule of the assertion, applied to the claim's current state. */
  lemma RuleState(env: Env, p: Plan, id: string, rule: Claim -> seq<Event>, j: string)
    requires id in p.states && p.states[id].id == id && j in p.states && p.states[j].id == j
    requires forall e | e in rule(p.states[id]) :: e.claimId == id
    ensures var p' := EmitOn(env, p, id, rule);
            && p'.states.Keys == p.states.Keys && p'.states[id].id == id
            && p'.states[id] == Fold(env, p.states[id], rule(p.states[id]))
            && (j != id ==> p'.states[j] == p.states[j])
  {
    hide Fold;
    EmitOnState(env, p, id, rule, j);
    EmitOnState(env, p, id, rule, id);
    FoldKeepsId(env, p.states[id], rule(p.states[id]));
  }

  lemma AssertionDecides(env: Env, t: Turn, p: Plan, id: string, claim: LedgerClaim, isNew: bool, j: string)
    requires id in p.states && p.states[id].id == id && j in p.states && p.states[j].id == j
    ensures var p' := AssertInto(env, t, p, id, claim, isNew);
            && p'.states.Keys == p.states.Keys
            && if j == id then AssertedOn(env, t, p.states[id], p'.states[id], claim, isNew)
               else p'.states[j] == p.states[j]
  {
    hide Fold, Assertion, StatusEvents, FlagEvents, StaleEvents, AssertedOn, EmitOn, RecordAssertion;
    var p0 := RecordAssertion(env, t, p, id, claim);
    RecordedState(env, t, p, id, claim, j);
    RecordedState(env, t, p, id, claim, id);
    var st1 := p0.states[id];
    AssertedState(env, t, p.states[id], claim);
    StatusState(env, t, st1, claim, isNew);
    RulesAreOwn(env, t, st1, claim, isNew);
    RuleState(env, p0, id, st => StatusEvents(t, st, claim, isNew), j);
    var p1 := EmitOn(env, p0, id, st => StatusEvents(t, st, claim, isNew));
    RulesAreOwn(env, t, p1.states[id], claim, isNew);
    RuleState(env, p1, id, st => FlagEvents(t, st, claim, isNew), j);
    var p2 := EmitOn(env, p1, id, st => FlagEvents(t, st, claim, isNew));
    RulesAreOwn(env, t, p2.states[id], claim, isNew);
    RuleState(env, p2, id, st => StaleEvents(env, t, st), j);
    hide SameButStatus;
    FlaggedAndStale(env, t, p.states[id], st1, p1.states[id], claim, isNew);
  }

  lemma AssertionIsOf(env: Env, t: Turn, id: string, claim: LedgerClaim)
    ensures Assertion(env, t, id, claim).claimId == id
  {
  }

  lemma StatusKeepsId(st: Claim, st': Claim)
    requires SameButStatus(st, st')
    ensures st'.id == st.id
  {
  }

  lemma RulesAreOwn(env: Env, t: Turn, st: Claim, claim: LedgerClaim, isNew: bool)
    ensures forall e | e in StatusEvents(t, st, claim, isNew) + FlagEvents(t, st, claim, isNew)
                            + StaleEvents(env, t, st) + ConflictEvents(t, st, isNew) + SettleEvents(t, st) ::
              e.claimId == st.id
    ensures forall e | e in StatusEvents(t, st, claim, isNew) :: e.claimId == st.id
    ensures forall e | e in FlagEvents(t, st, claim, isNew) :: e.claimId == st.id
    ensures forall e | e in StaleEvents(env, t, st) :: e.claimId == st.id
    ensures forall e | e in ConflictEvents(t, st, isNew) :: e.claimId == st.id
    ensures forall e | e in SettleEvents(t, st) :: e.claimId == st.id
  {
    hide Stale, Derive;
  }

  // ---- one link

  /** What a link may change of either claim: its conflicts, its status where that follows evidence, its check. */
  ghost predicate Rechecked(t: Turn, st: Claim, st': Claim) {
    && st'.id == st.id && st'.evidence == st.evidence && st'.date == st.date && st'.suggested == st.suggested
    && st'.reviewedAt == st.reviewedAt && (t.sources.None? ==> st'.status == st.status)
    && (st.needsCheck ==> st'.needsCheck && st'.checkReason == st.checkReason)
    && (!st.needsCheck && st'.needsCheck ==> st'.checkReason == Some("contradicted"))
  }

  lemma RecheckedOnce(t: Turn, a: Claim, b: Claim, c: Claim)
    requires Rechecked(t, a, b) && Rechecked(t, b, c)
    ensures Rechecked(t, a, c)
  {
  }

  /** The conflict itself changes nothing that is shown. */
  lemma ToldState(env: Env, t: Turn, st: Claim, e: Event)
    requires e.kind.ContradictedBy?
    ensures Rechecked(t, st, Fold(env, st, [e])) && Fold(env, st, [e]).needsCheck == st.needsCheck
  {
    hide ApplyAssertion;
    OneEvent(env, st, e);
  }

  lemma ConflictState(env: Env, t: Turn, st: Claim, isNew: bool)
    ensures var st' := Fold(env, st, ConflictEvents(t, st, isNew));
            Rechecked(t, st, st') && (isNew || st.reviewedAt.None? ==> st'.needsCheck)
  {
    hide Fold;
    CheckState(env, st, ConflictEvents(t, st, isNew));
  }

  lemma SettledState(env: Env, t: Turn, st: Claim)
    ensures var st' := Fold(env, st, SettleEvents(t, st)); Rechecked(t, st, st') && st'.needsCheck == st.needsCheck
  {
    hide Fold, SettleEvents;
    SettleState(env, t, st);
  }

  /** A rule about one of the claims changes no claim more than a link may. */
  lemma EmitOnRechecks(env: Env, t: Turn, p: Plan, id: string, rule: Claim -> seq<Event>, j: string)
    requires id in p.states && j in p.states && p.states[j].id == j && p.states[id].id == id
    requires forall e | e in rule(p.states[id]) :: e.claimId == id
    requires Rechecked(t, p.states[id], Fold(env, p.states[id], rule(p.states[id])))
    ensures var p' := EmitOn(env, p, id, rule);
            && p'.states.Keys == p.states.Keys && Rechecked(t, p.states[j], p'.states[j])
            && p'.states[j] == if j == id then Fold(env, p.states[id], rule(p.states[id])) else p.states[j]
  {
    hide Fold;
    EmitOnState(env, p, id, rule, j);
  }

  lemma TellRechecks(env: Env, t: Turn, p: Plan, e: Event, j: string)
    requires j in p.states && e.kind.ContradictedBy?
    ensures var p' := Emit(env, p, [e]);
            p'.states.Keys == p.states.Keys && Rechecked(t, p.states[j], p'.states[j])
  {
    hide Fold;
    ToldState(env, t, p.states[j], e);
  }

  lemma SettleRechecks(env: Env, t: Turn, p: Plan, id: string, j: string)
    requires id in p.states && j in p.states && p.states[j].id == j && p.states[id].id == id
    ensures var p' := Settle(env, t, p, id);
            && p'.states.Keys == p.states.Keys && Rechecked(t, p.states[j], p'.states[j])
            && p'.states[j].needsCheck == p.states[j].needsCheck
  {
    hide Fold, SettleEvents;
    RulesAreOwn(env, t, p.states[id], LedgerClaim("", Unverified, "", [], "", false, None), true);
    SettledState(env, t, p.states[id]);
    EmitOnRechecks(env, t, p, id, st => SettleEvents(t, st), j);
  }

  lemma ConflictRechecks(env: Env, t: Turn, p: Plan, id: string, isNew: bool, j: string)
    requires id in p.states && j in p.states && p.states[j].id == j && p.states[id].id == id
    ensures var p' := EmitOn(env, p, id, st => ConflictEvents(t, st, isNew));
            && p'.states.Keys == p.states.Keys && Rechecked(t, p.states[j], p'.states[j])
            && (j == id && (isNew || p.states[id].reviewedAt.None?) ==> p'.states[j].needsCheck)
  {
    hide Fold, ConflictEvents;
    RulesAreOwn(env, t, p.states[id], LedgerClaim("", Unverified, "", [], "", false, None), isNew);
    ConflictState(env, t, p.states[id], isNew);
    EmitOnRechecks(env, t, p, id, st => ConflictEvents(t, st, isNew), j);
  }

  /** A link opens a check on both claims, unless a person settled the older one, and moves nothing else shown. */
  lemma LinkDecides(env: Env, t: Turn, p: Plan, a: string, b: string, j: string)
    requires a in p.states && b in p.states && j in p.states
    requires p.states[a].id == a && p.states[b].id == b && p.states[j].id == j
    ensures var p' := Link(env, t, p, a, b);
            && p'.states.Keys == p.states.Keys && Rechecked(t, p.states[j], p'.states[j])
            && (j == a || (j == b && p.states[b].reviewedAt.None?) ==> p'.states[j].needsCheck)
  {
    hide Fold, ConflictEvents, SettleEvents, Rechecked, Emit, EmitOn, Settle;
    var ea, eb := TurnEvent(t, a, ContradictedBy(b), Model), TurnEvent(t, b, ContradictedBy(a), Model);
    var p1 := Emit(env, p, [ea]);
    var p2 := Emit(env, p1, [eb]);
    var p3 := EmitOn(env, p2, a, st => ConflictEvents(t, st, true));
    var p4 := EmitOn(env, p3, b, st => ConflictEvents(t, st, false));
    var p5 := Settle(env, t, p4, a);
    var p6 := Settle(env, t, p5, b);
    LinkPart(env, t, p, p1, p2, ea, eb, a);
    LinkPart(env, t, p, p1, p2, ea, eb, b);
    LinkPart(env, t, p, p1, p2, ea, eb, j);
    ChecksPart(env, t, p2, p3, p4, a, b, a);
    ChecksPart(env, t, p2, p3, p4, a, b, b);
    ChecksPart(env, t, p2, p3, p4, a, b, j);
    SettlePart(env, t, p4, p5, p6, a, b, j);
    RecheckedOnce(t, p.states[j], p2.states[j], p4.states[j]);
    RecheckedOnce(t, p.states[j], p4.states[j], p6.states[j]);
    RecheckedKeeps(t, p.states[b], p2.states[b]);
  }

  lemma RecheckedKeeps(t: Turn, st: Claim, st': Claim)
    requires Rechecked(t, st, st')
    ensures st'.id == st.id && st'.reviewedAt == st.reviewedAt && (st.needsCheck ==> st'.needsCheck)
  {
  }

  lemma LinkPart(env: Env, t: Turn, p: Plan, p1: Plan, p2: Plan, ea: Event, eb: Event, j: string)
    requires p1 == Emit(env, p, [ea]) && p2 == Emit(env, p1, [eb]) && j in p.states
    requires ea.kind.ContradictedBy? && eb.kind.ContradictedBy?
    ensures p2.states.Keys == p.states.Keys && Rechecked(t, p.states[j], p2.states[j])
            && p2.states[j].id == p.states[j].id
  {
    hide Fold, Rechecked, Emit;
    TellRechecks(env, t, p, ea, j);
    TellRechecks(env, t, p1, eb, j);
    RecheckedOnce(t, p.states[j], p1.states[j], p2.states[j]);
    RecheckedKeeps(t, p.states[j], p2.states[j]);
  }

  lemma ChecksPart(env: Env, t: Turn, p2: Plan, p3: Plan, p4: Plan, a: string, b: string, j: string)
    requires p3 == EmitOn(env, p2, a, st => ConflictEvents(t, st, true))
             && p4 == EmitOn(env, p3, b, st => ConflictEvents(t, st, false))
    requires a in p2.states && b in p2.states && j in p2.states
    requires p2.states[a].id == a && p2.states[b].id == b && p2.states[j].id == j
    ensures p4.states.Keys == p2.states.Keys && Rechecked(t, p2.states[j], p4.states[j]) && p4.states[j].id == j
            && (j == a || (j == b && p2.states[b].reviewedAt.None?) ==> p4.states[j].needsCheck)
  {
    hide Fold, ConflictEvents, Rechecked, EmitOn;
    ConflictRechecks(env, t, p2, a, true, j);
    ConflictRechecks(env, t, p2, a, true, b);
    RecheckedKeeps(t, p2.states[j], p3.states[j]);
    RecheckedKeeps(t, p2.states[b], p3.states[b]);
    ConflictRechecks(env, t, p3, b, false, j);
    RecheckedKeeps(t, p3.states[j], p4.states[j]);
    RecheckedOnce(t, p2.states[j], p3.states[j], p4.states[j]);
  }

  lemma SettlePart(env: Env, t: Turn, p4: Plan, p5: Plan, p6: Plan, a: string, b: string, j: string)
    requires p5 == Settle(env, t, p4, a) && p6 == Settle(env, t, p5, b)
    requires a in p4.states && b in p4.states && j in p4.states
    requires p4.states[a].id == a && p4.states[b].id == b && p4.states[j].id == j
    ensures p6.states.Keys == p4.states.Keys && Rechecked(t, p4.states[j], p6.states[j])
            && p6.states[j].needsCheck == p4.states[j].needsCheck
  {
    hide Fold, SettleEvents, Rechecked, Settle;
    SettleRechecks(env, t, p4, a, j);
    SettleRechecks(env, t, p4, a, b);
    RecheckedKeeps(t, p4.states[j], p5.states[j]);
    RecheckedKeeps(t, p4.states[b], p5.states[b]);
    SettleRechecks(env, t, p5, b, j);
    RecheckedOnce(t, p4.states[j], p5.states[j], p6.states[j]);
  }

  // ---- a whole turn

  /** The last claim of the turn so far that landed on the given one. */
  function LastLanded(t: Turn, resolved: seq<Option<string>>, id: string): Option<LedgerClaim>
    requires |resolved| <= |t.incoming|
  {
    if resolved == [] then None
    else if resolved[|resolved| - 1] == Some(id) then Some(t.incoming[|resolved| - 1])
    else LastLanded(t, resolved[..|resolved| - 1], id)
  }

  /** An unreviewed claim that some claim landed on shows what the last of them and the sources say. */
  ghost predicate ShowsLast(env: Env, t: Turn, st: Claim, last: Option<LedgerClaim>) {
    last.Some? ==>
      && st.suggested == last.value.status
      && (st.reviewedAt.None? ==>
            && (t.sources.None? ==> st.status == last.value.status)
            && (!last.value.needsCheck ==> !(st.needsCheck && st.checkReason == Some("model")))
            && (t.sources.Some? ==>
                  && (Stale(env, st.evidence, st.date, t.at) ==> st.needsCheck)
                  && (st.needsCheck && st.checkReason == Some("stale") ==>
                        Stale(env, st.evidence, st.date, t.at))))
  }

  lemma AssertedShows(env: Env, t: Turn, before: Claim, after: Claim, claim: LedgerClaim, isNew: bool)
    requires AssertedOn(env, t, before, after, claim, isNew) && (isNew ==> before.claim == "" && !before.needsCheck)
    ensures ShowsLast(env, t, after, Some(claim))
  {
    hide Stale;
  }

  lemma RecheckedShows(env: Env, t: Turn, st: Claim, st': Claim, last: Option<LedgerClaim>)
    requires ShowsLast(env, t, st, last) && Rechecked(t, st, st')
    ensures ShowsLast(env, t, st', last)
  {
    hide Stale;
  }

  /** Every claim is known by its id and shows the last claim that landed on it. */
  ghost predicate AllShow(env: Env, t: Turn, states: map<string, Claim>, resolved: seq<Option<string>>) {
    |resolved| <= |t.incoming| && forall j | j in states ::
      states[j].id == j && ShowsLast(env, t, states[j], LastLanded(t, resolved, j))
  }

  lemma LandedNext(t: Turn, resolved: seq<Option<string>>, target: Option<string>, id: string)
    requires |resolved| < |t.incoming|
    ensures LastLanded(t, resolved + [target], id)
         == if target == Some(id) then Some(t.incoming[|resolved|]) else LastLanded(t, resolved, id)
  {
    assert (resolved + [target])[..|resolved|] == resolved;
  }

  /** A claim asserted into one that all but perhaps a new one show. */
  lemma AssertIntoShows(env: Env, t: Turn, p: Plan, id: string, isNew: bool)
    requires |p.resolved| < |t.incoming| && id in p.states && p.states[id].id == id
    requires forall j | j in p.states && j != id ::
               p.states[j].id == j && ShowsLast(env, t, p.states[j], LastLanded(t, p.resolved, j))
    requires isNew ==> p.states[id].claim == "" && !p.states[id].needsCheck
    ensures AllShow(env, t, AssertInto(env, t, p, id, t.incoming[|p.resolved|], isNew).states, p.resolved + [Some(id)])
  {
    hide AssertInto, AssertedOn, ShowsLast, LastLanded;
    var claim := t.incoming[|p.resolved|];
    var p1 := AssertInto(env, t, p, id, claim, isNew);
    AssertionDecides(env, t, p, id, claim, isNew, id);
    forall j | j in p1.states
      ensures p1.states[j].id == j && ShowsLast(env, t, p1.states[j], LastLanded(t, p.resolved + [Some(id)], j))
    {
      AssertionDecides(env, t, p, id, claim, isNew, j);
      LandedNext(t, p.resolved, Some(id), j);
      if j == id {
        AssertedShows(env, t, p.states[id], p1.states[id], claim, isNew);
        AssertedKeepsId(env, t, p.states[id], p1.states[id], claim, isNew);
      }
    }
  }

  lemma AssertedKeepsId(env: Env, t: Turn, before: Claim, after: Claim, claim: LedgerClaim, isNew: bool)
    requires AssertedOn(env, t, before, after, claim, isNew)
    ensures after.id == before.id
  {
  }

  lemma NothingLandsShows(env: Env, t: Turn, states: map<string, Claim>, resolved: seq<Option<string>>)
    requires AllShow(env, t, states, resolved) && |resolved| < |t.incoming|
    ensures AllShow(env, t, states, resolved + [None])
  {
    hide ShowsLast, LastLanded;
    forall j | j in states ensures ShowsLast(env, t, states[j], LastLanded(t, resolved + [None], j)) {
      LandedNext(t, resolved, None, j);
    }
  }

  lemma CreatedOrFull(env: Env, t: Turn, activeCount: nat, p: Plan, claim: LedgerClaim)
    ensures var (p', target) := CreateClaim(env, t, activeCount, p, claim);
            if activeCount + |p.created| >= t.maxActive then p' == p.(skipped := p.skipped + 1) && target == None
            else
              var id := t.newId(|p.created|);
              var p0 := p.(states := p.states[id := Initial(id, t.at)], created := p.created + [id]);
              target == Some(id) && p' == AssertInto(env, t, p0, id, claim, true)
  {
    hide AssertInto;
  }

  /** A created claim, before any link. */
  lemma CreatedShows(env: Env, t: Turn, activeCount: nat, p: Plan)
    requires AllShow(env, t, p.states, p.resolved) && |p.resolved| < |t.incoming|
    ensures var (p1, target) := CreateClaim(env, t, activeCount, p, t.incoming[|p.resolved|]);
            AllShow(env, t, p1.states, p.resolved + [target])
  {
    hide CreateClaim, AssertInto, ShowsLast, LastLanded;
    var claim := t.incoming[|p.resolved|];
    CreatedOrFull(env, t, activeCount, p, claim);
    var (p1, target) := CreateClaim(env, t, activeCount, p, claim);
    if target.Some? {
      var id := target.value;
      var p0 := p.(states := p.states[id := Initial(id, t.at)], created := p.created + [id]);
      AssertIntoShows(env, t, p0, id, true);
    } else {
      NothingLandsShows(env, t, p.states, p.resolved);
    }
  }

  lemma LinkedShows(env: Env, t: Turn, p: Plan, resolved: seq<Option<string>>, a: string, b: string)
    requires AllShow(env, t, p.states, resolved) && a in p.states && b in p.states
    ensures AllShow(env, t, Link(env, t, p, a, b).states, resolved)
  {
    hide Link, Rechecked, ShowsLast, LastLanded;
    var p' := Link(env, t, p, a, b);
    LinkDecides(env, t, p, a, b, a);
    forall j | j in p'.states
      ensures p'.states[j].id == j && ShowsLast(env, t, p'.states[j], LastLanded(t, resolved, j))
    {
      LinkDecides(env, t, p, a, b, j);
      RecheckedShows(env, t, p.states[j], p'.states[j], LastLanded(t, resolved, j));
      RecheckedKeeps(t, p.states[j], p'.states[j]);
    }
  }

  /** A step whose claim restates none: it is created and perhaps linked, or there is no room for it. */
  lemma CreatingStepIs(env: Env, t: Turn, activeCount: nat, p: Plan)
    requires |p.resolved| < |t.incoming|
    requires var m := MatchAt(t, |p.resolved|);
             m.Same? ==> ResolveRef(p, m.ref).None? || ResolveRef(p, m.ref).value !in p.states
    ensures var p', m := Step(env, t, activeCount, p, |p.resolved|), MatchAt(t, |p.resolved|);
            var (p1, target) := CreateClaim(env, t, activeCount, p, t.incoming[|p.resolved|]);
            var other := if m.Conflicting? then ResolveRef(p, m.ref) else None;
            if target.None? then p'.states == p.states && p'.resolved == p.resolved + [None]
            else if other.Some? && other != target
              then p' == (var p2 := Link(env, t, p1, target.value, other.value);
                          p2.(resolved := p2.resolved + [target]))
            else p' == p1.(resolved := p1.resolved + [target])
  {
    hide AssertInto, CreateClaim, Link, ResolveRef;
    var claim := t.incoming[|p.resolved|];
    CreatedOrFull(env, t, activeCount, p, claim);
    CreatedOrFull(env, t, activeCount, CreateClaim(env, t, activeCount, p, claim).0, claim);
  }

  lemma StepShows(env: Env, active: seq<Claim>, t: Turn, p: Plan)
    requires PlanOk(env, active, t, p) && AllShow(env, t, p.states, p.resolved) && |p.resolved| < |t.incoming|
    ensures var p' := Step(env, t, |active|, p, |p.resolved|); AllShow(env, t, p'.states, p'.resolved)
  {
    var claim, m := t.incoming[|p.resolved|], MatchAt(t, |p.resolved|);
    if !m.New? { ReferenceResolves(env, active, t, p, m.ref); }
    var same := if m.Same? then ResolveRef(p, m.ref) else None;
    hide PlanOk, AssertInto, CreateClaim, Link, ResolveRef, AllShow;
    if same.Some? {
      RestatedShows(env, t, p, same.value);
      AssertRecords(env, t, p, same.value, claim, false);
    } else {
      CreatingStepShows(env, active, t, p);
    }
  }

  lemma CreatingStepShows(env: Env, active: seq<Claim>, t: Turn, p: Plan)
    requires PlanOk(env, active, t, p) && AllShow(env, t, p.states, p.resolved) && |p.resolved| < |t.incoming|
    requires var m := MatchAt(t, |p.resolved|);
             m.Same? ==> ResolveRef(p, m.ref).None? || ResolveRef(p, m.ref).value !in p.states
    ensures var p' := Step(env, t, |active|, p, |p.resolved|); AllShow(env, t, p'.states, p'.resolved)
  {
    var claim, m := t.incoming[|p.resolved|], MatchAt(t, |p.resolved|);
    if m.Conflicting? { ReferenceResolves(env, active, t, p, m.ref); }
    hide PlanOk, AssertInto, CreateClaim, Link, ResolveRef, AllShow;
    var other := if m.Conflicting? then ResolveRef(p, m.ref) else None;
    CreatingStepIs(env, t, |active|, p);
    hide Step;
    CreatedShows(env, t, |active|, p);
    CreateRecords(env, t, |active|, p, claim);
    CreatedIsKnown(env, t, |active|, p, claim);
    var (p1, target) := CreateClaim(env, t, |active|, p, claim);
    if target.None? {
      NothingLandsShows(env, t, p.states, p.resolved);
    } else if other.Some? && other != target {
      LinkedShows(env, t, p1, p.resolved + [target], target.value, other.value);
      LinkRecords(env, t, p1, target.value, other.value);
    }
  }

  lemma RestatedShows(env: Env, t: Turn, p: Plan, id: string)
    requires AllShow(env, t, p.states, p.resolved) && |p.resolved| < |t.incoming| && id in p.states
    ensures AllShow(env, t, AssertInto(env, t, p, id, t.incoming[|p.resolved|], false).states, p.resolved + [Some(id)])
  {
    hide AssertInto, ShowsLast, LastLanded;
    AssertIntoShows(env, t, p, id, false);
  }

  lemma ShownByIds(env: Env, t: Turn, states: map<string, Claim>, resolved: seq<Option<string>>)
    requires AllShow(env, t, states, resolved)
    ensures forall j | j in states :: states[j].id == j
  {
  }

  lemma CreatedIsKnown(env: Env, t: Turn, activeCount: nat, p: Plan, claim: LedgerClaim)
    ensures var (p1, target) := CreateClaim(env, t, activeCount, p, claim);
            target.Some? ==> target.value in p1.states
  {
    hide CreateClaim, AssertInto;
    CreatedOrFull(env, t, activeCount, p, claim);
    var (p1, target) := CreateClaim(env, t, activeCount, p, claim);
    if target.Some? {
      var id := target.value;
      AssertRecords(env, t, p.(states := p.states[id := Initial(id, t.at)], created := p.created + [id]), id, claim,
                    true);
    }
  }

  lemma StartShows(env: Env, active: seq<Claim>, t: Turn)
    ensures AllShow(env, t, StartPlan(active).states, [])
  {
    forall j | j in ById(active) ensures ById(active)[j].id == j { ByIdFinds(active, j); }
  }

  lemma {:induction false} PrefixShows(env: Env, active: seq<Claim>, t: Turn, n: nat)
    requires Admissible(active, t) && n <= |t.incoming|
    ensures var p := PlanPrefix(env, active, t, n); |p.resolved| == n && AllShow(env, t, p.states, p.resolved)
  {
    hide Admissible, Step, Sound, PlanOk, AllShow;
    PrefixRecords(env, active, t, 0, n);
    if n == 0 {
      StartShows(env, active, t);
      assert StartPlan(active).resolved == [];
    } else {
      PrefixShows(env, active, t, n - 1);
      PrefixIsSound(env, active, t, n - 1);
      SoundFacts(env, active, t, PlanPrefix(env, active, t, n - 1));
      assert AllShow(env, t, PlanPrefix(env, active, t, n - 1).states, PlanPrefix(env, active, t, n - 1).resolved);
      StepShows(env, active, t, PlanPrefix(env, active, t, n - 1));
    }
  }

  /**
   * After any turn a claim that nobody reviewed, and on which some claim of the turn landed, shows the suggestion of
   * the last of them, and without pages its status; the model's flag is withdrawn unless that one raises it; and with
   * pages a check is open if its sources are stale, and open for that reason only if they are.
   */
  lemma TheLastLandedDecides(env: Env, active: seq<Claim>, t: Turn, id: string)
    requires Admissible(active, t) && id in PlanTurn(env, active, t).states
    ensures var p := PlanTurn(env, active, t);
            |p.resolved| == |t.incoming| && ShowsLast(env, t, p.states[id], LastLanded(t, p.resolved, id))
  {
    hide Admissible, PlanPrefix, ShowsLast;
    PrefixShows(env, active, t, |t.incoming|);
  }

  lemma LinkingStep(env: Env, active: seq<Claim>, t: Turn, p: Plan, a: string, b: string)
    requires PlanOk(env, active, t, p) && AllShow(env, t, p.states, p.resolved) && |p.resolved| < |t.incoming|
    requires MatchAt(t, |p.resolved|).Conflicting? && ResolveRef(p, MatchAt(t, |p.resolved|).ref) == Some(b) && a != b
    requires var p' := Step(env, t, |active|, p, |p.resolved|);
             p'.resolved != [] && p'.resolved[|p'.resolved| - 1] == Some(a)
    ensures var p' := Step(env, t, |active|, p, |p.resolved|);
            && a in p'.states && b in p'.states && p'.states[a].needsCheck
            && (p'.states[b].reviewedAt.None? ==> p'.states[b].needsCheck)
  {
    var claim := t.incoming[|p.resolved|];
    ReferenceResolves(env, active, t, p, MatchAt(t, |p.resolved|).ref);
    hide PlanOk, CreateClaim, Link, ResolveRef, AllShow;
    CreatingStepIs(env, t, |active|, p);
    hide Step;
    CreatedShows(env, t, |active|, p);
    CreateRecords(env, t, |active|, p, claim);
    CreatedIsKnown(env, t, |active|, p, claim);
    var (p1, target) := CreateClaim(env, t, |active|, p, claim);
    if target.Some? {
      ShownByIds(env, t, p1.states, p.resolved + [target]);
      LinkRecords(env, t, p1, target.value, b);
      if target.value != b {
        LinkDecides(env, t, p1, target.value, b, target.value);
        LinkDecides(env, t, p1, target.value, b, b);
      }
    }
  }

  /** A claim created in contradiction of another needs a check at once, and so does the other unless reviewed. */
  lemma ContradictionOpensChecks(env: Env, active: seq<Claim>, t: Turn, i: nat, a: string, b: string)
    requires Admissible(active, t) && i < |t.incoming|
    requires CreatedAgainst(active, t, PlanTurn(env, active, t).resolved, i, a, b)
    ensures var p := PlanPrefix(env, active, t, i + 1);
            && a in p.states && b in p.states && p.states[a].needsCheck
            && (p.states[b].reviewedAt.None? ==> p.states[b].needsCheck)
  {
    hide Admissible, Step, Sound, PlanOk, AllShow, Booked, PlanPrefix, Named;
    var p, p', last := PlanPrefix(env, active, t, i), PlanPrefix(env, active, t, i + 1), PlanTurn(env, active, t);
    assert p' == Step(env, t, |active|, p, i) by { PrefixStep(env, active, t, i); }
    PrefixRecords(env, active, t, i, |t.incoming|);
    PrefixRecords(env, active, t, i + 1, |t.incoming|);
    PrefixShows(env, active, t, i);
    PrefixIsSound(env, active, t, i);
    SoundFacts(env, active, t, p);
    PrefixIsBooked(env, active, t, i);
    assert last.resolved[..i] == p.resolved;
    BookedNames(env, active, t, p, MatchAt(t, i).ref);
    LinkingStep(env, active, t, p, a, b);
  }

  lemma PrefixStep(env: Env, active: seq<Claim>, t: Turn, i: nat)
    requires i < |t.incoming|
    ensures PlanPrefix(env, active, t, i + 1) == Step(env, t, |active|, PlanPrefix(env, active, t, i), i)
  {
    hide Step;
  }

  lemma BookedNames(env: Env, active: seq<Claim>, t: Turn, p: Plan, ref: Ref)
    requires PlanOk(env, active, t, p) && Booked(env, active, t, p)
    ensures ResolveRef(p, ref) == Named(active, p.resolved, ref)
  {
    hide PlanOk, Named, ResolveRef, AllLand, AllReported, LinksOf;
    NamedResolves(env, active, t, p, ref);
  }

  /**
   * A fresh source can hide a flag: a claim with a check open for stale sources, asserted again with the model's flag
   * and a source that is not stale, ends without a check.
   */
  lemma FreshSourceHidesAFlag(env: Env, t: Turn, p: Plan, id: string, claim: LedgerClaim)
    requires id in p.states && p.states[id].id == id && p.states[id].reviewedAt.None? && t.sources.Some?
    requires p.states[id].needsCheck && p.states[id].checkReason == Some("stale") && claim.needsCheck
    ensures var st := AssertInto(env, t, p, id, claim, false).states[id];
            !Stale(env, st.evidence, st.date, t.at) ==> !st.needsCheck
  {
    hide AssertInto, Stale;
    AssertionDecides(env, t, p, id, claim, false, id);
  }

  /**
   * And a flag can hide a conflict: while the model's own flag is open a conflict opens no check of its own, so the
   * next claim that lands without the flag leaves the conflict unchecked, although only stale sources could keep one.
   */
  lemma AnEarlierFlagHidesAConflict(env: Env, active: seq<Claim>, t: Turn, p: Plan, a: string, b: string,
                                    claim: LedgerClaim)
    requires PlanOk(env, active, t, p) && a in p.states && b in p.states && a != b && a != "" && b != ""
    requires p.states[a].reviewedAt.None? && p.states[b].reviewedAt.None? && claim.claim != "" && !claim.needsCheck
    requires p.states[b].needsCheck && p.states[b].checkReason == Some("model")
    ensures var linked := Link(env, t, p, a, b);
            && b in linked.states
            && (var st := AssertInto(env, t, linked, b, claim, false).states[b];
                a in st.contradicts
                && (st.needsCheck <==> t.sources.Some? && Stale(env, st.evidence, st.date, t.at)))
  {
    var linked := Link(env, t, p, a, b);
    FlagStaysOpen(env, active, t, p, a, b);
    hide PlanOk, Link, AssertInto, Stale, Settled, Touched, AssertedIn;
    AssertIntoKeepsPlan(env, active, t, linked, b, claim, false);
    AssertionDecides(env, t, linked, b, claim, false, b);
  }

  /** A link leaves the model's open flag as the only check. */
  lemma FlagStaysOpen(env: Env, active: seq<Claim>, t: Turn, p: Plan, a: string, b: string)
    requires PlanOk(env, active, t, p) && a in p.states && b in p.states && a != b && a != "" && b != ""
    requires p.states[a].reviewedAt.None? && p.states[b].reviewedAt.None?
    requires p.states[b].needsCheck && p.states[b].checkReason == Some("model")
    ensures var linked := Link(env, t, p, a, b);
            && PlanOk(env, active, t, linked) && b in linked.states && linked.states[b].id == b
            && a in linked.states[b].contradicts && linked.states[b].reviewedAt.None?
            && linked.states[b].needsCheck && linked.states[b].checkReason == Some("model")
  {
    PlanFacts(env, active, t, p, a);
    PlanFacts(env, active, t, p, b);
    LinkKeepsPlan(env, active, t, p, a, b);
    hide PlanOk, Link, Settled, Touched;
    LinkDecides(env, t, p, a, b, b);
  }
}
