/** Where each claim of a turn lands, and what the turn's log then asserts and links: exactly that, in order. */
module ClaimLandings {
  import opened Prelude
  import opened ClaimEvidence
  import opened ClaimEvents
  import opened ClaimPlanner
  import opened ClaimLaws
  import opened ClaimTurns
  import opened ClaimMatcher
  import opened ClaimSources

  // ---- parts of a log

  function Only(events: seq<Event>, p: Event -> bool): seq<Event> {
    if events == [] then [] else
      var last := events[|events| - 1];
      Only(events[..|events| - 1], p) + (if p(last) then [last] else [])
  }

  predicate IsAssertion(e: Event) { e.kind.AssertedAs? }

  predicate IsContradiction(e: Event) { e.kind.ContradictedBy? }

  lemma {:induction false} OnlyConcat(a: seq<Event>, b: seq<Event>, p: Event -> bool)
    ensures Only(a + b, p) == Only(a, p) + Only(b, p)
  {
    if b == [] {
      assert a + b == a;
    } else {
      assert (a + b)[..|a + b| - 1] == a + b[..|b| - 1];
      OnlyConcat(a, b[..|b| - 1], p);
    }
  }

  lemma {:induction false} OnlyNone(events: seq<Event>, p: Event -> bool)
    requires forall e | e in events :: !p(e)
    ensures Only(events, p) == []
  {
    if events != [] { OnlyNone(events[..|events| - 1], p); }
  }

  lemma {:induction false} OnlyHas(events: seq<Event>, p: Event -> bool, e: Event)
    ensures e in Only(events, p) <==> e in events && p(e)
  {
    if events != [] {
      OnlyHas(events[..|events| - 1], p, e);
      assert events == events[..|events| - 1] + [events[|events| - 1]];
    }
  }

  lemma OnlySnoc(events: seq<Event>, e: Event, p: Event -> bool)
    ensures Only(events + [e], p) == Only(events, p) + (if p(e) then [e] else [])
  {
    assert (events + [e])[..|events|] == events;
  }

  // ---- what each part of a step logs

  /** The plans' logs hold the same assertions and the same contradictions. */
  ghost predicate SaysNothing(p: Plan, p': Plan) {
    Only(p'.events, IsAssertion) == Only(p.events, IsAssertion)
    && Only(p'.events, IsContradiction) == Only(p.events, IsContradiction)
  }

  ghost predicate Silent(rule: Claim -> seq<Event>) {
    forall st, e | e in rule(st) :: !IsAssertion(e) && !IsContradiction(e)
  }

  lemma EmitOnSays(env: Env, p: Plan, id: string, rule: Claim -> seq<Event>)
    requires Silent(rule)
    ensures SaysNothing(p, EmitOn(env, p, id, rule))
  {
    hide Fold;
    if id in p.states {
      var es := rule(p.states[id]);
      OnlyConcat(p.events, es, IsAssertion);
      OnlyConcat(p.events, es, IsContradiction);
      OnlyNone(es, IsAssertion);
      OnlyNone(es, IsContradiction);
    }
  }

  lemma RulesAreSilent(env: Env, t: Turn, claim: LedgerClaim, isNew: bool)
    ensures Silent(st => StatusEvents(t, st, claim, isNew)) && Silent(st => FlagEvents(t, st, claim, isNew))
    ensures Silent(st => StaleEvents(env, t, st)) && Silent(st => ConflictEvents(t, st, isNew))
    ensures Silent(st => SettleEvents(t, st))
  {
    hide Derive, Stale;
  }

  lemma RecordSays(env: Env, t: Turn, p: Plan, id: string, claim: LedgerClaim)
    requires id in p.states
    ensures var p', e := RecordAssertion(env, t, p, id, claim), Assertion(env, t, id, claim);
            && Only(p'.events, IsAssertion) == Only(p.events, IsAssertion) + [e]
            && Only(p'.events, IsContradiction) == Only(p.events, IsContradiction)
  {
    hide Fold;
    OnlySnoc(p.events, Assertion(env, t, id, claim), IsAssertion);
    OnlySnoc(p.events, Assertion(env, t, id, claim), IsContradiction);
  }

  lemma AssertSays(env: Env, t: Turn, p: Plan, id: string, claim: LedgerClaim, isNew: bool)
    requires id in p.states
    ensures var p', e := AssertInto(env, t, p, id, claim, isNew), Assertion(env, t, id, claim);
            && Only(p'.events, IsAssertion) == Only(p.events, IsAssertion) + [e]
            && Only(p'.events, IsContradiction) == Only(p.events, IsContradiction)
  {
    hide EmitOn, RecordAssertion, Only, Silent, Assertion;
    RulesAreSilent(env, t, claim, isNew);
    RecordSays(env, t, p, id, claim);
    var p0 := RecordAssertion(env, t, p, id, claim);
    var p1 := EmitOn(env, p0, id, st => StatusEvents(t, st, claim, isNew));
    var p2 := EmitOn(env, p1, id, st => FlagEvents(t, st, claim, isNew));
    EmitOnSays(env, p0, id, st => StatusEvents(t, st, claim, isNew));
    EmitOnSays(env, p1, id, st => FlagEvents(t, st, claim, isNew));
    EmitOnSays(env, p2, id, st => StaleEvents(env, t, st));
  }

  /** Both sides of a link are told of the other. */
  function LinkEvents(t: Turn, a: string, b: string): seq<Event> {
    [Event(a, ContradictedBy(b), Model, "", t.messageId, t.at),
      Event(b, ContradictedBy(a), Model, "", t.messageId, t.at)]
  }

  lemma LinkSays(env: Env, t: Turn, p: Plan, a: string, b: string)
    ensures Only(Link(env, t, p, a, b).events, IsAssertion) == Only(p.events, IsAssertion)
    ensures Only(Link(env, t, p, a, b).events, IsContradiction) == Only(p.events, IsContradiction) + LinkEvents(t, a, b)
  {
    hide EmitOn, Silent, Fold;
    RulesAreSilent(env, t, LedgerClaim("", Unverified, "", [], "", false, None), true);
    RulesAreSilent(env, t, LedgerClaim("", Unverified, "", [], "", false, None), false);
    var ea, eb := TurnEvent(t, a, ContradictedBy(b), Model), TurnEvent(t, b, ContradictedBy(a), Model);
    OnlySnoc(p.events, ea, IsAssertion);
    OnlySnoc(p.events, ea, IsContradiction);
    OnlySnoc(p.events + [ea], eb, IsAssertion);
    OnlySnoc(p.events + [ea], eb, IsContradiction);
    hide Only;
    var p2 := Emit(env, Emit(env, p, [ea]), [eb]);
    var p3 := EmitOn(env, p2, a, st => ConflictEvents(t, st, true));
    var p4 := EmitOn(env, p3, b, st => ConflictEvents(t, st, false));
    EmitOnSays(env, p2, a, st => ConflictEvents(t, st, true));
    EmitOnSays(env, p3, b, st => ConflictEvents(t, st, false));
    EmitOnSays(env, p4, a, st => SettleEvents(t, st));
    EmitOnSays(env, Settle(env, t, p4, a), b, st => SettleEvents(t, st));
  }

  lemma CreateSays(env: Env, t: Turn, activeCount: nat, p: Plan, claim: LedgerClaim)
    ensures var (p', id) := CreateClaim(env, t, activeCount, p, claim);
            && Only(p'.events, IsContradiction) == Only(p.events, IsContradiction)
            && Only(p'.events, IsAssertion)
               == Only(p.events, IsAssertion) + (if id.Some? then [Assertion(env, t, id.value, claim)] else [])
  {
    hide AssertInto, Only, Assertion;
    if activeCount + |p.created| < t.maxActive {
      var id := t.newId(|p.created|);
      AssertSays(env, t, p.(states := p.states[id := Initial(id, t.at)], created := p.created + [id]), id, claim, true);
    }
  }

  // ---- where claims land

  /** The claim a reference means once so many claims of the turn have landed: one stored or landed on, or none. */
  function Named(active: seq<Claim>, resolved: seq<Option<string>>, ref: Ref): Option<string> {
    match ref
    case Existing(id) => if Has(active, id) || Some(id) in resolved then Some(id) else None
    case Incoming(k) => if 0 <= k < |resolved| then resolved[k] else None
  }

  /** What the next claim's match means, if it says that the claim restates another. */
  function Restated(active: seq<Claim>, t: Turn, resolved: seq<Option<string>>): Option<string> {
    var m := MatchAt(t, |resolved|);
    if m.Same? then Named(active, resolved, m.ref) else None
  }

  /** The same, if it says that the claim contradicts another. */
  function Contradicted(active: seq<Claim>, t: Turn, resolved: seq<Option<string>>): Option<string> {
    var m := MatchAt(t, |resolved|);
    if m.Conflicting? then Named(active, resolved, m.ref) else None
  }

  /** How many claims the turn has created so far. */
  function Births(active: seq<Claim>, t: Turn, resolved: seq<Option<string>>): nat {
    if resolved == [] then 0 else
      var front, last := resolved[..|resolved| - 1], resolved[|resolved| - 1];
      Births(active, t, front) + (if last.Some? && Restated(active, t, front).None? then 1 else 0)
  }

  /** Where the next claim lands: on the claim it restates, else on the next new one while there is room. */
  function Landing(active: seq<Claim>, t: Turn, resolved: seq<Option<string>>): Option<string> {
    var n := Births(active, t, resolved);
    if Restated(active, t, resolved).Some? then Restated(active, t, resolved)
    else if |active| + n < t.maxActive then Some(t.newId(n))
    else None
  }

  predicate AllLand(active: seq<Claim>, t: Turn, resolved: seq<Option<string>>) {
    resolved == [] || (var front, last := resolved[..|resolved| - 1], resolved[|resolved| - 1];
                       AllLand(active, t, front) && last == Landing(active, t, front))
  }

  /** An event that asserts the claim as it came in, with the sources of its known citations if the turn has pages. */
  ghost predicate Reports(env: Env, t: Turn, e: Event, id: string, claim: LedgerClaim) {
    && e.kind.AssertedAs? && e.claimId == id && e.actor == Model && e.messageId == t.messageId && e.at == t.at
    && e.kind.text == claim.claim && e.kind.status == claim.status && e.kind.attributedTo == claim.attributedTo
    && e.kind.citations == claim.citations && e.kind.date == claim.date
    && if t.sources.Some? then ListsSources(env, claim.citations, t.sources.value, e.kind.sources)
       else e.kind.sources == []
  }

  /** One such event for each claim that landed, in order. */
  ghost predicate AllReported(env: Env, t: Turn, resolved: seq<Option<string>>, said: seq<Event>)
    requires |resolved| <= |t.incoming|
  {
    if resolved == [] then said == [] else
      var front, last := resolved[..|resolved| - 1], resolved[|resolved| - 1];
      if last.None? then AllReported(env, t, front, said)
      else said != [] && AllReported(env, t, front, said[..|said| - 1])
           && Reports(env, t, said[|said| - 1], last.value, t.incoming[|front|])
  }

  /** Both sides told, for each claim created in contradiction of another. */
  function LinksOf(active: seq<Claim>, t: Turn, resolved: seq<Option<string>>): seq<Event> {
    if resolved == [] then [] else
      var front, last := resolved[..|resolved| - 1], resolved[|resolved| - 1];
      var other := Contradicted(active, t, front);
      LinksOf(active, t, front)
      + (if last.Some? && other.Some? && other != last then LinkEvents(t, last.value, other.value) else [])
  }

  /** A claim without room counts as skipped, one in contradiction twice, because it is offered twice. */
  function Skips(t: Turn, resolved: seq<Option<string>>): nat {
    if resolved == [] then 0 else
      var front, last := resolved[..|resolved| - 1], resolved[|resolved| - 1];
      Skips(t, front) + (if last.Some? then 0 else if MatchAt(t, |front|).Conflicting? then 2 else 1)
  }

  /** The bookkeeping of a plan, from where its claims landed. */
  ghost predicate Booked(env: Env, active: seq<Claim>, t: Turn, p: Plan) {
    && |p.resolved| <= |t.incoming| && AllLand(active, t, p.resolved)
    && |p.created| == Births(active, t, p.resolved)
    && (forall id | id in p.created :: Some(id) in p.resolved)
    && AllReported(env, t, p.resolved, Only(p.events, IsAssertion))
    && Only(p.events, IsContradiction) == LinksOf(active, t, p.resolved)
    && p.skipped == Skips(t, p.resolved)
  }

  lemma NamedResolves(env: Env, active: seq<Claim>, t: Turn, p: Plan, ref: Ref)
    requires PlanOk(env, active, t, p) && (forall id | id in p.created :: Some(id) in p.resolved)
    ensures ResolveRef(p, ref) == Named(active, p.resolved, ref)
    ensures Named(active, p.resolved, ref).Some? ==> Named(active, p.resolved, ref).value in p.states
  {
    hide Follows;
    match ref
    case Incoming(_) =>
    case Existing(id) =>
      if Some(id) in p.resolved {
        var i :| 0 <= i < |p.resolved| && p.resolved[i] == Some(id);
        assert id in p.states;
      }
  }

  lemma AssertionReports(env: Env, t: Turn, id: string, claim: LedgerClaim)
    ensures Reports(env, t, Assertion(env, t, id, claim), id, claim)
  {
    hide ListsSources, Resolve;
    if t.sources.Some? { ResolvedSources(env, claim.citations, t.sources.value); }
  }

  /** The step's bookkeeping, before the claim is recorded as landed. */
  ghost predicate Steps(env: Env, active: seq<Claim>, t: Turn, p: Plan, p': Plan, target: Option<string>)
    requires |p.resolved| < |t.incoming|
  {
    var claim, other := t.incoming[|p.resolved|], Contradicted(active, t, p.resolved);
    && p'.resolved == p.resolved + [target] && target == Landing(active, t, p.resolved)
    && p'.created == p.created + (if target.Some? && Restated(active, t, p.resolved).None? then [target.value] else [])
    && Only(p'.events, IsAssertion)
       == Only(p.events, IsAssertion) + (if target.Some? then [Assertion(env, t, target.value, claim)] else [])
    && Only(p'.events, IsContradiction)
       == Only(p.events, IsContradiction)
          + (if target.Some? && other.Some? && other != target then LinkEvents(t, target.value, other.value) else [])
    && p'.skipped == p.skipped + (if target.Some? then 0 else if MatchAt(t, |p.resolved|).Conflicting? then 2 else 1)
  }

  lemma EmitOnSkips(env: Env, p: Plan, id: string, rule: Claim -> seq<Event>)
    ensures EmitOn(env, p, id, rule).skipped == p.skipped
  {
    hide Fold;
  }

  lemma AssertSkips(env: Env, t: Turn, p: Plan, id: string, claim: LedgerClaim, isNew: bool)
    requires id in p.states
    ensures AssertInto(env, t, p, id, claim, isNew).skipped == p.skipped
  {
    hide EmitOn, Fold, Assertion;
    var p0 := RecordAssertion(env, t, p, id, claim);
    var p1 := EmitOn(env, p0, id, st => StatusEvents(t, st, claim, isNew));
    var p2 := EmitOn(env, p1, id, st => FlagEvents(t, st, claim, isNew));
    EmitOnSkips(env, p0, id, st => StatusEvents(t, st, claim, isNew));
    EmitOnSkips(env, p1, id, st => FlagEvents(t, st, claim, isNew));
    EmitOnSkips(env, p2, id, st => StaleEvents(env, t, st));
  }

  lemma LinkSkips(env: Env, t: Turn, p: Plan, a: string, b: string)
    ensures Link(env, t, p, a, b).skipped == p.skipped
  {
    hide EmitOn, Fold;
    var p2 := Emit(env, Emit(env, p, [TurnEvent(t, a, ContradictedBy(b), Model)]),
                   [TurnEvent(t, b, ContradictedBy(a), Model)]);
    var p3 := EmitOn(env, p2, a, st => ConflictEvents(t, st, true));
    var p4 := EmitOn(env, p3, b, st => ConflictEvents(t, st, false));
    EmitOnSkips(env, p2, a, st => ConflictEvents(t, st, true));
    EmitOnSkips(env, p3, b, st => ConflictEvents(t, st, false));
    EmitOnSkips(env, p4, a, st => SettleEvents(t, st));
    EmitOnSkips(env, Settle(env, t, p4, a), b, st => SettleEvents(t, st));
  }

  lemma CreateBooks(env: Env, t: Turn, activeCount: nat, p: Plan, claim: LedgerClaim)
    ensures var (p', id) := CreateClaim(env, t, activeCount, p, claim);
            && p'.resolved == p.resolved
            && id == (if activeCount + |p.created| < t.maxActive then Some(t.newId(|p.created|)) else None)
            && p'.created == p.created + (if id.Some? then [id.value] else [])
            && p'.skipped == p.skipped + (if id.Some? then 0 else 1)
  {
    hide AssertInto;
    if activeCount + |p.created| < t.maxActive {
      var id := t.newId(|p.created|);
      var p1 := p.(states := p.states[id := Initial(id, t.at)], created := p.created + [id]);
      AssertRecords(env, t, p1, id, claim, true);
      AssertSkips(env, t, p1, id, claim, true);
    }
  }

  lemma RestatingStep(env: Env, active: seq<Claim>, t: Turn, p: Plan)
    requires PlanOk(env, active, t, p) && Booked(env, active, t, p) && |p.resolved| < |t.incoming|
    requires Restated(active, t, p.resolved).Some?
    ensures Steps(env, active, t, p, Step(env, t, |active|, p, |p.resolved|), Restated(active, t, p.resolved))
  {
    hide PlanOk, AssertInto, Only, Assertion, Named, ResolveRef, AllLand, AllReported, LinksOf, Births;
    var i, target := |p.resolved|, Restated(active, t, p.resolved);
    NamedResolves(env, active, t, p, MatchAt(t, i).ref);
    AssertSays(env, t, p, target.value, t.incoming[i], false);
    AssertRecords(env, t, p, target.value, t.incoming[i], false);
    AssertSkips(env, t, p, target.value, t.incoming[i], false);
  }

  lemma CreatingStep(env: Env, active: seq<Claim>, t: Turn, p: Plan)
    requires PlanOk(env, active, t, p) && Booked(env, active, t, p) && |p.resolved| < |t.incoming|
    requires Restated(active, t, p.resolved).None?
    ensures Steps(env, active, t, p, Step(env, t, |active|, p, |p.resolved|), Landing(active, t, p.resolved))
  {
    hide PlanOk, CreateClaim, Link, Only, Assertion, Named, ResolveRef, AllLand, AllReported, LinksOf, Births;
    var i, claim, other := |p.resolved|, t.incoming[|p.resolved|], Contradicted(active, t, p.resolved);
    var m := MatchAt(t, i);
    if !m.New? { NamedResolves(env, active, t, p, m.ref); }
    CreateSays(env, t, |active|, p, claim);
    CreateBooks(env, t, |active|, p, claim);
    var (p1, target) := CreateClaim(env, t, |active|, p, claim);
    if target.None? {
      CreateSays(env, t, |active|, p1, claim);
      CreateBooks(env, t, |active|, p1, claim);
    } else if other.Some? {
      LinkSays(env, t, p1, target.value, other.value);
      LinkRecords(env, t, p1, target.value, other.value);
      LinkSkips(env, t, p1, target.value, other.value);
    }
  }

  lemma StepsBook(env: Env, active: seq<Claim>, t: Turn, p: Plan, p': Plan, target: Option<string>)
    requires Booked(env, active, t, p) && |p.resolved| < |t.incoming| && Steps(env, active, t, p, p', target)
    ensures Booked(env, active, t, p')
  {
    hide Only, Assertion, Reports, Named;
    assert p'.resolved[..|p.resolved|] == p.resolved;
    var said, said' := Only(p.events, IsAssertion), Only(p'.events, IsAssertion);
    if target.Some? {
      AssertionReports(env, t, target.value, t.incoming[|p.resolved|]);
      assert said'[..|said|] == said;
    } else {
      assert said' == said;
    }
    forall id | id in p'.created ensures Some(id) in p'.resolved {
      if id in p.created { assert Some(id) in p.resolved; } else { assert p'.resolved[|p.resolved|] == Some(id); }
    }
  }

  lemma {:induction false} PrefixIsBooked(env: Env, active: seq<Claim>, t: Turn, n: nat)
    requires Admissible(active, t) && n <= |t.incoming|
    ensures Booked(env, active, t, PlanPrefix(env, active, t, n)) && |PlanPrefix(env, active, t, n).resolved| == n
  {
    hide Admissible, Step, Sound, Booked, PlanOk, Steps;
    if n == 0 {
      StartIsBooked(env, active, t);
    } else {
      var p := PlanPrefix(env, active, t, n - 1);
      PrefixIsBooked(env, active, t, n - 1);
      PrefixIsSound(env, active, t, n - 1);
      SoundFacts(env, active, t, p);
      var p' := Step(env, t, |active|, p, n - 1);
      if Restated(active, t, p.resolved).Some? {
        RestatingStep(env, active, t, p);
        StepsBook(env, active, t, p, p', Restated(active, t, p.resolved));
        assert |p'.resolved| == n by { StepsGrow(env, active, t, p, p', Restated(active, t, p.resolved)); }
      } else {
        CreatingStep(env, active, t, p);
        StepsBook(env, active, t, p, p', Landing(active, t, p.resolved));
        assert |p'.resolved| == n by { StepsGrow(env, active, t, p, p', Landing(active, t, p.resolved)); }
      }
    }
  }

  lemma StepsGrow(env: Env, active: seq<Claim>, t: Turn, p: Plan, p': Plan, target: Option<string>)
    requires |p.resolved| < |t.incoming| && Steps(env, active, t, p, p', target)
    ensures |p'.resolved| == |p.resolved| + 1
  {
  }

  lemma StartIsBooked(env: Env, active: seq<Claim>, t: Turn)
    ensures Booked(env, active, t, StartPlan(active)) && StartPlan(active).resolved == []
  {
  }

  /**
   * For every turn: each claim lands on the claim it restates, if its match means one, else on the next new claim while
   * there is room, else nowhere; and of everything that is logged, the assertions are those of the landed claims, one
   * each in order with the sources of their known citations, and the contradictions those of the claims created in
   * contradiction of another, told to both sides.
   */
  lemma TurnLogsWhatLanded(env: Env, active: seq<Claim>, t: Turn)
    requires Admissible(active, t)
    ensures var p := PlanTurn(env, active, t);
            && |p.resolved| == |t.incoming| && AllLand(active, t, p.resolved)
            && |p.created| == Births(active, t, p.resolved)
            && (forall k | 0 <= k < |p.created| :: p.created[k] == t.newId(k))
            && p.skipped == Skips(t, p.resolved)
            && AllReported(env, t, p.resolved, Only(p.events, IsAssertion))
            && Only(p.events, IsContradiction) == LinksOf(active, t, p.resolved)
  {
    hide PlanPrefix, Admissible, AllReported, Only, Follows;
    PrefixIsBooked(env, active, t, |t.incoming|);
    PrefixIsSound(env, active, t, |t.incoming|);
    PlanReferences(env, active, t, PlanTurn(env, active, t));
  }
}
