/** One turn of the ledger: an answer's claims, already matched, become events. */
module ClaimPlanner {
  import opened Prelude
  import opened ClaimEvidence
  import opened ClaimEvents

  datatype LedgerClaim = LedgerClaim(claim: string, status: Status, attributedTo: string, citations: seq<int>,
                                     date: string, needsCheck: bool, supersedes: Option<string>)

  /** A match names a stored claim by id, or an earlier claim of the same turn by position. */
  datatype Ref = Existing(id: string) | Incoming(index: int)

  datatype Match = Same(ref: Ref) | Conflicting(ref: Ref) | New

  datatype Wording = Wording(claimId: string, text: string)

  /** `newId(n)` is the n-th fresh id; with `sources` absent the model's status is stored as given. */
  datatype Turn = Turn(incoming: seq<LedgerClaim>, matches: seq<Match>, messageId: Option<string>, at: int,
                       newId: nat -> string, maxActive: nat, sources: Option<map<int, CitedPage>>)

  datatype Plan = Plan(states: map<string, Claim>, events: seq<Event>, wordings: seq<Wording>,
                       resolved: seq<Option<string>>, created: seq<string>, skipped: nat)

  // ---- the events one claim receives, computed from its state

  function TurnEvent(t: Turn, id: string, kind: Kind, actor: Actor): Event {
    Event(id, kind, actor, "", t.messageId, t.at)
  }

  function SettleEvents(t: Turn, st: Claim): seq<Event> {
    if t.sources.None? || st.reviewedAt.Some? then [] else
      var to := Derive(st.suggested, st.evidence, st.contradicts != []);
      if to == st.status then []
      else if to == Retracted then [TurnEvent(t, st.id, Withdrawn, Model)]
      else [TurnEvent(t, st.id, StatusChanged(to), if to == st.suggested then Model else System)]
  }

  function Assertion(env: Env, t: Turn, id: string, claim: LedgerClaim): Event {
    var sources := if t.sources.Some? then Resolve(env, claim.citations, t.sources.value) else [];
    TurnEvent(t, id, AssertedAs(claim.claim, claim.status, claim.attributedTo, claim.citations, claim.date, sources),
              Model)
  }

  function StatusEvents(t: Turn, st: Claim, claim: LedgerClaim, isNew: bool): seq<Event> {
    if t.sources.Some? then SettleEvents(t, st)
    else if isNew || st.reviewedAt.Some? || claim.status == st.status then []
    else if claim.status == Retracted then [TurnEvent(t, st.id, Withdrawn, Model)]
    else [TurnEvent(t, st.id, StatusChanged(claim.status), Model)]
  }

  function FlagEvents(t: Turn, st: Claim, claim: LedgerClaim, isNew: bool): seq<Event> {
    if st.reviewedAt.Some? then []
    else if claim.needsCheck && !st.needsCheck then [TurnEvent(t, st.id, CheckOpened("model"), Model)]
    else if !isNew && !claim.needsCheck && st.needsCheck && st.checkReason == Some("model")
      then [TurnEvent(t, st.id, CheckClosed("model"), Model)]
    else []
  }

  function StaleEvents(env: Env, t: Turn, st: Claim): seq<Event> {
    if t.sources.None? || st.reviewedAt.Some? then [] else
      var stale := Stale(env, st.evidence, st.date, t.at);
      if stale && !st.needsCheck then [TurnEvent(t, st.id, CheckOpened("stale"), System)]
      else if !stale && st.needsCheck && st.checkReason == Some("stale")
        then [TurnEvent(t, st.id, CheckClosed("stale"), System)]
      else []
  }

  /** A conflict opens a check on a claim that has none; on the stored claim, only if nobody has settled it. */
  function ConflictEvents(t: Turn, st: Claim, isNew: bool): seq<Event> {
    if st.needsCheck || (!isNew && st.reviewedAt.Some?) then []
    else [TurnEvent(t, st.id, CheckOpened("contradicted"), Model)]
  }

  // ---- the plan

  function ById(active: seq<Claim>): map<string, Claim> {
    if active == [] then map[] else ById(active[..|active| - 1])[active[|active| - 1].id := active[|active| - 1]]
  }

  function Emit(env: Env, p: Plan, events: seq<Event>): Plan {
    p.(events := p.events + events, states := map id | id in p.states :: Fold(env, p.states[id], events))
  }

  /** Emit the events that a rule derives from the claim's current state. */
  function EmitOn(env: Env, p: Plan, id: string, rule: Claim -> seq<Event>): Plan {
    if id in p.states then Emit(env, p, rule(p.states[id])) else p
  }

  function Settle(env: Env, t: Turn, p: Plan, id: string): Plan { EmitOn(env, p, id, st => SettleEvents(t, st)) }

  /** The assertion itself, and its wording if the claim had not been put that way before. */
  function RecordAssertion(env: Env, t: Turn, p: Plan, id: string, claim: LedgerClaim): Plan
    requires id in p.states
  {
    var known := env.normalize(claim.claim) in p.states[id].variants;
    var p1 := Emit(env, p, [Assertion(env, t, id, claim)]);
    if known then p1 else p1.(wordings := p1.wordings + [Wording(id, claim.claim)])
  }

  /** The model's own flag first, then the stale check, so that a closed flag cannot hide a stale source. */
  function UpdateChecks(env: Env, t: Turn, p: Plan, id: string, claim: LedgerClaim, isNew: bool): Plan {
    EmitOn(env, EmitOn(env, p, id, st => FlagEvents(t, st, claim, isNew)), id, st => StaleEvents(env, t, st))
  }

  function AssertInto(env: Env, t: Turn, p: Plan, id: string, claim: LedgerClaim, isNew: bool): Plan
    requires id in p.states
  {
    var p1 := EmitOn(env, RecordAssertion(env, t, p, id, claim), id, st => StatusEvents(t, st, claim, isNew));
    UpdateChecks(env, t, p1, id, claim, isNew)
  }

  function Initial(id: string, at: int): Claim { EmptyClaim(id).(createdAt := at, updatedAt := at) }

  function CreateClaim(env: Env, t: Turn, activeCount: nat, p: Plan, claim: LedgerClaim): (Plan, Option<string>) {
    if activeCount + |p.created| >= t.maxActive then (p.(skipped := p.skipped + 1), None)
    else
      var id := t.newId(|p.created|);
      var p1 := p.(states := p.states[id := Initial(id, t.at)], created := p.created + [id]);
      (AssertInto(env, t, p1, id, claim, true), Some(id))
  }

  function ResolveRef(p: Plan, ref: Ref): Option<string> {
    match ref
    case Existing(id) => if id in p.states then Some(id) else None
    case Incoming(i) => if 0 <= i < |p.resolved| then p.resolved[i] else None
  }

  function Link(env: Env, t: Turn, p: Plan, a: string, b: string): Plan {
    var p1 := Emit(env, p, [TurnEvent(t, a, ContradictedBy(b), Model)]);
    var p2 := Emit(env, p1, [TurnEvent(t, b, ContradictedBy(a), Model)]);
    var p3 := EmitOn(env, p2, a, st => ConflictEvents(t, st, true));
    var p4 := EmitOn(env, p3, b, st => ConflictEvents(t, st, false));
    Settle(env, t, Settle(env, t, p4, a), b)
  }

  function MatchAt(t: Turn, i: nat): Match { if i < |t.matches| then t.matches[i] else New }

  function Step(env: Env, t: Turn, activeCount: nat, p: Plan, i: nat): Plan
    requires i < |t.incoming|
  {
    var claim, m := t.incoming[i], MatchAt(t, i);
    var same := if m.Same? then ResolveRef(p, m.ref) else None;
    if same.Some? && same.value in p.states then
      var p1 := AssertInto(env, t, p, same.value, claim, false);
      p1.(resolved := p1.resolved + [same])
    else
      var other := if m.Conflicting? then ResolveRef(p, m.ref) else None;
      var (p1, target) := CreateClaim(env, t, activeCount, p, claim);
      var p2 := if target.Some? && other.Some? && other != target then Link(env, t, p1, target.value, other.value)
        else p1;
      // A conflicting claim that met the cap is offered once more; the cap still holds.
      var (p3, target') := if m.Conflicting? && target.None? then CreateClaim(env, t, activeCount, p2, claim)
        else (p2, target);
      p3.(resolved := p3.resolved + [target'])
  }

  function StartPlan(active: seq<Claim>): Plan { Plan(ById(active), [], [], [], [], 0) }

  function PlanPrefix(env: Env, active: seq<Claim>, t: Turn, n: nat): Plan
    requires n <= |t.incoming|
  {
    if n == 0 then StartPlan(active) else Step(env, t, |active|, PlanPrefix(env, active, t, n - 1), n - 1)
  }

  function PlanTurn(env: Env, active: seq<Claim>, t: Turn): Plan { PlanPrefix(env, active, t, |t.incoming|) }
}
