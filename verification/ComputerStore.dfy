/**
 * The durable store shared by the conversation computer and its browser: five tables, and each
 * public call as one transaction over them. A transaction maps the tables to new tables and a
 * reply; one that raises leaves the tables as they were.
 */
module ComputerStore {
  import opened Prelude
  import opened Totals

  const MAX_WORKSPACES: nat := 128
  const MAX_OPERATIONS: nat := 4096
  const MAX_ARCHIVE: nat := 8 * 1024 * 1024
  const MAX_RESULT: nat := 96 * 1024
  const MAX_STORE: nat := 64 * 1024 * 1024
  const MAX_BROWSER_STATE: nat := 1024 * 1024
  const MAX_BROWSER_EVIDENCE: nat := 256 * 1024
  const COMPUTER_RESERVATION: nat := MAX_ARCHIVE + MAX_RESULT
  const BROWSER_RESERVATION: nat := MAX_ARCHIVE + MAX_RESULT + MAX_BROWSER_STATE + MAX_BROWSER_EVIDENCE

  /** Primary key of the operation and action tables. */
  datatype Key = Key(scope: string, operation: string)

  /** The result column is non-null exactly in phase `done`, so the phase carries it. */
  datatype OperationPhase = Creating | Running | Done(result: Bytes) | Cancelled

  datatype Operation = Operation(run: string, name: string, daemon: string, request: string,
                                 container: Option<string>, phase: OperationPhase)
  {
    predicate InFlight() { phase == Creating || phase == Running }
  }

  datatype ActionPhase = Pending | ActionDone(result: Bytes, evidence: Option<Bytes>) | ActionCancelled

  datatype Action = Action(run: string, request: string, phase: ActionPhase)

  datatype SessionPhase = Starting | Live | Closed

  datatype Session = Session(run: string, name: string, daemon: string, container: Option<string>, phase: SessionPhase)

  datatype Store = Store(workspaces: map<string, Bytes>, operations: map<Key, Operation>,
                         profiles: map<string, Bytes>, sessions: map<string, Session>, actions: map<Key, Action>)

  const EMPTY := Store(map[], map[], map[], map[], map[])

  /** Why a call raised. */
  datatype Refusal =
    | Mismatch | NotRepeatable | CleanupPending | BrowserOwns | TerminalOwns | ForeignRun | SessionOpen
    | CapacityReached | WorkspaceLimit | TooLarge | LostOwnership | Unencodable | StoreUnavailable

  datatype Reply =
    | Admitted(snapshot: Bytes) | Receipt(result: Bytes) | ActionAdmitted | Accepted | Refused(why: Refusal)

  /** A value re-encoded inside a transaction; the encoder itself may raise. */
  datatype Encoding = Invalid | Encoded(text: Bytes)

  // ---- queries the transactions share

  predicate OperationBusy(s: Store, scope: string) {
    exists k | k in s.operations :: k.scope == scope && s.operations[k].InFlight()
  }

  predicate ActionBusy(s: Store, scope: string) {
    exists k | k in s.actions :: k.scope == scope && s.actions[k].phase == Pending
  }

  function SnapshotSize(k: string, snapshot: Bytes): nat { |snapshot| }
  function ResultSize(k: Key, o: Operation): nat { if o.phase.Done? then |o.phase.result| else 0 }
  function ActionSize(k: Key, a: Action): nat {
    if a.phase.ActionDone? then |a.phase.result| + Size(a.phase.evidence) else 0
  }
  function IsInFlight(k: Key, o: Operation): nat { if o.InFlight() then 1 else 0 }
  function IsPending(k: Key, a: Action): nat { if a.phase == Pending then 1 else 0 }

  /** The bytes the five tables hold. */
  ghost function Used(s: Store): nat {
    Sum(s.workspaces, SnapshotSize) + Sum(s.operations, ResultSize) + Sum(s.profiles, SnapshotSize)
      + Sum(s.actions, ActionSize)
  }

  ghost predicate HasCapacity(s: Store, reserve: nat) {
    && |s.operations| + |s.actions| < MAX_OPERATIONS
    && Used(s) + Sum(s.operations, IsInFlight) * COMPUTER_RESERVATION
       + Sum(s.actions, IsPending) * BROWSER_RESERVATION + reserve <= MAX_STORE
  }

  predicate CanEnsureScope(s: Store, scope: string) {
    scope in s.workspaces || |s.workspaces| < MAX_WORKSPACES
  }

  function EnsureScope(s: Store, scope: string): Store {
    if scope in s.workspaces then s else s.(workspaces := s.workspaces[scope := []])
  }

  function Snapshot(s: Store, scope: string): Bytes {
    if scope in s.workspaces then s.workspaces[scope] else []
  }

  /** `UPDATE ... WHERE scope = ?`: no row, no effect. */
  function Updated(m: map<string, Bytes>, scope: string, text: Option<Bytes>): map<string, Bytes> {
    if text.Some? && scope in m then m[scope := text.value] else m
  }

  /** `INSERT ... ON CONFLICT DO UPDATE`. */
  function Upserted(m: map<string, Bytes>, scope: string, text: Option<Bytes>): map<string, Bytes> {
    if text.Some? then m[scope := text.value] else m
  }

  // ---- the computer's transactions

  ghost function Admit(s: Store, k: Key, run: string, name: string, daemon: string, request: string): (Store, Reply) {
    if k in s.operations then
      var prior := s.operations[k];
      if prior.run != run || prior.request != request then (s, Refused(Mismatch))
      else if prior.phase.Done? then (s, Receipt(prior.phase.result))
      else (s, Refused(NotRepeatable))
    else if OperationBusy(s, k.scope) then (s, Refused(CleanupPending))
    else if ActionBusy(s, k.scope) then (s, Refused(BrowserOwns))
    else if !HasCapacity(s, COMPUTER_RESERVATION) then (s, Refused(CapacityReached))
    else if !CanEnsureScope(s, k.scope) then (s, Refused(WorkspaceLimit))
    else
      var row := Operation(run, name, daemon, request, None, Creating);
      var s' := EnsureScope(s, k.scope);
      (s'.(operations := s.operations[k := row]), Admitted(Snapshot(s, k.scope)))
  }

  function Created(s: Store, k: Key, container: string): (Store, Reply) {
    if k in s.operations && s.operations[k].phase == Creating then
      (s.(operations := s.operations[k := s.operations[k].(container := Some(container), phase := Running)]), Accepted)
    else (s, Refused(NotRepeatable))
  }

  function Finish(s: Store, k: Key, result: Bytes, snapshot: Option<Bytes>): (Store, Reply) {
    if |result| > MAX_RESULT || Size(snapshot) > MAX_ARCHIVE then (s, Refused(TooLarge))
    else if k !in s.operations || s.operations[k].phase != Running then (s, Refused(LostOwnership))
    else
      (s.(workspaces := Updated(s.workspaces, k.scope, snapshot),
          operations := s.operations[k := s.operations[k].(phase := Done(result))]), Accepted)
  }

  function Cancel(s: Store, k: Key): (Store, Reply) {
    if k in s.operations && s.operations[k].InFlight() then
      (s.(operations := s.operations[k := s.operations[k].(phase := Cancelled)]), Accepted)
    else (s, Accepted)
  }

  // ---- the browser's transactions

  ghost function AdmitAction(s: Store, k: Key, run: string, request: string, taint: Option<Encoding>): (Store, Reply)
  {
    if k in s.actions then
      var prior := s.actions[k];
      if prior.run != run || prior.request != request then (s, Refused(Mismatch))
      else if prior.phase.ActionDone? then (s, Receipt(prior.phase.result))
      else (s, Refused(NotRepeatable))
    else if k.scope in s.sessions && s.sessions[k.scope].phase != Closed && s.sessions[k.scope].run != run
      then (s, Refused(ForeignRun))
    else if ActionBusy(s, k.scope) || OperationBusy(s, k.scope) then (s, Refused(CleanupPending))
    else if !HasCapacity(s, BROWSER_RESERVATION) then (s, Refused(CapacityReached))
    else if !CanEnsureScope(s, k.scope) then (s, Refused(WorkspaceLimit))
    else if taint.Some? && !FitsProfile(taint.value) then (s, Refused(Unencodable))
    else
      var s' := EnsureScope(s, k.scope);
      (s'.(profiles := Upserted(s.profiles, k.scope, Text(taint)),
           actions := s.actions[k := Action(run, request, Pending)]), ActionAdmitted)
  }

  function Text(e: Option<Encoding>): Option<Bytes> {
    if e.Some? && e.value.Encoded? then Some(e.value.text) else None
  }

  predicate FitsProfile(e: Encoding) { e.Encoded? && |e.text| <= MAX_BROWSER_STATE }

  predicate FitsArchive(e: Encoding) { e.Encoded? && |e.text| <= MAX_ARCHIVE }

  function AdmitSession(s: Store, k: Key, run: string, name: string, daemon: string): (Store, Reply) {
    if k !in s.actions || s.actions[k].run != run || s.actions[k].phase != Pending then (s, Refused(LostOwnership))
    else if k.scope in s.sessions && s.sessions[k.scope].phase != Closed then (s, Refused(SessionOpen))
    else if !CanEnsureScope(s, k.scope) then (s, Refused(WorkspaceLimit))
    else
      (EnsureScope(s, k.scope).(sessions := s.sessions[k.scope := Session(run, name, daemon, None, Starting)]),
        Accepted)
  }

  function SessionCreated(s: Store, scope: string, run: string, identity: string): (Store, Reply) {
    if scope in s.sessions && s.sessions[scope].run == run && s.sessions[scope].phase == Starting then
      (s.(sessions := s.sessions[scope := s.sessions[scope].(container := Some(identity), phase := Live)]), Accepted)
    else (s, Refused(LostOwnership))
  }

  /** `merge` rebuilds the stored archive with a screenshot in it, or fails. */
  function FinishAction(s: Store, k: Key, run: string, result: Bytes, evidence: Option<Bytes>,
                        profile: Option<Encoding>, merge: Option<Bytes -> Encoding>): (Store, Reply)
  {
    if |result| > MAX_RESULT || Size(evidence) > MAX_BROWSER_EVIDENCE then (s, Refused(TooLarge))
    else if profile.Some? && !FitsProfile(profile.value) then (s, Refused(Unencodable))
    else if k !in s.actions || s.actions[k].run != run || s.actions[k].phase != Pending then (s, Refused(LostOwnership))
    else if merge.Some? && OperationBusy(s, k.scope) then (s, Refused(TerminalOwns))
    else if merge.Some? && !FitsArchive(merge.value(Snapshot(s, k.scope))) then (s, Refused(Unencodable))
    else
      var merged := if merge.Some? then Some(merge.value(Snapshot(s, k.scope)).text) else None;
      var row := s.actions[k].(phase := ActionDone(result, evidence));
      (s.(workspaces := Updated(s.workspaces, k.scope, merged),
          profiles := Upserted(s.profiles, k.scope, Text(profile)),
          actions := s.actions[k := row]), Accepted)
  }

  function CancelPending(a: Action, k: Key, scope: string, run: string): Action {
    if k.scope == scope && a.run == run && a.phase == Pending then a.(phase := ActionCancelled) else a
  }

  function Close(s: Store, scope: string, run: string, cancelActions: bool): (Store, Reply) {
    var sessions := if scope in s.sessions && s.sessions[scope].run == run
                    then s.sessions[scope := s.sessions[scope].(phase := Closed)] else s.sessions;
    var actions := if cancelActions then map k | k in s.actions ::
      CancelPending(s.actions[k], k, scope, run) else s.actions;
    (s.(sessions := sessions, actions := actions), Accepted)
  }
}
