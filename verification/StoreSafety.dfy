/**
 * What every sequence of store transactions keeps: the storage bound, one action in flight per
 * conversation, and at-most-once admission with stable receipts.
 */
module StoreSafety {
  import opened Prelude
  import opened Totals
  import opened ComputerStore

  // ---- the invariant

  function SnapshotRoom(s: Store, scope: string): nat {
    var n := |Snapshot(s, scope)|;
    if n <= MAX_ARCHIVE then MAX_ARCHIVE - n else 0
  }

  function ProfileRoom(s: Store, scope: string): nat {
    var n := if scope in s.profiles then |s.profiles[scope]| else 0;
    if n <= MAX_BROWSER_STATE then MAX_BROWSER_STATE - n else 0
  }

  /** An operation's share of the bound: what it stores, or while in flight all it may still write. */
  ghost function OperationShare(s: Store): (Key, Operation) -> nat {
    (k: Key, o: Operation) => OperationWeight(s, k, o)
  }

  function OperationWeight(s: Store, k: Key, o: Operation): nat {
    if o.InFlight() then SnapshotRoom(s, k.scope) + MAX_RESULT else ResultSize(k, o)
  }

  ghost function ActionShare(s: Store): (Key, Action) -> nat {
    (k: Key, a: Action) => ActionWeight(s, k, a)
  }

  function ActionWeight(s: Store, k: Key, a: Action): nat {
    if a.phase == Pending
    then SnapshotRoom(s, k.scope) + ProfileRoom(s, k.scope) + MAX_RESULT + MAX_BROWSER_EVIDENCE
    else ActionSize(k, a)
  }

  /** The bytes stored once every action in flight has written its maximum. */
  ghost function WorstCase(s: Store): nat {
    Sum(s.workspaces, SnapshotSize) + Sum(s.profiles, SnapshotSize)
    + Sum(s.operations, OperationShare(s)) + Sum(s.actions, ActionShare(s))
  }

  ghost predicate Bounded(s: Store) {
    && WorstCase(s) <= MAX_STORE
    && |s.operations| + |s.actions| <= MAX_OPERATIONS
    && |s.workspaces| <= MAX_WORKSPACES
    && (forall x | x in s.workspaces :: |s.workspaces[x]| <= MAX_ARCHIVE)
    && (forall x | x in s.profiles :: |s.profiles[x]| <= MAX_BROWSER_STATE)
  }

  predicate OperationInFlight(s: Store, k: Key) { k in s.operations && s.operations[k].InFlight() }
  predicate ActionPending(s: Store, k: Key) { k in s.actions && s.actions[k].phase == Pending }

  /** Per conversation at most one operation or browser action is in flight, and it has a workspace. */
  ghost predicate Exclusive(s: Store) {
    && (forall k | OperationInFlight(s, k) :: k.scope in s.workspaces)
    && (forall k | ActionPending(s, k) :: k.scope in s.workspaces)
    && (forall k, j | OperationInFlight(s, k) && OperationInFlight(s, j) && k.scope == j.scope :: k == j)
    && (forall k, j | ActionPending(s, k) && ActionPending(s, j) && k.scope == j.scope :: k == j)
    && (forall k, j | OperationInFlight(s, k) && ActionPending(s, j) :: k.scope != j.scope)
  }

  ghost predicate Inv(s: Store) { Bounded(s) && Exclusive(s) }

  lemma UsedIsBounded(s: Store)
    ensures Used(s) <= WorstCase(s)
  {
    SumLe(s.operations, ResultSize, s.operations, OperationShare(s));
    SumLe(s.actions, ActionSize, s.actions, ActionShare(s));
  }

  /** The admission query never underestimates the worst case. */
  lemma WorstCaseWithinReservations(s: Store)
    ensures WorstCase(s) <= Used(s) + Sum(s.operations, IsInFlight) * COMPUTER_RESERVATION
                            + Sum(s.actions, IsPending) * BROWSER_RESERVATION
  {
    SumBound(s.operations, OperationShare(s), ResultSize, IsInFlight, COMPUTER_RESERVATION);
    SumBound(s.actions, ActionShare(s), ActionSize, IsPending, BROWSER_RESERVATION);
  }

  lemma CapacityBoundsWorstCase(s: Store, reserve: nat)
    requires HasCapacity(s, reserve)
    ensures WorstCase(s) + reserve <= MAX_STORE
  {
    WorstCaseWithinReservations(s);
  }

  /** The two stores hold the same workspaces and profiles outside `scope`. */
  ghost predicate AgreeElsewhere(s: Store, s': Store, scope: string) {
    forall x | x != scope :: Snapshot(s, x) == Snapshot(s', x) && ProfileRoom(s, x) == ProfileRoom(s', x)
  }

  /** Shares depend on the workspace and profile of a row's own scope only. */
  lemma SharesElsewhere(s: Store, s': Store, ops: map<Key, Operation>, acts: map<Key, Action>, scope: string)
    requires AgreeElsewhere(s, s', scope)
    requires forall k | k in ops && k.scope == scope :: !ops[k].InFlight()
    requires forall k | k in acts && k.scope == scope :: acts[k].phase != Pending
    ensures Sum(ops, OperationShare(s)) == Sum(ops, OperationShare(s'))
    ensures Sum(acts, ActionShare(s)) == Sum(acts, ActionShare(s'))
  {
    forall k | k in ops ensures OperationWeight(s, k, ops[k]) == OperationWeight(s', k, ops[k]) {}
    forall k | k in acts ensures ActionWeight(s, k, acts[k]) == ActionWeight(s', k, acts[k]) {}
    SumLe(ops, OperationShare(s), ops, OperationShare(s'));
    SumLe(ops, OperationShare(s'), ops, OperationShare(s));
    SumLe(acts, ActionShare(s), acts, ActionShare(s'));
    SumLe(acts, ActionShare(s'), acts, ActionShare(s));
  }

  /** With the workspaces and profiles unchanged, rows that only leave flight lower the worst case. */
  lemma WorstCaseShrinks(s: Store, s': Store)
    requires s'.workspaces == s.workspaces && s'.profiles == s.profiles
    requires s'.operations.Keys == s.operations.Keys && s'.actions.Keys == s.actions.Keys
    requires forall k | k in s.operations ::
      s'.operations[k] == s.operations[k]
        || (s.operations[k].InFlight() && (s'.operations[k].InFlight() || s'.operations[k].phase.Cancelled?))
    requires forall k | k in s.actions ::
      s'.actions[k] == s.actions[k] || (s.actions[k].phase == Pending && s'.actions[k].phase.ActionCancelled?)
    ensures WorstCase(s') <= WorstCase(s)
  {
    forall k | k in s.operations
      ensures OperationWeight(s', k, s'.operations[k]) <= OperationWeight(s, k, s.operations[k]) {}
    forall k | k in s.actions ensures ActionWeight(s', k, s'.actions[k]) <= ActionWeight(s, k, s.actions[k]) {}
    SumLe(s'.operations, OperationShare(s'), s.operations, OperationShare(s));
    SumLe(s'.actions, ActionShare(s'), s.actions, ActionShare(s));
  }

  /** Rows that only leave flight keep the exclusion. */
  lemma ExclusiveShrinks(s: Store, s': Store)
    requires Exclusive(s) && s.workspaces.Keys <= s'.workspaces.Keys
    requires forall k | OperationInFlight(s', k) :: OperationInFlight(s, k)
    requires forall k | ActionPending(s', k) :: ActionPending(s, k)
    ensures Exclusive(s')
  {
  }

  // ---- admission

  lemma EnsureScopeSizes(s: Store, scope: string)
    ensures Sum(EnsureScope(s, scope).workspaces, SnapshotSize) == Sum(s.workspaces, SnapshotSize)
  {
    if scope !in s.workspaces { SumUpdate(s.workspaces, scope, [], SnapshotSize); }
  }

  /** Admitting one row into an idle conversation keeps the exclusion. */
  lemma AdmissionKeepsExclusive(s: Store, s': Store, k: Key)
    requires Exclusive(s) && !OperationBusy(s, k.scope) && !ActionBusy(s, k.scope)
    requires s.workspaces.Keys <= s'.workspaces.Keys && k.scope in s'.workspaces
    requires forall j | OperationInFlight(s', j) :: j == k || OperationInFlight(s, j)
    requires forall j | ActionPending(s', j) :: j == k || ActionPending(s, j)
    requires !(OperationInFlight(s', k) && ActionPending(s', k))
    ensures Exclusive(s')
  {
    forall j | OperationInFlight(s', j) ensures j == k || j.scope != k.scope {}
    forall j | ActionPending(s', j) ensures j == k || j.scope != k.scope {}
  }

  predicate HasSlots(s: Store, scope: string) {
    |s.operations| + |s.actions| < MAX_OPERATIONS && CanEnsureScope(s, scope)
  }

  /** What an accepted admission of an operation found, and what it wrote. */
  ghost predicate AdmitsOperation(s: Store, s': Store, k: Key, row: Operation) {
    && k !in s.operations && !OperationBusy(s, k.scope) && !ActionBusy(s, k.scope)
    && row.InFlight()
    && s' == EnsureScope(s, k.scope).(operations := s.operations[k := row])
  }

  ghost predicate AdmitsAction(s: Store, s': Store, k: Key, row: Action, taint: Option<Bytes>) {
    && k !in s.actions && !OperationBusy(s, k.scope) && !ActionBusy(s, k.scope)
    && row.phase == Pending && Size(taint) <= MAX_BROWSER_STATE
    && s' == EnsureScope(s, k.scope).(profiles := Upserted(s.profiles, k.scope, taint), actions := s.actions[k := row])
  }

  lemma AdmitShape(s: Store, k: Key, run: string, name: string, daemon: string, request: string)
    ensures var (s', reply) := Admit(s, k, run, name, daemon, request);
            if reply.Admitted? then
              WorstCase(s) + COMPUTER_RESERVATION <= MAX_STORE && HasSlots(s, k.scope)
              && AdmitsOperation(s, s', k, Operation(run, name, daemon, request, None, Creating))
            else s' == s
  {
    if HasCapacity(s, COMPUTER_RESERVATION) { CapacityBoundsWorstCase(s, COMPUTER_RESERVATION); }
  }

  lemma AdmitActionShape(s: Store, k: Key, run: string, request: string, taint: Option<Encoding>)
    ensures var (s', reply) := AdmitAction(s, k, run, request, taint);
            if reply.ActionAdmitted? then
              WorstCase(s) + BROWSER_RESERVATION <= MAX_STORE && HasSlots(s, k.scope)
              && AdmitsAction(s, s', k, Action(run, request, Pending), Text(taint))
            else s' == s
  {
    if HasCapacity(s, BROWSER_RESERVATION) { CapacityBoundsWorstCase(s, BROWSER_RESERVATION); }
  }

  lemma AdmitWorstCase(s: Store, s': Store, k: Key, row: Operation)
    requires AdmitsOperation(s, s', k, row)
    ensures WorstCase(s') <= WorstCase(s) + COMPUTER_RESERVATION
  {
    hide Sum;
    EnsureScopeSizes(s, k.scope);
    SharesElsewhere(s, s', s.operations, s.actions, k.scope);
    assert Sum(s'.operations, OperationShare(s'))
      == OperationWeight(s', k, row) + Sum(s.operations, OperationShare(s')) by {
      assert s.operations - {k} == s.operations;
      SumUpdate(s.operations, k, row, OperationShare(s'));
    }
  }

  lemma TaintSizes(s: Store, s': Store, scope: string, taint: Option<Bytes>)
    requires Size(taint) <= MAX_BROWSER_STATE && s'.profiles == Upserted(s.profiles, scope, taint)
    ensures Sum(s'.profiles, SnapshotSize) + ProfileRoom(s', scope) <= Sum(s.profiles, SnapshotSize) + MAX_BROWSER_STATE
  {
    if taint.Some? { SumUpdate(s.profiles, scope, taint.value, SnapshotSize); }
  }

  /** A tainting admission may write a profile at once; the reservation it takes covers that write. */
  lemma AdmitActionWorstCase(s: Store, s': Store, k: Key, row: Action, taint: Option<Bytes>)
    requires AdmitsAction(s, s', k, row, taint)
    ensures WorstCase(s') <= WorstCase(s) + BROWSER_RESERVATION
  {
    hide Sum;
    EnsureScopeSizes(s, k.scope);
    SharesElsewhere(s, s', s.operations, s.actions, k.scope);
    TaintSizes(s, s', k.scope, taint);
    assert Sum(s'.actions, ActionShare(s')) == ActionWeight(s', k, row) + Sum(s.actions, ActionShare(s')) by {
      assert s.actions - {k} == s.actions;
      SumUpdate(s.actions, k, row, ActionShare(s'));
    }
  }

  lemma AdmittedSizes(s: Store, s': Store, k: Key, row: Operation)
    requires HasSlots(s, k.scope) && AdmitsOperation(s, s', k, row)
    ensures |s'.operations| + |s'.actions| <= MAX_OPERATIONS && s'.profiles == s.profiles
    ensures |s.workspaces| <= MAX_WORKSPACES ==> |s'.workspaces| <= MAX_WORKSPACES
    ensures forall x | x in s'.workspaces ::
              s'.workspaces[x] == [] || (x in s.workspaces && s'.workspaces[x] == s.workspaces[x])
  {
    hide OperationBusy, ActionBusy;
  }

  lemma AdmittedIsBounded(s: Store, s': Store, k: Key, row: Operation)
    requires Bounded(s) && HasSlots(s, k.scope) && AdmitsOperation(s, s', k, row)
             && WorstCase(s) + COMPUTER_RESERVATION <= MAX_STORE
    ensures Bounded(s')
  {
    hide WorstCase, AdmitsOperation, HasSlots;
    AdmitWorstCase(s, s', k, row);
    AdmittedSizes(s, s', k, row);
  }

  lemma AdmittedActionIsBounded(s: Store, s': Store, k: Key, row: Action, taint: Option<Bytes>)
    requires Bounded(s) && HasSlots(s, k.scope) && AdmitsAction(s, s', k, row, taint)
             && WorstCase(s) + BROWSER_RESERVATION <= MAX_STORE
    ensures Bounded(s')
  {
    hide WorstCase;
    AdmitActionWorstCase(s, s', k, row, taint);
  }

  lemma AdmitKeepsInv(s: Store, k: Key, run: string, name: string, daemon: string, request: string)
    requires Inv(s)
    ensures Inv(Admit(s, k, run, name, daemon, request).0)
  {
    hide Admit, Sum, Bounded, Exclusive, WorstCase;
    var (s', reply) := Admit(s, k, run, name, daemon, request);
    AdmitShape(s, k, run, name, daemon, request);
    if reply.Admitted? {
      AdmittedIsBounded(s, s', k, Operation(run, name, daemon, request, None, Creating));
      AdmissionKeepsExclusive(s, s', k);
    }
  }

  lemma AdmitActionKeepsInv(s: Store, k: Key, run: string, request: string, taint: Option<Encoding>)
    requires Inv(s)
    ensures Inv(AdmitAction(s, k, run, request, taint).0)
  {
    hide AdmitAction, Sum, Bounded, Exclusive, WorstCase;
    var (s', reply) := AdmitAction(s, k, run, request, taint);
    AdmitActionShape(s, k, run, request, taint);
    if reply.ActionAdmitted? {
      AdmittedActionIsBounded(s, s', k, Action(run, request, Pending), Text(taint));
      AdmissionKeepsExclusive(s, s', k);
    }
  }

  // ---- completion

  /** A snapshot or profile written within its limit fits in the room its scope had left. */
  lemma WritesFit(s: Store, scope: string, text: Bytes)
    ensures |text| <= MAX_ARCHIVE ==>
            Sum(s.workspaces[scope := text], SnapshotSize) <= Sum(s.workspaces, SnapshotSize) + SnapshotRoom(s, scope)
    ensures |text| <= MAX_BROWSER_STATE ==>
            Sum(s.profiles[scope := text], SnapshotSize) <= Sum(s.profiles, SnapshotSize) + ProfileRoom(s, scope)
  {
    SumUpdate(s.workspaces, scope, text, SnapshotSize);
    SumUpdate(s.profiles, scope, text, SnapshotSize);
  }

  /** No operation and no browser action in the conversation is in flight, but for the given row. */
  ghost predicate Idle(s: Store, scope: string, operation: Option<Key>, action: Option<Key>) {
    && (forall j | j in s.operations && j.scope == scope && operation != Some(j) :: !s.operations[j].InFlight())
    && (forall j | j in s.actions && j.scope == scope && action != Some(j) :: s.actions[j].phase != Pending)
  }

  lemma InFlightIsAlone(s: Store, k: Key)
    requires Exclusive(s)
    ensures OperationInFlight(s, k) ==> k.scope in s.workspaces && Idle(s, k.scope, Some(k), None)
    ensures ActionPending(s, k) ==> k.scope in s.workspaces && Idle(s, k.scope, None, Some(k))
  {
    forall j | j in s.operations && s.operations[j].InFlight() ensures OperationInFlight(s, j) {}
    forall j | j in s.actions && s.actions[j].phase == Pending ensures ActionPending(s, j) {}
  }

  lemma FinishedShare(s: Store, s': Store, k: Key, row: Operation, snapshot: Option<Bytes>)
    requires OperationInFlight(s, k) && Idle(s, k.scope, Some(k), None) && row.phase.Done?
    requires s' == s.(workspaces := Updated(s.workspaces, k.scope, snapshot), operations := s.operations[k := row])
    ensures Sum(s'.operations, OperationShare(s')) + OperationWeight(s, k, s.operations[k])
            == |row.phase.result| + Sum(s.operations, OperationShare(s))
    ensures Sum(s'.actions, ActionShare(s')) == Sum(s.actions, ActionShare(s))
  {
    hide Sum;
    SharesElsewhere(s, s', s.operations - {k}, s.actions, k.scope);
    SumUpdate(s.operations, k, row, OperationShare(s'));
    SumUpdate(s.operations, k, row, OperationShare(s));
  }

  lemma FinishedIsBounded(s: Store, s': Store, k: Key, row: Operation, snapshot: Option<Bytes>)
    requires Bounded(s) && OperationInFlight(s, k) && Idle(s, k.scope, Some(k), None)
    requires Size(snapshot) <= MAX_ARCHIVE && row.phase.Done? && |row.phase.result| <= MAX_RESULT
    requires s' == s.(workspaces := Updated(s.workspaces, k.scope, snapshot), operations := s.operations[k := row])
    ensures Bounded(s')
  {
    hide Sum;
    FinishedShare(s, s', k, row, snapshot);
    hide OperationShare, ActionShare, Idle;
    if snapshot.Some? { WritesFit(s, k.scope, snapshot.value); }
    assert s'.workspaces.Keys == s.workspaces.Keys && |s'.workspaces| == |s'.workspaces.Keys|;
  }

  lemma FinishKeepsInv(s: Store, k: Key, result: Bytes, snapshot: Option<Bytes>)
    requires Inv(s)
    ensures Inv(Finish(s, k, result, snapshot).0)
  {
    hide WorstCase;
    var (s', reply) := Finish(s, k, result, snapshot);
    if reply.Accepted? {
      InFlightIsAlone(s, k);
      FinishedIsBounded(s, s', k, s'.operations[k], snapshot);
      ExclusiveShrinks(s, s');
    }
  }

  lemma ActionFinishedShare(s: Store, s': Store, k: Key, row: Action, snapshot: Option<Bytes>, profile: Option<Bytes>)
    requires ActionPending(s, k) && Idle(s, k.scope, None, Some(k)) && row.phase.ActionDone?
    requires s' == s.(workspaces := Updated(s.workspaces, k.scope, snapshot),
                      profiles := Upserted(s.profiles, k.scope, profile), actions := s.actions[k := row])
    ensures Sum(s'.actions, ActionShare(s')) + ActionWeight(s, k, s.actions[k])
            == ActionSize(k, row) + Sum(s.actions, ActionShare(s))
    ensures Sum(s'.operations, OperationShare(s')) == Sum(s.operations, OperationShare(s))
  {
    hide Sum;
    SharesElsewhere(s, s', s.operations, s.actions - {k}, k.scope);
    SumUpdate(s.actions, k, row, ActionShare(s'));
    SumUpdate(s.actions, k, row, ActionShare(s));
  }

  lemma ActionFinishedWorst(s: Store, s': Store, k: Key, row: Action, snapshot: Option<Bytes>, profile: Option<Bytes>)
    requires ActionPending(s, k) && Idle(s, k.scope, None, Some(k))
    requires Size(snapshot) <= MAX_ARCHIVE && Size(profile) <= MAX_BROWSER_STATE
    requires row.phase.ActionDone? && |row.phase.result| <= MAX_RESULT
             && Size(row.phase.evidence) <= MAX_BROWSER_EVIDENCE
    requires s' == s.(workspaces := Updated(s.workspaces, k.scope, snapshot),
                      profiles := Upserted(s.profiles, k.scope, profile), actions := s.actions[k := row])
    ensures WorstCase(s') <= WorstCase(s)
  {
    hide Sum, OperationShare, ActionShare, Idle;
    ActionFinishedShare(s, s', k, row, snapshot, profile);
    if snapshot.Some? { WritesFit(s, k.scope, snapshot.value); }
    if profile.Some? { WritesFit(s, k.scope, profile.value); }
  }

  lemma ActionFinishedIsBounded(s: Store, s': Store, k: Key, row: Action, snapshot: Option<Bytes>,
                                profile: Option<Bytes>)
    requires Bounded(s) && ActionPending(s, k) && Idle(s, k.scope, None, Some(k))
    requires Size(snapshot) <= MAX_ARCHIVE && Size(profile) <= MAX_BROWSER_STATE
    requires row.phase.ActionDone? && |row.phase.result| <= MAX_RESULT
             && Size(row.phase.evidence) <= MAX_BROWSER_EVIDENCE
    requires s' == s.(workspaces := Updated(s.workspaces, k.scope, snapshot),
                      profiles := Upserted(s.profiles, k.scope, profile), actions := s.actions[k := row])
    ensures Bounded(s')
  {
    hide WorstCase, Idle;
    ActionFinishedWorst(s, s', k, row, snapshot, profile);
    assert s'.workspaces.Keys == s.workspaces.Keys && |s'.workspaces| == |s'.workspaces.Keys|;
  }

  lemma FinishActionKeepsInv(s: Store, k: Key, run: string, result: Bytes, evidence: Option<Bytes>,
                             profile: Option<Encoding>, merge: Option<Bytes -> Encoding>)
    requires Inv(s)
    ensures Inv(FinishAction(s, k, run, result, evidence, profile, merge).0)
  {
    hide WorstCase;
    var (s', reply) := FinishAction(s, k, run, result, evidence, profile, merge);
    if reply.Accepted? {
      var merged := if merge.Some? then Some(merge.value(Snapshot(s, k.scope)).text) else None;
      InFlightIsAlone(s, k);
      ActionFinishedIsBounded(s, s', k, s'.actions[k], merged, Text(profile));
      ExclusiveShrinks(s, s');
    }
  }

  // ---- the remaining transactions

  /** Rows keep their keys; each is as it was, still in flight, or cancelled. */
  ghost predicate Shrinks(s: Store, s': Store) {
    && s'.workspaces == s.workspaces && s'.profiles == s.profiles
    && s'.operations.Keys == s.operations.Keys && s'.actions.Keys == s.actions.Keys
    && (forall k | k in s.operations ::
          s'.operations[k] == s.operations[k]
          || (s.operations[k].InFlight() && (s'.operations[k].InFlight() || s'.operations[k].phase.Cancelled?)))
    && (forall k | k in s.actions ::
          s'.actions[k] == s.actions[k] || (s.actions[k].phase == Pending && s'.actions[k].phase.ActionCancelled?))
  }

  lemma ShrinkKeepsInv(s: Store, s': Store)
    requires Inv(s) && Shrinks(s, s')
    ensures Inv(s')
  {
    hide WorstCase, Exclusive;
    WorstCaseShrinks(s, s');
    assert |s'.operations| == |s'.operations.Keys| == |s.operations|;
    assert |s'.actions| == |s'.actions.Keys| == |s.actions|;
    ExclusiveShrinks(s, s');
  }

  lemma CreatedKeepsInv(s: Store, k: Key, container: string)
    requires Inv(s)
    ensures Inv(Created(s, k, container).0)
  {
    hide Inv;
    ShrinkKeepsInv(s, Created(s, k, container).0);
  }

  lemma CancelKeepsInv(s: Store, k: Key)
    requires Inv(s)
    ensures Inv(Cancel(s, k).0)
  {
    hide Inv;
    ShrinkKeepsInv(s, Cancel(s, k).0);
  }

  lemma AdmitSessionKeepsInv(s: Store, k: Key, run: string, name: string, daemon: string)
    requires Inv(s)
    ensures Inv(AdmitSession(s, k, run, name, daemon).0)
  {
    assert ActionPending(s, k) ==> k.scope in s.workspaces;
    hide Inv;
    ShrinkKeepsInv(s, AdmitSession(s, k, run, name, daemon).0);
  }

  lemma SessionCreatedKeepsInv(s: Store, scope: string, run: string, identity: string)
    requires Inv(s)
    ensures Inv(SessionCreated(s, scope, run, identity).0)
  {
    hide Inv;
    ShrinkKeepsInv(s, SessionCreated(s, scope, run, identity).0);
  }

  lemma CloseKeepsInv(s: Store, scope: string, run: string, cancelActions: bool)
    requires Inv(s)
    ensures Inv(Close(s, scope, run, cancelActions).0)
  {
    hide Inv;
    var s' := Close(s, scope, run, cancelActions).0;
    assert s'.actions.Keys == s.actions.Keys;
    ShrinkKeepsInv(s, s');
  }
}
