/** What the calls bring about: admitted work can be finished, cancelled work cannot, and nothing else is touched. */
module StoreOutcomes {
  import opened Prelude
  import opened ComputerStore
  import opened StoreSafety
  import opened StoreHistory

  // ---- who touches what

  /** The conversation a call is about. */
  function ScopeOf(c: Call): Option<string> {
    match c
    case CallAdmit(k, _, _, _, _) => Some(k.scope)
    case CallCreated(k, _) => Some(k.scope)
    case CallFinish(k, _, _) => Some(k.scope)
    case CallCancel(k) => Some(k.scope)
    case CallAdmitAction(k, _, _, _) => Some(k.scope)
    case CallAdmitSession(k, _, _, _) => Some(k.scope)
    case CallSessionCreated(scope, _, _) => Some(scope)
    case CallFinishAction(k, _, _, _, _, _) => Some(k.scope)
    case CallClose(scope, _, _) => Some(scope)
    case RolledBack => None
  }

  predicate SameAt<K, V(==)>(m: map<K, V>, m': map<K, V>, k: K) {
    (k in m <==> k in m') && (k in m ==> m'[k] == m[k])
  }

  /** Files, profile, session, operations and actions of a conversation are the same in both stores. */
  ghost predicate SameConversation(s: Store, s': Store, scope: string) {
    && SameAt(s.workspaces, s'.workspaces, scope)
    && SameAt(s.profiles, s'.profiles, scope)
    && SameAt(s.sessions, s'.sessions, scope)
    && (forall k: Key | k.scope == scope :: SameAt(s.operations, s'.operations, k) && SameAt(s.actions, s'.actions, k))
  }

  /** At most the row of `k` has been written. */
  predicate WrittenAt<K, V(==)>(m: map<K, V>, m': map<K, V>, k: K) { m' == m || (k in m' && m' == m[k := m'[k]]) }

  /** At most one row of each table has been written, all of the same conversation. */
  ghost predicate WrittenOnce(s: Store, s': Store, k: Key) {
    && WrittenAt(s.workspaces, s'.workspaces, k.scope) && WrittenAt(s.profiles, s'.profiles, k.scope)
    && WrittenAt(s.sessions, s'.sessions, k.scope)
    && WrittenAt(s.operations, s'.operations, k) && WrittenAt(s.actions, s'.actions, k)
  }

  lemma WrittenElsewhere(s: Store, s': Store, k: Key, scope: string)
    requires WrittenOnce(s, s', k) && k.scope != scope
    ensures SameConversation(s, s', scope)
  {
  }

  lemma AdmitWritesOnce(s: Store, k: Key, run: string, name: string, daemon: string, request: string)
    ensures WrittenOnce(s, Admit(s, k, run, name, daemon, request).0, k)
  {
    hide HasCapacity, OperationBusy, ActionBusy;
  }

  lemma CreatedWritesOnce(s: Store, k: Key, container: string)
    ensures WrittenOnce(s, Created(s, k, container).0, k)
  {
  }

  lemma CancelWritesOnce(s: Store, k: Key)
    ensures WrittenOnce(s, Cancel(s, k).0, k)
  {
  }

  lemma FinishWritesOnce(s: Store, k: Key, output: Bytes, snapshot: Option<Bytes>)
    ensures WrittenOnce(s, Finish(s, k, output, snapshot).0, k)
  {
  }

  lemma TablesWriteOnce(s: Store, scope: string, text: Option<Bytes>)
    ensures WrittenAt(s.workspaces, EnsureScope(s, scope).workspaces, scope)
    ensures WrittenAt(s.profiles, Upserted(s.profiles, scope, text), scope)
    ensures EnsureScope(s, scope).(workspaces := s.workspaces) == s
  {
  }

  lemma AdmitActionWritesOnce(s: Store, k: Key, run: string, request: string, taint: Option<Encoding>)
    ensures WrittenOnce(s, AdmitAction(s, k, run, request, taint).0, k)
  {
    TablesWriteOnce(s, k.scope, Text(taint));
    hide HasCapacity, OperationBusy, ActionBusy, EnsureScope, Upserted, CanEnsureScope, FitsProfile, Text;
  }

  lemma FinishActionWritesOnce(s: Store, c: Call)
    requires c.CallFinishAction?
    ensures WrittenOnce(s, Perform(s, c).0, c.k)
  {
    hide OperationBusy;
  }

  lemma SessionWritesOnce(s: Store, k: Key, run: string, name: string, daemon: string)
    ensures WrittenOnce(s, AdmitSession(s, k, run, name, daemon).0, k)
    ensures WrittenOnce(s, SessionCreated(s, k.scope, run, name).0, k)
  {
  }

  lemma CloseStaysInScope(s: Store, at: string, run: string, cancelActions: bool, scope: string)
    requires at != scope
    ensures SameConversation(s, Close(s, at, run, cancelActions).0, scope)
  {
  }

  lemma CallStaysInScope(s: Store, c: Call, scope: string)
    requires ScopeOf(c) != Some(scope)
    ensures SameConversation(s, Perform(s, c).0, scope)
  {
    hide Admit, Created, Finish, Cancel, AdmitAction, AdmitSession, SessionCreated, FinishAction, Close;
    hide WrittenOnce, SameConversation;
    var s' := Perform(s, c).0;
    match c
    case CallAdmit(k, run, name, daemon, request) =>
      AdmitWritesOnce(s, k, run, name, daemon, request);
      WrittenElsewhere(s, s', k, scope);
    case CallCreated(k, container) =>
      CreatedWritesOnce(s, k, container);
      WrittenElsewhere(s, s', k, scope);
    case CallFinish(k, output, snapshot) =>
      FinishWritesOnce(s, k, output, snapshot);
      WrittenElsewhere(s, s', k, scope);
    case CallCancel(k) =>
      CancelWritesOnce(s, k);
      WrittenElsewhere(s, s', k, scope);
    case CallAdmitAction(k, run, request, taint) =>
      AdmitActionWritesOnce(s, k, run, request, taint);
      WrittenElsewhere(s, s', k, scope);
    case CallAdmitSession(k, run, name, daemon) =>
      SessionWritesOnce(s, k, run, name, daemon);
      WrittenElsewhere(s, s', k, scope);
    case CallSessionCreated(at, run, identity) =>
      SessionWritesOnce(s, Key(at, ""), run, identity, "");
      WrittenElsewhere(s, s', Key(at, ""), scope);
    case CallFinishAction(k, _, _, _, _, _) =>
      FinishActionWritesOnce(s, c);
      WrittenElsewhere(s, s', k, scope);
    case CallClose(at, run, cancelActions) => CloseStaysInScope(s, at, run, cancelActions, scope);
    case RolledBack => NothingWritten(s, scope);
  }

  lemma NothingWritten(s: Store, scope: string)
    ensures SameConversation(s, s, scope)
  {
  }

  /** Calls of other conversations, in any number, leave a conversation as it was. */
  lemma {:induction false} ConversationsAreSeparate(s: Store, calls: seq<Call>, scope: string)
    requires forall c | c in calls :: ScopeOf(c) != Some(scope)
    ensures SameConversation(s, After(s, calls), scope)
    decreases |calls|
  {
    hide Perform, ScopeOf;
    if calls != [] {
      CallStaysInScope(s, calls[0], scope);
      ConversationsAreSeparate(Perform(s, calls[0]).0, calls[1..], scope);
    }
  }

  /** Calls that may move the operation `k`. */
  predicate MovesOperation(c: Call, k: Key) {
    (c.CallAdmit? || c.CallCreated? || c.CallFinish? || c.CallCancel?) && c.k == k
  }

  /** Calls that may move the action `k` of a run. */
  predicate MovesAction(c: Call, k: Key, run: string) {
    || ((c.CallAdmitAction? || c.CallFinishAction?) && c.k == k)
    || (c.CallClose? && c.scope == k.scope && c.run == run && c.cancelActions)
  }

  lemma OperationStays(s: Store, c: Call, k: Key)
    requires !MovesOperation(c, k)
    ensures SameAt(s.operations, Perform(s, c).0.operations, k)
  {
    hide HasCapacity, OperationBusy, ActionBusy;
  }

  lemma {:induction false} OperationsAreTheirOwn(s: Store, calls: seq<Call>, k: Key)
    requires forall c | c in calls :: !MovesOperation(c, k)
    ensures SameAt(s.operations, After(s, calls).operations, k)
    decreases |calls|
  {
    hide Perform, MovesOperation;
    if calls != [] {
      OperationStays(s, calls[0], k);
      OperationsAreTheirOwn(Perform(s, calls[0]).0, calls[1..], k);
    }
  }

  lemma ActionStays(s: Store, c: Call, k: Key)
    requires k in s.actions && !MovesAction(c, k, s.actions[k].run)
    ensures SameAt(s.actions, Perform(s, c).0.actions, k)
  {
    hide HasCapacity, OperationBusy, ActionBusy;
  }

  lemma {:induction false} ActionsAreTheirOwn(s: Store, calls: seq<Call>, k: Key)
    requires k in s.actions && forall c | c in calls :: !MovesAction(c, k, s.actions[k].run)
    ensures SameAt(s.actions, After(s, calls).actions, k)
    decreases |calls|
  {
    hide Perform, MovesAction;
    if calls != [] {
      ActionStays(s, calls[0], k);
      ActionsAreTheirOwn(Perform(s, calls[0]).0, calls[1..], k);
    }
  }

  // ---- admission

  /** Nothing of the conversation is in flight. */
  ghost predicate Quiet(s: Store, scope: string) {
    && (forall k | OperationInFlight(s, k) :: k.scope != scope)
    && (forall k | ActionPending(s, k) :: k.scope != scope)
  }

  /** The text was encoded, and is at most so long. */
  predicate Within(e: Encoding, most: nat) { e.Encoded? && |e.text| <= most }

  /** The conversation has a workspace, or may still get one. */
  predicate HasRoom(s: Store, scope: string) { scope in s.workspaces || |s.workspaces| < MAX_WORKSPACES }

  /** A new key is admitted exactly when the conversation is quiet and there is room, and its row is then in flight. */
  lemma AdmittedExactlyWhen(s: Store, k: Key, run: string, name: string, daemon: string, request: string)
    ensures var (s', r) := Admit(s, k, run, name, daemon, request);
            && (r.Admitted? <==> k !in s.operations && Quiet(s, k.scope) && HasCapacity(s, COMPUTER_RESERVATION)
                                 && HasRoom(s, k.scope))
            && (r.Admitted? ==> OperationInFlight(s', k) && s'.operations[k].run == run
                                && s'.operations[k].request == request && s'.operations[k].phase == Creating
                                && k.scope in s'.workspaces)
            && (!r.Admitted? ==> s' == s)
  {
    hide HasCapacity;
    QuietMeans(s, k.scope);
  }

  lemma QuietMeans(s: Store, scope: string)
    ensures Quiet(s, scope) <==> !OperationBusy(s, scope) && !ActionBusy(s, scope)
  {
    if OperationBusy(s, scope) {
      var k :| k in s.operations && k.scope == scope && s.operations[k].InFlight();
      assert OperationInFlight(s, k);
    }
    if ActionBusy(s, scope) {
      var k :| k in s.actions && k.scope == scope && s.actions[k].phase == Pending;
      assert ActionPending(s, k);
    }
  }

  /** The same for a browser action, whose run must not find another run's browser open. */
  lemma ActionAdmittedExactlyWhen(s: Store, k: Key, run: string, request: string, taint: Option<Encoding>)
    ensures var (s', r) := AdmitAction(s, k, run, request, taint);
            && (r.ActionAdmitted? <==>
                  k !in s.actions && Quiet(s, k.scope) && HasCapacity(s, BROWSER_RESERVATION)
                  && HasRoom(s, k.scope) && (taint.Some? ==> Within(taint.value, MAX_BROWSER_STATE))
                  && (k.scope in s.sessions ==> s.sessions[k.scope].phase == Closed || s.sessions[k.scope].run == run))
            && (r.ActionAdmitted? ==>
                  ActionPending(s', k) && s'.actions[k].run == run && s'.actions[k].request == request
                  && k.scope in s'.workspaces && SameAt(s.sessions, s'.sessions, k.scope)
                  && if taint.Some? then k.scope in s'.profiles && taint.value == Encoded(s'.profiles[k.scope])
                     else SameAt(s.profiles, s'.profiles, k.scope))
            && (!r.ActionAdmitted? ==> s' == s)
  {
    hide HasCapacity;
    QuietMeans(s, k.scope);
  }

  /** A key belongs to the run and request it was admitted for; anyone else is refused, and nothing changes. */
  lemma KeysBelongToOneRequest(s: Store, k: Key, run: string, name: string, daemon: string, request: string,
                               taint: Option<Encoding>, output: Bytes, evidence: Option<Bytes>,
                               profile: Option<Encoding>, merge: Option<Bytes -> Encoding>)
    ensures k in s.operations && (s.operations[k].run != run || s.operations[k].request != request) ==>
              Admit(s, k, run, name, daemon, request) == (s, Refused(Mismatch))
    ensures k in s.actions && (s.actions[k].run != run || s.actions[k].request != request) ==>
              AdmitAction(s, k, run, request, taint) == (s, Refused(Mismatch))
    ensures k in s.actions && s.actions[k].run != run ==>
              && AdmitSession(s, k, run, name, daemon) == (s, Refused(LostOwnership))
              && FinishAction(s, k, run, output, evidence, profile, merge).0 == s
              && FinishAction(s, k, run, output, evidence, profile, merge).1.Refused?
  {
    hide HasCapacity, OperationBusy, ActionBusy;
  }

  // ---- cancelling

  /**
   * An operation cancelled in flight stays cancelled whatever is called later: it is neither started nor finished nor
   * admitted again.
   */
  lemma CancelledForGood(s: Store, k: Key, calls: seq<Call>, container: string, output: Bytes, snapshot: Option<Bytes>,
                         name: string, daemon: string)
    requires OperationInFlight(s, k)
    ensures var later, o := After(Cancel(s, k).0, calls), s.operations[k];
            && k in later.operations && later.operations[k] == o.(phase := Cancelled)
            && Created(later, k, container) == (later, Refused(NotRepeatable))
            && Finish(later, k, output, snapshot).0 == later && Finish(later, k, output, snapshot).1.Refused?
            && (|output| <= MAX_RESULT && Size(snapshot) <= MAX_ARCHIVE ==>
                  Finish(later, k, output, snapshot).1 == Refused(LostOwnership))
            && Admit(later, k, o.run, name, daemon, o.request) == (later, Refused(NotRepeatable))
  {
    hide After;
    RowsEvolve(Cancel(s, k).0, calls, k);
  }

  /** A cancel moves no other operation, and one that is not in flight not at all. */
  lemma CancelIsExact(s: Store, k: Key, j: Key)
    ensures j != k || !OperationInFlight(s, k) ==> SameAt(s.operations, Cancel(s, k).0.operations, j)
    ensures !OperationInFlight(Cancel(s, k).0, k) && Cancel(s, k).1 == Accepted
    ensures Cancel(s, k).0.(operations := s.operations) == s
  {
  }

  /** In every reachable store, cancelling what is in flight frees the conversation for another operation. */
  lemma CancelFreesTheConversation(calls: seq<Call>, k: Key, j: Key, run: string, name: string, daemon: string,
                                   request: string)
    requires OperationInFlight(After(EMPTY, calls), k)
    requires j.scope == k.scope && j !in After(EMPTY, calls).operations
    ensures var s := Cancel(After(EMPTY, calls), k).0;
            && Quiet(s, k.scope)
            && (Admit(s, j, run, name, daemon, request).1.Admitted? <==> HasCapacity(s, COMPUTER_RESERVATION))
  {
    var s := After(EMPTY, calls);
    assert Inv(EMPTY);
    HistoryKeepsInv(EMPTY, calls);
    hide After, HasCapacity, Bounded;
    CancelLeavesQuiet(s, k);
    AdmittedExactlyWhen(Cancel(s, k).0, j, run, name, daemon, request);
  }

  lemma CancelLeavesQuiet(s: Store, k: Key)
    requires Exclusive(s) && OperationInFlight(s, k)
    ensures Quiet(Cancel(s, k).0, k.scope) && k.scope in Cancel(s, k).0.workspaces
  {
    var s' := Cancel(s, k).0;
    forall j | OperationInFlight(s', j) ensures j.scope != k.scope { assert OperationInFlight(s, j); }
    forall j | ActionPending(s', j) ensures j.scope != k.scope { assert ActionPending(s, j); }
  }

  /** Closing a run's browser and its actions cancels the pending action of that run for good. */
  lemma ClosedActionIsCancelledForGood(s: Store, k: Key, run: string, calls: seq<Call>, output: Bytes,
                                       evidence: Option<Bytes>, profile: Option<Encoding>,
                                       merge: Option<Bytes -> Encoding>, taint: Option<Encoding>, name: string,
                                       daemon: string)
    requires ActionPending(s, k) && s.actions[k].run == run
    ensures var later, a := After(Close(s, k.scope, run, true).0, calls), s.actions[k];
            && k in later.actions && later.actions[k] == a.(phase := ActionCancelled)
            && FinishAction(later, k, run, output, evidence, profile, merge).0 == later
            && FinishAction(later, k, run, output, evidence, profile, merge).1.Refused?
            && AdmitSession(later, k, run, name, daemon) == (later, Refused(LostOwnership))
            && AdmitAction(later, k, run, a.request, taint) == (later, Refused(NotRepeatable))
  {
    hide After, HasCapacity, OperationBusy, ActionBusy;
    RowsEvolve(Close(s, k.scope, run, true).0, calls, k);
  }

  /** A close is about one run: its session, and on request its pending actions, and nothing besides. */
  lemma CloseIsExact(s: Store, scope: string, run: string, cancelActions: bool, x: string, k: Key)
    ensures var (s', r) := Close(s, scope, run, cancelActions);
            && r == Accepted && s'.(sessions := s.sessions, actions := s.actions) == s
            && (x in s'.sessions <==> x in s.sessions) && (k in s'.actions <==> k in s.actions)
            && (x in s.sessions ==>
                  var mine := x == scope && s.sessions[x].run == run;
                  s'.sessions[x] == if mine then s.sessions[x].(phase := Closed) else s.sessions[x])
            && (k in s.actions ==>
                  var mine := cancelActions && k.scope == scope && s.actions[k].run == run && ActionPending(s, k);
                  s'.actions[k] == if mine then s.actions[k].(phase := ActionCancelled) else s.actions[k])
  {
  }

  /** In every reachable store, such a close frees the conversation for the next action of any run. */
  lemma CloseFreesTheConversation(calls: seq<Call>, k: Key, j: Key, next: string, request: string)
    requires ActionPending(After(EMPTY, calls), k)
    requires j.scope == k.scope && j !in After(EMPTY, calls).actions
    ensures var before := After(EMPTY, calls);
            var run := before.actions[k].run;
            var s := Close(before, k.scope, run, true).0;
            && Quiet(s, k.scope)
            && (k.scope in before.sessions && before.sessions[k.scope].run == run ==>
                  (AdmitAction(s, j, next, request, None).1.ActionAdmitted? <==> HasCapacity(s, BROWSER_RESERVATION)))
  {
    var before := After(EMPTY, calls);
    assert Inv(EMPTY);
    HistoryKeepsInv(EMPTY, calls);
    hide After, HasCapacity, Bounded;
    CloseLeavesQuiet(before, k);
    ActionAdmittedExactlyWhen(Close(before, k.scope, before.actions[k].run, true).0, j, next, request, None);
  }

  lemma CloseLeavesQuiet(s: Store, k: Key)
    requires Exclusive(s) && ActionPending(s, k)
    ensures var s' := Close(s, k.scope, s.actions[k].run, true).0; Quiet(s', k.scope) && k.scope in s'.workspaces
  {
    var s' := Close(s, k.scope, s.actions[k].run, true).0;
    forall j | OperationInFlight(s', j) ensures j.scope != k.scope { assert OperationInFlight(s, j); }
    forall j | ActionPending(s', j) ensures j.scope != k.scope { assert ActionPending(s, j); }
  }

  // ---- finishing

  /** A conversation's workspace, once there, stays. */
  lemma WorkspaceStays(s: Store, c: Call, scope: string)
    requires scope in s.workspaces
    ensures scope in Perform(s, c).0.workspaces
  {
    hide HasCapacity, OperationBusy, ActionBusy;
  }

  lemma {:induction false} WorkspacesStay(s: Store, calls: seq<Call>, scope: string)
    requires scope in s.workspaces
    ensures scope in After(s, calls).workspaces
    decreases |calls|
  {
    hide Perform;
    if calls != [] {
      WorkspaceStays(s, calls[0], scope);
      WorkspacesStay(Perform(s, calls[0]).0, calls[1..], scope);
    }
  }

  /**
   * An admitted operation whose key no other call names is started and finished whatever else happens meanwhile, as
   * far as result and snapshot are within their limits; its files are then those of the conversation.
   */
  lemma AdmittedRunsToCompletion(s: Store, k: Key, run: string, name: string, daemon: string, request: string,
                                 before: seq<Call>, container: string, meanwhile: seq<Call>, output: Bytes,
                                 snapshot: Option<Bytes>)
    requires Admit(s, k, run, name, daemon, request).1.Admitted?
    requires forall c | c in before + meanwhile :: !MovesOperation(c, k)
    ensures var s1 := After(Admit(s, k, run, name, daemon, request).0, before);
            var (s2, started) := Created(s1, k, container);
            var s3 := After(s2, meanwhile);
            var (s4, finished) := Finish(s3, k, output, snapshot);
            && started == Accepted
            && (finished == Accepted <==> |output| <= MAX_RESULT && Size(snapshot) <= MAX_ARCHIVE)
            && (finished != Accepted ==> s4 == s3)
            && (finished == Accepted ==>
                  && s4.operations[k] == Operation(run, name, daemon, request, Some(container), Done(output))
                  && k.scope in s4.workspaces
                  && s4.workspaces[k.scope] == if snapshot.Some? then snapshot.value else s3.workspaces[k.scope])
  {
    AdmittedExactlyWhen(s, k, run, name, daemon, request);
    var s0 := Admit(s, k, run, name, daemon, request).0;
    assert s0.operations[k] == Operation(run, name, daemon, request, None, Creating) by {
      hide HasCapacity, OperationBusy, ActionBusy;
    }
    hide Admit, HasCapacity, Quiet;
    assert forall c | c in before :: c in before + meanwhile;
    assert forall c | c in meanwhile :: c in before + meanwhile;
    hide MovesOperation, After;
    OperationsAreTheirOwn(s0, before, k);
    WorkspacesStay(s0, before, k.scope);
    var s2 := Created(After(s0, before), k, container).0;
    OperationsAreTheirOwn(s2, meanwhile, k);
    WorkspacesStay(s2, meanwhile, k.scope);
  }

  /**
   * The same for a browser action, until its run's actions are closed: with everything within its limits and no
   * operation in flight its receipt, evidence, profile and merged files are stored together, else nothing is.
   */
  lemma AdmittedActionRunsToCompletion(s: Store, k: Key, run: string, request: string, taint: Option<Encoding>,
                                       meanwhile: seq<Call>, output: Bytes, evidence: Option<Bytes>,
                                       profile: Option<Encoding>, merge: Option<Bytes -> Encoding>)
    requires AdmitAction(s, k, run, request, taint).1.ActionAdmitted?
    requires forall c | c in meanwhile :: !MovesAction(c, k, run)
    ensures var s1 := After(AdmitAction(s, k, run, request, taint).0, meanwhile);
            var (s2, r) := FinishAction(s1, k, run, output, evidence, profile, merge);
            && k.scope in s1.workspaces
            && (r == Accepted <==>
                  && |output| <= MAX_RESULT && Size(evidence) <= MAX_BROWSER_EVIDENCE
                  && (profile.Some? ==> Within(profile.value, MAX_BROWSER_STATE))
                  && (merge.Some? ==> !OperationBusy(s1, k.scope)
                                      && Within(merge.value(s1.workspaces[k.scope]), MAX_ARCHIVE)))
            && (r != Accepted ==> s2 == s1)
            && (r == Accepted ==>
                  && s2.actions[k] == Action(run, request, ActionDone(output, evidence))
                  && k.scope in s2.workspaces
                  && Encoded(s2.workspaces[k.scope])
                     == (if merge.Some? then merge.value(s1.workspaces[k.scope]) else Encoded(s1.workspaces[k.scope]))
                  && if profile.Some? then k.scope in s2.profiles && Encoded(s2.profiles[k.scope]) == profile.value
                     else SameAt(s1.profiles, s2.profiles, k.scope))
  {
    ActionAdmittedExactlyWhen(s, k, run, request, taint);
    var s0 := AdmitAction(s, k, run, request, taint).0;
    hide AdmitAction, HasCapacity, Quiet, OperationBusy, MovesAction, After;
    ActionsAreTheirOwn(s0, meanwhile, k);
    WorkspacesStay(s0, meanwhile, k.scope);
  }

  // ---- the browser session's row

  /** Calls that may move a conversation's session. */
  predicate MovesSession(c: Call, scope: string) {
    || (c.CallAdmitSession? && c.k.scope == scope)
    || ((c.CallSessionCreated? || c.CallClose?) && c.scope == scope)
  }

  lemma SessionStays(s: Store, c: Call, scope: string)
    requires !MovesSession(c, scope)
    ensures SameAt(s.sessions, Perform(s, c).0.sessions, scope)
  {
    hide HasCapacity, OperationBusy, ActionBusy;
  }

  lemma {:induction false} SessionsAreTheirOwn(s: Store, calls: seq<Call>, scope: string)
    requires forall c | c in calls :: !MovesSession(c, scope)
    ensures SameAt(s.sessions, After(s, calls).sessions, scope)
    decreases |calls|
  {
    hide Perform, MovesSession;
    if calls != [] {
      SessionStays(s, calls[0], scope);
      SessionsAreTheirOwn(Perform(s, calls[0]).0, calls[1..], scope);
    }
  }

  /** A pending action opens a session exactly over none or a closed one, and only its run makes it live, once. */
  lemma SessionOpensOnce(s: Store, k: Key, run: string, name: string, daemon: string, meanwhile: seq<Call>,
                         other: string, identity: string)
    requires ActionPending(s, k) && k.scope in s.workspaces
    requires forall c | c in meanwhile :: !MovesSession(c, k.scope)
    ensures var (s', r) := AdmitSession(s, k, run, name, daemon);
            && (r == Accepted <==>
                  s.actions[k].run == run && (k.scope in s.sessions ==> s.sessions[k.scope].phase == Closed))
            && (r != Accepted ==> s' == s)
            && (r == Accepted ==>
                  var (s1, live) := SessionCreated(After(s', meanwhile), k.scope, other, identity);
                  && (live == Accepted <==> other == run)
                  && k.scope in s1.sessions
                  && s1.sessions[k.scope] == (if other == run then Session(run, name, daemon, Some(identity), Live)
                                              else Session(run, name, daemon, None, Starting))
                  && (other == run ==> SessionCreated(s1, k.scope, run, identity) == (s1, Refused(LostOwnership))))
  {
    hide After, MovesSession;
    SessionsAreTheirOwn(AdmitSession(s, k, run, name, daemon).0, meanwhile, k.scope);
  }
}
