/** Whole histories of store transactions, in any interleaving and with any of them failing. */
module StoreHistory {
  import opened Prelude
  import opened Totals
  import opened ComputerStore
  import opened StoreSafety

  datatype Call =
    | CallAdmit(k: Key, run: string, name: string, daemon: string, request: string)
    | CallCreated(k: Key, container: string)
    | CallFinish(k: Key, output: Bytes, snapshot: Option<Bytes>)
    | CallCancel(k: Key)
    | CallAdmitAction(k: Key, run: string, request: string, taint: Option<Encoding>)
    | CallAdmitSession(k: Key, run: string, name: string, daemon: string)
    | CallSessionCreated(scope: string, run: string, identity: string)
    | CallFinishAction(k: Key, run: string, output: Bytes, evidence: Option<Bytes>, profile: Option<Encoding>,
                       merge: Option<Bytes -> Encoding>)
    | CallClose(scope: string, run: string, cancelActions: bool)
    | RolledBack  // a transaction the database or a crash aborted

  ghost function Perform(s: Store, c: Call): (Store, Reply) {
    match c
    case CallAdmit(k, run, name, daemon, request) => Admit(s, k, run, name, daemon, request)
    case CallCreated(k, container) => Created(s, k, container)
    case CallFinish(k, output, snapshot) => Finish(s, k, output, snapshot)
    case CallCancel(k) => Cancel(s, k)
    case CallAdmitAction(k, run, request, taint) => AdmitAction(s, k, run, request, taint)
    case CallAdmitSession(k, run, name, daemon) => AdmitSession(s, k, run, name, daemon)
    case CallSessionCreated(scope, run, identity) => SessionCreated(s, scope, run, identity)
    case CallFinishAction(k, run, output, evidence, profile, merge) =>
      FinishAction(s, k, run, output, evidence, profile, merge)
    case CallClose(scope, run, cancelActions) => Close(s, scope, run, cancelActions)
    case RolledBack => (s, Refused(StoreUnavailable))
  }

  ghost function After(s: Store, calls: seq<Call>): Store
    decreases |calls|
  {
    if calls == [] then s else After(Perform(s, calls[0]).0, calls[1..])
  }

  // ---- safety over all histories

  lemma PerformKeepsInv(s: Store, c: Call)
    requires Inv(s)
    ensures Inv(Perform(s, c).0)
  {
    hide Admit, Created, Finish, Cancel, AdmitAction, AdmitSession, SessionCreated, FinishAction, Close, Inv;
    match c {
      case CallAdmit(k, run, name, daemon, request) => AdmitKeepsInv(s, k, run, name, daemon, request);
      case CallCreated(k, container) => CreatedKeepsInv(s, k, container);
      case CallFinish(k, output, snapshot) => FinishKeepsInv(s, k, output, snapshot);
      case CallCancel(k) => CancelKeepsInv(s, k);
      case CallAdmitAction(k, run, request, taint) => AdmitActionKeepsInv(s, k, run, request, taint);
      case CallAdmitSession(k, run, name, daemon) => AdmitSessionKeepsInv(s, k, run, name, daemon);
      case CallSessionCreated(scope, run, identity) => SessionCreatedKeepsInv(s, scope, run, identity);
      case CallFinishAction(k, run, output, evidence, profile, merge) =>
        FinishActionKeepsInv(s, k, run, output, evidence, profile, merge);
      case CallClose(scope, run, cancelActions) => CloseKeepsInv(s, scope, run, cancelActions);
      case RolledBack =>
    }
  }

  lemma {:induction false} HistoryKeepsInv(s: Store, calls: seq<Call>)
    requires Inv(s)
    ensures Inv(After(s, calls))
    decreases |calls|
  {
    hide Perform, Inv;
    if calls != [] {
      PerformKeepsInv(s, calls[0]);
      HistoryKeepsInv(Perform(s, calls[0]).0, calls[1..]);
    }
  }

  /** From an empty database, no history overfills the store or puts two actions of a conversation in flight. */
  lemma EveryStoreIsSafe(calls: seq<Call>)
    ensures var s := After(EMPTY, calls);
            && Used(s) <= MAX_STORE
            && WorstCase(s) <= MAX_STORE
            && |s.operations| + |s.actions| <= MAX_OPERATIONS
            && |s.workspaces| <= MAX_WORKSPACES
            && Exclusive(s)
  {
    assert Inv(EMPTY);
    HistoryKeepsInv(EMPTY, calls);
    UsedIsBounded(After(EMPTY, calls));
  }

  /** The completion of a browser action re-checks for a terminal operation; no history reaches that refusal. */
  lemma TerminalNeverOwnsAtCompletion(calls: seq<Call>, k: Key, run: string, output: Bytes, evidence: Option<Bytes>,
                                      profile: Option<Encoding>, merge: Option<Bytes -> Encoding>)
    ensures FinishAction(After(EMPTY, calls), k, run, output, evidence, profile, merge).1 != Refused(TerminalOwns)
  {
    hide WorstCase, Used, After, Sum;
    EveryStoreIsSafe(calls);
    var s := After(EMPTY, calls);
    if ActionPending(s, k) { InFlightIsAlone(s, k); }
  }

  // ---- at most once

  /** How an operation's row may change: identity fixed, phases forward only, terminal rows frozen. */
  predicate Evolves(o: Operation, o': Operation) {
    && o'.run == o.run && o'.name == o.name && o'.daemon == o.daemon && o'.request == o.request
    && (o.phase.Done? || o.phase.Cancelled? ==> o' == o)
    && (o.phase.Running? ==> !o'.phase.Creating? && o'.container == o.container)
  }

  predicate ActionEvolves(a: Action, a': Action) {
    a'.run == a.run && a'.request == a.request && (a.phase != Pending ==> a' == a)
  }

  /** The row of `k` in either table is still there, and has only advanced. */
  ghost predicate RowEvolves(s: Store, s': Store, k: Key) {
    && (k in s.operations ==> k in s'.operations && Evolves(s.operations[k], s'.operations[k]))
    && (k in s.actions ==> k in s'.actions && ActionEvolves(s.actions[k], s'.actions[k]))
  }

  lemma AdmitEvolves(s: Store, j: Key, run: string, name: string, daemon: string, request: string, k: Key)
    ensures RowEvolves(s, Admit(s, j, run, name, daemon, request).0, k)
  {
    hide HasCapacity, OperationBusy, ActionBusy;
  }

  lemma CreatedEvolves(s: Store, j: Key, container: string, k: Key)
    ensures RowEvolves(s, Created(s, j, container).0, k)
  {
  }

  lemma FinishEvolves(s: Store, j: Key, output: Bytes, snapshot: Option<Bytes>, k: Key)
    ensures RowEvolves(s, Finish(s, j, output, snapshot).0, k)
  {
  }

  lemma CancelEvolves(s: Store, j: Key, k: Key)
    ensures RowEvolves(s, Cancel(s, j).0, k)
  {
  }

  lemma AdmitActionEvolves(s: Store, j: Key, run: string, request: string, taint: Option<Encoding>, k: Key)
    ensures RowEvolves(s, AdmitAction(s, j, run, request, taint).0, k)
  {
    hide HasCapacity, OperationBusy, ActionBusy;
  }

  lemma FinishActionEvolves(s: Store, j: Key, run: string, output: Bytes, evidence: Option<Bytes>,
                            profile: Option<Encoding>, merge: Option<Bytes -> Encoding>, k: Key)
    ensures RowEvolves(s, FinishAction(s, j, run, output, evidence, profile, merge).0, k)
  {
    hide OperationBusy;
  }

  lemma SessionEvolves(s: Store, j: Key, run: string, name: string, daemon: string, k: Key)
    ensures RowEvolves(s, AdmitSession(s, j, run, name, daemon).0, k)
    ensures RowEvolves(s, SessionCreated(s, j.scope, run, name).0, k)
  {
    var admitted, created := AdmitSession(s, j, run, name, daemon).0, SessionCreated(s, j.scope, run, name).0;
    assert admitted.operations == s.operations && admitted.actions == s.actions;
    assert created.operations == s.operations && created.actions == s.actions;
    hide AdmitSession, SessionCreated;
  }

  lemma CloseEvolves(s: Store, scope: string, run: string, cancelActions: bool, k: Key)
    ensures RowEvolves(s, Close(s, scope, run, cancelActions).0, k)
  {
  }

  lemma PerformEvolves(s: Store, c: Call, k: Key)
    ensures RowEvolves(s, Perform(s, c).0, k)
  {
    hide Admit, Created, Finish, Cancel, AdmitAction, AdmitSession, SessionCreated, FinishAction, Close, RowEvolves;
    match c {
      case CallAdmit(j, run, name, daemon, request) => AdmitEvolves(s, j, run, name, daemon, request, k);
      case CallCreated(j, container) => CreatedEvolves(s, j, container, k);
      case CallFinish(j, output, snapshot) => FinishEvolves(s, j, output, snapshot, k);
      case CallCancel(j) => CancelEvolves(s, j, k);
      case CallAdmitAction(j, run, request, taint) => AdmitActionEvolves(s, j, run, request, taint, k);
      case CallAdmitSession(j, run, name, daemon) => SessionEvolves(s, j, run, name, daemon, k);
      case CallSessionCreated(scope, run, identity) => SessionEvolves(s, Key(scope, ""), run, identity, "", k);
      case CallFinishAction(j, run, output, evidence, profile, merge) =>
        FinishActionEvolves(s, j, run, output, evidence, profile, merge, k);
      case CallClose(scope, run, cancelActions) => CloseEvolves(s, scope, run, cancelActions, k);
      case RolledBack => SameEvolves(s, k);
    }
  }

  lemma SameEvolves(s: Store, k: Key)
    ensures RowEvolves(s, s, k)
  {
  }

  lemma {:induction false} RowsEvolve(s: Store, calls: seq<Call>, k: Key)
    ensures k in s.operations ==>
            k in After(s, calls).operations && Evolves(s.operations[k], After(s, calls).operations[k])
    ensures k in s.actions ==> k in After(s, calls).actions && ActionEvolves(s.actions[k], After(s, calls).actions[k])
    decreases |calls|
  {
    hide Perform;
    if calls != [] {
      PerformEvolves(s, calls[0], k);
      RowsEvolve(Perform(s, calls[0]).0, calls[1..], k);
    }
  }

  predicate AdmitsOperationKey(c: Call, r: Reply, k: Key) { c.CallAdmit? && c.k == k && r.Admitted? }
  predicate AdmitsActionKey(c: Call, r: Reply, k: Key) { c.CallAdmitAction? && c.k == k && r.ActionAdmitted? }

  /** How often a history admits the operation `k` for execution. */
  ghost function Admissions(s: Store, calls: seq<Call>, k: Key): nat
    decreases |calls|
  {
    if calls == [] then 0 else
      var (s', r) := Perform(s, calls[0]);
      (if AdmitsOperationKey(calls[0], r, k) then 1 else 0) + Admissions(s', calls[1..], k)
  }

  ghost function ActionAdmissions(s: Store, calls: seq<Call>, k: Key): nat
    decreases |calls|
  {
    if calls == [] then 0 else
      var (s', r) := Perform(s, calls[0]);
      (if AdmitsActionKey(calls[0], r, k) then 1 else 0) + ActionAdmissions(s', calls[1..], k)
  }

  lemma {:induction false} AtMostOneAdmission(s: Store, calls: seq<Call>, k: Key)
    ensures Admissions(s, calls, k) <= (if k in s.operations then 0 else 1)
    ensures ActionAdmissions(s, calls, k) <= (if k in s.actions then 0 else 1)
    decreases |calls|
  {
    hide HasCapacity, OperationBusy, ActionBusy;
    if calls != [] {
      PerformEvolves(s, calls[0], k);
      AtMostOneAdmission(Perform(s, calls[0]).0, calls[1..], k);
    }
  }

  /** Once an operation is done, every later identical admission replays its receipt and changes nothing. */
  lemma ReceiptIsStable(s: Store, calls: seq<Call>, k: Key, name: string, daemon: string)
    requires k in s.operations && s.operations[k].phase.Done?
    ensures var o := s.operations[k];
            Admit(After(s, calls), k, o.run, name, daemon, o.request) == (After(s, calls), Receipt(o.phase.result))
  {
    RowsEvolve(s, calls, k);
  }

  lemma ActionReceiptIsStable(s: Store, calls: seq<Call>, k: Key, taint: Option<Encoding>)
    requires k in s.actions && s.actions[k].phase.ActionDone?
    ensures var a := s.actions[k];
            AdmitAction(After(s, calls), k, a.run, a.request, taint) == (After(s, calls), Receipt(a.phase.result))
  {
    RowsEvolve(s, calls, k);
  }

  /** A cancelled or uncertain operation is never run again, whatever happens later. */
  lemma CancelledIsNeverRepeated(s: Store, calls: seq<Call>, k: Key, run: string, name: string, daemon: string,
                                 request: string)
    requires k in s.operations && s.operations[k].phase.Cancelled?
    ensures var (s', r) := Admit(After(s, calls), k, run, name, daemon, request);
            s' == After(s, calls) && (r == Refused(NotRepeatable) || r == Refused(Mismatch))
  {
    RowsEvolve(s, calls, k);
  }

  /** A result once accepted is what every later identical admission gets back. */
  lemma FinishedResultIsReplayed(s: Store, k: Key, output: Bytes, snapshot: Option<Bytes>, calls: seq<Call>,
                                 name: string, daemon: string)
    requires Finish(s, k, output, snapshot).1 == Accepted
    ensures k in s.operations
    ensures var later := After(Finish(s, k, output, snapshot).0, calls);
            Admit(later, k, s.operations[k].run, name, daemon, s.operations[k].request) == (later, Receipt(output))
  {
    ReceiptIsStable(Finish(s, k, output, snapshot).0, calls, k, name, daemon);
  }

  /** A cancelled or uncertain browser action is never run again either. */
  lemma CancelledActionIsNeverRepeated(s: Store, calls: seq<Call>, k: Key, run: string, request: string,
                                       taint: Option<Encoding>)
    requires k in s.actions && s.actions[k].phase.ActionCancelled?
    ensures var (s', r) := AdmitAction(After(s, calls), k, run, request, taint);
            s' == After(s, calls) && (r == Refused(NotRepeatable) || r == Refused(Mismatch))
  {
    hide HasCapacity, OperationBusy, ActionBusy;
    RowsEvolve(s, calls, k);
  }

  /** A browser receipt once accepted is what every later identical admission gets back. */
  lemma FinishedActionIsReplayed(s: Store, k: Key, run: string, output: Bytes, evidence: Option<Bytes>,
                                 profile: Option<Encoding>, merge: Option<Bytes -> Encoding>, calls: seq<Call>,
                                 taint: Option<Encoding>)
    requires FinishAction(s, k, run, output, evidence, profile, merge).1 == Accepted
    ensures k in s.actions && s.actions[k].run == run
    ensures var later := After(FinishAction(s, k, run, output, evidence, profile, merge).0, calls);
            AdmitAction(later, k, run, s.actions[k].request, taint) == (later, Receipt(output))
  {
    hide OperationBusy, AdmitAction, After;
    ActionReceiptIsStable(FinishAction(s, k, run, output, evidence, profile, merge).0, calls, k, taint);
  }

  // ---- what an admission hands out

  /**
   * The files of a conversation after one call: replaced by an accepted completion that stores some, else as before.
   */
  ghost function Stored(c: Call, r: Reply, scope: string, current: Bytes): Bytes {
    if r != Accepted then current
    else if c.CallFinish? && c.k.scope == scope && c.snapshot.Some? then c.snapshot.value
    else if c.CallFinishAction? && c.k.scope == scope && c.merge.Some? && c.merge.value(current).Encoded?
      then c.merge.value(current).text
    else current
  }

  ghost function LastStored(s: Store, calls: seq<Call>, scope: string, current: Bytes): Bytes
    decreases |calls|
  {
    if calls == [] then current else
      var (s', r) := Perform(s, calls[0]);
      LastStored(s', calls[1..], scope, Stored(calls[0], r, scope, current))
  }

  lemma PerformStores(s: Store, c: Call, scope: string)
    requires Exclusive(s)
    ensures Snapshot(Perform(s, c).0, scope) == Stored(c, Perform(s, c).1, scope, Snapshot(s, scope))
  {
    hide Perform, Stored, Exclusive;
    if c.CallFinish? {
      FinishStores(s, c, scope);
    } else if c.CallFinishAction? {
      FinishActionStores(s, c, scope);
    } else {
      OthersStoreNothing(s, c, scope);
      assert Stored(c, Perform(s, c).1, scope, Snapshot(s, scope)) == Snapshot(s, scope) by {
        StoredByCompletions(c, Perform(s, c).1, scope, Snapshot(s, scope));
      }
    }
  }

  lemma StoredByCompletions(c: Call, r: Reply, scope: string, current: Bytes)
    requires !c.CallFinish? && !c.CallFinishAction?
    ensures Stored(c, r, scope, current) == current
  {
  }

  /** Calls other than completions leave every conversation's files as they were; a new workspace is empty. */
  lemma OthersStoreNothing(s: Store, c: Call, scope: string)
    requires !c.CallFinish? && !c.CallFinishAction?
    ensures Snapshot(Perform(s, c).0, scope) == Snapshot(s, scope)
  {
    hide Created, Cancel, SessionCreated, Close, Admit, AdmitAction, AdmitSession, EnsureScope;
    match c {
      case CallAdmit(k, run, name, daemon, request) => AdmitStoresNothing(s, k, run, name, daemon, request, scope);
      case CallAdmitAction(k, run, request, taint) => AdmitActionStoresNothing(s, k, run, request, taint, scope);
      case CallAdmitSession(k, run, name, daemon) => SessionStoresNothing(s, k, run, name, daemon, false, scope);
      case CallSessionCreated(r, run, identity) => SessionStoresNothing(s, Key(r, ""), run, identity, "", false, scope);
      case CallClose(r, run, cancelActions) => SessionStoresNothing(s, Key(r, ""), run, "", "", cancelActions, scope);
      case CallCreated(k, container) => CreationStoresNothing(s, k, container);
      case CallCancel(k) => CreationStoresNothing(s, k, "");
      case RolledBack =>
    }
  }

  lemma CreationStoresNothing(s: Store, k: Key, container: string)
    ensures Created(s, k, container).0.workspaces == s.workspaces == Cancel(s, k).0.workspaces
  {
  }

  lemma EnsuredIsEmpty(s: Store, scope: string, at: string)
    ensures Snapshot(EnsureScope(s, scope), at) == Snapshot(s, at)
  {
  }

  lemma AdmitStoresNothing(s: Store, k: Key, run: string, name: string, daemon: string, request: string, scope: string)
    ensures Snapshot(Admit(s, k, run, name, daemon, request).0, scope) == Snapshot(s, scope)
  {
    hide HasCapacity, OperationBusy, ActionBusy, EnsureScope, CanEnsureScope;
    EnsuredIsEmpty(s, k.scope, scope);
  }

  lemma AdmitActionStoresNothing(s: Store, k: Key, run: string, request: string, taint: Option<Encoding>, scope: string)
    ensures Snapshot(AdmitAction(s, k, run, request, taint).0, scope) == Snapshot(s, scope)
  {
    hide HasCapacity, OperationBusy, ActionBusy, EnsureScope, CanEnsureScope, FitsProfile;
    EnsuredIsEmpty(s, k.scope, scope);
  }

  lemma SessionStoresNothing(s: Store, k: Key, run: string, name: string, daemon: string, cancelActions: bool,
                             scope: string)
    ensures Snapshot(AdmitSession(s, k, run, name, daemon).0, scope) == Snapshot(s, scope)
    ensures SessionCreated(s, k.scope, run, name).0.workspaces == s.workspaces
    ensures Close(s, k.scope, run, cancelActions).0.workspaces == s.workspaces
  {
  }

  lemma FinishStores(s: Store, c: Call, scope: string)
    requires Exclusive(s) && c.CallFinish?
    ensures Snapshot(Perform(s, c).0, scope) == Stored(c, Perform(s, c).1, scope, Snapshot(s, scope))
  {
    if c.k in s.operations { assert OperationInFlight(s, c.k) ==> c.k.scope in s.workspaces; }
  }

  lemma FinishActionStores(s: Store, c: Call, scope: string)
    requires Exclusive(s) && c.CallFinishAction?
    ensures Snapshot(Perform(s, c).0, scope) == Stored(c, Perform(s, c).1, scope, Snapshot(s, scope))
  {
    hide OperationBusy;
    if c.k in s.actions { assert ActionPending(s, c.k) ==> c.k.scope in s.workspaces; }
  }

  lemma {:induction false} HistoryStores(s: Store, calls: seq<Call>, scope: string)
    requires Inv(s)
    ensures Snapshot(After(s, calls), scope) == LastStored(s, calls, scope, Snapshot(s, scope))
    decreases |calls|
  {
    if calls != [] {
      assert Exclusive(s);
      hide Perform, Inv, Exclusive, Snapshot;
      PerformStores(s, calls[0], scope);
      PerformKeepsInv(s, calls[0]);
      HistoryStores(Perform(s, calls[0]).0, calls[1..], scope);
    }
  }

  /** An admitted action starts from the files of the last completion that stored any, over every history. */
  lemma AdmissionHandsOutTheLastFiles(calls: seq<Call>, k: Key, run: string, name: string, daemon: string,
                                      request: string)
    ensures var r := Admit(After(EMPTY, calls), k, run, name, daemon, request).1;
            r.Admitted? ==> r.snapshot == LastStored(EMPTY, calls, k.scope, [])
  {
    assert Inv(EMPTY);
    hide After, Inv, LastStored, HasCapacity, OperationBusy, ActionBusy;
    HistoryStores(EMPTY, calls, k.scope);
  }
}
