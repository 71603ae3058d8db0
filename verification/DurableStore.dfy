/**
 * The store object itself. Every method is one transaction: it works on its own copy of the tables
 * and assigns them back only at its end, so a refusal part-way leaves every table as it was.
 */
module DurableStore {
  import opened Prelude
  import opened Totals
  import opened ComputerStore

  class Database {
    var workspaces: map<string, Bytes>
    var operations: map<Key, Operation>
    var profiles: map<string, Bytes>
    var sessions: map<string, Session>
    var actions: map<Key, Action>

    function Tables(): Store
      reads this
    {
      Store(workspaces, operations, profiles, sessions, actions)
    }

    constructor ()
      ensures Tables() == EMPTY
    {
      workspaces, operations, profiles, sessions, actions := map[], map[], map[], map[], map[];
    }

    /** The capacity query: five totals and two counts over the tables. */
    method Capacity(reserve: nat) returns (fits: bool)
      ensures fits <==> HasCapacity(Tables(), reserve)
    {
      var used := Total(workspaces, SnapshotSize);
      var n := Total(operations, ResultSize);
      used := used + n;
      n := Total(profiles, SnapshotSize);
      used := used + n;
      n := Total(actions, ActionSize);
      used := used + n;
      var pending := Total(operations, IsInFlight);
      var browserPending := Total(actions, IsPending);
      fits := |operations| + |actions| < MAX_OPERATIONS
              && used + pending * COMPUTER_RESERVATION + browserPending * BROWSER_RESERVATION + reserve <= MAX_STORE;
    }

    method Admit(k: Key, run: string, name: string, daemon: string, request: string) returns (r: Reply)
      modifies this
      ensures (Tables(), r) == ComputerStore.Admit(old(Tables()), k, run, name, daemon, request)
    {
      hide HasCapacity;
      if k in operations {
        var row := operations[k];
        if row.run != run || row.request != request { return Refused(Mismatch); }
        if row.phase.Done? { return Receipt(row.phase.result); }
        return Refused(NotRepeatable);
      }
      if exists j | j in operations :: j.scope == k.scope && operations[j].InFlight() {
        return Refused(CleanupPending);
      }
      if exists j | j in actions :: j.scope == k.scope && actions[j].phase == Pending { return Refused(BrowserOwns); }
      var fits := Capacity(COMPUTER_RESERVATION);
      if !fits { return Refused(CapacityReached); }
      var snapshot := if k.scope in workspaces then workspaces[k.scope] else [];
      if k.scope !in workspaces {
        if |workspaces| >= MAX_WORKSPACES { return Refused(WorkspaceLimit); }
        workspaces := workspaces[k.scope := []];
      }
      operations := operations[k := Operation(run, name, daemon, request, None, Creating)];
      return Admitted(snapshot);
    }

    method Created(k: Key, container: string) returns (r: Reply)
      modifies this`operations
      ensures (Tables(), r) == ComputerStore.Created(old(Tables()), k, container)
    {
      if k !in operations || operations[k].phase != Creating { return Refused(NotRepeatable); }
      operations := operations[k := operations[k].(container := Some(container), phase := Running)];
      return Accepted;
    }

    method Finish(k: Key, result: Bytes, snapshot: Option<Bytes>) returns (r: Reply)
      modifies this`operations, this`workspaces
      ensures (Tables(), r) == ComputerStore.Finish(old(Tables()), k, result, snapshot)
    {
      if |result| > MAX_RESULT || (snapshot.Some? && |snapshot.value| > MAX_ARCHIVE) { return Refused(TooLarge); }
      if k !in operations || operations[k].phase != Running { return Refused(LostOwnership); }
      if snapshot.Some? && k.scope in workspaces {
        workspaces := workspaces[k.scope := snapshot.value];
      }
      operations := operations[k := operations[k].(phase := Done(result))];
      return Accepted;
    }

    method Cancelled(k: Key) returns (r: Reply)
      modifies this`operations
      ensures (Tables(), r) == ComputerStore.Cancel(old(Tables()), k)
    {
      if k in operations && operations[k].InFlight() {
        operations := operations[k := operations[k].(phase := OperationPhase.Cancelled)];
      }
      return Accepted;
    }

    method AdmitAction(k: Key, run: string, request: string, taint: Option<Encoding>) returns (r: Reply)
      modifies this
      ensures (Tables(), r) == ComputerStore.AdmitAction(old(Tables()), k, run, request, taint)
    {
      hide HasCapacity;
      if k in actions {
        var row := actions[k];
        if row.run != run || row.request != request { return Refused(Mismatch); }
        if row.phase.ActionDone? { return Receipt(row.phase.result); }
        return Refused(NotRepeatable);
      }
      if k.scope in sessions && sessions[k.scope].phase != Closed && sessions[k.scope].run != run {
        return Refused(ForeignRun);
      }
      if (exists j | j in actions :: j.scope == k.scope && actions[j].phase == Pending)
         || (exists j | j in operations :: j.scope == k.scope && operations[j].InFlight()) {
           return Refused(CleanupPending);
         }
      var fits := Capacity(BROWSER_RESERVATION);
      if !fits { return Refused(CapacityReached); }
      var ws, ps := workspaces, profiles;
      if k.scope !in ws {
        if |ws| >= MAX_WORKSPACES { return Refused(WorkspaceLimit); }
        ws := ws[k.scope := []];
      }
      if taint.Some? {
        // The new workspace row is rolled back with everything else when the profile cannot be encoded.
        if !FitsProfile(taint.value) { return Refused(Unencodable); }
        ps := ps[k.scope := taint.value.text];
      }
      workspaces, profiles := ws, ps;
      actions := actions[k := Action(run, request, Pending)];
      return ActionAdmitted;
    }

    method AdmitSession(k: Key, run: string, name: string, daemon: string) returns (r: Reply)
      modifies this`workspaces, this`sessions
      ensures (Tables(), r) == ComputerStore.AdmitSession(old(Tables()), k, run, name, daemon)
    {
      if k !in actions || actions[k].run != run || actions[k].phase != Pending { return Refused(LostOwnership); }
      if k.scope in sessions && sessions[k.scope].phase != Closed { return Refused(SessionOpen); }
      if k.scope !in workspaces {
        if |workspaces| >= MAX_WORKSPACES { return Refused(WorkspaceLimit); }
        workspaces := workspaces[k.scope := []];
      }
      sessions := sessions[k.scope := Session(run, name, daemon, None, Starting)];
      return Accepted;
    }

    method SessionCreated(scope: string, run: string, identity: string) returns (r: Reply)
      modifies this`sessions
      ensures (Tables(), r) == ComputerStore.SessionCreated(old(Tables()), scope, run, identity)
    {
      if scope !in sessions || sessions[scope].run != run || sessions[scope].phase != Starting {
        return Refused(LostOwnership);
      }
      sessions := sessions[scope := sessions[scope].(container := Some(identity), phase := Live)];
      return Accepted;
    }

    method FinishAction(k: Key, run: string, result: Bytes, evidence: Option<Bytes>, profile: Option<Encoding>,
                        merge: Option<Bytes -> Encoding>) returns (r: Reply)
      modifies this`workspaces, this`profiles, this`actions
      ensures (Tables(), r) == ComputerStore.FinishAction(old(Tables()), k, run, result, evidence, profile, merge)
    {
      if |result| > MAX_RESULT || (evidence.Some? && |evidence.value| > MAX_BROWSER_EVIDENCE) {
        return Refused(TooLarge);
      }
      if profile.Some? && !FitsProfile(profile.value) { return Refused(Unencodable); }
      if k !in actions || actions[k].run != run || actions[k].phase != Pending { return Refused(LostOwnership); }
      var ws := workspaces;
      if merge.Some? {
        if exists j | j in operations :: j.scope == k.scope && operations[j].InFlight() {
          return Refused(TerminalOwns);
        }
        var merged := merge.value(if k.scope in ws then ws[k.scope] else []);
        if !FitsArchive(merged) { return Refused(Unencodable); }
        if k.scope in ws { ws := ws[k.scope := merged.text]; }
      }
      if profile.Some? {
        profiles := profiles[k.scope := profile.value.text];
      }
      workspaces := ws;
      actions := actions[k := actions[k].(phase := ActionDone(result, evidence))];
      return Accepted;
    }

    method Close(scope: string, run: string, cancelActions: bool) returns (r: Reply)
      modifies this`sessions, this`actions
      ensures (Tables(), r) == ComputerStore.Close(old(Tables()), scope, run, cancelActions)
    {
      if scope in sessions && sessions[scope].run == run {
        sessions := sessions[scope := sessions[scope].(phase := Closed)];
      }
      if cancelActions {
        actions := map k | k in actions ::
          if k.scope == scope && actions[k].run == run && actions[k].phase == Pending
          then actions[k].(phase := ActionCancelled) else actions[k];
      }
      assert actions == ComputerStore.Close(old(Tables()), scope, run, cancelActions).0.actions;
      return Accepted;
    }

    /** The read-only receipt query of either table: the stored receipt, nothing, or an ownership refusal. */
    method OperationReceipt(k: Key, run: string, request: string) returns (r: Result<Option<Bytes>, Refusal>)
      ensures r == Ok(None) <==>
              k !in operations
              || (operations[k].run == run && operations[k].request == request && !operations[k].phase.Done?)
      ensures forall result :: r == Ok(Some(result)) <==>
                && k in operations && operations[k].run == run && operations[k].request == request
                && operations[k].phase == Done(result)
      ensures r.Err? ==> r.error == Mismatch
    {
      if k !in operations { return Ok(None); }
      var row := operations[k];
      if row.run != run || row.request != request { return Err(Mismatch); }
      return Ok(if row.phase.Done? then Some(row.phase.result) else None);
    }
  }
}
