/**
 * The browser container protocol of one conversation: controllers of several runs, each with an
 * action thread and a clean-up thread, share the durable session row and a container daemon.
 * A step is what happens between two awaits, a step of the daemon, or a worker crash; an inspection
 * is taken when the daemon looks, and acted upon when the controller resumes. Container names are
 * fresh, `inspect` is truthful, and each run has at most one live controller.
 */
module BrowserLifecycle {
  import opened Prelude
  import opened ComputerStore
  import opened StoreHistory
  import opened Totals

  datatype Container = Made | Up | Exited

  /** Where a controller's action thread stands. In all but the first two it holds the action lock. */
  datatype Exec =
    | Idle                       // no action and no pipe session
    | Ready                      // no action, and the pipe session of an earlier one
    | Entered                    // action admitted, no pipe session yet
    | Reserved(name: string)     // session admitted, create not sent yet
    | Creating(name: string)     // create request sent
    | Recorded(name: string)     // container identity stored
    | Serving                    // the pipe session is set and the command runs
    | Broken                     // a clean-up took the pipe session away under the command
    | Handling                   // an error handler is waiting for clean-up
    | Cleaned                    // that clean-up succeeded

  /** Where its clean-up thread stands (it holds the clean-up lock), with the row it read. */
  datatype Cleanup =
    | Off
    | Draining(recoverPrevious: bool, cancelActions: bool)  // the pipe session is being closed, no row read yet
    | Looking(row: Session)
    | Removing(row: Session)
    | Rechecking(row: Session)
    | Closing(row: Session)

  datatype State = State(store: Store, containers: map<string, Container>, requested: set<string>, made: set<string>,
                         used: set<string>, exec: map<string, Exec>, holding: map<string, string>,
                         cleanup: map<string, Cleanup>, ended: set<string>)

  const SCOPE := "conversation"

  ghost function ExecOf(s: State, q: string): Exec { if q in s.exec then s.exec[q] else Idle }
  ghost function CleanupOf(s: State, q: string): Cleanup { if q in s.cleanup then s.cleanup[q] else Off }
  ghost function WithExec(s: State, q: string, e: Exec): State { s.(exec := s.exec[q := e]) }
  ghost function WithCleanup(s: State, q: string, c: Cleanup): State { s.(cleanup := s.cleanup[q := c]) }

  ghost predicate Open(s: State) { SCOPE in s.store.sessions && s.store.sessions[SCOPE].phase != Closed }

  ghost function Row(s: State): Session
    requires Open(s)
  {
    s.store.sessions[SCOPE]
  }

  /** Steps of a controller's action thread: `execute`, `start` and the error handlers. */
  datatype ExecStep =
    | Take(operation: string, request: string, taint: Option<Encoding>)
    | Reserve(name: string, daemon: string)
    | SendCreate
    | Record
    | Launch
    | Complete(output: Bytes, evidence: Option<Bytes>, profile: Option<Encoding>, merge: Option<Bytes -> Encoding>)
    | Fail
    | Abandon
    | CloseAgain

  /** Steps of its clean-up thread: `cancel`. */
  datatype CleanupStep =
    | Begin(recoverPrevious: bool, cancelActions: bool)
    | Read
    | Look
    | Remove
    | Recheck
    | CloseRow(cancelActions: bool)
    | GiveUp

  /** Steps of the daemon, the watchdog, failures, and every other store transaction. */
  datatype WorldStep =
    | DaemonCreates(name: string)
    | DaemonRefuses(name: string)
    | Watchdog(name: string)
    | Crash(run: string)
    | End(run: string)
    | OtherCall(call: Call)

  datatype Step = Act(q: string, act: ExecStep) | CleanUp(q: string, clean: CleanupStep) | World(world: WorldStep)

  /** A store transaction about neither this conversation's session row nor its browser actions. */
  ghost predicate LeavesBrowser(c: Call) {
    match c
    case CallAdmitAction(k, _, _, _) => k.scope != SCOPE
    case CallFinishAction(k, _, _, _, _, _) => k.scope != SCOPE
    case CallAdmitSession(k, _, _, _) => k.scope != SCOPE
    case CallSessionCreated(scope, _, _) => scope != SCOPE
    case CallClose(scope, _, _) => scope != SCOPE
    case _ => true
  }

  /** The handler, if one is waiting, learns that clean-up succeeded. */
  ghost function Succeeded(s: State, q: string): State {
    WithCleanup(if ExecOf(s, q) == Handling then WithExec(s, q, Cleaned) else s, q, Off)
  }

  // A step that is not enabled changes nothing.

  /** `execute` takes the action lock, and keeps it only for an action that is admitted. */
  ghost function NextTake(s: State, q: string, operation: string, request: string, taint: Option<Encoding>): State {
    if ExecOf(s, q) != Idle && ExecOf(s, q) != Ready then s else
      var (store, reply) := AdmitAction(s.store, Key(SCOPE, operation), q, request, taint);
      var admitted := s.(store := store, holding := s.holding[q := operation]);
      if reply != ActionAdmitted then s
      else WithExec(admitted, q, if ExecOf(s, q) == Idle then Entered else Serving)
  }

  /** The action's receipt is stored and its lock released; a refusal goes to the error handler, or out of it. */
  ghost function NextComplete(s: State, q: string, output: Bytes, evidence: Option<Bytes>, profile: Option<Encoding>,
                              merge: Option<Bytes -> Encoding>): State
  {
    if (ExecOf(s, q) != Serving && ExecOf(s, q) != Cleaned) || q !in s.holding then s else
      var (store, reply) := FinishAction(s.store, Key(SCOPE, s.holding[q]), q, output, evidence, profile, merge);
      WithExec(s.(store := store), q,
               if ExecOf(s, q) == Cleaned then Idle else if reply == Accepted then Ready else Handling)
  }

  ghost function NextExec(s: State, q: string, step: ExecStep): State {
    match step
    case Take(operation, request, taint) => NextTake(s, q, operation, request, taint)
    case Reserve(name, daemon) =>
      if ExecOf(s, q) != Entered || name in s.used || q !in s.holding then s else
        var (store, reply) := AdmitSession(s.store, Key(SCOPE, s.holding[q]), q, name, daemon);
        if reply != Accepted then WithExec(s, q, Handling)
        else WithExec(s.(store := store, used := s.used + {name}), q, Reserved(name))
    case SendCreate =>
      if !ExecOf(s, q).Reserved? then s else
        WithExec(s.(requested := s.requested + {ExecOf(s, q).name}), q, Exec.Creating(ExecOf(s, q).name))
    case Record =>
      if !ExecOf(s, q).Creating? || ExecOf(s, q).name !in s.made then s else
        var (store, reply) := SessionCreated(s.store, SCOPE, q, ExecOf(s, q).name);
        if reply != Accepted then WithExec(s, q, Handling)
        else WithExec(s.(store := store), q, Recorded(ExecOf(s, q).name))
    case Launch =>
      if !ExecOf(s, q).Recorded? then s else
        var n := ExecOf(s, q).name;
        if n !in s.containers then WithExec(s, q, Handling)
        else WithExec(s.(containers := s.containers[n := Up]), q, Serving)
    case Complete(output, evidence, profile, merge) => NextComplete(s, q, output, evidence, profile, merge)
    case Fail =>
      if ExecOf(s, q) == Idle || ExecOf(s, q) == Ready || ExecOf(s, q) == Cleaned then s else WithExec(s, q, Handling)
    case Abandon => if ExecOf(s, q) == Handling || ExecOf(s, q) == Cleaned then WithExec(s, q, Idle) else s
    case CloseAgain =>
      if ExecOf(s, q) != Cleaned then s else WithExec(s.(store := Close(s.store, SCOPE, q, true).0), q, Idle)
  }

  ghost predicate HasPipe(s: State, q: string) { ExecOf(s, q) == Ready || ExecOf(s, q) == Serving }

  /** The pipe session, if set, is dropped; a command that used it can only fail. */
  ghost function Released(s: State, q: string): State {
    match ExecOf(s, q)
    case Ready => WithExec(s, q, Idle)
    case Serving => WithExec(s, q, Broken)
    case _ => s
  }

  ghost function ReadRow(s: State, q: string, recoverPrevious: bool, cancelActions: bool): State {
    if !Open(s) then Succeeded(s.(store := Close(s.store, SCOPE, q, cancelActions).0), q)
    else if Row(s).run != q && !recoverPrevious then WithCleanup(s, q, Off)
    else WithCleanup(s, q, Looking(Row(s)))
  }

  ghost function NextCleanup(s: State, q: string, step: CleanupStep): State {
    match step
    case Begin(recoverPrevious, cancelActions) =>
      // Recovery is left out while the controller has a browser of its own.
      if CleanupOf(s, q) != Off || (recoverPrevious && HasPipe(s, q)) then s
      else WithCleanup(Released(s, q), q, Draining(recoverPrevious, cancelActions))
    case Read =>
      if !CleanupOf(s, q).Draining? then s
      else ReadRow(s, q, CleanupOf(s, q).recoverPrevious, CleanupOf(s, q).cancelActions)
    case Look =>
      if !CleanupOf(s, q).Looking? then s else
        var row := CleanupOf(s, q).row;
        if row.name !in s.containers then WithCleanup(s, q, if row.phase == Starting then Off else Closing(row))
        else if row.run != q && (row.phase != Live || s.containers[row.name] != Exited) then WithCleanup(s, q, Off)
        else WithCleanup(s, q, Removing(row))
    case Remove =>
      if !CleanupOf(s, q).Removing? then s else
        var row := CleanupOf(s, q).row;
        WithCleanup(s.(containers := s.containers - {row.name}), q, Rechecking(row))
    case Recheck =>
      if !CleanupOf(s, q).Rechecking? then s else
        var row := CleanupOf(s, q).row;
        WithCleanup(s, q, if row.name in s.containers then Off else Closing(row))
    case CloseRow(cancelActions) =>
      if !CleanupOf(s, q).Closing? then s else
        var row := CleanupOf(s, q).row;
        var s' := s.(store := Close(s.store, SCOPE, row.run, cancelActions).0);
        // A handler waits for the clean-up of its own run, never for the recovery of another's.
        if row.run == q then Succeeded(s', q) else WithCleanup(s', q, Off)
    case GiveUp => WithCleanup(s, q, Off)
  }

  ghost function NextWorld(s: State, step: WorldStep): State {
    match step
    case DaemonCreates(n) =>
      if n !in s.requested then s else
        s.(requested := s.requested - {n}, made := s.made + {n}, containers := s.containers[n := Made])
    case DaemonRefuses(n) => s.(requested := s.requested - {n})
    case Watchdog(n) =>
      if n in s.containers && s.containers[n] == Up then s.(containers := s.containers[n := Exited]) else s
    case Crash(q) => WithCleanup(WithExec(s, q, Idle), q, Off)
    case End(q) => s.(ended := s.ended + {q})
    case OtherCall(c) => if LeavesBrowser(c) then s.(store := Perform(s.store, c).0) else s
  }

  ghost function Next(s: State, step: Step): State {
    match step
    case Act(q, act) => NextExec(s, q, act)
    case CleanUp(q, clean) => NextCleanup(s, q, clean)
    case World(world) => NextWorld(s, world)
  }

  ghost function Execute(s: State, steps: seq<Step>): State
    decreases |steps|
  {
    if steps == [] then s else Execute(Next(s, steps[0]), steps[1..])
  }

  ghost function Start(store: Store): State { State(store, map[], {}, {}, {}, map[], map[], map[], {}) }

  // ---- safety

  /** A closed (or absent) row means no container exists or can still be created; at most one ever does. */
  ghost predicate Safe(s: State) {
    && (!Open(s) ==> s.containers == map[] && s.requested == {})
    && |s.containers.Keys + s.requested| <= 1
  }

  /** A close names only the run: it hits whatever row of that run is open, confirmed or not. */
  ghost predicate HitsAnotherRow(s: State, step: Step) {
    && step.CleanUp? && step.clean.CloseRow? && CleanupOf(s, step.q).Closing?
    && Open(s) && Row(s).run == CleanupOf(s, step.q).row.run && Row(s).name != CleanupOf(s, step.q).row.name
  }

  /** The open row stands for a container: one that exists, was requested, or is about to be. */
  ghost predicate RowIsInUse(s: State)
    requires Open(s)
  {
    Row(s).name in s.containers || Row(s).name in s.requested || ExecOf(s, Row(s).run) == Reserved(Row(s).name)
  }

  ghost predicate Endangers(s: State, step: Step) { HitsAnotherRow(s, step) && RowIsInUse(s) }

  // ---- what every step keeps, but for a close that endangers a container

  ghost predicate OnlyTheRow(s: State) {
    && (forall n | n in s.containers :: Open(s) && Row(s).name == n)
    && (forall n | n in s.requested :: Open(s) && Row(s).name == n)
    && s.requested !! s.made && s.containers.Keys <= s.made
    && (Open(s) ==> Row(s).name in s.used && (Row(s).phase == Live ==> Row(s).name in s.made))
    && s.made <= s.used && s.requested <= s.used
  }

  ghost predicate ExecFits(s: State, q: string, e: Exec) {
    match e
    case Reserved(n) =>
      && Open(s) && Row(s).run == q && Row(s).name == n && Row(s).phase == Starting
      && n !in s.made && n !in s.requested
    case Creating(n) => Open(s) && Row(s).run == q ==> Row(s).name == n
    case Cleaned => !(Open(s) && Row(s).run == q)
    case _ => true
  }

  ghost predicate ExecKnows(s: State, q: string) { ExecFits(s, q, ExecOf(s, q)) }

  ghost predicate RowIsKnown(s: State, row: Session) {
    row.phase != Closed && (row.phase == Live ==> row.name in s.made)
  }

  ghost predicate CleanupFits(s: State, c: Cleanup) {
    match c
    case Off => true
    case Draining(_, _) => true
    case Looking(row) => RowIsKnown(s, row)
    case Removing(row) => RowIsKnown(s, row) && row.name in s.made
    case Rechecking(row) => RowIsKnown(s, row) && row.name in s.made
    case Closing(row) => RowIsKnown(s, row) && row.name in s.made && row.name !in s.containers
  }

  ghost predicate CleanupKnows(s: State, q: string) { CleanupFits(s, CleanupOf(s, q)) }

  ghost predicate Facts(s: State, q: string) { OnlyTheRow(s) && ExecKnows(s, q) && CleanupKnows(s, q) }

  ghost predicate Inv(s: State) { forall q :: Facts(s, q) }

  lemma InvIsSafe(s: State)
    requires Inv(s)
    ensures Safe(s)
  {
    assert Facts(s, "");
    if Open(s) {
      assert s.containers.Keys + s.requested <= {Row(s).name};
      Singleton(s.containers.Keys + s.requested, Row(s).name);
    } else {
      assert s.containers.Keys + s.requested == {};
    }
  }

  lemma Singleton(names: set<string>, n: string)
    requires names <= {n}
    ensures |names| <= 1
  {
    if names != {} { assert names == {n}; }
  }

  // ---- what the transactions do to the session row

  /** Other transactions do not touch the session row. */
  lemma OtherCallsLeaveSession(s: Store, c: Call)
    requires LeavesBrowser(c)
    ensures SCOPE in Perform(s, c).0.sessions <==> SCOPE in s.sessions
    ensures SCOPE in s.sessions ==> Perform(s, c).0.sessions[SCOPE] == s.sessions[SCOPE]
  {
    hide HasCapacity, OperationBusy, ActionBusy;
  }

  lemma ActionsLeaveSessions(s: Store, k: Key, q: string, request: string, taint: Option<Encoding>, step: ExecStep)
    ensures AdmitAction(s, k, q, request, taint).0.sessions == s.sessions
    ensures step.Complete? ==>
              FinishAction(s, k, q, step.output, step.evidence, step.profile, step.merge).0.sessions == s.sessions
  {
    hide HasCapacity, OperationBusy, ActionBusy;
  }

  lemma CreatedEffect(s: Store, q: string, identity: string)
    ensures var (s', r) := SessionCreated(s, SCOPE, q, identity);
            r.Accepted? ==>
              && SCOPE in s.sessions && s.sessions[SCOPE].run == q && s.sessions[SCOPE].phase == Starting
              && s'.sessions == s.sessions[SCOPE := s.sessions[SCOPE].(container := Some(identity), phase := Live)]
  {
  }

  lemma AdmitEffect(s: Store, q: string, operation: string, name: string, daemon: string)
    ensures AdmitSession(s, Key(SCOPE, operation), q, name, daemon).1.Accepted? ==>
              (SCOPE in s.sessions ==> s.sessions[SCOPE].phase == Closed)
              && AdmitSession(s, Key(SCOPE, operation), q, name, daemon).0.sessions
                 == s.sessions[SCOPE := Session(q, name, daemon, None, Starting)]
  {
  }

  lemma CloseEffect(s: Store, q: string, cancelActions: bool)
    ensures Close(s, SCOPE, q, cancelActions).0.sessions ==
            if SCOPE in s.sessions && s.sessions[SCOPE].run == q
            then s.sessions[SCOPE := s.sessions[SCOPE].(phase := Closed)]
            else s.sessions
  {
  }

  // ---- the action thread

  lemma ActionKeepsFacts(s: State, q: string, step: ExecStep, p: string)
    requires step.Take? || step.Complete?
    requires Facts(s, q) && Facts(s, p)
    ensures Facts(NextExec(s, q, step), p)
  {
    hide AdmitAction, FinishAction;
    var k := Key(SCOPE, if step.Take? then step.operation else if q in s.holding then s.holding[q] else "");
    ActionsLeaveSessions(s.store, k, q, if step.Take? then step.request else "",
                         if step.Take? then step.taint else None, step);
  }

  lemma ReserveKeepsFacts(s: State, q: string, step: ExecStep, p: string)
    requires step.Reserve?
    requires Facts(s, q) && Facts(s, p)
    ensures Facts(NextExec(s, q, step), p)
  {
    hide AdmitSession;
    if q in s.holding { AdmitEffect(s.store, q, s.holding[q], step.name, step.daemon); }
  }

  lemma RecordKeepsFacts(s: State, q: string, step: ExecStep, p: string)
    requires step.Record?
    requires Facts(s, q) && Facts(s, p)
    ensures Facts(NextExec(s, q, step), p)
  {
    hide SessionCreated;
    if ExecOf(s, q).Creating? { CreatedEffect(s.store, q, ExecOf(s, q).name); }
  }

  lemma CloseAgainKeepsFacts(s: State, q: string, step: ExecStep, p: string)
    requires step.CloseAgain?
    requires Facts(s, q) && Facts(s, p)
    ensures Facts(NextExec(s, q, step), p)
  {
    hide Close;
    CloseEffect(s.store, q, true);
  }

  /** Moving the action thread keeps the facts if the new place is right about the row. */
  lemma MovingExecKeepsFacts(s: State, q: string, e: Exec, p: string)
    requires Facts(s, p) && ExecFits(s, q, e)
    ensures Facts(WithExec(s, q, e), p)
  {
    assert CleanupOf(WithExec(s, q, e), p) == CleanupOf(s, p);
  }

  lemma SendKeepsFacts(s: State, q: string, p: string)
    requires Facts(s, q) && Facts(s, p)
    ensures Facts(NextExec(s, q, SendCreate), p)
  {
  }

  lemma LaunchKeepsFacts(s: State, q: string, p: string)
    requires Facts(s, p)
    ensures Facts(NextExec(s, q, Launch), p)
  {
    hide Facts;
    if ExecOf(s, q).Recorded? {
      var n := ExecOf(s, q).name;
      if n in s.containers {
        assert Facts(s.(containers := s.containers[n := Up]), p) by { StartingKeepsFacts(s, n, p); }
        MovingExecKeepsFacts(s.(containers := s.containers[n := Up]), q, Serving, p);
      } else {
        MovingExecKeepsFacts(s, q, Handling, p);
      }
    }
  }

  lemma StartingKeepsFacts(s: State, n: string, p: string)
    requires Facts(s, p) && n in s.containers
    ensures Facts(s.(containers := s.containers[n := Up]), p)
  {
    assert s.containers[n := Up].Keys == s.containers.Keys;
  }

  lemma LeavingKeepsFacts(s: State, q: string, step: ExecStep, p: string)
    requires step.Fail? || step.Abandon?
    requires Facts(s, p)
    ensures Facts(NextExec(s, q, step), p)
  {
    hide Facts;
    MovingExecKeepsFacts(s, q, if step.Fail? then Handling else Idle, p);
  }

  lemma ExecKeepsFacts(s: State, q: string, step: ExecStep, p: string)
    requires Facts(s, q) && Facts(s, p)
    ensures Facts(NextExec(s, q, step), p)
  {
    hide Facts, NextExec;
    match step
    case Take(_, _, _) => ActionKeepsFacts(s, q, step, p);
    case Complete(_, _, _, _) => ActionKeepsFacts(s, q, step, p);
    case Reserve(_, _) => ReserveKeepsFacts(s, q, step, p);
    case Record => RecordKeepsFacts(s, q, step, p);
    case CloseAgain => CloseAgainKeepsFacts(s, q, step, p);
    case SendCreate => SendKeepsFacts(s, q, p);
    case Launch => LaunchKeepsFacts(s, q, p);
    case Fail => LeavingKeepsFacts(s, q, step, p);
    case Abandon => LeavingKeepsFacts(s, q, step, p);
  }

  // ---- the clean-up thread

  /** Moving the clean-up thread keeps the facts if the row it holds is known. */
  lemma MovingCleanupKeepsFacts(s: State, q: string, c: Cleanup, p: string)
    requires Facts(s, p) && CleanupFits(s, c)
    ensures Facts(WithCleanup(s, q, c), p)
  {
    assert ExecOf(WithCleanup(s, q, c), p) == ExecOf(s, p);
  }

  lemma LookKeepsFacts(s: State, q: string, p: string)
    requires Facts(s, q) && Facts(s, p)
    ensures Facts(NextCleanup(s, q, Look), p)
  {
    if CleanupOf(s, q).Looking? {
      assert s.containers.Keys <= s.made && CleanupKnows(s, q);
      var row := CleanupOf(s, q).row;
      hide Facts;
      MovingCleanupKeepsFacts(s, q, Off, p);
      if row.name in s.containers {
        MovingCleanupKeepsFacts(s, q, Removing(row), p);
      } else if row.phase != Starting {
        MovingCleanupKeepsFacts(s, q, Closing(row), p);
      }
    }
  }

  lemma RemoveKeepsFacts(s: State, q: string, p: string)
    requires Facts(s, q) && Facts(s, p)
    ensures Facts(NextCleanup(s, q, Remove), p)
  {
  }

  lemma RecheckKeepsFacts(s: State, q: string, p: string)
    requires Facts(s, q) && Facts(s, p)
    ensures Facts(NextCleanup(s, q, Recheck), p)
  {
    if CleanupOf(s, q).Rechecking? {
      var row := CleanupOf(s, q).row;
      hide Facts;
      MovingCleanupKeepsFacts(s, q, if row.name in s.containers then Off else Closing(row), p);
    }
  }

  lemma ReleaseKeepsFacts(s: State, q: string, p: string)
    requires Facts(s, p)
    ensures Facts(Released(s, q), p) && Released(s, q).store == s.store
  {
    hide Facts;
    MovingExecKeepsFacts(s, q, Idle, p);
    MovingExecKeepsFacts(s, q, Broken, p);
  }

  lemma CloseUnopenedKeepsFacts(s: State, q: string, cancelActions: bool, p: string)
    requires Facts(s, p) && !Open(s)
    ensures !Open(s.(store := Close(s.store, SCOPE, q, cancelActions).0))
    ensures Facts(s.(store := Close(s.store, SCOPE, q, cancelActions).0), p)
  {
    hide Close;
    CloseEffect(s.store, q, cancelActions);
  }

  lemma DoneKeepsFacts(s: State, q: string, p: string, mine: bool)
    requires Facts(s, p) && (mine ==> !(Open(s) && Row(s).run == q))
    ensures Facts(if mine then Succeeded(s, q) else WithCleanup(s, q, Off), p)
  {
    hide Facts;
    MovingCleanupKeepsFacts(s, q, Off, p);
    if mine {
      MovingExecKeepsFacts(s, q, Cleaned, p);
      MovingCleanupKeepsFacts(WithExec(s, q, Cleaned), q, Off, p);
    }
  }

  lemma ReadRowKeepsFacts(s: State, q: string, recoverPrevious: bool, cancelActions: bool, p: string)
    requires Facts(s, p)
    ensures Facts(ReadRow(s, q, recoverPrevious, cancelActions), p)
  {
    hide Succeeded, Close;
    if !Open(s) {
      CloseUnopenedKeepsFacts(s, q, cancelActions, p);
      hide Facts;
      DoneKeepsFacts(s.(store := Close(s.store, SCOPE, q, cancelActions).0), q, p, true);
    } else {
      MovingCleanupKeepsFacts(s, q, if Row(s).run == q || recoverPrevious then Looking(Row(s)) else Off, p);
    }
  }

  lemma BeginKeepsFacts(s: State, q: string, step: CleanupStep, p: string)
    requires step.Begin? || step.Read?
    requires Facts(s, q) && Facts(s, p)
    ensures Facts(NextCleanup(s, q, step), p)
  {
    hide Facts, ReadRow, Released;
    if step.Begin? {
      ReleaseKeepsFacts(s, q, p);
      MovingCleanupKeepsFacts(Released(s, q), q, Draining(step.recoverPrevious, step.cancelActions), p);
    } else if CleanupOf(s, q).Draining? {
      ReadRowKeepsFacts(s, q, CleanupOf(s, q).recoverPrevious, CleanupOf(s, q).cancelActions, p);
    }
  }

  /** The store after the close that a confirmed clean-up makes. */
  ghost function Closed'(s: State, q: string, cancelActions: bool): State
    requires CleanupOf(s, q).Closing?
  {
    s.(store := Close(s.store, SCOPE, CleanupOf(s, q).row.run, cancelActions).0)
  }

  lemma CloseKeepsFacts(s: State, q: string, step: CleanupStep, p: string)
    requires step.CloseRow? && CleanupOf(s, q).Closing? && !Endangers(s, CleanUp(q, step))
    requires Facts(s, q) && Facts(s, p) && Facts(s, CleanupOf(s, q).row.run)
    ensures Facts(Closed'(s, q, step.cancelActions), p)
    ensures var run := CleanupOf(s, q).row.run;
            !(Open(Closed'(s, q, step.cancelActions)) && Row(Closed'(s, q, step.cancelActions)).run == run)
  {
    hide Close;
    CloseEffect(s.store, CleanupOf(s, q).row.run, step.cancelActions);
  }

  lemma CloseRowKeepsFacts(s: State, q: string, step: CleanupStep, p: string)
    requires step.CloseRow? && !Endangers(s, CleanUp(q, step)) && Inv(s)
    ensures Facts(NextCleanup(s, q, step), p)
  {
    hide Facts, Succeeded, Endangers;
    assert Facts(s, q) && Facts(s, p);
    if CleanupOf(s, q).Closing? {
      var run := CleanupOf(s, q).row.run;
      assert Facts(s, run);
      CloseKeepsFacts(s, q, step, p);
      DoneKeepsFacts(Closed'(s, q, step.cancelActions), q, p, run == q);
    }
  }

  lemma CleanupKeepsFacts(s: State, q: string, step: CleanupStep, p: string)
    requires Inv(s) && !Endangers(s, CleanUp(q, step))
    ensures Facts(NextCleanup(s, q, step), p)
  {
    hide Facts, Endangers;
    assert Facts(s, q) && Facts(s, p);
    match step
    case Begin(_, _) => BeginKeepsFacts(s, q, step, p);
    case Read => BeginKeepsFacts(s, q, step, p);
    case CloseRow(_) => CloseRowKeepsFacts(s, q, step, p);
    case Look => LookKeepsFacts(s, q, p);
    case GiveUp => MovingCleanupKeepsFacts(s, q, Off, p);
    case Remove => RemoveKeepsFacts(s, q, p);
    case Recheck => RecheckKeepsFacts(s, q, p);
  }

  lemma WorldKeepsFacts(s: State, step: WorldStep, p: string)
    requires Facts(s, p)
    ensures Facts(NextWorld(s, step), p)
  {
    hide Perform, LeavesBrowser;
    if step.OtherCall? && LeavesBrowser(step.call) { OtherCallsLeaveSession(s.store, step.call); }
  }

  lemma NextKeepsInv(s: State, step: Step)
    requires Inv(s) && !Endangers(s, step)
    ensures Inv(Next(s, step))
  {
    hide Facts, NextExec, NextCleanup, NextWorld, Endangers;
    forall p ensures Facts(Next(s, step), p) {
      assert Facts(s, p);
      match step {
        case Act(q, act) =>
          assert Facts(s, q);
          ExecKeepsFacts(s, q, act, p);
        case CleanUp(q, clean) => CleanupKeepsFacts(s, q, clean, p);
        case World(world) => WorldKeepsFacts(s, world, p);
      }
    }
  }

  // ---- exactly when runs are safe

  ghost predicate NoneEndangers(s: State, steps: seq<Step>)
    decreases |steps|
  {
    steps == [] || (!Endangers(s, steps[0]) && NoneEndangers(Next(s, steps[0]), steps[1..]))
  }

  /** Safe, and still safe if the action thread of any run sends a create request it has reserved. */
  ghost predicate Secure(s: State) { Safe(s) && forall q: string :: Safe(Next(s, Act(q, SendCreate))) }

  /** Every state of the run, the first and the last included, is secure. */
  ghost predicate AlwaysSecure(s: State, steps: seq<Step>)
    decreases |steps|
  {
    Secure(s) && (steps == [] || AlwaysSecure(Next(s, steps[0]), steps[1..]))
  }

  lemma InvIsSecure(s: State)
    requires Inv(s)
    ensures Secure(s)
  {
    hide Inv, Safe, Next, Endangers;
    InvIsSafe(s);
    forall q: string ensures Safe(Next(s, Act(q, SendCreate))) {
      assert !Endangers(s, Act(q, SendCreate)) by { OnlyClosesEndanger(s, Act(q, SendCreate)); }
      NextKeepsInv(s, Act(q, SendCreate));
      InvIsSafe(Next(s, Act(q, SendCreate)));
    }
  }

  lemma OnlyClosesEndanger(s: State, step: Step)
    requires !step.CleanUp?
    ensures !Endangers(s, step)
  {
  }

  /** A close over the row of another container leaves that container, or one about to be requested, without a row. */
  lemma EndangeredIsNotSecure(s: State, step: Step)
    requires Inv(s) && Endangers(s, step)
    ensures !Secure(Next(s, step))
  {
    var q, row := step.q, CleanupOf(s, step.q).row;
    var n, run := Row(s).name, row.run;
    var s' := Next(s, step);
    assert Facts(s, run);
    hide Close, Facts, Inv;
    CloseEffect(s.store, run, step.clean.cancelActions);
    assert !Open(s');
    if n in s.containers || n in s.requested {
      assert !Safe(s');
    } else {
      assert ExecOf(s', run) == Reserved(n);
      var later := Next(s', Act(run, SendCreate));
      assert n in later.requested && !Open(later);
      assert !Safe(later);
    }
  }

  /**
   * For every interleaving of controllers, daemon, watchdog and crashes: all states are safe, and stay so if reserved
   * create requests are sent, exactly when no close hits an open row in use other than the one its controller
   * confirmed.
   */
  lemma {:induction false} SafeExactlyWhenNoneEndangers(s: State, steps: seq<Step>)
    requires Inv(s)
    ensures AlwaysSecure(s, steps) <==> NoneEndangers(s, steps)
    decreases |steps|
  {
    hide Inv, Next, Secure, Endangers;
    InvIsSecure(s);
    if steps != [] {
      if Endangers(s, steps[0]) {
        EndangeredIsNotSecure(s, steps[0]);
      } else {
        NextKeepsInv(s, steps[0]);
        SafeExactlyWhenNoneEndangers(Next(s, steps[0]), steps[1..]);
      }
    }
  }

  ghost predicate ClosesConfirmed(s: State, steps: seq<Step>)
    decreases |steps|
  {
    steps == [] || (!HitsAnotherRow(s, steps[0]) && ClosesConfirmed(Next(s, steps[0]), steps[1..]))
  }

  lemma {:induction false} ConfirmedEndangersNone(s: State, steps: seq<Step>)
    requires ClosesConfirmed(s, steps)
    ensures NoneEndangers(s, steps)
    decreases |steps|
  {
    hide Next, HitsAnotherRow, RowIsInUse;
    if steps != [] { ConfirmedEndangersNone(Next(s, steps[0]), steps[1..]); }
  }

  lemma {:induction false} SecureToTheEnd(s: State, steps: seq<Step>)
    requires AlwaysSecure(s, steps)
    ensures Safe(Execute(s, steps))
    decreases |steps|
  {
    hide Next, Safe;
    if steps != [] { SecureToTheEnd(Next(s, steps[0]), steps[1..]); }
  }

  lemma StartsInvariant(store: Store)
    requires !Open(Start(store))
    ensures Inv(Start(store))
  {
  }

  /**
   * While every close finds no row of its run but the confirmed one, a closed row has no container, and at most one
   * exists.
   */
  lemma ConfirmedClosesAreSafe(store: Store, steps: seq<Step>)
    requires !Open(Start(store)) && ClosesConfirmed(Start(store), steps)
    ensures Safe(Execute(Start(store), steps))
  {
    hide Inv, ClosesConfirmed, NoneEndangers, AlwaysSecure, Safe;
    StartsInvariant(store);
    ConfirmedEndangersNone(Start(store), steps);
    SafeExactlyWhenNoneEndangers(Start(store), steps);
    SecureToTheEnd(Start(store), steps);
  }

  // ---- a discipline that suffices

  /** Only an ended run's session is recovered by another run, and an ended run opens no browser again. */
  ghost predicate Disciplined(s: State, step: Step) {
    && (step.Act? && step.act.Reserve? ==> step.q !in s.ended)
    && (step.CleanUp? && step.clean.Read? && CleanupOf(s, step.q).Draining? && CleanupOf(s, step.q).recoverPrevious
        && Open(s) && Row(s).run != step.q ==>
          Row(s).run in s.ended)
  }

  ghost predicate DisciplinedRun(s: State, steps: seq<Step>)
    decreases |steps|
  {
    steps == [] || (Disciplined(s, steps[0]) && DisciplinedRun(Next(s, steps[0]), steps[1..]))
  }

  predicate HasRow(c: Cleanup) { !c.Off? && !c.Draining? }

  /** A clean-up of another run's row is about an ended run; one of its own run's row finds that row open. */
  ghost predicate Follows(s: State, q: string) {
    HasRow(CleanupOf(s, q)) ==>
      var row := CleanupOf(s, q).row;
      && (row.run != q ==> row.run in s.ended)
      && (row.run == q ==> q in s.ended || (Open(s) && Row(s).run == q))
      && (Open(s) && Row(s).run == row.run ==> Row(s).name == row.name)
  }

  ghost predicate Tracked(s: State) { forall q :: Follows(s, q) }

  lemma ReserveKeepsFollows(s: State, q: string, step: ExecStep, p: string)
    requires step.Reserve? && q !in s.ended && Follows(s, p)
    ensures Follows(NextExec(s, q, step), p)
  {
    hide AdmitSession;
    if q in s.holding { AdmitEffect(s.store, q, s.holding[q], step.name, step.daemon); }
  }

  lemma RecordKeepsFollows(s: State, q: string, step: ExecStep, p: string)
    requires step.Record? && Follows(s, p)
    ensures Follows(NextExec(s, q, step), p)
  {
    hide SessionCreated;
    if ExecOf(s, q).Creating? { CreatedEffect(s.store, q, ExecOf(s, q).name); }
  }

  lemma CloseAgainKeepsFollows(s: State, q: string, step: ExecStep, p: string)
    requires step.CloseAgain? && ExecKnows(s, q) && Follows(s, p)
    ensures Follows(NextExec(s, q, step), p)
  {
    hide Close;
    CloseEffect(s.store, q, true);
  }

  lemma ActionKeepsFollows(s: State, q: string, step: ExecStep, p: string)
    requires !step.Reserve? && !step.Record? && !step.CloseAgain? && Follows(s, p)
    ensures Follows(NextExec(s, q, step), p)
  {
    hide AdmitAction, FinishAction;
    var k := Key(SCOPE, if step.Take? then step.operation else if q in s.holding then s.holding[q] else "");
    ActionsLeaveSessions(s.store, k, q, if step.Take? then step.request else "",
                         if step.Take? then step.taint else None, step);
  }

  lemma ExecKeepsFollows(s: State, q: string, step: ExecStep, p: string)
    requires Disciplined(s, Act(q, step)) && ExecKnows(s, q) && Follows(s, p)
    ensures Follows(NextExec(s, q, step), p)
  {
    hide NextExec, Follows, ExecKnows;
    match step
    case Reserve(_, _) => ReserveKeepsFollows(s, q, step, p);
    case Record => RecordKeepsFollows(s, q, step, p);
    case CloseAgain => CloseAgainKeepsFollows(s, q, step, p);
    case _ => ActionKeepsFollows(s, q, step, p);
  }

  lemma ReleaseKeepsFollows(s: State, q: string, p: string)
    requires Follows(s, p)
    ensures Follows(Released(s, q), p)
    ensures Released(s, q).store == s.store && Released(s, q).ended == s.ended && Released(s, q).cleanup == s.cleanup
  {
  }

  lemma BeginKeepsFollows(s: State, q: string, step: CleanupStep, p: string)
    requires (step.Begin? || step.Read?) && Disciplined(s, CleanUp(q, step)) && Follows(s, p)
    ensures Follows(NextCleanup(s, q, step), p)
  {
    hide Close, Released;
    if step.Begin? {
      ReleaseKeepsFollows(s, q, p);
    } else if CleanupOf(s, q).Draining? {
      CloseEffect(s.store, q, CleanupOf(s, q).cancelActions);
    }
  }

  /** Closing a row of another run leaves what `p` follows, for if the row is of `p` itself then `p` has ended. */
  lemma ClosingKeepsFollows(s: State, s': State, p: string, run: string, cancelActions: bool)
    requires Follows(s, p) && (run == p ==> p in s.ended)
    requires s'.store == Close(s.store, SCOPE, run, cancelActions).0
    requires s'.ended == s.ended && CleanupOf(s', p) == CleanupOf(s, p)
    ensures Follows(s', p)
  {
    hide Close, CleanupOf;
    CloseEffect(s.store, run, cancelActions);
  }

  lemma CloseRowKeepsFollows(s: State, q: string, step: CleanupStep, p: string)
    requires step.CloseRow? && Follows(s, q) && Follows(s, p)
    ensures Follows(NextCleanup(s, q, step), p)
  {
    hide Close, Open;
    if CleanupOf(s, q).Closing? {
      var s', run := NextCleanup(s, q, step), CleanupOf(s, q).row.run;
      if p == q {
        assert CleanupOf(s', p) == Off;
      } else {
        assert run == p ==> p in s.ended;
        hide Follows;
        ClosingKeepsFollows(s, s', p, run, step.cancelActions);
      }
    }
  }

  /** A clean-up that goes on keeps the row it read. */
  lemma MovingKeepsFollows(s: State, q: string, c: Cleanup, p: string)
    requires Follows(s, q) && Follows(s, p)
    requires HasRow(c) ==> HasRow(CleanupOf(s, q)) && c.row == CleanupOf(s, q).row
    ensures Follows(WithCleanup(s, q, c), p)
  {
  }

  lemma RemoveKeepsFollows(s: State, q: string, p: string)
    requires Follows(s, q) && Follows(s, p)
    ensures Follows(NextCleanup(s, q, Remove), p)
  {
  }

  lemma CleanupKeepsFollows(s: State, q: string, step: CleanupStep, p: string)
    requires Disciplined(s, CleanUp(q, step)) && Follows(s, q) && Follows(s, p)
    ensures Follows(NextCleanup(s, q, step), p)
  {
    if step.Begin? || step.Read? {
      BeginKeepsFollows(s, q, step, p);
    } else if step.CloseRow? {
      CloseRowKeepsFollows(s, q, step, p);
    } else if step.Remove? {
      RemoveKeepsFollows(s, q, p);
    } else {
      hide Follows;
      MovingKeepsFollows(s, q, CleanupOf(NextCleanup(s, q, step), q), p);
    }
  }

  lemma WorldKeepsFollows(s: State, step: WorldStep, p: string)
    requires Follows(s, p)
    ensures Follows(NextWorld(s, step), p)
  {
    hide Perform, LeavesBrowser;
    if step.OtherCall? && LeavesBrowser(step.call) { OtherCallsLeaveSession(s.store, step.call); }
  }

  lemma NextKeepsTracked(s: State, step: Step)
    requires Inv(s) && Tracked(s) && Disciplined(s, step)
    ensures Tracked(Next(s, step))
  {
    hide Follows, NextExec, NextCleanup, NextWorld, Disciplined, OnlyTheRow, ExecKnows, CleanupKnows;
    forall p ensures Follows(Next(s, step), p) {
      assert Follows(s, p);
      match step {
        case Act(q, act) =>
          assert Facts(s, q);
          ExecKeepsFollows(s, q, act, p);
        case CleanUp(q, clean) =>
          assert Follows(s, q);
          CleanupKeepsFollows(s, q, clean, p);
        case World(world) => WorldKeepsFollows(s, world, p);
      }
    }
  }

  lemma {:induction false} DisciplinedClosesConfirmed(s: State, steps: seq<Step>)
    requires Inv(s) && Tracked(s) && DisciplinedRun(s, steps)
    ensures ClosesConfirmed(s, steps)
    decreases |steps|
  {
    hide Inv, Next, Disciplined;
    if steps != [] {
      var step := steps[0];
      assert !HitsAnotherRow(s, step) by {
        if step.CleanUp? { assert Follows(s, step.q); }
      }
      hide HitsAnotherRow, RowIsInUse, Tracked;
      NextKeepsInv(s, step);
      NextKeepsTracked(s, step);
      DisciplinedClosesConfirmed(Next(s, step), steps[1..]);
    }
  }

  /** Under that discipline every close finds the row it confirmed, so every run is safe. */
  lemma DisciplinedRunIsSafe(store: Store, steps: seq<Step>)
    requires !Open(Start(store)) && DisciplinedRun(Start(store), steps)
    ensures ClosesConfirmed(Start(store), steps) && Safe(Execute(Start(store), steps))
  {
    StartsInvariant(store);
    hide Inv, ClosesConfirmed, DisciplinedRun, Safe;
    DisciplinedClosesConfirmed(Start(store), steps);
    ConfirmedClosesAreSafe(store, steps);
  }
}
