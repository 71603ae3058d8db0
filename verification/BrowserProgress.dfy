/** What an undisturbed clean-up and an undisturbed action achieve, from any state, and where they stop. */
module BrowserProgress {
  import opened Prelude
  import opened ComputerStore
  import opened StoreSafety
  import opened StoreHistory
  import opened StoreOutcomes
  import opened BrowserLifecycle
  import opened BrowserRemoval

  lemma ExecuteNext(s: State, steps: seq<Step>)
    requires steps != []
    ensures Execute(s, steps) == Execute(Next(s, steps[0]), steps[1..])
  {
  }

  lemma ExecuteNone(s: State)
    ensures Execute(s, []) == s
  {
  }

  // ---- a clean-up nobody disturbs

  ghost function CleanUpSteps(q: string, recoverPrevious: bool, cancelActions: bool): seq<Step> {
    [CleanUp(q, CleanupStep.Begin(recoverPrevious, cancelActions)), CleanUp(q, Read), CleanUp(q, Look),
     CleanUp(q, Remove), CleanUp(q, Recheck), CleanUp(q, CloseRow(cancelActions))]
  }

  lemma CleanUpUnfolds(s: State, q: string, recoverPrevious: bool, cancelActions: bool)
    ensures Execute(s, CleanUpSteps(q, recoverPrevious, cancelActions)) ==
            var s1 := NextCleanup(s, q, CleanupStep.Begin(recoverPrevious, cancelActions));
            var s3 := NextCleanup(NextCleanup(s1, q, Read), q, Look);
            NextCleanup(NextCleanup(NextCleanup(s3, q, Remove), q, Recheck), q, CloseRow(cancelActions))
  {
    hide Execute, NextCleanup;
    var steps := CleanUpSteps(q, recoverPrevious, cancelActions);
    var s1 := Next(s, steps[0]);
    var s2 := Next(s1, steps[1]);
    var s3 := Next(s2, steps[2]);
    var s4 := Next(s3, steps[3]);
    var s5 := Next(s4, steps[4]);
    var s6 := Next(s5, steps[5]);
    ExecuteNext(s, steps);
    ExecuteNext(s1, steps[1..]);
    ExecuteNext(s2, steps[2..]);
    ExecuteNext(s3, steps[3..]);
    ExecuteNext(s4, steps[4..]);
    ExecuteNext(s5, steps[5..]);
    ExecuteNone(s6);
    assert steps[1..][1..] == steps[2..] && steps[2..][1..] == steps[3..] && steps[3..][1..] == steps[4..];
    assert steps[4..][1..] == steps[5..] && steps[5..][1..] == [];
  }

  /** The row is of the clean-up's own run, or one it may recover: live, with its container gone or exited. */
  ghost predicate MayClose(s: State, q: string, recoverPrevious: bool)
    requires Open(s)
  {
    var row := Row(s);
    && (row.run == q || recoverPrevious)
    && if row.name in s.containers then row.run == q || (row.phase == Live && s.containers[row.name] == Exited)
       else row.phase == Live
  }

  /** The state in which the session's pipe is gone and everything else is as before. */
  lemma ReleasedKeeps(s: State, q: string)
    ensures var s' := Released(s, q);
            && s'.(exec := s.exec) == s && !HasPipe(s', q)
            && (forall p | p != q :: ExecOf(s', p) == ExecOf(s, p))
            && (!HasPipe(s, q) ==> s' == s) && (ExecOf(s, q) == Serving ==> ExecOf(s', q) == Broken)
  {
  }

  lemma BeginStep(s: State, q: string, recoverPrevious: bool, cancelActions: bool) returns (s': State)
    requires CleanupOf(s, q) == Off && !(recoverPrevious && HasPipe(s, q))
    ensures s' == NextCleanup(s, q, CleanupStep.Begin(recoverPrevious, cancelActions))
    ensures s'.store == s.store && s'.containers == s.containers && s'.holding == s.holding && !HasPipe(s', q)
    ensures CleanupOf(s', q) == Draining(recoverPrevious, cancelActions)
    ensures ExecOf(s, q) == Handling ==> ExecOf(s', q) == Handling
  {
    s' := NextCleanup(s, q, CleanupStep.Begin(recoverPrevious, cancelActions));
    ReleasedKeeps(s, q);
    hide Released;
  }

  lemma ReadStep(s: State, q: string) returns (s': State)
    requires CleanupOf(s, q).Draining? && Open(s)
    ensures s' == NextCleanup(s, q, Read) && s'.(cleanup := s.cleanup) == s
    ensures CleanupOf(s', q)
         == if Row(s).run == q || CleanupOf(s, q).recoverPrevious then Looking(Row(s)) else Off
  {
    hide Close, Succeeded;
    s' := NextCleanup(s, q, Read);
  }

  lemma LookStep(s: State, q: string) returns (s': State)
    ensures s' == NextCleanup(s, q, Look)
    ensures CleanupOf(s, q) == Off ==> s' == s
    ensures CleanupOf(s, q).Looking? ==>
              && s'.(cleanup := s.cleanup) == s
              && (Open(s) && Row(s) == CleanupOf(s, q).row ==>
                    var row := Row(s);
                    CleanupOf(s', q)
                    == if row.name !in s.containers then (if row.phase == Live then Closing(row) else Off)
                       else if row.run == q || (row.phase == Live && s.containers[row.name] == Exited)
                         then Removing(row)
                       else Off)
  {
    s' := NextCleanup(s, q, Look);
  }

  /** Up to the inspection: the pipe is dropped, the row read, the container found or not. */
  lemma LooksAtRow(s: State, q: string, recoverPrevious: bool, cancelActions: bool) returns (s3: State)
    requires Open(s) && CleanupOf(s, q) == Off && !(recoverPrevious && HasPipe(s, q))
    ensures var s1 := NextCleanup(s, q, CleanupStep.Begin(recoverPrevious, cancelActions));
            s3 == NextCleanup(NextCleanup(s1, q, Read), q, Look)
    ensures s3.store == s.store && s3.containers == s.containers && s3.holding == s.holding && !HasPipe(s3, q)
    ensures ExecOf(s, q) == Handling ==> ExecOf(s3, q) == Handling
    ensures var row := Row(s);
            CleanupOf(s3, q) == if !MayClose(s, q, recoverPrevious) then Off
                                else if row.name in s.containers then Removing(row) else Closing(row)
  {
    hide NextCleanup;
    var s1 := BeginStep(s, q, recoverPrevious, cancelActions);
    var s2 := ReadStep(s1, q);
    s3 := LookStep(s2, q);
  }

  lemma RemoveStep(s: State, q: string) returns (s': State)
    ensures s' == NextCleanup(NextCleanup(s, q, Remove), q, Recheck)
    ensures CleanupOf(s, q).Removing? ==>
              && s'.(containers := s.containers, cleanup := s.cleanup) == s
              && s'.containers == s.containers - {CleanupOf(s, q).row.name}
              && CleanupOf(s', q) == Closing(CleanupOf(s, q).row)
    ensures !CleanupOf(s, q).Removing? && !CleanupOf(s, q).Rechecking? ==> s' == s
  {
    s' := NextCleanup(NextCleanup(s, q, Remove), q, Recheck);
  }

  lemma CloseStep(s: State, q: string, cancelActions: bool) returns (s': State)
    requires CleanupOf(s, q).Closing?
    ensures s' == NextCleanup(s, q, CloseRow(cancelActions)) && CleanupOf(s', q) == Off
    ensures s'.containers == s.containers && s'.holding == s.holding && (!HasPipe(s, q) ==> !HasPipe(s', q))
    ensures s'.store == Close(s.store, SCOPE, CleanupOf(s, q).row.run, cancelActions).0
    ensures CleanupOf(s, q).row.run == q && ExecOf(s, q) == Handling ==> ExecOf(s', q) == Cleaned
  {
    hide Close;
    s' := NextCleanup(s, q, CloseRow(cancelActions));
  }

  /** From there to the close. */
  lemma ClosesRow(s: State, q: string, row: Session, cancelActions: bool) returns (s': State)
    requires Open(s) && Row(s) == row && !HasPipe(s, q)
    requires CleanupOf(s, q) == if row.name in s.containers then Removing(row) else Closing(row)
    ensures s' == NextCleanup(NextCleanup(NextCleanup(s, q, Remove), q, Recheck), q, CloseRow(cancelActions))
    ensures CleanupOf(s', q) == Off && !HasPipe(s', q) && s'.containers == s.containers - {row.name}
    ensures s'.holding == s.holding
    ensures s'.store == Close(s.store, SCOPE, row.run, cancelActions).0
    ensures row.run == q && ExecOf(s, q) == Handling ==> ExecOf(s', q) == Cleaned
  {
    hide Close, NextCleanup;
    var s2 := RemoveStep(s, q);
    assert row.name !in s.containers ==> s.containers - {row.name} == s.containers;
    s' := CloseStep(s2, q, cancelActions);
  }

  /** A clean-up that stopped takes none of its later steps. */
  lemma StoppedStays(s: State, q: string, cancelActions: bool)
    requires CleanupOf(s, q) == Off
    ensures NextCleanup(NextCleanup(NextCleanup(s, q, Remove), q, Recheck), q, CloseRow(cancelActions)) == s
  {
  }

  /**
   * An undisturbed clean-up closes the open row exactly when it may: then the row's container is gone, no other one
   * is touched, and a waiting handler of the run goes on. Otherwise store and containers are as they were.
   */
  lemma UndisturbedCleanUp(s: State, q: string, recoverPrevious: bool, cancelActions: bool)
    requires Open(s) && CleanupOf(s, q) == Off && !(recoverPrevious && HasPipe(s, q))
    ensures var s' := Execute(s, CleanUpSteps(q, recoverPrevious, cancelActions));
            var row := Row(s);
            && CleanupOf(s', q) == Off && !HasPipe(s', q) && s'.holding == s.holding
            && (Open(s') <==> !MayClose(s, q, recoverPrevious))
            && if MayClose(s, q, recoverPrevious) then
                 && s'.containers == s.containers - {row.name}
                 && s'.store == Close(s.store, SCOPE, row.run, cancelActions).0
                 && (row.run == q && ExecOf(s, q) == Handling ==> ExecOf(s', q) == Cleaned)
               else s'.containers == s.containers && s'.store == s.store
                    && (ExecOf(s, q) == Handling ==> ExecOf(s', q) == Handling)
  {
    CleanUpUnfolds(s, q, recoverPrevious, cancelActions);
    var row := Row(s);
    CloseEffect(s.store, row.run, cancelActions);
    var s3 := LooksAtRow(s, q, recoverPrevious, cancelActions);
    hide Execute, Close, NextCleanup;
    if MayClose(s, q, recoverPrevious) {
      var s' := ClosesRow(s3, q, row, cancelActions);
    } else {
      StoppedStays(s3, q, cancelActions);
    }
  }

  /** With no row open, it closes the run's own at once, and its actions if asked. */
  lemma CleanUpWithoutRow(s: State, q: string, recoverPrevious: bool, cancelActions: bool)
    requires !Open(s) && CleanupOf(s, q) == Off && !(recoverPrevious && HasPipe(s, q))
    ensures var s' := Execute(s, CleanUpSteps(q, recoverPrevious, cancelActions));
            && CleanupOf(s', q) == Off && !HasPipe(s', q) && s'.containers == s.containers
            && s'.holding == s.holding
            && s'.store == Close(s.store, SCOPE, q, cancelActions).0
            && (ExecOf(s, q) == Handling ==> ExecOf(s', q) == Cleaned)
  {
    CleanUpUnfolds(s, q, recoverPrevious, cancelActions);
    hide Execute, Close, NextCleanup;
    var s1 := BeginStep(s, q, recoverPrevious, cancelActions);
    var s2 := ReadNoRow(s1, q);
    var s3 := LookStep(s2, q);
    StoppedStays(s2, q, cancelActions);
  }

  lemma ReadNoRow(s: State, q: string) returns (s': State)
    requires CleanupOf(s, q).Draining? && !Open(s)
    ensures s' == NextCleanup(s, q, Read) && CleanupOf(s', q) == Off
    ensures s'.containers == s.containers && s'.holding == s.holding && (!HasPipe(s, q) ==> !HasPipe(s', q))
    ensures s'.store == Close(s.store, SCOPE, q, CleanupOf(s, q).cancelActions).0
    ensures ExecOf(s, q) == Handling ==> ExecOf(s', q) == Cleaned
  {
    hide Close;
    s' := NextCleanup(s, q, Read);
  }

  // ---- a command whose pipe is taken away

  /** Steps in which the run's own action thread neither fails nor dies. */
  predicate StaysInCommand(step: Step, q: string) {
    step != Act(q, Fail) && step != World(Crash(q))
  }

  lemma BrokenStays(s: State, step: Step, q: string)
    requires ExecOf(s, q) == Broken && StaysInCommand(step, q)
    ensures ExecOf(Next(s, step), q) == Broken
    ensures step.Act? && step.q == q ==> Next(s, step) == s
  {
    match step
    case Act(r, act) => BrokenTakesNoStep(s, r, act, q);
    case CleanUp(r, clean) => BrokenOutlastsCleanUps(s, r, clean, q);
    case World(_) => hide Perform;
  }

  lemma BrokenTakesNoStep(s: State, r: string, step: ExecStep, q: string)
    requires ExecOf(s, q) == Broken
    ensures r == q && step != Fail ==> NextExec(s, r, step) == s
    ensures r != q ==> ExecOf(NextExec(s, r, step), q) == Broken
  {
    hide AdmitAction, FinishAction, AdmitSession, SessionCreated, Close;
  }

  lemma BrokenOutlastsCleanUps(s: State, r: string, step: CleanupStep, q: string)
    requires ExecOf(s, q) == Broken
    ensures ExecOf(NextCleanup(s, r, step), q) == Broken
  {
    hide Close;
  }

  /**
   * Once a clean-up begins under a running command, that command cannot complete: until its thread fails or dies it
   * takes no step, so its receipt is not stored by it, and failing leads it to wait for the clean-up.
   */
  lemma {:induction false} CleanUpCutsOffTheCommand(s: State, q: string, recoverPrevious: bool, cancelActions: bool,
                                                    steps: seq<Step>, act: ExecStep)
    requires ExecOf(s, q) == Serving && CleanupOf(s, q) == Off && !recoverPrevious
    requires forall step | step in steps :: StaysInCommand(step, q)
    ensures var s' := Execute(Next(s, CleanUp(q, CleanupStep.Begin(recoverPrevious, cancelActions))), steps);
            && ExecOf(s', q) == Broken
            && (act != Fail ==> Next(s', Act(q, act)) == s')
            && ExecOf(Next(s', Act(q, Fail)), q) == Handling
  {
    var s1 := Next(s, CleanUp(q, CleanupStep.Begin(recoverPrevious, cancelActions)));
    assert ExecOf(s1, q) == Broken;
    StillBroken(s1, q, steps);
    var s' := Execute(s1, steps);
    assert ExecOf(Next(s', Act(q, Fail)), q) == Handling;
    hide Next, Execute;
    if act != Fail { BrokenStays(s', Act(q, act), q); }
  }

  lemma {:induction false} StillBroken(s: State, q: string, steps: seq<Step>)
    requires ExecOf(s, q) == Broken && forall step | step in steps :: StaysInCommand(step, q)
    ensures ExecOf(Execute(s, steps), q) == Broken
    decreases |steps|
  {
    hide Next;
    if steps != [] {
      BrokenStays(s, steps[0], q);
      StillBroken(Next(s, steps[0]), q, steps[1..]);
    }
  }

  // ---- an action nobody disturbs

  /** What one run does to serve an action with a new browser. */
  ghost function ServingSteps(q: string, name: string, daemon: string): seq<Step> {
    [Act(q, ExecStep.Reserve(name, daemon)), Act(q, SendCreate), World(DaemonCreates(name)), Act(q, Record),
     Act(q, Launch)]
  }

  lemma ServingUnfolds(s: State, q: string, name: string, daemon: string)
    ensures Execute(s, ServingSteps(q, name, daemon)) ==
            var s2 := NextExec(NextExec(s, q, ExecStep.Reserve(name, daemon)), q, SendCreate);
            NextExec(NextExec(NextWorld(s2, DaemonCreates(name)), q, Record), q, Launch)
  {
    hide Execute, NextExec, NextWorld;
    var steps := ServingSteps(q, name, daemon);
    var s1 := Next(s, steps[0]);
    var s2 := Next(s1, steps[1]);
    var s3 := Next(s2, steps[2]);
    var s4 := Next(s3, steps[3]);
    var s5 := Next(s4, steps[4]);
    ExecuteNext(s, steps);
    ExecuteNext(s1, steps[1..]);
    ExecuteNext(s2, steps[2..]);
    ExecuteNext(s3, steps[3..]);
    ExecuteNext(s4, steps[4..]);
    ExecuteNone(s5);
    assert steps[1..][1..] == steps[2..] && steps[2..][1..] == steps[3..] && steps[3..][1..] == steps[4..];
    assert steps[4..][1..] == [];
  }

  /** The run's thread holds the action's lock, and the action waits for its receipt. */
  ghost predicate HoldsAction(s: State, q: string, operation: string, request: string) {
    && q in s.holding && s.holding[q] == operation
    && ActionPending(s.store, Key(SCOPE, operation))
    && s.store.actions[Key(SCOPE, operation)] == Action(q, request, Pending) && SCOPE in s.store.workspaces
  }

  /** `execute` takes the lock exactly for an action that is admitted, and goes on from where its browser stands. */
  lemma TakenExactlyWhenAdmitted(s: State, q: string, operation: string, request: string, taint: Option<Encoding>)
    requires ExecOf(s, q) == Idle || ExecOf(s, q) == Ready
    ensures var (store, reply) := AdmitAction(s.store, Key(SCOPE, operation), q, request, taint);
            var s' := Next(s, Act(q, Take(operation, request, taint)));
            if reply == ActionAdmitted
              then s'.store == store && HoldsAction(s', q, operation, request) && s'.containers == s.containers
                   && s'.used == s.used && s'.made == s.made && s'.requested == s.requested
                   && ExecOf(s', q) == if ExecOf(s, q) == Idle then Entered else Serving
              else s' == s
  {
    ActionAdmittedExactlyWhen(s.store, Key(SCOPE, operation), q, request, taint);
    hide AdmitAction;
  }

  lemma SessionReserved(s: State, q: string, operation: string, request: string, name: string, daemon: string)
    requires ExecOf(s, q) == Entered && HoldsAction(s, q, operation, request) && !Open(s) && name !in s.used
    ensures var s' := NextExec(s, q, ExecStep.Reserve(name, daemon));
            && s'.(store := s.store, used := s.used, exec := s.exec) == s && ExecOf(s', q) == Reserved(name)
            && s'.store == s.store.(sessions := s.store.sessions[SCOPE := Session(q, name, daemon, None, Starting)])
  {
  }

  lemma SessionRecorded(s: State, q: string, name: string, daemon: string)
    requires ExecOf(s, q) == Exec.Creating(name) && name in s.made
    requires Open(s) && Row(s) == Session(q, name, daemon, None, Starting)
    ensures var s' := NextExec(s, q, Record);
            && s'.(store := s.store, exec := s.exec) == s && ExecOf(s', q) == Recorded(name)
            && s'.store == s.store.(sessions := s.store.sessions[SCOPE := Session(q, name, daemon, Some(name), Live)])
  {
  }

  /**
   * An admitted action with no browser open gets one of its own: it is reserved, created, recorded under its name and
   * started, and nothing else in store or daemon changes.
   */
  lemma ABrowserIsStarted(s: State, q: string, operation: string, request: string, name: string, daemon: string)
    returns (s': State)
    requires Fit(s) && ExecOf(s, q) == Entered && HoldsAction(s, q, operation, request) && !Open(s) && name !in s.used
    ensures s' == Execute(s, ServingSteps(q, name, daemon))
    ensures ExecOf(s', q) == Serving && HoldsAction(s', q, operation, request)
    ensures s'.containers == s.containers[name := Up]
    ensures Open(s') && Row(s') == Session(q, name, daemon, Some(name), Live)
    ensures s'.store.(sessions := s.store.sessions) == s.store
  {
    hide Execute, Fit, NextExec, NextWorld, HoldsAction, ServingSteps;
    ServingUnfolds(s, q, name, daemon);
    FreshNamesAreFree(s, name);
    var s3 := BrowserCreated(s, q, operation, request, name, daemon);
    s' := BrowserGoesLive(s3, q, name, daemon);
    assert s.containers[name := Made][name := Up] == s.containers[name := Up];
    SessionsKeepAction(s, s', q, operation, request);
  }

  lemma FreshNamesAreFree(s: State, name: string)
    requires Fit(s) && name !in s.used
    ensures name !in s.requested && name !in s.containers
  {
    assert FitFor(s, "");
  }

  /** From the daemon's answer on. */
  lemma BrowserGoesLive(s: State, q: string, name: string, daemon: string) returns (s': State)
    requires ExecOf(s, q) == Exec.Creating(name) && name in s.made && name in s.containers
    requires Open(s) && Row(s) == Session(q, name, daemon, None, Starting)
    ensures s' == NextExec(NextExec(s, q, Record), q, Launch)
    ensures ExecOf(s', q) == Serving && s'.containers == s.containers[name := Up] && s'.holding == s.holding
    ensures Open(s') && Row(s') == Session(q, name, daemon, Some(name), Live)
    ensures s'.store.(sessions := s.store.sessions) == s.store
  {
    hide NextExec;
    SessionRecorded(s, q, name, daemon);
    var s4 := NextExec(s, q, Record);
    assert s4.containers == s.containers && s4.holding == s.holding;
    BrowserLaunched(s4, q, name);
    s' := NextExec(s4, q, Launch);
  }

  /** A store that differs in its sessions only holds the action as before. */
  lemma SessionsKeepAction(s: State, s': State, q: string, operation: string, request: string)
    requires HoldsAction(s, q, operation, request) && s'.holding == s.holding
    requires s'.store.(sessions := s.store.sessions) == s.store
    ensures HoldsAction(s', q, operation, request)
  {
    assert s'.store.actions == s.store.actions && s'.store.workspaces == s.store.workspaces;
  }

  /** Up to the daemon's answer. */
  lemma BrowserCreated(s: State, q: string, operation: string, request: string, name: string, daemon: string)
    returns (s3: State)
    requires ExecOf(s, q) == Entered && HoldsAction(s, q, operation, request) && !Open(s) && name !in s.used
    requires name !in s.requested && name !in s.containers
    ensures s3 == NextWorld(NextExec(NextExec(s, q, ExecStep.Reserve(name, daemon)), q, SendCreate),
                            DaemonCreates(name))
    ensures ExecOf(s3, q) == Exec.Creating(name) && name in s3.made && s3.holding == s.holding
    ensures s3.store == s.store.(sessions := s.store.sessions[SCOPE := Session(q, name, daemon, None, Starting)])
    ensures s3.containers == s.containers[name := Made]
  {
    SessionReserved(s, q, operation, request, name, daemon);
    var s1 := NextExec(s, q, ExecStep.Reserve(name, daemon));
    hide AdmitSession;
    var s2 := NextExec(s1, q, SendCreate);
    assert s2.requested == s.requested + {name} && ExecOf(s2, q) == Exec.Creating(name) && s2.store == s1.store;
    s3 := NextWorld(s2, DaemonCreates(name));
  }

  lemma BrowserLaunched(s: State, q: string, name: string)
    requires ExecOf(s, q) == Recorded(name) && name in s.containers
    ensures var s' := NextExec(s, q, Launch);
            && ExecOf(s', q) == Serving && s'.containers == s.containers[name := Up]
            && s'.store == s.store && s'.holding == s.holding
  {
  }

  /**
   * A served action, or a failed one whose clean-up succeeded, stores its receipt with everything that goes with it;
   * what the store refuses leaves the action pending. Only a served one keeps its browser.
   */
  lemma ReceiptIsStored(s: State, q: string, operation: string, request: string, output: Bytes,
                        evidence: Option<Bytes>, profile: Option<Encoding>, merge: Option<Bytes -> Encoding>)
    requires HoldsAction(s, q, operation, request) && (ExecOf(s, q) == Serving || ExecOf(s, q) == Cleaned)
    ensures var k := Key(SCOPE, operation);
            var s' := Next(s, Act(q, Complete(output, evidence, profile, merge)));
            var fits := |output| <= MAX_RESULT && Size(evidence) <= MAX_BROWSER_EVIDENCE
                        && (profile.Some? ==> Within(profile.value, MAX_BROWSER_STATE))
                        && (merge.Some? ==> !OperationBusy(s.store, SCOPE)
                                            && Within(merge.value(s.store.workspaces[SCOPE]), MAX_ARCHIVE));
            && s'.containers == s.containers && s'.store.sessions == s.store.sessions
            && k in s'.store.actions
            && s'.store.actions[k] == Action(q, request, if fits then ActionDone(output, evidence) else Pending)
            && (!fits ==> s'.store == s.store)
            && ExecOf(s', q) == if ExecOf(s, q) == Cleaned then Idle else if fits then Ready else Handling
  {
    var k := Key(SCOPE, operation);
    var s' := Next(s, Act(q, Complete(output, evidence, profile, merge)));
    assert s' == NextComplete(s, q, output, evidence, profile, merge);
    hide Next, NextExec;
    ReceiptIsWritten(s.store, k, q, request, output, evidence, profile, merge);
    hide FinishAction, OperationBusy;
  }

  lemma ReceiptIsWritten(s: Store, k: Key, run: string, request: string, output: Bytes, evidence: Option<Bytes>,
                         profile: Option<Encoding>, merge: Option<Bytes -> Encoding>)
    requires ActionPending(s, k) && s.actions[k] == Action(run, request, Pending) && k.scope in s.workspaces
    ensures var (s', r) := FinishAction(s, k, run, output, evidence, profile, merge);
            var fits := |output| <= MAX_RESULT && Size(evidence) <= MAX_BROWSER_EVIDENCE
                        && (profile.Some? ==> Within(profile.value, MAX_BROWSER_STATE))
                        && (merge.Some? ==> !OperationBusy(s, k.scope)
                                            && Within(merge.value(s.workspaces[k.scope]), MAX_ARCHIVE));
            && (r == Accepted <==> fits) && s'.sessions == s.sessions && k in s'.actions
            && s'.actions[k] == Action(run, request, if fits then ActionDone(output, evidence) else Pending)
            && (!fits ==> s' == s)
  {
    hide OperationBusy;
  }

  // ---- an action that failed

  /** The run's thread waits for its clean-up, whose run found no row, or closed its own. */
  lemma ClosedKeepsAction(s: State, s': State, q: string, operation: string, request: string)
    requires HoldsAction(s, q, operation, request) && s'.holding == s.holding
    requires s'.store == Close(s.store, SCOPE, q, false).0
    ensures HoldsAction(s', q, operation, request) && !(Open(s') && Row(s').run == q)
  {
    CloseIsExact(s.store, SCOPE, q, false, SCOPE, Key(SCOPE, operation));
  }

  lemma FailedWaits(s: State, q: string)
    requires ExecOf(s, q) != Idle && ExecOf(s, q) != Ready && ExecOf(s, q) != Cleaned
    ensures var s' := Next(s, Act(q, Fail)); s'.(exec := s.exec) == s && ExecOf(s', q) == Handling
  {
  }

  /**
   * A failed action is cleaned up before it is answered. If its run's row may be closed, or there is none, the
   * clean-up succeeds: no row is open, the container is gone, and the error is stored as the action's receipt, or the
   * action is cancelled if its outcome is uncertain. If not, row, action and container stay, and the thread waits.
   */
  lemma FailedActionIsCleanedUpFirst(s: State, q: string, operation: string, request: string, error: Bytes)
    requires HoldsAction(s, q, operation, request) && CleanupOf(s, q) == Off && |error| <= MAX_RESULT
    requires ExecOf(s, q) != Idle && ExecOf(s, q) != Ready && ExecOf(s, q) != Cleaned
    requires Open(s) ==> Row(s).run == q
    ensures var k := Key(SCOPE, operation);
            var cleaned := Execute(Next(s, Act(q, Fail)), CleanUpSteps(q, false, false));
            var answered := Next(cleaned, Act(q, Complete(error, None, None, None)));
            var givenUp := Next(cleaned, Act(q, CloseAgain));
            if Open(s) && !MayClose(s, q, false) then
              ExecOf(cleaned, q) == Handling && cleaned.store == s.store && cleaned.containers == s.containers
              && answered == cleaned && givenUp == cleaned
            else
              && ExecOf(answered, q) == Idle && !Open(answered) && k in answered.store.actions
              && answered.store.actions[k] == Action(q, request, ActionDone(error, None))
              && answered.containers == (if Open(s) then s.containers - {Row(s).name} else s.containers)
              && ExecOf(givenUp, q) == Idle && !Open(givenUp) && k in givenUp.store.actions
              && givenUp.store.actions[k] == Action(q, request, ActionCancelled)
              && givenUp.containers == answered.containers
  {
    FailedWaits(s, q);
    var s1 := Next(s, Act(q, Fail));
    assert Open(s) ==> MayClose(s1, q, false) == MayClose(s, q, false);
    assert HoldsAction(s1, q, operation, request) && CleanupOf(s1, q) == Off;
    hide Next, MayClose, HoldsAction, Execute, CleanUpSteps;
    if Open(s) && !MayClose(s, q, false) {
      UndisturbedCleanUp(s1, q, false, false);
      HandlingTakesNoReceipt(Execute(s1, CleanUpSteps(q, false, false)), q, error);
    } else {
      ClosedBeforeAnswer(s1, q, operation, request, error);
    }
  }

  lemma ClosedBeforeAnswer(s: State, q: string, operation: string, request: string, error: Bytes)
    requires HoldsAction(s, q, operation, request) && CleanupOf(s, q) == Off && |error| <= MAX_RESULT
    requires ExecOf(s, q) == Handling && (Open(s) ==> Row(s).run == q && MayClose(s, q, false))
    ensures var k, cleaned := Key(SCOPE, operation), Execute(s, CleanUpSteps(q, false, false));
            var answered := Next(cleaned, Act(q, Complete(error, None, None, None)));
            var givenUp := Next(cleaned, Act(q, CloseAgain));
            && ExecOf(answered, q) == Idle && !Open(answered) && k in answered.store.actions
            && answered.store.actions[k] == Action(q, request, ActionDone(error, None))
            && answered.containers == (if Open(s) then s.containers - {Row(s).name} else s.containers)
            && ExecOf(givenUp, q) == Idle && !Open(givenUp) && k in givenUp.store.actions
            && givenUp.store.actions[k] == Action(q, request, ActionCancelled)
            && givenUp.containers == answered.containers
  {
    if Open(s) { UndisturbedCleanUp(s, q, false, false); } else { CleanUpWithoutRow(s, q, false, false); }
    var cleaned := Execute(s, CleanUpSteps(q, false, false));
    hide Execute, CleanUpSteps, MayClose, HoldsAction, Close, NextExec, FinishAction;
    ClosedKeepsAction(s, cleaned, q, operation, request);
    assert !Open(cleaned) by { CloseIsExact(s.store, SCOPE, q, false, SCOPE, Key(SCOPE, operation)); }
    ReceiptIsStored(cleaned, q, operation, request, error, None, None, None);
    CloseAgainCancels(cleaned, q, operation, request);
  }

  lemma CloseAgainCancels(s: State, q: string, operation: string, request: string)
    requires HoldsAction(s, q, operation, request) && ExecOf(s, q) == Cleaned && !Open(s)
    ensures var k, s' := Key(SCOPE, operation), Next(s, Act(q, CloseAgain));
            && ExecOf(s', q) == Idle && !Open(s') && s'.containers == s.containers && k in s'.store.actions
            && s'.store.actions[k] == Action(q, request, ActionCancelled)
  {
    CloseIsExact(s.store, SCOPE, q, true, SCOPE, Key(SCOPE, operation));
    hide Close;
  }

  lemma HandlingTakesNoReceipt(s: State, q: string, error: Bytes)
    requires ExecOf(s, q) == Handling
    ensures Next(s, Act(q, Complete(error, None, None, None))) == s && Next(s, Act(q, CloseAgain)) == s
  {
  }

  // ---- locks, and the world

  /** A clean-up begins exactly when none of its run is under way, and a recovery only without a pipe of its own. */
  lemma BeginsExactlyWhen(s: State, q: string, recoverPrevious: bool, cancelActions: bool)
    ensures var s' := Next(s, CleanUp(q, CleanupStep.Begin(recoverPrevious, cancelActions)));
            if CleanupOf(s, q) == Off && !(recoverPrevious && HasPipe(s, q))
            then CleanupOf(s', q) == Draining(recoverPrevious, cancelActions) && !HasPipe(s', q)
            else s' == s
  {
    ReleasedKeeps(s, q);
    hide Released;
  }

  /** An error handler is entered from within an action only, and left without a receipt from there only. */
  lemma HandlersBelongToActions(s: State, q: string)
    ensures var failed, left := Next(s, Act(q, Fail)), Next(s, Act(q, Abandon));
            && failed == (if ExecOf(s, q) == Idle || ExecOf(s, q) == Ready || ExecOf(s, q) == Cleaned then s
                          else WithExec(s, q, Handling))
            && left == (if ExecOf(s, q) == Handling || ExecOf(s, q) == Cleaned then WithExec(s, q, Idle) else s)
  {
  }

  /** A request is answered once: its container is made or it is refused, and then nothing is out under its name. */
  lemma RequestsAreAnsweredOnce(s: State, n: string)
    ensures var made, refused := Next(s, World(DaemonCreates(n))), Next(s, World(DaemonRefuses(n)));
            && n !in made.requested && n !in refused.requested && refused.containers == s.containers
            && made.containers == (if n in s.requested then s.containers[n := Made] else s.containers)
            && (n in s.requested ==> n in made.made)
            && Next(made, World(DaemonCreates(n))) == made
  {
  }

  /** The watchdog stops what runs; a run ends once and for all; a crash loses a controller's threads and no more. */
  lemma TheWorldGoesOn(s: State, n: string, q: string)
    ensures var stopped := Next(s, World(Watchdog(n)));
            stopped.containers == (if n in s.containers && s.containers[n] == Up then s.containers[n := Exited]
                                   else s.containers)
    ensures var ended := Next(s, World(End(q))); ended == s.(ended := s.ended + {q})
    ensures var crashed := Next(s, World(Crash(q)));
            crashed.(exec := s.exec, cleanup := s.cleanup) == s && ExecOf(crashed, q) == Idle
            && CleanupOf(crashed, q) == Off
  {
  }

  /** Every other call on the store takes effect, as long as it is not about this conversation's browser. */
  lemma OtherCallsTakeEffect(s: State, c: Call)
    ensures var s' := Next(s, World(OtherCall(c)));
            s' == if LeavesBrowser(c) then s.(store := Perform(s.store, c).0) else s
  {
    hide Perform, LeavesBrowser;
  }
}
