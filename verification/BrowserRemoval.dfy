/** Whose container a clean-up removes, over every interleaving, and what an undisturbed clean-up achieves. */
module BrowserRemoval {
  import opened Prelude
  import opened ComputerStore
  import opened StoreHistory
  import opened BrowserLifecycle

  // ---- containers that are being set up, and those about to be removed

  /** Daemon and row speak of names handed out before, and nothing is requested twice. */
  ghost predicate NamesFit(s: State) {
    && s.requested !! s.made && s.containers.Keys <= s.made && s.made <= s.used && s.requested <= s.used
    && (Open(s) ==> Row(s).name in s.used && (Row(s).phase == Live ==> Row(s).name in s.made))
  }

  /** The container an action thread is setting up. */
  ghost function Holds(s: State, q: string): Option<string> {
    match ExecOf(s, q)
    case Reserved(n) => Some(n)
    case Creating(n) => Some(n)
    case Recorded(n) => Some(n)
    case _ => None
  }

  /** A container being set up has not been started, and an open row of its run is about it. */
  ghost predicate SetUpFits(s: State, q: string) {
    var n := Holds(s, q);
    n.Some? ==>
      && n.value in s.used
      && (n.value in s.containers ==> s.containers[n.value] == Made)
      && (ExecOf(s, q).Reserved? ==> n.value !in s.made && n.value !in s.requested)
      && (ExecOf(s, q).Recorded? ==> n.value in s.made)
      && (Open(s) && Row(s).run == q ==> Row(s).name == n.value)
  }

  ghost predicate SetUpApart(s: State, p: string, q: string) {
    p != q && Holds(s, p).Some? ==> Holds(s, q) != Holds(s, p)
  }

  /** A clean-up past its inspection is of the run's own row, or of a live one whose container has exited for good. */
  ghost predicate RemovalFits(s: State, q: string) {
    var c := CleanupOf(s, q);
    && (HasRow(c) ==> c.row.phase != Closed && (c.row.phase == Live ==> c.row.name in s.made))
    && (c.Removing? && c.row.run != q ==>
          c.row.phase == Live && (c.row.name in s.containers ==> s.containers[c.row.name] == Exited))
  }

  ghost predicate FitFor(s: State, p: string) { NamesFit(s) && SetUpFits(s, p) && RemovalFits(s, p) }

  ghost predicate Fit(s: State) { (forall p :: FitFor(s, p)) && (forall p, q :: SetUpApart(s, p, q)) }

  /** A run goes on with the container it is setting up, drops it, or reserves a new name. */
  lemma HoldsStep(s: State, step: Step, p: string)
    ensures var held := Holds(Next(s, step), p);
            held == None || held == Holds(s, p)
            || (step.Act? && step.q == p && held.value !in s.used)
  {
    hide NextExec, NextCleanup, NextWorld, Holds;
    match step
    case Act(q, act) => ExecHolds(s, q, act, p);
    case CleanUp(q, clean) => CleanupHolds(s, q, clean, p);
    case World(world) => WorldHolds(s, world, p);
  }

  lemma ExecHolds(s: State, q: string, step: ExecStep, p: string)
    ensures var held := Holds(NextExec(s, q, step), p);
            held == None || held == Holds(s, p) || (q == p && held.value !in s.used)
  {
    hide AdmitAction, FinishAction, AdmitSession, SessionCreated, Close;
  }

  /** A clean-up moves its run's action thread to where nothing is being set up, if at all. */
  lemma CleanupMovesExec(s: State, q: string, step: CleanupStep, p: string)
    ensures var e := ExecOf(NextCleanup(s, q, step), p);
            e == ExecOf(s, p) || e == Idle || e == Broken || e == Cleaned
  {
    hide Close, Succeeded, Released;
    match step
    case Begin(_, _) => ReleasedExec(s, q, p);
    case Read =>
      if CleanupOf(s, q).Draining? { SucceededExec(s.(store := Close(s.store, SCOPE, q,
                                                                     CleanupOf(s, q).cancelActions).0), q, p); }
    case CloseRow(cancelActions) =>
      if CleanupOf(s, q).Closing? {
        SucceededExec(s.(store := Close(s.store, SCOPE, CleanupOf(s, q).row.run, cancelActions).0), q, p);
      }
    case _ =>
  }

  lemma ReleasedExec(s: State, q: string, p: string)
    ensures var e := ExecOf(Released(s, q), p); e == ExecOf(s, p) || e == Idle || e == Broken
  {
  }

  lemma SucceededExec(s: State, q: string, p: string)
    ensures var e := ExecOf(Succeeded(s, q), p); e == ExecOf(s, p) || e == Cleaned
  {
  }

  lemma CleanupHolds(s: State, q: string, step: CleanupStep, p: string)
    ensures Holds(NextCleanup(s, q, step), p) == None || Holds(NextCleanup(s, q, step), p) == Holds(s, p)
  {
    hide NextCleanup;
    CleanupMovesExec(s, q, step, p);
  }

  lemma WorldHolds(s: State, step: WorldStep, p: string)
    ensures Holds(NextWorld(s, step), p) == None || Holds(NextWorld(s, step), p) == Holds(s, p)
  {
    hide Perform;
  }

  lemma ApartStep(s: State, step: Step, p: string, q: string)
    requires SetUpFits(s, p) && SetUpFits(s, q) && SetUpApart(s, p, q)
    ensures SetUpApart(Next(s, step), p, q)
  {
    hide Next;
    HoldsStep(s, step, p);
    HoldsStep(s, step, q);
  }

  // ---- the action thread

  lemma SendFits(s: State, r: string, p: string)
    requires FitFor(s, p) && FitFor(s, r) && SetUpApart(s, r, p)
    ensures FitFor(NextExec(s, r, SendCreate), p)
  {
  }

  lemma LaunchFits(s: State, r: string, p: string)
    requires FitFor(s, p) && FitFor(s, r) && SetUpApart(s, r, p)
    ensures FitFor(NextExec(s, r, Launch), p)
  {
    if ExecOf(s, r).Recorded? && ExecOf(s, r).name in s.containers {
      assert s.containers[ExecOf(s, r).name := Up].Keys == s.containers.Keys;
    }
  }

  /** Giving up what was being set up. */
  lemma LetGoFits(s: State, r: string, e: Exec, p: string)
    requires FitFor(s, p) && Holds(WithExec(s, r, e), r) == None
    ensures FitFor(WithExec(s, r, e), p)
  {
    assert Holds(WithExec(s, r, e), p) == if p == r then None else Holds(s, p);
    assert CleanupOf(WithExec(s, r, e), p) == CleanupOf(s, p);
  }

  lemma ReserveFits(s: State, r: string, step: ExecStep, p: string)
    requires FitFor(s, p) && FitFor(s, r) && step.Reserve?
    ensures FitFor(NextExec(s, r, step), p)
  {
    hide AdmitSession;
    if r in s.holding { AdmitEffect(s.store, r, s.holding[r], step.name, step.daemon); }
  }

  lemma RecordFits(s: State, r: string, step: ExecStep, p: string)
    requires FitFor(s, p) && FitFor(s, r) && step.Record?
    ensures FitFor(NextExec(s, r, step), p)
  {
    hide SessionCreated;
    if ExecOf(s, r).Creating? { CreatedEffect(s.store, r, ExecOf(s, r).name); }
  }

  /** A change of the store that leaves the session row alone. */
  lemma OtherTablesFit(s: State, s': State, p: string)
    requires FitFor(s, p) && s'.store.sessions == s.store.sessions
    requires s'.(store := s.store, holding := s.holding) == s
    ensures FitFor(s', p)
  {
    assert Holds(s', p) == Holds(s, p) && CleanupOf(s', p) == CleanupOf(s, p);
  }

  lemma ActionFits(s: State, r: string, step: ExecStep, p: string)
    requires FitFor(s, p) && (step.Take? || step.Complete?)
    ensures FitFor(NextExec(s, r, step), p)
  {
    hide AdmitAction, FinishAction, FitFor;
    var s' := NextExec(s, r, step);
    var k := Key(SCOPE, if step.Take? then step.operation else if r in s.holding then s.holding[r] else "");
    ActionsLeaveSessions(s.store, k, r, if step.Take? then step.request else "",
                         if step.Take? then step.taint else None, step);
    if s' != s {
      var mid := s.(store := s'.store, holding := s'.holding);
      OtherTablesFit(s, mid, p);
      LetGoFits(mid, r, ExecOf(s', r), p);
      assert s' == WithExec(mid, r, ExecOf(s', r));
    }
  }

  /** Closing a row puts fewer demands on what is open. */
  lemma ClosedFits(s: State, run: string, cancelActions: bool, p: string)
    requires FitFor(s, p)
    ensures FitFor(s.(store := Close(s.store, SCOPE, run, cancelActions).0), p)
  {
    hide Close;
    CloseEffect(s.store, run, cancelActions);
    var s' := s.(store := Close(s.store, SCOPE, run, cancelActions).0);
    assert Holds(s', p) == Holds(s, p) && CleanupOf(s', p) == CleanupOf(s, p);
    assert Open(s') ==> Open(s) && Row(s') == Row(s);
  }

  lemma ExecFitsOn(s: State, r: string, step: ExecStep, p: string)
    requires FitFor(s, p) && FitFor(s, r) && SetUpApart(s, r, p)
    ensures FitFor(NextExec(s, r, step), p)
  {
    hide FitFor, SetUpApart, Close;
    match step
    case Take(_, _, _) => ActionFits(s, r, step, p);
    case Complete(_, _, _, _) => ActionFits(s, r, step, p);
    case Reserve(_, _) => ReserveFits(s, r, step, p);
    case Record => RecordFits(s, r, step, p);
    case SendCreate => SendFits(s, r, p);
    case Launch => LaunchFits(s, r, p);
    case Fail => LetGoFits(s, r, Handling, p);
    case Abandon => LetGoFits(s, r, Idle, p);
    case CloseAgain =>
      ClosedFits(s, r, true, p);
      LetGoFits(s.(store := Close(s.store, SCOPE, r, true).0), r, Idle, p);
  }

  // ---- the clean-up thread

  /** A clean-up that moves to a place that is right about its row. */
  lemma MovedFits(s: State, r: string, c: Cleanup, p: string)
    requires FitFor(s, p) && RemovalFits(WithCleanup(s, r, c), r)
    ensures FitFor(WithCleanup(s, r, c), p)
  {
    assert Holds(WithCleanup(s, r, c), p) == Holds(s, p);
    assert CleanupOf(WithCleanup(s, r, c), p) == if p == r then c else CleanupOf(s, p);
  }

  lemma SucceededFits(s: State, r: string, p: string)
    requires FitFor(s, p)
    ensures FitFor(Succeeded(s, r), p)
  {
    hide FitFor;
    LetGoFits(s, r, Cleaned, p);
    MovedFits(if ExecOf(s, r) == Handling then WithExec(s, r, Cleaned) else s, r, Off, p);
  }

  lemma ReadFits(s: State, r: string, p: string)
    requires FitFor(s, p) && FitFor(s, r)
    ensures FitFor(NextCleanup(s, r, Read), p)
  {
    hide Close, Succeeded;
    var c := CleanupOf(s, r);
    if c.Draining? {
      if Open(s) {
        MovedFits(s, r, if Row(s).run != r && !c.recoverPrevious then Off else Looking(Row(s)), p);
      } else {
        hide FitFor;
        ClosedFits(s, r, c.cancelActions, p);
        SucceededFits(s.(store := Close(s.store, SCOPE, r, c.cancelActions).0), r, p);
      }
    }
  }

  lemma LookFits(s: State, r: string, p: string)
    requires FitFor(s, p) && FitFor(s, r)
    ensures FitFor(NextCleanup(s, r, Look), p)
  {
    if CleanupOf(s, r).Looking? { MovedFits(s, r, CleanupOf(NextCleanup(s, r, Look), r), p); }
  }

  lemma RemoveFits(s: State, r: string, p: string)
    requires FitFor(s, p) && FitFor(s, r)
    ensures FitFor(NextCleanup(s, r, Remove), p)
  {
  }

  lemma CloseRowFits(s: State, r: string, step: CleanupStep, p: string)
    requires FitFor(s, p) && FitFor(s, r) && step.CloseRow?
    ensures FitFor(NextCleanup(s, r, step), p)
  {
    hide FitFor, Close, Succeeded;
    if CleanupOf(s, r).Closing? {
      var run := CleanupOf(s, r).row.run;
      ClosedFits(s, run, step.cancelActions, p);
      var s' := s.(store := Close(s.store, SCOPE, run, step.cancelActions).0);
      SucceededFits(s', r, p);
      MovedFits(s', r, Off, p);
    }
  }

  lemma CleanupFitsOn(s: State, r: string, step: CleanupStep, p: string)
    requires FitFor(s, p) && FitFor(s, r)
    ensures FitFor(NextCleanup(s, r, step), p)
  {
    match step
    case Begin(recoverPrevious, cancelActions) =>
      hide FitFor;
      LetGoFits(s, r, Idle, p);
      LetGoFits(s, r, Broken, p);
      MovedFits(Released(s, r), r, Draining(recoverPrevious, cancelActions), p);
    case Read => ReadFits(s, r, p);
    case Look => LookFits(s, r, p);
    case Remove => RemoveFits(s, r, p);
    case Recheck =>
      if CleanupOf(s, r).Rechecking? { MovedFits(s, r, CleanupOf(NextCleanup(s, r, Recheck), r), p); }
    case CloseRow(_) => CloseRowFits(s, r, step, p);
    case GiveUp => MovedFits(s, r, Off, p);
  }

  lemma WorldFits(s: State, step: WorldStep, p: string)
    requires FitFor(s, p)
    ensures FitFor(NextWorld(s, step), p)
  {
    hide Perform, LeavesBrowser;
    match step
    case OtherCall(c) => if LeavesBrowser(c) { OtherCallsLeaveSession(s.store, c); }
    case Crash(q) =>
      hide FitFor;
      LetGoFits(s, q, Idle, p);
      MovedFits(WithExec(s, q, Idle), q, Off, p);
    case _ =>
  }

  lemma StepFits(s: State, step: Step)
    requires Fit(s)
    ensures Fit(Next(s, step))
  {
    hide FitFor, SetUpApart, NextExec, NextCleanup, NextWorld;
    forall p ensures FitFor(Next(s, step), p) {
      assert FitFor(s, p);
      match step {
        case Act(r, act) =>
          assert FitFor(s, r);
          ExecFitsOn(s, r, act, p);
        case CleanUp(r, clean) =>
          assert FitFor(s, r);
          CleanupFitsOn(s, r, clean, p);
        case World(world) => WorldFits(s, world, p);
      }
    }
    hide Next;
    forall p, q ensures SetUpApart(Next(s, step), p, q) {
      assert FitFor(s, p) && FitFor(s, q);
      FitForHas(s, p);
      FitForHas(s, q);
      ApartStep(s, step, p, q);
    }
  }

  lemma FitForHas(s: State, p: string)
    requires FitFor(s, p)
    ensures SetUpFits(s, p)
  {
  }

  lemma {:induction false} RunFits(s: State, steps: seq<Step>)
    requires Fit(s)
    ensures Fit(Execute(s, steps))
    decreases |steps|
  {
    hide Fit, Next;
    if steps != [] {
      StepFits(s, steps[0]);
      RunFits(Next(s, steps[0]), steps[1..]);
    }
  }

  // ---- rows and requests of the past

  /** The row was open at some moment of the run. */
  ghost predicate WasOpen(s: State, steps: seq<Step>, row: Session) {
    exists i | 0 <= i <= |steps| :: OpenAt(s, steps, i, row)
  }

  ghost predicate OpenAt(s: State, steps: seq<Step>, i: nat, row: Session)
    requires i <= |steps|
  {
    Open(Execute(s, steps[..i])) && Row(Execute(s, steps[..i])) == row
  }

  /** Run q began a clean-up that may recover another run's browser. */
  ghost predicate AskedToRecover(steps: seq<Step>, q: string) {
    exists k | 0 <= k < |steps| ::
      steps[k].CleanUp? && steps[k].q == q && steps[k].clean.Begin? && steps[k].clean.recoverPrevious
  }

  lemma {:induction false} ExecuteSplits(s: State, a: seq<Step>, b: seq<Step>)
    ensures Execute(s, a + b) == Execute(Execute(s, a), b)
    decreases |a|
  {
    hide Next;
    if a != [] {
      assert (a + b)[1..] == a[1..] + b;
      ExecuteSplits(Next(s, a[0]), a[1..], b);
    } else {
      assert a + b == b;
    }
  }

  lemma LastStep(s: State, steps: seq<Step>)
    requires steps != []
    ensures Execute(s, steps) == Next(Execute(s, steps[..|steps| - 1]), steps[|steps| - 1])
  {
    hide Next;
    var front, last := steps[..|steps| - 1], steps[|steps| - 1];
    assert steps == front + [last];
    ExecuteSplits(s, front, [last]);
    assert Execute(Next(Execute(s, front), last), []) == Next(Execute(s, front), last);
  }

  /** A clean-up's row is the one it had, or the open row it reads, of another run only in a recovery. */
  lemma RowIsRead(s: State, step: Step, q: string)
    ensures var c, c' := CleanupOf(s, q), CleanupOf(Next(s, step), q);
            && (HasRow(c') ==> (HasRow(c) && c'.row == c.row)
                               || (Open(s) && c'.row == Row(s) && c.Draining?
                                   && (c'.row.run != q ==> c.recoverPrevious)))
            && (c'.Draining? && c'.recoverPrevious ==>
                  c == c' || (step.CleanUp? && step.q == q && step.clean.Begin? && step.clean.recoverPrevious))
  {
    hide NextExec, NextCleanup, Perform;
    match step
    case Act(r, act) => ActKeepsCleanups(s, r, act, q);
    case CleanUp(r, clean) => CleanupReadsRow(s, r, clean, q);
    case World(_) =>
  }

  lemma CleanupReadsRow(s: State, r: string, step: CleanupStep, q: string)
    ensures var c, c' := CleanupOf(s, q), CleanupOf(NextCleanup(s, r, step), q);
            && (HasRow(c') ==> (HasRow(c) && c'.row == c.row)
                               || (Open(s) && c'.row == Row(s) && c.Draining?
                                   && (c'.row.run != q ==> c.recoverPrevious)))
            && (c'.Draining? && c'.recoverPrevious ==>
                  c == c' || (r == q && step.Begin? && step.recoverPrevious))
  {
    hide Close;
    assert r != q ==> CleanupOf(NextCleanup(s, r, step), q) == CleanupOf(s, q);
  }

  lemma ActKeepsCleanups(s: State, r: string, step: ExecStep, q: string)
    ensures CleanupOf(NextExec(s, r, step), q) == CleanupOf(s, q)
  {
    hide AdmitAction, FinishAction, AdmitSession, SessionCreated, Close;
  }

  lemma StillOpen(s: State, steps: seq<Step>, row: Session)
    requires steps != [] && WasOpen(s, steps[..|steps| - 1], row)
    ensures WasOpen(s, steps, row)
  {
    var front := steps[..|steps| - 1];
    var i :| 0 <= i <= |front| && OpenAt(s, front, i, row);
    assert front[..i] == steps[..i];
    assert OpenAt(s, steps, i, row);
  }

  /** Over every run: a clean-up is about a row that was open, of another run only if it was begun to recover. */
  lemma {:induction false} CleanupsReadRows(s: State, steps: seq<Step>, q: string)
    requires CleanupOf(s, q) == Off
    ensures var c := CleanupOf(Execute(s, steps), q);
            && (HasRow(c) ==> WasOpen(s, steps, c.row) && (c.row.run != q ==> AskedToRecover(steps, q)))
            && (c.Draining? && c.recoverPrevious ==> AskedToRecover(steps, q))
    decreases |steps|
  {
    hide Next, Open;
    if steps != [] {
      var front, n := steps[..|steps| - 1], |steps| - 1;
      var mid := Execute(s, front);
      CleanupsReadRows(s, front, q);
      LastStep(s, steps);
      RowIsRead(mid, steps[n], q);
      var c, c' := CleanupOf(mid, q), CleanupOf(Execute(s, steps), q);
      if HasRow(c') {
        if HasRow(c) && c'.row == c.row {
          StillOpen(s, steps, c'.row);
        } else {
          assert OpenAt(s, steps, n, c'.row);
        }
      }
      if AskedToRecover(front, q) {
        var k :| 0 <= k < |front|
          && front[k].CleanUp? && front[k].q == q && front[k].clean.Begin? && front[k].clean.recoverPrevious;
        assert steps[k] == front[k];
      }
    }
  }

  // ---- a name belongs to one run

  ghost predicate Claimed(s: State, n: string, run: string) {
    n in s.used && (Open(s) && Row(s).name == n ==> Row(s).run == run)
  }

  lemma ExecKeepsClaim(s: State, r: string, step: ExecStep, n: string, run: string)
    requires Claimed(s, n, run)
    ensures Claimed(NextExec(s, r, step), n, run)
  {
    hide AdmitAction, FinishAction, AdmitSession, SessionCreated, Close;
    match step
    case Take(operation, request, taint) =>
      ActionsLeaveSessions(s.store, Key(SCOPE, operation), r, request, taint, step);
    case Complete(_, _, _, _) =>
      if r in s.holding { ActionsLeaveSessions(s.store, Key(SCOPE, s.holding[r]), r, "", None, step); }
    case Reserve(name, daemon) =>
      if r in s.holding { AdmitEffect(s.store, r, s.holding[r], name, daemon); }
    case Record => if ExecOf(s, r).Creating? { CreatedEffect(s.store, r, ExecOf(s, r).name); }
    case CloseAgain => CloseEffect(s.store, r, true);
    case _ =>
  }

  lemma StepKeepsClaim(s: State, step: Step, n: string, run: string)
    requires Claimed(s, n, run)
    ensures Claimed(Next(s, step), n, run)
  {
    hide NextExec, NextCleanup, NextWorld, Claimed;
    match step
    case Act(r, act) => ExecKeepsClaim(s, r, act, n, run);
    case CleanUp(r, clean) => CleanupKeepsClaim(s, r, clean, n, run);
    case World(world) => WorldKeepsClaim(s, world, n, run);
  }

  lemma CleanupKeepsClaim(s: State, r: string, step: CleanupStep, n: string, run: string)
    requires Claimed(s, n, run)
    ensures Claimed(NextCleanup(s, r, step), n, run)
  {
    hide Close, NextCleanup;
    var closed := CleanupCloses(s, r, step);
    if closed.Some? { CloseEffect(s.store, closed.value.0, closed.value.1); }
  }

  /** A clean-up step changes the store by one close at most. */
  lemma CleanupCloses(s: State, r: string, step: CleanupStep) returns (closed: Option<(string, bool)>)
    ensures NextCleanup(s, r, step).used == s.used
    ensures NextCleanup(s, r, step).store
         == if closed.Some? then Close(s.store, SCOPE, closed.value.0, closed.value.1).0 else s.store
  {
    hide Close;
    var c := CleanupOf(s, r);
    closed := if step.Read? && c.Draining? && !Open(s) then Some((r, c.cancelActions))
      else if step.CloseRow? && c.Closing? then Some((c.row.run, step.cancelActions))
      else None;
  }

  lemma WorldKeepsClaim(s: State, step: WorldStep, n: string, run: string)
    requires Claimed(s, n, run)
    ensures Claimed(NextWorld(s, step), n, run)
  {
    hide Perform, LeavesBrowser;
    if step.OtherCall? && LeavesBrowser(step.call) { OtherCallsLeaveSession(s.store, step.call); }
  }

  lemma {:induction false} RunKeepsClaim(s: State, steps: seq<Step>, n: string, run: string)
    requires Claimed(s, n, run)
    ensures Claimed(Execute(s, steps), n, run)
    decreases |steps|
  {
    hide Next, Claimed;
    if steps != [] {
      StepKeepsClaim(s, steps[0], n, run);
      RunKeepsClaim(Next(s, steps[0]), steps[1..], n, run);
    }
  }

  lemma LaterRowsAgree(s: State, steps: seq<Step>, i: nat, j: nat, a: Session, b: Session)
    requires Fit(s) && i <= j <= |steps|
    requires OpenAt(s, steps, i, a) && OpenAt(s, steps, j, b) && a.name == b.name
    ensures a.run == b.run
  {
    var first := Execute(s, steps[..i]);
    RunFits(s, steps[..i]);
    assert Claimed(first, a.name, a.run) by { assert FitFor(first, ""); }
    hide Fit, Execute;
    assert steps[..j] == steps[..i] + steps[i..j];
    ExecuteSplits(s, steps[..i], steps[i..j]);
    RunKeepsClaim(first, steps[i..j], a.name, a.run);
  }

  /** All the rows a run ever has open for one container name are of one run. */
  lemma NamesBelongToOneRun(s: State, steps: seq<Step>, a: Session, b: Session)
    requires Fit(s) && WasOpen(s, steps, a) && WasOpen(s, steps, b) && a.name == b.name
    ensures a.run == b.run
  {
    hide Fit, OpenAt;
    var i :| 0 <= i <= |steps| && OpenAt(s, steps, i, a);
    var j :| 0 <= j <= |steps| && OpenAt(s, steps, j, b);
    if i <= j { LaterRowsAgree(s, steps, i, j, a, b); } else { LaterRowsAgree(s, steps, j, i, b, a); }
  }

  // ---- whose containers are removed

  lemma StartsFit(store: Store)
    requires !Open(Start(store))
    ensures Fit(Start(store))
  {
  }

  /** Only a clean-up that has inspected the container takes it away. */
  lemma OnlyRemovalsRemove(s: State, step: Step, n: string)
    requires n in s.containers && n !in Next(s, step).containers
    ensures step.CleanUp? && CleanupOf(s, step.q).Removing? && CleanupOf(s, step.q).row.name == n
  {
    hide NextExec, NextCleanup, NextWorld;
    match step
    case Act(r, act) => ActsRemoveNothing(s, r, act, n);
    case CleanUp(r, clean) => CleanupRemoves(s, r, clean, n);
    case World(world) => TheWorldRemovesNothing(s, world, n);
  }

  lemma ActsRemoveNothing(s: State, r: string, step: ExecStep, n: string)
    requires n in s.containers
    ensures n in NextExec(s, r, step).containers
  {
    hide AdmitAction, FinishAction, AdmitSession, SessionCreated, Close;
  }

  lemma TheWorldRemovesNothing(s: State, step: WorldStep, n: string)
    requires n in s.containers
    ensures n in NextWorld(s, step).containers
  {
    hide Perform;
  }

  lemma CleanupRemoves(s: State, r: string, step: CleanupStep, n: string)
    requires n in s.containers && n !in NextCleanup(s, r, step).containers
    ensures CleanupOf(s, r).Removing? && CleanupOf(s, r).row.name == n
  {
    hide Close;
  }

  /**
   * Over every interleaving from a store without an open browser: whatever container a step takes away, a clean-up
   * takes it, and it is a container of the clean-up's own run, or one of another run that has exited, whose row was
   * live, and
   * that the clean-up was begun to recover. No run ever stops another's running or not yet started browser.
   */
  lemma OnlyExitedBrowsersOfOthersAreRemoved(store: Store, steps: seq<Step>, step: Step, n: string)
    requires !Open(Start(store))
    requires var s := Execute(Start(store), steps); n in s.containers && n !in Next(s, step).containers
    ensures step.CleanUp?
    ensures exists row: Session :: row.name == n && WasOpen(Start(store), steps, row)
                          && (row.run == step.q || (row.phase == Live && AskedToRecover(steps, step.q)))
    ensures forall row: Session | row.name == n && WasOpen(Start(store), steps, row) ::
              row.run == step.q || Execute(Start(store), steps).containers[n] == Exited
  {
    var start, s := Start(store), Execute(Start(store), steps);
    hide Next, WasOpen, AskedToRecover, Execute, Open;
    OnlyRemovalsRemove(s, step, n);
    StartsFit(store);
    RunFits(start, steps);
    assert FitFor(s, step.q);
    hide Fit;
    var row := CleanupOf(s, step.q).row;
    CleanupsReadRows(start, steps, step.q);
    forall other: Session | other.name == n && WasOpen(start, steps, other)
      ensures other.run == step.q || s.containers[n] == Exited
    {
      NamesBelongToOneRun(start, steps, row, other);
    }
  }
}
