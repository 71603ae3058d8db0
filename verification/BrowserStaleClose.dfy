/**
 * A run of the browser protocol that ends with a container and no open row: run "b" recovers the session of run "a"
 * while a clean-up of "a" is still on its way to its own close.
 */
module BrowserStaleClose {
  import opened Prelude
  import opened Totals
  import opened ComputerStore
  import opened BrowserLifecycle

  const RECEIPT: Bytes := [123, 125]

  function FirstRow(phase: SessionPhase): Session {
    Session("a", "n1", "d", if phase == Starting then None else Some("n1"), phase)
  }

  const SECOND_ROW := Session("a", "n2", "d", None, Starting)

  ghost predicate Reached(s: State) { exists steps :: Execute(Start(EMPTY), steps) == s }

  lemma {:induction false} Extend(s: State, steps: seq<Step>, step: Step)
    ensures Execute(s, steps + [step]) == Next(Execute(s, steps), step)
    decreases |steps|
  {
    hide Next;
    if steps != [] {
      assert (steps + [step])[1..] == steps[1..] + [step];
      Extend(Next(s, steps[0]), steps[1..], step);
    } else {
      assert steps + [step] == [step];
    }
  }

  lemma Move(s: State, step: Step) returns (s': State)
    requires Reached(s)
    ensures s' == Next(s, step) && Reached(s')
  {
    hide Next;
    s' := Next(s, step);
    var steps :| Execute(Start(EMPTY), steps) == s;
    Extend(Start(EMPTY), steps, step);
  }

  /** The session row, the containers and the threads of both runs; "b" runs no action, no create request is out. */
  ghost predicate At(s: State, row: Option<Session>, containers: map<string, Container>, used: set<string>,
                     exec: Exec, cleanup: Cleanup, other: Cleanup)
  {
    && (if row.Some? then Open(s) && Row(s) == row.value else !Open(s))
    && s.containers == containers && s.requested == {} && s.used == used
    && ExecOf(s, "a") == exec && CleanupOf(s, "a") == cleanup && CleanupOf(s, "b") == other
    && ExecOf(s, "b") == Idle
  }

  /** Every row of the store but the session: what a first action left, if there was one. */
  ghost predicate Holds(s: Store, first: Option<ActionPhase>) {
    && s.operations == map[]
    && s.workspaces == (if first.Some? then map[SCOPE := []] else map[])
    && s.profiles == (if first.Some? && first.value.ActionDone? then map[SCOPE := RECEIPT] else map[])
    && s.actions == (if first.Some? then map[Key(SCOPE, "1") := Action("a", "r", first.value)] else map[])
  }

  lemma SmallStoreHasCapacity(s: Store, first: Option<ActionPhase>)
    requires Holds(s, first) && (first == None || first == Some(ActionDone(RECEIPT, None)))
    ensures HasCapacity(s, BROWSER_RESERVATION)
  {
    SumZero(s.workspaces, SnapshotSize);
    SumZero(s.operations, ResultSize);
    SumZero(s.operations, IsInFlight);
    SumZero(s.actions, IsPending);
    SumZero(s.profiles - {SCOPE}, SnapshotSize);
    SumZero(s.actions - {Key(SCOPE, "1")}, ActionSize);
    if first.Some? {
      SumSplit(s.profiles, SCOPE, SnapshotSize);
      SumSplit(s.actions, Key(SCOPE, "1"), ActionSize);
    }
  }

  lemma SessionAdmitted(s: Store, operation: string, n: string)
    requires SCOPE in s.workspaces && (SCOPE in s.sessions ==> s.sessions[SCOPE].phase == Closed)
    requires Key(SCOPE, operation) in s.actions && s.actions[Key(SCOPE, operation)] == Action("a", "r", Pending)
    ensures AdmitSession(s, Key(SCOPE, operation), "a", n, "d")
            == (s.(sessions := s.sessions[SCOPE := Session("a", n, "d", None, Starting)]), Accepted)
  {
  }

  lemma ReservedFor(s: State, n: string, used: set<string>, cleanup: Cleanup) returns (s': State)
    requires Reached(s) && At(s, None, map[], used, Entered, cleanup, Off) && n !in used
    requires "a" in s.holding && s.store.workspaces == map[SCOPE := []]
    requires var k := Key(SCOPE, s.holding["a"]);
             k in s.store.actions && s.store.actions[k] == Action("a", "r", Pending)
    ensures Reached(s') && s'.holding == s.holding && s'.store.(sessions := s.store.sessions) == s.store
    ensures At(s', Some(Session("a", n, "d", None, Starting)), map[], used + {n}, Reserved(n), cleanup, Off)
  {
    hide Reached, NextCleanup, NextWorld, AdmitSession;
    SessionAdmitted(s.store, s.holding["a"], n);
    s' := Move(s, Act("a", Reserve(n, "d")));
  }

  lemma RequestAnswered(s: State, n: string, used: set<string>, cleanup: Cleanup) returns (s': State)
    requires Reached(s) && At(s, Some(Session("a", n, "d", None, Starting)), map[], used, Reserved(n), cleanup, Off)
    ensures Reached(s') && s'.holding == s.holding && n in s'.made && s'.store == s.store
    ensures At(s', Some(Session("a", n, "d", None, Starting)), map[n := Made], used, Exec.Creating(n), cleanup, Off)
  {
    hide Reached, NextCleanup;
    var s1 := Move(s, Act("a", SendCreate));
    assert s1.requested == {n};
    s' := Move(s1, World(DaemonCreates(n)));
  }

  /** A browser is admitted, requested and created for an action that `execute` has just admitted. */
  lemma OpenBrowser(s: State, n: string, used: set<string>, cleanup: Cleanup) returns (s': State)
    requires Reached(s) && At(s, None, map[], used, Entered, cleanup, Off) && n !in used
    requires "a" in s.holding && s.store.workspaces == map[SCOPE := []]
    requires var k := Key(SCOPE, s.holding["a"]);
             k in s.store.actions && s.store.actions[k] == Action("a", "r", Pending)
    ensures Reached(s') && s'.holding == s.holding && n in s'.made
    ensures At(s', Some(Session("a", n, "d", None, Starting)), map[n := Made], used + {n}, Exec.Creating(n), cleanup,
               Off)
    ensures s'.store.(sessions := s.store.sessions) == s.store
  {
    hide Reached, NextCleanup, NextWorld, AdmitSession, Next;
    var s1 := ReservedFor(s, n, used, cleanup);
    s' := RequestAnswered(s1, n, used + {n}, cleanup);
  }

  lemma Admitted(s: Store, first: Option<ActionPhase>, operation: string)
    requires Holds(s, first) && (first == None || first == Some(ActionDone(RECEIPT, None)))
    requires first.Some? ==> operation != "1"
    requires SCOPE in s.sessions ==> s.sessions[SCOPE].phase == Closed
    ensures AdmitAction(s, Key(SCOPE, operation), "a", "r", None)
            == (s.(workspaces := map[SCOPE := []],
                   actions := s.actions[Key(SCOPE, operation) := Action("a", "r", Pending)]), ActionAdmitted)
  {
    hide HasCapacity;
    SmallStoreHasCapacity(s, first);
    assert Upserted(s.profiles, SCOPE, None) == s.profiles;
  }

  lemma FirstAction() returns (s: State)
    ensures Reached(s) && At(s, None, map[], {}, Entered, Off, Off)
    ensures Holds(s.store, Some(Pending)) && s.holding == map["a" := "1"]
  {
    hide AdmitAction, NextCleanup, NextWorld;
    assert Execute(Start(EMPTY), []) == Start(EMPTY);
    Admitted(EMPTY, None, "1");
    hide Reached, Execute;
    s := Move(Start(EMPTY), Act("a", Take("1", "r", None)));
  }

  /** The first action runs in container "n1" and returns its receipt; then the container's watchdog ends it. */
  lemma FirstBrowser() returns (s: State)
    ensures Reached(s) && At(s, Some(FirstRow(Live)), map["n1" := Exited], {"n1"}, Ready, Off, Off)
    ensures Holds(s.store, Some(ActionDone(RECEIPT, None)))
  {
    hide Reached, Next, At;
    var s0 := FirstAction();
    var s1 := OpenBrowser(s0, "n1", {}, Off);
    assert {} + {"n1"} == {"n1"};
    var s2 := Launched(s1);
    var s3 := Completed(s2);
    s := TimedOut(s3);
  }

  lemma TimedOut(s: State) returns (s': State)
    requires Reached(s) && At(s, Some(FirstRow(Live)), map["n1" := Up], {"n1"}, Ready, Off, Off)
    ensures Reached(s') && At(s', Some(FirstRow(Live)), map["n1" := Exited], {"n1"}, Ready, Off, Off)
    ensures s'.store == s.store
  {
    hide Reached, NextExec, NextCleanup;
    s' := Move(s, World(Watchdog("n1")));
  }

  lemma Launched(s: State) returns (s': State)
    requires Reached(s) && "n1" in s.made
    requires At(s, Some(FirstRow(Starting)), map["n1" := Made], {"n1"}, Exec.Creating("n1"), Off, Off)
    ensures Reached(s') && At(s', Some(FirstRow(Live)), map["n1" := Up], {"n1"}, Serving, Off, Off)
    ensures s'.store.(sessions := s.store.sessions) == s.store && s'.holding == s.holding
  {
    hide Reached, NextCleanup, NextWorld, SessionCreated;
    RecordedOnce(s.store);
    var s1 := Move(s, Act("a", Record));
    assert At(s1, Some(FirstRow(Live)), map["n1" := Made], {"n1"}, Recorded("n1"), Off, Off);
    s' := Move(s1, Act("a", Launch));
  }

  lemma RecordedOnce(s: Store)
    requires SCOPE in s.sessions && s.sessions[SCOPE] == FirstRow(Starting)
    ensures SessionCreated(s, SCOPE, "a", "n1") == (s.(sessions := s.sessions[SCOPE := FirstRow(Live)]), Accepted)
  {
  }

  lemma Finished(s: Store)
    requires Holds(s, Some(Pending))
    ensures var (s', r) := FinishAction(s, Key(SCOPE, "1"), "a", RECEIPT, None, Some(Encoded(RECEIPT)), None);
            r == Accepted && s'.sessions == s.sessions && Holds(s', Some(ActionDone(RECEIPT, None)))
  {
    hide OperationBusy;
  }

  lemma Completed(s: State) returns (s': State)
    requires Reached(s) && At(s, Some(FirstRow(Live)), map["n1" := Up], {"n1"}, Serving, Off, Off)
    requires Holds(s.store, Some(Pending)) && s.holding == map["a" := "1"]
    ensures Reached(s') && At(s', Some(FirstRow(Live)), map["n1" := Up], {"n1"}, Ready, Off, Off)
    ensures Holds(s'.store, Some(ActionDone(RECEIPT, None)))
  {
    hide Reached, NextCleanup, NextWorld, FinishAction;
    Finished(s.store);
    s' := Move(s, Act("a", Complete(RECEIPT, None, Some(Encoded(RECEIPT)), None)));
  }

  /** Clean-up of "a" from outside `execute` removes the container and confirms it, but has not closed the row yet. */
  lemma Confirmed(s: State) returns (s': State)
    requires Reached(s) && At(s, Some(FirstRow(Live)), map["n1" := Exited], {"n1"}, Ready, Off, Off)
    ensures Reached(s') && s'.store == s.store
    ensures At(s', Some(FirstRow(Live)), map[], {"n1"}, Idle, Closing(FirstRow(Live)), Off)
  {
    hide Reached, Next;
    var s1 := OwnRowRead(s);
    s' := RemovalConfirmed(s1);
  }

  lemma OwnRowRead(s: State) returns (s': State)
    requires Reached(s) && At(s, Some(FirstRow(Live)), map["n1" := Exited], {"n1"}, Ready, Off, Off)
    ensures Reached(s') && s'.store == s.store
    ensures At(s', Some(FirstRow(Live)), map["n1" := Exited], {"n1"}, Idle, Looking(FirstRow(Live)), Off)
  {
    hide Reached, NextExec, NextWorld, Close;
    var s0 := Move(s, CleanUp("a", Begin(false, true)));
    assert At(s0, Some(FirstRow(Live)), map["n1" := Exited], {"n1"}, Idle, Draining(false, true), Off);
    s' := Move(s0, CleanUp("a", Read));
  }

  lemma RemovalConfirmed(s: State) returns (s': State)
    requires Reached(s) && At(s, Some(FirstRow(Live)), map["n1" := Exited], {"n1"}, Idle, Looking(FirstRow(Live)), Off)
    ensures Reached(s') && s'.store == s.store
    ensures At(s', Some(FirstRow(Live)), map[], {"n1"}, Idle, Closing(FirstRow(Live)), Off)
  {
    hide Reached, NextExec, NextWorld, Close;
    var s1 := Move(s, CleanUp("a", Look));
    var s2 := Move(s1, CleanUp("a", Remove));
    s' := Move(s2, CleanUp("a", Recheck));
  }

  lemma RowRead(s: State) returns (s': State)
    requires Reached(s) && At(s, Some(FirstRow(Live)), map[], {"n1"}, Idle, Closing(FirstRow(Live)), Off)
    ensures Reached(s') && s'.store == s.store
    ensures At(s', Some(FirstRow(Live)), map[], {"n1"}, Idle, Closing(FirstRow(Live)), Looking(FirstRow(Live)))
  {
    hide Reached, NextExec, NextWorld, Close;
    var s0 := Move(s, CleanUp("b", Begin(true, true)));
    assert At(s0, Some(FirstRow(Live)), map[], {"n1"}, Idle, Closing(FirstRow(Live)), Draining(true, true));
    s' := Move(s0, CleanUp("b", Read));
  }

  /** Run "b" recovers the same row, finds no container, and closes it. */
  lemma Recovered(s: State) returns (s': State)
    requires Reached(s) && At(s, Some(FirstRow(Live)), map[], {"n1"}, Idle, Closing(FirstRow(Live)), Off)
    requires Holds(s.store, Some(ActionDone(RECEIPT, None)))
    ensures Reached(s') && At(s', None, map[], {"n1"}, Idle, Closing(FirstRow(Live)), Off)
    ensures Holds(s'.store, Some(ActionDone(RECEIPT, None)))
  {
    hide Reached, NextExec, NextWorld;
    var s1 := RowRead(s);
    var s2 := Move(s1, CleanUp("b", Look));
    s' := Move(s2, CleanUp("b", CloseRow(true)));
    assert s'.store.actions == s.store.actions;
  }

  /** "a" admits another action, which needs a browser of its own. */
  lemma SecondAction(s: State) returns (s': State)
    requires Reached(s) && At(s, None, map[], {"n1"}, Idle, Closing(FirstRow(Live)), Off)
    requires Holds(s.store, Some(ActionDone(RECEIPT, None)))
    ensures Reached(s') && At(s', None, map[], {"n1"}, Entered, Closing(FirstRow(Live)), Off)
    ensures "a" in s'.holding && s'.holding["a"] == "2" && s'.store.workspaces == map[SCOPE := []]
    ensures Key(SCOPE, "2") in s'.store.actions && s'.store.actions[Key(SCOPE, "2")] == Action("a", "r", Pending)
  {
    hide Reached, AdmitAction, NextCleanup, NextWorld;
    Admitted(s.store, Some(ActionDone(RECEIPT, None)), "2");
    s' := Move(s, Act("a", Take("2", "r", None)));
  }

  lemma StaleClose(s: State)
    requires At(s, Some(SECOND_ROW), map["n2" := Made], {"n1", "n2"}, Exec.Creating("n2"), Closing(FirstRow(Live)), Off)
    ensures !Safe(Next(s, CleanUp("a", CloseRow(true))))
  {
    assert "n2" in s.containers;
  }

  /**
   * The delayed close names only the run, so it closes the row of the second browser over its live container.
   * Each action holds the action lock from its admission to its receipt, and the two actions do not overlap.
   */
  lemma RecoveringALiveRunLosesAContainer() returns (steps: seq<Step>)
    ensures !Safe(Execute(Start(EMPTY), steps))
  {
    hide Safe, Next, At, Holds;
    var s1 := FirstBrowser();
    var s2 := Confirmed(s1);
    var s3 := Recovered(s2);
    var s4 := SecondAction(s3);
    var s5 := OpenBrowser(s4, "n2", {"n1"}, Closing(FirstRow(Live)));
    assert {"n1"} + {"n2"} == {"n1", "n2"};
    StaleClose(s5);
    var s6 := Move(s5, CleanUp("a", CloseRow(true)));
    steps :| Execute(Start(EMPTY), steps) == s6;
  }
}
