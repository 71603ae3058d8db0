/** Which requests reach the network and which answers the page, and what each step does to the accounts. */
module RelayOutcomes {
  import opened Prelude
  import opened Totals
  import opened RelayAccounting

  /** The other relays stay where they are. */
  ghost predicate OthersStay(s: State, s': State, task: int) {
    forall t | t != task :: (t in s'.relays <==> t in s.relays) && (t in s.relays ==> s'.relays[t] == s.relays[t])
  }

  /** The relay is still there, of the same action, and at the given place. */
  ghost predicate IsAt(s: State, s': State, task: int, at: Progress)
    requires task in s.relays
  {
    task in s'.relays && s'.relays[task] == Relay(s.relays[task].action, at) && OthersStay(s, s', task)
  }

  // ---- what reaches the network

  /**
   * A checked request goes on exactly if it is well formed, of the active action, allowed, and within both counts with
   * itself counted; any other is refused. Requests of the active action are counted, allowed or not.
   */
  lemma WaitsExactlyWhen(s: State, task: int, wellFormed: bool, allowed: bool)
    requires Enabled(s, BeginEvent(task, wellFormed, allowed))
    ensures var s' := Next(s, BeginEvent(task, wellFormed, allowed));
            var mine := wellFormed && s.active == Some(s.relays[task].action);
            var passes := mine && allowed && s.requests < MAX_REQUESTS_PER_ACTION && s.runRequests < MAX_RUN_REQUESTS;
            && IsAt(s, s', task, if passes then Waiting else Refusing)
            && s'.requests == s.requests + (if mine then 1 else 0)
            && s'.runRequests == s.runRequests + (if mine then 1 else 0)
            && s'.bytes == s.bytes && s'.reserved == s.reserved && s'.permits == s.permits
  {
  }

  /**
   * A waiting relay fetches exactly if the whole bound still fits the action's budget, and then holds it and a slot.
   */
  lemma FetchesExactlyWhen(s: State, task: int)
    requires Enabled(s, AcquireEvent(task))
    ensures var s' := Next(s, AcquireEvent(task));
            var fits := s.bytes + s.reserved + MAX_RESOURCE_WIRE_BYTES <= MAX_ACTION_NETWORK_BYTES;
            && IsAt(s, s', task, if fits then Fetching(0) else Refusing) && s'.bytes == s.bytes
            && s'.reserved == s.reserved + (if fits then MAX_RESOURCE_WIRE_BYTES else 0)
            && s'.permits == s.permits - (if fits then 1 else 0)
  {
  }

  /** The check let this relay through, and its task has not been given to another request since. */
  ghost predicate WasAllowed(run: seq<Event>, task: int) {
    exists k | 0 <= k < |run| ::
      run[k] == BeginEvent(task, true, true) && forall l | k < l < |run| :: !IsArrival(run[l], task)
  }

  predicate IsArrival(e: Event, task: int) { e.ArriveEvent? && e.task == task }

  lemma StillAllowed(run: seq<Event>, e: Event, task: int)
    requires WasAllowed(run, task) && !IsArrival(e, task)
    ensures WasAllowed(run + [e], task)
  {
    var k :| 0 <= k < |run| && run[k] == BeginEvent(task, true, true)
             && forall l | k < l < |run| :: !IsArrival(run[l], task);
    var longer := run + [e];
    assert longer[k] == run[k];
    forall l | k < l < |longer| ensures !IsArrival(longer[l], task) { if l < |run| { assert longer[l] == run[l]; } }
  }

  /** A step engages no relay but one it lets through, and an engaged relay's task is taken. */
  lemma StepEngages(s: State, e: Event, task: int)
    requires Enabled(s, e) && task in Next(s, e).relays && Engaged(Next(s, e).relays[task])
    ensures e == BeginEvent(task, true, true) || (task in s.relays && Engaged(s.relays[task]) && !IsArrival(e, task))
  {
    hide Charge;
  }

  lemma {:induction false} PossibleSplits(s: State, a: seq<Event>, e: Event)
    requires Possible(s, a + [e])
    ensures Possible(s, a) && Enabled(After(s, a), e) && After(s, a + [e]) == Next(After(s, a), e)
    decreases |a|
  {
    hide Next, Enabled;
    if a != [] {
      assert (a + [e])[1..] == a[1..] + [e] && (a + [e])[0] == a[0];
      PossibleSplits(Next(s, a[0]), a[1..], e);
    } else {
      assert a + [e] == [e] && [e][1..] == [];
    }
  }

  /** In every run from the start, a relay that waits, fetches or sends was checked and found allowed. */
  lemma {:induction false} EngagedRelaysWereAllowed(run: seq<Event>, task: int)
    requires Possible(START, run)
    requires task in After(START, run).relays && Engaged(After(START, run).relays[task])
    ensures WasAllowed(run, task)
    decreases |run|
  {
    hide Possible, After, Next, Enabled;
    if run == [] {
      assert After(START, []) == START by { EmptyRun(); }
    } else {
      var front, e := run[..|run| - 1], run[|run| - 1];
      assert run == front + [e];
      PossibleSplits(START, front, e);
      StepEngages(After(START, front), e, task);
      if e == BeginEvent(task, true, true) {
        assert run[|run| - 1] == BeginEvent(task, true, true);
      } else {
        EngagedRelaysWereAllowed(front, task);
        StillAllowed(front, e, task);
      }
    }
  }

  lemma EmptyRun()
    ensures After(START, []) == START
  {
  }

  // ---- what reaches the page

  /**
   * An answer that may be passed on: of the address asked for, bounded, intact, truly reported, allowed to redirect.
   */
  predicate Valid(o: Outcome) {
    && o.Answered? && o.urlMatches && o.digestMatches && o.redirectAllowed && o.body <= MAX_RESOURCE_BYTES
    && (o.wire == Unreported || (o.wire.Reported? && 0 <= o.wire.bytes <= MAX_RESOURCE_WIRE_BYTES))
  }

  /** A valid answer is charged what it took on the wire, and at least its body; anything else the whole reservation. */
  predicate IsCost(o: Outcome, cost: int) {
    if !Valid(o) then cost == MAX_RESOURCE_WIRE_BYTES
    else
      && cost >= o.body && (o.wire.Reported? ==> cost >= o.wire.bytes)
      && (cost == o.body || (o.wire.Reported? && cost == o.wire.bytes))
  }

  /**
   * In every run: an answer is sent exactly if it is valid, at its cost; any other costs the whole reservation, frees
   * its slot and is refused. Either way the reservation is released.
   */
  lemma SentExactlyWhenValid(run: seq<Event>, task: int, o: Outcome)
    requires Possible(START, run) && Enabled(After(START, run), SettleEvent(task, o))
    ensures var s, s' := After(START, run), Next(After(START, run), SettleEvent(task, o));
            && IsAt(s, s', task, if Valid(o) then Sending else Refusing)
            && IsCost(o, s'.bytes - s.bytes) && s'.reserved == s.reserved - MAX_RESOURCE_WIRE_BYTES
            && s'.permits == s.permits + (if Valid(o) then 0 else 1)
            && s'.requests == s.requests && s'.runRequests == s.runRequests
  {
    hide After, Possible;
    if Charge(o).Some? { PricedAnswersAreSent(run, task, o); }
  }

  /** The slot of an answer returns whether it is delivered or not; the reservation it had is already settled. */
  lemma SlotReturns(s: State, task: int, delivered: bool)
    requires Enabled(s, SentEvent(task, delivered))
    ensures var s' := Next(s, SentEvent(task, delivered));
            && s'.permits == s.permits + 1 && s'.bytes == s.bytes && s'.reserved == s.reserved
            && if delivered then task !in s'.relays && OthersStay(s, s', task) else IsAt(s, s', task, Refusing)
  {
  }

  /** A cancelled relay is gone and gives back whatever it held, wherever it stood. */
  lemma CancelledHoldsNothing(s: State, task: int)
    requires Enabled(s, CancelEvent(task))
    ensures var s', at := Next(s, CancelEvent(task)), s.relays[task].at;
            && task !in s'.relays && OthersStay(s, s', task)
            && s'.reserved == s.reserved - (if at.Fetching? then MAX_RESOURCE_WIRE_BYTES else 0)
            && s'.bytes == s.bytes + (if at.Fetching? then MAX_RESOURCE_WIRE_BYTES else 0)
            && s'.permits == s.permits + (if at.Fetching? || at.Sending? then 1 else 0)
  {
  }

  // ---- what really happened

  /** The bytes taken from the network since the last command began. */
  function TakenInAction(run: seq<Event>): nat {
    if run == [] then 0 else
      var e, before := run[|run| - 1], TakenInAction(run[..|run| - 1]);
      if e.CommandEvent? then 0 else if e.ReceiveEvent? then before + e.n else before
  }

  /** The last event of the run let its request through. */
  ghost predicate LetsThrough(run: seq<Event>)
    requires run != [] && Possible(START, run)
  {
    var e, s := run[|run| - 1], After(START, run);
    e.BeginEvent? && e.task in s.relays && s.relays[e.task].at.Waiting?
  }

  /** How many requests the run let through, and how many of them since the last command began. */
  ghost function LetThrough(run: seq<Event>, inAction: bool): nat
    requires Possible(START, run)
    decreases |run|
  {
    if run == [] then 0 else
      var front, e := run[..|run| - 1], run[|run| - 1];
      assert run == front + [e];
      PossibleSplits(START, front, e);
      if inAction && e.CommandEvent? then 0
      else LetThrough(front, inAction) + (if LetsThrough(run) then 1 else 0)
  }

  lemma ReceivedTotals(m: map<int, Relay>, t: int, r: Relay)
    ensures Sum(m[t := r], Received) == Sum(m - {t}, Received) + Received(t, r)
    ensures t in m ==> Sum(m, Received) == Sum(m - {t}, Received) + Received(t, m[t])
    ensures t !in m ==> m - {t} == m
  {
    SumUpdate(m, t, r, Received);
    if t !in m { assert m - {t} == m; }
  }

  lemma StepTakes(s: State, e: Event)
    requires Inv(s) && Enabled(s, e)
    ensures var s' := Next(s, e);
            s'.settled + Sum(s'.relays, Received)
            == if e.CommandEvent? then 0
               else s.settled + Sum(s.relays, Received) + (if e.ReceiveEvent? then e.n else 0)
  {
    hide Sum, Accounts, Counts, Charge, Owned;
    if e.CommandEvent? {
      CommandTakes(s, e);
    } else if e.BeginEvent? || e.AcquireEvent? || e.ReceiveEvent? || e.SettleEvent? {
      MoveTakes(s, e);
    } else if e.ArriveEvent? || e.RefusedEvent? || e.SentEvent? || e.CancelEvent? {
      ComeAndGoTakes(s, e);
    }
  }

  lemma CommandTakes(s: State, e: Event)
    requires Inv(s) && Enabled(s, e) && e.CommandEvent?
    ensures Next(s, e).settled + Sum(Next(s, e).relays, Received) == 0
  {
    SumZero(s.relays, Received);
  }

  lemma MoveTakes(s: State, e: Event)
    requires Enabled(s, e) && (e.BeginEvent? || e.AcquireEvent? || e.ReceiveEvent? || e.SettleEvent?)
    ensures var s' := Next(s, e);
            s'.settled + Sum(s'.relays, Received)
            == s.settled + Sum(s.relays, Received) + (if e.ReceiveEvent? then e.n else 0)
  {
    hide Sum, Charge;
    ReceivedTotals(s.relays, e.task, Next(s, e).relays[e.task]);
  }

  lemma ComeAndGoTakes(s: State, e: Event)
    requires Enabled(s, e) && (e.ArriveEvent? || e.RefusedEvent? || e.SentEvent? || e.CancelEvent?)
    ensures var s' := Next(s, e); s'.settled + Sum(s'.relays, Received) == s.settled + Sum(s.relays, Received)
  {
    hide Sum;
    ReceivedTotals(s.relays, e.task, if e.ArriveEvent? then Relay(e.action, Created)
                                     else s.relays[e.task].(at := Refusing));
  }

  lemma StepLetsThrough(s: State, e: Event)
    requires Enabled(s, e)
    ensures var s' := Next(s, e);
            var one := if e.BeginEvent? && e.task in s'.relays && s'.relays[e.task].at.Waiting? then 1 else 0;
            && s'.runAdmitted == s.runAdmitted + one
            && s'.admitted == if e.CommandEvent? then 0 else s.admitted + one
  {
    hide Charge;
  }

  /** The accounts' own counters are those of what happened. */
  lemma {:induction false} CountersAreTrue(run: seq<Event>)
    requires Possible(START, run)
    ensures var s := After(START, run);
            && s.settled + Sum(s.relays, Received) == TakenInAction(run)
            && s.admitted == LetThrough(run, true) && s.runAdmitted == LetThrough(run, false)
    decreases |run|
  {
    if run == [] {
      SumZero(START.relays, Received);
    } else {
      var front, e := run[..|run| - 1], run[|run| - 1];
      assert run == front + [e];
      PossibleSplits(START, front, e);
      CountersAreTrue(front);
      StartIsSound();
      RunKeepsInv(START, front);
      hide Inv, Sum, Possible, After, Next, Enabled;
      StepTakes(After(START, front), e);
      StepLetsThrough(After(START, front), e);
    }
  }

  /**
   * Over every interleaving: within one action no more than its budget is ever taken from the network, by answered,
   * failed and cancelled fetches together, and at most 80 requests an action and 400 a run are let through.
   */
  lemma WhatHappensIsBounded(run: seq<Event>)
    requires Possible(START, run)
    ensures TakenInAction(run) <= MAX_ACTION_NETWORK_BYTES
    ensures LetThrough(run, true) <= MAX_REQUESTS_PER_ACTION && LetThrough(run, false) <= MAX_RUN_REQUESTS
  {
    CountersAreTrue(run);
    EveryRunIsBounded(run);
  }

  // ---- commands

  /** A request becomes a relay of its action exactly while there are fewer than the bound, and else changes nothing. */
  lemma ArrivesExactlyWhen(s: State, task: int, action: string)
    requires Enabled(s, ArriveEvent(task, action))
    ensures var s' := Next(s, ArriveEvent(task, action));
            if |s.relays| < MAX_PENDING_REQUESTS
            then task in s'.relays && s'.relays[task] == Relay(action, Created) && OthersStay(s, s', task)
                 && s'.(relays := s.relays) == s
            else s' == s
  {
  }

  /** The next command may begin as soon as the last one's relays are gone. */
  lemma DrainingEndsTheCommand(s: State, identity: string)
    requires s.phase.Draining? && s.phase.tasks !! s.relays.Keys
    ensures Enabled(s, DrainedEvent) && Enabled(Next(s, DrainedEvent), CommandEvent(identity))
            && Next(s, DrainedEvent).relays == s.relays
  {
  }

  /** A new command starts from empty accounts under its own name; what the run has asked for stays counted. */
  lemma CommandStartsAfresh(s: State, identity: string)
    requires Enabled(s, CommandEvent(identity))
    ensures var s' := Next(s, CommandEvent(identity));
            && s'.active == Some(identity) && s'.requests == 0 && s'.bytes == 0 && s'.reserved == 0
            && s'.runRequests == s.runRequests && s'.relays == s.relays && s'.permits == s.permits
  {
  }

  /**
   * When a command ends, nothing of it can go on: no request is let through until the next one, and that comes only
   * after every relay there was has left.
   */
  lemma {:induction false} EndedCommandAdmitsNothing(s: State, run: seq<Event>)
    requires Enabled(s, FinishEvent) && Possible(Next(s, FinishEvent), run)
    requires forall e | e in run :: !e.CommandEvent?
    ensures var s' := After(Next(s, FinishEvent), run);
            && s'.active == None && s'.admitted == s.admitted && s'.runAdmitted == s.runAdmitted
            && (s'.phase.Idle? ==> exists k | 0 <= k < |run| :: run[k] == DrainedEvent)
  {
    var s1 := Next(s, FinishEvent);
    hide Next, Enabled, Possible, After;
    assert s1.active == None && s1.admitted == s.admitted && s1.runAdmitted == s.runAdmitted && s1.phase.Draining? by {
      Finished(s);
    }
    StaysEnded(s1, run);
  }

  lemma Finished(s: State)
    requires Enabled(s, FinishEvent)
    ensures var s1 := Next(s, FinishEvent);
            s1.active == None && s1.admitted == s.admitted && s1.runAdmitted == s.runAdmitted
            && s1.phase == Draining(s.relays.Keys) && s1.relays == s.relays
  {
  }

  lemma EndedStep(s: State, e: Event)
    requires Enabled(s, e) && s.active == None && !e.CommandEvent?
    ensures var s' := Next(s, e);
            && s'.active == None && s'.admitted == s.admitted && s'.runAdmitted == s.runAdmitted
            && (s'.phase == s.phase || e == DrainedEvent || s.phase.Running?)
  {
    hide Charge;
  }

  lemma {:induction false} StaysEnded(s: State, run: seq<Event>)
    requires s.active == None && !s.phase.Running? && Possible(s, run) && forall e | e in run :: !e.CommandEvent?
    ensures var s' := After(s, run);
            && s'.active == None && s'.admitted == s.admitted && s'.runAdmitted == s.runAdmitted
            && (s'.phase == s.phase || exists k | 0 <= k < |run| :: run[k] == DrainedEvent)
    decreases |run|
  {
    if run != [] {
      var s1 := Next(s, run[0]);
      assert run[0] in run;
      EndedStep(s, run[0]);
      assert !s1.phase.Running?;
      hide Next, Enabled;
      StaysEnded(s1, run[1..]);
      if run[0] != DrainedEvent && After(s, run).phase != s.phase {
        var k :| 0 <= k < |run| - 1 && run[1..][k] == DrainedEvent;
        assert run[k + 1] == DrainedEvent;
      }
    }
  }
}
