/**
 * The byte and request accounts of one browser session. Relays run concurrently; the code between two awaits is one
 * step, and any relay may take the next one.
 */
module RelayAccounting {
  import opened Prelude
  import opened Totals

  const MIB: nat := 1024 * 1024
  const MAX_RESOURCE_BYTES: nat := 2 * MIB
  const MAX_RESOURCE_WIRE_BYTES: nat := 4 * MIB
  const MAX_ACTION_NETWORK_BYTES: nat := 16 * MIB
  const MAX_REQUESTS_PER_ACTION: nat := 80
  const MAX_RUN_REQUESTS: nat := 400
  const MAX_PENDING_REQUESTS: nat := 24
  const SLOTS: nat := if 6 < MAX_ACTION_NETWORK_BYTES / MAX_RESOURCE_WIRE_BYTES then 6
    else MAX_ACTION_NETWORK_BYTES / MAX_RESOURCE_WIRE_BYTES

  /** Where a relay is suspended. `received` counts the bytes its provider has really taken from the network. */
  datatype Progress = Created | Waiting | Fetching(received: nat) | Sending | Refusing

  datatype Relay = Relay(action: string, at: Progress)

  datatype Wire = Unreported | Malformed | Reported(bytes: int)

  /** What the resource provider did, as far as the relay looks at it. */
  datatype Outcome = Raised | Answered(urlMatches: bool, body: nat, digestMatches: bool, wire: Wire,
                                       redirectAllowed: bool)

  /** The command in progress, its clean-up, or neither. */
  datatype Phase = Idle | Running | Draining(tasks: set<int>)

  /** `settled` and `admitted` are not stored by the session: the real bytes and fetches of the action so far. */
  datatype State = State(active: Option<string>, requests: nat, bytes: int, reserved: int, runRequests: nat,
                         permits: nat, relays: map<int, Relay>, phase: Phase, settled: nat, admitted: nat,
                         runAdmitted: nat)

  const START := State(None, 0, 0, 0, 0, SLOTS, map[], Idle, 0, 0, 0)

  function Moved(s: State, task: int, at: Progress): State
    requires task in s.relays
  {
    s.(relays := s.relays[task := s.relays[task].(at := at)])
  }

  function Gone(s: State, task: int): State { s.(relays := s.relays - {task}) }

  // ---- the steps

  function Command(s: State, identity: string): State {
    s.(active := Some(identity), requests := 0, bytes := 0, reserved := 0, phase := Running, settled := 0,
       admitted := 0)
  }

  function Arrive(s: State, task: int, action: string): State {
    if |s.relays| >= MAX_PENDING_REQUESTS then s else s.(relays := s.relays[task := Relay(action, Created)])
  }

  /** `allowed` stands for the method and the trusted allowlist. */
  function Begin(s: State, task: int, wellFormed: bool, allowed: bool): State
    requires task in s.relays
  {
    if !wellFormed || s.active != Some(s.relays[task].action) then Moved(s, task, Refusing)
    else
      var counted := s.(requests := s.requests + 1, runRequests := s.runRequests + 1);
      if counted.requests > MAX_REQUESTS_PER_ACTION || counted.runRequests > MAX_RUN_REQUESTS || !allowed
        then Moved(counted, task, Refusing)
      else Moved(counted.(admitted := s.admitted + 1, runAdmitted := s.runAdmitted + 1), task, Waiting)
  }

  function Acquire(s: State, task: int): State
    requires task in s.relays && s.permits > 0
  {
    if s.bytes + s.reserved + MAX_RESOURCE_WIRE_BYTES > MAX_ACTION_NETWORK_BYTES then Moved(s, task, Refusing)
    else Moved(s.(permits := s.permits - 1, reserved := s.reserved + MAX_RESOURCE_WIRE_BYTES), task, Fetching(0))
  }

  function Receive(s: State, task: int, n: nat): State
    requires task in s.relays && s.relays[task].at.Fetching?
  {
    Moved(s, task, Fetching(s.relays[task].at.received + n))
  }

  /** What a valid answer costs; an invalid or failed one has no price of its own. */
  function Charge(o: Outcome): Option<int> {
    if o.Raised? || !o.urlMatches || o.body > MAX_RESOURCE_BYTES || !o.digestMatches then None
    else if o.wire.Malformed? || (o.wire.Reported? && !(0 <= o.wire.bytes <= MAX_RESOURCE_WIRE_BYTES)) then None
    else if !o.redirectAllowed then None
    else Some(if o.wire.Reported? && o.wire.bytes > o.body then o.wire.bytes else o.body)
  }

  /** Spend the charge, or the whole reservation when the cost is unknown, and release the reservation. */
  function Paid(s: State, charge: int, received: nat): State {
    s.(bytes := s.bytes + charge, reserved := s.reserved - MAX_RESOURCE_WIRE_BYTES, settled := s.settled + received)
  }

  function Settle(s: State, task: int, o: Outcome): State
    requires task in s.relays && s.relays[task].at.Fetching?
  {
    var charge := Charge(o);
    var paid := Paid(s, if charge.Some? then charge.value else MAX_RESOURCE_WIRE_BYTES, s.relays[task].at.received);
    if charge.None? || paid.bytes > MAX_ACTION_NETWORK_BYTES
      then Moved(paid.(permits := paid.permits + 1), task, Refusing)
    else Moved(paid, task, Sending)
  }

  function Sent(s: State, task: int, delivered: bool): State
    requires task in s.relays
  {
    var released := s.(permits := s.permits + 1);
    if delivered then Gone(released, task) else Moved(released, task, Refusing)
  }

  /**
   * A cancellation is delivered at the await where the relay stands; a fetch cut short spends its whole reservation.
   */
  function Cancel(s: State, task: int): State
    requires task in s.relays
  {
    match s.relays[task].at
    case Fetching(received) => Gone(Paid(s, MAX_RESOURCE_WIRE_BYTES, received).(permits := s.permits + 1), task)
    case Sending => Gone(s.(permits := s.permits + 1), task)
    case _ => Gone(s, task)
  }

  function Finish(s: State): State { s.(active := None, phase := Draining(s.relays.Keys)) }

  function Drained(s: State): State { s.(phase := Idle) }

  // ---- runs

  datatype Event =
    | CommandEvent(identity: string)
    | ArriveEvent(task: int, action: string)
    | BeginEvent(task: int, wellFormed: bool, allowed: bool)
    | AcquireEvent(task: int)
    | ReceiveEvent(task: int, n: nat)
    | SettleEvent(task: int, outcome: Outcome)
    | SentEvent(task: int, delivered: bool)
    | RefusedEvent(task: int)
    | CancelEvent(task: int)
    | FinishEvent
    | DrainedEvent

  /**
   * When a step can happen. The provider is trusted twice: it takes no more than the reservation, and the price of a
   * valid answer covers what it took.
   */
  ghost predicate Enabled(s: State, e: Event) {
    match e
    case CommandEvent(_) => s.phase.Idle?
    case ArriveEvent(task, _) => task !in s.relays
    case BeginEvent(task, _, _) => task in s.relays && s.relays[task].at.Created?
    case AcquireEvent(task) => task in s.relays && s.relays[task].at.Waiting? && s.permits > 0
    case ReceiveEvent(task, n) =>
      task in s.relays && s.relays[task].at.Fetching? && s.relays[task].at.received + n <= MAX_RESOURCE_WIRE_BYTES
    case SettleEvent(task, o) =>
      task in s.relays && s.relays[task].at.Fetching?
        && (Charge(o).Some? ==> s.relays[task].at.received <= Charge(o).value)
    case SentEvent(task, _) => task in s.relays && s.relays[task].at.Sending?
    case RefusedEvent(task) => task in s.relays && s.relays[task].at.Refusing?
    case CancelEvent(task) => task in s.relays
    case FinishEvent => s.phase.Running?
    case DrainedEvent => s.phase.Draining? && s.phase.tasks !! s.relays.Keys
  }

  ghost function Next(s: State, e: Event): State
    requires Enabled(s, e)
  {
    match e
    case CommandEvent(identity) => Command(s, identity)
    case ArriveEvent(task, action) => Arrive(s, task, action)
    case BeginEvent(task, wellFormed, allowed) => Begin(s, task, wellFormed, allowed)
    case AcquireEvent(task) => Acquire(s, task)
    case ReceiveEvent(task, n) => Receive(s, task, n)
    case SettleEvent(task, o) => Settle(s, task, o)
    case SentEvent(task, delivered) => Sent(s, task, delivered)
    case RefusedEvent(task) => Gone(s, task)
    case CancelEvent(task) => Cancel(s, task)
    case FinishEvent => Finish(s)
    case DrainedEvent => Drained(s)
  }

  ghost predicate Possible(s: State, run: seq<Event>)
    decreases |run|
  {
    run == [] || (Enabled(s, run[0]) && Possible(Next(s, run[0]), run[1..]))
  }

  ghost function After(s: State, run: seq<Event>): State
    requires Possible(s, run)
    decreases |run|
  {
    if run == [] then s else After(Next(s, run[0]), run[1..])
  }

  // ---- the invariant

  function Reserves(task: int, r: Relay): nat { if r.at.Fetching? then 1 else 0 }

  function Occupies(task: int, r: Relay): nat { if r.at.Fetching? || r.at.Sending? then 1 else 0 }

  function Received(task: int, r: Relay): nat { if r.at.Fetching? then r.at.received else 0 }

  predicate Engaged(r: Relay) { r.at.Waiting? || r.at.Fetching? || r.at.Sending? }

  ghost predicate Accounts(s: State) {
    && s.reserved == MAX_RESOURCE_WIRE_BYTES * Sum(s.relays, Reserves)
    && s.permits + Sum(s.relays, Occupies) == SLOTS
    && s.settled <= s.bytes && s.bytes + s.reserved <= MAX_ACTION_NETWORK_BYTES
    && (forall t | t in s.relays :: Received(t, s.relays[t]) <= MAX_RESOURCE_WIRE_BYTES)
  }

  ghost predicate Counts(s: State) {
    && |s.relays| <= MAX_PENDING_REQUESTS
    && s.admitted <= s.requests && s.admitted <= MAX_REQUESTS_PER_ACTION
    && s.runAdmitted <= s.runRequests && s.runAdmitted <= MAX_RUN_REQUESTS
  }

  /** Only the current command's relays are past their first check, and while it drains, only those it waits for. */
  ghost predicate Owned(s: State) {
    && (s.phase.Running? <==> s.active.Some?)
    && (forall t | t in s.relays && Engaged(s.relays[t]) ::
          match s.phase
          case Idle => false
          case Running => s.relays[t].action == s.active.value
          case Draining(tasks) => t in tasks)
  }

  ghost predicate Inv(s: State) { Accounts(s) && Counts(s) && Owned(s) }

  /** Replacing one relay changes each total by that relay's part. */
  lemma MoveTotals(m: map<int, Relay>, t: int, r: Relay)
    ensures Sum(m[t := r], Reserves) == Sum(m - {t}, Reserves) + Reserves(t, r)
    ensures Sum(m[t := r], Occupies) == Sum(m - {t}, Occupies) + Occupies(t, r)
    ensures t in m ==> Sum(m, Reserves) == Sum(m - {t}, Reserves) + Reserves(t, m[t])
    ensures t in m ==> Sum(m, Occupies) == Sum(m - {t}, Occupies) + Occupies(t, m[t])
    ensures t !in m ==> m - {t} == m
  {
    SumUpdate(m, t, r, Reserves);
    SumUpdate(m, t, r, Occupies);
    if t !in m { assert m - {t} == m; }
  }

  lemma StartIsSound()
    ensures Inv(START)
  {
    SumZero(START.relays, Reserves);
    SumZero(START.relays, Occupies);
  }

  lemma CommandKeepsAccounts(s: State, identity: string)
    requires Inv(s) && s.phase.Idle?
    ensures Accounts(Command(s, identity))
  {
    SumZero(s.relays, Reserves);
    SumZero(s.relays, Occupies);
  }

  lemma BeginKeepsAccounts(s: State, e: Event)
    requires Accounts(s) && Enabled(s, e) && (e.BeginEvent? || e.ReceiveEvent?)
    ensures Accounts(Next(s, e))
  {
    hide Sum;
    MoveTotals(s.relays, e.task, Next(s, e).relays[e.task]);
  }

  lemma ComeAndGoKeepsAccounts(s: State, e: Event)
    requires Accounts(s) && Enabled(s, e) && (e.ArriveEvent? || e.RefusedEvent?)
    ensures Accounts(Next(s, e))
  {
    hide Sum;
    MoveTotals(s.relays, e.task, if e.ArriveEvent? then Relay(e.action, Created) else s.relays[e.task]);
  }

  lemma AcquireKeepsAccounts(s: State, e: Event)
    requires Accounts(s) && Enabled(s, e) && e.AcquireEvent?
    ensures Accounts(Next(s, e))
  {
    hide Sum;
    MoveTotals(s.relays, e.task, Next(s, e).relays[e.task]);
  }

  lemma SettleKeepsAccounts(s: State, e: Event)
    requires Accounts(s) && Enabled(s, e) && e.SettleEvent?
    ensures Accounts(Next(s, e))
  {
    hide Sum;
    MoveTotals(s.relays, e.task, Next(s, e).relays[e.task]);
  }

  lemma EndKeepsAccounts(s: State, e: Event)
    requires Accounts(s) && Enabled(s, e) && (e.SentEvent? || e.CancelEvent?)
    ensures Accounts(Next(s, e))
  {
    hide Sum;
    MoveTotals(s.relays, e.task, s.relays[e.task].(at := Refusing));
  }

  lemma AccountsKept(s: State, e: Event)
    requires Inv(s) && Enabled(s, e)
    ensures Accounts(Next(s, e))
  {
    hide Sum, Counts, Owned;
    if e.CommandEvent? {
      CommandKeepsAccounts(s, e.identity);
    } else if e.AcquireEvent? {
      AcquireKeepsAccounts(s, e);
    } else if e.SettleEvent? {
      SettleKeepsAccounts(s, e);
    } else if e.SentEvent? || e.CancelEvent? {
      EndKeepsAccounts(s, e);
    } else if e.BeginEvent? || e.ReceiveEvent? {
      BeginKeepsAccounts(s, e);
    } else if e.ArriveEvent? || e.RefusedEvent? {
      ComeAndGoKeepsAccounts(s, e);
    }
  }

  lemma Sizes(m: map<int, Relay>, t: int, r: Relay)
    ensures |m - {t}| <= |m| && |m[t := r]| == if t in m then |m| else |m| + 1
  {
    assert (m - {t}).Keys == m.Keys - {t};
    assert m[t := r].Keys == m.Keys + {t};
    assert |m - {t}| == |m.Keys - {t}| && |m[t := r]| == |m.Keys + {t}| && |m| == |m.Keys|;
    assert t in m ==> m.Keys + {t} == m.Keys;
  }

  lemma CountsKept(s: State, e: Event)
    requires Counts(s) && Enabled(s, e)
    ensures Counts(Next(s, e))
  {
    hide Charge, Sum;
    if !e.CommandEvent? && !e.FinishEvent? && !e.DrainedEvent? {
      Sizes(s.relays, e.task, if e.task in Next(s, e).relays then Next(s, e).relays[e.task] else Relay("", Created));
    }
  }

  lemma OwnedKept(s: State, e: Event)
    requires Inv(s) && Enabled(s, e)
    ensures Owned(Next(s, e))
  {
    hide Accounts, Counts;
  }

  lemma StepKeepsInv(s: State, e: Event)
    requires Inv(s) && Enabled(s, e)
    ensures Inv(Next(s, e))
  {
    hide Accounts, Counts, Owned, Enabled, Next;
    AccountsKept(s, e);
    CountsKept(s, e);
    OwnedKept(s, e);
  }

  lemma {:induction false} RunKeepsInv(s: State, run: seq<Event>)
    requires Inv(s) && Possible(s, run)
    ensures Inv(After(s, run))
    decreases |run|
  {
    hide Inv, Enabled, Next;
    if run != [] {
      StepKeepsInv(s, run[0]);
      RunKeepsInv(Next(s, run[0]), run[1..]);
    }
  }

  // ---- what every run satisfies

  function Nothing(task: int, r: Relay): nat { 0 }

  lemma ReceivedWithinReserved(s: State)
    requires Accounts(s)
    ensures Sum(s.relays, Received) <= s.reserved
  {
    SumZero(s.relays, Nothing);
    SumBound(s.relays, Received, Nothing, Reserves, MAX_RESOURCE_WIRE_BYTES);
  }

  /**
   * Whatever the relays, cancellations, failures and commands do: what the action has really taken from the network,
   * finished or not, stays within its byte budget, at most four fetches are under way, and at most 80 per action and
   * 400 per run were ever let through.
   */
  lemma EveryRunIsBounded(run: seq<Event>)
    requires Possible(START, run)
    ensures var s := After(START, run);
            && s.settled <= s.bytes
            && s.settled + Sum(s.relays, Received) <= s.bytes + s.reserved <= MAX_ACTION_NETWORK_BYTES
            && s.reserved == MAX_RESOURCE_WIRE_BYTES * Sum(s.relays, Reserves)
            && Sum(s.relays, Occupies) <= 4 && |s.relays| <= MAX_PENDING_REQUESTS
            && s.admitted <= MAX_REQUESTS_PER_ACTION && s.runAdmitted <= MAX_RUN_REQUESTS
  {
    hide Sum, After, Possible, Owned;
    StartIsSound();
    RunKeepsInv(START, run);
    ReceivedWithinReserved(After(START, run));
  }

  /** A new command resets the accounts only when no relay holds a reservation or a slot. */
  lemma ResetFindsNothingReserved(run: seq<Event>, identity: string)
    requires Possible(START, run) && Enabled(After(START, run), CommandEvent(identity))
    ensures var s := After(START, run); s.reserved == 0 && s.permits == SLOTS && forall t | t in s.relays ::
            !Engaged(s.relays[t])
  {
    StartIsSound();
    RunKeepsInv(START, run);
    var s := After(START, run);
    SumZero(s.relays, Reserves);
    SumZero(s.relays, Occupies);
  }

  lemma PricedAnswerIsSent(s: State, task: int, o: Outcome)
    requires Accounts(s) && Enabled(s, SettleEvent(task, o)) && Charge(o).Some?
    ensures Settle(s, task, o).relays[task].at.Sending?
  {
    hide Sum;
    MoveTotals(s.relays, task, s.relays[task]);
    assert Charge(o).value <= MAX_RESOURCE_WIRE_BYTES <= s.reserved;
  }

  /** The check after the settlement never refuses a priced answer: its reservation already covered it. */
  lemma PricedAnswersAreSent(run: seq<Event>, task: int, o: Outcome)
    requires Possible(START, run) && Enabled(After(START, run), SettleEvent(task, o)) && Charge(o).Some?
    ensures Settle(After(START, run), task, o).relays[task].at.Sending?
  {
    StartIsSound();
    RunKeepsInv(START, run);
    hide Possible, After, Counts, Owned, Accounts, Settle, Charge;
    PricedAnswerIsSent(After(START, run), task, o);
  }

  /** Within an action nothing is refunded, and a failure costs the whole reservation. */
  lemma SpendingOnlyGrows(s: State, e: Event)
    requires Inv(s) && Enabled(s, e) && !e.CommandEvent?
    ensures Next(s, e).bytes >= s.bytes
    ensures (e.CancelEvent? && s.relays[e.task].at.Fetching?) || (e.SettleEvent? && Charge(e.outcome).None?) ==>
              && Next(s, e).bytes == s.bytes + MAX_RESOURCE_WIRE_BYTES
              && Next(s, e).bytes + Next(s, e).reserved == s.bytes + s.reserved
  {
    hide Accounts, Counts, Owned;
  }

  // ---- the session object

  /** Each method is the code between two awaits of the relay or the command. */
  class BrowserSession {
    var active: Option<string>
    var requests: nat
    var bytes: int
    var reserved: int
    var runRequests: nat
    var permits: nat
    var relays: map<int, Relay>
    ghost var phase: Phase
    ghost var settled: nat
    ghost var admitted: nat
    ghost var runAdmitted: nat

    ghost function View(): State
      reads this
    {
      State(active, requests, bytes, reserved, runRequests, permits, relays, phase, settled, admitted, runAdmitted)
    }

    constructor ()
      ensures View() == START
    {
      active, requests, bytes, reserved, runRequests, permits, relays := None, 0, 0, 0, 0, SLOTS, map[];
      phase, settled, admitted, runAdmitted := Idle, 0, 0, 0;
    }

    method StartCommand(identity: string)
      requires Enabled(View(), CommandEvent(identity))
      modifies this
      ensures View() == Next(old(View()), CommandEvent(identity))
    {
      active := Some(identity);
      requests, bytes, reserved := 0, 0, 0;
      phase, settled, admitted := Running, 0, 0;
    }

    method AcceptRequest(task: int, action: string) returns (accepted: bool)
      requires Enabled(View(), ArriveEvent(task, action))
      modifies this
      ensures View() == Next(old(View()), ArriveEvent(task, action))
      ensures accepted <==> |old(relays)| < MAX_PENDING_REQUESTS
    {
      accepted := |relays| < MAX_PENDING_REQUESTS;
      if accepted { relays := relays[task := Relay(action, Created)]; }
    }

    method CheckRequest(task: int, wellFormed: bool, allowed: bool) returns (waits: bool)
      requires Enabled(View(), BeginEvent(task, wellFormed, allowed))
      modifies this
      ensures View() == Next(old(View()), BeginEvent(task, wellFormed, allowed))
      ensures waits <==> relays[task].at.Waiting?
    {
      waits := false;
      if wellFormed && active == Some(relays[task].action) {
        requests := requests + 1;
        runRequests := runRequests + 1;
        if requests <= MAX_REQUESTS_PER_ACTION && runRequests <= MAX_RUN_REQUESTS && allowed {
          waits := true;
          admitted, runAdmitted := admitted + 1, runAdmitted + 1;
        }
      }
      relays := relays[task := relays[task].(at := if waits then Waiting else Refusing)];
    }

    /** Inside the semaphore: the whole bound is reserved before the fetch. */
    method Reserve(task: int) returns (fetches: bool)
      requires Enabled(View(), AcquireEvent(task))
      modifies this
      ensures View() == Next(old(View()), AcquireEvent(task))
      ensures fetches <==> relays[task].at.Fetching?
    {
      permits := permits - 1;
      fetches := bytes + reserved + MAX_RESOURCE_WIRE_BYTES <= MAX_ACTION_NETWORK_BYTES;
      if fetches {
        reserved := reserved + MAX_RESOURCE_WIRE_BYTES;
      } else {
        permits := permits + 1;
      }
      relays := relays[task := relays[task].(at := if fetches then Fetching(0) else Refusing)];
    }

    method SettleResponse(task: int, o: Outcome) returns (sends: bool)
      requires Enabled(View(), SettleEvent(task, o))
      modifies this
      ensures View() == Next(old(View()), SettleEvent(task, o))
      ensures sends <==> relays[task].at.Sending?
    {
      settled := settled + relays[task].at.received;
      var charge := 0;
      var failed := o.Raised? || !o.urlMatches || o.body > MAX_RESOURCE_BYTES || !o.digestMatches;
      if !failed {
        var wire := if o.wire.Reported? then o.wire.bytes else 0;
        failed := o.wire.Malformed? || !(0 <= wire <= MAX_RESOURCE_WIRE_BYTES) || !o.redirectAllowed;
        charge := if wire > o.body then wire else o.body;
      }
      bytes := bytes + (if failed then MAX_RESOURCE_WIRE_BYTES else charge);
      reserved := reserved - MAX_RESOURCE_WIRE_BYTES;
      sends := !failed && bytes <= MAX_ACTION_NETWORK_BYTES;
      if !sends { permits := permits + 1; }
      relays := relays[task := relays[task].(at := if sends then Sending else Refusing)];
    }

    method ReleaseSlot(task: int, delivered: bool)
      requires Enabled(View(), SentEvent(task, delivered))
      modifies this
      ensures View() == Next(old(View()), SentEvent(task, delivered))
    {
      permits := permits + 1;
      if delivered { relays := relays - {task}; } else { relays := relays[task := relays[task].(at := Refusing)]; }
    }

    method CancelRelay(task: int)
      requires Enabled(View(), CancelEvent(task))
      modifies this
      ensures View() == Next(old(View()), CancelEvent(task))
    {
      var stopped := relays[task].at;
      if stopped.Fetching? {
        bytes := bytes + MAX_RESOURCE_WIRE_BYTES;
        reserved := reserved - MAX_RESOURCE_WIRE_BYTES;
        settled := settled + stopped.received;
      }
      if stopped.Fetching? || stopped.Sending? { permits := permits + 1; }
      relays := relays - {task};
    }

    /** The tasks to cancel and wait for. */
    method FinishCommand() returns (tasks: set<int>)
      requires Enabled(View(), FinishEvent)
      modifies this
      ensures View() == Next(old(View()), FinishEvent)
      ensures tasks == old(relays).Keys
    {
      active := None;
      tasks := relays.Keys;
      phase := Draining(tasks);
    }
  }
}
