/** Cost reservations: what one call may cost at most is charged before it is made, and never given back. */
module Budgets {
  import opened Prelude

  const MICROS := 1000000.0

  datatype Limits = Limits(inputLimit: int, usdLimit: real, inputPrice: real, outputPrice: real, searchPrice: real)

  datatype Budget = Budget(inputTokens: int, outputTokens: int, cost: int)

  datatype Call = Call(inputTokens: nat, outputTokens: nat, search: bool)

  const EMPTY := Budget(0, 0, 0)

  ghost predicate Priced(l: Limits) { l.inputPrice >= 0.0 && l.outputPrice >= 0.0 && l.searchPrice >= 0.0 }

  function Ceiling(x: real): (n: int)
    ensures x <= n as real < x + 1.0
  {
    -((-x).Floor)
  }

  function Truncate(x: real): int { if x >= 0.0 then x.Floor else -((-x).Floor) }

  /** The price of a call in dollars. */
  function Charge(l: Limits, c: Call): (usd: real)
    ensures Priced(l) ==> usd >= 0.0
  {
    (c.inputTokens as real * l.inputPrice + c.outputTokens as real * l.outputPrice) / MICROS
      + (if c.search then l.searchPrice else 0.0)
  }

  function Micros(l: Limits, c: Call): (n: int)
    ensures Priced(l) ==> n >= 0
  {
    Ceiling(Charge(l, c) * MICROS)
  }

  /** The prices are those of a million tokens and of one search. */
  lemma PricesAreListed(l: Limits)
    ensures Charge(l, Call(1000000, 0, false)) == l.inputPrice && Charge(l, Call(0, 1000000, false)) == l.outputPrice
    ensures Charge(l, Call(0, 0, true)) == l.searchPrice
  {
  }

  /** A call costs the sum of its parts. */
  lemma ChargesAdd(l: Limits, c: Call, d: Call)
    requires !d.search
    ensures Charge(l, Call(c.inputTokens + d.inputTokens, c.outputTokens + d.outputTokens, c.search))
         == Charge(l, c) + Charge(l, d)
  {
    TokensAdd(l.inputPrice, c.inputTokens, d.inputTokens);
    TokensAdd(l.outputPrice, c.outputTokens, d.outputTokens);
  }

  lemma TokensAdd(price: real, m: nat, n: nat)
    ensures (m + n) as real * price == m as real * price + n as real * price
  {
    assert (m + n) as real == m as real + n as real;
  }

  /** None is the raised ValueError. */
  function Reserved(l: Limits, b: Budget, c: Call): Option<Budget> {
    if b.inputTokens + c.inputTokens > l.inputLimit then None
    else if (b.cost + Micros(l, c)) as real > l.usdLimit * MICROS then None
    else Some(Budget(b.inputTokens + c.inputTokens, b.outputTokens + c.outputTokens, b.cost + Micros(l, c)))
  }

  function Max(a: int, b: int): int { if a > b then a else b }

  function Min(a: int, b: int): int { if a < b then a else b }

  function ByInput(l: Limits, b: Budget, c: Call): int { (l.inputLimit - b.inputTokens) / Max(1, c.inputTokens) }

  function ByCost(l: Limits, b: Budget, c: Call): int {
    Truncate((l.usdLimit * MICROS - b.cost as real) / Max(1, Micros(l, c)) as real)
  }

  function CallsLeft(l: Limits, b: Budget, c: Call): nat { Max(0, Min(ByInput(l, b, c), ByCost(l, b, c))) }

  /** The run state: the budget appears with the first reservation, even a refused one. */
  class Account {
    const limits: Limits
    var budget: Option<Budget>

    function Value(): Budget
      reads this
    {
      if budget.Some? then budget.value else EMPTY
    }

    constructor (l: Limits)
      ensures limits == l && budget == None
    {
      limits, budget := l, None;
    }

    method Reserve(c: Call) returns (ok: bool)
      modifies this
      ensures var spec := Reserved(limits, old(Value()), c);
              ok == spec.Some? && budget == Some(if ok then spec.value else old(Value()))
    {
      var micros := Micros(limits, c);
      if budget.None? { budget := Some(EMPTY); }
      var b := budget.value;
      if b.inputTokens + c.inputTokens > limits.inputLimit { return false; }
      if (b.cost + micros) as real > limits.usdLimit * MICROS { return false; }
      budget := Some(b.(inputTokens := b.inputTokens + c.inputTokens, outputTokens := b.outputTokens + c.outputTokens,
                        cost := b.cost + micros));
      ok := true;
    }

    /** So many further reservations of this size fit, counting each as at least a token and a micro-dollar. */
    method Remaining(inputTokens: nat, outputTokens: nat) returns (n: nat)
      ensures forall k: nat | k > 0 :: k <= n <==> RoomFor(limits, Value(), Call(inputTokens, outputTokens, false), k)
      ensures Priced(limits) ==> ReserveTimes(limits, Value(), Call(inputTokens, outputTokens, false), n).Some?
      ensures Priced(limits) && inputTokens > 0 && limits.inputPrice > 0.0 ==>
                !ReserveTimes(limits, Value(), Call(inputTokens, outputTokens, false), n + 1).Some?
      ensures n == CallsLeft(limits, Value(), Call(inputTokens, outputTokens, false))
    {
      var b := if budget.Some? then budget.value else EMPTY;
      var usd := (inputTokens as real * limits.inputPrice + outputTokens as real * limits.outputPrice) / MICROS;
      var micros := Max(1, Ceiling(usd * MICROS));
      var byInput := (limits.inputLimit - b.inputTokens) / Max(1, inputTokens);
      var byCost := Truncate((limits.usdLimit * MICROS - b.cost as real) / micros as real);
      n := Max(0, Min(byInput, byCost));
      hide Truncate, RoomFor, ReserveTimes;
      SameCharge(limits, Call(inputTokens, outputTokens, false), usd);
      assert n == CallsLeft(limits, b, Call(inputTokens, outputTokens, false));
      hide CallsLeft, Priced;
      CallsLeftMeans(limits, b, Call(inputTokens, outputTokens, false));
    }
  }

  lemma SameCharge(l: Limits, c: Call, usd: real)
    requires !c.search
    requires usd == (c.inputTokens as real * l.inputPrice + c.outputTokens as real * l.outputPrice) / MICROS
    ensures Charge(l, c) == usd && Micros(l, c) == Ceiling(usd * MICROS)
  {
  }

  // ---- how many calls fit

  function ReserveTimes(l: Limits, b: Budget, c: Call, k: nat): Option<Budget> {
    if k == 0 then Some(b) else
      var before := ReserveTimes(l, b, c, k - 1);
      if before.None? then None else Reserved(l, before.value, c)
  }

  ghost predicate Fits(l: Limits, b: Budget, c: Call, k: nat) {
    b.inputTokens + k * c.inputTokens <= l.inputLimit && (b.cost + k * Micros(l, c)) as real <= l.usdLimit * MICROS
  }

  lemma {:induction false} TimesFit(l: Limits, b: Budget, c: Call, k: nat)
    requires Priced(l)
    ensures k > 0 ==> (ReserveTimes(l, b, c, k).Some? <==> Fits(l, b, c, k))
    ensures ReserveTimes(l, b, c, k).Some? ==>
              ReserveTimes(l, b, c, k).value
              == Budget(b.inputTokens + k * c.inputTokens, b.outputTokens + k * c.outputTokens,
                        b.cost + k * Micros(l, c))
  {
    hide Micros;
    if k > 0 {
      TimesFit(l, b, c, k - 1);
      var m := Micros(l, c);
      assert m >= 0 by { MicrosAreNatural(l, c); }
      assert k * m == (k - 1) * m + m && k * c.inputTokens == (k - 1) * c.inputTokens + c.inputTokens;
      assert k * c.outputTokens == (k - 1) * c.outputTokens + c.outputTokens;
    }
  }

  lemma MicrosAreNatural(l: Limits, c: Call)
    requires Priced(l)
    ensures Micros(l, c) >= 0
  {
  }

  lemma FloorFits(a: int, d: int, n: int)
    requires d > 0
    ensures n <= a / d <==> n * d <= a
  {
    if n <= a / d { assert n * d <= (a / d) * d; } else { assert (a / d + 1) * d <= n * d; }
  }

  lemma TruncateFits(x: real, d: int, n: int)
    requires d > 0 && n > 0
    ensures n <= Truncate(x / d as real) <==> (n * d) as real <= x
  {
    var q := x / d as real;
    assert q * d as real == x;
    if n as real <= q {
      assert (n as real) * (d as real) <= q * (d as real);
    } else {
      assert (n as real) * (d as real) > q * (d as real);
    }
    assert (n * d) as real == (n as real) * (d as real);
  }

  lemma InputFits(l: Limits, b: Budget, c: Call, k: nat)
    requires k > 0
    ensures b.inputTokens + k * c.inputTokens <= l.inputLimit
            <==> if c.inputTokens == 0 then b.inputTokens <= l.inputLimit else k <= ByInput(l, b, c)
    ensures k <= ByInput(l, b, c) ==> b.inputTokens <= l.inputLimit
  {
    var room := l.inputLimit - b.inputTokens;
    FloorFits(room, Max(1, c.inputTokens), k);
    if k <= ByInput(l, b, c) { assert k * Max(1, c.inputTokens) >= 0; }
    if c.inputTokens == 0 { assert k * c.inputTokens == 0; }
  }

  lemma CostFits(l: Limits, b: Budget, c: Call, k: nat)
    requires Priced(l) && k > 0
    ensures (b.cost + k * Micros(l, c)) as real <= l.usdLimit * MICROS
            <==> if Micros(l, c) == 0 then b.cost as real <= l.usdLimit * MICROS else k <= ByCost(l, b, c)
    ensures k <= ByCost(l, b, c) ==> b.cost as real <= l.usdLimit * MICROS
  {
    var m, room := Micros(l, c), l.usdLimit * MICROS - b.cost as real;
    hide Micros, Truncate;
    MicrosAreNatural(l, c);
    TruncateFits(room, Max(1, m), k);
    if k <= ByCost(l, b, c) { assert k * Max(1, m) >= 0; }
    if m == 0 { assert k * m == 0; }
  }

  /** `k` calls fit, counting each as at least a token and a micro-dollar. */
  ghost predicate RoomFor(l: Limits, b: Budget, c: Call, k: nat) {
    && b.inputTokens + k * Max(1, c.inputTokens) <= l.inputLimit
    && (b.cost + k * Max(1, Micros(l, c))) as real <= l.usdLimit * MICROS
  }

  lemma LeftIsRoom(l: Limits, b: Budget, c: Call, k: nat)
    requires k > 0
    ensures k <= CallsLeft(l, b, c) <==> RoomFor(l, b, c, k)
  {
    var m := Max(1, Micros(l, c));
    hide Micros, Truncate;
    FloorFits(l.inputLimit - b.inputTokens, Max(1, c.inputTokens), k);
    TruncateFits(l.usdLimit * MICROS - b.cost as real, m, k);
    assert (b.cost + k * m) as real == b.cost as real + (k * m) as real;
  }

  lemma CallsLeftMeans(l: Limits, b: Budget, c: Call)
    ensures var n := CallsLeft(l, b, c);
            && (forall k: nat | k > 0 :: k <= n <==> RoomFor(l, b, c, k))
            && (Priced(l) ==> ReserveTimes(l, b, c, n).Some?)
            && (Priced(l) && c.inputTokens > 0 && l.inputPrice > 0.0 ==> ReserveTimes(l, b, c, n + 1).None?)
  {
    hide RoomFor, CallsLeft;
    forall k: nat | k > 0 ensures k <= CallsLeft(l, b, c) <==> RoomFor(l, b, c, k) { LeftIsRoom(l, b, c, k); }
    if Priced(l) {
      NextFits(l, b, c);
      if c.inputTokens > 0 && l.inputPrice > 0.0 { CallsLeftIsExact(l, b, c, CallsLeft(l, b, c) + 1); }
    }
  }

  /** When the reservation after the promised ones would still fit, for every call and every budget. */
  lemma NextFits(l: Limits, b: Budget, c: Call)
    requires Priced(l)
    ensures var n := CallsLeft(l, b, c);
            ReserveTimes(l, b, c, n).Some?
            && (ReserveTimes(l, b, c, n + 1).Some?
                <==> && b.inputTokens <= l.inputLimit && b.cost as real <= l.usdLimit * MICROS
                     && (c.inputTokens == 0 || n < ByInput(l, b, c)) && (Micros(l, c) == 0 || n < ByCost(l, b, c)))
  {
    var n := CallsLeft(l, b, c);
    hide Micros, ByInput, ByCost;
    TimesFit(l, b, c, n);
    TimesFit(l, b, c, n + 1);
    InputFits(l, b, c, n + 1);
    CostFits(l, b, c, n + 1);
    if n > 0 {
      InputFits(l, b, c, n);
      CostFits(l, b, c, n);
    }
    if Fits(l, b, c, n + 1) { Within(l, b, c, n + 1); }
  }

  lemma Within(l: Limits, b: Budget, c: Call, k: nat)
    requires Priced(l) && Fits(l, b, c, k)
    ensures b.inputTokens <= l.inputLimit && b.cost as real <= l.usdLimit * MICROS
  {
    MicrosAreNatural(l, c);
    hide Micros;
    assert k * c.inputTokens >= 0 && k * Micros(l, c) >= 0;
  }

  lemma CallsLeftFacts(l: Limits, b: Budget, c: Call)
    ensures var n := CallsLeft(l, b, c); !(n < ByInput(l, b, c) && n < ByCost(l, b, c))
  {
    hide ByInput, ByCost;
  }

  lemma PricedCallsCost(l: Limits, c: Call)
    requires Priced(l) && c.inputTokens > 0 && l.inputPrice > 0.0
    ensures Micros(l, c) > 0
  {
    assert c.inputTokens as real * l.inputPrice > 0.0;
    assert c.outputTokens as real * l.outputPrice >= 0.0;
    assert Charge(l, c) > 0.0;
  }

  /** With tokens to send and a price on them, exactly the promised number of reservations succeed. */
  lemma CallsLeftIsExact(l: Limits, b: Budget, c: Call, k: nat)
    requires Priced(l) && c.inputTokens > 0 && l.inputPrice > 0.0
    ensures ReserveTimes(l, b, c, k).Some? <==> k <= CallsLeft(l, b, c)
  {
    hide Micros, ByInput, ByCost, ReserveTimes, CallsLeft, Priced;
    var n := CallsLeft(l, b, c);
    NextFits(l, b, c);
    CallsLeftFacts(l, b, c);
    PricedCallsCost(l, c);
    if k <= n { Earlier(l, b, c, k, n); } else { if ReserveTimes(l, b, c, k).Some? { Earlier(l, b, c, n + 1, k); } }
  }

  lemma {:induction false} Earlier(l: Limits, b: Budget, c: Call, j: nat, k: nat)
    requires j <= k && ReserveTimes(l, b, c, k).Some?
    ensures ReserveTimes(l, b, c, j).Some?
    decreases k
  {
    if j < k { Earlier(l, b, c, j, k - 1); }
  }

  // ---- whole runs

  function Run(l: Limits, b: Budget, calls: seq<Call>): Budget
    decreases |calls|
  {
    if calls == [] then b else
      var before := Run(l, b, calls[..|calls| - 1]);
      var after := Reserved(l, before, calls[|calls| - 1]);
      if after.Some? then after.value else before
  }

  function Accepted(l: Limits, b: Budget, calls: seq<Call>): seq<Call>
    decreases |calls|
  {
    if calls == [] then [] else
      var n := |calls| - 1;
      Accepted(l, b, calls[..n]) + (if Reserved(l, Run(l, b, calls[..n]), calls[n]).Some? then [calls[n]] else [])
  }

  function TrueCost(l: Limits, calls: seq<Call>): real {
    if calls == [] then 0.0 else TrueCost(l, calls[..|calls| - 1]) + Charge(l, calls[|calls| - 1])
  }

  function TotalInput(calls: seq<Call>): nat {
    if calls == [] then 0 else TotalInput(calls[..|calls| - 1]) + calls[|calls| - 1].inputTokens
  }

  /** A call's price rounded up to whole micro-dollars. */
  lemma MicrosCover(l: Limits, c: Call)
    ensures Charge(l, c) * MICROS <= Micros(l, c) as real < Charge(l, c) * MICROS + 1.0
  {
    hide Charge;
  }

  /** What the account of an accepted run must say: `usd` dollars in truth, for so many tokens and calls. */
  ghost predicate Covers(l: Limits, b: Budget, b': Budget, tokens: int, usd: real, calls: nat) {
    && b'.inputTokens == b.inputTokens + tokens
    && b.cost as real + usd * MICROS <= b'.cost as real <= b.cost as real + usd * MICROS + calls as real
    && (calls > 0 ==> b'.inputTokens <= l.inputLimit && b'.cost as real <= l.usdLimit * MICROS)
    && (calls > 0 ==> (b'.cost as real) < b.cost as real + usd * MICROS + calls as real)
    && (calls == 0 ==> b' == b)
  }

  lemma OneMoreCovers(l: Limits, b: Budget, b': Budget, tokens: int, usd: real, calls: nat, c: Call)
    requires Covers(l, b, b', tokens, usd, calls) && Reserved(l, b', c).Some?
    ensures Covers(l, b, Reserved(l, b', c).value, tokens + c.inputTokens, usd + Charge(l, c), calls + 1)
  {
    MicrosCover(l, c);
    hide Charge, Micros;
    assert (usd + Charge(l, c)) * MICROS == usd * MICROS + Charge(l, c) * MICROS;
  }

  lemma {:induction false} RunCovers(l: Limits, b: Budget, calls: seq<Call>)
    ensures var taken := Accepted(l, b, calls);
            Covers(l, b, Run(l, b, calls), TotalInput(taken), TrueCost(l, taken), |taken|)
    decreases |calls|
  {
    hide Charge, Micros;
    if calls != [] {
      var n := |calls| - 1;
      var c, taken, mid := calls[n], Accepted(l, b, calls[..n]), Run(l, b, calls[..n]);
      RunCovers(l, b, calls[..n]);
      if Reserved(l, mid, c).Some? {
        assert (taken + [c])[..|taken|] == taken;
        OneMoreCovers(l, b, mid, TotalInput(taken), TrueCost(l, taken), |taken|, c);
      } else {
        assert taken + [] == taken;
      }
    }
  }

  /**
   * From any account, over any run of calls, refused ones included: the accepted calls' tokens are counted exactly and
   * stay within the limit, their true cost and what was spent before stay within the limit, and the account overstates
   * the cost by less than one micro-dollar a call.
   */
  lemma RunStaysWithinLimits(l: Limits, b: Budget, calls: seq<Call>)
    ensures var b', taken := Run(l, b, calls), Accepted(l, b, calls);
            && b'.inputTokens == b.inputTokens + TotalInput(taken)
            && (taken != [] ==> b'.inputTokens <= l.inputLimit && b'.cost as real <= l.usdLimit * MICROS)
            && (taken != [] && b.cost >= 0 ==> TrueCost(l, taken) <= l.usdLimit)
            && b.cost as real + TrueCost(l, taken) * MICROS <= b'.cost as real
            && (taken != [] ==> (b'.cost as real) < b.cost as real + TrueCost(l, taken) * MICROS + |taken| as real)
            && (taken == [] ==> b' == b)
  {
    hide Run, Accepted, TrueCost, TotalInput;
    RunCovers(l, b, calls);
  }
}
