/** The Story button's meter: a few blocks split over four buckets of claims by largest remainder. */
module LedgerMeter {

  datatype Bucket = Safe | Careful | Hold | Check

  const METER_ORDER := [Safe, Careful, Hold, Check]

  function CountOf(claims: seq<Bucket>, b: Bucket): nat {
    if claims == [] then 0 else CountOf(claims[1..], b) + if claims[0] == b then 1 else 0
  }

  function Total(claims: seq<Bucket>, slots: nat): nat { if slots < |claims| then slots else |claims| }

  /** The exact share of bucket `i` is Share / |claims|. */
  function Share(claims: seq<Bucket>, slots: nat, i: nat): nat
    requires i < 4
  {
    CountOf(claims, METER_ORDER[i]) * Total(claims, slots)
  }

  function Floor(claims: seq<Bucket>, slots: nat, i: nat): nat
    requires i < 4 && claims != []
  {
    Share(claims, slots, i) / |claims|
  }

  function Rest(claims: seq<Bucket>, slots: nat, i: nat): nat
    requires i < 4 && claims != []
  {
    Share(claims, slots, i) % |claims|
  }

  predicate Empty(claims: seq<Bucket>, slots: nat, i: nat)
    requires i < 4 && claims != []
  {
    Floor(claims, slots, i) == 0 && CountOf(claims, METER_ORDER[i]) > 0
  }

  /** Comes strictly first: rounded down to nothing, or else the larger remainder. */
  predicate First(claims: seq<Bucket>, slots: nat, i: nat, j: nat)
    requires i < 4 && j < 4 && claims != []
  {
    if Empty(claims, slots, i) != Empty(claims, slots, j) then Empty(claims, slots, i)
    else Rest(claims, slots, i) > Rest(claims, slots, j)
  }

  type Index = i: nat | i < 4

  function Insert(claims: seq<Bucket>, slots: nat, i: Index, order: seq<Index>): seq<Index>
    requires claims != []
    decreases |order|
  {
    if order == [] then [i] else if First(claims, slots, i, order[0]) then [i] + order
    else [order[0]] + Insert(claims, slots, i, order[1..])
  }

  /** A stable sort of the four indices. */
  function Order(claims: seq<Bucket>, slots: nat): seq<Index>
    requires claims != []
  {
    Insert(claims, slots, 3, Insert(claims, slots, 2, Insert(claims, slots, 1, [0])))
  }

  function Left(claims: seq<Bucket>, slots: nat): int
    requires claims != []
  {
    Total(claims, slots) - Floor(claims, slots, 0) - Floor(claims, slots, 1) - Floor(claims, slots, 2)
      - Floor(claims, slots, 3)
  }

  /** The blocks of bucket `i`: its floor, and one more if it is among the first in order. */
  function Blocks(claims: seq<Bucket>, slots: nat, i: nat): nat
    requires i < 4 && claims != [] && 0 <= Left(claims, slots) <= |Order(claims, slots)|
  {
    Floor(claims, slots, i) + if i in Order(claims, slots)[..Left(claims, slots)] then 1 else 0
  }

  // ---- the order

  ghost predicate Arranged(claims: seq<Bucket>, slots: nat, order: seq<Index>)
    requires claims != []
  {
    forall a, b | 0 <= a < b < |order| :: !First(claims, slots, order[b], order[a])
  }

  lemma {:induction false} InsertArranges(claims: seq<Bucket>, slots: nat, i: Index, order: seq<Index>)
    requires claims != [] && Arranged(claims, slots, order) && i !in order
    requires forall a, b | 0 <= a < b < |order| :: order[a] != order[b]
    ensures var out := Insert(claims, slots, i, order);
            && Arranged(claims, slots, out) && |out| == |order| + 1
            && (forall x :: x in out <==> x == i || x in order)
            && (forall a, b | 0 <= a < b < |out| :: out[a] != out[b])
    decreases |order|
  {
    hide Empty, Rest;
    if order != [] && !First(claims, slots, i, order[0]) {
      var rest := order[1..];
      InsertArranges(claims, slots, i, rest);
      var tail := Insert(claims, slots, i, rest);
      assert order == [order[0]] + rest;
      assert forall x :: x in order <==> x == order[0] || x in rest;
      forall k | 0 <= k < |tail| ensures !First(claims, slots, tail[k], order[0]) && tail[k] != order[0] {
        assert tail[k] in tail;
        if tail[k] != i { var m :| 0 <= m < |rest| && rest[m] == tail[k]; assert order[m + 1] == tail[k]; }
      }
    }
  }

  lemma OrderFacts(claims: seq<Bucket>, slots: nat)
    requires claims != []
    ensures var order := Order(claims, slots);
            && |order| == 4 && Arranged(claims, slots, order)
            && (forall i: nat | i < 4 :: i in order) && (forall a, b | 0 <= a < b < 4 :: order[a] != order[b])
  {
    hide Insert, First;
    InsertArranges(claims, slots, 1, [0]);
    var two := Insert(claims, slots, 1, [0]);
    InsertArranges(claims, slots, 2, two);
    InsertArranges(claims, slots, 3, Insert(claims, slots, 2, two));
  }

  // ---- the leftover

  lemma {:induction false} CountsAddUp(claims: seq<Bucket>)
    ensures CountOf(claims, Safe) + CountOf(claims, Careful) + CountOf(claims, Hold) + CountOf(claims, Check)
            == |claims|
  {
    if claims != [] { CountsAddUp(claims[1..]); }
  }

  lemma Factor(a: int, b: int, c: int, d: int, t: int)
    ensures a * t + b * t + c * t + d * t == (a + b + c + d) * t
  {
  }

  lemma SharesAddUp(claims: seq<Bucket>, slots: nat)
    requires claims != []
    ensures Share(claims, slots, 0) + Share(claims, slots, 1) + Share(claims, slots, 2) + Share(claims, slots, 3)
            == |claims| * Total(claims, slots)
  {
    hide CountOf;
    CountsAddUp(claims);
    Factor(CountOf(claims, Safe), CountOf(claims, Careful), CountOf(claims, Hold), CountOf(claims, Check),
           Total(claims, slots));
  }

  lemma DivRest(x: nat, n: nat)
    requires n > 0
    ensures x == n * (x / n) + x % n && 0 <= x % n < n
  {
  }

  lemma Spread(n: int, t: int, f: int, g: int, h: int, k: int)
    ensures n * (t - f - g - h - k) == n * t - n * f - n * g - n * h - n * k
  {
  }

  lemma SmallProduct(n: nat, l: int)
    requires n > 0 && 0 <= n * l < 4 * n
    ensures 0 <= l <= 3
  {
    assert l < 0 ==> n * l <= -(n as int);
    assert l > 3 ==> n * l >= n * 4;
  }

  /** The blocks still to hand out, times the claims, are the four remainders. */
  lemma LeftTimesClaims(claims: seq<Bucket>, slots: nat)
    requires claims != []
    ensures |claims| * Left(claims, slots)
            == Rest(claims, slots, 0) + Rest(claims, slots, 1) + Rest(claims, slots, 2) + Rest(claims, slots, 3)
    ensures 0 <= Left(claims, slots) <= 3
    ensures forall i: nat | i < 4 :: Rest(claims, slots, i) < |claims|
  {
    hide Share, Total;
    var n := |claims|;
    SharesAddUp(claims, slots);
    forall i: nat | i < 4 ensures Share(claims, slots, i) == n * Floor(claims, slots, i) + Rest(claims, slots, i)
      && Rest(claims, slots, i) < n {
      DivRest(Share(claims, slots, i), n);
    }
    hide Floor, Rest;
    Spread(n, Total(claims, slots), Floor(claims, slots, 0), Floor(claims, slots, 1), Floor(claims, slots, 2),
           Floor(claims, slots, 3));
    SmallProduct(n, Left(claims, slots));
  }

  lemma EmptyHasRest(claims: seq<Bucket>, slots: nat, i: nat)
    requires i < 4 && claims != [] && Left(claims, slots) > 0
    ensures Empty(claims, slots, i) ==> Rest(claims, slots, i) > 0
  {
    var c, t := CountOf(claims, METER_ORDER[i]), Total(claims, slots);
    hide CountOf;
    DivRest(Share(claims, slots, i), |claims|);
    if Empty(claims, slots, i) {
      assert t > 0 by { if t == 0 { NoShares(claims, slots); } }
      Positive(c, t);
    }
  }

  lemma Positive(c: nat, t: nat)
    requires c > 0 && t > 0
    ensures c * t > 0
  {
  }

  lemma NoShares(claims: seq<Bucket>, slots: nat)
    requires claims != [] && Total(claims, slots) == 0
    ensures Left(claims, slots) <= 0
  {
    hide CountOf;
  }

  /** From a bucket without a remainder on, the order has no remainders. */
  lemma RestsEnd(claims: seq<Bucket>, slots: nat, k: nat, m: nat)
    requires claims != [] && Left(claims, slots) > 0 && |Order(claims, slots)| == 4 && k <= m < 4
    ensures Rest(claims, slots, Order(claims, slots)[k]) == 0 ==> Rest(claims, slots, Order(claims, slots)[m]) == 0
  {
    var order := Order(claims, slots);
    OrderFacts(claims, slots);
    EmptyHasRest(claims, slots, order[k]);
    EmptyHasRest(claims, slots, order[m]);
    hide Order, Left, Rest, Empty;
    assert k < m ==> !First(claims, slots, order[m], order[k]);
  }

  /** Every block handed out goes to a bucket with a remainder. */
  lemma HandedOutHaveRest(claims: seq<Bucket>, slots: nat, k: nat)
    requires claims != [] && k < Left(claims, slots) && |Order(claims, slots)| == 4 && k < 4
    ensures Rest(claims, slots, Order(claims, slots)[k]) > 0
  {
    hide Order, Left, Rest, Empty;
    var order := Order(claims, slots);
    OrderFacts(claims, slots);
    LeftTimesClaims(claims, slots);
    RestsByOrder(claims, slots, order);
    TooLittle(|claims|, Left(claims, slots), k, Rest(claims, slots, order[0]), Rest(claims, slots, order[1]),
              Rest(claims, slots, order[2]), Rest(claims, slots, order[3]));
    forall m | k <= m < 4
      ensures Rest(claims, slots, order[k]) == 0 ==> Rest(claims, slots, order[m]) == 0
    {
      RestsEnd(claims, slots, k, m);
    }
  }

  lemma RestsByOrder(claims: seq<Bucket>, slots: nat, order: seq<Index>)
    requires claims != [] && |order| == 4 && forall a, b | 0 <= a < b < 4 :: order[a] != order[b]
    ensures Rest(claims, slots, order[0]) + Rest(claims, slots, order[1]) + Rest(claims, slots, order[2])
            + Rest(claims, slots, order[3])
            == Rest(claims, slots, 0) + Rest(claims, slots, 1) + Rest(claims, slots, 2) + Rest(claims, slots, 3)
  {
    hide Rest;
  }

  lemma TooLittle(n: nat, l: int, k: nat, a: nat, b: nat, c: nat, d: nat)
    requires n > 0 && k < l <= 3 && a < n && b < n && c < n && d < n && n * l == a + b + c + d
    ensures !(d == 0 && (k <= 2 ==> c == 0) && (k <= 1 ==> b == 0) && (k == 0 ==> a == 0))
  {
    assert n * l >= n * (k + 1);
    assert k == 1 ==> n * (k + 1) == n + n;
    assert k == 2 ==> n * (k + 1) == n + n + n;
  }

  // ---- the meter

  function Repeat(b: Bucket, n: nat): seq<Bucket> { seq(n, i => b) }

  function Meter(claims: seq<Bucket>, slots: nat): seq<Bucket> {
    if claims == [] then [] else
      LeftTimesClaims(claims, slots);
      OrderFacts(claims, slots);
      Repeat(Safe, Blocks(claims, slots, 0)) + Repeat(Careful, Blocks(claims, slots, 1))
      + Repeat(Hold, Blocks(claims, slots, 2)) + Repeat(Check, Blocks(claims, slots, 3))
  }

  /** The loop takes the index modulo the order's length; it never comes round. */
  method LedgerMeterOf(claims: seq<Bucket>, slots: nat) returns (meter: seq<Bucket>)
    ensures meter == Meter(claims, slots)
  {
    hide Order, Floor, Left, Total, Rest, Arranged, Repeat;
    if claims == [] { return []; }
    var order := Order(claims, slots);
    OrderFacts(claims, slots);
    LeftTimesClaims(claims, slots);
    var blocks := new nat[4](i requires 0 <= i < 4 => Floor(claims, slots, i));
    var left := Total(claims, slots) - blocks[0] - blocks[1] - blocks[2] - blocks[3];
    LeftIs(claims, slots);
    var k := 0;
    while left > 0
      invariant 0 <= k <= Left(claims, slots) && left == Left(claims, slots) - k
      invariant forall i: nat | i < 4 :: blocks[i] == Floor(claims, slots, i) + if i in order[..k] then 1 else 0
    {
      NoWrap(order, k);
      var i := order[k % |order|];
      blocks[i] := blocks[i] + 1;
      k, left := k + 1, left - 1;
    }
    meter := Repeat(Safe, blocks[0]) + Repeat(Careful, blocks[1]) + Repeat(Hold, blocks[2]) + Repeat(Check, blocks[3]);
  }

  lemma LeftIs(claims: seq<Bucket>, slots: nat)
    requires claims != []
    ensures Left(claims, slots)
            == Total(claims, slots) - Floor(claims, slots, 0) - Floor(claims, slots, 1)
               - Floor(claims, slots, 2) - Floor(claims, slots, 3)
  {
  }

  lemma NoWrap(order: seq<Index>, k: nat)
    requires |order| == 4 && k < 4 && forall a, b | 0 <= a < b < 4 :: order[a] != order[b]
    ensures k % |order| == k && order[k] !in order[..k]
    ensures forall i: nat | i < 4 :: i in order[..k + 1] <==> i == order[k] || i in order[..k]
  {
    assert order[..k + 1] == order[..k] + [order[k]];
  }

  // ---- the quota rule

  lemma {:induction false} CountSplits(a: seq<Bucket>, c: seq<Bucket>, b: Bucket)
    ensures CountOf(a + c, b) == CountOf(a, b) + CountOf(c, b)
  {
    if a == [] { assert a + c == c; } else { assert (a + c)[1..] == a[1..] + c; CountSplits(a[1..], c, b); }
  }

  lemma {:induction false} CountRepeat(x: Bucket, n: nat, b: Bucket)
    ensures CountOf(Repeat(x, n), b) == if x == b then n else 0
  {
    if n > 0 { assert Repeat(x, n)[1..] == Repeat(x, n - 1); CountRepeat(x, n - 1, b); }
  }

  lemma MeterCounts(claims: seq<Bucket>, slots: nat, i: nat)
    requires i < 4 && claims != []
    ensures 0 <= Left(claims, slots) <= |Order(claims, slots)|
    ensures CountOf(Meter(claims, slots), METER_ORDER[i]) == Blocks(claims, slots, i)
  {
    LeftTimesClaims(claims, slots);
    OrderFacts(claims, slots);
    hide Blocks, Order, CountOf, Left;
    var b := METER_ORDER[i];
    var p, q, r, s := Repeat(Safe, Blocks(claims, slots, 0)), Repeat(Careful, Blocks(claims, slots, 1)),
      Repeat(Hold, Blocks(claims, slots, 2)), Repeat(Check, Blocks(claims, slots, 3));
    CountSplits(p + q + r, s, b);
    CountSplits(p + q, r, b);
    CountSplits(p, q, b);
    CountRepeat(Safe, Blocks(claims, slots, 0), b);
    CountRepeat(Careful, Blocks(claims, slots, 1), b);
    CountRepeat(Hold, Blocks(claims, slots, 2), b);
    CountRepeat(Check, Blocks(claims, slots, 3), b);
  }

  /** Each bucket gets its exact share rounded down, or rounded up if the share is not whole. */
  lemma BlocksRound(claims: seq<Bucket>, slots: nat, i: nat)
    requires i < 4 && claims != []
    ensures var shown, share, n := CountOf(Meter(claims, slots), METER_ORDER[i]), Share(claims, slots, i), |claims|;
            shown == share / n || (shown == share / n + 1 && share % n > 0)
  {
    MeterCounts(claims, slots, i);
    LeftTimesClaims(claims, slots);
    OrderFacts(claims, slots);
    var order := Order(claims, slots);
    hide Order, Left, CountOf, Share, Meter;
    if i in order[..Left(claims, slots)] {
      var k :| 0 <= k < Left(claims, slots) && order[k] == i;
      HandedOutHaveRest(claims, slots, k);
    }
  }

  lemma GetsOne(order: seq<Index>, l: int)
    requires |order| == 4 && 0 <= l <= 3 && (forall i: nat | i < 4 :: i in order) && forall a, b | 0 <= a < b < 4 ::
             order[a] != order[b]
    ensures (if 0 in order[..l] then 1 else 0) + (if 1 in order[..l] then 1 else 0) + (if 2 in order[..l] then 1 else 0)
            + (if 3 in order[..l] then 1 else 0) == l
  {
    assert l == 0 ==> order[..l] == [];
    assert l == 1 ==> order[..l] == [order[0]];
    assert l == 2 ==> order[..l] == [order[0], order[1]];
    assert l == 3 ==> order[..l] == [order[0], order[1], order[2]];
  }

  lemma Whole(c: nat, n: nat)
    requires n > 0
    ensures (c * n) / n == c && (c * n) % n == 0
  {
    var q := (c * n) / n;
    DivRest(c * n, n);
    assert q < c ==> n * q <= n * (c - 1);
    assert q > c ==> n * q >= n * (c + 1);
    assert n * (c - 1) == c * n - n && n * (c + 1) == c * n + n;
  }

  /**
   * The meter shows as many blocks as there are slots or claims, and with a slot for every claim, the claims
   * themselves.
   */
  lemma QuotaRule(claims: seq<Bucket>, slots: nat)
    ensures |Meter(claims, slots)| == Total(claims, slots)
    ensures |claims| <= slots ==> forall b :: CountOf(Meter(claims, slots), b) == CountOf(claims, b)
  {
    if claims != [] {
      MeterSize(claims, slots);
      if |claims| <= slots {
        forall b ensures CountOf(Meter(claims, slots), b) == CountOf(claims, b) {
          var i := IndexOf(b);
          BlocksRound(claims, slots, i);
          Whole(CountOf(claims, b), |claims|);
        }
      }
    }
  }

  lemma MeterSize(claims: seq<Bucket>, slots: nat)
    requires claims != []
    ensures |Meter(claims, slots)| == Total(claims, slots)
  {
    LeftTimesClaims(claims, slots);
    OrderFacts(claims, slots);
    GetsOne(Order(claims, slots), Left(claims, slots));
    hide Order, Floor, Total, Rest, Arranged;
  }

  // ---- who is left out

  function Empties(claims: seq<Bucket>, slots: nat): nat
    requires claims != []
  {
    (if Empty(claims, slots, 0) then 1 else 0) + (if Empty(claims, slots, 1) then 1 else 0)
    + (if Empty(claims, slots, 2) then 1 else 0) + (if Empty(claims, slots, 3) then 1 else 0)
  }

  function Bit(b: bool): nat { if b then 1 else 0 }

  lemma BitsByOrder(order: seq<Index>, p: Index -> bool)
    requires |order| == 4 && forall a, b | 0 <= a < b < 4 :: order[a] != order[b]
    ensures Bit(p(order[0])) + Bit(p(order[1])) + Bit(p(order[2])) + Bit(p(order[3]))
            == Bit(p(0)) + Bit(p(1)) + Bit(p(2)) + Bit(p(3))
  {
    hide Bit;
  }

  /** Buckets rounded down to nothing stand first in the order. */
  lemma EmptiesStandFirst(claims: seq<Bucket>, slots: nat, k: nat)
    requires claims != [] && k < 4
    ensures |Order(claims, slots)| == 4
            && (Empty(claims, slots, Order(claims, slots)[k]) <==> k < Empties(claims, slots))
  {
    OrderFacts(claims, slots);
    var order := Order(claims, slots);
    hide Order, Empty;
    var p := (i: Index) => Empty(claims, slots, i);
    BitsByOrder(order, p);
    assert Empties(claims, slots) == Bit(p(0)) + Bit(p(1)) + Bit(p(2)) + Bit(p(3));
    forall a, b | 0 <= a < b < 4 ensures p(order[b]) ==> p(order[a]) {
      assert !First(claims, slots, order[b], order[a]);
    }
  }

  lemma NotShown(claims: seq<Bucket>, slots: nat, i: nat)
    requires i < 4 && claims != []
    ensures 0 <= Left(claims, slots) <= |Order(claims, slots)|
    ensures CountOf(claims, METER_ORDER[i]) > 0 && CountOf(Meter(claims, slots), METER_ORDER[i]) == 0
            <==> Empty(claims, slots, i) && i !in Order(claims, slots)[..Left(claims, slots)]
  {
    MeterCounts(claims, slots, i);
    hide Order, Left, CountOf, Meter, Floor;
  }

  lemma ShownIfCovered(claims: seq<Bucket>, slots: nat, b: Bucket)
    requires claims != [] && Empties(claims, slots) <= Left(claims, slots) && CountOf(claims, b) > 0
    ensures CountOf(Meter(claims, slots), b) > 0
  {
    var i := IndexOf(b);
    OrderFacts(claims, slots);
    NotShown(claims, slots, i);
    hide Order, Left, CountOf, Meter, Empties, Floor, Empty, Arranged;
    var order, l := Order(claims, slots), Left(claims, slots);
    var k := Position(order, i);
    EmptiesStandFirst(claims, slots, k);
    if k < l { assert order[..l][k] == i; }
  }

  lemma Position(order: seq<Index>, i: Index) returns (k: nat)
    requires i in order
    ensures k < |order| && order[k] == i
  {
    k :| 0 <= k < |order| && order[k] == i;
  }

  lemma OneIsNotShown(claims: seq<Bucket>, slots: nat) returns (b: Bucket)
    requires claims != [] && Empties(claims, slots) > Left(claims, slots)
    ensures CountOf(claims, b) > 0 && CountOf(Meter(claims, slots), b) == 0
  {
    OrderFacts(claims, slots);
    LeftTimesClaims(claims, slots);
    hide Order, Left, CountOf, Meter, Empties, Floor, Empty, Arranged, Rest;
    var order, l := Order(claims, slots), Left(claims, slots);
    EmptiesStandFirst(claims, slots, l);
    NoWrap(order, l);
    NotShown(claims, slots, order[l]);
    b := METER_ORDER[order[l]];
  }

  /**
   * Every bucket with claims gets a block exactly when the blocks left over cover the buckets that rounded to nothing;
   * having as many slots as such buckets is not enough.
   */
  lemma EveryBucketIsShown(claims: seq<Bucket>, slots: nat)
    requires claims != []
    ensures (forall b :: CountOf(claims, b) > 0 ==> CountOf(Meter(claims, slots), b) > 0) <==>
            Empties(claims, slots) <= Left(claims, slots)
  {
    hide CountOf, Meter, Empties, Left;
    if Empties(claims, slots) <= Left(claims, slots) {
      forall b | CountOf(claims, b) > 0 ensures CountOf(Meter(claims, slots), b) > 0 {
        ShownIfCovered(claims, slots, b);
      }
    } else {
      var b := OneIsNotShown(claims, slots);
    }
  }

  function IndexOf(b: Bucket): (i: Index)
    ensures METER_ORDER[i] == b
  {
    match b case Safe => 0 case Careful => 1 case Hold => 2 case Check => 3
  }

  /** Five slots, four buckets with claims, and two of them are not shown. */
  lemma ALargeBucketCrowdsOutSmallOnes()
    ensures var claims := Repeat(Safe, 97) + [Careful, Hold, Check];
            && CountOf(claims, Careful) == CountOf(claims, Hold) == CountOf(claims, Check) == 1
            && Empties(claims, 5) == 3 && Left(claims, 5) == 1
            && exists b :: CountOf(claims, b) > 0 && CountOf(Meter(claims, 5), b) == 0
  {
    hide Meter;
    var claims := Repeat(Safe, 97) + [Careful, Hold, Check];
    forall b ensures CountOf(claims, b) == if b == Safe then 97 else 1 {
      CountSplits(Repeat(Safe, 97), [Careful, Hold, Check], b);
      CountRepeat(Safe, 97, b);
      assert [Careful, Hold, Check][1..] == [Hold, Check] && [Hold, Check][1..] == [Check] && [Check][1..] == [];
    }
    hide CountOf;
    assert Share(claims, 5, 0) == 485 && Share(claims, 5, 1) == Share(claims, 5, 2) == Share(claims, 5, 3) == 5;
    EveryBucketIsShown(claims, 5);
  }
}
