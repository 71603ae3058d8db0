/** Shared small types. */
module Prelude {
  /** A value that may be absent: SQL NULL, Python None, a missing JavaScript field. */
  datatype Option<+T> = None | Some(value: T)

  /** The outcome of a call that either returns or raises. */
  datatype Result<+T, +E> = Ok(value: T) | Err(error: E)

  /** No element occurs twice. */
  ghost predicate Distinct<T(!new)>(xs: seq<T>) { forall i, j | 0 <= i < j < |xs| :: xs[i] != xs[j] }

  /** The first elements, at most so many. */
  function Capped<T>(xs: seq<T>, most: nat): seq<T> { if |xs| <= most then xs else xs[..most] }

  /** Stored blobs and UTF-8 text, as SQLite measures them. */
  type Bytes = seq<bv8>

  function Size(b: Option<Bytes>): (n: nat) {
    match b case None => 0 case Some(x) => |x|
  }
}

/** Totals over the rows of a table, as SQL's `sum` and `count` take them. */
module Totals {
  ghost function Sum<K(!new), V(!new)>(m: map<K, V>, f: (K, V) -> nat): nat {
    if m == map[] then 0 else
      var k :| k in m;
      f(k, m[k]) + Sum(m - {k}, f)
  }

  /** The total does not depend on the order in which rows are visited. */
  lemma {:induction false} SumSplit<K(!new), V(!new)>(m: map<K, V>, k: K, f: (K, V) -> nat)
    requires k in m
    ensures Sum(m, f) == f(k, m[k]) + Sum(m - {k}, f)
    decreases |m|
  {
    var j :| j in m && Sum(m, f) == f(j, m[j]) + Sum(m - {j}, f);
    if j != k {
      SumSplit(m - {j}, k, f);
      SumSplit(m - {k}, j, f);
      assert m - {j} - {k} == m - {k} - {j};
    }
  }

  lemma SumUpdate<K(!new), V(!new)>(m: map<K, V>, k: K, v: V, f: (K, V) -> nat)
    ensures Sum(m[k := v], f) == f(k, v) + Sum(m - {k}, f)
    ensures Sum(m, f) == (if k in m then f(k, m[k]) else 0) + Sum(m - {k}, f)
  {
    SumSplit(m[k := v], k, f);
    assert m[k := v] - {k} == m - {k};
    if k in m { SumSplit(m, k, f); } else { assert m - {k} == m; }
  }

  lemma Distribute(c: nat, a: nat, b: nat)
    ensures c * (a + b) == c * a + c * b
  {
  }

  /** A row-wise linear bound lifts to the totals. */
  lemma {:induction false} SumBound<K(!new), V(!new)>(m: map<K, V>, f: (K, V) -> nat, g: (K, V) -> nat,
                                                      h: (K, V) -> nat, c: nat)
    requires forall k | k in m :: f(k, m[k]) <= g(k, m[k]) + c * h(k, m[k])
    ensures Sum(m, f) <= Sum(m, g) + c * Sum(m, h)
    decreases |m|
  {
    if m != map[] {
      var k :| k in m;
      SumSplit(m, k, f);
      SumSplit(m, k, g);
      SumSplit(m, k, h);
      SumBound(m - {k}, f, g, h, c);
      Distribute(c, h(k, m[k]), Sum(m - {k}, h));
    }
  }

  lemma {:induction false} SumLe<K(!new), V(!new)>(m: map<K, V>, f: (K, V) -> nat, m': map<K, V>, g: (K, V) -> nat)
    requires m.Keys == m'.Keys
    requires forall k | k in m :: f(k, m[k]) <= g(k, m'[k])
    ensures Sum(m, f) <= Sum(m', g)
    decreases |m|
  {
    if m != map[] {
      var k :| k in m;
      SumSplit(m, k, f);
      SumSplit(m', k, g);
      SumLe(m - {k}, f, m' - {k}, g);
    } else {
      assert m' == map[];
    }
  }

  lemma {:induction false} SumZero<K(!new), V(!new)>(m: map<K, V>, f: (K, V) -> nat)
    requires forall k | k in m :: f(k, m[k]) == 0
    ensures Sum(m, f) == 0
    decreases |m|
  {
    if m != map[] {
      var k :| k in m;
      SumSplit(m, k, f);
      SumZero(m - {k}, f);
    }
  }

  /** The aggregate query: one pass over the rows, in any order. */
  method Total<K(!new, ==), V(!new)>(m: map<K, V>, f: (K, V) -> nat) returns (n: nat)
    ensures n == Sum(m, f)
  {
    n := 0;
    var rest := m;
    while rest != map[]
      invariant n + Sum(rest, f) == Sum(m, f)
      decreases |rest|
    {
      var k :| k in rest;
      SumSplit(rest, k, f);
      n := n + f(k, rest[k]);
      rest := rest - {k};
    }
  }
}

/** Numbers as decimal text. */
module Numerals {
  function Digits(n: nat): string {
    if n < 10 then [('0' as int + n) as char] else Digits(n / 10) + [('0' as int + n % 10) as char]
  }

  lemma {:induction false} DigitsAreDigits(n: nat)
    ensures Digits(n) != [] && forall c | c in Digits(n) :: '0' <= c <= '9'
  {
    if n >= 10 { DigitsAreDigits(n / 10); }
  }

  lemma {:induction false} DigitsAreUnique(m: nat, n: nat)
    requires Digits(m) == Digits(n)
    ensures m == n
  {
    DigitsAreDigits(m / 10);
    DigitsAreDigits(n / 10);
    var a, b := Digits(m), Digits(n);
    if m >= 10 && n >= 10 {
      assert a[..|a| - 1] == Digits(m / 10) && b[..|b| - 1] == Digits(n / 10);
      DigitsAreUnique(m / 10, n / 10);
    }
    assert a[|a| - 1] as int == '0' as int + m % 10 && b[|b| - 1] as int == '0' as int + n % 10;
  }
}
