/** Option results and the checked 128-bit and 18-digit decimal arithmetic that every contract uses. */
module Arith {

  datatype Option<+T> = None | Some(value: T) {
    predicate IsFailure() { None? }
    function PropagateFailure<U>(): Option<U> requires None? { None }
    function Extract(): T requires Some? { value }
    function GetOr(d: T): T { if Some? then value else d }
  }

  const U128_MAX: int := 0xFFFF_FFFF_FFFF_FFFF_FFFF_FFFF_FFFF_FFFF
  /** One whole unit of an 18-digit decimal. */
  const DECIMAL_ONE: int := 1_000_000_000_000_000_000
  /** One basis point of an 18-digit decimal. */
  const BPS: int := 100_000_000_000_000

  type Uint128 = x: int | 0 <= x <= U128_MAX

  function Fit(x: int): Option<Uint128> {
    if 0 <= x <= U128_MAX then Some(x) else None
  }

  /** Succeeds exactly when the condition holds; the contracts' `ensure!`. */
  function Ensure(b: bool): Option<()> {
    if b then Some(()) else None
  }

  function CheckedAdd(a: Uint128, b: Uint128): Option<Uint128> { Fit(a + b) }

  function CheckedSub(a: Uint128, b: Uint128): Option<Uint128> { Fit(a - b) }

  function CheckedMul(a: Uint128, b: Uint128): Option<Uint128> { Fit(a * b) }

  function CheckedDiv(a: Uint128, b: Uint128): Option<Uint128> {
    if b == 0 then None else Fit(a / b)
  }

  /** floor(a * num / den) with a 256-bit product. */
  function MultiplyRatio(a: Uint128, num: Uint128, den: Uint128): Option<Uint128> {
    if den == 0 then None else Fit(a * num / den)
  }

  /** The 18-digit decimal nearest below num / den, as its atomic amount. */
  function DecimalFromRatio(num: Uint128, den: Uint128): Option<Uint128> {
    MultiplyRatio(num, DECIMAL_ONE, den)
  }

  /** a times a decimal, rounded down. */
  function MulFloor(a: Uint128, atomics: Uint128): Option<Uint128> {
    Fit(a * atomics / DECIMAL_ONE)
  }

  /** a times a decimal, rounded up. */
  function MulCeil(a: Uint128, atomics: Uint128): Option<Uint128> {
    var floor :- MulFloor(a, atomics);
    if a * atomics % DECIMAL_ONE != 0 then CheckedAdd(floor, 1) else Some(floor)
  }

  function Min(a: int, b: int): int { if a <= b then a else b }

  /** The defining bounds of a quotient, in multiplied-out form. */
  lemma DivBounds(n: int, d: int)
    requires d > 0
    ensures d * (n / d) <= n < d * (n / d) + d
    ensures n == d * (n / d) + n % d
  {
  }

  lemma MulLe(a: int, b: int, c: int)
    requires a <= b && 0 <= c
    ensures a * c <= b * c
  {
  }

  /** q is the quotient n / d when d*q <= n < d*q + d. */
  lemma DivUnique(n: int, d: int, q: int)
    requires d > 0 && d * q <= n < d * q + d
    ensures n / d == q
  {
    DivBounds(n, d);
    var p := n / d;
    if p < q {
      MulLe(p + 1, q, d);
      assert false;
    } else if p > q {
      MulLe(q + 1, p, d);
      assert false;
    }
  }

  /** A factor of a positive divisor cancels: d*x <= d*y gives x <= y. */
  lemma MulCancel(d: int, x: int, y: int)
    requires d > 0 && d * x <= d * y
    ensures x <= y
  {
    if x > y {
      MulLe(y + 1, x, d);
      assert false;
    }
  }

  /** d*x < d*y gives x < y. */
  lemma MulCancelStrict(d: int, x: int, y: int)
    requires d > 0 && d * x < d * y
    ensures x < y
  {
    if x >= y {
      MulLe(y, x, d);
      assert false;
    }
  }

  /** A decimal product rounded up: the least integer p with p * 10^18 >= a * atomics. */
  lemma MulCeilLaw(a: Uint128, atomics: Uint128)
    requires MulCeil(a, atomics).Some?
    ensures var p := MulCeil(a, atomics).value;
            DECIMAL_ONE * p - DECIMAL_ONE < a * atomics <= DECIMAL_ONE * p
  {
    DivBounds(a * atomics, DECIMAL_ONE);
  }
}

/** Weighted sums over maps and sequences: the language of every conservation law below. */
module Sums {

  ghost function Pick<K, V>(m: map<K, V>): (k: K)
    requires m != map[]
    ensures k in m
  {
    var k :| k in m; k
  }

  ghost function Sum<K, V>(m: map<K, V>, w: (K, V) -> int): int
    decreases |m|
  {
    if m == map[] then 0 else
    var k := Pick(m);
    assert (m - {k}).Keys == m.Keys - {k};
    w(k, m[k]) + Sum(m - {k}, w)
  }

  lemma {:induction false} SumPick<K, V>(m: map<K, V>, w: (K, V) -> int, k: K)
    requires k in m
    ensures Sum(m, w) == w(k, m[k]) + Sum(m - {k}, w)
    decreases |m|
  {
    var j := Pick(m);
    if j != k {
      assert (m - {j}).Keys == m.Keys - {j};
      assert (m - {k}).Keys == m.Keys - {k};
      SumPick(m - {j}, w, k);
      SumPick(m - {k}, w, j);
      assert m - {j} - {k} == m - {k} - {j};
    }
  }

  /** Writing one entry changes the sum by the difference of that entry's weights. */
  lemma SumSet<K, V>(m: map<K, V>, w: (K, V) -> int, k: K, v: V)
    ensures Sum(m[k := v], w) == Sum(m, w) - (if k in m then w(k, m[k]) else 0) + w(k, v)
  {
    SumPick(m[k := v], w, k);
    assert m[k := v] - {k} == m - {k};
    if k in m {
      SumPick(m, w, k);
    } else {
      assert m - {k} == m;
    }
  }

  lemma {:induction false} SumNonneg<K, V>(m: map<K, V>, w: (K, V) -> int)
    requires forall k | k in m :: w(k, m[k]) >= 0
    ensures Sum(m, w) >= 0
    decreases |m|
  {
    if m != map[] {
      var k := Pick(m);
      assert (m - {k}).Keys == m.Keys - {k};
      SumPick(m, w, k);
      SumNonneg(m - {k}, w);
    }
  }

  /** One entry of a sum of nonnegative weights is at most the sum. */
  lemma SumAtLeast<K, V>(m: map<K, V>, w: (K, V) -> int, k: K)
    requires forall j | j in m :: w(j, m[j]) >= 0
    requires k in m
    ensures w(k, m[k]) <= Sum(m, w)
  {
    SumPick(m, w, k);
    SumNonneg(m - {k}, w);
  }

  lemma {:induction false} SumZero<K, V>(m: map<K, V>, w: (K, V) -> int)
    requires forall k | k in m :: w(k, m[k]) == 0
    ensures Sum(m, w) == 0
    decreases |m|
  {
    if m != map[] {
      var k := Pick(m);
      assert (m - {k}).Keys == m.Keys - {k};
      SumZero(m - {k}, w);
    }
  }

  /** A sum in which only one key has weight. */
  lemma SumSingle<K, V>(m: map<K, V>, w: (K, V) -> int, k: K)
    requires forall j | j in m && j != k :: w(j, m[j]) == 0
    ensures Sum(m, w) == if k in m then w(k, m[k]) else 0
  {
    if k in m {
      SumPick(m, w, k);
      SumZero(m - {k}, w);
    } else {
      SumZero(m, w);
    }
  }

  function SeqSum<T>(s: seq<T>, w: T -> int): int {
    if |s| == 0 then 0 else SeqSum(s[..|s| - 1], w) + w(s[|s| - 1])
  }

  lemma {:induction false} SeqSumConcat<T>(a: seq<T>, b: seq<T>, w: T -> int)
    ensures SeqSum(a + b, w) == SeqSum(a, w) + SeqSum(b, w)
    decreases |b|
  {
    if |b| == 0 {
      assert a + b == a;
    } else {
      assert (a + b)[..|a + b| - 1] == a + b[..|b| - 1];
      SeqSumConcat(a, b[..|b| - 1], w);
    }
  }

  lemma {:induction false} SeqSumUpdate<T>(s: seq<T>, w: T -> int, i: nat, v: T)
    requires i < |s|
    ensures SeqSum(s[i := v], w) == SeqSum(s, w) - w(s[i]) + w(v)
  {
    var l := |s| - 1;
    if i == l {
      assert s[i := v][..l] == s[..l];
    } else {
      assert s[i := v][..l] == s[..l][i := v];
      SeqSumUpdate(s[..l], w, i, v);
    }
  }

  lemma {:induction false} SeqSumNonneg<T>(s: seq<T>, w: T -> int)
    requires forall i | 0 <= i < |s| :: w(s[i]) >= 0
    ensures SeqSum(s, w) >= 0
  {
    if |s| != 0 {
      SeqSumNonneg(s[..|s| - 1], w);
    }
  }
}
