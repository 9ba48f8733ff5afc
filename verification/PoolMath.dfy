/** The pricing formulas of a virtual liquidity pool (contracts/hub/vlp/src/query.rs) and their laws. */
module PoolMath {
  import opened Arith

  const MINIMUM_LIQUIDITY: int := 1000

  /** The payout of a swap: the new output reserve is floored, so the payout is rounded up. */
  function CalculateSwap(swapAmount: Uint128, reserveIn: Uint128, reserveOut: Uint128): Option<Uint128> {
    var k :- CheckedMul(reserveIn, reserveOut);
    var newIn :- CheckedAdd(reserveIn, swapAmount);
    var newOut :- CheckedDiv(k, newIn);
    CheckedSub(reserveOut, newOut)
  }

  /** Integer square root. */
  function Isqrt(n: nat): (r: nat)
    ensures r * r <= n < (r + 1) * (r + 1)
  {
    if n == 0 then 0 else
    var h := Isqrt(n / 4);
    IsqrtDouble(n, h);
    if (2 * h + 1) * (2 * h + 1) <= n then 2 * h + 1 else 2 * h
  }

  lemma IsqrtDouble(n: nat, h: nat)
    requires h * h <= n / 4 < (h + 1) * (h + 1)
    ensures (2 * h) * (2 * h) <= n < (2 * h + 1 + 1) * (2 * h + 1 + 1)
  {
    var a, b := h * h, (h + 1) * (h + 1);
    assert 4 * a <= n < 4 * b;
    assert (2 * h) * (2 * h) == 4 * a;
    assert (2 * h + 1 + 1) * (2 * h + 1 + 1) == 4 * b;
  }

  function CalculateLpAllocation(amount1: Uint128, amount2: Uint128,
                                 reserve1: Uint128, reserve2: Uint128, supply: Uint128): Option<Uint128>
  {
    if supply == 0 then
      var product :- CheckedMul(amount1, amount2);
      var root :- Fit(Isqrt(product));
      CheckedSub(root, MINIMUM_LIQUIDITY)
    else
      var by1 :- MultiplyRatio(amount1, supply, reserve1);
      var by2 :- MultiplyRatio(amount2, supply, reserve2);
      Some(Min(by1, by2))
  }

  /** What burning `lp` of `supply` pays out of one reserve. */
  function RemovePayout(reserve: Uint128, lp: Uint128, supply: Uint128): Option<Uint128> {
    var share :- DecimalFromRatio(lp, supply);
    MulCeil(reserve, share)
  }

  /** A chain's view of one reserve; every arithmetic error becomes zero. */
  function ReserveView(reserve: Uint128, chainLp: Uint128, supply: Uint128): Uint128 {
    MultiplyRatio(reserve, chainLp, supply).GetOr(0)
  }

  function CeilDiv(n: int, d: int): int requires d > 0 { (n + d - 1) / d }

  // ----- Swap laws -----

  /** A swap is priced exactly when the product and the new reserve fit and the new reserve is positive,
      and the payout is the exact constant-product payout rounded up. */
  lemma SwapPayout(s: Uint128, rin: Uint128, rout: Uint128)
    ensures CalculateSwap(s, rin, rout).Some? <==> rin * rout <= U128_MAX && 0 < rin + s <= U128_MAX
    ensures CalculateSwap(s, rin, rout).Some? ==>
              && CalculateSwap(s, rin, rout).value == CeilDiv(rout * s, rin + s)
              && CalculateSwap(s, rin, rout).value <= rout
  {
    MulLe(0, rin, rout);
    if 0 < rin + s {
      FloorComplement(rin, s, rout);
    }
  }

  /** Flooring the new output reserve is the same as rounding the payout up. */
  lemma FloorComplement(rin: int, s: int, rout: int)
    requires 0 <= rin && 0 <= s && 0 <= rout && 0 < rin + s
    ensures 0 <= rin * rout / (rin + s) <= rout
    ensures rin * rout / (rin + s) <= rin * rout
    ensures rout - rin * rout / (rin + s) == CeilDiv(rout * s, rin + s)
  {
    var n, k, q := rin + s, rin * rout, rin * rout / (rin + s);
    MulLe(0, rin, rout);
    MulLe(0, s, rout);
    DivBounds(k, n);
    assert n * rout == k + rout * s;
    MulCancel(n, q, rout);
    MulCancelStrict(n, -1, q);
    MulLe(1, n, q);
    assert n * (rout - q) == n * rout - n * q;
    DivUnique(rout * s + n - 1, n, rout - q);
  }

  /** With the LP fee left in the pool, the reserve product survives a swap if and only if the fee's
      share of the new output reserve covers the remainder the floor dropped; any fall is below the
      new input reserve. */
  lemma SwapProductLaw(s: Uint128, lpFee: Uint128, rin: Uint128, rout: Uint128)
    requires CalculateSwap(s, rin, rout).Some?
    ensures rin + s > 0
    ensures var out' := rout - CalculateSwap(s, rin, rout).value;
            var in' := rin + s + lpFee;
            && (in' * out' >= rin * rout <==> lpFee * out' >= rin * rout % (rin + s))
            && in' * out' > rin * rout - (rin + s)
  {
    var n := rin + s;
    var out' := rout - CalculateSwap(s, rin, rout).value;
    assert out' == rin * rout / n;
    DivBounds(rin * rout, n);
    assert (n + lpFee) * out' == n * out' + lpFee * out';
    MulLe(0, lpFee, out');
  }

  /** Without a fee the product falls on this pool, so the guard of SwapProductLaw is needed. */
  lemma SwapProductCanFall()
    ensures var p := CalculateSwap(1, 2, 2);
            p == Some(1) && (2 + 1) * (2 - p.value) < 2 * 2
  {
  }

  /** The pieces of an input, each swapped on the reserves the previous one left; no fees. */
  function SwapPieces(pieces: seq<Uint128>, reserveIn: Uint128, reserveOut: Uint128): Option<int> {
    if pieces == [] then Some(0) else
    var paid :- CalculateSwap(pieces[0], reserveIn, reserveOut);
    var newIn :- CheckedAdd(reserveIn, pieces[0]);
    var newOut :- CheckedSub(reserveOut, paid);
    var rest :- SwapPieces(pieces[1..], newIn, newOut);
    Some(paid + rest)
  }

  function Total(pieces: seq<Uint128>): int {
    if pieces == [] then 0 else pieces[0] + Total(pieces[1..])
  }

  lemma {:induction false} TotalNonneg(pieces: seq<Uint128>)
    ensures Total(pieces) >= 0
  {
    if pieces != [] { TotalNonneg(pieces[1..]); }
  }

  /** The output reserve left by n pieces, against the exact hyperbola. */
  lemma {:induction false} PiecesBounds(pieces: seq<Uint128>, rin: Uint128, rout: Uint128)
    requires pieces == [] || rin + pieces[0] > 0
    requires rin * rout <= U128_MAX && rin + Total(pieces) <= U128_MAX
    ensures SwapPieces(pieces, rin, rout).Some?
    ensures var left := rout - SwapPieces(pieces, rin, rout).value;
            var n := rin + Total(pieces);
            && 0 <= left
            && n * left <= rin * rout
            && rin * rout <= n * left + |pieces| * (n - 1)
  {
    if pieces != [] {
      var s, rest := pieces[0], pieces[1..];
      TotalNonneg(rest);
      SwapPayout(s, rin, rout);
      var n1, n := rin + s, rin + Total(pieces);
      var out1 := rout - CalculateSwap(s, rin, rout).value;
      assert out1 == rin * rout / n1;
      DivBounds(rin * rout, n1);
      PiecesBounds(rest, n1, out1);
      PiecesStep(|rest|, n);
    }
  }

  lemma PiecesStep(m: int, n: int)
    ensures (m + 1) * (n - 1) == m * (n - 1) + (n - 1)
  {
  }

  /** Splitting a swap into n pieces never pays less than one swap, and at most n - 1 units more. Only a first
      piece of nothing on an empty pool is shut out, which the pool itself refuses. */
  lemma SplittingBound(pieces: seq<Uint128>, rin: Uint128, rout: Uint128)
    requires pieces != [] && rin + pieces[0] > 0
    requires Total(pieces) <= U128_MAX
    requires 0 <= Total(pieces) && CalculateSwap(Total(pieces), rin, rout).Some?
    ensures SwapPieces(pieces, rin, rout).Some?
    ensures var once := CalculateSwap(Total(pieces), rin, rout).value;
            once <= SwapPieces(pieces, rin, rout).value <= once + |pieces| - 1
  {
    var n := rin + Total(pieces);
    SwapPayout(Total(pieces), rin, rout);
    PiecesBounds(pieces, rin, rout);
    SplittingGap(rin * rout, n, rout - SwapPieces(pieces, rin, rout).value, |pieces|);
  }

  lemma SplittingGap(k: int, n: int, left: int, pieces: nat)
    requires 0 < n && 0 < pieces && n * left <= k <= n * left + pieces * (n - 1)
    ensures left <= k / n < left + pieces
  {
    var q := k / n;
    DivBounds(k, n);
    assert n * (q + 1) == n * q + n;
    MulCancelStrict(n, left, q + 1);
    assert pieces * (n - 1) == n * pieces - pieces;
    assert n * (left + pieces) == n * left + n * pieces;
    MulCancelStrict(n, q, left + pieces);
  }

  // ----- Share laws -----

  /** On a pool with shares, an add mints the largest amount of LP that lets neither reserve-per-share fall. */
  lemma AllocationIsLargest(t1: Uint128, t2: Uint128, r1: Uint128, r2: Uint128, supply: Uint128, lp: int)
    requires supply > 0 && CalculateLpAllocation(t1, t2, r1, r2, supply).Some?
    ensures var minted := CalculateLpAllocation(t1, t2, r1, r2, supply).value;
            lp <= minted <==>
              && (r1 + t1) * supply >= r1 * (supply + lp)
              && (r2 + t2) * supply >= r2 * (supply + lp)
  {
    FloorRatio(t1, supply, r1, lp);
    FloorRatio(t2, supply, r2, lp);
    assert (r1 + t1) * supply == r1 * supply + t1 * supply;
    assert (r2 + t2) * supply == r2 * supply + t2 * supply;
    assert r1 * (supply + lp) == r1 * supply + r1 * lp;
    assert r2 * (supply + lp) == r2 * supply + r2 * lp;
  }

  lemma FloorRatio(t: int, supply: int, r: int, lp: int)
    requires r > 0
    ensures lp <= t * supply / r <==> r * lp <= t * supply
  {
    var q := t * supply / r;
    DivBounds(t * supply, r);
    if lp <= q {
      MulLe(lp, q, r);
    } else {
      MulLe(q + 1, lp, r);
    }
  }

  lemma SquareOrder(a: nat, b: nat)
    ensures a <= a * a
    ensures a < b ==> (a + 1) * (a + 1) <= b * b
    ensures a * a < b * b ==> a < b
  {
    if a < b {
      MulLe(a + 1, b, a + 1);
      MulLe(a + 1, b, b);
    } else {
      MulLe(b, a, b);
      MulLe(b, a, a);
    }
  }

  /** The first deposit mints the square root of the product less the locked minimum. */
  lemma FirstAllocation(t1: Uint128, t2: Uint128, r1: Uint128, r2: Uint128)
    ensures CalculateLpAllocation(t1, t2, r1, r2, 0).Some? <==>
              t1 * t2 <= U128_MAX && MINIMUM_LIQUIDITY * MINIMUM_LIQUIDITY <= t1 * t2
    ensures CalculateLpAllocation(t1, t2, r1, r2, 0).Some? ==>
              var root := CalculateLpAllocation(t1, t2, r1, r2, 0).value + MINIMUM_LIQUIDITY;
              root * root <= t1 * t2 < (root + 1) * (root + 1)
  {
    MulLe(0, t1, t2);
    if t1 * t2 <= U128_MAX {
      var root := Isqrt(t1 * t2);
      SquareOrder(root, MINIMUM_LIQUIDITY);
      SquareOrder(MINIMUM_LIQUIDITY, root + 1);
    }
  }

  /** A remove pays at most the reserve, less than one unit above its exact share, and at least the
      exact share less reserve / 10^18; burning the whole supply pays the whole reserve. */
  lemma RemovePayoutLaw(r: Uint128, lp: Uint128, supply: Uint128)
    requires 0 < supply && lp <= supply
    ensures RemovePayout(r, lp, supply).Some?
    ensures var p := RemovePayout(r, lp, supply).value;
            && p <= r
            && supply * p < r * lp + supply
            && DECIMAL_ONE * (supply * p) >= DECIMAL_ONE * (r * lp) - r * supply
            && (lp == supply ==> p == r)
  {
    var share := ShareBounds(lp, supply);
    PayoutFits(r, share);
    MulCeilLaw(r, share);
    var p: int := MulCeil(r, share).value;
    PayoutAbove(DECIMAL_ONE, r, lp, supply, share, p);
    PayoutBelow(DECIMAL_ONE, r, lp, supply, share, p);
  }

  lemma ShareBounds(lp: Uint128, supply: Uint128) returns (share: Uint128)
    requires 0 < supply && lp <= supply
    ensures DecimalFromRatio(lp, supply) == Some(share)
    ensures share <= DECIMAL_ONE && (lp == supply ==> share == DECIMAL_ONE)
    ensures DECIMAL_ONE * lp - supply < supply * share <= DECIMAL_ONE * lp
  {
    FloorShare(DECIMAL_ONE, lp, supply);
    share := lp * DECIMAL_ONE / supply;
  }

  lemma FloorShare(e: int, lp: int, supply: int)
    requires 0 < e && 0 < supply && 0 <= lp <= supply
    ensures 0 <= lp * e / supply <= e
    ensures lp == supply ==> lp * e / supply == e
    ensures e * lp - supply < supply * (lp * e / supply) <= e * lp
  {
    var n := lp * e;
    MulLe(lp, supply, e);
    MulLe(0, lp, e);
    DivBounds(n, supply);
    MulCancel(supply, n / supply, e);
    MulCancelStrict(supply, -1, n / supply);
    if lp == supply { DivUnique(n, supply, e); }
  }

  lemma PayoutFits(r: Uint128, share: Uint128)
    requires share <= DECIMAL_ONE
    ensures MulCeil(r, share).Some? && MulCeil(r, share).value <= r
    ensures share == DECIMAL_ONE ==> MulCeil(r, share).value == r
  {
    MulLe(share, DECIMAL_ONE, r);
    MulLe(0, share, r);
    DivBounds(r * share, DECIMAL_ONE);
    if share == DECIMAL_ONE { DivUnique(r * share, DECIMAL_ONE, r); }
  }

  lemma PayoutAbove(e: int, r: int, lp: int, supply: int, share: int, p: int)
    requires 0 < e && 0 <= r && 0 < supply && supply * share <= e * lp && e * p - e < r * share
    ensures supply * p < r * lp + supply
  {
    calc {
      e * (supply * p - supply);
      supply * (e * p - e);
    <  { MulStrict(e * p - e, r * share, supply); }
      supply * (r * share);
      r * (supply * share);
    <= { MulLe(supply * share, e * lp, r); }
      r * (e * lp);
      e * (r * lp);
    }
    MulCancelStrict(e, supply * p - supply, r * lp);
  }

  lemma PayoutBelow(e: int, r: int, lp: int, supply: int, share: int, p: int)
    requires 0 < e && 0 <= r && 0 < supply && e * lp - supply <= supply * share && r * share <= e * p
    ensures e * (supply * p) >= e * (r * lp) - r * supply
  {
    calc {
      e * (supply * p);
      supply * (e * p);
    >= { MulLe(r * share, e * p, supply); }
      supply * (r * share);
      r * (supply * share);
    >= { MulLe(e * lp - supply, supply * share, r); }
      r * (e * lp - supply);
      e * (r * lp) - r * supply;
    }
  }

  lemma MulStrict(a: int, b: int, c: int)
    requires a < b && 0 < c
    ensures c * a < c * b
  {
  }

  /** The exact share of a reserve bounds the rounded-up payout by any integer at or above that share. */
  lemma RemoveAtMost(r: Uint128, lp: Uint128, supply: Uint128, bound: int)
    requires 0 < supply && lp <= supply
    requires r * lp <= supply * bound
    ensures RemovePayout(r, lp, supply).Some? && RemovePayout(r, lp, supply).value <= bound
  {
    RemovePayoutLaw(r, lp, supply);
    var p := RemovePayout(r, lp, supply).value;
    assert supply * p < supply * (bound + 1);
    MulCancelStrict(supply, p, bound + 1);
  }

  /** Adding liquidity and burning the LP just minted returns at most what was put in, token by token. */
  lemma NoProfitAddRemove(t1: Uint128, t2: Uint128, r1: Uint128, r2: Uint128, supply: Uint128)
    requires CalculateLpAllocation(t1, t2, r1, r2, supply).Some?
    requires var lp := CalculateLpAllocation(t1, t2, r1, r2, supply).value;
             lp > 0 && r1 + t1 <= U128_MAX && r2 + t2 <= U128_MAX && supply + lp <= U128_MAX
    requires supply == 0 ==> r1 == 0 && r2 == 0
    ensures var lp := CalculateLpAllocation(t1, t2, r1, r2, supply).value;
            var back1 := RemovePayout(r1 + t1, lp, supply + lp);
            var back2 := RemovePayout(r2 + t2, lp, supply + lp);
            back1.Some? && back2.Some? && back1.value <= t1 && back2.value <= t2
  {
    hide CalculateLpAllocation, RemovePayout;
    var lp := CalculateLpAllocation(t1, t2, r1, r2, supply).value;
    MintedWithin(t1, t2, r1, r2, supply);
    ShareOfNew(r1, t1, lp, supply);
    ShareOfNew(r2, t2, lp, supply);
    RemoveAtMost(r1 + t1, lp, supply + lp, t1);
    RemoveAtMost(r2 + t2, lp, supply + lp, t2);
  }

  /** Newly minted LP is no larger a share of the old supply than each deposit is of its old reserve. */
  lemma MintedWithin(t1: Uint128, t2: Uint128, r1: Uint128, r2: Uint128, supply: Uint128)
    requires CalculateLpAllocation(t1, t2, r1, r2, supply).Some?
    requires supply == 0 ==> r1 == 0 && r2 == 0
    ensures var lp := CalculateLpAllocation(t1, t2, r1, r2, supply).value;
            r1 * lp <= t1 * supply && r2 * lp <= t2 * supply
  {
    var lp := CalculateLpAllocation(t1, t2, r1, r2, supply).value;
    if supply > 0 {
      FloorRatio(t1, supply, r1, lp);
      FloorRatio(t2, supply, r2, lp);
    }
  }

  lemma ShareOfNew(r: int, t: int, lp: int, supply: int)
    requires r * lp <= t * supply
    ensures (r + t) * lp <= (supply + lp) * t
  {
    assert (r + t) * lp == r * lp + t * lp;
    assert (supply + lp) * t == t * supply + t * lp;
  }
}
