/** What each message to a pool does, stated outright: when it is accepted, what it pays, mints or charges, and
    what it leaves alone. */
module PoolLaws {
  import opened Arith
  import opened Types
  import opened PoolMath
  import opened VlpModel

  // ----- Swaps -----

  /** `fee` is `bps` basis points of `amount`, rounded down. */
  predicate FlooredFee(fee: int, amount: int, bps: int) { 10_000 * fee <= amount * bps < 10_000 * (fee + 1) }

  lemma FeeIsFloored(amount: Uint128, bps: Bps)
    ensures FlooredFee(amount * (bps * BPS) / DECIMAL_ONE, amount, bps)
  {
    var n := amount * bps;
    assert amount * (bps * BPS) == BPS * n;
    DivBounds(BPS * n, DECIMAL_ONE);
  }

  lemma FlooredFeeUnique(a: int, b: int, amount: int, bps: int)
    requires FlooredFee(a, amount, bps) && FlooredFee(b, amount, bps)
    ensures a == b
  {
  }

  lemma FeeFits(amount: Uint128, bps: Bps, fee: int)
    requires FlooredFee(fee, amount, bps)
    ensures fee >= 0 && MulFloor(amount, bps * BPS) == Fit(fee)
  {
    FeeIsFloored(amount, bps);
    FlooredFeeUnique(fee, amount * (bps * BPS) / DECIMAL_ONE, amount, bps);
    MulLe(0, bps, amount);
  }

  /** What a swap charges and pays. The LP fee, which is what the pool's LP fee counter grows by, and the treasury
      fee, which its treasury counter grows by, are each their own rate of the input rounded down; the payout is
      the constant-product payout of the rest, rounded up. */
  lemma SwapCharges(v: Vlp, t: Token, a: Uint128, held: Uint128)
    requires Books(v) && LocalSwap(v, t, a, held).Some?
    ensures var o := LocalSwap(v, t, a, held).value;
            var lp := Get(o.vlp.lpFees, t) - Get(v.lpFees, t);
            var rin, rout, s := Get(v.reserves, t), Get(v.reserves, o.assetOut), a - lp - o.euclidFee;
            && FlooredFee(lp, a, v.fee.lpBps) && FlooredFee(o.euclidFee, a, v.fee.euclidBps)
            && Get(o.vlp.euclidFees, t) - Get(v.euclidFees, t) == o.euclidFee
            && s >= 0 && rin + s > 0 && o.amountOut == CeilDiv(rout * s, rin + s)
            && (forall x | x != t :: Get(o.vlp.lpFees, x) == Get(v.lpFees, x)
                                     && Get(o.vlp.euclidFees, x) == Get(v.euclidFees, x))
  {
    hide LocalSwap, SwapQuote, CalculateSwap, FlooredFee, Books;
    SwapCounts(v, t, a, held);
    var q := SwapQuote(v, t, a).value;
    SwapParts(v, t, a);
    SwapPayout(a - q.lpFee - q.euclidFee, Get(v.reserves, t), Get(v.reserves, q.assetOut));
  }

  /** A swap charges, counts and pays what it was quoted. */
  lemma SwapCounts(v: Vlp, t: Token, a: Uint128, held: Uint128)
    requires LocalSwap(v, t, a, held).Some?
    ensures SwapQuote(v, t, a).Some?
    ensures var o, q := LocalSwap(v, t, a, held).value, SwapQuote(v, t, a).value;
            && o.assetOut == q.assetOut && o.amountOut == q.amountOut && o.euclidFee == q.euclidFee
            && (forall x :: Get(o.vlp.lpFees, x) == Get(v.lpFees, x) + (if x == t then q.lpFee else 0)
                            && Get(o.vlp.euclidFees, x) == Get(v.euclidFees, x) + (if x == t then q.euclidFee else 0))
  {
    hide SwapQuote;
  }

  lemma SwapParts(v: Vlp, t: Token, a: Uint128)
    requires SwapQuote(v, t, a).Some?
    ensures var q := SwapQuote(v, t, a).value;
            && FlooredFee(q.lpFee, a, v.fee.lpBps) && FlooredFee(q.euclidFee, a, v.fee.euclidBps)
            && q.lpFee + q.euclidFee <= a && a > 0 && v.pair.Has(t) && q.assetOut == v.pair.Other(t)
            && CalculateSwap(a - q.lpFee - q.euclidFee, Get(v.reserves, t), Get(v.reserves, q.assetOut))
               == Some(q.amountOut)
  {
    hide CalculateSwap, StrLe;
    FeeIsFloored(a, v.fee.lpBps);
    FeeIsFloored(a, v.fee.euclidBps);
  }

  lemma QuoteIff(v: Vlp, t: Token, a: Uint128, lp: int, treasury: int)
    requires FlooredFee(lp, a, v.fee.lpBps) && FlooredFee(treasury, a, v.fee.euclidBps)
    ensures lp >= 0 && treasury >= 0
    ensures SwapQuote(v, t, a).Some? <==>
              && a > 0 && v.pair.Has(t) && lp + treasury <= a
              && CalculateSwap(a - lp - treasury, Get(v.reserves, t), Get(v.reserves, v.pair.Other(t))).Some?
    ensures SwapQuote(v, t, a).Some? ==>
              SwapQuote(v, t, a).value.lpFee == lp && SwapQuote(v, t, a).value.euclidFee == treasury
  {
    hide CalculateSwap, MulFloor, StrLe;
    FeeFits(a, v.fee.lpBps, lp);
    FeeFits(a, v.fee.euclidBps, treasury);
  }

  lemma PositivePayout(rout: nat, s: nat, n: nat)
    requires n > 0
    ensures CeilDiv(rout * s, n) > 0 <==> rout > 0 && s > 0
  {
    MulLe(0, rout, s);
    DivBounds(rout * s + n - 1, n);
    if rout > 0 && s > 0 {
      MulLe(1, rout, s);
      MulCancelStrict(n, 0, (rout * s + n - 1) / n + 1);
    } else {
      DivUnique(n - 1, n, 0);
    }
  }

  /** A swap goes through exactly when the pool holds reserve plus input, trades the token, the fees leave
      something, both reserves are there, and nothing overflows. */
  lemma SwapSucceedsIff(v: Vlp, t: Token, a: Uint128, held: Uint128, lp: int, treasury: int)
    requires Books(v) && FlooredFee(lp, a, v.fee.lpBps) && FlooredFee(treasury, a, v.fee.euclidBps)
    ensures var rin, rout := Get(v.reserves, t), Get(v.reserves, v.pair.Other(t));
            LocalSwap(v, t, a, held).Some? <==>
              && v.pair.Has(t) && held == rin + a && lp + treasury < a && rout > 0 && rin * rout <= U128_MAX
              && Get(v.lpFees, t) + lp <= U128_MAX && Get(v.euclidFees, t) + treasury <= U128_MAX
  {
    hide CalculateSwap, SwapQuote, StrLe;
    var rin, rout := Get(v.reserves, t), Get(v.reserves, v.pair.Other(t));
    QuoteIff(v, t, a, lp, treasury);
    if lp + treasury <= a {
      SwapPayout(a - lp - treasury, rin, rout);
      if rin + (a - lp - treasury) > 0 { PositivePayout(rout, a - lp - treasury, rin + (a - lp - treasury)); }
    }
    if SwapQuote(v, t, a).Some? { SwapParts(v, t, a); }
    LocalSwapIff(v, t, a, held);
  }

  lemma LocalSwapIff(v: Vlp, t: Token, a: Uint128, held: Uint128)
    requires Books(v)
    ensures LocalSwap(v, t, a, held).Some? <==>
              && SwapQuote(v, t, a).Some?
              && var q := SwapQuote(v, t, a).value;
              && held == Get(v.reserves, t) + a && q.amountOut > 0
              && Get(v.lpFees, t) + q.lpFee <= U128_MAX && Get(v.euclidFees, t) + q.euclidFee <= U128_MAX
  {
    hide CalculateSwap, SwapQuote, StrLe;
    if SwapQuote(v, t, a).Some? {
      var q := SwapQuote(v, t, a).value;
      SwapParts(v, t, a);
      SwapPayout(a - q.lpFee - q.euclidFee, Get(v.reserves, t), Get(v.reserves, q.assetOut));
    }
  }

  // ----- Adds -----

  /** The LP an add mints. On a pool with shares it is the largest amount that lets neither reserve per share
      fall; on an empty one its sum with the locked 1000 is the integer square root of the product. */
  lemma AddMints(v: Vlp, chain: ChainUid, a1: Uint128, a2: Uint128, slippage: nat, k: int)
    requires AddLiquidity(v, chain, a1, a2, slippage).Some?
    ensures var lp := AddLiquidity(v, chain, a1, a2, slippage).value.1;
            var r1, r2, supply := Get(v.reserves, v.pair.token1), Get(v.reserves, v.pair.token2), v.totalLp;
            && lp > 0
            && (supply > 0 ==>
                  (k <= lp <==> (r1 + a1) * supply >= r1 * (supply + k) && (r2 + a2) * supply >= r2 * (supply + k)))
            && (supply == 0 ==> (lp + 1000) * (lp + 1000) <= a1 * a2 < (lp + 1001) * (lp + 1001))
  {
    hide CalculateLpAllocation, WithinSlippage, Ratio, StrLe;
    var r1, r2 := Get(v.reserves, v.pair.token1), Get(v.reserves, v.pair.token2);
    AddIsQuoted(v, chain, a1, a2, slippage);
    if v.totalLp > 0 {
      AllocationIsLargest(a1, a2, r1, r2, v.totalLp, k);
    } else {
      FirstAllocation(a1, a2, r1, r2);
    }
  }

  lemma AddIsQuoted(v: Vlp, chain: ChainUid, a1: Uint128, a2: Uint128, slippage: nat)
    requires AddLiquidity(v, chain, a1, a2, slippage).Some?
    ensures var lp := AddLiquidity(v, chain, a1, a2, slippage).value.1;
            var r1, r2 := Get(v.reserves, v.pair.token1), Get(v.reserves, v.pair.token2);
            lp > 0 && CalculateLpAllocation(a1, a2, r1, r2, v.totalLp) == Some(lp)
  {
    hide CalculateLpAllocation, WithinSlippage, Ratio, StrLe;
  }

  /** An add books its two amounts, its chain's LP and the supply, and nothing else. */
  lemma AddBooks(v: Vlp, chain: ChainUid, a1: Uint128, a2: Uint128, slippage: nat)
    requires Books(v) && AddLiquidity(v, chain, a1, a2, slippage).Some?
    ensures var (w, lp) := AddLiquidity(v, chain, a1, a2, slippage).value;
            && w == v.(reserves := w.reserves, chainLp := w.chainLp, totalLp := v.totalLp + lp)
            && chain in v.chainLp && w.chainLp == v.chainLp[chain := v.chainLp[chain] + lp]
            && (forall t :: Get(w.reserves, t) == Get(v.reserves, t)
                            + (if t == v.pair.token1 then a1 else if t == v.pair.token2 then a2 else 0))
  {
    hide AddQuote, StrLe;
  }

  /** The ratios of two pairs of amounts, as 18-digit decimals rounded down, are within a percentage of one. */
  predicate RatiosNear(a1: Uint128, a2: Uint128, r1: Uint128, r2: Uint128, percent: nat)
    requires a2 > 0 && r2 > 0
  {
    -(percent * 10_000_000_000_000_000) <= a1 * 1_000_000_000_000_000_000 / a2 - r1 * 1_000_000_000_000_000_000 / r2
      <= percent * 10_000_000_000_000_000
  }

  lemma SlippageIs(a1: Uint128, a2: Uint128, r1: Uint128, r2: Uint128, percent: nat)
    requires a2 > 0
    ensures var ratio := Ratio(a1, a2).value;
            WithinSlippage(ratio, Ratio(r1, r2).GetOr(ratio), percent)
            <==> (r2 > 0 ==> RatiosNear(a1, a2, r1, r2, percent))
  {
  }

  lemma AllocationIff(a1: Uint128, a2: Uint128, r1: Uint128, r2: Uint128, supply: Uint128)
    requires supply > 0
    ensures var m := CalculateLpAllocation(a1, a2, r1, r2, supply);
            && (m.Some? <==> && r1 > 0 && r2 > 0
                             && a1 * supply < r1 * (U128_MAX + 1) && a2 * supply < r2 * (U128_MAX + 1))
            && (m.Some? ==> (m.value > 0 <==> r1 <= a1 * supply && r2 <= a2 * supply))
  {
    if r1 > 0 && r2 > 0 {
      FloorRatio(a1, supply, r1, U128_MAX + 1);
      FloorRatio(a2, supply, r2, U128_MAX + 1);
      FloorRatio(a1, supply, r1, 1);
      FloorRatio(a2, supply, r2, 1);
      MulLe(0, a1, supply);
      MulLe(0, a2, supply);
      FloorRatio(a1, supply, r1, 0);
      FloorRatio(a2, supply, r2, 0);
    }
  }

  /** An add is accepted exactly when the chain is registered, the ratio of the amounts is within the tolerance of the
      pool's, the deposit is worth at least one share, and nothing overflows. */
  lemma AddSucceedsIff(v: Vlp, chain: ChainUid, a1: Uint128, a2: Uint128, slippage: nat)
    requires Books(v)
    ensures var r1, r2, supply := Get(v.reserves, v.pair.token1), Get(v.reserves, v.pair.token2), v.totalLp;
            AddLiquidity(v, chain, a1, a2, slippage).Some? <==>
              && chain in v.chainLp && a2 > 0 && slippage <= 100 && (r2 > 0 ==> RatiosNear(a1, a2, r1, r2, slippage))
              && Worth(a1, a2, r1, r2, supply)
              && r1 + a1 <= U128_MAX && r2 + a2 <= U128_MAX
              && supply + CalculateLpAllocation(a1, a2, r1, r2, supply).GetOr(0) <= U128_MAX
  {
    hide CalculateLpAllocation, WithinSlippage, RatiosNear, StrLe;
    var r1, r2 := Get(v.reserves, v.pair.token1), Get(v.reserves, v.pair.token2);
    if a2 > 0 { SlippageIs(a1, a2, r1, r2, slippage); }
    WorthIff(a1, a2, r1, r2, v.totalLp);
    if chain in v.chainLp { ChainWithinSupply(v, chain); }
  }

  /** The amounts are worth at least one share, and no more than can be counted. */
  predicate Worth(a1: Uint128, a2: Uint128, r1: Uint128, r2: Uint128, supply: Uint128) {
    if supply == 0 then 1001 * 1001 <= a1 * a2 <= U128_MAX
    else r1 > 0 && r2 > 0 && r1 <= a1 * supply < r1 * (U128_MAX + 1) && r2 <= a2 * supply < r2 * (U128_MAX + 1)
  }

  lemma WorthIff(a1: Uint128, a2: Uint128, r1: Uint128, r2: Uint128, supply: Uint128)
    ensures var m := CalculateLpAllocation(a1, a2, r1, r2, supply);
            m.Some? && m.value > 0 <==> Worth(a1, a2, r1, r2, supply)
  {
    hide CalculateLpAllocation;
    if supply > 0 {
      AllocationIff(a1, a2, r1, r2, supply);
    } else {
      FirstAllocation(a1, a2, r1, r2);
      if CalculateLpAllocation(a1, a2, r1, r2, 0).Some? {
        var root := CalculateLpAllocation(a1, a2, r1, r2, 0).value + 1000;
        SquareOrder(root, 1001);
        SquareOrder(1001, root + 1);
        SquareOrder(1000, root);
      }
    }
  }

  lemma ChainWithinSupply(v: Vlp, chain: ChainUid)
    requires Books(v) && chain in v.chainLp
    ensures v.chainLp[chain] <= v.totalLp
  {
    Sums.SumAtLeast(v.chainLp, LpWeight(), chain);
  }

  // ----- Removes -----

  /** `paid` is the share lp/supply of a reserve: less than one unit above it, and below it by at most the reserve
      over 10^18; the whole supply gets the whole reserve. */
  predicate FairPayout(paid: Uint128, reserve: Uint128, lp: Uint128, supply: Uint128) {
    && paid <= reserve && supply * paid < reserve * lp + supply
    && 1_000_000_000_000_000_000 * (supply * paid) >= 1_000_000_000_000_000_000 * (reserve * lp) - reserve * supply
    && (lp == supply ==> paid == reserve)
  }

  /** A removal pays the fair share of both reserves, and books the payouts, the chain's LP and the supply. */
  lemma RemovePays(v: Vlp, chain: ChainUid, lp: Uint128)
    requires Books(v) && RemoveLiquidity(v, chain, lp).Some?
    ensures var o := RemoveLiquidity(v, chain, lp).value;
            && FairPayout(o.paid1, Get(v.reserves, v.pair.token1), lp, v.totalLp)
            && FairPayout(o.paid2, Get(v.reserves, v.pair.token2), lp, v.totalLp)
            && chain in v.chainLp && lp <= v.chainLp[chain] && lp <= v.totalLp
            && o.vlp == v.(reserves := o.vlp.reserves, chainLp := v.chainLp[chain := v.chainLp[chain] - lp],
                           totalLp := v.totalLp - lp)
            && (forall t :: Get(o.vlp.reserves, t) == Get(v.reserves, t)
                            - (if t == v.pair.token1 then o.paid1 else if t == v.pair.token2 then o.paid2 else 0))
  {
    hide RemovePayout, StrLe;
    RemoveSucceedsIff(v, chain, lp);
    ChainWithinSupply(v, chain);
    RemovePayoutLaw(Get(v.reserves, v.pair.token1), lp, v.totalLp);
    RemovePayoutLaw(Get(v.reserves, v.pair.token2), lp, v.totalLp);
  }

  // ----- Registration, fees, views -----

  /** A chain is registered once, under the pool's own pair in either order, and starts without LP. */
  lemma RegisterLaw(v: Vlp, chain: ChainUid, pair: Pair)
    ensures RegisterPool(v, chain, pair).Some? <==> chain !in v.chainLp && pair.Tuple() == v.pair.Tuple()
    ensures RegisterPool(v, chain, pair).Some? ==>
              RegisterPool(v, chain, pair).value == v.(chainLp := v.chainLp[chain := 0])
  {
  }

  /** Each argument of a fee update changes its own setting; what is not given stays, and neither rate may exceed ten
      per cent. */
  lemma UpdateFeeLaw(v: Vlp, lp: Option<Bps>, treasury: Option<Bps>, recipient: Option<User>)
    ensures UpdateFee(v, lp, treasury, recipient).Some? <==>
              && (if lp.Some? then lp.value <= 1000 else v.fee.lpBps <= 1000)
              && (if treasury.Some? then treasury.value <= 1000 else v.fee.euclidBps <= 1000)
    ensures UpdateFee(v, lp, treasury, recipient).Some? ==>
              var w := UpdateFee(v, lp, treasury, recipient).value;
              && w == v.(fee := w.fee)
              && (if lp.Some? then w.fee.lpBps == lp.value else w.fee.lpBps == v.fee.lpBps)
              && (if treasury.Some? then w.fee.euclidBps == treasury.value else w.fee.euclidBps == v.fee.euclidBps)
              && (if recipient.Some? then w.fee.recipient == recipient.value else w.fee.recipient == v.fee.recipient)
  {
  }

  /** A chain's view of a reserve is its exact share rounded down; an empty pool shows nothing. */
  lemma ViewIsFloor(reserve: Uint128, lp: Uint128, supply: Uint128)
    requires lp <= supply
    ensures var view := ReserveView(reserve, lp, supply);
            if supply == 0 then view == 0 else supply * view <= reserve * lp < supply * (view + 1)
  {
    MulLe(0, lp, reserve);
    if supply > 0 {
      MulLe(lp, supply, reserve);
      DivBounds(reserve * lp, supply);
      MulCancel(supply, reserve * lp / supply, reserve);
      MulCancelStrict(supply, -1, reserve * lp / supply);
    }
  }
}
