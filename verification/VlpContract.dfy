/** The stored state of a pool contract and the messages that update it step by step
    (contracts/hub/vlp/src/execute.rs), proved against VlpModel. */
module VlpContract {
  import opened Arith
  import opened Types
  import opened PoolMath
  import opened VlpModel

  class Contract {
    const pair: Pair
    var fee: Fee
    var totalLp: Uint128
    var reserves: map<Token, Uint128>
    var chainLp: map<ChainUid, Uint128>
    var lpFees: map<Token, Uint128>
    var euclidFees: map<Token, Uint128>

    function State(): Vlp reads this { Vlp(pair, fee, totalLp, reserves, chainLp, lpFees, euclidFees) }

    constructor (pair: Pair, fee: Fee)
      requires pair.Sorted()
      ensures Instantiate(pair, fee) == Some(State())
    {
      this.pair, this.fee, totalLp := pair, fee, 0;
      reserves, chainLp, lpFees, euclidFees := map[pair.token1 := 0, pair.token2 := 0], map[], map[], map[];
    }

    method Register(chain: ChainUid, p: Pair) returns (r: Option<()>)
      modifies this`chainLp
      ensures r.Some? <==> RegisterPool(old(State()), chain, p).Some?
      ensures r.Some? ==> State() == RegisterPool(old(State()), chain, p).value
    {
      var _ :- Ensure(chain !in chainLp);
      var _ :- Ensure(pair.Tuple() == p.Tuple());
      chainLp := chainLp[chain := 0];
      return Some(());
    }

    method Add(chain: ChainUid, amount1: Uint128, amount2: Uint128, slippage: nat) returns (r: Option<Uint128>)
      requires pair.Sorted()
      modifies this
      ensures r.Some? <==> AddLiquidity(old(State()), chain, amount1, amount2, slippage).Some?
      ensures r.Some? ==>
                var (w, lp) := AddLiquidity(old(State()), chain, amount1, amount2, slippage).value;
                State() == w && r.value == lp
    {
      hide CalculateLpAllocation, WithinSlippage, Ratio, StrLe;
      var _ :- Ensure(chain in chainLp);
      var shares := chainLp[chain];
      var ratio :- Ratio(amount1, amount2);
      var reserve1, reserve2 := Get(reserves, pair.token1), Get(reserves, pair.token2);
      var poolRatio := Ratio(reserve1, reserve2).GetOr(ratio);
      var _ :- Ensure(slippage <= 100);
      var _ :- Ensure(WithinSlippage(ratio, poolRatio, slippage));
      var lp :- CalculateLpAllocation(amount1, amount2, reserve1, reserve2, totalLp);
      var _ :- Ensure(lp != 0);
      shares :- CheckedAdd(shares, lp);
      chainLp := chainLp[chain := shares];
      reserve1 :- CheckedAdd(reserve1, amount1);
      reserve2 :- CheckedAdd(reserve2, amount2);
      totalLp :- CheckedAdd(totalLp, lp);
      reserves := reserves[pair.token1 := reserve1];
      reserves := reserves[pair.token2 := reserve2];
      return Some(lp);
    }

    method Remove(chain: ChainUid, lp: Uint128) returns (r: Option<(Uint128, Uint128)>)
      requires pair.Sorted()
      modifies this
      ensures r.Some? <==> RemoveLiquidity(old(State()), chain, lp).Some?
      ensures r.Some? ==>
                var o := RemoveLiquidity(old(State()), chain, lp).value;
                State() == o.vlp && r.value == (o.paid1, o.paid2)
    {
      hide RemovePayout, StrLe;
      var reserve1, reserve2 := Get(reserves, pair.token1), Get(reserves, pair.token2);
      var _ :- Ensure(chain in chainLp);
      var shares := chainLp[chain];
      shares :- CheckedSub(shares, lp);
      chainLp := chainLp[chain := shares];
      var paid1 :- RemovePayout(reserve1, lp, totalLp);
      var paid2 :- RemovePayout(reserve2, lp, totalLp);
      reserve1 :- CheckedSub(reserve1, paid1);
      reserve2 :- CheckedSub(reserve2, paid2);
      reserves := reserves[pair.token1 := reserve1];
      reserves := reserves[pair.token2 := reserve2];
      totalLp :- CheckedSub(totalLp, lp);
      return Some((paid1, paid2));
    }

    /** The pool's own part of a swap; `held` is what the ledger answers for the pool's balance of the input. */
    method Swap(assetIn: Token, amountIn: Uint128, held: Uint128) returns (r: Option<(Token, Uint128, Uint128)>)
      requires pair.Sorted()
      modifies this
      ensures r.Some? <==> LocalSwap(old(State()), assetIn, amountIn, held).Some?
      ensures r.Some? ==>
                var o := LocalSwap(old(State()), assetIn, amountIn, held).value;
                State() == o.vlp && r.value == (o.assetOut, o.amountOut, o.euclidFee)
    {
      hide SwapQuote, LocalSwap, Credit, StrLe;
      var was := State();
      if LocalSwap(was, assetIn, amountIn, held).Some? { SwapIsPriced(was, assetIn, amountIn, held); }
      var q :- SwapQuote(was, assetIn, amountIn);
      QuoteParts(was, assetIn, amountIn);
      SwapIs(was, assetIn, amountIn, held);
      lpFees :- Credit(lpFees, assetIn, q.lpFee);
      var swapAmount, assetOut := amountIn - q.lpFee - q.euclidFee, q.assetOut;
      var reserveIn, reserveOut := Get(reserves, assetIn), Get(reserves, assetOut);
      var expected :- CheckedAdd(reserveIn, amountIn);
      var _ :- Ensure(held == expected);
      var _ :- Ensure(q.amountOut != 0);
      // Neither sum can overflow: the reserve and the whole input already fitted above.
      reserveIn := reserveIn + swapAmount;
      reserveIn := reserveIn + q.lpFee;
      reserveOut :- CheckedSub(reserveOut, q.amountOut);
      reserves := reserves[assetIn := reserveIn];
      reserves := reserves[assetOut := reserveOut];
      if q.euclidFee != 0 {
        euclidFees :- Credit(euclidFees, assetIn, q.euclidFee);
      }
      return Some((assetOut, q.amountOut, q.euclidFee));
    }

    method ChangeFee(lp: Option<Bps>, euclid: Option<Bps>, recipient: Option<User>) returns (r: Option<()>)
      modifies this`fee
      ensures r.Some? <==> UpdateFee(old(State()), lp, euclid, recipient).Some?
      ensures r.Some? ==> State() == UpdateFee(old(State()), lp, euclid, recipient).value
    {
      fee := fee.(lpBps := lp.GetOr(fee.lpBps));
      var _ :- Ensure(fee.lpBps <= MAX_FEE_BPS);
      fee := fee.(euclidBps := euclid.GetOr(fee.euclidBps));
      var _ :- Ensure(fee.euclidBps <= MAX_FEE_BPS);
      fee := fee.(recipient := recipient.GetOr(fee.recipient));
      return Some(());
    }

    /** One message with the chain's roll-back on failure: the contract is then exactly the step machine whose
        runs VlpModel reasons about, and keeps its books in order. */
    method Execute(op: Op)
      requires Books(State())
      modifies this
      ensures State() == Step(old(State()), op) && Books(State())
      ensures old(FeesWithin(fee)) ==> FeesWithin(fee)
    {
      hide AddLiquidity, RemoveLiquidity, LocalSwap, RegisterPool, UpdateFee, Books;
      assert pair.Sorted() by { BooksAreSorted(State()); }
      StepKeepsBooks(State(), op);
      var was := State();
      var ok: bool;
      match op {
      case Register(c, p) => var r := Register(c, p); ok := r.Some?;
      case Add(c, a1, a2, s) => var r := Add(c, a1, a2, s); ok := r.Some?;
      case Remove(c, lp) => var r := Remove(c, lp); ok := r.Some?;
      case Swap(t, a, held) => var r := Swap(t, a, held); ok := r.Some?;
      case SetFee(l, e, u) => var r := ChangeFee(l, e, u); ok := r.Some?;
      }
      if !ok {
        fee, totalLp, reserves, chainLp := was.fee, was.totalLp, was.reserves, was.chainLp;
        lpFees, euclidFees := was.lpFees, was.euclidFees;
      }
    }
  }

  lemma SwapIsPriced(v: Vlp, assetIn: Token, amountIn: Uint128, held: Uint128)
    requires LocalSwap(v, assetIn, amountIn, held).Some?
    ensures SwapQuote(v, assetIn, amountIn).Some?
  {
    hide SwapQuote;
  }

  /** When a priced swap goes through, and the pool it leaves. */
  lemma SwapIs(v: Vlp, assetIn: Token, amountIn: Uint128, held: Uint128)
    requires SwapQuote(v, assetIn, amountIn).Some? && v.pair.token1 != v.pair.token2
    ensures var q := SwapQuote(v, assetIn, amountIn).value;
            var rin, rout := Get(v.reserves, assetIn), Get(v.reserves, q.assetOut);
            var lpFees, fees := Credit(v.lpFees, assetIn, q.lpFee), Credit(v.euclidFees, assetIn, q.euclidFee);
            var o := LocalSwap(v, assetIn, amountIn, held);
            && (o.Some? <==> && lpFees.Some? && held == rin + amountIn && 0 < q.amountOut <= rout
                             && (q.euclidFee != 0 ==> fees.Some?))
            && (o.Some? ==>
                  && o.value.assetOut == q.assetOut && o.value.amountOut == q.amountOut
                  && o.value.euclidFee == q.euclidFee
                  && o.value.vlp
                     == v.(lpFees := lpFees.value, euclidFees := if q.euclidFee == 0 then v.euclidFees else fees.value,
                           reserves := v.reserves[assetIn := rin + (amountIn - q.euclidFee)]
                                                 [q.assetOut := rout - q.amountOut]))
  {
    hide SwapQuote;
    QuoteParts(v, assetIn, amountIn);
  }

  lemma QuoteParts(v: Vlp, assetIn: Token, amountIn: Uint128)
    requires SwapQuote(v, assetIn, amountIn).Some? && v.pair.token1 != v.pair.token2
    ensures var q := SwapQuote(v, assetIn, amountIn).value;
            q.lpFee + q.euclidFee <= amountIn && q.assetOut != assetIn
  {
    hide MulFloor, CalculateSwap;
  }

  lemma BooksAreSorted(v: Vlp)
    requires Books(v)
    ensures v.pair.Sorted()
  {
  }
}
