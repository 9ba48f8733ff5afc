/** A virtual liquidity pool contract: contracts/hub/vlp/src/execute.rs over the formulas of PoolMath. */
module VlpModel {
  import opened Arith
  import opened Sums
  import opened Types
  import opened PoolMath

  const MAX_FEE_BPS: int := 1000

  type Bps = x: int | 0 <= x < 0x1_0000_0000_0000_0000

  datatype Fee = Fee(lpBps: Bps, euclidBps: Bps, recipient: User)

  datatype Vlp = Vlp(
    pair: Pair,
    fee: Fee,
    totalLp: Uint128,
    reserves: map<Token, Uint128>,
    chainLp: map<ChainUid, Uint128>,
    lpFees: map<Token, Uint128>,
    euclidFees: map<Token, Uint128>)

  datatype Removed = Removed(vlp: Vlp, paid1: Uint128, paid2: Uint128)

  datatype Swapped = Swapped(vlp: Vlp, assetOut: Token, amountOut: Uint128, euclidFee: Uint128)

  function Instantiate(pair: Pair, fee: Fee): Option<Vlp> {
    var _ :- Ensure(pair.Sorted());
    Some(Vlp(pair, fee, 0, map[pair.token1 := 0, pair.token2 := 0], map[], map[], map[]))
  }

  function RegisterPool(v: Vlp, chain: ChainUid, pair: Pair): Option<Vlp> {
    var _ :- Ensure(chain !in v.chainLp);
    var _ :- Ensure(v.pair.Tuple() == pair.Tuple());
    Some(v.(chainLp := v.chainLp[chain := 0]))
  }

  /** A 256-bit decimal ratio, as its atomic amount. */
  function Ratio(a: Uint128, b: Uint128): Option<int> {
    if b == 0 then None else Some(a * DECIMAL_ONE / b)
  }

  predicate WithinSlippage(ratio: int, poolRatio: int, tolerance: nat) {
    var diff := if ratio <= poolRatio then poolRatio - ratio else ratio - poolRatio;
    diff <= tolerance * DECIMAL_ONE / 100
  }

  /** The shares an add mints, or a refusal. */
  function AddQuote(v: Vlp, amount1: Uint128, amount2: Uint128, slippage: nat): Option<Uint128> {
    var ratio :- Ratio(amount1, amount2);
    var r1, r2 := Get(v.reserves, v.pair.token1), Get(v.reserves, v.pair.token2);
    var _ :- Ensure(slippage <= 100);
    var _ :- Ensure(WithinSlippage(ratio, Ratio(r1, r2).GetOr(ratio), slippage));
    var lp :- CalculateLpAllocation(amount1, amount2, r1, r2, v.totalLp);
    var _ :- Ensure(lp != 0);
    Some(lp)
  }

  function AddLiquidity(v: Vlp, chain: ChainUid, amount1: Uint128, amount2: Uint128, slippage: nat)
    : Option<(Vlp, Uint128)>
  {
    var _ :- Ensure(chain in v.chainLp);
    var lp :- AddQuote(v, amount1, amount2, slippage);
    var w :- BookAdd(v, chain, amount1, amount2, lp);
    Some((w, lp))
  }

  /** The bookkeeping of an add that mints `lp`. */
  function BookAdd(v: Vlp, chain: ChainUid, amount1: Uint128, amount2: Uint128, lp: Uint128): Option<Vlp> {
    var chainLp :- Credit(v.chainLp, chain, lp);
    var reserves1 :- Credit(v.reserves, v.pair.token1, amount1);
    var reserves2 :- Credit(reserves1, v.pair.token2, amount2);
    var total :- CheckedAdd(v.totalLp, lp);
    Some(v.(chainLp := chainLp, reserves := reserves2, totalLp := total))
  }

  function RemoveLiquidity(v: Vlp, chain: ChainUid, lp: Uint128): Option<Removed> {
    var _ :- Ensure(chain in v.chainLp);
    var chainLp :- Debit(v.chainLp, chain, lp);
    var paid1 :- RemovePayout(Get(v.reserves, v.pair.token1), lp, v.totalLp);
    var paid2 :- RemovePayout(Get(v.reserves, v.pair.token2), lp, v.totalLp);
    var w :- BookRemove(v.(chainLp := chainLp), paid1, paid2, lp);
    Some(Removed(w, paid1, paid2))
  }

  /** The bookkeeping of a remove after the chain's own LP has been reduced. */
  function BookRemove(v: Vlp, paid1: Uint128, paid2: Uint128, lp: Uint128): Option<Vlp> {
    var reserves1 :- Debit(v.reserves, v.pair.token1, paid1);
    var reserves2 :- Debit(reserves1, v.pair.token2, paid2);
    var total :- CheckedSub(v.totalLp, lp);
    Some(v.(reserves := reserves2, totalLp := total))
  }

  datatype Quote = Quote(assetOut: Token, amountOut: Uint128, lpFee: Uint128, euclidFee: Uint128)

  /** What one pool pays for an input, as both the swap and its simulation compute it. */
  function SwapQuote(v: Vlp, assetIn: Token, amountIn: Uint128): Option<Quote> {
    var _ :- Ensure(amountIn != 0);
    var _ :- Ensure(v.pair.Has(assetIn));
    var lpFee :- MulFloor(amountIn, v.fee.lpBps * BPS);
    var euclidFee :- MulFloor(amountIn, v.fee.euclidBps * BPS);
    var totalFee :- CheckedAdd(lpFee, euclidFee);
    var swapAmount :- CheckedSub(amountIn, totalFee);
    var assetOut := v.pair.Other(assetIn);
    var out :- CalculateSwap(swapAmount, Get(v.reserves, assetIn), Get(v.reserves, assetOut));
    Some(Quote(assetOut, out, lpFee, euclidFee))
  }

  /** The part of a swap that runs inside one pool; `held` is the pool's own virtual balance of the input. */
  function LocalSwap(v: Vlp, assetIn: Token, amountIn: Uint128, held: Uint128): Option<Swapped> {
    var q :- SwapQuote(v, assetIn, amountIn);
    var lpFees :- Credit(v.lpFees, assetIn, q.lpFee);
    var expected :- CheckedAdd(Get(v.reserves, assetIn), amountIn);
    var _ :- Ensure(held == expected);
    var _ :- Ensure(q.amountOut != 0);
    var reserves1 :- Credit(v.reserves, assetIn, amountIn - q.euclidFee);
    var reserves2 :- Debit(reserves1, q.assetOut, q.amountOut);
    var euclidFees :- if q.euclidFee == 0 then Some(v.euclidFees) else Credit(v.euclidFees, assetIn, q.euclidFee);
    Some(Swapped(v.(reserves := reserves2, lpFees := lpFees, euclidFees := euclidFees),
                 q.assetOut, q.amountOut, q.euclidFee))
  }

  function UpdateFee(v: Vlp, lp: Option<Bps>, euclid: Option<Bps>, recipient: Option<User>): Option<Vlp> {
    var fee := Fee(lp.GetOr(v.fee.lpBps), euclid.GetOr(v.fee.euclidBps), recipient.GetOr(v.fee.recipient));
    var _ :- Ensure(fee.lpBps <= MAX_FEE_BPS && fee.euclidBps <= MAX_FEE_BPS);
    Some(v.(fee := fee))
  }

  // ----- The pool invariant -----

  ghost function LpWeight(): (ChainUid, Uint128) -> int { (c, x) => x }

  /** Per-chain LP sums to the supply and an unowned pool is empty. */
  ghost predicate Books(v: Vlp) {
    && v.pair.Sorted()
    && v.pair.token1 in v.reserves && v.pair.token2 in v.reserves
    && Sum(v.chainLp, LpWeight()) == v.totalLp
    && (v.totalLp == 0 ==> Get(v.reserves, v.pair.token1) == 0 && Get(v.reserves, v.pair.token2) == 0)
  }

  predicate FeesWithin(fee: Fee) { fee.lpBps <= MAX_FEE_BPS && fee.euclidBps <= MAX_FEE_BPS }

  /** The books are in order and the fees are within their limit. */
  ghost predicate Valid(v: Vlp) { Books(v) && FeesWithin(v.fee) }

  lemma AddKeepsBooks(v: Vlp, chain: ChainUid, a1: Uint128, a2: Uint128, slippage: nat)
    requires Books(v) && AddLiquidity(v, chain, a1, a2, slippage).Some?
    ensures var w := AddLiquidity(v, chain, a1, a2, slippage).value.0; Books(w) && w.fee == v.fee
  {
    BookAddKeepsBooks(v, chain, a1, a2, AddQuote(v, a1, a2, slippage).value);
  }

  lemma BookAddKeepsBooks(v: Vlp, chain: ChainUid, a1: Uint128, a2: Uint128, lp: Uint128)
    requires Books(v) && chain in v.chainLp && lp > 0 && BookAdd(v, chain, a1, a2, lp).Some?
    ensures Books(BookAdd(v, chain, a1, a2, lp).value)
  {
    var x: Uint128 := v.chainLp[chain] + lp;
    SumSet(v.chainLp, LpWeight(), chain, x);
  }

  /** Once the chain's own subtraction passes, no later step of a remove can fail: the payouts exist
      and neither a reserve nor the supply underflows. */
  lemma RemoveSucceedsIff(v: Vlp, chain: ChainUid, lp: Uint128)
    requires Books(v)
    ensures RemoveLiquidity(v, chain, lp).Some? <==>
              chain in v.chainLp && lp <= v.chainLp[chain] && v.totalLp > 0
    ensures RemoveLiquidity(v, chain, lp).Some? ==>
              var w := RemoveLiquidity(v, chain, lp).value.vlp; Books(w) && w.fee == v.fee
  {
    if chain in v.chainLp && lp <= v.chainLp[chain] && v.totalLp > 0 {
      SumAtLeast(v.chainLp, LpWeight(), chain);
      var r1, r2 := Get(v.reserves, v.pair.token1), Get(v.reserves, v.pair.token2);
      RemovePayoutLaw(r1, lp, v.totalLp);
      RemovePayoutLaw(r2, lp, v.totalLp);
      BookRemoveWorks(v, chain, RemovePayout(r1, lp, v.totalLp).value, RemovePayout(r2, lp, v.totalLp).value, lp);
    }
  }

  lemma BookRemoveWorks(v: Vlp, chain: ChainUid, paid1: Uint128, paid2: Uint128, lp: Uint128)
    requires Books(v) && chain in v.chainLp && lp <= v.chainLp[chain] && lp <= v.totalLp
    requires var r1, r2 := Get(v.reserves, v.pair.token1), Get(v.reserves, v.pair.token2);
             paid1 <= r1 && paid2 <= r2 && (lp == v.totalLp ==> paid1 == r1 && paid2 == r2)
    ensures var w := v.(chainLp := v.chainLp[chain := v.chainLp[chain] - lp]);
            BookRemove(w, paid1, paid2, lp).Some? && Books(BookRemove(w, paid1, paid2, lp).value)
  {
    var x: Uint128 := v.chainLp[chain] - lp;
    SumSet(v.chainLp, LpWeight(), chain, x);
  }

  /** A swap keeps the invariant, moves exactly the input less the treasury fee into one reserve and
      exactly the payout out of the other, and touches neither LP nor fees settings. */
  lemma SwapEffect(v: Vlp, assetIn: Token, amountIn: Uint128, held: Uint128)
    requires Books(v) && LocalSwap(v, assetIn, amountIn, held).Some?
    ensures var o := LocalSwap(v, assetIn, amountIn, held).value;
            && Books(o.vlp)
            && v.pair.Has(assetIn) && o.assetOut == v.pair.Other(assetIn) != assetIn
            && o.vlp.pair == v.pair && o.vlp.fee == v.fee
            && o.vlp.chainLp == v.chainLp && o.vlp.totalLp == v.totalLp
            && held == v.reserves[assetIn] + amountIn
            && o.euclidFee <= amountIn
            && o.vlp.reserves[assetIn] == v.reserves[assetIn] + amountIn - o.euclidFee
            && 0 < o.amountOut <= v.reserves[o.assetOut]
            && o.vlp.reserves[o.assetOut] == v.reserves[o.assetOut] - o.amountOut
  {
    var q := SwapQuote(v, assetIn, amountIn).value;
    var swapAmount := amountIn - q.lpFee - q.euclidFee;
    SwapPayout(swapAmount, Get(v.reserves, assetIn), Get(v.reserves, q.assetOut));
  }

  /** The reserve product after a pool's swap falls if and only if the LP fee's share of the new output reserve
      is less than the remainder the floor dropped, and then by less than the input side. */
  lemma SwapProduct(v: Vlp, assetIn: Token, amountIn: Uint128, held: Uint128)
    requires Books(v) && LocalSwap(v, assetIn, amountIn, held).Some?
    ensures SwapQuote(v, assetIn, amountIn).Some?
    ensures var q := SwapQuote(v, assetIn, amountIn).value;
            var w := LocalSwap(v, assetIn, amountIn, held).value.vlp;
            var rin, rout := Get(v.reserves, assetIn), Get(v.reserves, q.assetOut);
            var in', out', n := Get(w.reserves, assetIn), Get(w.reserves, q.assetOut),
                rin + amountIn - q.lpFee - q.euclidFee;
            && n > 0
            && (in' * out' >= rin * rout <==> q.lpFee * out' >= rin * rout % n)
            && in' * out' > rin * rout - n
  {
    hide MulFloor, StrLe;
    SwapEffect(v, assetIn, amountIn, held);
    var q := SwapQuote(v, assetIn, amountIn).value;
    SwapBooks(v, assetIn, amountIn, held);
    SwapProductLaw(amountIn - q.lpFee - q.euclidFee, q.lpFee, Get(v.reserves, assetIn), Get(v.reserves, q.assetOut));
  }

  lemma SwapBooks(v: Vlp, assetIn: Token, amountIn: Uint128, held: Uint128)
    requires Books(v) && LocalSwap(v, assetIn, amountIn, held).Some?
    ensures var q := SwapQuote(v, assetIn, amountIn).value;
            var o := LocalSwap(v, assetIn, amountIn, held).value;
            && o.assetOut == q.assetOut && o.amountOut == q.amountOut && o.euclidFee == q.euclidFee
            && CalculateSwap(amountIn - q.lpFee - q.euclidFee, Get(v.reserves, assetIn), Get(v.reserves, q.assetOut))
                == Some(q.amountOut)
  {
    hide MulFloor, CalculateSwap, StrLe;
  }

  lemma SwapKeepsShares(v: Vlp, assetIn: Token, amountIn: Uint128, held: Uint128)
    requires LocalSwap(v, assetIn, amountIn, held).Some?
    ensures var w := LocalSwap(v, assetIn, amountIn, held).value.vlp;
            w.pair == v.pair && w.fee == v.fee && w.chainLp == v.chainLp && w.totalLp == v.totalLp
  {
  }

  /** Within the fee limits the two floored fees leave a positive amount, so fees alone never refuse a swap. */
  lemma FeesLeaveSomething(v: Vlp, amountIn: Uint128)
    requires FeesWithin(v.fee) && amountIn > 0
    ensures var lp, euclid := MulFloor(amountIn, v.fee.lpBps * BPS), MulFloor(amountIn, v.fee.euclidBps * BPS);
            lp.Some? && euclid.Some? && lp.value + euclid.value < amountIn
  {
    FeeBound(amountIn, v.fee.lpBps);
    FeeBound(amountIn, v.fee.euclidBps);
  }

  lemma FeeBound(a: int, bps: int)
    requires 0 <= a && 0 <= bps <= MAX_FEE_BPS
    ensures 0 <= 10 * (a * (bps * BPS) / DECIMAL_ONE) <= a
  {
    var n := a * (bps * BPS);
    MulLe(bps * BPS, MAX_FEE_BPS * BPS, a);
    MulLe(0, bps * BPS, a);
    DivBounds(n, DECIMAL_ONE);
  }

  ghost function ViewWeight(reserve: Uint128, supply: Uint128): (ChainUid, Uint128) -> int {
    (c, lp: Uint128) => ReserveView(reserve, lp, supply)
  }

  /** The reserve views shown to the chains never add up to more than the pool holds. */
  lemma ViewsWithinReserve(v: Vlp, token: Token)
    requires Books(v)
    ensures Sum(v.chainLp, ViewWeight(Get(v.reserves, token), v.totalLp)) <= Get(v.reserves, token)
  {
    var r := Get(v.reserves, token);
    ViewsScaled(v.chainLp, r, v.totalLp);
    if v.totalLp > 0 {
      MulCancel(v.totalLp, Sum(v.chainLp, ViewWeight(r, v.totalLp)), r);
    }
  }

  lemma {:induction false} ViewsScaled(m: map<ChainUid, Uint128>, r: Uint128, supply: Uint128)
    ensures supply * Sum(m, ViewWeight(r, supply)) <= r * Sum(m, LpWeight())
    ensures supply == 0 ==> Sum(m, ViewWeight(r, supply)) == 0
    decreases |m|
  {
    if m != map[] {
      var c := Pick(m);
      assert (m - {c}).Keys == m.Keys - {c};
      ViewsScaled(m - {c}, r, supply);
      SumPick(m, ViewWeight(r, supply), c);
      SumPick(m, LpWeight(), c);
      ViewScaled(r, m[c], supply);
      assert r * (m[c] + Sum(m - {c}, LpWeight())) == r * m[c] + r * Sum(m - {c}, LpWeight());
      assert supply * (ReserveView(r, m[c], supply) + Sum(m - {c}, ViewWeight(r, supply)))
          == supply * ReserveView(r, m[c], supply) + supply * Sum(m - {c}, ViewWeight(r, supply));
    }
  }

  lemma ViewScaled(r: Uint128, lp: Uint128, supply: Uint128)
    ensures supply * ReserveView(r, lp, supply) <= r * lp
    ensures supply == 0 ==> ReserveView(r, lp, supply) == 0
  {
    MulLe(0, lp, r);
    if supply > 0 {
      DivBounds(r * lp, supply);
    }
  }

  // ----- Runs of one pool -----

  datatype Op =
    | Register(chain: ChainUid, pair: Pair)
    | Add(chain: ChainUid, amount1: Uint128, amount2: Uint128, slippage: nat)
    | Remove(chain: ChainUid, lp: Uint128)
    | Swap(assetIn: Token, amountIn: Uint128, held: Uint128)
    | SetFee(lpBps: Option<Bps>, euclidBps: Option<Bps>, recipient: Option<User>)

  /** One message to the pool; a refused message is rolled back. */
  function Step(v: Vlp, op: Op): Vlp {
    match op
    case Register(c, p) => RegisterPool(v, c, p).GetOr(v)
    case Add(c, a1, a2, s) => (match AddLiquidity(v, c, a1, a2, s) case Some((w, _)) => w case None => v)
    case Remove(c, lp) => (match RemoveLiquidity(v, c, lp) case Some(r) => r.vlp case None => v)
    case Swap(t, a, held) => (match LocalSwap(v, t, a, held) case Some(o) => o.vlp case None => v)
    case SetFee(l, e, r) => UpdateFee(v, l, e, r).GetOr(v)
  }

  function Run(v: Vlp, ops: seq<Op>): Vlp {
    if ops == [] then v else Step(Run(v, ops[..|ops| - 1]), ops[|ops| - 1])
  }

  lemma StepKeepsBooks(v: Vlp, op: Op)
    requires Books(v)
    ensures Books(Step(v, op)) && (FeesWithin(v.fee) ==> FeesWithin(Step(v, op).fee))
  {
    hide StrLe, CalculateLpAllocation, RemovePayout;
    match op
    case Register(c, p) => SumSet(v.chainLp, LpWeight(), c, 0);
    case Add(c, a1, a2, s) => if AddLiquidity(v, c, a1, a2, s).Some? { AddKeepsBooks(v, c, a1, a2, s); }
    case Remove(c, lp) => RemoveSucceedsIff(v, c, lp);
    case Swap(t, a, held) => if LocalSwap(v, t, a, held).Some? { SwapEffect(v, t, a, held); }
    case SetFee(_, _, _) =>
  }

  lemma StepKeepsValid(v: Vlp, op: Op)
    requires Valid(v)
    ensures Valid(Step(v, op))
  {
    hide Step;
    StepKeepsBooks(v, op);
  }

  /** Every state a pool can reach from its creation, through any messages in any order, has its books in order,
      and fees that start within the limit stay within it. */
  lemma {:induction false} RunIsValid(pair: Pair, fee: Fee, ops: seq<Op>)
    requires Instantiate(pair, fee).Some?
    ensures Books(Run(Instantiate(pair, fee).value, ops))
    ensures FeesWithin(fee) ==> Valid(Run(Instantiate(pair, fee).value, ops))
  {
    if ops != [] {
      RunIsValid(pair, fee, ops[..|ops| - 1]);
      StepKeepsBooks(Run(Instantiate(pair, fee).value, ops[..|ops| - 1]), ops[|ops| - 1]);
    }
  }

  /** Adding and at once removing the LP just minted gives back at most what was added, for any pool in order. */
  lemma AddThenRemove(v: Vlp, chain: ChainUid, a1: Uint128, a2: Uint128, slippage: nat)
    requires Books(v) && AddLiquidity(v, chain, a1, a2, slippage).Some?
    ensures var (w, lp) := AddLiquidity(v, chain, a1, a2, slippage).value;
            var back := RemoveLiquidity(w, chain, lp);
            back.Some? && back.value.paid1 <= a1 && back.value.paid2 <= a2
  {
    hide CalculateLpAllocation, RemovePayout, WithinSlippage, Ratio, StrLe;
    var (w, lp) := AddLiquidity(v, chain, a1, a2, slippage).value;
    AddKeepsBooks(v, chain, a1, a2, slippage);
    RemoveSucceedsIff(w, chain, lp);
    NoProfitAddRemove(a1, a2, Get(v.reserves, v.pair.token1), Get(v.reserves, v.pair.token2), v.totalLp);
  }
}
