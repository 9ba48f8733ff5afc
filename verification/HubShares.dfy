/** LP shares on the hub: which transactions move a chain's shares in a pool, and by how much. */
module HubShares {
  import opened Arith
  import opened Sums
  import opened Types
  import opened VlpModel
  import opened HubModel
  import opened HubFlow
  import opened HubPools
  import opened HubExcess

  ghost function ShareWeight(s: Scope): (ChainUid, Uint128) -> int {
    (c: ChainUid, x: Uint128) => if s.Has(c) then x else 0
  }

  ghost function ChainShares(v: Vlp, s: Scope): int { Sum(v.chainLp, ShareWeight(s)) }

  /** The shares of pool v that the hub books for the chains of a scope. */
  ghost function ShareSum(h: Hub, v: Address, s: Scope): int {
    if v in h.vlps then ChainShares(h.vlps[v], s) else 0
  }

  /** What an acknowledgement says about pool v's shares on chain c. */
  function AckShares(ack: Ack, c: ChainUid, v: Address, s: Scope): int {
    match ack
    case AddAck(lp, w) => When(w == v && s.Has(c), lp)
    case RemoveAck(lp, w) => -When(w == v && s.Has(c), lp)
    case _ => 0
  }

  function OriginOf(tx: HubTx): ChainUid {
    match tx case AddLiquidity(u, _, _, _, _) => u.chain case RemoveLiquidity(u, _, _, _) => u.chain case _ => VSL
  }

  lemma AddShares(v: Vlp, c: ChainUid, a1: Uint128, a2: Uint128, slippage: nat, s: Scope)
    requires VlpModel.AddLiquidity(v, c, a1, a2, slippage).Some?
    ensures var (w, lp) := VlpModel.AddLiquidity(v, c, a1, a2, slippage).value;
            ChainShares(w, s) == ChainShares(v, s) + When(s.Has(c), lp)
  {
    hide AddQuote;
    var x: Uint128 := v.chainLp[c] + VlpModel.AddLiquidity(v, c, a1, a2, slippage).value.1;
    SumSet(v.chainLp, ShareWeight(s), c, x);
  }

  lemma RemoveShares(v: Vlp, c: ChainUid, lp: Uint128, s: Scope)
    requires VlpModel.RemoveLiquidity(v, c, lp).Some?
    ensures ChainShares(VlpModel.RemoveLiquidity(v, c, lp).value.vlp, s) == ChainShares(v, s) - When(s.Has(c), lp)
  {
    hide PoolMath.RemovePayout;
    var x: Uint128 := v.chainLp[c] - lp;
    SumSet(v.chainLp, ShareWeight(s), c, x);
  }

  lemma AddTxShares(h: Hub, sender: User, pair: Pair, a1: Uint128, a2: Uint128, slippage: nat, v: Address, s: Scope)
    requires AddTx(h, sender, pair, a1, a2, slippage).Some?
    ensures var r := AddTx(h, sender, pair, a1, a2, slippage).value;
            ShareSum(r.hub, v, s) == ShareSum(h, v, s) + AckShares(r.ack, sender.chain, v, s)
  {
    hide VlpModel.AddLiquidity;
    AddTxNamesPool(h, sender, pair, a1, a2, slippage);
    AddShares(h.vlps[h.vlpOf[pair.Tuple()]], sender.chain, a1, a2, slippage, s);
  }

  lemma RemoveTxShares(h: Hub, sender: User, pair: Pair, lp: Uint128, rs: seq<Receiver>, v: Address, s: Scope)
    requires RemoveTx(h, sender, pair, lp, rs).Some?
    ensures var r := RemoveTx(h, sender, pair, lp, rs).value;
            ShareSum(r.hub, v, s) == ShareSum(h, v, s) + AckShares(r.ack, sender.chain, v, s)
  {
    hide VlpModel.RemoveLiquidity, PayBoth, ReleaseBoth;
    RemoveTxNamesPool(h, sender, pair, lp, rs);
    var x := h.vlpOf[pair.Tuple()];
    var r := VlpModel.RemoveLiquidity(h.vlps[x], sender.chain, lp).value;
    RemoveShares(h.vlps[x], sender.chain, lp, s);
    var h0 := h.(vlps := h.vlps[x := r.vlp]);
    var h1 := PayBoth(h0, x, h.vlps[x].pair, sender, r.paid1, r.paid2).value;
    PayBothFlow(h0, x, h.vlps[x].pair, sender, r.paid1, r.paid2, "");
    ReleaseBothTouches(h1, sender, pair, r.paid1, r.paid2, rs, sender, "");
  }

  lemma SwappedShares(h: Hub, h1: Hub, v: Address, s: Scope)
    requires OnlySwapped(h.(escrows := map[]), h1.(escrows := map[]))
    ensures ShareSum(h1, v, s) == ShareSum(h, v, s)
  {
  }

  lemma CreatePoolShares(h: Hub, sender: User, pair: Pair, newVlp: Address, admin: Address, v: Address, s: Scope)
    requires CreatePoolTx(h, sender, pair, newVlp, admin).Some?
    ensures ShareSum(CreatePoolTx(h, sender, pair, newVlp, admin).value.hub, v, s) == ShareSum(h, v, s)
    ensures CreatePoolTx(h, sender, pair, newVlp, admin).value.ack.OtherAck?
  {
    hide TokenUsable, StrLe;
    if pair in h.vlpOf {
      SumSet(h.vlps[h.vlpOf[pair]].chainLp, ShareWeight(s), sender.chain, 0);
    } else {
      var none: map<ChainUid, Uint128> := map[];
      SumSet(none, ShareWeight(s), sender.chain, 0);
    }
  }

  lemma SetupShares(h: Hub, tx: HubTx, v: Address, s: Scope)
    requires (tx.SetFee? || tx.CreatePool? || tx.CreateEscrow?) && Apply(h, tx).Some?
    ensures ShareSum(Apply(h, tx).value.hub, v, s) == ShareSum(h, v, s) && Apply(h, tx).value.ack.OtherAck?
  {
    hide CreatePoolTx;
    if tx.CreatePool? { CreatePoolShares(h, tx.sender, tx.pair, tx.newVlp, tx.admin, v, s); }
  }

  /** A transaction changes the shares of a pool by exactly what its acknowledgement reports. */
  lemma TxShares(h: Hub, tx: HubTx, v: Address, s: Scope)
    requires Apply(h, tx).Some?
    ensures var r := Apply(h, tx).value;
            ShareSum(r.hub, v, s) == ShareSum(h, v, s) + AckShares(r.ack, OriginOf(tx), v, s)
  {
    hide AddTx, RemoveTx, SwapTx, CreatePoolTx, ReleaseEscrow, ExecuteSwap, ShareSum, OnlySwapped;
    match tx
    case AddLiquidity(sender, pair, a1, a2, slippage) => AddTxShares(h, sender, pair, a1, a2, slippage, v, s);
    case RemoveLiquidity(sender, pair, lp, rs) => RemoveTxShares(h, sender, pair, lp, rs, v, s);
    case Swap(sender, assetIn, amountIn, assetOut, minOut, swaps, rs) =>
      SwapTxPairs(h, sender, assetIn, amountIn, assetOut, minOut, swaps, rs);
      SwappedShares(h, Apply(h, tx).value.hub, v, s);
      SwapTxAck(h, sender, assetIn, amountIn, assetOut, minOut, swaps, rs);
    case Withdraw(sender, token, asked, rs) =>
      ReleaseTouches(h, sender, token, asked, rs, sender, token);
      SameShares(h, Apply(h, tx).value.hub, v, s);
    case ReleaseFailed(r) => SameShares(h, Apply(h, tx).value.hub, v, s);
    case UserTransfer(from, to, token, amount) => SameShares(h, Apply(h, tx).value.hub, v, s);
    case DirectSwap(sender, hop, assetIn, amountIn, minOut, next) =>
      DirectSwapShares(h, sender, hop, assetIn, amountIn, minOut, next, v, s);
    case _ => SetupShares(h, tx, v, s);
  }

  lemma SameShares(h: Hub, h1: Hub, v: Address, s: Scope)
    requires h1.vlps == h.vlps
    ensures ShareSum(h1, v, s) == ShareSum(h, v, s)
  {
  }

  lemma SwapTxAck(h: Hub, sender: User, assetIn: Token, amountIn: Uint128, assetOut: Token, minOut: Uint128,
                  swaps: seq<SwapPair>, rs: seq<Receiver>)
    requires SwapTx(h, sender, assetIn, amountIn, assetOut, minOut, swaps, rs).Some?
    ensures SwapTx(h, sender, assetIn, amountIn, assetOut, minOut, swaps, rs).value.ack.SwapAck?
  {
    hide ExecuteSwap, ReleaseEscrow, Route;
  }

  lemma DirectSwapShares(h: Hub, sender: User, hop: Hop, assetIn: Token, amountIn: Uint128, minOut: Uint128,
                         next: seq<Hop>, v: Address, s: Scope)
    requires ExecuteSwap(h, sender, hop, assetIn, amountIn, minOut, next).Some?
    ensures ShareSum(ExecuteSwap(h, sender, hop, assetIn, amountIn, minOut, next).value.hub, v, s) == ShareSum(h, v, s)
  {
    hide ExecuteSwap;
    SwapFlow(h, sender, hop, assetIn, amountIn, minOut, next, assetIn);
  }
}
