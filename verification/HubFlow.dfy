/** Conservation on the hub: virtual balances against the escrow ledger, through every transaction. */
module HubFlow {
  import opened Arith
  import opened Sums
  import opened Types
  import opened VlpModel
  import opened ReleaseModel
  import opened HubModel

  ghost function BalanceWeight(t: Token): (BalanceKey, Uint128) -> int {
    (k: BalanceKey, x: Uint128) => if k.token == t then x else 0
  }

  /** All virtual balances of a token. */
  ghost function LedgerSum(h: Hub, t: Token): int { TokenTotal(h.balances, t) }

  ghost function TokenTotal(b: Balances, t: Token): int { Sum(b, BalanceWeight(t)) }

  /** All virtual balances of a token, less what transfers to oneself have created. */
  ghost function NetLedger(h: Hub, t: Token): int { LedgerSum(h, t) - Inflated(h, t) }

  ghost function ReleaseWeight(t: Token, s: Scope): Release -> int {
    (r: Release) => if r.token == t && s.Has(r.chain) then r.amount else 0
  }

  /** What a list of release packets takes out of token t on the chains in s. */
  ghost function ReleaseSum(rs: seq<Release>, t: Token, s: Scope): int { SeqSum(rs, ReleaseWeight(t, s)) }

  function When(b: bool, x: int): int { if b then x else 0 }

  /** What a transaction brings into token t from the chains in s. */
  ghost function Deposit(h: Hub, tx: HubTx, t: Token, s: Scope): int {
    match tx
    case AddLiquidity(sender, pair, a1, a2, _) =>
      var k := pair.Tuple();
      if s.Has(sender.chain) && k in h.vlpOf && h.vlpOf[k] in h.vlps then
        var p := h.vlps[h.vlpOf[k]].pair;
        When(t == p.token1, a1) + When(t == p.token2, a2)
      else 0
    case Swap(sender, assetIn, amountIn, _, _, _, _) => When(s.Has(sender.chain) && t == assetIn, amountIn)
    case ReleaseFailed(r) => When(s.Has(r.chain) && t == r.token, r.amount)
    case _ => 0
  }

  // ----- The primitives -----

  lemma MintFlow(h: Hub, u: User, tok: Token, amount: Uint128, t: Token)
    requires Mint(h, u, tok, amount).Some?
    ensures NetLedger(Mint(h, u, tok, amount).value, t) == NetLedger(h, t) + When(t == tok, amount)
  {
    var x: Uint128 := Balance(h, u, tok) + amount;
    SumSet(h.balances, BalanceWeight(t), BalanceKey(u, tok), x);
  }

  lemma BurnFlow(h: Hub, u: User, tok: Token, amount: Uint128, t: Token)
    requires Burn(h, u, tok, amount).Some?
    ensures NetLedger(Burn(h, u, tok, amount).value, t) == NetLedger(h, t) - When(t == tok, amount)
  {
    var x: Uint128 := Balance(h, u, tok) - amount;
    SumSet(h.balances, BalanceWeight(t), BalanceKey(u, tok), x);
  }

  /** A transfer keeps the net ledger; the gross ledger is kept if and only if the transfer is
      between two accounts or moves nothing. */
  lemma TransferFlow(h: Hub, from: User, to: User, tok: Token, amount: Uint128, t: Token)
    requires Transfer(h, from, to, tok, amount).Some?
    ensures NetLedger(Transfer(h, from, to, tok, amount).value, t) == NetLedger(h, t)
    ensures LedgerSum(Transfer(h, from, to, tok, amount).value, tok) == LedgerSum(h, tok)
            <==> from != to || amount == 0
  {
    var left: Uint128 := Balance(h, from, tok) - amount;
    var right: Uint128 := Balance(h, to, tok) + amount;
    TransferSums(h.balances, BalanceKey(from, tok), left, BalanceKey(to, tok), right, t);
    TransferSums(h.balances, BalanceKey(from, tok), left, BalanceKey(to, tok), right, tok);
  }

  lemma TransferSums(m: Balances, from: BalanceKey, left: Uint128, to: BalanceKey, right: Uint128, t: Token)
    requires from.token == to.token && Get(m, from) - left == right - Get(m, to)
    ensures TokenTotal(m[from := left][to := right], t)
            == TokenTotal(m, t) + When(t == to.token && from == to, right - Get(m, to))
  {
    SumSet(m, BalanceWeight(t), from, left);
    var m1: Balances := m[from := left];
    SumSet(m1, BalanceWeight(t), to, right);
  }

  /** A witness that the guard is needed: a transfer to oneself creates balance out of nothing. */
  lemma SelfTransferInflates(h: Hub, u: User, tok: Token, amount: Uint128)
    requires 0 < amount <= Balance(h, u, tok) && Balance(h, u, tok) + amount <= U128_MAX
    ensures Transfer(h, u, u, tok, amount).Some?
    ensures Balance(Transfer(h, u, u, tok, amount).value, u, tok) == Balance(h, u, tok) + amount
    ensures LedgerSum(Transfer(h, u, u, tok, amount).value, tok) == LedgerSum(h, tok) + amount
  {
    var left: Uint128 := Balance(h, u, tok) - amount;
    var right: Uint128 := Balance(h, u, tok) + amount;
    TransferSums(h.balances, BalanceKey(u, tok), left, BalanceKey(u, tok), right, tok);
  }

  lemma CreditEscrowFlow(h: Hub, tok: Token, c: ChainUid, amount: Uint128, t: Token, s: Scope)
    requires CreditEscrow(h, tok, c, amount).Some?
    ensures EscrowSum(CreditEscrow(h, tok, c, amount).value.escrows, t, s)
            == EscrowSum(h.escrows, t, s) + When(t == tok && s.Has(c), amount)
  {
    var x: Uint128 := Get(h.escrows, EscrowKey(tok, c)) + amount;
    SumSet(h.escrows, EscrowWeight(t, s), EscrowKey(tok, c), x);
  }

  lemma {:induction false} PacketsSum(draws: seq<Draw>, sender: User, tok: Token, t: Token, s: Scope)
    ensures ReleaseSum(Packets(draws, sender, tok), t, s) == When(t == tok, SeqSum(draws, DrawWeight(s)))
  {
    if draws != [] {
      var l := |draws| - 1;
      assert Packets(draws, sender, tok)[..l] == Packets(draws[..l], sender, tok);
      PacketsSum(draws[..l], sender, tok, t, s);
    }
  }

  lemma {:induction false} DrawsEverywhere(draws: seq<Draw>)
    ensures SeqSum(draws, DrawWeight(Every)) == DrawTotal(draws)
  {
    if draws != [] { DrawsEverywhere(draws[..|draws| - 1]); }
  }

  /** The burn equals the sum of the packets sent and the ledger drop, and no check after the balance
      check can fail: a release fails only for lack of balance, or at an unregistered chain that it reaches
      because the entries before it cannot bear the amount. */
  lemma ReleaseFlow(h: Hub, sender: User, tok: Token, asked: Option<Uint128>, rs: seq<Receiver>,
                    t: Token, s: Scope)
    ensures ReleaseEscrow(h, sender, tok, asked, rs).Some? <==>
              var amount := asked.GetOr(Balance(h, sender, tok));
              && amount <= Balance(h, sender, tok)
              && forall i | 0 <= i < |rs| :: rs[i].user.chain in h.chains || !Reaches(h.escrows, tok, amount, rs, i)
    ensures ReleaseEscrow(h, sender, tok, asked, rs).Some? ==>
              var (h1, out) := ReleaseEscrow(h, sender, tok, asked, rs).value;
              && NetLedger(h1, t) == NetLedger(h, t) - ReleaseSum(out, t, Every)
              && EscrowSum(h1.escrows, t, s) == EscrowSum(h.escrows, t, s) - ReleaseSum(out, t, s)
              && Balance(h1, sender, tok) == Balance(h, sender, tok) - ReleaseSum(out, tok, Every)
              && h1 == h.(balances := h1.balances, escrows := h1.escrows)
  {
    hide Reaches;
    var amount := asked.GetOr(Balance(h, sender, tok));
    LoopFailsIff(h.escrows, h.chains, tok, amount, rs);
    if amount <= Balance(h, sender, tok) && ReleaseLoop(h.escrows, h.chains, tok, amount, rs).Some? {
      var o := ReleaseLoop(h.escrows, h.chains, tok, amount, rs).value;
      LoopTotals(h.escrows, h.chains, tok, amount, rs);
      LoopConserves(h.escrows, h.chains, tok, amount, rs, t, s);
      SettleFlow(h, sender, tok, amount, o, t);
      DrawsEverywhere(o.draws);
      PacketsSum(o.draws, sender, tok, t, s);
      PacketsSum(o.draws, sender, tok, t, Every);
      PacketsSum(o.draws, sender, tok, tok, Every);
    }
  }

  lemma SettleFlow(h: Hub, sender: User, tok: Token, amount: Uint128, o: Drawn, t: Token)
    requires amount <= Balance(h, sender, tok) && DrawTotal(o.draws) + o.remaining == amount
    ensures SettleDraws(h, sender, tok, amount, o).Some?
    ensures var h1 := SettleDraws(h, sender, tok, amount, o).value;
            && h1 == h.(balances := h1.balances, escrows := o.escrows)
            && Balance(h1, sender, tok) == Balance(h, sender, tok) - DrawTotal(o.draws)
            && NetLedger(h1, t) == NetLedger(h, t) - When(t == tok, DrawTotal(o.draws))
  {
    SeqSumNonneg(o.draws, DrawAmount());
    var sent: Uint128 := DrawTotal(o.draws);
    if sent > 0 { BurnFlow(h.(escrows := o.escrows), sender, tok, sent, t); }
  }

  // ----- Swaps -----

  /** What a hop may change: the ledger, and one pool's reserves and fee counters. */
  ghost predicate OnlySwapped(h: Hub, h1: Hub) {
    && h1.escrows == h.escrows && h1.vlpOf == h.vlpOf && h1.chains == h.chains
    && h1.vlps.Keys == h.vlps.Keys
    && forall v | v in h.vlps :: h1.vlps[v].chainLp == h.vlps[v].chainLp && h1.vlps[v].totalLp == h.vlps[v].totalLp
                                 && h1.vlps[v].pair == h.vlps[v].pair && h1.vlps[v].fee == h.vlps[v].fee
  }

  lemma HopFlow(h: Hub, v: Address, assetIn: Token, amountIn: Uint128, to: User, t: Token)
    requires SwapHop(h, v, assetIn, amountIn, to).Some?
    ensures NetLedger(SwapHop(h, v, assetIn, amountIn, to).value.hub, t) == NetLedger(h, t)
    ensures OnlySwapped(h, SwapHop(h, v, assetIn, amountIn, to).value.hub)
  {
    hide LocalSwap, PassOn;
    var held := Balance(h, HubAccount(v), assetIn);
    var o := LocalSwap(h.vlps[v], assetIn, amountIn, held).value;
    SwapKeepsShares(h.vlps[v], assetIn, amountIn, held);
    PassOnFlow(h.(vlps := h.vlps[v := o.vlp]), v, assetIn, o, to, t);
  }

  lemma PassOnFlow(h: Hub, v: Address, assetIn: Token, o: Swapped, to: User, t: Token)
    requires PassOn(h, v, assetIn, o, to).Some?
    ensures var h1 := PassOn(h, v, assetIn, o, to).value;
            && NetLedger(h1, t) == NetLedger(h, t)
            && h1 == h.(balances := h1.balances, inflated := h1.inflated)
  {
    if o.euclidFee == 0 {
      TransferFlow(h, HubAccount(v), to, o.assetOut, o.amountOut, t);
    } else {
      var h1 := Transfer(h, HubAccount(v), o.vlp.fee.recipient, assetIn, o.euclidFee).value;
      TransferFlow(h, HubAccount(v), o.vlp.fee.recipient, assetIn, o.euclidFee, t);
      TransferFlow(h1, HubAccount(v), to, o.assetOut, o.amountOut, t);
    }
  }

  lemma {:induction false} SwapFlow(h: Hub, sender: User, hop: Hop, assetIn: Token, amountIn: Uint128,
                                    minOut: Uint128, next: seq<Hop>, t: Token)
    requires ExecuteSwap(h, sender, hop, assetIn, amountIn, minOut, next).Some?
    ensures NetLedger(ExecuteSwap(h, sender, hop, assetIn, amountIn, minOut, next).value.hub, t) == NetLedger(h, t)
    ensures OnlySwapped(h, ExecuteSwap(h, sender, hop, assetIn, amountIn, minOut, next).value.hub)
    decreases |next|
  {
    if next == [] {
      HopFlow(h, hop.vlp, assetIn, amountIn, sender, t);
    } else {
      HopFlow(h, hop.vlp, assetIn, amountIn, HubAccount(next[0].vlp), t);
      var o := SwapHop(h, hop.vlp, assetIn, amountIn, HubAccount(next[0].vlp)).value;
      SwapFlow(o.hub, sender, next[0], o.assetOut, o.amountOut, minOut, next[1..], t);
    }
  }

  // ----- Whole transactions -----

  lemma FundFlow(h: Hub, v: Address, p: Pair, c: ChainUid, a1: Uint128, a2: Uint128, t: Token, s: Scope)
    requires v in h.vlps && FundPool(h, v, p, c, a1, a2).Some?
    ensures var h1 := FundPool(h, v, p, c, a1, a2).value;
            && NetLedger(h1, t) == NetLedger(h, t) + When(t == p.token1, a1) + When(t == p.token2, a2)
            && EscrowSum(h1.escrows, t, s)
               == EscrowSum(h.escrows, t, s) + When(s.Has(c), When(t == p.token1, a1) + When(t == p.token2, a2))
            && h1 == h.(balances := h1.balances, escrows := h1.escrows)
  {
    var h1 := CreditEscrow(h, p.token1, c, a1).value;
    var h2 := CreditEscrow(h1, p.token2, c, a2).value;
    CreditEscrowFlow(h, p.token1, c, a1, t, s);
    CreditEscrowFlow(h1, p.token2, c, a2, t, s);
    MintFlow(h2, HubAccount(v), p.token1, a1, t);
    MintFlow(Mint(h2, HubAccount(v), p.token1, a1).value, HubAccount(v), p.token2, a2, t);
  }

  lemma PayBothFlow(h: Hub, v: Address, p: Pair, to: User, paid1: Uint128, paid2: Uint128, t: Token)
    requires PayBoth(h, v, p, to, paid1, paid2).Some?
    ensures var h1 := PayBoth(h, v, p, to, paid1, paid2).value;
            NetLedger(h1, t) == NetLedger(h, t) && h1 == h.(balances := h1.balances, inflated := h1.inflated)
  {
    TransferFlow(h, HubAccount(v), to, p.token1, paid1, t);
    TransferFlow(Transfer(h, HubAccount(v), to, p.token1, paid1).value, HubAccount(v), to, p.token2, paid2, t);
  }

  lemma ReleaseBothFlow(h: Hub, sender: User, pair: Pair, paid1: Uint128, paid2: Uint128, rs: seq<Receiver>,
                        t: Token, s: Scope)
    requires ReleaseBoth(h, sender, pair, paid1, paid2, rs).Some?
    ensures var (h2, out) := ReleaseBoth(h, sender, pair, paid1, paid2, rs).value;
            && NetLedger(h2, t) == NetLedger(h, t) - ReleaseSum(out, t, Every)
            && EscrowSum(h2.escrows, t, s) == EscrowSum(h.escrows, t, s) - ReleaseSum(out, t, s)
            && h2 == h.(balances := h2.balances, escrows := h2.escrows)
  {
    var (h1, out1) := ReleaseEscrow(h, sender, pair.token1, Some(paid1), rs).value;
    var (h2, out2) := ReleaseEscrow(h1, sender, pair.token2, Some(paid2), rs).value;
    ReleaseFlow(h, sender, pair.token1, Some(paid1), rs, t, s);
    ReleaseFlow(h1, sender, pair.token2, Some(paid2), rs, t, s);
    SeqSumConcat(out1, out2, ReleaseWeight(t, s));
    SeqSumConcat(out1, out2, ReleaseWeight(t, Every));
  }

  /** Net ledger and escrow ledger move together: both grow by the deposits and shrink by the releases. */
  ghost predicate Flows(h: Hub, tx: HubTx, r: TxResult, t: Token, s: Scope) {
    && NetLedger(r.hub, t) == NetLedger(h, t) + Deposit(h, tx, t, Every) - ReleaseSum(r.releases, t, Every)
    && EscrowSum(r.hub.escrows, t, s)
       == EscrowSum(h.escrows, t, s) + Deposit(h, tx, t, s) - ReleaseSum(r.releases, t, s)
  }

  lemma AddFlow(h: Hub, sender: User, pair: Pair, a1: Uint128, a2: Uint128, slippage: nat, t: Token, s: Scope)
    requires AddTx(h, sender, pair, a1, a2, slippage).Some?
    ensures Flows(h, HubTx.AddLiquidity(sender, pair, a1, a2, slippage),
                  AddTx(h, sender, pair, a1, a2, slippage).value, t, s)
  {
    var v := h.vlpOf[pair.Tuple()];
    FundFlow(h, v, h.vlps[v].pair, sender.chain, a1, a2, t, s);
  }

  lemma RemoveFlow(h: Hub, sender: User, pair: Pair, lp: Uint128, rs: seq<Receiver>, t: Token, s: Scope)
    requires RemoveTx(h, sender, pair, lp, rs).Some?
    ensures Flows(h, HubTx.RemoveLiquidity(sender, pair, lp, rs), RemoveTx(h, sender, pair, lp, rs).value, t, s)
  {
    hide VlpModel.RemoveLiquidity, PayBoth, ReleaseBoth, StrLe;
    var v := h.vlpOf[pair.Tuple()];
    var r := VlpModel.RemoveLiquidity(h.vlps[v], sender.chain, lp).value;
    var h0 := h.(vlps := h.vlps[v := r.vlp]);
    PayBothFlow(h0, v, h.vlps[v].pair, sender, r.paid1, r.paid2, t);
    var h1 := PayBoth(h0, v, h.vlps[v].pair, sender, r.paid1, r.paid2).value;
    ReleaseBothFlow(h1, sender, pair, r.paid1, r.paid2, rs, t, s);
  }

  lemma PaidInFlow(h: Hub, v: Address, c: ChainUid, tok: Token, amount: Uint128, h2: Hub, t: Token, s: Scope)
    requires CreditEscrow(h, tok, c, amount).Some?
    requires Mint(CreditEscrow(h, tok, c, amount).value, HubAccount(v), tok, amount) == Some(h2)
    ensures NetLedger(h2, t) == NetLedger(h, t) + When(t == tok, amount)
    ensures EscrowSum(h2.escrows, t, s) == EscrowSum(h.escrows, t, s) + When(t == tok && s.Has(c), amount)
  {
    CreditEscrowFlow(h, tok, c, amount, t, s);
    MintFlow(CreditEscrow(h, tok, c, amount).value, HubAccount(v), tok, amount, t);
  }

  lemma SwapTxFlow(h: Hub, sender: User, assetIn: Token, amountIn: Uint128, assetOut: Token, minOut: Uint128,
                   swaps: seq<SwapPair>, rs: seq<Receiver>, t: Token, s: Scope)
    requires SwapTx(h, sender, assetIn, amountIn, assetOut, minOut, swaps, rs).Some?
    ensures Flows(h, HubTx.Swap(sender, assetIn, amountIn, assetOut, minOut, swaps, rs),
                  SwapTx(h, sender, assetIn, amountIn, assetOut, minOut, swaps, rs).value, t, s)
  {
    hide ExecuteSwap, ReleaseEscrow, Route, NetLedger, EscrowSum, Mint, CreditEscrow;
    var hops := Route(h, assetIn, assetOut, swaps).value;
    var h1 := CreditEscrow(h, assetIn, sender.chain, amountIn).value;
    var h2 := Mint(h1, HubAccount(hops[0].vlp), assetIn, amountIn).value;
    var o := ExecuteSwap(h2, sender, hops[0], assetIn, amountIn, minOut, hops[1..]).value;
    PaidInFlow(h, hops[0].vlp, sender.chain, assetIn, amountIn, h2, t, s);
    SwapFlow(h2, sender, hops[0], assetIn, amountIn, minOut, hops[1..], t);
    ReleaseFlow(o.hub, sender, assetOut, Some(o.amountOut), rs, t, s);
  }

  lemma ReleaseFailedFlow(h: Hub, r: Release, t: Token, s: Scope)
    requires ReleaseFailedTx(h, r).Some?
    ensures Flows(h, ReleaseFailed(r), ReleaseFailedTx(h, r).value, t, s)
  {
    CreditEscrowFlow(h, r.token, r.chain, r.amount, t, s);
    MintFlow(CreditEscrow(h, r.token, r.chain, r.amount).value, r.sender, r.token, r.amount, t);
  }

  /** Setting a fee and creating a pool or an escrow move nothing. */
  lemma SetupFlow(h: Hub, tx: HubTx, t: Token, s: Scope)
    requires tx.SetFee? || tx.CreatePool? || tx.CreateEscrow?
    requires Apply(h, tx).Some?
    ensures Flows(h, tx, Apply(h, tx).value, t, s)
  {
    hide TokenUsable, StrLe;
    if tx.CreateEscrow? {
      SumSet(h.escrows, EscrowWeight(t, s), EscrowKey(tx.token, tx.sender.chain), 0);
    } else {
      var r := Apply(h, tx).value;
      assert r.hub == h.(vlps := r.hub.vlps, vlpOf := r.hub.vlpOf) && r.releases == [];
    }
  }

  /** Every successful hub transaction obeys the flow law. */
  lemma TxFlow(h: Hub, tx: HubTx, t: Token, s: Scope)
    requires Apply(h, tx).Some?
    ensures Flows(h, tx, Apply(h, tx).value, t, s)
  {
    hide AddTx, RemoveTx, SwapTx, ReleaseFailedTx, CreatePoolTx, ReleaseEscrow, ExecuteSwap, Transfer;
    match tx
    case AddLiquidity(sender, pair, a1, a2, slippage) => AddFlow(h, sender, pair, a1, a2, slippage, t, s);
    case RemoveLiquidity(sender, pair, lp, rs) => RemoveFlow(h, sender, pair, lp, rs, t, s);
    case Swap(sender, assetIn, amountIn, assetOut, minOut, swaps, rs) =>
      SwapTxFlow(h, sender, assetIn, amountIn, assetOut, minOut, swaps, rs, t, s);
    case Withdraw(sender, token, asked, rs) => ReleaseFlow(h, sender, token, asked, rs, t, s);
    case ReleaseFailed(r) => ReleaseFailedFlow(h, r, t, s);
    case UserTransfer(from, to, token, amount) =>
      TransferFlow(h, from, to, token, amount, t);
      TransferKeeps(h, from, to, token, amount);
    case DirectSwap(sender, hop, assetIn, amountIn, minOut, next) =>
      SwapFlow(h, sender, hop, assetIn, amountIn, minOut, next, t);
    case SetFee(_, _, _, _) => SetupFlow(h, tx, t, s);
    case CreatePool(_, _, _, _) => SetupFlow(h, tx, t, s);
    case CreateEscrow(_, _) => SetupFlow(h, tx, t, s);
  }

  lemma TransferKeeps(h: Hub, from: User, to: User, tok: Token, amount: Uint128)
    requires Transfer(h, from, to, tok, amount).Some?
    ensures var h1 := Transfer(h, from, to, tok, amount).value;
            h1 == h.(balances := h1.balances, inflated := h1.inflated)
  {
  }

  // ----- Runs of the hub -----

  /** One transaction with roll-back on failure. */
  function Next(h: Hub, tx: HubTx): Hub {
    match Apply(h, tx) case Some(r) => r.hub case None => h
  }

  function RunHub(h: Hub, txs: seq<HubTx>): Hub {
    if txs == [] then h else Next(RunHub(h, txs[..|txs| - 1]), txs[|txs| - 1])
  }

  function EmptyHub(chains: set<ChainUid>): Hub { Hub(map[], map[], map[], map[], map[], chains) }

  /** Hub conservation: after any transactions in any order, the virtual balances of a token are
      exactly its escrow ledger over all chains plus what transfers to oneself have created. */
  lemma {:induction false} HubConserves(chains: set<ChainUid>, txs: seq<HubTx>, t: Token)
    ensures var h := RunHub(EmptyHub(chains), txs);
            LedgerSum(h, t) == EscrowSum(h.escrows, t, Every) + Inflated(h, t)
  {
    if txs != [] {
      var h := RunHub(EmptyHub(chains), txs[..|txs| - 1]);
      HubConserves(chains, txs[..|txs| - 1], t);
      if Apply(h, txs[|txs| - 1]).Some? { TxFlow(h, txs[|txs| - 1], t, Every); }
    }
  }
}
