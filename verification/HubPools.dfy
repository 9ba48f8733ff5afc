/** The pools on the hub: their backing by virtual balances, and simulation against execution. */
module HubPools {
  import opened Arith
  import opened Types
  import opened VlpModel
  import opened ReleaseModel
  import opened HubModel
  import opened HubFlow

  /** How far a pool's virtual balance of a token exceeds its recorded reserve. */
  function Excess(h: Hub, v: Address, t: Token): int
    requires v in h.vlps
  {
    Balance(h, HubAccount(v), t) - Get(h.vlps[v].reserves, t)
  }

  /** Every pool is valid and holds at least its reserves, and the registry points at the right pools. */
  ghost predicate HubValid(h: Hub) {
    && (forall v | v in h.vlps :: Valid(h.vlps[v]))
    && (forall v, t | v in h.vlps && h.vlps[v].pair.Has(t) :: Excess(h, v, t) >= 0)
    && (forall p | p in h.vlpOf :: h.vlpOf[p] in h.vlps && h.vlps[h.vlpOf[p]].pair == p)
  }

  /** No pool's account. */
  ghost predicate Outside(h: Hub, u: User) { forall v | v in h.vlps :: u != HubAccount(v) }

  // ----- One hop -----

  lemma TransferBalance(h: Hub, from: User, to: User, tok: Token, amount: Uint128, u: User, t: Token)
    requires Transfer(h, from, to, tok, amount).Some?
    ensures Balance(Transfer(h, from, to, tok, amount).value, u, t)
         == Balance(h, u, t) - When(u == from != to && t == tok, amount) + When(u == to && t == tok, amount)
  {
  }

  lemma PassOnBalance(h: Hub, v: Address, assetIn: Token, o: Swapped, to: User, u: User, t: Token)
    requires assetIn != o.assetOut && PassOn(h, v, assetIn, o, to).Some?
    ensures var me, treasury := HubAccount(v), o.vlp.fee.recipient;
            Balance(PassOn(h, v, assetIn, o, to).value, u, t) == Balance(h, u, t)
              - When(u == me != treasury && t == assetIn, o.euclidFee)
              + When(u == treasury && t == assetIn, o.euclidFee)
              - When(u == me != to && t == o.assetOut, o.amountOut) + When(u == to && t == o.assetOut, o.amountOut)
  {
    hide Transfer, Balance;
    var me, treasury := HubAccount(v), o.vlp.fee.recipient;
    var h1 := if o.euclidFee == 0 then h else Transfer(h, me, treasury, assetIn, o.euclidFee).value;
    if o.euclidFee != 0 { TransferBalance(h, me, treasury, assetIn, o.euclidFee, u, t); }
    TransferBalance(h1, me, to, o.assetOut, o.amountOut, u, t);
  }

  /** What one hop does to the excess of every pool: the hop's pool uses up the input, and only a
      treasury or receiver that is itself a pool gains. */
  lemma HopExcess(h: Hub, v: Address, assetIn: Token, amountIn: Uint128, to: User, w: Address, t: Token)
    requires SwapHop(h, v, assetIn, amountIn, to).Some? && Valid(h.vlps[v]) && w in h.vlps
    ensures var r := SwapHop(h, v, assetIn, amountIn, to).value;
            var held := Balance(h, HubAccount(v), assetIn);
            var me, fee := HubAccount(w), LocalSwap(h.vlps[v], assetIn, amountIn, held).value.euclidFee;
            var twice := if w == v then 2 else 1;
            && w in r.hub.vlps && r.hub.vlps[w].pair == h.vlps[w].pair && Valid(r.hub.vlps[v])
            && r.assetOut != assetIn && r.amountOut > 0
            && Excess(h, v, assetIn) == amountIn && 0 <= fee
            && Excess(r.hub, w, t) == Excess(h, w, t) - When(w == v && t == assetIn, amountIn)
                 + When(h.vlps[v].fee.recipient == me && t == assetIn, twice * fee)
                 + When(to == me && t == r.assetOut, twice * r.amountOut)
  {
    hide LocalSwap, PassOn, StrLe, Sums.Sum, NetLedger;
    var held := Balance(h, HubAccount(v), assetIn);
    var o := LocalSwap(h.vlps[v], assetIn, amountIn, held).value;
    SwapEffect(h.vlps[v], assetIn, amountIn, held);
    PassOnBalance(h.(vlps := h.vlps[v := o.vlp]), v, assetIn, o, to, HubAccount(w), t);
    PassOnFlow(h.(vlps := h.vlps[v := o.vlp]), v, assetIn, o, to, t);
    SwapOtherReserves(h.vlps[v], assetIn, amountIn, held, t);
  }

  lemma SwapOtherReserves(v: Vlp, assetIn: Token, amountIn: Uint128, held: Uint128, t: Token)
    requires LocalSwap(v, assetIn, amountIn, held).Some?
    ensures t != assetIn && t != v.pair.Other(assetIn) ==>
              Get(LocalSwap(v, assetIn, amountIn, held).value.vlp.reserves, t) == Get(v.reserves, t)
  {
  }

  lemma HopElsewhere(h: Hub, v: Address, assetIn: Token, amountIn: Uint128, to: User, w: Address)
    requires SwapHop(h, v, assetIn, amountIn, to).Some? && w in h.vlps && w != v
    ensures var h1 := SwapHop(h, v, assetIn, amountIn, to).value.hub; w in h1.vlps && h1.vlps[w] == h.vlps[w]
  {
    hide LocalSwap;
    var o := LocalSwap(h.vlps[v], assetIn, amountIn, Balance(h, HubAccount(v), assetIn)).value;
    PassOnFlow(h.(vlps := h.vlps[v := o.vlp]), v, assetIn, o, to, assetIn);
  }

  lemma HopKeepsValid(h: Hub, v: Address, assetIn: Token, amountIn: Uint128, to: User)
    requires HubValid(h) && SwapHop(h, v, assetIn, amountIn, to).Some?
    ensures HubValid(SwapHop(h, v, assetIn, amountIn, to).value.hub)
    ensures OnlySwapped(h, SwapHop(h, v, assetIn, amountIn, to).value.hub)
  {
    hide SwapHop, LocalSwap;
    var h1 := SwapHop(h, v, assetIn, amountIn, to).value.hub;
    HopFlow(h, v, assetIn, amountIn, to, assetIn);
    HopNamesPool(h, v, assetIn, amountIn, to);
    forall w | w in h1.vlps ensures Valid(h1.vlps[w]) {
      if w == v {
        HopExcess(h, v, assetIn, amountIn, to, v, assetIn);
      } else {
        HopElsewhere(h, v, assetIn, amountIn, to, w);
      }
    }
    forall w, t | w in h1.vlps && h1.vlps[w].pair.Has(t) ensures Excess(h1, w, t) >= 0 {
      HopExcess(h, v, assetIn, amountIn, to, w, t);
      assert Excess(h, w, t) >= 0;
    }
  }

  lemma HopNamesPool(h: Hub, v: Address, assetIn: Token, amountIn: Uint128, to: User)
    requires SwapHop(h, v, assetIn, amountIn, to).Some?
    ensures v in h.vlps
  {
  }

  // ----- Routes -----

  /** A swap along any route keeps every pool valid and covered. */
  lemma {:induction false} RouteKeepsValid(h: Hub, sender: User, hop: Hop, assetIn: Token, amountIn: Uint128,
                                           minOut: Uint128, next: seq<Hop>)
    requires HubValid(h) && ExecuteSwap(h, sender, hop, assetIn, amountIn, minOut, next).Some?
    ensures var r := ExecuteSwap(h, sender, hop, assetIn, amountIn, minOut, next).value;
            HubValid(r.hub) && OnlySwapped(h, r.hub) && r.amountOut >= minOut
    decreases |next|
  {
    hide SwapHop, HubValid;
    if next == [] {
      HopKeepsValid(h, hop.vlp, assetIn, amountIn, sender);
    } else {
      HopKeepsValid(h, hop.vlp, assetIn, amountIn, HubAccount(next[0].vlp));
      var o := SwapHop(h, hop.vlp, assetIn, amountIn, HubAccount(next[0].vlp)).value;
      RouteKeepsValid(o.hub, sender, next[0], o.assetOut, o.amountOut, minOut, next[1..]);
    }
  }

  /** A route can never visit the same pool twice in a row: passing a payout to itself would leave the
      pool with more than the next hop insists on. */
  lemma RouteMovesOn(h: Hub, sender: User, hop: Hop, assetIn: Token, amountIn: Uint128, minOut: Uint128, next: seq<Hop>)
    requires HubValid(h) && next != []
    requires ExecuteSwap(h, sender, hop, assetIn, amountIn, minOut, next).Some?
    ensures next[0].vlp != hop.vlp
  {
    hide SwapHop, LocalSwap;
    var v := hop.vlp;
    var o := SwapHop(h, v, assetIn, amountIn, HubAccount(next[0].vlp)).value;
    HopNamesPool(h, v, assetIn, amountIn, HubAccount(next[0].vlp));
    if next[0].vlp == v {
      HopExcess(h, v, assetIn, amountIn, HubAccount(v), v, o.assetOut);
      HopPays(h, v, assetIn, amountIn, HubAccount(v));
      assert Excess(h, v, o.assetOut) >= 0;
      var to := if |next| == 1 then sender else HubAccount(next[1].vlp);
      assert SwapHop(o.hub, v, o.assetOut, o.amountOut, to).Some?;
      HopExcess(o.hub, v, o.assetOut, o.amountOut, to, v, o.assetOut);
      assert false;
    }
  }

  lemma HopPays(h: Hub, v: Address, assetIn: Token, amountIn: Uint128, to: User)
    requires SwapHop(h, v, assetIn, amountIn, to).Some?
    ensures var o := SwapHop(h, v, assetIn, amountIn, to).value; h.vlps[v].pair.Has(o.assetOut)
  {
  }

  // ----- Simulation -----

  ghost predicate DistinctPools(hop: Hop, next: seq<Hop>) {
    && (forall i | 0 <= i < |next| :: next[i].vlp != hop.vlp)
    && (forall i, j | 0 <= i < j < |next| :: next[i].vlp != next[j].vlp)
  }

  ghost predicate SamePool(a: map<Address, Vlp>, b: map<Address, Vlp>, v: Address) {
    (v in a <==> v in b) && (v in a ==> a[v] == b[v])
  }

  lemma HopQuote(h: Hub, v: Address, assetIn: Token, amountIn: Uint128, to: User)
    requires SwapHop(h, v, assetIn, amountIn, to).Some?
    ensures var q := SwapQuote(h.vlps[v], assetIn, amountIn);
            var o := SwapHop(h, v, assetIn, amountIn, to).value;
            q.Some? && q.value.assetOut == o.assetOut && q.value.amountOut == o.amountOut
  {
    hide SwapQuote;
  }

  lemma {:induction false} RouteSimulates(h: Hub, base: map<Address, Vlp>, sender: User, hop: Hop, assetIn: Token,
                                          amountIn: Uint128, minOut: Uint128, next: seq<Hop>)
    requires ExecuteSwap(h, sender, hop, assetIn, amountIn, minOut, next).Some?
    requires DistinctPools(hop, next) && SamePool(h.vlps, base, hop.vlp)
    requires forall i | 0 <= i < |next| :: SamePool(h.vlps, base, next[i].vlp)
    ensures var r := ExecuteSwap(h, sender, hop, assetIn, amountIn, minOut, next).value;
            SimulateSwap(base, hop.vlp, assetIn, amountIn, next) == Some((r.assetOut, r.amountOut))
    decreases |next|
  {
    hide SwapHop, SwapQuote;
    var to := if next == [] then sender else HubAccount(next[0].vlp);
    HopNamesPool(h, hop.vlp, assetIn, amountIn, to);
    HopQuote(h, hop.vlp, assetIn, amountIn, to);
    if next != [] {
      var o := SwapHop(h, hop.vlp, assetIn, amountIn, to).value;
      HopFlow(h, hop.vlp, assetIn, amountIn, to, assetIn);
      forall i | 0 <= i < |next| ensures SamePool(o.hub.vlps, base, next[i].vlp) {
        if next[i].vlp in h.vlps { HopElsewhere(h, hop.vlp, assetIn, amountIn, to, next[i].vlp); }
      }
      RouteSimulates(o.hub, base, sender, next[0], o.assetOut, o.amountOut, minOut, next[1..]);
    }
  }

  /** What one pool quotes on the state simulated. */
  function QuoteAt(vlps: map<Address, Vlp>, v: Address, offer: Option<(Token, Uint128)>): Option<(Token, Uint128)> {
    var x :- offer;
    var _ :- Ensure(v in vlps);
    var q :- SwapQuote(vlps[v], x.0, x.1);
    Some((q.assetOut, q.amountOut))
  }

  /** A simulated route is its first pools' simulation handed on to the last pool, every pool as it stands. */
  lemma {:induction false} SimulationHandsOn(vlps: map<Address, Vlp>, v: Address, t: Token, a: Uint128, next: seq<Hop>)
    ensures next == [] ==> SimulateSwap(vlps, v, t, a, next) == QuoteAt(vlps, v, Some((t, a)))
    ensures next != [] ==>
              var l := |next| - 1;
              SimulateSwap(vlps, v, t, a, next) == QuoteAt(vlps, next[l].vlp, SimulateSwap(vlps, v, t, a, next[..l]))
    decreases |next|
  {
    hide SwapQuote;
    if next != [] && v in vlps && SwapQuote(vlps[v], t, a).Some? {
      var q, l := SwapQuote(vlps[v], t, a).value, |next| - 1;
      SimulationHandsOn(vlps, next[0].vlp, q.assetOut, q.amountOut, next[1..]);
      if l > 0 {
        assert next[..l][0] == next[0] && next[..l][1..] == next[1..][..l - 1] && next[1..][l - 1] == next[l];
      } else {
        assert next[..0] == [] && next[1..] == [];
      }
    }
  }

  /** The router answers a simulation exactly when it finds the route and the route ends in the token asked for. */
  lemma RouterSimulationLaw(h: Hub, assetIn: Token, amountIn: Uint128, assetOut: Token, swaps: seq<SwapPair>)
    ensures var r := RouterSimulateSwap(h, assetIn, amountIn, assetOut, swaps);
            && (r.Some? <==>
                  && Route(h, assetIn, assetOut, swaps).Some?
                  && var hops := Route(h, assetIn, assetOut, swaps).value;
                  && hops != []
                  && var sim := SimulateSwap(h.vlps, hops[0].vlp, assetIn, amountIn, hops[1..]);
                  sim.Some? && sim.value.0 == assetOut)
            && (r.Some? ==>
                  var hops := Route(h, assetIn, assetOut, swaps).value;
                  SimulateSwap(h.vlps, hops[0].vlp, assetIn, amountIn, hops[1..]) == Some((assetOut, r.value)))
  {
    hide Route, SimulateSwap;
  }

  /** For a route over pairwise distinct pools a successful swap pays what the router's simulation
      promised on the state before it, and at least the requested minimum. */
  lemma SwapMatchesSimulation(h: Hub, sender: User, assetIn: Token, amountIn: Uint128, assetOut: Token,
                              minOut: Uint128, swaps: seq<SwapPair>, rs: seq<Receiver>)
    requires SwapTx(h, sender, assetIn, amountIn, assetOut, minOut, swaps, rs).Some?
    requires var hops := ValidateSwapPairs(h.vlpOf, swaps);
             hops.Some? && hops.value != [] && DistinctPools(hops.value[0], hops.value[1..])
    ensures var r := SwapTx(h, sender, assetIn, amountIn, assetOut, minOut, swaps, rs).value;
            && r.ack.SwapAck? && r.ack.amountOut >= minOut
            && RouterSimulateSwap(h, assetIn, amountIn, assetOut, swaps) == Some(r.ack.amountOut)
  {
    hide ExecuteSwap, SimulateSwap;
    var hops := ValidateSwapPairs(h.vlpOf, swaps).value;
    var h1 := CreditEscrow(h, assetIn, sender.chain, amountIn).value;
    var h2 := Mint(h1, HubAccount(hops[0].vlp), assetIn, amountIn).value;
    RouteSimulates(h2, h.vlps, sender, hops[0], assetIn, amountIn, minOut, hops[1..]);
  }

  /** The minimum the router checks again on the reply is already guaranteed by the last pool, so that
      check can never be the one that fails. */
  lemma {:induction false} MinimumAlreadyMet(h: Hub, sender: User, hop: Hop, assetIn: Token, amountIn: Uint128,
                                             minOut: Uint128, next: seq<Hop>)
    requires ExecuteSwap(h, sender, hop, assetIn, amountIn, minOut, next).Some?
    ensures ExecuteSwap(h, sender, hop, assetIn, amountIn, minOut, next).value.amountOut >= minOut
    decreases |next|
  {
    hide SwapHop;
    if next != [] {
      var o := SwapHop(h, hop.vlp, assetIn, amountIn, HubAccount(next[0].vlp)).value;
      MinimumAlreadyMet(o.hub, sender, next[0], o.assetOut, o.amountOut, minOut, next[1..]);
    }
  }

  // ----- Pool backing through every transaction -----

  /** The accounts a transaction takes from are no pool's: packets come from other chains' users, and a
      pool contract never withdraws or transfers on its own. */
  ghost predicate Proper(h: Hub, tx: HubTx) {
    match tx
    case RemoveLiquidity(sender, _, _, _) => Outside(h, sender)
    case Swap(sender, _, _, _, _, _, _) => Outside(h, sender)
    case Withdraw(sender, _, _, _) => Outside(h, sender)
    case UserTransfer(from, _, _, _) => Outside(h, from)
    case _ => true
  }

  /** h1 has the same pools as h and no pool's account lost anything. */
  ghost predicate PoolsKept(h: Hub, h1: Hub) {
    && h1.vlps == h.vlps && h1.vlpOf == h.vlpOf
    && forall v, t | v in h.vlps :: Balance(h1, HubAccount(v), t) >= Balance(h, HubAccount(v), t)
  }

  lemma KeptIsValid(h: Hub, h1: Hub)
    requires HubValid(h) && PoolsKept(h, h1)
    ensures HubValid(h1)
  {
    forall v, t | v in h1.vlps && h1.vlps[v].pair.Has(t) ensures Excess(h1, v, t) >= 0 {
      assert Excess(h, v, t) >= 0;
    }
  }

  lemma ReleaseTouches(h: Hub, sender: User, tok: Token, asked: Option<Uint128>, rs: seq<Receiver>, u: User, t: Token)
    requires ReleaseEscrow(h, sender, tok, asked, rs).Some?
    ensures var h1 := ReleaseEscrow(h, sender, tok, asked, rs).value.0;
            && (u != sender ==> Balance(h1, u, t) == Balance(h, u, t))
            && h1 == h.(balances := h1.balances, escrows := h1.escrows)
  {
    hide ReleaseLoop;
  }

  lemma ReleaseBothTouches(h: Hub, sender: User, pair: Pair, p1: Uint128, p2: Uint128, rs: seq<Receiver>, u: User,
                           t: Token)
    requires ReleaseBoth(h, sender, pair, p1, p2, rs).Some?
    ensures var h1 := ReleaseBoth(h, sender, pair, p1, p2, rs).value.0;
            && (u != sender ==> Balance(h1, u, t) == Balance(h, u, t))
            && h1 == h.(balances := h1.balances, escrows := h1.escrows)
  {
    hide ReleaseEscrow;
    ReleaseTouches(h, sender, pair.token1, Some(p1), rs, u, t);
    var h1 := ReleaseEscrow(h, sender, pair.token1, Some(p1), rs).value.0;
    ReleaseTouches(h1, sender, pair.token2, Some(p2), rs, u, t);
  }

  lemma FundTouches(h: Hub, v: Address, p: Pair, c: ChainUid, a1: Uint128, a2: Uint128, u: User, t: Token)
    requires v in h.vlps && p.token1 != p.token2 && FundPool(h, v, p, c, a1, a2).Some?
    ensures var h1 := FundPool(h, v, p, c, a1, a2).value;
            && Balance(h1, u, t)
               == Balance(h, u, t) + When(u == HubAccount(v), When(t == p.token1, a1) + When(t == p.token2, a2))
            && h1 == h.(balances := h1.balances, escrows := h1.escrows)
  {
  }

  lemma AddReserves(v: Vlp, c: ChainUid, a1: Uint128, a2: Uint128, slippage: nat, t: Token)
    requires v.pair.token1 != v.pair.token2 && VlpModel.AddLiquidity(v, c, a1, a2, slippage).Some?
    ensures var w := VlpModel.AddLiquidity(v, c, a1, a2, slippage).value.0;
            && w.pair == v.pair && w.fee == v.fee
            && Get(w.reserves, t) == Get(v.reserves, t) + When(t == v.pair.token1, a1) + When(t == v.pair.token2, a2)
  {
    hide AddQuote;
  }

  lemma RemoveReserves(v: Vlp, c: ChainUid, lp: Uint128, t: Token)
    requires v.pair.token1 != v.pair.token2 && VlpModel.RemoveLiquidity(v, c, lp).Some?
    ensures var r := VlpModel.RemoveLiquidity(v, c, lp).value;
            && r.vlp.pair == v.pair && r.vlp.fee == v.fee
            && Get(r.vlp.reserves, t)
               == Get(v.reserves, t) - When(t == v.pair.token1, r.paid1) - When(t == v.pair.token2, r.paid2)
  {
    hide PoolMath.RemovePayout;
  }

  lemma PayBothTouches(h: Hub, v: Address, p: Pair, to: User, p1: Uint128, p2: Uint128, u: User, t: Token)
    requires to != HubAccount(v) && p.token1 != p.token2 && PayBoth(h, v, p, to, p1, p2).Some?
    ensures var h1 := PayBoth(h, v, p, to, p1, p2).value;
            var paid := When(t == p.token1, p1) + When(t == p.token2, p2);
            && Balance(h1, u, t) == Balance(h, u, t) - When(u == HubAccount(v), paid) + When(u == to, paid)
            && h1 == h.(balances := h1.balances) && h1.inflated == h.inflated
  {
  }

  /** Adding and removing liquidity move a pool's balance and its reserve by the same amounts. */
  lemma AddExcess(h: Hub, sender: User, pair: Pair, a1: Uint128, a2: Uint128, slippage: nat, w: Address, t: Token)
    requires HubValid(h) && AddTx(h, sender, pair, a1, a2, slippage).Some? && w in h.vlps
    ensures var h1 := AddTx(h, sender, pair, a1, a2, slippage).value.hub;
            && h1.vlps.Keys == h.vlps.Keys && h1.vlpOf == h.vlpOf && h1.inflated == h.inflated
            && Valid(h1.vlps[w]) && h1.vlps[w].pair == h.vlps[w].pair && h1.vlps[w].fee == h.vlps[w].fee
            && Excess(h1, w, t) == Excess(h, w, t)
  {
    hide VlpModel.AddLiquidity, FundPool, StrLe, Sums.Sum;
    var v := h.vlpOf[pair.Tuple()];
    assert Valid(h.vlps[v]) && Valid(h.vlps[w]);
    FundTouches(h, v, h.vlps[v].pair, sender.chain, a1, a2, HubAccount(w), t);
    AddReserves(h.vlps[v], sender.chain, a1, a2, slippage, t);
    AddKeepsBooks(h.vlps[v], sender.chain, a1, a2, slippage);
  }

  lemma RemoveExcess(h: Hub, sender: User, pair: Pair, lp: Uint128, rs: seq<Receiver>, w: Address, t: Token)
    requires HubValid(h) && Outside(h, sender) && RemoveTx(h, sender, pair, lp, rs).Some? && w in h.vlps
    ensures var h1 := RemoveTx(h, sender, pair, lp, rs).value.hub;
            && h1.vlps.Keys == h.vlps.Keys && h1.vlpOf == h.vlpOf && h1.inflated == h.inflated
            && Valid(h1.vlps[w]) && h1.vlps[w].pair == h.vlps[w].pair && h1.vlps[w].fee == h.vlps[w].fee
            && Excess(h1, w, t) == Excess(h, w, t)
  {
    hide VlpModel.RemoveLiquidity, PayBoth, ReleaseBoth, StrLe, Sums.Sum;
    var v := h.vlpOf[pair.Tuple()];
    assert Valid(h.vlps[v]) && Valid(h.vlps[w]);
    var p := h.vlps[v].pair;
    var r := VlpModel.RemoveLiquidity(h.vlps[v], sender.chain, lp).value;
    var h0 := h.(vlps := h.vlps[v := r.vlp]);
    var h1 := PayBoth(h0, v, p, sender, r.paid1, r.paid2).value;
    RemoveSucceedsIff(h.vlps[v], sender.chain, lp);
    RemoveReserves(h.vlps[v], sender.chain, lp, t);
    PayBothTouches(h0, v, p, sender, r.paid1, r.paid2, HubAccount(w), t);
    ReleaseBothTouches(h1, sender, pair, r.paid1, r.paid2, rs, HubAccount(w), t);
  }

  /** Same pools with the same settings, still valid, with every excess and the inflation unchanged. */
  ghost predicate Steady(h: Hub, h1: Hub) {
    && h1.vlps.Keys == h.vlps.Keys && h1.vlpOf == h.vlpOf && h1.inflated == h.inflated
    && (forall w | w in h.vlps ::
          Valid(h1.vlps[w]) && h1.vlps[w].pair == h.vlps[w].pair && h1.vlps[w].fee == h.vlps[w].fee)
    && (forall w, t | w in h.vlps :: Excess(h1, w, t) == Excess(h, w, t))
  }

  lemma SteadyIsValid(h: Hub, h1: Hub)
    requires HubValid(h) && Steady(h, h1)
    ensures HubValid(h1)
  {
    forall v, t | v in h1.vlps && h1.vlps[v].pair.Has(t) ensures Excess(h1, v, t) >= 0 {
      assert Excess(h, v, t) >= 0;
    }
  }

  lemma AddSteady(h: Hub, sender: User, pair: Pair, a1: Uint128, a2: Uint128, slippage: nat)
    requires HubValid(h) && AddTx(h, sender, pair, a1, a2, slippage).Some?
    ensures Steady(h, AddTx(h, sender, pair, a1, a2, slippage).value.hub)
  {
    hide AddTx, Valid;
    var h1 := AddTx(h, sender, pair, a1, a2, slippage).value.hub;
    AddTxNamesPool(h, sender, pair, a1, a2, slippage);
    AddExcess(h, sender, pair, a1, a2, slippage, h.vlpOf[pair.Tuple()], "");
    forall w, t | w in h.vlps ensures Excess(h1, w, t) == Excess(h, w, t) {
      AddExcess(h, sender, pair, a1, a2, slippage, w, t);
    }
    forall w | w in h.vlps
      ensures Valid(h1.vlps[w]) && h1.vlps[w].pair == h.vlps[w].pair && h1.vlps[w].fee == h.vlps[w].fee
    {
      AddExcess(h, sender, pair, a1, a2, slippage, w, "");
    }
  }

  lemma RemoveSteady(h: Hub, sender: User, pair: Pair, lp: Uint128, rs: seq<Receiver>)
    requires HubValid(h) && Outside(h, sender) && RemoveTx(h, sender, pair, lp, rs).Some?
    ensures Steady(h, RemoveTx(h, sender, pair, lp, rs).value.hub)
  {
    hide RemoveTx, Valid;
    var h1 := RemoveTx(h, sender, pair, lp, rs).value.hub;
    RemoveTxNamesPool(h, sender, pair, lp, rs);
    RemoveExcess(h, sender, pair, lp, rs, h.vlpOf[pair.Tuple()], "");
    forall w, t | w in h.vlps ensures Excess(h1, w, t) == Excess(h, w, t) {
      RemoveExcess(h, sender, pair, lp, rs, w, t);
    }
    forall w | w in h.vlps
      ensures Valid(h1.vlps[w]) && h1.vlps[w].pair == h.vlps[w].pair && h1.vlps[w].fee == h.vlps[w].fee
    {
      RemoveExcess(h, sender, pair, lp, rs, w, "");
    }
  }

  lemma SwapTxKeepsValid(h: Hub, sender: User, assetIn: Token, amountIn: Uint128, assetOut: Token, minOut: Uint128,
                         swaps: seq<SwapPair>, rs: seq<Receiver>)
    requires HubValid(h) && Outside(h, sender)
        && SwapTx(h, sender, assetIn, amountIn, assetOut, minOut, swaps, rs).Some?
    ensures HubValid(SwapTx(h, sender, assetIn, amountIn, assetOut, minOut, swaps, rs).value.hub)
  {
    hide ExecuteSwap, ReleaseEscrow, HubValid, Route;
    var hops := Route(h, assetIn, assetOut, swaps).value;
    var h1 := CreditEscrow(h, assetIn, sender.chain, amountIn).value;
    var h2 := Mint(h1, HubAccount(hops[0].vlp), assetIn, amountIn).value;
    KeptIsValid(h, h2);
    var o := ExecuteSwap(h2, sender, hops[0], assetIn, amountIn, minOut, hops[1..]).value;
    RouteKeepsValid(h2, sender, hops[0], assetIn, amountIn, minOut, hops[1..]);
    ReleaseKeepsValid(o.hub, sender, assetOut, Some(o.amountOut), rs);
  }

  lemma ReleaseKeepsValid(h: Hub, sender: User, tok: Token, asked: Option<Uint128>, rs: seq<Receiver>)
    requires HubValid(h) && Outside(h, sender) && ReleaseEscrow(h, sender, tok, asked, rs).Some?
    ensures HubValid(ReleaseEscrow(h, sender, tok, asked, rs).value.0)
  {
    hide ReleaseEscrow;
    var h1 := ReleaseEscrow(h, sender, tok, asked, rs).value.0;
    ReleaseTouches(h, sender, tok, asked, rs, sender, tok);
    forall v, t | v in h.vlps ensures Balance(h1, HubAccount(v), t) >= Balance(h, HubAccount(v), t) {
      ReleaseTouches(h, sender, tok, asked, rs, HubAccount(v), t);
    }
    KeptIsValid(h, h1);
  }

  lemma SetupKeepsValid(h: Hub, tx: HubTx)
    requires HubValid(h) && (tx.SetFee? || tx.CreatePool? || tx.CreateEscrow?) && Apply(h, tx).Some?
    ensures HubValid(Apply(h, tx).value.hub)
  {
    hide CreatePoolTx, HubValid;
    if tx.CreatePool? {
      CreatePoolKeepsValid(h, tx.sender, tx.pair, tx.newVlp, tx.admin);
    } else if tx.SetFee? {
      FeeKeepsValid(h, tx.vlp, UpdateFee(h.vlps[tx.vlp], tx.lpBps, tx.euclidBps, tx.recipient).value);
    } else {
      KeptIsValid(h, Apply(h, tx).value.hub);
    }
  }

  lemma FeeKeepsValid(h: Hub, v: Address, w: Vlp)
    requires HubValid(h) && v in h.vlps && w == h.vlps[v].(fee := w.fee)
    requires FeesWithin(w.fee)
    ensures HubValid(h.(vlps := h.vlps[v := w]))
  {
    PoolUpdated(h, v, w);
  }

  lemma CreatePoolKeepsValid(h: Hub, sender: User, pair: Pair, newVlp: Address, admin: Address)
    requires HubValid(h) && CreatePoolTx(h, sender, pair, newVlp, admin).Some?
    ensures HubValid(CreatePoolTx(h, sender, pair, newVlp, admin).value.hub)
  {
    hide Valid, TokenUsable, HubValid;
    var h1 := CreatePoolTx(h, sender, pair, newVlp, admin).value.hub;
    if pair in h.vlpOf {
      var v := h.vlpOf[pair];
      RegisterKeepsValid(h, v, sender.chain, pair);
    } else {
      var fee := Fee(10, 10, HubAccount(admin));
      NewPoolIsValid(pair, fee, sender.chain);
      PoolAdded(h, newVlp, RegisterPool(Instantiate(pair, fee).value, sender.chain, pair).value);
    }
  }

  lemma RegisterKeepsValid(h: Hub, v: Address, c: ChainUid, pair: Pair)
    requires HubValid(h) && v in h.vlps && RegisterPool(h.vlps[v], c, pair).Some?
    ensures HubValid(h.(vlps := h.vlps[v := RegisterPool(h.vlps[v], c, pair).value]))
  {
    StepKeepsValid(h.vlps[v], Register(c, pair));
    PoolUpdated(h, v, RegisterPool(h.vlps[v], c, pair).value);
  }

  lemma NewPoolIsValid(pair: Pair, fee: Fee, c: ChainUid)
    requires pair.Sorted() && FeesWithin(fee)
    ensures Instantiate(pair, fee).Some? && RegisterPool(Instantiate(pair, fee).value, c, pair).Some?
    ensures Valid(RegisterPool(Instantiate(pair, fee).value, c, pair).value)
  {
    StepKeepsValid(Instantiate(pair, fee).value, Register(c, pair));
  }

  lemma PoolUpdated(h: Hub, v: Address, w: Vlp)
    requires HubValid(h) && v in h.vlps && Valid(w) && w.pair == h.vlps[v].pair && w.reserves == h.vlps[v].reserves
    ensures HubValid(h.(vlps := h.vlps[v := w]))
  {
    hide Valid;
    var h1 := h.(vlps := h.vlps[v := w]);
    forall x, t | x in h1.vlps && h1.vlps[x].pair.Has(t) ensures Excess(h1, x, t) >= 0 {
      assert Excess(h, x, t) >= 0;
    }
  }

  lemma PoolAdded(h: Hub, v: Address, w: Vlp)
    requires HubValid(h) && v !in h.vlps && Valid(w) && forall t :: Get(w.reserves, t) == 0
    ensures HubValid(h.(vlps := h.vlps[v := w], vlpOf := h.vlpOf[w.pair := v]))
  {
    hide Valid;
    var h1 := h.(vlps := h.vlps[v := w], vlpOf := h.vlpOf[w.pair := v]);
    forall x, t | x in h1.vlps && h1.vlps[x].pair.Has(t) ensures Excess(h1, x, t) >= 0 {
      if x != v { assert Excess(h, x, t) >= 0; }
    }
  }

  /** Pool backing: whatever the transaction, every pool stays valid and covered by its virtual balances. */
  lemma TxKeepsValid(h: Hub, tx: HubTx)
    requires HubValid(h) && Proper(h, tx) && Apply(h, tx).Some?
    ensures HubValid(Apply(h, tx).value.hub)
  {
    hide AddTx, RemoveTx, SwapTx, CreatePoolTx, ReleaseEscrow, ExecuteSwap, HubValid;
    var h1 := Apply(h, tx).value.hub;
    match tx
    case AddLiquidity(sender, pair, a1, a2, slippage) =>
      AddSteady(h, sender, pair, a1, a2, slippage);
      SteadyIsValid(h, h1);
    case RemoveLiquidity(sender, pair, lp, rs) =>
      RemoveSteady(h, sender, pair, lp, rs);
      SteadyIsValid(h, h1);
    case Swap(sender, assetIn, amountIn, assetOut, minOut, swaps, rs) =>
      SwapTxKeepsValid(h, sender, assetIn, amountIn, assetOut, minOut, swaps, rs);
    case Withdraw(sender, token, asked, rs) => ReleaseKeepsValid(h, sender, token, asked, rs);
    case ReleaseFailed(r) => KeptIsValid(h, h1);
    case UserTransfer(from, to, token, amount) => KeptIsValid(h, h1);
    case DirectSwap(sender, hop, assetIn, amountIn, minOut, next) =>
      RouteKeepsValid(h, sender, hop, assetIn, amountIn, minOut, next);
    case _ => SetupKeepsValid(h, tx);
  }

  lemma AddTxNamesPool(h: Hub, sender: User, pair: Pair, a1: Uint128, a2: Uint128, slippage: nat)
    requires AddTx(h, sender, pair, a1, a2, slippage).Some?
    ensures pair.Tuple() in h.vlpOf && h.vlpOf[pair.Tuple()] in h.vlps
  {
    hide VlpModel.AddLiquidity, FundPool;
  }

  lemma RemoveTxNamesPool(h: Hub, sender: User, pair: Pair, lp: Uint128, rs: seq<Receiver>)
    requires RemoveTx(h, sender, pair, lp, rs).Some?
    ensures pair.Tuple() in h.vlpOf && h.vlpOf[pair.Tuple()] in h.vlps
  {
    hide VlpModel.RemoveLiquidity, PayBoth, ReleaseBoth;
  }
}
