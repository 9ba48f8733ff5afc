/** What each hub transaction does to an account, to its packets and to the registry, and exactly when it succeeds. */
module HubEffects {
  import opened Arith
  import opened Types
  import opened VlpModel
  import opened ReleaseModel
  import opened HubModel
  import opened HubFlow
  import opened HubPools
  import opened HubRemoval
  import opened HubExcess
  import PoolLaws

  // ----- The ledger's three messages -----

  /** A mint succeeds for a positive amount that fits, and raises one balance. */
  lemma MintLaw(h: Hub, u: User, t: Token, a: Uint128, x: User, y: Token)
    ensures Mint(h, u, t, a).Some? <==> a > 0 && Balance(h, u, t) + a <= U128_MAX
    ensures Mint(h, u, t, a).Some? ==>
              var h1 := Mint(h, u, t, a).value;
              && h1 == h.(balances := h1.balances)
              && Balance(h1, x, y) == Balance(h, x, y) + When(x == u && y == t, a)
  {
  }

  /** A burn succeeds for a positive amount that is there, and lowers one balance. */
  lemma BurnLaw(h: Hub, u: User, t: Token, a: Uint128, x: User, y: Token)
    ensures Burn(h, u, t, a).Some? <==> 0 < a <= Balance(h, u, t)
    ensures Burn(h, u, t, a).Some? ==>
              var h1 := Burn(h, u, t, a).value;
              && h1 == h.(balances := h1.balances)
              && Balance(h1, x, y) == Balance(h, x, y) - When(x == u && y == t, a)
  {
  }

  /** A transfer succeeds exactly when the amount is there and fits, and moves one token between two balances; to
      oneself it adds. */
  lemma TransferLaw(h: Hub, from: User, to: User, t: Token, a: Uint128, x: User, y: Token)
    ensures Transfer(h, from, to, t, a).Some? <==> a <= Balance(h, from, t) && Balance(h, to, t) + a <= U128_MAX
    ensures Transfer(h, from, to, t, a).Some? ==>
              var h1 := Transfer(h, from, to, t, a).value;
              && h1 == h.(balances := h1.balances, inflated := h1.inflated)
              && Balance(h1, x, y) == Balance(h, x, y) - When(x == from != to && y == t, a) + When(x == to && y == t, a)
  {
  }

  // ----- Releases -----

  /** Packet i of a release names the account it was taken from, and carries the i-th share of the list to that
      entry's own chain and address. */
  lemma ReleaseSends(h: Hub, sender: User, tok: Token, asked: Option<Uint128>, rs: seq<Receiver>, i: nat)
    requires ReleaseEscrow(h, sender, tok, asked, rs).Some?
    ensures var out := ReleaseEscrow(h, sender, tok, asked, rs).value.1;
            var amount := if asked.Some? then asked.value else Balance(h, sender, tok);
            var draws := Served(h.escrows, tok, amount, rs, |rs|);
            && |out| == |draws|
            && (i < |out| ==> out[i].sender == sender && out[i].token == tok && out[i].amount == draws[i].amount
                              && User(out[i].chain, out[i].to) == draws[i].receiver.user)
  {
    hide ReleaseLoop, Served, DrawTotal;
    ReleaseServes(h.escrows, h.chains, tok, asked.GetOr(Balance(h, sender, tok)), rs);
  }

  /** A withdrawal succeeds as its release does, and takes what the listed chains can bear from its own account. */
  lemma WithdrawLeaves(h: Hub, u: User, tok: Token, asked: Option<Uint128>, rs: seq<Receiver>, x: User, t: Token)
    ensures var r := Apply(h, HubTx.Withdraw(u, tok, asked, rs));
            var amount := if asked.Some? then asked.value else Balance(h, u, tok);
            && (r.Some? <==> amount <= Balance(h, u, tok) && Registered(h, tok, amount, rs))
            && (r.Some? ==>
                  && r.value.ack == OtherAck
                  && Balance(r.value.hub, x, t)
                     == Balance(h, x, t) - When(x == u && t == tok, Min(amount, Capacity(h.escrows, tok, rs))))
  {
    hide ReleaseEscrow, Capacity, Reaches;
    ReleaseFlow(h, u, tok, asked, rs, tok, Every);
    if ReleaseEscrow(h, u, tok, asked, rs).Some? {
      ReleaseTakes(h, u, tok, asked, rs, t);
      ReleaseTouches(h, u, tok, asked, rs, x, t);
    }
  }

  /** Every chain a release of the amount reaches is registered. */
  ghost predicate Registered(h: Hub, tok: Token, amount: Uint128, rs: seq<Receiver>) {
    forall i | 0 <= i < |rs| :: rs[i].user.chain in h.chains || !Reaches(h.escrows, tok, amount, rs, i)
  }

  // ----- Routes -----

  /** A route is found exactly when it has a first token in, a last token out and a registered pool for each leg, and
      it visits those pools in order. */
  lemma RouteLaw(h: Hub, assetIn: Token, assetOut: Token, swaps: seq<SwapPair>)
    ensures Route(h, assetIn, assetOut, swaps).Some? <==>
              && swaps != [] && swaps[0].tokenIn == assetIn && swaps[|swaps| - 1].tokenOut == assetOut
              && (forall i | 0 <= i < |swaps| :: Listed(h.vlpOf, swaps[i]))
    ensures Route(h, assetIn, assetOut, swaps).Some? ==>
              var hops := Route(h, assetIn, assetOut, swaps).value;
              && |hops| == |swaps|
              && (forall i | 0 <= i < |swaps| ::
                    Listed(h.vlpOf, swaps[i]) && hops[i] == Hop(h.vlpOf[Leg(swaps[i])], swaps[i].fail))
  {
    ValidateLaw(h.vlpOf, swaps);
  }

  /** The pair of a leg, in the registry's order. */
  function Leg(s: SwapPair): Pair {
    if StrLe(s.tokenIn, s.tokenOut) then Pair(s.tokenIn, s.tokenOut) else Pair(s.tokenOut, s.tokenIn)
  }

  predicate Listed(vlpOf: map<Pair, Address>, s: SwapPair) { s.tokenIn != s.tokenOut && Leg(s) in vlpOf }

  lemma {:induction false} ValidateLaw(vlpOf: map<Pair, Address>, swaps: seq<SwapPair>)
    ensures ValidateSwapPairs(vlpOf, swaps).Some? <==> forall i | 0 <= i < |swaps| :: Listed(vlpOf, swaps[i])
    ensures ValidateSwapPairs(vlpOf, swaps).Some? ==>
              var hops := ValidateSwapPairs(vlpOf, swaps).value;
              && |hops| == |swaps|
              && (forall i | 0 <= i < |swaps| ::
                    Listed(vlpOf, swaps[i]) && hops[i] == Hop(vlpOf[Leg(swaps[i])], swaps[i].fail))
  {
    hide StrLe;
    if swaps != [] {
      ValidateLaw(vlpOf, swaps[1..]);
      assert Listed(vlpOf, swaps[0]) <==> NewPair(swaps[0].tokenIn, swaps[0].tokenOut).Some? && Leg(swaps[0]) in vlpOf;
      forall i | 1 <= i < |swaps| ensures swaps[i] == swaps[1..][i - 1] {}
    }
  }

  /** A leg marked to fail refuses the whole route. */
  lemma {:induction false} MarkedToFail(h: Hub, sender: User, hop: Hop, assetIn: Token, amountIn: Uint128,
                                        minOut: Uint128, next: seq<Hop>, k: nat)
    requires k <= |next| && (if k == 0 then hop.fail else next[k - 1].fail)
    ensures ExecuteSwap(h, sender, hop, assetIn, amountIn, minOut, next).None?
    decreases |next|
  {
    hide SwapHop;
    if k > 0 {
      var r := SwapHop(h, hop.vlp, assetIn, amountIn, HubAccount(next[0].vlp));
      if r.Some? {
        MarkedToFail(r.value.hub, sender, next[0], r.value.assetOut, r.value.amountOut, minOut, next[1..], k - 1);
      }
    }
  }

  /** One pool's part in a route succeeds exactly when the pool's own swap does and both payments fit. */
  lemma HopSucceedsIff(h: Hub, v: Address, assetIn: Token, amountIn: Uint128, to: User)
    requires HubValid(h) && v in h.vlps
    ensures var o := LocalSwap(h.vlps[v], assetIn, amountIn, Balance(h, HubAccount(v), assetIn));
            SwapHop(h, v, assetIn, amountIn, to).Some? <==>
              && o.Some?
              && (o.value.euclidFee > 0 ==>
                    Balance(h, h.vlps[v].fee.recipient, assetIn) + o.value.euclidFee <= U128_MAX)
              && Balance(h, to, o.value.assetOut) + o.value.amountOut <= U128_MAX
  {
    hide LocalSwap, Transfer, HubValid, Balance, StrLe;
    var me, held := HubAccount(v), Balance(h, HubAccount(v), assetIn);
    var o := LocalSwap(h.vlps[v], assetIn, amountIn, held);
    if o.Some? {
      var s := o.value;
      PoolValid(h, v);
      SwapEffect(h.vlps[v], assetIn, amountIn, held);
      assert s.amountOut <= Balance(h, me, s.assetOut) by { PoolCovers(h, v, s.assetOut); }
      var h0 := h.(vlps := h.vlps[v := s.vlp]);
      SameBalance(h, h0);
      TransferLaw(h0, me, s.vlp.fee.recipient, assetIn, s.euclidFee, me, s.assetOut);
      TransferLaw(h0, me, s.vlp.fee.recipient, assetIn, s.euclidFee, to, s.assetOut);
      var h1 := if s.euclidFee == 0 then Some(h0) else Transfer(h0, me, s.vlp.fee.recipient, assetIn, s.euclidFee);
      if h1.Some? { TransferLaw(h1.value, me, to, s.assetOut, s.amountOut, me, assetIn); }
    }
  }

  lemma SameBalance(h: Hub, h1: Hub)
    requires h1.balances == h.balances
    ensures forall u, t :: Balance(h1, u, t) == Balance(h, u, t)
  {
  }

  lemma PoolCovers(h: Hub, v: Address, t: Token)
    requires HubValid(h) && v in h.vlps && h.vlps[v].pair.Has(t)
    ensures Balance(h, HubAccount(v), t) >= Get(h.vlps[v].reserves, t)
  {
    Covered(h, v, t);
  }

  /** The treasury fees a route pays to an account. */
  ghost function Income(h: Hub, sender: User, hop: Hop, assetIn: Token, amountIn: Uint128, next: seq<Hop>,
                        u: User, t: Token): int
    decreases |next|
  {
    var to := if next == [] then sender else HubAccount(next[0].vlp);
    match SwapHop(h, hop.vlp, assetIn, amountIn, to)
    case None => 0
    case Some(o) =>
      FeeTo(h, hop.vlp, assetIn, amountIn, u, t)
      + (if next == [] then 0 else Income(o.hub, sender, next[0], o.assetOut, o.amountOut, next[1..], u, t))
  }

  ghost function FeeTo(h: Hub, v: Address, assetIn: Token, amountIn: Uint128, u: User, t: Token): int {
    if v !in h.vlps then 0 else
    match LocalSwap(h.vlps[v], assetIn, amountIn, Balance(h, HubAccount(v), assetIn))
    case None => 0
    case Some(o) => When(h.vlps[v].fee.recipient == u && t == assetIn, o.euclidFee)
  }

  lemma HopPaysTo(h: Hub, v: Address, assetIn: Token, amountIn: Uint128, to: User, u: User, t: Token)
    requires HubValid(h) && SwapHop(h, v, assetIn, amountIn, to).Some? && u != HubAccount(v)
    ensures var o := SwapHop(h, v, assetIn, amountIn, to).value;
            Balance(o.hub, u, t)
            == Balance(h, u, t) + FeeTo(h, v, assetIn, amountIn, u, t) + When(u == to && t == o.assetOut, o.amountOut)
  {
    hide LocalSwap, PassOn, HubValid;
    HopNamesPool(h, v, assetIn, amountIn, to);
    PoolValid(h, v);
    var held := Balance(h, HubAccount(v), assetIn);
    var o := LocalSwap(h.vlps[v], assetIn, amountIn, held).value;
    SwapEffect(h.vlps[v], assetIn, amountIn, held);
    PassOnBalance(h.(vlps := h.vlps[v := o.vlp]), v, assetIn, o, to, u, t);
  }

  /** What a route does to an account that is no pool's: its payout goes to the sender and its treasury fees to the
      treasuries, and nobody else's balance changes. */
  lemma {:induction false} RoutePays(h: Hub, sender: User, hop: Hop, assetIn: Token, amountIn: Uint128, minOut: Uint128,
                                     next: seq<Hop>, u: User, t: Token)
    requires HubValid(h) && Outside(h, u) && ExecuteSwap(h, sender, hop, assetIn, amountIn, minOut, next).Some?
    ensures var o := ExecuteSwap(h, sender, hop, assetIn, amountIn, minOut, next).value;
            Balance(o.hub, u, t) == Balance(h, u, t) + Income(h, sender, hop, assetIn, amountIn, next, u, t)
                                    + When(u == sender && t == o.assetOut, o.amountOut)
    decreases |next|
  {
    hide SwapHop, HubValid, FeeTo, Balance;
    var to := if next == [] then sender else HubAccount(next[0].vlp);
    HopNamesPool(h, hop.vlp, assetIn, amountIn, to);
    HopPaysTo(h, hop.vlp, assetIn, amountIn, to, u, t);
    if next != [] {
      HopKeepsValid(h, hop.vlp, assetIn, amountIn, to);
      var o := SwapHop(h, hop.vlp, assetIn, amountIn, to).value;
      SwapNeedsExcess(o.hub, sender, next[0], o.assetOut, o.amountOut, minOut, next[1..]);
      RoutePays(o.hub, sender, next[0], o.assetOut, o.amountOut, minOut, next[1..], u, t);
    }
  }

  // ----- Adding liquidity -----

  lemma FundIff(h: Hub, v: Address, p: Pair, c: ChainUid, a1: Uint128, a2: Uint128)
    requires v in h.vlps && p.token1 != p.token2
    ensures FundPool(h, v, p, c, a1, a2).Some? <==> Fundable(h, v, p, c, a1, a2)
  {
  }

  /** Both amounts are positive and fit the chain's escrow entries and the pool's account. */
  predicate Fundable(h: Hub, v: Address, p: Pair, c: ChainUid, a1: Uint128, a2: Uint128) {
    && a1 > 0 && a2 > 0
    && Get(h.escrows, EscrowKey(p.token1, c)) + a1 <= U128_MAX
    && Get(h.escrows, EscrowKey(p.token2, c)) + a2 <= U128_MAX
    && Balance(h, HubAccount(v), p.token1) + a1 <= U128_MAX && Balance(h, HubAccount(v), p.token2) + a2 <= U128_MAX
  }

  /** An add succeeds exactly when its pool is registered, both amounts can be booked and the pool accepts them at the
      tolerance the request names; only the pool's account, its books and the sender's chain's two escrow entries
      change, and the acknowledgement reports the LP the pool minted. */
  lemma AddTxLaw(h: Hub, sender: User, pair: Pair, a1: Uint128, a2: Uint128, slippage: nat, x: User, t: Token)
    requires HubValid(h)
    ensures var r := Apply(h, HubTx.AddLiquidity(sender, pair, a1, a2, slippage));
            var p := pair.Tuple();
            && (r.Some? <==> && p in h.vlpOf && Fundable(h, h.vlpOf[p], p, sender.chain, a1, a2)
                             && VlpModel.AddLiquidity(h.vlps[h.vlpOf[p]], sender.chain, a1, a2, slippage).Some?)
            && (r.Some? ==>
                  var v := h.vlpOf[p];
                  var (w, lp) := VlpModel.AddLiquidity(h.vlps[v], sender.chain, a1, a2, slippage).value;
                  && r.value.ack == AddAck(lp, v) && r.value.releases == []
                  && r.value.hub == h.(balances := r.value.hub.balances, escrows := r.value.hub.escrows,
                                       vlps := h.vlps[v := w])
                  && Balance(r.value.hub, x, t)
                     == Balance(h, x, t) + When(x == HubAccount(v), When(t == p.token1, a1) + When(t == p.token2, a2)))
  {
    hide VlpModel.AddLiquidity, FundPool, Fundable, Excess, StrLe, Sums.Sum;
    var p := pair.Tuple();
    if p in h.vlpOf {
      var v := h.vlpOf[p];
      assert h.vlps[v].pair == p && Valid(h.vlps[v]);
      FundIff(h, v, p, sender.chain, a1, a2);
      if FundPool(h, v, p, sender.chain, a1, a2).Some? { FundTouches(h, v, p, sender.chain, a1, a2, x, t); }
    }
  }

  /** The LP an accepted add reports: on a pool with shares the largest amount that lets neither reserve per share
      fall, on an empty one the integer square root of the product less the locked 1000. */
  lemma AddTxMints(h: Hub, sender: User, pair: Pair, a1: Uint128, a2: Uint128, slippage: nat, k: int)
    requires HubValid(h) && Apply(h, HubTx.AddLiquidity(sender, pair, a1, a2, slippage)).Some?
    ensures var ack := Apply(h, HubTx.AddLiquidity(sender, pair, a1, a2, slippage)).value.ack;
            && ack.AddAck? && ack.vlp in h.vlps && h.vlps[ack.vlp].pair == pair.Tuple() && ack.mintedLp > 0
            && var v, lp := h.vlps[ack.vlp], ack.mintedLp;
            var r1, r2, supply := Get(v.reserves, v.pair.token1), Get(v.reserves, v.pair.token2), v.totalLp;
            && (supply > 0 ==>
                  (k <= lp <==> (r1 + a1) * supply >= r1 * (supply + k) && (r2 + a2) * supply >= r2 * (supply + k)))
            && (supply == 0 ==> (lp + 1000) * (lp + 1000) <= a1 * a2 < (lp + 1001) * (lp + 1001))
  {
    hide Apply, VlpModel.AddLiquidity, Fundable, Excess, StrLe, Valid;
    AddTxLaw(h, sender, pair, a1, a2, slippage, sender, "");
    PoolLaws.AddMints(h.vlps[h.vlpOf[pair.Tuple()]], sender.chain, a1, a2, slippage, k);
  }

  // ----- Removing liquidity -----

  lemma PayBothIff(h: Hub, v: Address, p: Pair, to: User, paid1: Uint128, paid2: Uint128)
    requires p.token1 != p.token2 && to != HubAccount(v)
    requires paid1 <= Balance(h, HubAccount(v), p.token1) && paid2 <= Balance(h, HubAccount(v), p.token2)
    ensures PayBoth(h, v, p, to, paid1, paid2).Some? <==>
              Balance(h, to, p.token1) + paid1 <= U128_MAX && Balance(h, to, p.token2) + paid2 <= U128_MAX
  {
    hide Transfer, Balance;
    var me := HubAccount(v);
    TransferLaw(h, me, to, p.token1, paid1, me, p.token2);
    TransferLaw(h, me, to, p.token1, paid1, to, p.token2);
    var h1 := Transfer(h, me, to, p.token1, paid1);
    if h1.Some? { TransferLaw(h1.value, me, to, p.token2, paid2, to, p.token1); }
  }

  /** A release of an amount is possible: the account holds it, and every chain it reaches is registered. */
  ghost predicate Releasable(h: Hub, u: User, tok: Token, amount: Uint128, rs: seq<Receiver>) {
    amount <= Balance(h, u, tok) && Registered(h, tok, amount, rs)
  }

  lemma SameReach(a: Hub, b: Hub, tok: Token, amount: Uint128, rs: seq<Receiver>)
    requires a.chains == b.chains && forall c :: Get(a.escrows, EscrowKey(tok, c)) == Get(b.escrows, EscrowKey(tok, c))
    ensures Registered(a, tok, amount, rs) == Registered(b, tok, amount, rs)
  {
    hide Capacity;
    forall i | 0 <= i < |rs| ensures Reaches(a.escrows, tok, amount, rs, i) == Reaches(b.escrows, tok, amount, rs, i) {
      SameCapacity(a.escrows, b.escrows, tok, rs[..i]);
    }
  }

  lemma ReleaseKeepsOthers(h: Hub, sender: User, tok: Token, asked: Option<Uint128>, rs: seq<Receiver>, t: Token)
    requires t != tok && ReleaseEscrow(h, sender, tok, asked, rs).Some?
    ensures var h1 := ReleaseEscrow(h, sender, tok, asked, rs).value.0;
            && h1.chains == h.chains && Balance(h1, sender, t) == Balance(h, sender, t)
            && forall c :: Get(h1.escrows, EscrowKey(t, c)) == Get(h.escrows, EscrowKey(t, c))
  {
    hide ReleaseLoop, Capacity;
    ReleaseTakes(h, sender, tok, asked, rs, t);
    ReleaseTouches(h, sender, tok, asked, rs, sender, t);
    var amount := asked.GetOr(Balance(h, sender, tok));
    var h1 := ReleaseEscrow(h, sender, tok, asked, rs).value.0;
    forall c ensures Get(h1.escrows, EscrowKey(t, c)) == Get(h.escrows, EscrowKey(t, c)) {
      OtherTokensKept(h.escrows, h.chains, tok, amount, rs, t, c);
    }
  }

  lemma ReleaseBothIff(h: Hub, u: User, pair: Pair, paid1: Uint128, paid2: Uint128, rs: seq<Receiver>)
    requires pair.token1 != pair.token2
    ensures ReleaseBoth(h, u, pair, paid1, paid2, rs).Some? <==>
              Releasable(h, u, pair.token1, paid1, rs) && Releasable(h, u, pair.token2, paid2, rs)
  {
    hide ReleaseEscrow, Reaches, Registered;
    ReleaseIff(h, u, pair.token1, Some(paid1), rs);
    var r := ReleaseEscrow(h, u, pair.token1, Some(paid1), rs);
    if r.Some? {
      ReleaseKeepsOthers(h, u, pair.token1, Some(paid1), rs, pair.token2);
      ReleaseIff(r.value.0, u, pair.token2, Some(paid2), rs);
      SameReach(r.value.0, h, pair.token2, paid2, rs);
    }
  }

  lemma ReleaseIff(h: Hub, u: User, tok: Token, asked: Option<Uint128>, rs: seq<Receiver>)
    ensures ReleaseEscrow(h, u, tok, asked, rs).Some? <==>
              Releasable(h, u, tok, if asked.Some? then asked.value else Balance(h, u, tok), rs)
  {
    hide ReleaseEscrow, Reaches;
    ReleaseFlow(h, u, tok, asked, rs, tok, Every);
  }

  /** A removal succeeds exactly when its pool is registered and pays, both payouts fit the sender's account, and both
      releases, under the tokens of the request in its order, are possible after that. */
  lemma RemoveTxIff(h: Hub, sender: User, pair: Pair, lp: Uint128, rs: seq<Receiver>)
    requires HubValid(h) && Outside(h, sender)
    ensures var p, o := pair.Tuple(), PaidBy(h, sender, pair, lp);
            Apply(h, HubTx.RemoveLiquidity(sender, pair, lp, rs)).Some? <==>
              && o.Some?
              && Balance(h, sender, p.token1) + o.value.paid1 <= U128_MAX
              && Balance(h, sender, p.token2) + o.value.paid2 <= U128_MAX
              && var asked1 := if pair.Sorted() then o.value.paid1 else o.value.paid2;
              var asked2 := if pair.Sorted() then o.value.paid2 else o.value.paid1;
              && asked1 <= Balance(h, sender, p.token1) + o.value.paid1 && Registered(h, p.token1, asked1, rs)
              && asked2 <= Balance(h, sender, p.token2) + o.value.paid2 && Registered(h, p.token2, asked2, rs)
  {
    hide VlpModel.RemoveLiquidity, PayBoth, ReleaseBoth, Registered, StrLe, Excess, HubValid, Sums.Sum;
    var p := pair.Tuple();
    if PaidBy(h, sender, pair, lp).Some? {
      var v := h.vlpOf[p];
      var o := PaidBy(h, sender, pair, lp).value;
      RegistryRight(h, p);
      RemovalCovered(h, v, sender, lp);
      TupleOf(pair);
      var h0 := h.(vlps := h.vlps[v := o.vlp]);
      SameBalance(h, h0);
      PayBothIff(h0, v, p, sender, o.paid1, o.paid2);
      if PayBoth(h0, v, p, sender, o.paid1, o.paid2).Some? {
        var h1 := PayBoth(h0, v, p, sender, o.paid1, o.paid2).value;
        PayBothTouches(h0, v, p, sender, o.paid1, o.paid2, sender, p.token1);
        PayBothTouches(h0, v, p, sender, o.paid1, o.paid2, sender, p.token2);
        ReleaseBothIff(h1, sender, pair, o.paid1, o.paid2, rs);
        forall a, t ensures Registered(h1, t, a, rs) == Registered(h, t, a, rs) { SameReach(h1, h, t, a, rs); }
      }
    }
  }

  lemma RegistryRight(h: Hub, p: Pair)
    requires HubValid(h) && p in h.vlpOf
    ensures h.vlpOf[p] in h.vlps && h.vlps[h.vlpOf[p]].pair == p && p.Sorted()
  {
  }

  lemma RemovalCovered(h: Hub, v: Address, sender: User, lp: Uint128)
    requires HubValid(h) && v in h.vlps && VlpModel.RemoveLiquidity(h.vlps[v], sender.chain, lp).Some?
    ensures var o, p := VlpModel.RemoveLiquidity(h.vlps[v], sender.chain, lp).value, h.vlps[v].pair;
            o.paid1 <= Balance(h, HubAccount(v), p.token1) && o.paid2 <= Balance(h, HubAccount(v), p.token2)
  {
    hide VlpModel.RemoveLiquidity;
    var p := h.vlps[v].pair;
    PoolLaws.RemovePays(h.vlps[v], sender.chain, lp);
    PoolCovers(h, v, p.token1);
    PoolCovers(h, v, p.token2);
  }

  /** Nobody but the sender and the pool is touched by a removal. */
  lemma RemoveTxLeaves(h: Hub, sender: User, pair: Pair, lp: Uint128, rs: seq<Receiver>, x: User, t: Token)
    requires HubValid(h) && Outside(h, sender) && Outside(h, x) && x != sender
    requires Apply(h, HubTx.RemoveLiquidity(sender, pair, lp, rs)).Some?
    ensures var r := Apply(h, HubTx.RemoveLiquidity(sender, pair, lp, rs)).value;
            Balance(r.hub, x, t) == Balance(h, x, t) && r.ack.RemoveAck? && r.ack.burnedLp == lp
  {
    hide VlpModel.RemoveLiquidity, PayBoth, ReleaseBoth, StrLe, Excess, HubValid;
    RemoveTxNamesPool(h, sender, pair, lp, rs);
    var p := pair.Tuple();
    RegistryRight(h, p);
    var v := h.vlpOf[p];
    var o := VlpModel.RemoveLiquidity(h.vlps[v], sender.chain, lp).value;
    var h0 := h.(vlps := h.vlps[v := o.vlp]);
    var h1 := PayBoth(h0, v, p, sender, o.paid1, o.paid2).value;
    PayBothTouches(h0, v, p, sender, o.paid1, o.paid2, x, t);
    ReleaseBothTouches(h1, sender, pair, o.paid1, o.paid2, rs, x, t);
  }

  // ----- Swaps through the router -----

  lemma PaidInIff(h: Hub, c: ChainUid, v: Address, assetIn: Token, amountIn: Uint128)
    ensures PaidIn(h, c, v, assetIn, amountIn).Some? <==>
              && amountIn > 0 && Get(h.escrows, EscrowKey(assetIn, c)) + amountIn <= U128_MAX
              && Balance(h, HubAccount(v), assetIn) + amountIn <= U128_MAX
    ensures PaidIn(h, c, v, assetIn, amountIn).Some? ==>
              var h2 := PaidIn(h, c, v, assetIn, amountIn).value;
              h2.chains == h.chains && h2.vlps == h.vlps
              && forall x, t ::
                   Balance(h2, x, t) == Balance(h, x, t) + When(x == HubAccount(v) && t == assetIn, amountIn)
  {
  }

  /** The router's swap in stages: where the route starts after the input was booked, and what it pays. */
  ghost predicate Routes(h: Hub, tx: HubTx, h2: Hub, o: Routed)
    requires tx.Swap?
  {
    && Route(h, tx.assetIn, tx.assetOut, tx.swaps).Some?
    && var hops := Route(h, tx.assetIn, tx.assetOut, tx.swaps).value;
    && hops != [] && PaidIn(h, tx.sender.chain, hops[0].vlp, tx.assetIn, tx.amountIn) == Some(h2)
    && ExecuteSwap(h2, tx.sender, hops[0], tx.assetIn, tx.amountIn, tx.minOut, hops[1..]) == Some(o)
  }

  lemma StagesUnique(h: Hub, tx: HubTx, h2: Hub, o: Routed, g2: Hub, p: Routed)
    requires tx.Swap? && Routes(h, tx, h2, o) && Routes(h, tx, g2, p)
    ensures h2 == g2 && o == p
  {
  }

  /** A routed swap succeeds exactly when its route does, ends in the token asked for, and every chain its release
      reaches is registered: the payout is always there to release. It reports what the route paid, at least the
      minimum; the sender keeps what the listed chains could not bear, treasuries get their fees, and no other
      account that is no pool's changes. */
  lemma SwapTxLaw(h: Hub, tx: HubTx, h2: Hub, o: Routed, x: User, t: Token)
    requires HubValid(h) && tx.Swap? && Outside(h, tx.sender) && Outside(h, x) && Routes(h, tx, h2, o)
    ensures Apply(h, tx).Some? <==> o.assetOut == tx.assetOut && Registered(h2, tx.assetOut, o.amountOut, tx.receivers)
    ensures Apply(h, tx).Some? ==>
              var hops, r := Route(h, tx.assetIn, tx.assetOut, tx.swaps).value, Apply(h, tx).value;
              && r.ack == SwapAck(o.amountOut) && o.amountOut >= tx.minOut
              && Balance(r.hub, x, t)
                 == Balance(h, x, t) + Income(h2, tx.sender, hops[0], tx.assetIn, tx.amountIn, hops[1..], x, t)
                    + When(x == tx.sender && t == tx.assetOut,
                           o.amountOut - Min(o.amountOut, Capacity(h2.escrows, tx.assetOut, tx.receivers)))
  {
    hide ExecuteSwap, ReleaseEscrow, Route, HubValid, PaidIn, Capacity, Income, Registered, Balance;
    var hops := Route(h, tx.assetIn, tx.assetOut, tx.swaps).value;
    PaidInKeeps(h, tx.sender.chain, hops[0].vlp, tx.assetIn, tx.amountIn, x, t);
    PaidInKeeps(h, tx.sender.chain, hops[0].vlp, tx.assetIn, tx.amountIn, tx.sender, o.assetOut);
    PaidInValid(h, tx.sender.chain, hops[0].vlp, tx.assetIn, tx.amountIn);
    SwapNeedsExcess(h2, tx.sender, hops[0], tx.assetIn, tx.amountIn, tx.minOut, hops[1..]);
    MinimumAlreadyMet(h2, tx.sender, hops[0], tx.assetIn, tx.amountIn, tx.minOut, hops[1..]);
    SwapFlow(h2, tx.sender, hops[0], tx.assetIn, tx.amountIn, tx.minOut, hops[1..], tx.assetIn);
    RoutePays(h2, tx.sender, hops[0], tx.assetIn, tx.amountIn, tx.minOut, hops[1..], x, t);
    RoutePays(h2, tx.sender, hops[0], tx.assetIn, tx.amountIn, tx.minOut, hops[1..], tx.sender, o.assetOut);
    NoLoss(h2, tx.sender, hops[0], tx.assetIn, tx.amountIn, hops[1..], tx.sender, o.assetOut);
    NonnegBalance(h2, tx.sender, o.assetOut);
    ReleaseIff(o.hub, tx.sender, tx.assetOut, Some(o.amountOut), tx.receivers);
    SameReach(o.hub, h2, tx.assetOut, o.amountOut, tx.receivers);
    SwapTxUnfolds(h, tx, h2, o);
    if ReleaseEscrow(o.hub, tx.sender, tx.assetOut, Some(o.amountOut), tx.receivers).Some? {
      ReleaseTakes(o.hub, tx.sender, tx.assetOut, Some(o.amountOut), tx.receivers, t);
      ReleaseTouches(o.hub, tx.sender, tx.assetOut, Some(o.amountOut), tx.receivers, x, t);
    }
  }

  lemma PaidInKeeps(h: Hub, c: ChainUid, v: Address, assetIn: Token, amountIn: Uint128, x: User, t: Token)
    requires HubValid(h) && Outside(h, x) && PaidIn(h, c, v, assetIn, amountIn).Some?
    ensures v in h.vlps ==> Balance(PaidIn(h, c, v, assetIn, amountIn).value, x, t) == Balance(h, x, t)
  {
    PaidInIff(h, c, v, assetIn, amountIn);
  }

  lemma NonnegBalance(h: Hub, u: User, t: Token)
    ensures Balance(h, u, t) >= 0
  {
  }

  lemma {:induction false} NoLoss(h: Hub, sender: User, hop: Hop, assetIn: Token, amountIn: Uint128, next: seq<Hop>,
                                  u: User, t: Token)
    ensures Income(h, sender, hop, assetIn, amountIn, next, u, t) >= 0
    decreases |next|
  {
    hide SwapHop, LocalSwap;
    var r := SwapHop(h, hop.vlp, assetIn, amountIn, if next == [] then sender else HubAccount(next[0].vlp));
    if next != [] && r.Some? {
      NoLoss(r.value.hub, sender, next[0], r.value.assetOut, r.value.amountOut, next[1..], u, t);
    }
  }

  lemma SwapTxUnfolds(h: Hub, tx: HubTx, h2: Hub, o: Routed)
    requires tx.Swap? && Routes(h, tx, h2, o) && o.amountOut >= tx.minOut
    ensures var r := ReleaseEscrow(o.hub, tx.sender, tx.assetOut, Some(o.amountOut), tx.receivers);
            && (Apply(h, tx).Some? <==> o.assetOut == tx.assetOut && r.Some?)
            && (Apply(h, tx).Some? ==> Apply(h, tx).value == TxResult(r.value.0, SwapAck(o.amountOut), r.value.1))
  {
    hide ExecuteSwap, ReleaseEscrow, Route, Mint, CreditEscrow;
  }

  /** A routed swap that succeeds has such stages. */
  lemma SwapTxRoutes(h: Hub, tx: HubTx) returns (h2: Hub, o: Routed)
    requires tx.Swap? && Apply(h, tx).Some?
    ensures Routes(h, tx, h2, o)
  {
    hide ExecuteSwap, ReleaseEscrow, Route, PaidIn, SwapTx;
    var hops;
    hops, h2, o := SwapTxStages(h, tx.sender, tx.assetIn, tx.amountIn, tx.assetOut, tx.minOut, tx.swaps, tx.receivers);
  }

  // ----- Other transactions -----

  /** A failed release is put back exactly when its escrow entry is on record, its amount is positive and both entries
      have room; then the chain's escrow entry and the sender's balance grow by it, and nothing else changes. */
  lemma RestoreLaw(h: Hub, r: Release, x: User, t: Token)
    ensures var back, key := Apply(h, ReleaseFailed(r)), EscrowKey(r.token, r.chain);
            && (back.Some? <==> && key in h.escrows && r.amount > 0 && h.escrows[key] + r.amount <= U128_MAX
                                && Balance(h, r.sender, r.token) + r.amount <= U128_MAX)
            && (back.Some? ==>
                  var h1 := back.value.hub;
                  && h1 == h.(balances := h1.balances, escrows := h.escrows[key := h.escrows[key] + r.amount])
                  && Balance(h1, x, t) == Balance(h, x, t) + When(x == r.sender && t == r.token, r.amount)
                  && back.value.ack == OtherAck && back.value.releases == [])
  {
  }

  /** A user's transfer succeeds exactly when the amount is there and fits, and moves it from the one account to the
      other; to oneself it adds. */
  lemma TransferTxLaw(h: Hub, from: User, to: User, tok: Token, amount: Uint128, x: User, t: Token)
    ensures var r := Apply(h, HubTx.UserTransfer(from, to, tok, amount));
            && (r.Some? <==> amount <= Balance(h, from, tok) && Balance(h, to, tok) + amount <= U128_MAX)
            && (r.Some? ==>
                  && r.value.hub == h.(balances := r.value.hub.balances, inflated := r.value.hub.inflated)
                  && r.value.ack == OtherAck && r.value.releases == []
                  && Balance(r.value.hub, x, t)
                     == Balance(h, x, t) - When(x == from != to && t == tok, amount)
                        + When(x == to && t == tok, amount))
  {
    hide Transfer, Balance;
    TransferLaw(h, from, to, tok, amount, x, t);
  }

  /** A direct swap spends the excess of its first pool and pays the account it names at least the minimum it names;
      treasuries get their fees, and no other account that is no pool's changes. */
  lemma DirectSwapLaw(h: Hub, tx: HubTx, x: User, t: Token)
    requires HubValid(h) && tx.DirectSwap? && Outside(h, x) && Apply(h, tx).Some?
    ensures var r := ExecuteSwap(h, tx.sender, tx.hop, tx.assetIn, tx.amountIn, tx.minOut, tx.next);
            && r.Some? && r.value.amountOut >= tx.minOut && Apply(h, tx).value == TxResult(r.value.hub, OtherAck, [])
            && tx.hop.vlp in h.vlps && Excess(h, tx.hop.vlp, tx.assetIn) == tx.amountIn
            && Balance(r.value.hub, x, t)
               == Balance(h, x, t) + Income(h, tx.sender, tx.hop, tx.assetIn, tx.amountIn, tx.next, x, t)
                  + When(x == tx.sender && t == r.value.assetOut, r.value.amountOut)
  {
    hide ExecuteSwap, Income, HubValid, Balance, Excess;
    MinimumAlreadyMet(h, tx.sender, tx.hop, tx.assetIn, tx.amountIn, tx.minOut, tx.next);
    SwapNeedsExcess(h, tx.sender, tx.hop, tx.assetIn, tx.amountIn, tx.minOut, tx.next);
    RoutePays(h, tx.sender, tx.hop, tx.assetIn, tx.amountIn, tx.minOut, tx.next, x, t);
  }

  /** A pool may be asked for by a chain that has an escrow of each token, or where no chain has one; a chain joins an
      existing pool once, and a new pool starts empty, with that chain, rates of 10 basis points and the admin as its
      treasury. */
  lemma CreatePoolLaw(h: Hub, sender: User, pair: Pair, newVlp: Address, admin: Address)
    requires HubValid(h)
    ensures var r := Apply(h, HubTx.CreatePool(sender, pair, newVlp, admin));
            && (r.Some? <==>
                  && pair.Sorted() && Usable(h, pair.token1, sender.chain) && Usable(h, pair.token2, sender.chain)
                  && (if pair in h.vlpOf then sender.chain !in h.vlps[h.vlpOf[pair]].chainLp else newVlp !in h.vlps))
            && (r.Some? && pair in h.vlpOf ==>
                  var v := h.vlpOf[pair];
                  r.value.hub == h.(vlps := h.vlps[v := h.vlps[v].(chainLp := h.vlps[v].chainLp[sender.chain := 0])]))
            && (r.Some? && pair !in h.vlpOf ==>
                  && r.value.hub == h.(vlps := r.value.hub.vlps, vlpOf := h.vlpOf[pair := newVlp])
                  && newVlp in r.value.hub.vlps && r.value.hub.vlps == h.vlps[newVlp := r.value.hub.vlps[newVlp]]
                  && var w := r.value.hub.vlps[newVlp];
                  && w.pair == pair && w.fee == Fee(10, 10, HubAccount(admin)) && w.totalLp == 0
                  && w.chainLp == map[sender.chain := 0] && forall t :: Get(w.reserves, t) == 0)
  {
    hide StrLe, HubValid;
    if pair in h.vlpOf { RegistryRight(h, pair); }
  }

  ghost predicate Usable(h: Hub, t: Token, c: ChainUid) {
    EscrowKey(t, c) in h.escrows || !exists k :: k in h.escrows && k.token == t
  }

  /** A fee update reaches the pool it names and no other. */
  lemma SetFeeLaw(h: Hub, v: Address, lp: Option<Bps>, treasury: Option<Bps>, recipient: Option<User>)
    ensures var r := Apply(h, HubTx.SetFee(v, lp, treasury, recipient));
            && (r.Some? <==> v in h.vlps && UpdateFee(h.vlps[v], lp, treasury, recipient).Some?)
            && (r.Some? ==> r.value.hub == h.(vlps := h.vlps[v := UpdateFee(h.vlps[v], lp, treasury, recipient).value]))
  {
    hide UpdateFee;
  }

  /** An escrow is registered once, empty. */
  lemma CreateEscrowLaw(h: Hub, sender: User, token: Token)
    ensures var r, key := Apply(h, HubTx.CreateEscrow(sender, token)), EscrowKey(token, sender.chain);
            && (r.Some? <==> key !in h.escrows)
            && (r.Some? ==> r.value.hub == h.(escrows := h.escrows[key := 0]))
  {
  }

  // ----- Whose release it is -----

  /** The account whose balance a transaction's releases are taken from. */
  function AccountOf(tx: HubTx): Option<User> {
    match tx
    case RemoveLiquidity(u, _, _, _) => Some(u)
    case Swap(u, _, _, _, _, _, _) => Some(u)
    case Withdraw(u, _, _, _) => Some(u)
    case _ => None
  }

  /** A packet of a transaction: taken from its account, in a token it releases, to a receiver it lists. */
  ghost predicate SentBy(tx: HubTx, r: Release) {
    && AccountOf(tx) == Some(r.sender)
    && (match tx
        case RemoveLiquidity(_, pair, _, rs) => pair.Has(r.token) && ToListed(rs, r)
        case Swap(_, _, _, assetOut, _, _, rs) => r.token == assetOut && ToListed(rs, r)
        case Withdraw(_, token, _, rs) => r.token == token && ToListed(rs, r)
        case _ => false)
  }

  ghost predicate ToListed(rs: seq<Receiver>, r: Release) {
    exists i | 0 <= i < |rs| :: rs[i].user == User(r.chain, r.to)
  }

  lemma {:induction false} ServedListed(escrows: Escrows, token: Token, amount: Uint128, rs: seq<Receiver>,
                                        k: nat, i: nat)
    requires k <= |rs| && i < |Served(escrows, token, amount, rs, k)|
    ensures exists j | 0 <= j < k :: Served(escrows, token, amount, rs, k)[i].receiver == rs[j]
  {
    hide Capacity;
    if i < |Served(escrows, token, amount, rs, k - 1)| { ServedListed(escrows, token, amount, rs, k - 1, i); }
  }

  lemma ReleaseIsOwn(h: Hub, sender: User, tok: Token, asked: Option<Uint128>, rs: seq<Receiver>, i: nat)
    requires ReleaseEscrow(h, sender, tok, asked, rs).Some? && i < |ReleaseEscrow(h, sender, tok, asked, rs).value.1|
    ensures var r := ReleaseEscrow(h, sender, tok, asked, rs).value.1[i];
            r.sender == sender && r.token == tok && ToListed(rs, r)
  {
    hide ReleaseEscrow, Served;
    ReleaseSends(h, sender, tok, asked, rs, i);
    ServedListed(h.escrows, tok, if asked.Some? then asked.value else Balance(h, sender, tok), rs, |rs|, i);
  }

  lemma RemoveReleases(h: Hub, sender: User, pair: Pair, lp: Uint128, rs: seq<Receiver>, i: nat)
    requires RemoveTx(h, sender, pair, lp, rs).Some? && i < |RemoveTx(h, sender, pair, lp, rs).value.releases|
    ensures SentBy(HubTx.RemoveLiquidity(sender, pair, lp, rs), RemoveTx(h, sender, pair, lp, rs).value.releases[i])
  {
    hide VlpModel.RemoveLiquidity, PayBoth, ReleaseEscrow, ToListed, StrLe;
    var v := h.vlpOf[pair.Tuple()];
    var o := VlpModel.RemoveLiquidity(h.vlps[v], sender.chain, lp).value;
    var h1 := PayBoth(h.(vlps := h.vlps[v := o.vlp]), v, h.vlps[v].pair, sender, o.paid1, o.paid2).value;
    var (h2, out1) := ReleaseEscrow(h1, sender, pair.token1, Some(o.paid1), rs).value;
    if i < |out1| {
      ReleaseIsOwn(h1, sender, pair.token1, Some(o.paid1), rs, i);
    } else {
      ReleaseIsOwn(h2, sender, pair.token2, Some(o.paid2), rs, i - |out1|);
    }
  }

  /** Every release of every transaction is taken from the transaction's own account and goes to a receiver the
      transaction lists. */
  lemma TxReleases(h: Hub, tx: HubTx, i: nat)
    requires Apply(h, tx).Some? && i < |Apply(h, tx).value.releases|
    ensures SentBy(tx, Apply(h, tx).value.releases[i])
  {
    hide AddTx, RemoveTx, SwapTx, ReleaseEscrow, ExecuteSwap, CreatePoolTx, ToListed, UpdateFee, Transfer,
         ReleaseFailedTx;
    match tx
    case AddLiquidity(sender, pair, a1, a2, slippage) => AddReleasesNothing(h, sender, pair, a1, a2, slippage);
    case RemoveLiquidity(sender, pair, lp, rs) => RemoveReleases(h, sender, pair, lp, rs, i);
    case Swap(sender, assetIn, amountIn, assetOut, minOut, swaps, rs) =>
      SwapReleases(h, sender, assetIn, amountIn, assetOut, minOut, swaps, rs, i);
    case Withdraw(sender, token, asked, rs) => ReleaseIsOwn(h, sender, token, asked, rs, i);
    case ReleaseFailed(r) => RestoreReleasesNothing(h, r);
    case CreatePool(sender, pair, newVlp, admin) => CreateReleasesNothing(h, sender, pair, newVlp, admin);
    case _ =>
  }

  lemma AddReleasesNothing(h: Hub, sender: User, pair: Pair, a1: Uint128, a2: Uint128, slippage: nat)
    requires AddTx(h, sender, pair, a1, a2, slippage).Some?
    ensures AddTx(h, sender, pair, a1, a2, slippage).value.releases == []
  {
    hide VlpModel.AddLiquidity, FundPool;
  }

  lemma RestoreReleasesNothing(h: Hub, r: Release)
    requires ReleaseFailedTx(h, r).Some?
    ensures ReleaseFailedTx(h, r).value.releases == []
  {
  }

  lemma CreateReleasesNothing(h: Hub, sender: User, pair: Pair, newVlp: Address, admin: Address)
    requires CreatePoolTx(h, sender, pair, newVlp, admin).Some?
    ensures CreatePoolTx(h, sender, pair, newVlp, admin).value.releases == []
  {
    hide TokenUsable, StrLe;
  }

  lemma SwapReleases(h: Hub, sender: User, assetIn: Token, amountIn: Uint128, assetOut: Token, minOut: Uint128,
                     swaps: seq<SwapPair>, rs: seq<Receiver>, i: nat)
    requires SwapTx(h, sender, assetIn, amountIn, assetOut, minOut, swaps, rs).Some?
    requires i < |SwapTx(h, sender, assetIn, amountIn, assetOut, minOut, swaps, rs).value.releases|
    ensures SentBy(HubTx.Swap(sender, assetIn, amountIn, assetOut, minOut, swaps, rs),
                   SwapTx(h, sender, assetIn, amountIn, assetOut, minOut, swaps, rs).value.releases[i])
  {
    hide ExecuteSwap, ReleaseEscrow, Route, Mint, CreditEscrow, ToListed;
    var hops := Route(h, assetIn, assetOut, swaps).value;
    var h2 := PaidIn(h, sender.chain, hops[0].vlp, assetIn, amountIn).value;
    var o := ExecuteSwap(h2, sender, hops[0], assetIn, amountIn, minOut, hops[1..]).value;
    ReleaseIsOwn(o.hub, sender, assetOut, Some(o.amountOut), rs, i);
  }
}
