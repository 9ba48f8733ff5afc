/** What each message to a factory does, stated outright: when a request is accepted and what it sends, when a
    settlement succeeds and what it books, and what a release pays. */
module FactoryLaws {
  import opened Arith
  import opened Types
  import opened TxIds
  import opened EscrowModel
  import opened HubModel
  import opened FactoryModel

  // ----- Requests -----

  /** The next id of the counter, in the sender's name. */
  predicate NextId(f: Factory, s: Stamp, at: Moment, sender: Address) {
    && s.sender == User(f.chain, sender) && s.chainId == at.chainId && s.height == at.height && s.index == at.index
    && s.nonce == (if f.nonce == U128_MAX then 0 else f.nonce + 1)
  }

  /** An add request is accepted exactly for a sorted registered pair, a tolerance of 1 to 100 per cent, positive
      amounts and allowed denominations; it is recorded under its new id and sent as it was made. */
  lemma AddRequestLaw(f: Factory, at: Moment, sender: Address, pair: Pair, c1: Coin, c2: Coin, slippage: nat)
    requires IdsIssued(f)
    ensures var q := RequestAdd(f, at, sender, pair, c1, c2, slippage);
            && (q.Some? <==> && pair.Sorted() && pair in f.vlpOf && 1 <= slippage <= 100
                             && c1.amount > 0 && c2.amount > 0
                             && Allowed(f, pair.token1, c1.denom) && Allowed(f, pair.token2, c2.denom))
            && (q.Some? ==>
                  var key, g := KeyOf(q.value.stamp), q.value.factory;
                  && NextId(f, q.value.stamp, at, sender)
                  && q.value.tx == HubTx.AddLiquidity(User(f.chain, sender), pair, c1.amount, c2.amount, slippage)
                  && g == f.(nonce := q.value.stamp.nonce, adds := f.adds[key := AddInfo(pair, c1, c2)]))
  {
    hide Render, StrLe, IdsIssued;
    NextKeyIsFree(f, at, sender);
  }

  predicate Allowed(f: Factory, t: Token, d: Denom) {
    t in f.escrows && f.escrows[t].allowed.Some? && d in f.escrows[t].allowed.value
  }

  /** A remove request is accepted exactly for a positive amount, through the LP token of the pair's pool. */
  lemma RemoveRequestLaw(f: Factory, at: Moment, sender: Address, caller: Address, pair: Pair, lp: Uint128,
                         received: Uint128, rs: seq<Receiver>)
    requires IdsIssued(f)
    ensures var q, p := RequestRemove(f, at, sender, caller, pair, lp, received, rs), pair.Tuple();
            && (q.Some? <==> p in f.vlpOf && f.vlpOf[p] in f.cw20Of && f.cw20Of[f.vlpOf[p]] == caller && lp > 0)
            && (q.Some? ==>
                  var key, g := KeyOf(q.value.stamp), q.value.factory;
                  && NextId(f, q.value.stamp, at, sender)
                  && q.value.tx == HubTx.RemoveLiquidity(User(f.chain, sender), pair, lp, rs)
                  && g == f.(nonce := q.value.stamp.nonce, removes := f.removes[key := RemoveInfo(pair, lp, caller)]))
  {
    hide Render, StrLe, IdsIssued;
    NextKeyIsFree(f, at, sender);
  }

  /** A swap request is accepted exactly when the partner's rate is at most 30 basis points, something is left
      after the fee, a positive minimum is asked for, the route starts and ends at the named tokens, the
      denomination is allowed and the funds suffice; its packet carries the user's own minimum, route and
      receivers. */
  lemma SwapRequestLaw(f: Factory, at: Moment, sender: Address, assetIn: Token, coin: Coin, attached: Uint128,
                       assetOut: Token, minOut: Uint128, swaps: seq<SwapPair>, rs: seq<Receiver>,
                       partner: Option<Partner>, fee: int)
    requires IdsIssued(f)
    requires var bps := if partner.Some? then partner.value.bps else 0;
             10_000 * fee - 10_000 < coin.amount * bps <= 10_000 * fee
    ensures var q := RequestSwap(f, at, sender, assetIn, coin, attached, assetOut, minOut, swaps, rs, partner);
            && (q.Some? <==>
                  && (partner.Some? ==> partner.value.bps <= 30) && fee < coin.amount && minOut > 0
                  && swaps != [] && swaps[0].tokenIn == assetIn && swaps[|swaps| - 1].tokenOut == assetOut
                  && Allowed(f, assetIn, coin.denom)
                  && (if coin.denom.Native? then attached >= coin.amount - fee else attached == coin.amount))
            && (q.Some? ==>
                  var key, g := KeyOf(q.value.stamp), q.value.factory;
                  && NextId(f, q.value.stamp, at, sender)
                  && q.value.tx == HubTx.Swap(User(f.chain, sender), assetIn, coin.amount - fee, assetOut, minOut,
                                              swaps, rs)
                  && key in g.swaps && g == f.(nonce := q.value.stamp.nonce, swaps := f.swaps[key := g.swaps[key]])
                  && g.swaps[key].assetIn == assetIn && g.swaps[key].coin == Coin(coin.denom, coin.amount - fee)
                  && g.swaps[key].partnerFee == fee
                  && g.swaps[key].partner == (if partner.Some? then Some(partner.value.recipient) else None))
  {
    hide Render, IdsIssued, PartnerFee;
    NextKeyIsFree(f, at, sender);
    PartnerFeeLaw(coin.amount, partner);
  }

  /** A withdrawal is always accepted and sent as it was made; the factory records nothing. */
  lemma WithdrawRequestLaw(f: Factory, at: Moment, sender: Address, token: Token, amount: Uint128, rs: seq<Receiver>)
    ensures var q := RequestWithdraw(f, at, sender, token, amount, rs);
            && q.Some? && NextId(f, q.value.stamp, at, sender) && q.value.factory == f.(nonce := q.value.stamp.nonce)
            && q.value.tx == HubTx.Withdraw(User(f.chain, sender), token, Some(amount), rs)
  {
    hide Render;
  }

  /** A pool request is accepted exactly for two different tokens without a pool here, an escrow request exactly for a
      token without an escrow here. */
  lemma CreationRequestLaw(f: Factory, at: Moment, sender: Address, what: Creation)
    requires IdsIssued(f)
    ensures var g := RequestCreation(f, at, sender, what);
            && (g.Some? <==> (match what
                              case PoolCreation(pair) => pair.token1 != pair.token2 && pair.Tuple() !in f.vlpOf
                              case EscrowCreation(token) => token !in f.escrows))
            && (g.Some? ==>
                  exists s: Stamp :: NextId(f, s, at, sender)
                                     && g.value == f.(nonce := s.nonce, creations := f.creations[KeyOf(s) := what]))
  {
    hide Render, StrLe, IdsIssued;
    NextKeyIsFree(f, at, sender);
    assert NextId(f, NextStamp(f, at, sender), at, sender);
  }

  // ----- Deposits into the escrows -----

  /** What the escrow of a token books under a denomination. */
  function Booked(f: Factory, t: Token, d: Denom): int { if t in f.escrows then Booking(f.escrows[t], d) else 0 }

  ghost predicate VaultsInOrder(f: Factory) { forall t | t in f.escrows :: EscrowValid(f.escrows[t]) }

  /** The token's escrow can take a coin. */
  predicate CanTake(f: Factory, t: Token, c: Coin) {
    Allowed(f, t, c.denom) && c.amount > 0 && f.escrows[t].total + c.amount <= U128_MAX
  }

  lemma DepositInLaw(f: Factory, tok: Token, c: Coin, t: Token, d: Denom)
    requires VaultsInOrder(f)
    ensures DepositIn(f, tok, c).Some? <==> CanTake(f, tok, c)
    ensures DepositIn(f, tok, c).Some? ==>
              var g := DepositIn(f, tok, c).value;
              && g == f.(escrows := g.escrows) && VaultsInOrder(g) && g.escrows.Keys == f.escrows.Keys
              && Booked(g, t, d) == Booked(f, t, d) + (if t == tok then InDenom(c, d) else 0)
              && (t != tok && t in f.escrows ==> g.escrows[t] == f.escrows[t])
  {
    hide EscrowModel.Deposit, EscrowValid, Booking;
    if tok in f.escrows {
      DepositSucceedsIff(f.escrows[tok], c);
      if EscrowModel.Deposit(f.escrows[tok], c).Some? {
        DepositKeepsValid(f.escrows[tok], c);
        DepositBooks(f.escrows[tok], c, d);
      }
    }
  }

  // ----- Settlements -----

  /** An add is settled, on acceptance, exactly when both escrows can take their coins, the shares fit and the
      pool's LP token is known; on refusal, exactly when the factory is not on the hub's own chain. Each coin is
      booked in its own token's escrow under its own denomination, and only on acceptance. */
  lemma SettleAddLaw(f: Factory, key: ReqKey, ack: Option<Ack>, t: Token, d: Denom)
    requires VaultsInOrder(f) && key in f.adds && f.adds[key].pair.token1 != f.adds[key].pair.token2
    ensures var r, info := AckAdd(f, key, ack), f.adds[key];
            && (r.Some? <==>
                  if ack.None? then !f.native else
                  && ack.value.AddAck? && Get(f.shares, ack.value.vlp) + ack.value.mintedLp <= U128_MAX
                  && CanTake(f, info.pair.token1, info.coin1) && CanTake(f, info.pair.token2, info.coin2)
                  && ack.value.vlp in f.cw20Of)
            && (r.Some? ==>
                  Booked(r.value.factory, t, d)
                  == Booked(f, t, d) + (if ack.None? then 0 else
                       (if t == info.pair.token1 then InDenom(info.coin1, d) else 0)
                       + (if t == info.pair.token2 then InDenom(info.coin2, d) else 0)))
  {
    hide DepositIn, EscrowValid, Booked, CanTake, Credit;
    var info := f.adds[key];
    if ack.Some? && ack.value.AddAck? {
      CreditFits(f.shares, ack.value.vlp, ack.value.mintedLp);
      if Credit(f.shares, ack.value.vlp, ack.value.mintedLp).Some? {
        var f1 := f.(adds := f.adds - {key}, shares := Credit(f.shares, ack.value.vlp, ack.value.mintedLp).value);
        SameVaults(f, f1, info.pair.token1, info.coin1, t, d);
        SameVaults(f, f1, info.pair.token2, info.coin2, t, d);
        TwoDeposits(f1, info.pair.token1, info.coin1, info.pair.token2, info.coin2, t, d);
      }
    } else if ack.None? {
      SameVaults(f, f.(adds := f.adds - {key}), info.pair.token1, info.coin1, t, d);
    }
  }

  lemma FeeCounted(m: map<Token, Uint128>, k: Token, amount: Uint128, t: Token)
    ensures Credit(m, k, amount).Some? <==> Get(m, k) + amount <= U128_MAX
    ensures Credit(m, k, amount).Some? ==>
              Get(Credit(m, k, amount).value, t) == Get(m, t) + (if t == k then amount else 0)
  {
  }

  lemma CreditFits(m: map<Address, Uint128>, k: Address, amount: Uint128)
    ensures Credit(m, k, amount).Some? <==> Get(m, k) + amount <= U128_MAX
  {
  }

  lemma SameVaults(f: Factory, g: Factory, tok: Token, c: Coin, t: Token, d: Denom)
    requires g.escrows == f.escrows
    ensures CanTake(f, tok, c) == CanTake(g, tok, c) && Booked(f, t, d) == Booked(g, t, d)
  {
  }

  lemma TwoDeposits(f: Factory, t1: Token, c1: Coin, t2: Token, c2: Coin, t: Token, d: Denom)
    requires VaultsInOrder(f) && t1 != t2
    ensures var g := DepositIn(f, t1, c1);
            var g2 := if g.Some? then DepositIn(g.value, t2, c2) else None;
            && (g2.Some? <==> CanTake(f, t1, c1) && CanTake(f, t2, c2))
            && (g2.Some? ==>
                  Booked(g2.value, t, d) == Booked(f, t, d)
                    + (if t == t1 then InDenom(c1, d) else 0) + (if t == t2 then InDenom(c2, d) else 0))
  {
    hide DepositIn, EscrowValid, Booking;
    DepositInLaw(f, t1, c1, t, d);
    DepositInLaw(f, t1, c1, t2, d);
    if DepositIn(f, t1, c1).Some? { DepositInLaw(DepositIn(f, t1, c1).value, t2, c2, t, d); }
  }

  /** A removal is settled, on acceptance, exactly when the shares reported are there and the pool's LP token is
      known; on refusal, exactly when the factory is not on the hub's own chain. No escrow changes. */
  lemma SettleRemoveLaw(f: Factory, key: ReqKey, ack: Option<Ack>)
    requires key in f.removes
    ensures var r := AckRemove(f, key, ack);
            && (r.Some? <==>
                  if ack.None? then !f.native else
                  && ack.value.RemoveAck? && ack.value.burnedLp <= Get(f.shares, ack.value.vlp)
                  && ack.value.vlp in f.cw20Of)
            && (r.Some? ==> r.value.factory.escrows == f.escrows)
  {
  }

  /** A swap is settled, on acceptance, exactly when the escrow can take the coin and the partner fee can be
      counted; on refusal, exactly when the factory is not on the hub's own chain and the refund fits. The coin is
      booked under its own denomination and the fee counted under its token, and only on acceptance. */
  lemma SettleSwapLaw(f: Factory, key: ReqKey, ack: Option<Ack>, t: Token, d: Denom)
    requires VaultsInOrder(f) && key in f.swaps
    ensures var r, info := AckSwap(f, key, ack), f.swaps[key];
            && (r.Some? <==>
                  if ack.None? then !f.native && info.coin.amount + info.partnerFee <= U128_MAX else
                  && ack.value.SwapAck? && CanTake(f, info.assetIn, info.coin)
                  && Get(f.partnerFees, info.assetIn) + info.partnerFee <= U128_MAX)
            && (r.Some? ==>
                  && Booked(r.value.factory, t, d)
                     == Booked(f, t, d) + (if ack.Some? && t == info.assetIn then InDenom(info.coin, d) else 0)
                  && Get(r.value.factory.partnerFees, t)
                     == Get(f.partnerFees, t) + (if ack.Some? && t == info.assetIn then info.partnerFee else 0))
  {
    hide DepositIn, EscrowValid, Booked, CanTake, Credit;
    var f1, info := f.(swaps := f.swaps - {key}), f.swaps[key];
    SameVaults(f, f1, info.assetIn, info.coin, t, d);
    DepositInLaw(f1, info.assetIn, info.coin, t, d);
    FeeCounted(f.partnerFees, info.assetIn, info.partnerFee, t);
    if AckSwap(f, key, ack).Some? && ack.Some? {
      var f2 := DepositIn(f1, info.assetIn, info.coin).value;
      SameVaults(f2, AckSwap(f, key, ack).value.factory, info.assetIn, info.coin, t, d);
    }
  }

  // ----- Releases -----

  /** All the coins a list of payments sends out. */
  function SentTotal(ps: seq<Payment>): int {
    if ps == [] then 0 else
    SentTotal(ps[..|ps| - 1]) + (match CoinOf(ps[|ps| - 1]) case Some(c) => c.amount case None => 0)
  }

  lemma {:induction false} PayEachSums(coins: seq<Coin>, to: Address, d: Denom)
    ensures SentTotal(PayEach(coins, to)) == CoinTotal(coins) && SentOut(PayEach(coins, to), d) == CoinsIn(coins, d)
  {
    if coins != [] {
      var l := |coins| - 1;
      assert PayEach(coins, to)[..l] == PayEach(coins[..l], to);
      PayEachSums(coins[..l], to, d);
    }
  }

  /** Payments in full of one amount to one address. */
  predicate PaysTo(ps: seq<Payment>, to: Address, amount: Uint128) {
    SentTotal(ps) == amount && forall i | 0 <= i < |ps| :: ps[i].Pay? && ps[i].to == to
  }

  /** A release is paid exactly when it is positive and the allowed denominations of its token hold it; the
      payments add up to its amount and all go to the packet's address, and the escrow's books fall by them,
      denomination by denomination. */
  lemma PayReleaseLaw(f: Factory, r: Release, t: Token, d: Denom)
    requires VaultsInOrder(f)
    ensures PayRelease(f, r).Some? <==>
              && r.amount > 0 && r.token in f.escrows && f.escrows[r.token].allowed.Some?
              && r.amount <= Held(f.escrows[r.token].amounts, f.escrows[r.token].allowed.value)
    ensures PayRelease(f, r).Some? ==>
              var (g, ps) := PayRelease(f, r).value;
              && PaysTo(ps, r.to, r.amount)
              && Booked(g, t, d) == Booked(f, t, d) - (if t == r.token then SentOut(ps, d) else 0)
              && g == f.(escrows := g.escrows)
  {
    hide EscrowModel.Withdraw, EscrowValid, Booking, SentTotal, SentOut;
    if r.token in f.escrows {
      var e := f.escrows[r.token];
      if EscrowModel.Withdraw(e, r.amount).Some? { WithdrawNeeds(e, r.amount); }
      if e.allowed.Some? && r.amount > 0 { WithdrawLaw(e, r.amount); }
      if EscrowModel.Withdraw(e, r.amount).Some? {
        WithdrawBooks(e, r.amount, d);
        PayEachSums(EscrowModel.Withdraw(e, r.amount).value.1, r.to, d);
      }
    }
  }

  lemma WithdrawNeeds(e: Escrow, amount: Uint128)
    requires EscrowModel.Withdraw(e, amount).Some?
    ensures amount > 0 && e.allowed.Some?
  {
  }
}
