/** A factory: it records requests, sends them to the hub and settles them on the acknowledgement or the
    timeout (contracts/liquidity/factory/src/execute.rs, contracts/liquidity/factory/src/ibc/). */
module FactoryModel {
  import opened Arith
  import opened Types
  import opened TxIds
  import opened EscrowModel
  import opened HubModel

  const MAX_PARTNER_FEE_BPS: int := 30

  /** Pending requests are stored under the sender and the transaction id. */
  datatype ReqKey = ReqKey(sender: Address, tx: string)

  datatype AddInfo = AddInfo(pair: Pair, coin1: Coin, coin2: Coin)

  datatype RemoveInfo = RemoveInfo(pair: Pair, lp: Uint128, cw20: Address)

  datatype SwapInfo = SwapInfo(assetIn: Token, coin: Coin, partnerFee: Uint128, partner: Option<Address>)

  datatype Creation = PoolCreation(pair: Pair) | EscrowCreation(token: Token)

  datatype Factory = Factory(
    chain: ChainUid,
    native: bool,                       // on the hub's own chain: an error undoes the whole request
    nonce: Uint128,
    adds: map<ReqKey, AddInfo>,
    removes: map<ReqKey, RemoveInfo>,
    swaps: map<ReqKey, SwapInfo>,
    creations: map<ReqKey, Creation>,   // pool and escrow requests share one storage namespace
    vlpOf: map<Pair, Address>,
    cw20Of: map<Address, Address>,      // the LP token of each pool
    shares: map<Address, Uint128>,      // LP issued on this chain, by pool
    escrows: map<Token, Escrow>,
    partnerFees: map<Token, Uint128>)

  /** Where in its chain's history a request is made. */
  datatype Moment = Moment(chainId: string, height: nat, index: nat)

  function NextStamp(f: Factory, at: Moment, sender: Address): Stamp {
    Stamp(User(f.chain, sender), at.chainId, at.height, at.index, NextNonce(f.nonce))
  }

  function KeyOf(s: Stamp): ReqKey { ReqKey(s.sender.address, Render(s)) }

  predicate DenomAllowed(f: Factory, t: Token, d: Denom) {
    t in f.escrows && d in f.escrows[t].allowed.GetOr([])
  }

  // ----- Requests -----

  datatype Requested = Requested(factory: Factory, stamp: Stamp, tx: HubTx)

  function RequestAdd(f: Factory, at: Moment, sender: Address, pair: Pair, coin1: Coin, coin2: Coin, slippage: nat)
    : Option<Requested>
  {
    var _ :- Ensure(pair.Sorted());
    var stamp := NextStamp(f, at, sender);
    var key := KeyOf(stamp);
    var _ :- Ensure(1 <= slippage <= 100);
    var _ :- Ensure(key !in f.adds);
    var _ :- Ensure(pair.Tuple() in f.vlpOf);
    var _ :- Ensure(coin1.amount != 0 && coin2.amount != 0);
    var _ :- Ensure(DenomAllowed(f, pair.token1, coin1.denom) && DenomAllowed(f, pair.token2, coin2.denom));
    Some(Requested(f.(nonce := stamp.nonce, adds := f.adds[key := AddInfo(pair, coin1, coin2)]), stamp,
                   HubTx.AddLiquidity(User(f.chain, sender), pair, coin1.amount, coin2.amount, slippage)))
  }

  /** Made through the LP token contract of the pool, which hands over `received` tokens; the request names its own
      amount, and the two are never compared. */
  function RequestRemove(f: Factory, at: Moment, sender: Address, caller: Address, pair: Pair, lp: Uint128,
                         received: Uint128, rs: seq<Receiver>)
    : Option<Requested>
  {
    var stamp := NextStamp(f, at, sender);
    var key := KeyOf(stamp);
    var _ :- Ensure(key !in f.removes);
    var _ :- Ensure(pair.Tuple() in f.vlpOf && f.vlpOf[pair.Tuple()] in f.cw20Of);
    var cw20 := f.cw20Of[f.vlpOf[pair.Tuple()]];
    var _ :- Ensure(cw20 == caller);
    var _ :- Ensure(lp != 0);
    Some(Requested(f.(nonce := stamp.nonce, removes := f.removes[key := RemoveInfo(pair, lp, cw20)]), stamp,
                   HubTx.RemoveLiquidity(User(f.chain, sender), pair, lp, rs)))
  }

  datatype Partner = Partner(bps: nat, recipient: Address)

  /** The partner fee of an amount, rounded up. */
  function PartnerFee(amount: Uint128, partner: Option<Partner>): Option<Uint128> {
    var bps := if partner.Some? then partner.value.bps else 0;
    var _ :- Ensure(bps <= MAX_PARTNER_FEE_BPS);
    MulCeil(amount, bps * BPS)
  }

  /** `attached` is what really came with the request: of a native coin at least the amount after the partner fee
      is demanded, while a token contract hands over the amount it announces. */
  function RequestSwap(f: Factory, at: Moment, sender: Address, assetIn: Token, coin: Coin, attached: Uint128,
                       assetOut: Token, minOut: Uint128, swaps: seq<SwapPair>, rs: seq<Receiver>,
                       partner: Option<Partner>)
    : Option<Requested>
  {
    var stamp := NextStamp(f, at, sender);
    var key := KeyOf(stamp);
    var fee :- PartnerFee(coin.amount, partner);
    var net :- CheckedSub(coin.amount, fee);
    var _ :- Ensure(net != 0 && minOut != 0);
    var _ :- Ensure(key !in f.swaps);
    var _ :- Ensure(swaps != [] && swaps[0].tokenIn == assetIn && swaps[|swaps| - 1].tokenOut == assetOut);
    var _ :- Ensure(DenomAllowed(f, assetIn, coin.denom));
    var _ :- Ensure(FundsSuffice(coin, net, attached));
    var info := SwapInfo(assetIn, Coin(coin.denom, net), fee,
                         if partner.Some? then Some(partner.value.recipient) else None);
    Some(Requested(f.(nonce := stamp.nonce, swaps := f.swaps[key := info]), stamp,
                   HubTx.Swap(User(f.chain, sender), assetIn, net, assetOut, minOut, swaps, rs)))
  }

  predicate FundsSuffice(coin: Coin, net: Uint128, attached: Uint128) {
    if coin.denom.Native? then attached >= net else attached == coin.amount
  }

  function RequestWithdraw(f: Factory, at: Moment, sender: Address, token: Token, amount: Uint128, rs: seq<Receiver>)
    : Option<Requested>
  {
    var stamp := NextStamp(f, at, sender);
    Some(Requested(f.(nonce := stamp.nonce), stamp, HubTx.Withdraw(User(f.chain, sender), token, Some(amount), rs)))
  }

  /** Pool and escrow creation requests, as far as their pending records go. */
  function RequestCreation(f: Factory, at: Moment, sender: Address, what: Creation): Option<Factory> {
    var stamp := NextStamp(f, at, sender);
    var key := KeyOf(stamp);
    var _ :- Ensure(key !in f.creations);
    var _ :- Ensure(match what
                    case PoolCreation(pair) => pair.token1 != pair.token2 && pair.Tuple() !in f.vlpOf
                    case EscrowCreation(token) => token !in f.escrows);
    Some(f.(nonce := stamp.nonce, creations := f.creations[key := what]))
  }

  // ----- Settlement -----

  /** What a settlement sends out. */
  datatype Payment =
    | ToEscrow(token: Token, coin: Coin)
    | Pay(coin: Coin, to: Address)
    | LpMint(amount: Uint128, to: Address)
    | LpBurn(amount: Uint128)
    | LpReturn(amount: Uint128, to: Address)

  datatype Settled = Settled(factory: Factory, payments: seq<Payment>)

  function DepositIn(f: Factory, t: Token, c: Coin): Option<Factory> {
    var _ :- Ensure(t in f.escrows);
    var e :- Deposit(f.escrows[t], c);
    Some(f.(escrows := f.escrows[t := e]))
  }

  /** An acknowledgement of None is an error or a timeout, which are handled alike. */
  function AckAdd(f: Factory, key: ReqKey, ack: Option<Ack>): Option<Settled> {
    var _ :- Ensure(key in f.adds);
    var info := f.adds[key];
    var f1 := f.(adds := f.adds - {key});
    if ack.Some? then
      var _ :- Ensure(ack.value.AddAck?);
      var shares :- Credit(f.shares, ack.value.vlp, ack.value.mintedLp);
      var f2 :- DepositIn(f1.(shares := shares), info.pair.token1, info.coin1);
      var f3 :- DepositIn(f2, info.pair.token2, info.coin2);
      var _ :- Ensure(ack.value.vlp in f.cw20Of);
      Some(Settled(f3, [ToEscrow(info.pair.token1, info.coin1), ToEscrow(info.pair.token2, info.coin2),
                        LpMint(ack.value.mintedLp, key.sender)]))
    else
      var _ :- Ensure(!f.native);
      Some(Settled(f1, [Pay(info.coin1, key.sender), Pay(info.coin2, key.sender)]))
  }

  function AckRemove(f: Factory, key: ReqKey, ack: Option<Ack>): Option<Settled> {
    var _ :- Ensure(key in f.removes);
    var info := f.removes[key];
    var f1 := f.(removes := f.removes - {key});
    if ack.Some? then
      var _ :- Ensure(ack.value.RemoveAck?);
      var shares :- Debit(f.shares, ack.value.vlp, ack.value.burnedLp);
      var _ :- Ensure(ack.value.vlp in f.cw20Of);
      Some(Settled(f1.(shares := shares), [LpBurn(info.lp)]))
    else
      var _ :- Ensure(!f.native);
      Some(Settled(f1, [LpReturn(info.lp, key.sender)]))
  }

  function AckSwap(f: Factory, key: ReqKey, ack: Option<Ack>): Option<Settled> {
    var _ :- Ensure(key in f.swaps);
    var info := f.swaps[key];
    var f1 := f.(swaps := f.swaps - {key});
    if ack.Some? then
      var _ :- Ensure(ack.value.SwapAck?);
      var f2 :- DepositIn(f1, info.assetIn, info.coin);
      if info.partnerFee == 0 then Some(Settled(f2, [ToEscrow(info.assetIn, info.coin)])) else
      var fees :- Credit(f.partnerFees, info.assetIn, info.partnerFee);
      Some(Settled(f2.(partnerFees := fees),
                   [ToEscrow(info.assetIn, info.coin),
                    Pay(Coin(info.coin.denom, info.partnerFee), info.partner.GetOr(key.sender))]))
    else
      var _ :- Ensure(!f.native);
      var whole :- CheckedAdd(info.coin.amount, info.partnerFee);
      Some(Settled(f1, [Pay(Coin(info.coin.denom, whole), key.sender)]))
  }

  /** The handler an acknowledgement of this request reaches. */
  function AckRequest(f: Factory, key: ReqKey, tx: HubTx, ack: Option<Ack>): Option<Settled> {
    match tx
    case AddLiquidity(_, _, _, _, _) => AckAdd(f, key, ack)
    case RemoveLiquidity(_, _, _, _) => AckRemove(f, key, ack)
    case Swap(_, _, _, _, _, _, _) => AckSwap(f, key, ack)
    case _ => None
  }

  /** contracts/liquidity/factory/src/ibc/receive.rs: a release packet is paid out of the escrow or fails. */
  function PayRelease(f: Factory, r: Release): Option<(Factory, seq<Payment>)> {
    var _ :- Ensure(r.token in f.escrows);
    var (e, coins) :- EscrowModel.Withdraw(f.escrows[r.token], r.amount);
    Some((f.(escrows := f.escrows[r.token := e]), PayEach(coins, r.to)))
  }

  function PayEach(coins: seq<Coin>, to: Address): seq<Payment> {
    seq(|coins|, i requires 0 <= i < |coins| => Pay(coins[i], to))
  }

  /** The partner fee is the exact fee rounded up and never more than the amount, so the subtraction cannot fail;
      nothing is left to swap only of an amount of nothing, or of one unit with a fee on it. */
  lemma PartnerFeeLaw(amount: Uint128, partner: Option<Partner>)
    ensures var bps := if partner.Some? then partner.value.bps else 0;
            && (PartnerFee(amount, partner).Some? <==> bps <= MAX_PARTNER_FEE_BPS)
            && (PartnerFee(amount, partner).Some? ==>
                  var fee := PartnerFee(amount, partner).value;
                  && 10_000 * fee - 10_000 < amount * bps <= 10_000 * fee && fee <= amount
                  && (fee == amount <==> amount == 0 || (amount == 1 && bps > 0)))
  {
    var bps := if partner.Some? then partner.value.bps else 0;
    if bps <= MAX_PARTNER_FEE_BPS {
      FeeProduct(amount, bps);
      if PartnerFee(amount, partner).Some? { MulCeilLaw(amount, bps * BPS); }
    }
  }

  lemma FeeProduct(amount: Uint128, bps: nat)
    requires bps <= MAX_PARTNER_FEE_BPS
    ensures amount * (bps * BPS) == BPS * (amount * bps) && 0 <= amount * bps <= MAX_PARTNER_FEE_BPS * amount
    ensures MulFloor(amount, bps * BPS).Some?
    ensures MulCeil(amount, bps * BPS).Some?
    ensures bps > 0 ==> amount <= amount * bps
  {
    MulLe(bps, MAX_PARTNER_FEE_BPS, amount);
    MulLe(0, bps, amount);
    if bps > 0 { MulLe(1, bps, amount); }
    DivBounds(amount * (bps * BPS), DECIMAL_ONE);
  }

  // ----- Laws of settlement -----

  function CoinOf(p: Payment): Option<Coin> {
    match p case ToEscrow(_, c) => Some(c) case Pay(c, _) => Some(c) case _ => None
  }

  /** Everything a list of payments sends out in one denomination. */
  function SentOut(ps: seq<Payment>, d: Denom): int {
    if ps == [] then 0 else
    SentOut(ps[..|ps| - 1], d)
    + (match CoinOf(ps[|ps| - 1]) case Some(c) => if c.denom == d then c.amount else 0 case None => 0)
  }

  /** Settling an add sends out exactly the two coins of its request, whichever way it goes. */
  lemma AckAddPaysExactly(f: Factory, key: ReqKey, ack: Option<Ack>, d: Denom)
    requires AckAdd(f, key, ack).Some?
    ensures SentOut(AckAdd(f, key, ack).value.payments, d)
            == InDenom(f.adds[key].coin1, d) + InDenom(f.adds[key].coin2, d)
  {
    hide DepositIn, Credit;
    var ps, info := AckAdd(f, key, ack).value.payments, f.adds[key];
    TwoSent(ps, info.coin1, info.coin2, d);
  }

  lemma TwoSent(ps: seq<Payment>, c1: Coin, c2: Coin, d: Denom)
    requires 2 <= |ps| <= 3 && CoinOf(ps[0]) == Some(c1) && CoinOf(ps[1]) == Some(c2)
    requires |ps| == 3 ==> CoinOf(ps[2]) == None
    ensures SentOut(ps, d) == InDenom(c1, d) + InDenom(c2, d)
  {
    assert ps[..1][..0] == [] && ps[..2][..1] == ps[..1] && ps[..2][1] == ps[1] && ps[..1][0] == ps[0];
    assert SentOut(ps[..1], d) == InDenom(c1, d);
    assert SentOut(ps[..2], d) == InDenom(c1, d) + InDenom(c2, d);
    if |ps| == 3 { assert SentOut(ps, d) == SentOut(ps[..2], d); } else { assert ps[..2] == ps; }
  }

  /** Settling a swap sends out exactly the input and the partner fee, whichever way it goes. */
  lemma AckSwapPaysExactly(f: Factory, key: ReqKey, ack: Option<Ack>, d: Denom)
    requires AckSwap(f, key, ack).Some?
    ensures SentOut(AckSwap(f, key, ack).value.payments, d)
            == (if f.swaps[key].coin.denom == d then f.swaps[key].coin.amount + f.swaps[key].partnerFee else 0)
  {
    var ps := AckSwap(f, key, ack).value.payments;
    assert ps[..1][..0] == [] && ps[..1][0] == ps[0];
    assert SentOut(ps[..1], d) == InDenom(CoinOf(ps[0]).value, d);
    if |ps| == 1 { assert ps[..1] == ps; }
  }

  /** What an accepted swap request leaves in its pending record. */
  lemma SwapRecorded(f: Factory, at: Moment, sender: Address, assetIn: Token, coin: Coin, attached: Uint128,
                     assetOut: Token, minOut: Uint128, swaps: seq<SwapPair>, rs: seq<Receiver>,
                     partner: Option<Partner>)
    requires RequestSwap(f, at, sender, assetIn, coin, attached, assetOut, minOut, swaps, rs, partner).Some?
    ensures PartnerFee(coin.amount, partner).Some?
    ensures var q := RequestSwap(f, at, sender, assetIn, coin, attached, assetOut, minOut, swaps, rs, partner).value;
            var key, fee := KeyOf(q.stamp), PartnerFee(coin.amount, partner).value;
            && key in q.factory.swaps && key.sender == sender && q.factory.native == f.native
            && var info := q.factory.swaps[key];
            && info.coin.denom == coin.denom && info.partnerFee == fee && info.coin.amount + fee == coin.amount
            && FundsSuffice(coin, info.coin.amount, attached)
  {
    hide PartnerFee, DenomAllowed, Render, FundsSuffice;
  }

  /** Whichever way a swap is settled, and however much later, its settlement sends out the whole amount of the
      request. The request's own attachment covers that if and only if the sender attached the whole amount. The
      guard on attached funds asks for less by up to the partner fee; a request without one, or through a token
      contract, is always covered. */
  lemma SwapCovered(f: Factory, at: Moment, sender: Address, assetIn: Token, coin: Coin, attached: Uint128,
                    assetOut: Token, minOut: Uint128, swaps: seq<SwapPair>, rs: seq<Receiver>,
                    partner: Option<Partner>, g: Factory, ack: Option<Ack>)
    requires RequestSwap(f, at, sender, assetIn, coin, attached, assetOut, minOut, swaps, rs, partner).Some?
    requires var q := RequestSwap(f, at, sender, assetIn, coin, attached, assetOut, minOut, swaps, rs, partner).value;
             var key := KeyOf(q.stamp);
             key in g.swaps && key in q.factory.swaps && g.swaps[key] == q.factory.swaps[key]
             && AckSwap(g, key, ack).Some?
    ensures PartnerFee(coin.amount, partner).Some?
    ensures var q := RequestSwap(f, at, sender, assetIn, coin, attached, assetOut, minOut, swaps, rs, partner).value;
            var payments := AckSwap(g, KeyOf(q.stamp), ack).value.payments;
            var out, fee := SentOut(payments, coin.denom), PartnerFee(coin.amount, partner).value;
            && out == coin.amount && (forall d | d != coin.denom :: SentOut(payments, d) == 0)
            && (ack.None? ==> payments == [Pay(coin, sender)])
            && (out <= attached <==> coin.amount <= attached)
            && out - attached <= fee && (coin.denom.Smart? || fee == 0 ==> out <= attached)
  {
    hide PartnerFee, Render, RequestSwap, SentOut, DepositIn, Credit;
    SwapRecorded(f, at, sender, assetIn, coin, attached, assetOut, minOut, swaps, rs, partner);
    var q := RequestSwap(f, at, sender, assetIn, coin, attached, assetOut, minOut, swaps, rs, partner).value;
    forall d { AckSwapPaysExactly(g, KeyOf(q.stamp), ack, d); }
  }

  /** A request for 10000 with a partner fee of 30 basis points is accepted with 9970 attached and refunded with
      10000. */
  lemma RefundCanExceed(f: Factory, at: Moment, d: string)
    requires !f.native && f.swaps == map[] && DenomAllowed(f, "x", Native(d))
    ensures var coin, partner := Coin(Native(d), 10000), Some(Partner(30, "p"));
            var q := RequestSwap(f, at, "u", "x", coin, 9970, "y", 1, [SwapPair("x", "y", false)], [], partner);
            && q.Some?
            && var refund := AckSwap(q.value.factory, KeyOf(q.value.stamp), None);
            refund.Some? && refund.value.payments == [Pay(coin, "u")] && coin.amount > 9970
  {
    hide Render, DenomAllowed;
    assert PartnerFee(10000, Some(Partner(30, "p"))) == Some(30);
  }

  /** The LP tokens a list of payments burns or sends back. */
  function LpOut(ps: seq<Payment>): int {
    if ps == [] then 0 else
    var p := ps[|ps| - 1];
    LpOut(ps[..|ps| - 1]) + (match p case LpBurn(a) => a case LpReturn(a, _) => a case _ => 0)
  }

  /** Whichever way a removal is settled, it burns or returns the LP the request names; the LP tokens that came with
      the request cover that if and only if they are at least as many. The request is taken either way. */
  lemma RemovalCovered(f: Factory, at: Moment, sender: Address, caller: Address, pair: Pair, lp: Uint128,
                       received: Uint128, rs: seq<Receiver>, g: Factory, ack: Option<Ack>)
    requires RequestRemove(f, at, sender, caller, pair, lp, received, rs).Some?
    requires var q := RequestRemove(f, at, sender, caller, pair, lp, received, rs).value;
             var key := KeyOf(q.stamp);
             key in g.removes && key in q.factory.removes && g.removes[key] == q.factory.removes[key]
             && AckRemove(g, key, ack).Some?
    ensures var q := RequestRemove(f, at, sender, caller, pair, lp, received, rs).value;
            var payments := AckRemove(g, KeyOf(q.stamp), ack).value.payments;
            && payments == [if ack.Some? then LpBurn(lp) else LpReturn(lp, sender)]
            && (LpOut(payments) <= received <==> lp <= received)
    ensures forall other: Uint128 :: RequestRemove(f, at, sender, caller, pair, lp, other, rs)
                                     == RequestRemove(f, at, sender, caller, pair, lp, received, rs)
  {
    hide Render, Debit;
    var q := RequestRemove(f, at, sender, caller, pair, lp, received, rs).value;
    var payments := AckRemove(g, KeyOf(q.stamp), ack).value.payments;
    assert payments[..0] == [];
    assert LpOut(payments) == LpOut(payments[..0]) + lp;
  }

  /** A request to remove 1000 that came with one LP token is accepted, and its refusal sends 1000 back. */
  lemma RemovalCanExceed(f: Factory, at: Moment, pair: Pair)
    requires !f.native && f.removes == map[] && pair.Tuple() in f.vlpOf && f.vlpOf[pair.Tuple()] in f.cw20Of
    ensures var q := RequestRemove(f, at, "u", f.cw20Of[f.vlpOf[pair.Tuple()]], pair, 1000, 1, []);
            && q.Some?
            && var refund := AckRemove(q.value.factory, KeyOf(q.value.stamp), None);
            refund.Some? && refund.value.payments == [LpReturn(1000, "u")]
  {
    hide Render, StrLe;
  }

  // ----- Transaction ids in use -----

  /** A key some earlier call of this contract's counter produced. */
  ghost predicate Issued(f: Factory, key: ReqKey) {
    exists s: Stamp :: 1 <= s.nonce <= f.nonce && key.tx == Render(s)
  }

  ghost predicate IdsIssued(f: Factory) {
    forall k | k in f.adds || k in f.removes || k in f.swaps || k in f.creations :: Issued(f, k)
  }

  /** Within the first 2^128 calls the next request's key is in no pending map, so no request is ever
      refused as already existing and pool and escrow requests never meet in their shared namespace. */
  lemma NextKeyIsFree(f: Factory, at: Moment, sender: Address)
    requires IdsIssued(f)
    ensures var k := KeyOf(NextStamp(f, at, sender));
            k !in f.adds && k !in f.removes && k !in f.swaps && k !in f.creations
  {
    var stamp := NextStamp(f, at, sender);
    var k := KeyOf(stamp);
    if k in f.adds || k in f.removes || k in f.swaps || k in f.creations {
      var s: Stamp :| 1 <= s.nonce <= f.nonce && k.tx == Render(s);
      SameIdSameNonce(s, stamp);
    }
  }

  datatype FactoryOp =
    | AskAdd(at: Moment, sender: Address, pair: Pair, coin1: Coin, coin2: Coin, slippage: nat)
    | AskRemove(at: Moment, sender: Address, caller: Address, pair: Pair, lp: Uint128, received: Uint128,
                receivers: seq<Receiver>)
    | AskSwap(at: Moment, sender: Address, assetIn: Token, coin: Coin, attached: Uint128, assetOut: Token,
              minOut: Uint128, swaps: seq<SwapPair>, receivers: seq<Receiver>, partner: Option<Partner>)
    | AskWithdraw(at: Moment, sender: Address, token: Token, amount: Uint128, receivers: seq<Receiver>)
    | AskCreation(at: Moment, sender: Address, what: Creation)
    | Settle(key: ReqKey, tx: HubTx, ack: Option<Ack>)
    | SettleCreation(key: ReqKey)

  function AfterRequest(f: Factory, r: Option<Requested>): Factory {
    match r case Some(q) => q.factory case None => f
  }

  /** One message to the factory; a refused one is rolled back. Acknowledgements may be any at all. */
  function FactoryStep(f: Factory, op: FactoryOp): Factory {
    match op
    case AskAdd(at, sender, pair, c1, c2, slippage) =>
      AfterRequest(f, RequestAdd(f, at, sender, pair, c1, c2, slippage))
    case AskRemove(at, sender, caller, pair, lp, received, rs) =>
      AfterRequest(f, RequestRemove(f, at, sender, caller, pair, lp, received, rs))
    case AskSwap(at, sender, assetIn, coin, attached, assetOut, minOut, swaps, rs, partner) =>
      AfterRequest(f, RequestSwap(f, at, sender, assetIn, coin, attached, assetOut, minOut, swaps, rs, partner))
    case AskWithdraw(at, sender, token, amount, rs) =>
      AfterRequest(f, RequestWithdraw(f, at, sender, token, amount, rs))
    case AskCreation(at, sender, what) => RequestCreation(f, at, sender, what).GetOr(f)
    case Settle(key, tx, ack) => (match AckRequest(f, key, tx, ack) case Some(s) => s.factory case None => f)
    case SettleCreation(key) => f.(creations := f.creations - {key})
  }

  function FactoryRun(f: Factory, ops: seq<FactoryOp>): Factory {
    if ops == [] then f else FactoryStep(FactoryRun(f, ops[..|ops| - 1]), ops[|ops| - 1])
  }

  ghost function PendingKeys(f: Factory): set<ReqKey> {
    f.adds.Keys + f.removes.Keys + f.swaps.Keys + f.creations.Keys
  }

  predicate NothingPending(f: Factory) {
    f.adds == map[] && f.removes == map[] && f.swaps == map[] && f.creations == map[]
  }

  /** g is f with other shares, escrows and partner fees. */
  ghost predicate SameRequests(f: Factory, g: Factory) {
    g == f.(shares := g.shares, escrows := g.escrows, partnerFees := g.partnerFees)
  }

  lemma DepositInKeeps(f: Factory, t: Token, c: Coin)
    requires DepositIn(f, t, c).Some?
    ensures SameRequests(f, DepositIn(f, t, c).value)
  {
    hide Deposit;
  }

  lemma AckAddRemoves(f: Factory, key: ReqKey, ack: Option<Ack>)
    requires AckAdd(f, key, ack).Some?
    ensures key in f.adds && SameRequests(f.(adds := f.adds - {key}), AckAdd(f, key, ack).value.factory)
  {
    hide DepositIn, Credit;
    if ack.Some? {
      var info := f.adds[key];
      var f1 := f.(adds := f.adds - {key}, shares := Credit(f.shares, ack.value.vlp, ack.value.mintedLp).value);
      DepositInKeeps(f1, info.pair.token1, info.coin1);
      DepositInKeeps(DepositIn(f1, info.pair.token1, info.coin1).value, info.pair.token2, info.coin2);
    }
  }

  lemma AckRemoveRemoves(f: Factory, key: ReqKey, ack: Option<Ack>)
    requires AckRemove(f, key, ack).Some?
    ensures key in f.removes && SameRequests(f.(removes := f.removes - {key}), AckRemove(f, key, ack).value.factory)
  {
    hide Debit;
  }

  lemma AckSwapRemoves(f: Factory, key: ReqKey, ack: Option<Ack>)
    requires AckSwap(f, key, ack).Some?
    ensures key in f.swaps && SameRequests(f.(swaps := f.swaps - {key}), AckSwap(f, key, ack).value.factory)
  {
    hide DepositIn, Credit;
    if ack.Some? { DepositInKeeps(f.(swaps := f.swaps - {key}), f.swaps[key].assetIn, f.swaps[key].coin); }
  }

  /** A settlement removes its own pending record and no other. */
  lemma AckOnlyRemoves(f: Factory, key: ReqKey, tx: HubTx, ack: Option<Ack>)
    requires AckRequest(f, key, tx, ack).Some?
    ensures var g := AckRequest(f, key, tx, ack).value.factory;
            && g.nonce == f.nonce && g.chain == f.chain && g.creations == f.creations
            && g.adds == (if tx.AddLiquidity? then f.adds - {key} else f.adds)
            && g.removes == (if tx.RemoveLiquidity? then f.removes - {key} else f.removes)
            && g.swaps == (if tx.Swap? then f.swaps - {key} else f.swaps)
            && (tx.AddLiquidity? ==> key in f.adds) && (tx.RemoveLiquidity? ==> key in f.removes)
            && (tx.Swap? ==> key in f.swaps)
  {
    hide AckAdd, AckRemove, AckSwap;
    if tx.AddLiquidity? { AckAddRemoves(f, key, ack); }
    else if tx.RemoveLiquidity? { AckRemoveRemoves(f, key, ack); }
    else { AckSwapRemoves(f, key, ack); }
  }

  /** The counter moved on and at most one id was recorded, the new one. */
  ghost predicate IssuedOne(f: Factory, g: Factory, s: Stamp) {
    g.nonce == s.nonce == NextNonce(f.nonce) && PendingKeys(g) <= PendingKeys(f) + {KeyOf(s)}
  }

  /** g is f after a request that put at most one record, under the new stamp's key. */
  lemma RecordIssued(f: Factory, g: Factory, s: Stamp)
    requires g.nonce == s.nonce == NextNonce(f.nonce)
    requires g.adds.Keys <= f.adds.Keys + {KeyOf(s)} && g.removes.Keys <= f.removes.Keys + {KeyOf(s)}
    requires g.swaps.Keys <= f.swaps.Keys + {KeyOf(s)} && g.creations.Keys <= f.creations.Keys + {KeyOf(s)}
    ensures IssuedOne(f, g, s)
  {
    hide Render;
  }

  lemma AskIssues(f: Factory, op: FactoryOp)
    requires op.AskAdd? || op.AskRemove? || op.AskSwap? || op.AskWithdraw? || op.AskCreation?
    ensures FactoryStep(f, op) == f || IssuedOne(f, FactoryStep(f, op), NextStamp(f, op.at, op.sender))
  {
    hide PartnerFee, DenomAllowed, Render, IssuedOne, StrLe;
    if FactoryStep(f, op) != f { RecordIssued(f, FactoryStep(f, op), NextStamp(f, op.at, op.sender)); }
  }

  /** A message either issues the next id, or no id at all. */
  lemma StepIssues(f: Factory, op: FactoryOp)
    ensures var g := FactoryStep(f, op);
            || (g.nonce == f.nonce && PendingKeys(g) <= PendingKeys(f))
            || (exists s: Stamp :: IssuedOne(f, g, s))
  {
    hide AckRequest, RequestAdd, RequestRemove, RequestSwap, RequestWithdraw, RequestCreation, IssuedOne;
    if op.Settle? {
      if AckRequest(f, op.key, op.tx, op.ack).Some? { AckOnlyRemoves(f, op.key, op.tx, op.ack); }
    } else if !op.SettleCreation? {
      AskIssues(f, op);
    }
  }

  lemma StepKeepsIds(f: Factory, op: FactoryOp)
    requires IdsIssued(f) && f.nonce < U128_MAX
    ensures IdsIssued(FactoryStep(f, op)) && FactoryStep(f, op).nonce <= f.nonce + 1
  {
    hide FactoryStep, Render;
    var g := FactoryStep(f, op);
    StepIssues(f, op);
    forall k | k in PendingKeys(g) ensures Issued(g, k) {
      if k in PendingKeys(f) {
        var s: Stamp :| 1 <= s.nonce <= f.nonce && k.tx == Render(s);
        assert s.nonce <= g.nonce;
      } else {
        var s: Stamp :| IssuedOne(f, g, s);
        assert k == KeyOf(s);
      }
    }
  }

  /** Whatever the requests and acknowledgements, the first 2^128 - 1 messages only ever leave ids of
      the counter's own past in the pending maps. */
  lemma {:induction false} FactoryRunIds(f: Factory, ops: seq<FactoryOp>)
    requires f.nonce == 0 && NothingPending(f) && |ops| <= U128_MAX
    ensures IdsIssued(FactoryRun(f, ops)) && FactoryRun(f, ops).nonce <= |ops|
  {
    hide FactoryStep;
    if ops != [] {
      FactoryRunIds(f, ops[..|ops| - 1]);
      StepKeepsIds(FactoryRun(f, ops[..|ops| - 1]), ops[|ops| - 1]);
    }
  }
}
