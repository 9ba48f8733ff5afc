/** A factory's stored state and the messages that update it (contracts/liquidity/factory/src/execute.rs and
    contracts/liquidity/factory/src/ibc/ack_and_timeout.rs), proved against FactoryModel; the escrows'
    own bookkeeping is EscrowContract's. */
module FactoryContract {
  import opened Arith
  import opened Types
  import opened TxIds
  import opened EscrowModel
  import opened HubModel
  import opened FactoryModel

  class Contract {
    const chain: ChainUid
    const native: bool
    var nonce: Uint128
    var adds: map<ReqKey, AddInfo>
    var removes: map<ReqKey, RemoveInfo>
    var swaps: map<ReqKey, SwapInfo>
    var creations: map<ReqKey, Creation>
    const vlpOf: map<Pair, Address>
    const cw20Of: map<Address, Address>
    var shares: map<Address, Uint128>
    var escrows: map<Token, Escrow>
    var partnerFees: map<Token, Uint128>

    function State(): Factory reads this {
      Factory(chain, native, nonce, adds, removes, swaps, creations, vlpOf, cw20Of, shares, escrows, partnerFees)
    }

    constructor (f: Factory)
      ensures State() == f
    {
      chain, native, nonce, adds, removes, swaps := f.chain, f.native, f.nonce, f.adds, f.removes, f.swaps;
      creations, vlpOf, cw20Of := f.creations, f.vlpOf, f.cw20Of;
      shares, escrows, partnerFees := f.shares, f.escrows, f.partnerFees;
    }

    /** The request was recorded as the specification says, or refused where it refuses. */
    predicate Sent(r: Option<(Stamp, HubTx)>, spec: Option<Requested>) reads this {
      r.Some? == spec.Some? && (r.Some? ==> spec.value == Requested(State(), r.value.0, r.value.1))
    }

    predicate Paid(r: Option<seq<Payment>>, spec: Option<Settled>) reads this {
      r.Some? == spec.Some? && (r.Some? ==> spec.value == Settled(State(), r.value))
    }

    /** Advances the counter and stamps the request with it. */
    method GenerateTx(at: Moment, sender: Address) returns (s: Stamp)
      modifies this`nonce
      ensures s == NextStamp(old(State()), at, sender) && nonce == s.nonce
    {
      nonce := if nonce == U128_MAX then 0 else nonce + 1;
      s := Stamp(User(chain, sender), at.chainId, at.height, at.index, nonce);
    }

    // No request tests whether its key is already pending: with the ids in the maps all of the counter's past, the
    // new one cannot be among them.

    method Add(at: Moment, sender: Address, pair: Pair, coin1: Coin, coin2: Coin, slippage: nat)
      returns (r: Option<(Stamp, HubTx)>)
      requires IdsIssued(State())
      modifies this
      ensures Sent(r, RequestAdd(old(State()), at, sender, pair, coin1, coin2, slippage))
    {
      hide IdsIssued, Render, StrLe, DenomAllowed;
      var _ :- Ensure(pair.Sorted());
      NextKeyIsFree(State(), at, sender);
      var stamp := GenerateTx(at, sender);
      var key := KeyOf(stamp);
      var _ :- Ensure(1 <= slippage <= 100);
      assert key !in adds;
      var _ :- Ensure(pair.Tuple() in vlpOf);
      var _ :- Ensure(coin1.amount != 0 && coin2.amount != 0);
      SameDenoms(old(State()), State(), pair.token1, coin1.denom);
      SameDenoms(old(State()), State(), pair.token2, coin2.denom);
      var _ :- Ensure(DenomAllowed(State(), pair.token1, coin1.denom)
                      && DenomAllowed(State(), pair.token2, coin2.denom));
      adds := adds[key := AddInfo(pair, coin1, coin2)];
      return Some((stamp, HubTx.AddLiquidity(User(chain, sender), pair, coin1.amount, coin2.amount, slippage)));
    }

    method Remove(at: Moment, sender: Address, caller: Address, pair: Pair, lp: Uint128, received: Uint128,
                  rs: seq<Receiver>)
      returns (r: Option<(Stamp, HubTx)>)
      requires IdsIssued(State())
      modifies this
      ensures Sent(r, RequestRemove(old(State()), at, sender, caller, pair, lp, received, rs))
    {
      hide IdsIssued, Render, StrLe;
      NextKeyIsFree(State(), at, sender);
      var stamp := GenerateTx(at, sender);
      var key := KeyOf(stamp);
      assert key !in removes;
      var _ :- Ensure(pair.Tuple() in vlpOf && vlpOf[pair.Tuple()] in cw20Of);
      var cw20 := cw20Of[vlpOf[pair.Tuple()]];
      var _ :- Ensure(cw20 == caller);
      var _ :- Ensure(lp != 0);
      removes := removes[key := RemoveInfo(pair, lp, cw20)];
      return Some((stamp, HubTx.RemoveLiquidity(User(chain, sender), pair, lp, rs)));
    }

    method Swap(at: Moment, sender: Address, assetIn: Token, coin: Coin, attached: Uint128, assetOut: Token,
                minOut: Uint128, route: seq<SwapPair>, rs: seq<Receiver>, partner: Option<Partner>)
      returns (r: Option<(Stamp, HubTx)>)
      requires IdsIssued(State())
      modifies this
      ensures Sent(r, RequestSwap(old(State()), at, sender, assetIn, coin, attached, assetOut, minOut, route, rs,
                                  partner))
    {
      hide IdsIssued, Render, PartnerFee, DenomAllowed, FundsSuffice;
      NextKeyIsFree(State(), at, sender);
      var stamp := GenerateTx(at, sender);
      var key := KeyOf(stamp);
      var fee :- PartnerFee(coin.amount, partner);
      var net :- CheckedSub(coin.amount, fee);
      var _ :- Ensure(net != 0 && minOut != 0);
      assert key !in swaps;
      var _ :- Ensure(route != [] && route[0].tokenIn == assetIn && route[|route| - 1].tokenOut == assetOut);
      SameDenoms(old(State()), State(), assetIn, coin.denom);
      var _ :- Ensure(DenomAllowed(State(), assetIn, coin.denom));
      var _ :- Ensure(FundsSuffice(coin, net, attached));
      var recipient := if partner.Some? then Some(partner.value.recipient) else None;
      swaps := swaps[key := SwapInfo(assetIn, Coin(coin.denom, net), fee, recipient)];
      return Some((stamp, HubTx.Swap(User(chain, sender), assetIn, net, assetOut, minOut, route, rs)));
    }

    method Withdraw(at: Moment, sender: Address, token: Token, amount: Uint128, rs: seq<Receiver>)
      returns (r: Option<(Stamp, HubTx)>)
      modifies this
      ensures Sent(r, RequestWithdraw(old(State()), at, sender, token, amount, rs))
    {
      hide Render;
      var stamp := GenerateTx(at, sender);
      return Some((stamp, HubTx.Withdraw(User(chain, sender), token, Some(amount), rs)));
    }

    method Create(at: Moment, sender: Address, what: Creation) returns (r: Option<()>)
      requires IdsIssued(State())
      modifies this
      ensures r.Some? <==> RequestCreation(old(State()), at, sender, what).Some?
      ensures r.Some? ==> State() == RequestCreation(old(State()), at, sender, what).value
    {
      hide IdsIssued, Render, StrLe;
      NextKeyIsFree(State(), at, sender);
      var stamp := GenerateTx(at, sender);
      var key := KeyOf(stamp);
      assert key !in creations;
      match what {
        case PoolCreation(pair) => var _ :- Ensure(pair.token1 != pair.token2 && pair.Tuple() !in vlpOf);
        case EscrowCreation(token) => var _ :- Ensure(token !in escrows);
      }
      creations := creations[key := what];
      return Some(());
    }

    // ----- Settlement -----

    /** The message that moves a coin into a token's escrow. */
    method ToVault(t: Token, c: Coin) returns (r: Option<()>)
      modifies this`escrows
      ensures r.Some? <==> DepositIn(old(State()), t, c).Some?
      ensures r.Some? ==> State() == DepositIn(old(State()), t, c).value
    {
      hide Deposit;
      var _ :- Ensure(t in escrows);
      var e :- Deposit(escrows[t], c);
      escrows := escrows[t := e];
      return Some(());
    }

    method SettleAdd(key: ReqKey, ack: Option<Ack>) returns (r: Option<seq<Payment>>)
      modifies this
      ensures Paid(r, AckAdd(old(State()), key, ack))
      ensures r.Some? ==> key in old(adds) && forall d ::
                SentOut(r.value, d) == InDenom(old(adds)[key].coin1, d) + InDenom(old(adds)[key].coin2, d)
    {
      hide DepositIn, SentOut;
      forall d | AckAdd(State(), key, ack).Some?
        ensures SentOut(AckAdd(State(), key, ack).value.payments, d)
             == InDenom(adds[key].coin1, d) + InDenom(adds[key].coin2, d)
      {
        AckAddPaysExactly(State(), key, ack, d);
      }
      var _ :- Ensure(key in adds);
      var info := adds[key];
      adds := adds - {key};
      if ack.Some? {
        var _ :- Ensure(ack.value.AddAck?);
        shares :- Credit(shares, ack.value.vlp, ack.value.mintedLp);
        var _ :- ToVault(info.pair.token1, info.coin1);
        var _ :- ToVault(info.pair.token2, info.coin2);
        var _ :- Ensure(ack.value.vlp in cw20Of);
        return Some([ToEscrow(info.pair.token1, info.coin1), ToEscrow(info.pair.token2, info.coin2),
                     LpMint(ack.value.mintedLp, key.sender)]);
      }
      var _ :- Ensure(!native);
      return Some([Pay(info.coin1, key.sender), Pay(info.coin2, key.sender)]);
    }

    method SettleRemove(key: ReqKey, ack: Option<Ack>) returns (r: Option<seq<Payment>>)
      modifies this
      ensures Paid(r, AckRemove(old(State()), key, ack))
    {
      var _ :- Ensure(key in removes);
      var info := removes[key];
      removes := removes - {key};
      if ack.Some? {
        var _ :- Ensure(ack.value.RemoveAck?);
        shares :- Debit(shares, ack.value.vlp, ack.value.burnedLp);
        var _ :- Ensure(ack.value.vlp in cw20Of);
        return Some([LpBurn(info.lp)]);
      }
      var _ :- Ensure(!native);
      return Some([LpReturn(info.lp, key.sender)]);
    }

    method SettleSwap(key: ReqKey, ack: Option<Ack>) returns (r: Option<seq<Payment>>)
      modifies this
      ensures Paid(r, AckSwap(old(State()), key, ack))
      ensures r.Some? ==> key in old(swaps) && forall d ::
                SentOut(r.value, d)
                == InDenom(old(swaps)[key].coin, d)
                    + InDenom(Coin(old(swaps)[key].coin.denom, old(swaps)[key].partnerFee), d)
    {
      hide DepositIn, SentOut;
      forall d | AckSwap(State(), key, ack).Some?
        ensures SentOut(AckSwap(State(), key, ack).value.payments, d)
             == InDenom(swaps[key].coin, d) + InDenom(Coin(swaps[key].coin.denom, swaps[key].partnerFee), d)
      {
        AckSwapPaysExactly(State(), key, ack, d);
      }
      var _ :- Ensure(key in swaps);
      var info := swaps[key];
      swaps := swaps - {key};
      if ack.Some? {
        var _ :- Ensure(ack.value.SwapAck?);
        var _ :- ToVault(info.assetIn, info.coin);
        var payments := [ToEscrow(info.assetIn, info.coin)];
        if info.partnerFee != 0 {
          partnerFees :- Credit(partnerFees, info.assetIn, info.partnerFee);
          payments := payments + [Pay(Coin(info.coin.denom, info.partnerFee), info.partner.GetOr(key.sender))];
        }
        return Some(payments);
      }
      var _ :- Ensure(!native);
      var whole :- CheckedAdd(info.coin.amount, info.partnerFee);
      return Some([Pay(Coin(info.coin.denom, whole), key.sender)]);
    }

    /** One message with the chain's roll-back on failure: the step machine of FactoryModel. The pending maps keep
        holding only ids of the counter's past, until the counter goes round. */
    method Execute(op: FactoryOp)
      requires IdsIssued(State())
      modifies this
      ensures State() == FactoryStep(old(State()), op)
      ensures old(nonce) < U128_MAX ==> IdsIssued(State()) && nonce <= old(nonce) + 1
    {
      if nonce < U128_MAX { StepKeepsIds(State(), op); }
      hide IdsIssued, RequestAdd, RequestRemove, RequestSwap, RequestWithdraw, RequestCreation, AckAdd, AckRemove,
           AckSwap;
      var was := State();
      var ok := Attempt(op);
      if !ok {
        nonce, adds, removes, swaps, creations := was.nonce, was.adds, was.removes, was.swaps, was.creations;
        shares, escrows, partnerFees := was.shares, was.escrows, was.partnerFees;
      }
    }

    method Attempt(op: FactoryOp) returns (ok: bool)
      requires IdsIssued(State())
      modifies this
      ensures ok ==> State() == FactoryStep(old(State()), op)
      ensures !ok ==> FactoryStep(old(State()), op) == old(State())
    {
      hide IdsIssued, SentOut, RequestAdd, RequestRemove, RequestSwap, RequestWithdraw, RequestCreation, AckAdd,
           AckRemove, AckSwap;
      match op
      case AskAdd(at, sender, pair, c1, c2, slippage) =>
        var r := Add(at, sender, pair, c1, c2, slippage);
        ok := r.Some?;
      case AskRemove(at, sender, caller, pair, lp, received, rs) =>
        var r := Remove(at, sender, caller, pair, lp, received, rs);
        ok := r.Some?;
      case AskSwap(at, sender, assetIn, coin, attached, assetOut, minOut, route, rs, partner) =>
        var r := Swap(at, sender, assetIn, coin, attached, assetOut, minOut, route, rs, partner);
        ok := r.Some?;
      case AskWithdraw(at, sender, token, amount, rs) =>
        var r := Withdraw(at, sender, token, amount, rs);
        ok := r.Some?;
      case AskCreation(at, sender, what) => var r := Create(at, sender, what); ok := r.Some?;
      case Settle(key, tx, ack) =>
        if tx.AddLiquidity? {
          var r := SettleAdd(key, ack); ok := r.Some?;
        } else if tx.RemoveLiquidity? {
          var r := SettleRemove(key, ack); ok := r.Some?;
        } else if tx.Swap? {
          var r := SettleSwap(key, ack); ok := r.Some?;
        } else {
          ok := false;
        }
      case SettleCreation(key) =>
        creations := creations - {key};
        ok := true;
    }
  }

  lemma SameDenoms(f: Factory, g: Factory, t: Token, d: Denom)
    requires f.escrows == g.escrows
    ensures DenomAllowed(f, t, d) == DenomAllowed(g, t, d)
  {
  }
}
