/** The hub chain as stored state: the virtual-balance ledger and the router, updated message by message
    inside a transaction that the chain rolls back as a whole on failure. Proved against HubModel; the
    pools' own bookkeeping is VlpContract's. */
module HubContracts {
  import opened Arith
  import opened Types
  import opened VlpModel
  import opened ReleaseModel
  import opened HubModel
  import opened HubFlow
  import opened HubPools

  lemma FollowingNothing(rest: Option<Drawn>)
    ensures Following([], rest) == rest
  {
    if rest.Some? { assert [] + rest.value.draws == rest.value.draws; }
  }

  lemma FollowingMore(done: seq<Draw>, d: Draw, rest: Option<Drawn>)
    ensures Following(done + [d], rest) == Following(done, Following([d], rest))
  {
    if rest.Some? { assert done + [d] + rest.value.draws == done + ([d] + rest.value.draws); }
  }

  lemma FollowingLast(done: seq<Draw>, escrows: Escrows, remaining: Uint128)
    ensures Following(done, Some(Drawn(escrows, [], remaining))) == Some(Drawn(escrows, done, remaining))
  {
    assert done + [] == done;
  }

  lemma OneMore(draws: seq<Draw>, d: Draw, sender: User, token: Token)
    ensures DrawTotal(draws + [d]) == DrawTotal(draws) + d.amount
    ensures Packets(draws + [d], sender, token)
            == Packets(draws, sender, token) + [Release(d.receiver.user.chain, sender, token, d.amount,
                                                        d.receiver.user.address)]
  {
    assert (draws + [d])[..|draws|] == draws;
  }

  lemma NoDraws(sender: User, token: Token)
    ensures DrawTotal([]) == 0 && Packets([], sender, token) == []
  {
  }

  /** The read-only release simulation of contracts/hub/router/src/query.rs. */
  method SimulateRelease(escrows: Escrows, token: Token, amount: Uint128, rs: seq<Receiver>)
    returns (draws: seq<Draw>, remaining: Uint128)
    ensures var o := SimulateLoop(escrows, token, amount, rs); draws == o.draws && remaining == o.remaining
  {
    draws, remaining := [], amount;
    assert rs[0..] == rs;
    FollowingNothing(Some(SimulateLoop(escrows, token, amount, rs)));
    for i := 0 to |rs|
      invariant Following(draws, Some(SimulateLoop(escrows, token, remaining, rs[i..])))
             == Some(SimulateLoop(escrows, token, amount, rs))
    {
      var balance := Get(escrows, EscrowKey(token, rs[i].user.chain));
      var take := if remaining >= balance then balance else remaining;
      take := if take <= Limit(rs[i]) then take else Limit(rs[i]);
      assert take == Take(escrows, token, remaining, rs[i]);
      assert rs[i..][0] == rs[i] && rs[i..][1..] == rs[i + 1..];
      if take == 0 { continue; }
      FollowingMore(draws, Draw(take, rs[i]), Some(SimulateLoop(escrows, token, remaining - take, rs[i + 1..])));
      remaining := remaining - take;
      draws := draws + [Draw(take, rs[i])];
    }
    FollowingLast(draws, escrows, remaining);
  }

  /** Pools valid and covered by their virtual balances, and every token's balances equal to its escrow ledger
      plus what transfers to oneself have created. */
  ghost predicate Sound(h: Hub) {
    HubValid(h) && forall t :: LedgerSum(h, t) == EscrowSum(h.escrows, t, Every) + Inflated(h, t)
  }

  lemma NextIsSound(h: Hub, tx: HubTx)
    requires Sound(h) && Proper(h, tx)
    ensures Sound(Next(h, tx))
  {
    hide Apply, HubValid, EscrowSum, LedgerSum, Inflated;
    if Apply(h, tx).Some? {
      TxKeepsValid(h, tx);
      forall t
        ensures LedgerSum(Next(h, tx), t) == EscrowSum(Next(h, tx).escrows, t, Every) + Inflated(Next(h, tx), t)
      {
        TxFlow(h, tx, t, Every);
      }
    }
  }

  class Chain {
    var balances: Balances
    ghost var inflated: map<Token, nat>
    var escrows: Escrows
    var vlps: map<Address, Vlp>
    var vlpOf: map<Pair, Address>
    const chains: set<ChainUid>

    ghost function State(): Hub reads this { Hub(balances, inflated, escrows, vlps, vlpOf, chains) }

    constructor (chains: set<ChainUid>)
      ensures State() == EmptyHub(chains) && Sound(State())
    {
      this.chains := chains;
      balances, inflated, escrows, vlps, vlpOf := map[], map[], map[], map[], map[];
    }

    /** The state is what a specification says, or the message failed where it does. */
    ghost predicate Now(ok: bool, spec: Option<Hub>) reads this {
      ok == spec.Some? && (ok ==> State() == spec.value)
    }

    ghost predicate Did(r: Option<(Ack, seq<Release>)>, spec: Option<TxResult>) reads this {
      r.Some? == spec.Some? && (r.Some? ==> spec.value == TxResult(State(), r.value.0, r.value.1))
    }

    // ----- The virtual-balance ledger -----

    method Mint(u: User, t: Token, amount: Uint128) returns (r: Option<()>)
      modifies this`balances
      ensures Now(r.Some?, HubModel.Mint(old(State()), u, t, amount))
    {
      var _ :- Ensure(amount != 0);
      var balance :- CheckedAdd(Get(balances, BalanceKey(u, t)), amount);
      balances := balances[BalanceKey(u, t) := balance];
      return Some(());
    }

    method Burn(u: User, t: Token, amount: Uint128) returns (r: Option<()>)
      modifies this`balances
      ensures Now(r.Some?, HubModel.Burn(old(State()), u, t, amount))
    {
      var _ :- Ensure(amount != 0);
      var balance :- CheckedSub(Get(balances, BalanceKey(u, t)), amount);
      balances := balances[BalanceKey(u, t) := balance];
      return Some(());
    }

    /** Both balances are read before either is written. */
    method Transfer(from: User, to: User, t: Token, amount: Uint128) returns (r: Option<()>)
      modifies this`balances, this`inflated
      ensures Now(r.Some?, HubModel.Transfer(old(State()), from, to, t, amount))
    {
      var mine := Get(balances, BalanceKey(from, t));
      var _ :- Ensure(mine >= amount);
      mine := mine - amount;
      var theirs := Get(balances, BalanceKey(to, t));
      theirs :- CheckedAdd(theirs, amount);
      balances := balances[BalanceKey(from, t) := mine];
      balances := balances[BalanceKey(to, t) := theirs];
      if from == to { inflated := inflated[t := Inflated(old(State()), t) + amount]; }
      return Some(());
    }

    // ----- The router -----

    /** The greedy loop. Its running sums are proved to add up, so no checked operation in it can fail. */
    method DrawDown(sender: User, token: Token, amount: Uint128, rs: seq<Receiver>)
      returns (r: Option<(seq<Release>, Uint128, Uint128)>)
      modifies this`escrows
      ensures r.Some? <==> ReleaseLoop(old(escrows), chains, token, amount, rs).Some?
      ensures r.Some? ==>
                var o := ReleaseLoop(old(escrows), chains, token, amount, rs).value;
                && escrows == o.escrows && r.value.0 == Packets(o.draws, sender, token)
                && r.value.1 == DrawTotal(o.draws) && r.value.2 == o.remaining && r.value.1 + r.value.2 == amount
    {
      hide Packets, DrawTotal, ReleaseLoop;
      var packets: seq<Release> := [];
      var remaining: Uint128, sent: Uint128 := amount, 0;
      ghost var draws: seq<Draw> := [];
      var i := 0;
      assert rs[0..] == rs;
      FollowingNothing(ReleaseLoop(escrows, chains, token, amount, rs));
      NoDraws(sender, token);
      while remaining != 0 && i < |rs|
        invariant 0 <= i <= |rs| && sent + remaining == amount
        invariant sent == DrawTotal(draws) && packets == Packets(draws, sender, token)
        invariant ReleaseLoop(old(escrows), chains, token, amount, rs)
               == Following(draws, ReleaseLoop(escrows, chains, token, remaining, rs[i..]))
        decreases |rs| - i
      {
        var to := rs[i];
        assert rs[i..][0] == to && rs[i..][1..] == rs[i + 1..];
        LoopStep(escrows, chains, token, remaining, rs[i..]);
        i := i + 1;
        var _ :- Ensure(to.user.chain in chains);
        var key := EscrowKey(token, to.user.chain);
        var balance := Get(escrows, key);
        var take := if remaining >= balance then balance else remaining;
        take := if take <= Limit(to) then take else Limit(to);
        assert take == Take(escrows, token, remaining, to);
        if take == 0 { continue; }
        OneMore(draws, Draw(take, to), sender, token);
        escrows := escrows[key := balance - take];
        FollowingMore(draws, Draw(take, to), ReleaseLoop(escrows, chains, token, remaining - take, rs[i..]));
        draws := draws + [Draw(take, to)];
        sent := sent + take;
        packets := packets + [Release(to.user.chain, sender, token, take, to.user.address)];
        remaining := remaining - take;
      }
      LoopEnd(escrows, chains, token, remaining, rs[i..]);
      FollowingLast(draws, escrows, remaining);
      return Some((packets, sent, remaining));
    }

    /** The totals after the loop always match and the burn of what was sent always succeeds: both are
        proved here, so neither is a branch. */
    method ReleaseVouchers(sender: User, token: Token, asked: Option<Uint128>, rs: seq<Receiver>)
      returns (r: Option<seq<Release>>)
      modifies this`balances, this`escrows
      ensures r.Some? <==> ReleaseEscrow(old(State()), sender, token, asked, rs).Some?
      ensures r.Some? ==> ReleaseEscrow(old(State()), sender, token, asked, rs) == Some((State(), r.value))
    {
      hide ReleaseLoop, Packets, DrawTotal;
      var held := Get(balances, BalanceKey(sender, token));
      var amount := asked.GetOr(held);
      var _ :- Ensure(held >= amount);
      var o :- DrawDown(sender, token, amount, rs);
      var sent := o.1;
      assert sent + o.2 == amount;
      if sent != 0 {
        var burned := Burn(sender, token, sent);
        assert burned.Some?;
      }
      return Some(o.0);
    }

    // ----- Swaps -----

    /** One pool's messages: book the swap, pay the treasury, pass the payout on. */
    method TradeAt(v: Address, assetIn: Token, amountIn: Uint128, to: User) returns (r: Option<(Token, Uint128)>)
      modifies this`balances, this`inflated, this`vlps
      ensures r.Some? <==> SwapHop(old(State()), v, assetIn, amountIn, to).Some?
      ensures r.Some? ==> SwapHop(old(State()), v, assetIn, amountIn, to) == Some(Routed(State(), r.value.0, r.value.1))
    {
      hide LocalSwap, HubModel.Transfer;
      var _ :- Ensure(v in vlps);
      var o :- LocalSwap(vlps[v], assetIn, amountIn, Get(balances, BalanceKey(HubAccount(v), assetIn)));
      vlps := vlps[v := o.vlp];
      if o.euclidFee != 0 {
        var _ :- Transfer(HubAccount(v), o.vlp.fee.recipient, assetIn, o.euclidFee);
      }
      var _ :- Transfer(HubAccount(v), to, o.assetOut, o.amountOut);
      return Some((o.assetOut, o.amountOut));
    }

    method RunRoute(sender: User, hop: Hop, assetIn: Token, amountIn: Uint128, minOut: Uint128, next: seq<Hop>)
      returns (r: Option<(Token, Uint128)>)
      modifies this`balances, this`inflated, this`vlps
      ensures r.Some? <==> ExecuteSwap(old(State()), sender, hop, assetIn, amountIn, minOut, next).Some?
      ensures r.Some? ==> ExecuteSwap(old(State()), sender, hop, assetIn, amountIn, minOut, next)
                          == Some(Routed(State(), r.value.0, r.value.1))
      decreases |next|
    {
      hide SwapHop;
      var _ :- Ensure(!hop.fail);
      if next == [] {
        var o :- TradeAt(hop.vlp, assetIn, amountIn, sender);
        var _ :- Ensure(o.1 >= minOut);
        return Some(o);
      }
      var o :- TradeAt(hop.vlp, assetIn, amountIn, HubAccount(next[0].vlp));
      r := RunRoute(sender, next[0], o.0, o.1, minOut, next[1..]);
    }

    // ----- Transactions -----

    method Add(sender: User, pair: Pair, a1: Uint128, a2: Uint128, slippage: nat)
      returns (r: Option<(Ack, seq<Release>)>)
      modifies this
      ensures Did(r, AddTx(old(State()), sender, pair, a1, a2, slippage))
    {
      hide VlpModel.AddLiquidity, HubModel.Mint, StrLe;
      var _ :- Ensure(pair.Tuple() in vlpOf);
      var v := vlpOf[pair.Tuple()];
      var _ :- Ensure(v in vlps);
      var p := vlps[v].pair;
      escrows :- Credit(escrows, EscrowKey(p.token1, sender.chain), a1);
      escrows :- Credit(escrows, EscrowKey(p.token2, sender.chain), a2);
      var _ :- Mint(HubAccount(v), p.token1, a1);
      var _ :- Mint(HubAccount(v), p.token2, a2);
      var o :- VlpModel.AddLiquidity(vlps[v], sender.chain, a1, a2, slippage);
      vlps := vlps[v := o.0];
      return Some((AddAck(o.1, v), []));
    }

    method Remove(sender: User, pair: Pair, lp: Uint128, rs: seq<Receiver>) returns (r: Option<(Ack, seq<Release>)>)
      modifies this
      ensures Did(r, RemoveTx(old(State()), sender, pair, lp, rs))
    {
      hide VlpModel.RemoveLiquidity, HubModel.Transfer, ReleaseEscrow, StrLe;
      var _ :- Ensure(pair.Tuple() in vlpOf);
      var v := vlpOf[pair.Tuple()];
      var _ :- Ensure(v in vlps);
      var p := vlps[v].pair;
      var o :- VlpModel.RemoveLiquidity(vlps[v], sender.chain, lp);
      vlps := vlps[v := o.vlp];
      var _ :- Transfer(HubAccount(v), sender, p.token1, o.paid1);
      var _ :- Transfer(HubAccount(v), sender, p.token2, o.paid2);
      var out1 :- ReleaseVouchers(sender, pair.token1, Some(o.paid1), rs);
      var out2 :- ReleaseVouchers(sender, pair.token2, Some(o.paid2), rs);
      return Some((RemoveAck(lp, v), out1 + out2));
    }

    method Swap(sender: User, assetIn: Token, amountIn: Uint128, assetOut: Token, minOut: Uint128,
                swaps: seq<SwapPair>, rs: seq<Receiver>) returns (r: Option<(Ack, seq<Release>)>)
      modifies this
      ensures Did(r, SwapTx(old(State()), sender, assetIn, amountIn, assetOut, minOut, swaps, rs))
    {
      hide ExecuteSwap, HubModel.Mint, ReleaseEscrow;
      var _ :- Ensure(swaps != [] && swaps[0].tokenIn == assetIn && swaps[|swaps| - 1].tokenOut == assetOut);
      var hops :- ValidateSwapPairs(vlpOf, swaps);
      var _ :- Ensure(hops != []);
      escrows :- Credit(escrows, EscrowKey(assetIn, sender.chain), amountIn);
      var _ :- Mint(HubAccount(hops[0].vlp), assetIn, amountIn);
      var o :- RunRoute(sender, hops[0], assetIn, amountIn, minOut, hops[1..]);
      var _ :- Ensure(o.0 == assetOut);
      var _ :- Ensure(o.1 >= minOut);
      var out :- ReleaseVouchers(sender, assetOut, Some(o.1), rs);
      return Some((SwapAck(o.1), out));
    }

    /** A release that failed or timed out is put back in the escrow ledger and re-minted. */
    method Restore(x: Release) returns (r: Option<(Ack, seq<Release>)>)
      modifies this
      ensures Did(r, ReleaseFailedTx(old(State()), x))
    {
      hide HubModel.Mint;
      var _ :- Ensure(EscrowKey(x.token, x.chain) in escrows);
      escrows :- Credit(escrows, EscrowKey(x.token, x.chain), x.amount);
      var _ :- Mint(x.sender, x.token, x.amount);
      return Some((OtherAck, []));
    }

    method CreatePool(sender: User, pair: Pair, newVlp: Address, admin: Address)
      returns (r: Option<(Ack, seq<Release>)>)
      modifies this
      ensures Did(r, CreatePoolTx(old(State()), sender, pair, newVlp, admin))
    {
      hide TokenUsable, RegisterPool, Instantiate, StrLe;
      var usable := UsableAt(pair.token1, sender.chain) && UsableAt(pair.token2, sender.chain);
      assert usable == (TokenUsable(State(), pair.token1, sender.chain)
                        && TokenUsable(State(), pair.token2, sender.chain));
      var _ :- Ensure(pair.Sorted() && usable);
      if pair in vlpOf {
        var v := vlpOf[pair];
        var _ :- Ensure(v in vlps);
        var w :- RegisterPool(vlps[v], sender.chain, pair);
        vlps := vlps[v := w];
      } else {
        var _ :- Ensure(newVlp !in vlps);
        var v0 :- Instantiate(pair, Fee(10, 10, HubAccount(admin)));
        var w :- RegisterPool(v0, sender.chain, pair);
        vlps, vlpOf := vlps[newVlp := w], vlpOf[pair := newVlp];
      }
      return Some((OtherAck, []));
    }

    predicate UsableAt(t: Token, c: ChainUid)
      reads this
      ensures UsableAt(t, c) == TokenUsable(State(), t, c)
    {
      EscrowKey(t, c) in escrows || forall k | k in escrows :: k.token != t
    }

    /** One transaction. A failure anywhere in it undoes everything, and what holds of the hub's books holds on. */
    method Execute(tx: HubTx) returns (r: Option<(Ack, seq<Release>)>)
      requires Sound(State()) && Proper(State(), tx)
      modifies this
      ensures Did(r, Apply(old(State()), tx))
      ensures State() == Next(old(State()), tx) && Sound(State())
    {
      NextIsSound(State(), tx);
      hide Sound, Proper;
      hide AddTx, RemoveTx, SwapTx, ReleaseFailedTx, CreatePoolTx, ReleaseEscrow, ExecuteSwap, HubModel.Transfer,
           UpdateFee;
      var balances0, escrows0, vlps0, vlpOf0 := balances, escrows, vlps, vlpOf;
      ghost var inflated0 := inflated;
      r := Attempt(tx);
      if r.None? {
        balances, escrows, vlps, vlpOf := balances0, escrows0, vlps0, vlpOf0;
        inflated := inflated0;
      }
    }

    method Attempt(tx: HubTx) returns (r: Option<(Ack, seq<Release>)>)
      modifies this
      ensures Did(r, Apply(old(State()), tx))
    {
      hide AddTx, RemoveTx, SwapTx, ReleaseFailedTx, CreatePoolTx, ReleaseEscrow, ExecuteSwap, HubModel.Transfer,
           UpdateFee;
      match tx
      case AddLiquidity(sender, pair, a1, a2, slippage) => r := Add(sender, pair, a1, a2, slippage);
      case RemoveLiquidity(sender, pair, lp, rs) => r := Remove(sender, pair, lp, rs);
      case Swap(sender, assetIn, amountIn, assetOut, minOut, swaps, rs) =>
        r := Swap(sender, assetIn, amountIn, assetOut, minOut, swaps, rs);
      case Withdraw(sender, token, asked, rs) =>
        var out :- ReleaseVouchers(sender, token, asked, rs);
        return Some((OtherAck, out));
      case ReleaseFailed(x) => r := Restore(x);
      case UserTransfer(from, to, token, amount) =>
        var _ :- Transfer(from, to, token, amount);
        return Some((OtherAck, []));
      case DirectSwap(sender, hop, assetIn, amountIn, minOut, next) =>
        var _ :- RunRoute(sender, hop, assetIn, amountIn, minOut, next);
        return Some((OtherAck, []));
      case SetFee(v, lp, euclid, recipient) =>
        var _ :- Ensure(v in vlps);
        var w :- UpdateFee(vlps[v], lp, euclid, recipient);
        vlps := vlps[v := w];
        return Some((OtherAck, []));
      case CreatePool(sender, pair, newVlp, admin) => r := CreatePool(sender, pair, newVlp, admin);
      case CreateEscrow(sender, token) =>
        var _ :- Ensure(EscrowKey(token, sender.chain) !in escrows);
        escrows := escrows[EscrowKey(token, sender.chain) := 0];
        return Some((OtherAck, []));
    }
  }
}
