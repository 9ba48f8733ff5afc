/** What a removal leaves of its sender's own virtual balances. The pool pays its two tokens in its own order,
    while the router releases the two payouts under the tokens of the request, in the request's order. */
module HubRemoval {
  import opened Arith
  import opened Types
  import opened VlpModel
  import opened ReleaseModel
  import opened HubModel
  import opened HubFlow
  import opened HubPools

  lemma {:induction false} OtherTokensKept(escrows: Escrows, chains: set<ChainUid>, token: Token, amount: Uint128,
                                           rs: seq<Receiver>, t: Token, c: ChainUid)
    requires t != token && ReleaseLoop(escrows, chains, token, amount, rs).Some?
    ensures Get(ReleaseLoop(escrows, chains, token, amount, rs).value.escrows, EscrowKey(t, c))
        == Get(escrows, EscrowKey(t, c))
    decreases |rs|
  {
    if amount != 0 && rs != [] {
      var take := Take(escrows, token, amount, rs[0]);
      var after := if take == 0 then escrows else Lower(escrows, token, rs[0].user.chain, take);
      OtherTokensKept(after, chains, token, amount - take, rs[1..], t, c);
    }
  }

  lemma SameCapacity(a: Escrows, b: Escrows, token: Token, rs: seq<Receiver>)
    requires forall c :: Get(a, EscrowKey(token, c)) == Get(b, EscrowKey(token, c))
    ensures Capacity(a, token, rs) == Capacity(b, token, rs)
  {
    assert Caps(a, token, rs) == Caps(b, token, rs);
  }

  /** A release takes exactly what the listed chains can bear of the amount, or of the whole balance where none is
      named, from one token of one account, and leaves what they can bear of any other token. */
  lemma ReleaseTakes(h: Hub, sender: User, tok: Token, asked: Option<Uint128>, rs: seq<Receiver>, t: Token)
    requires ReleaseEscrow(h, sender, tok, asked, rs).Some?
    ensures var h1 := ReleaseEscrow(h, sender, tok, asked, rs).value.0;
            var amount := if asked.Some? then asked.value else Balance(h, sender, tok);
            && Balance(h1, sender, tok) == Balance(h, sender, tok) - Min(amount, Capacity(h.escrows, tok, rs))
            && (t != tok ==> Balance(h1, sender, t) == Balance(h, sender, t)
                             && Capacity(h1.escrows, t, rs) == Capacity(h.escrows, t, rs))
  {
    hide Capacity, ReleaseLoop, DrawTotal, NetLedger;
    var amount := asked.GetOr(Balance(h, sender, tok));
    var o := ReleaseLoop(h.escrows, h.chains, tok, amount, rs).value;
    LoopTotals(h.escrows, h.chains, tok, amount, rs);
    ReleaseIsOptimal(h.escrows, h.chains, tok, amount, rs);
    SettleFlow(h, sender, tok, amount, o, tok);
    if t != tok {
      forall c ensures Get(o.escrows, EscrowKey(t, c)) == Get(h.escrows, EscrowKey(t, c)) {
        OtherTokensKept(h.escrows, h.chains, tok, amount, rs, t, c);
      }
      SameCapacity(o.escrows, h.escrows, t, rs);
    }
  }

  /** The two releases of a removal, token by token. */
  lemma ReleaseBothTakes(h: Hub, sender: User, pair: Pair, paid1: Uint128, paid2: Uint128, rs: seq<Receiver>)
    requires pair.token1 != pair.token2 && ReleaseBoth(h, sender, pair, paid1, paid2, rs).Some?
    ensures var h2 := ReleaseBoth(h, sender, pair, paid1, paid2, rs).value.0;
            && Balance(h2, sender, pair.token1)
               == Balance(h, sender, pair.token1) - Min(paid1, Capacity(h.escrows, pair.token1, rs))
            && Balance(h2, sender, pair.token2)
               == Balance(h, sender, pair.token2) - Min(paid2, Capacity(h.escrows, pair.token2, rs))
  {
    hide ReleaseEscrow, Capacity;
    var h1 := ReleaseEscrow(h, sender, pair.token1, Some(paid1), rs).value.0;
    ReleaseTakes(h, sender, pair.token1, Some(paid1), rs, pair.token2);
    ReleaseTakes(h1, sender, pair.token2, Some(paid2), rs, pair.token1);
  }

  /** The pool a removal names and what it pays. */
  ghost function PaidBy(h: Hub, sender: User, pair: Pair, lp: Uint128): Option<Removed> {
    if pair.Tuple() in h.vlpOf && h.vlpOf[pair.Tuple()] in h.vlps
    then VlpModel.RemoveLiquidity(h.vlps[h.vlpOf[pair.Tuple()]], sender.chain, lp) else None
  }

  lemma TupleOf(pair: Pair)
    ensures pair.Sorted() ==> pair.Tuple() == pair
    ensures !pair.Sorted() && pair.Tuple().Sorted() ==> pair.Tuple() == Pair(pair.token2, pair.token1)
  {
    hide StrLe;
  }

  /** A removal moves the sender's balance of each pool token up by its payout and down by what is released of
      it: of its own payout for a sorted request, of the other token's payout for a reversed one. */
  lemma RemovalMoves(h: Hub, sender: User, pair: Pair, lp: Uint128, rs: seq<Receiver>)
    requires HubValid(h) && Outside(h, sender) && RemoveTx(h, sender, pair, lp, rs).Some?
    ensures PaidBy(h, sender, pair, lp).Some?
    ensures var h1, p := RemoveTx(h, sender, pair, lp, rs).value.hub, pair.Tuple();
            var paid := PaidBy(h, sender, pair, lp).value;
            var asked1 := if pair.Sorted() then paid.paid1 else paid.paid2;
            var asked2 := if pair.Sorted() then paid.paid2 else paid.paid1;
            && Balance(h1, sender, p.token1)
               == Balance(h, sender, p.token1) + paid.paid1 - Min(asked1, Capacity(h.escrows, p.token1, rs))
            && Balance(h1, sender, p.token2)
               == Balance(h, sender, p.token2) + paid.paid2 - Min(asked2, Capacity(h.escrows, p.token2, rs))
  {
    hide VlpModel.RemoveLiquidity, PayBoth, ReleaseBoth, Capacity, StrLe, Excess;
    RemoveTxNamesPool(h, sender, pair, lp, rs);
    var v := h.vlpOf[pair.Tuple()];
    var p := h.vlps[v].pair;
    assert p == pair.Tuple() && Valid(h.vlps[v]);
    TupleOf(pair);
    var r := VlpModel.RemoveLiquidity(h.vlps[v], sender.chain, lp).value;
    var h0 := h.(vlps := h.vlps[v := r.vlp]);
    var h1 := PayBoth(h0, v, p, sender, r.paid1, r.paid2).value;
    PayBothTouches(h0, v, p, sender, r.paid1, r.paid2, sender, p.token1);
    PayBothTouches(h0, v, p, sender, r.paid1, r.paid2, sender, p.token2);
    ReleaseBothTakes(h1, sender, pair, r.paid1, r.paid2, rs);
  }

  /** A removal leaves both of the sender's earlier balances whole if and only if its pair is sorted, or what the
      chains can bear of each payout, released under the other token, is within the other payout. */
  lemma RemovalSparesBalances(h: Hub, sender: User, pair: Pair, lp: Uint128, rs: seq<Receiver>)
    requires HubValid(h) && Outside(h, sender) && RemoveTx(h, sender, pair, lp, rs).Some?
    ensures PaidBy(h, sender, pair, lp).Some?
    ensures var h1, p := RemoveTx(h, sender, pair, lp, rs).value.hub, pair.Tuple();
            var paid := PaidBy(h, sender, pair, lp).value;
            (Balance(h1, sender, p.token1) >= Balance(h, sender, p.token1)
             && Balance(h1, sender, p.token2) >= Balance(h, sender, p.token2))
            <==> || pair.Sorted()
                 || (&& Min(paid.paid1, Capacity(h.escrows, p.token2, rs)) <= paid.paid2
                     && Min(paid.paid2, Capacity(h.escrows, p.token1, rs)) <= paid.paid1)
  {
    hide RemoveTx, Capacity, PaidBy, HubValid;
    RemovalMoves(h, sender, pair, lp, rs);
  }
}
