/** Requests and their pending records: every packet is settled at most once, and settling it pays out
    exactly what its request named. */
module SystemLinks {
  import opened Arith
  import opened Types
  import opened TxIds
  import opened EscrowModel
  import opened HubModel
  import opened FactoryModel
  import opened SystemModel
  import VlpModel

  function Key(p: Packet): ReqKey { KeyOf(p.stamp) }

  /** The packet's pending record is there and agrees with the packet. */
  predicate Pending(f: Factory, p: Packet) {
    match p.tx
    case AddLiquidity(_, pair, a1, a2, _) =>
      Key(p) in f.adds && p.coins == [f.adds[Key(p)].coin1, f.adds[Key(p)].coin2]
      && f.adds[Key(p)].pair == pair && a1 == p.coins[0].amount && a2 == p.coins[1].amount
    case RemoveLiquidity(_, _, lp, _) => Key(p) in f.removes && f.removes[Key(p)].lp == lp && p.coins == []
    case Swap(_, assetIn, amountIn, _, _, _, _) =>
      Key(p) in f.swaps && |p.coins| == 1 && f.swaps[Key(p)].coin == Coin(p.coins[0].denom, amountIn)
      && f.swaps[Key(p)].assetIn == assetIn && f.swaps[Key(p)].partner == p.partner
          && amountIn + f.swaps[Key(p)].partnerFee == p.coins[0].amount
    case _ => true
  }

  predicate Gone(f: Factory, p: Packet) {
    match p.tx
    case AddLiquidity(_, _, _, _, _) => Key(p) !in f.adds
    case RemoveLiquidity(_, _, _, _) => Key(p) !in f.removes
    case Swap(_, _, _, _, _, _, _) => Key(p) !in f.swaps
    case _ => false
  }

  /** Only requests travel in packets, each in its own chain's name. */
  predicate FromChain(tx: HubTx, c: ChainUid) {
    match tx
    case AddLiquidity(u, pair, _, _, _) => u.chain == c && pair.Sorted()
    case RemoveLiquidity(u, _, _, _) => u.chain == c
    case Swap(u, _, _, _, _, _, _) => u.chain == c
    case Withdraw(u, _, _, _) => u.chain == c
    case _ => false
  }

  /** The packet says what its request said, field by field: the sender in the chain's own name, the tokens, amounts,
      tolerance, minimum, route and receivers; of a swap's coin the partner fee is held back. */
  predicate Conveys(c: ChainUid, ask: FactoryOp, stamp: Stamp, tx: HubTx) {
    match ask
    case AskAdd(at, sender, pair, c1, c2, slippage) =>
      && Stamped(stamp, c, sender, at)
      && tx == HubTx.AddLiquidity(User(c, sender), pair, c1.amount, c2.amount, slippage)
    case AskRemove(at, sender, _, pair, lp, _, rs) =>
      Stamped(stamp, c, sender, at) && tx == HubTx.RemoveLiquidity(User(c, sender), pair, lp, rs)
    case AskSwap(at, sender, assetIn, coin, _, assetOut, minOut, swaps, rs, partner) =>
      && Stamped(stamp, c, sender, at) && tx.Swap? && tx.amountIn <= coin.amount
      && tx == HubTx.Swap(User(c, sender), assetIn, tx.amountIn, assetOut, minOut, swaps, rs)
      && PartnerFee(coin.amount, partner) == Some(coin.amount - tx.amountIn)
    case AskWithdraw(at, sender, token, amount, rs) =>
      Stamped(stamp, c, sender, at) && tx == HubTx.Withdraw(User(c, sender), token, Some(amount), rs)
    case _ => false
  }

  predicate Stamped(stamp: Stamp, c: ChainUid, sender: Address, at: Moment) {
    && stamp.sender == User(c, sender) && stamp.chainId == at.chainId && stamp.height == at.height
    && stamp.index == at.index
  }

  /** An acknowledgement is of its request's kind; a swap's reports at least the minimum asked for, and a removal's
      the LP named. */
  predicate AckMeets(tx: HubTx, ack: Ack) {
    match tx
    case AddLiquidity(_, _, _, _, _) => ack.AddAck?
    case RemoveLiquidity(_, _, lp, _) => ack.RemoveAck? && ack.burnedLp == lp
    case Swap(_, _, _, _, minOut, _, _) => ack.SwapAck? && ack.amountOut >= minOut
    case _ => true
  }

  lemma TxAckMeets(h: Hub, tx: HubTx)
    requires Apply(h, tx).Some?
    ensures AckMeets(tx, Apply(h, tx).value.ack)
  {
    hide VlpModel.AddLiquidity, VlpModel.RemoveLiquidity, FundPool, PayBoth, ReleaseBoth, ReleaseEscrow, ExecuteSwap,
         Route, CreatePoolTx, Mint, CreditEscrow;
  }

  /** What a settlement sends, by outcome: accepted deposits go to the escrows, less a partner fee paid in
      the same denomination to the partner named, or to the sender where none is (and LP is minted or burned);
      anything else goes back to the sender. */
  predicate Outcome(p: Packet, ps: seq<Payment>) {
    var sender, ok := p.stamp.sender.address, p.status.Accepted?;
    match p.tx
    case AddLiquidity(_, pair, _, _, _) =>
      && |p.coins| == 2
      && (if ok then
            && p.status.ack.AddAck?
            && ps == [ToEscrow(pair.token1, p.coins[0]), ToEscrow(pair.token2, p.coins[1]),
                      LpMint(p.status.ack.mintedLp, sender)]
          else ps == [Pay(p.coins[0], sender), Pay(p.coins[1], sender)])
    case RemoveLiquidity(_, _, lp, _) => ps == [if ok then LpBurn(lp) else LpReturn(lp, sender)]
    case Swap(_, assetIn, amountIn, _, _, _, _) =>
      && |p.coins| == 1
      && (if ok then
            && |ps| == (if p.coins[0].amount == amountIn then 1 else 2)
            && ps[0] == ToEscrow(assetIn, Coin(p.coins[0].denom, amountIn))
            && (|ps| == 2 ==> ps[1].Pay? && ps[1].to == p.partner.GetOr(sender) && ps[1].coin.denom == p.coins[0].denom
                              && amountIn + ps[1].coin.amount == p.coins[0].amount)
          else ps == [Pay(p.coins[0], sender)])
    case _ => false
  }

  /** A settled packet's payments follow its outcome and add up, denomination by denomination, to the coins
      its request named before any partner fee. */
  ghost predicate PaysBack(p: Packet) {
    Outcome(p, p.payments) && forall d :: SentOut(p.payments, d) == CoinsIn(p.coins, d)
  }

  ghost predicate PacketOk(fs: map<ChainUid, Factory>, p: Packet) {
    && p.chain in fs && p.chain != VSL && fs[p.chain].chain == p.chain
    && 1 <= p.stamp.nonce <= fs[p.chain].nonce
    && FromChain(p.tx, p.chain) && Conveys(p.chain, p.request, p.stamp, p.tx)
    && p.coins == CoinsOf(p.request) && p.partner == PartnerOf(p.request)
    && (p.status.Accepted? ==> AckMeets(p.tx, p.status.ack))
    && (p.status == InFlight ==> !p.settled)
    && (if p.settled then Gone(fs[p.chain], p) && PaysBack(p) else Pending(fs[p.chain], p) && p.payments == [])
  }

  /** Every packet is in order, and no two packets of a chain share a transaction id. */
  ghost predicate Links(s: System) {
    && (forall c | c in s.factories :: c != VSL && s.factories[c].chain == c)
    && (forall i | 0 <= i < |s.inbound| :: PacketOk(s.factories, s.inbound[i]))
    && (forall i, j | 0 <= i < j < |s.inbound| && s.inbound[i].chain == s.inbound[j].chain ::
          s.inbound[i].stamp.nonce != s.inbound[j].stamp.nonce)
  }

  lemma KeysDiffer(p: Packet, q: Packet)
    requires p.stamp.nonce != q.stamp.nonce
    ensures Key(p) != Key(q)
  {
    hide Render;
    if Key(p) == Key(q) { SameIdSameNonce(p.stamp, q.stamp); }
  }

  // ----- Requests -----

  ghost predicate GrewBy(f: Factory, g: Factory, k: ReqKey) {
    && g.chain == f.chain && g.nonce == f.nonce + 1
    && g.adds - {k} == f.adds - {k} && g.removes - {k} == f.removes - {k} && g.swaps - {k} == f.swaps - {k}
    && g.shares == f.shares && g.escrows == f.escrows
  }

  /** What a request must do: issue the next id and leave one pending record that agrees with its packet. */
  ghost predicate Asked(f: Factory, q: Requested, ask: FactoryOp, c: ChainUid) {
    && q.stamp.nonce == f.nonce + 1 && GrewBy(f, q.factory, KeyOf(q.stamp))
    && FromChain(q.tx, c) && Conveys(c, ask, q.stamp, q.tx) && Pending(q.factory, Posted(c, q, ask))
  }

  lemma Recorded(f: Factory, g: Factory, k: ReqKey)
    requires g == f.(nonce := g.nonce, adds := g.adds, removes := g.removes, swaps := g.swaps) && g.nonce == f.nonce + 1
    requires (k in g.adds && g.adds == f.adds[k := g.adds[k]]) || g.adds == f.adds
    requires (k in g.removes && g.removes == f.removes[k := g.removes[k]]) || g.removes == f.removes
    requires (k in g.swaps && g.swaps == f.swaps[k := g.swaps[k]]) || g.swaps == f.swaps
    ensures GrewBy(f, g, k)
  {
  }

  lemma AddAsked(f: Factory, ask: FactoryOp, c: ChainUid)
    requires ask.AskAdd? && Requesting(f, ask).Some? && f.nonce < U128_MAX && f.chain == c
    ensures Asked(f, Requesting(f, ask).value, ask, c)
  {
    hide Render, DenomAllowed, GrewBy;
    var q := Requesting(f, ask).value;
    Recorded(f, q.factory, KeyOf(q.stamp));
  }

  lemma RemoveAsked(f: Factory, ask: FactoryOp, c: ChainUid)
    requires ask.AskRemove? && Requesting(f, ask).Some? && f.nonce < U128_MAX && f.chain == c
    ensures Asked(f, Requesting(f, ask).value, ask, c)
  {
    hide Render, DenomAllowed, GrewBy;
    var q := Requesting(f, ask).value;
    Recorded(f, q.factory, KeyOf(q.stamp));
  }

  lemma SwapAsked(f: Factory, ask: FactoryOp, c: ChainUid)
    requires ask.AskSwap? && Requesting(f, ask).Some? && f.nonce < U128_MAX && f.chain == c
    ensures Asked(f, Requesting(f, ask).value, ask, c)
  {
    hide Render, DenomAllowed, GrewBy, PartnerFee;
    var q := Requesting(f, ask).value;
    Recorded(f, q.factory, KeyOf(q.stamp));
  }

  lemma WithdrawAsked(f: Factory, ask: FactoryOp, c: ChainUid)
    requires ask.AskWithdraw? && Requesting(f, ask).Some? && f.nonce < U128_MAX && f.chain == c
    ensures Asked(f, Requesting(f, ask).value, ask, c)
  {
    hide Render, GrewBy;
    var q := Requesting(f, ask).value;
    Recorded(f, q.factory, KeyOf(q.stamp));
  }

  lemma RequestGrows(f: Factory, ask: FactoryOp, c: ChainUid)
    requires Requesting(f, ask).Some? && f.nonce < U128_MAX && f.chain == c
    ensures Asked(f, Requesting(f, ask).value, ask, c)
  {
    hide RequestAdd, RequestRemove, RequestSwap, RequestWithdraw, Asked;
    if ask.AskAdd? { AddAsked(f, ask, c); }
    else if ask.AskRemove? { RemoveAsked(f, ask, c); }
    else if ask.AskSwap? { SwapAsked(f, ask, c); }
    else { WithdrawAsked(f, ask, c); }
  }

  lemma GrowthKeepsPacket(f: Factory, g: Factory, k: ReqKey, p: Packet)
    requires GrewBy(f, g, k) && Key(p) != k
    ensures Pending(f, p) ==> Pending(g, p)
    ensures Gone(f, p) ==> Gone(g, p)
  {
    hide Render;
    var x := Key(p);
    assert x in f.adds - {k} <==> x in f.adds;
    assert x in g.adds - {k} <==> x in g.adds;
    assert x in f.removes - {k} <==> x in f.removes;
    assert x in g.removes - {k} <==> x in g.removes;
    assert x in f.swaps - {k} <==> x in f.swaps;
    assert x in g.swaps - {k} <==> x in g.swaps;
    assert x in f.adds ==> (f.adds - {k})[x] == f.adds[x] && (g.adds - {k})[x] == g.adds[x];
    assert x in f.removes ==> (f.removes - {k})[x] == f.removes[x] && (g.removes - {k})[x] == g.removes[x];
    assert x in f.swaps ==> (f.swaps - {k})[x] == f.swaps[x] && (g.swaps - {k})[x] == g.swaps[x];
  }

  lemma AskKeepsLinks(s: System, c: ChainUid, ask: FactoryOp)
    requires Links(s) && DoAsk(s, c, ask).Some?
    ensures Links(DoAsk(s, c, ask).value)
  {
    hide Requesting, Render, Pending, Gone, PaysBack, GrewBy, FromChain, Conveys, AckMeets, CoinsOf, PartnerOf;
    var f := s.factories[c];
    var q := Requesting(f, ask).value;
    var s1 := DoAsk(s, c, ask).value;
    var p := Posted(c, q, ask);
    RequestGrows(f, ask, c);
    GrowthNonce(f, q.factory, KeyOf(q.stamp));
    forall i | 0 <= i < |s.inbound| ensures PacketOk(s1.factories, s.inbound[i]) {
      if s.inbound[i].chain == c {
        KeysDiffer(s.inbound[i], p);
        GrowthKeepsPacket(f, q.factory, KeyOf(q.stamp), s.inbound[i]);
      }
    }
    assert PacketOk(s1.factories, p);
    forall i | 0 <= i < |s1.inbound| ensures PacketOk(s1.factories, s1.inbound[i]) {
      if i < |s.inbound| { assert s1.inbound[i] == s.inbound[i]; } else { assert s1.inbound[i] == p; }
    }
  }

  lemma GrowthNonce(f: Factory, g: Factory, k: ReqKey)
    requires GrewBy(f, g, k)
    ensures g.nonce == f.nonce + 1 && g.chain == f.chain
  {
  }

  // ----- Acknowledgements -----

  lemma TwoCoins(a: Coin, b: Coin, d: Denom)
    ensures CoinsIn([a, b], d) == InDenom(a, d) + InDenom(b, d)
    ensures CoinsIn([a], d) == InDenom(a, d)
  {
    assert [a, b][..1] == [a] && [a][..0] == [];
    assert CoinsIn([a, b], d) == CoinsIn([a, b][..1], d) + InDenom(b, d);
    assert CoinsIn([a], d) == CoinsIn([a][..0], d) + InDenom(a, d);
  }

  lemma NoCoins(p: Payment, d: Denom)
    requires CoinOf(p).None?
    ensures SentOut([p], d) == 0
  {
    assert [p][..0] == [];
  }

  function AckOf(p: Packet): Option<Ack> { if p.status.Accepted? then Some(p.status.ack) else None }

  lemma SettlementOutcome(f: Factory, p: Packet)
    requires Pending(f, p) && AckRequest(f, Key(p), p.tx, AckOf(p)).Some?
    ensures Outcome(p, AckRequest(f, Key(p), p.tx, AckOf(p)).value.payments)
  {
    hide Render, DepositIn;
  }

  lemma SettlementTotals(f: Factory, p: Packet, d: Denom)
    requires Pending(f, p) && AckRequest(f, Key(p), p.tx, AckOf(p)).Some?
    ensures SentOut(AckRequest(f, Key(p), p.tx, AckOf(p)).value.payments, d) == CoinsIn(p.coins, d)
  {
    hide Render, AckAdd, AckSwap;
    if p.tx.AddLiquidity? {
      AckAddPaysExactly(f, Key(p), AckOf(p), d);
      TwoCoins(p.coins[0], p.coins[1], d);
    } else if p.tx.Swap? {
      AckSwapPaysExactly(f, Key(p), AckOf(p), d);
      TwoCoins(p.coins[0], p.coins[0], d);
      assert p.coins == [p.coins[0]];
    } else if p.tx.RemoveLiquidity? {
      NoCoins(AckRequest(f, Key(p), p.tx, AckOf(p)).value.payments[0], d);
    }
  }

  lemma AckKeepsOthers(f: Factory, key: ReqKey, tx: HubTx, ack: Option<Ack>, p: Packet)
    requires AckRequest(f, key, tx, ack).Some? && Key(p) != key
    ensures var g := AckRequest(f, key, tx, ack).value.factory;
            (Pending(f, p) ==> Pending(g, p)) && (Gone(f, p) ==> Gone(g, p))
  {
    hide Render, AckRequest;
    AckOnlyRemoves(f, key, tx, ack);
  }

  /** A settled packet is settled for good: another acknowledgement or timeout for it has no effect. */
  lemma SettledOnce(f: Factory, p: Packet, ack: Option<Ack>)
    requires Gone(f, p)
    ensures AckRequest(f, Key(p), p.tx, ack).None?
  {
    hide Render, DepositIn;
  }

  lemma FactoryAckKeepsLinks(s: System, i: nat)
    requires Links(s) && DoFactoryAck(s, i).Some?
    ensures Links(DoFactoryAck(s, i).value)
  {
    hide AckRequest, Render, Pending, Gone, Outcome, SentOut, FromChain, Conveys, AckMeets, CoinsOf, PartnerOf;
    var p := s.inbound[i];
    var f := s.factories[p.chain];
    var s1 := DoFactoryAck(s, i).value;
    assert PacketOk(s.factories, p);
    if AckRequest(f, Key(p), p.tx, AckOf(p)).Some? {
      if p.settled { SettledOnce(f, p, AckOf(p)); }
      var r := AckRequest(f, Key(p), p.tx, AckOf(p)).value;
      AckOnlyRemoves(f, Key(p), p.tx, AckOf(p));
      SettlementOutcome(f, p);
      forall d ensures SentOut(r.payments, d) == CoinsIn(p.coins, d) { SettlementTotals(f, p, d); }
      var p1 := p.(settled := true, payments := p.payments + r.payments);
      assert p1.payments == r.payments;
      AckGone(f, p);
      SamePacket(r.factory, p, p1);
      assert PacketOk(s1.factories, p1);
      forall j | 0 <= j < |s.inbound| && j != i ensures PacketOk(s1.factories, s.inbound[j]) {
        if s.inbound[j].chain == p.chain {
          KeysDiffer(s.inbound[j], p);
          AckKeepsOthers(f, Key(p), p.tx, AckOf(p), s.inbound[j]);
        }
      }
    }
  }

  lemma AckGone(f: Factory, p: Packet)
    requires AckRequest(f, Key(p), p.tx, AckOf(p)).Some?
    ensures Gone(AckRequest(f, Key(p), p.tx, AckOf(p)).value.factory, p)
  {
    hide Render, AckAdd, AckRemove, AckSwap;
    AckOnlyRemoves(f, Key(p), p.tx, AckOf(p));
  }

  lemma SamePacket(f: Factory, p: Packet, q: Packet)
    requires q == p.(settled := q.settled, payments := q.payments)
    ensures Gone(f, p) == Gone(f, q) && Pending(f, p) == Pending(f, q)
    ensures forall ps :: Outcome(p, ps) == Outcome(q, ps)
  {
    hide Render;
  }

  // ----- The other steps -----

  lemma DecidedKeepsLinks(s: System, i: nat, status: Status)
    requires Links(s) && Arrived(s, i) && status != InFlight
    requires status.Accepted? ==> AckMeets(s.inbound[i].tx, status.ack)
    ensures Links(s.(inbound := s.inbound[i := s.inbound[i].(status := status)]))
  {
    hide Render, PaysBack, FromChain, Conveys, AckMeets, CoinsOf, PartnerOf;
    var p := s.inbound[i];
    assert PacketOk(s.factories, p);
    DecidedSame(s.factories[p.chain], p, status);
    var s1 := s.(inbound := s.inbound[i := p.(status := status)]);
    forall j | 0 <= j < |s1.inbound| ensures PacketOk(s1.factories, s1.inbound[j]) {
      assert PacketOk(s.factories, s.inbound[j]);
    }
  }

  lemma DecidedSame(f: Factory, p: Packet, status: Status)
    ensures Pending(f, p.(status := status)) == Pending(f, p)
  {
    hide Render;
  }

  lemma VaultKeepsLinks(s: System, c: ChainUid, g: Factory)
    requires Links(s) && c in s.factories && g == s.factories[c].(escrows := g.escrows)
    ensures Links(s.(factories := s.factories[c := g]))
  {
    hide Render, PaysBack, FromChain, Conveys, AckMeets, CoinsOf, PartnerOf;
    var s1 := s.(factories := s.factories[c := g]);
    forall j | 0 <= j < |s1.inbound| ensures PacketOk(s1.factories, s1.inbound[j]) {
      assert PacketOk(s.factories, s.inbound[j]);
      VaultKeepsPacket(s.factories[c], g, s.inbound[j]);
    }
  }

  lemma VaultKeepsPacket(f: Factory, g: Factory, p: Packet)
    requires g == f.(escrows := g.escrows)
    ensures Pending(g, p) == Pending(f, p) && Gone(g, p) == Gone(f, p)
  {
    hide Render;
  }

  lemma SameKeepsLinks(s: System, s1: System)
    requires Links(s) && s1.factories == s.factories && s1.inbound == s.inbound
    ensures Links(s1)
  {
    hide PacketOk;
  }

  /** No step can lose, duplicate or confuse a request: every packet stays tied to its pending record
      until it is settled. */
  lemma StepKeepsLinks(s: System, step: Step)
    requires Links(s) && Next(s, step).Some?
    ensures Links(Next(s, step).value)
  {
    hide Links, AckMeets, Apply, Requesting, AckRequest, PayRelease, AddAllowed, Disallow;
    var s1 := Next(s, step).value;
    match step
    case Ask(c, ask) => AskKeepsLinks(s, c, ask);
    case HubReceive(i) =>
      var r := Apply(s.hub, s.inbound[i].tx);
      var status := if r.Some? then Accepted(r.value.ack) else Rejected;
      if r.Some? { TxAckMeets(s.hub, s.inbound[i].tx); }
      DecidedKeepsLinks(s, i, status);
      SameKeepsLinks(s.(inbound := s.inbound[i := s.inbound[i].(status := status)]), s1);
    case HubRefuse(i) => DecidedKeepsLinks(s, i, Rejected);
    case RequestTimeout(i) => DecidedKeepsLinks(s, i, TimedOut);
    case FactoryAck(i) => FactoryAckKeepsLinks(s, i);
    case FactoryReceive(j) => FactoryReceiveKeepsLinks(s, j);
    case FactoryRefuse(j) => SameKeepsLinks(s, s1);
    case HubAck(j) => SameKeepsLinks(s, s1);
    case HubLocal(tx) => SameKeepsLinks(s, s1);
    case AllowDenom(c, t, d) => VaultKeepsLinks(s, c, s1.factories[c]);
    case ForbidDenom(c, t, d) => VaultKeepsLinks(s, c, s1.factories[c]);
  }

  lemma FactoryReceiveKeepsLinks(s: System, j: nat)
    requires Links(s) && DoFactoryReceive(s, j).Some?
    ensures Links(DoFactoryReceive(s, j).value)
  {
    hide Links, EscrowModel.Withdraw;
    var c := s.outbound[j].release.chain;
    var s1 := DoFactoryReceive(s, j).value;
    VaultKeepsLinks(s, c, s1.factories[c]);
    SameKeepsLinks(s.(factories := s.factories[c := s1.factories[c]]), s1);
  }
}
