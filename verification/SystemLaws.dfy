/** Laws of whole runs of the protocol: escrow backing, LP agreement, hub conservation and exactly-once
    settlement, under every interleaving of requests, receipts, acknowledgements and timeouts. */
module SystemLaws {
  import opened Arith
  import opened Sums
  import opened Types
  import opened EscrowModel
  import opened ReleaseModel
  import opened HubModel
  import opened HubFlow
  import opened HubPools
  import opened HubShares
  import opened FactoryModel
  import opened SystemModel
  import opened SystemLinks
  import HubEffects

  // ----- What is where -----

  /** What a request brings into token t. */
  function DepositOf(tx: HubTx, t: Token): int {
    match tx
    case AddLiquidity(_, pair, a1, a2, _) => When(t == pair.token1, a1) + When(t == pair.token2, a2)
    case Swap(_, assetIn, amountIn, _, _, _, _) => When(t == assetIn, amountIn)
    case _ => 0
  }

  predicate Owed(p: Packet, s: Scope) { p.status.Accepted? && !p.settled && s.Has(p.chain) }

  /** Deposits the hub has accepted and the factory has not yet moved into the escrow. */
  ghost function ArrivingWeight(t: Token, s: Scope): Packet -> int {
    (p: Packet) => if Owed(p, s) then DepositOf(p.tx, t) else 0
  }

  ghost function Arriving(q: System, t: Token, s: Scope): int { SeqSum(q.inbound, ArrivingWeight(t, s)) }

  /** Releases sent and neither paid nor restored. */
  ghost function LeavingWeight(t: Token, s: Scope): OutPacket -> int {
    (o: OutPacket) => if o.status.Waiting? || o.status.Failed? then ReleaseWeight(t, s)(o.release) else 0
  }

  ghost function Leaving(q: System, t: Token, s: Scope): int { SeqSum(q.outbound, LeavingWeight(t, s)) }

  function Vault(f: Factory, t: Token): int { if t in f.escrows then f.escrows[t].total else 0 }

  ghost function VaultWeight(t: Token, s: Scope): (ChainUid, Factory) -> int {
    (c: ChainUid, f: Factory) => if s.Has(c) then Vault(f, t) else 0
  }

  /** What the escrow contracts of a scope hold. */
  ghost function Vaults(q: System, t: Token, s: Scope): int { Sum(q.factories, VaultWeight(t, s)) }

  /** Cross-chain backing, for one token over any set of chains. */
  ghost predicate Backed(q: System, t: Token, s: Scope) {
    EscrowSum(q.hub.escrows, t, s) + Leaving(q, t, s) == Vaults(q, t, s) + Arriving(q, t, s)
  }

  ghost function PendingLpWeight(v: Address, s: Scope): Packet -> int {
    (p: Packet) => if Owed(p, s) then AckShares(p.status.ack, p.chain, v, s) else 0
  }

  /** LP minted by accepted but unsettled adds, less LP burned by accepted but unsettled removes. */
  ghost function PendingLp(q: System, v: Address, s: Scope): int { SeqSum(q.inbound, PendingLpWeight(v, s)) }

  ghost function IssuedWeight(v: Address, s: Scope): (ChainUid, Factory) -> int {
    (c: ChainUid, f: Factory) => if s.Has(c) then Get(f.shares, v) else 0
  }

  /** LP the factories of a scope have issued. */
  ghost function IssuedLp(q: System, v: Address, s: Scope): int { Sum(q.factories, IssuedWeight(v, s)) }

  /** LP agreement, for one pool over any set of chains. */
  ghost predicate LpAgrees(q: System, v: Address, s: Scope) {
    ShareSum(q.hub, v, s) == IssuedLp(q, v, s) + PendingLp(q, v, s)
  }

  // ----- Sums over the packets -----

  lemma OnePacket(p: Packet, w: Packet -> int)
    ensures SeqSum([p], w) == w(p)
  {
    assert [p][..0] == [];
    assert SeqSum([p], w) == SeqSum([p][..0], w) + w(p);
  }

  lemma {:induction false} LaunchSum(rs: seq<Release>, u: Option<User>, t: Token, s: Scope)
    ensures SeqSum(Launch(rs, u), LeavingWeight(t, s)) == ReleaseSum(rs, t, s)
  {
    if rs != [] {
      var l := |rs| - 1;
      assert Launch(rs, u)[..l] == Launch(rs[..l], u);
      LaunchSum(rs[..l], u, t, s);
    }
  }

  // ----- What an accepted request means for the hub -----

  lemma DepositIsRequested(h: Hub, tx: HubTx, c: ChainUid, t: Token, s: Scope)
    requires HubValid(h) && FromChain(tx, c) && Apply(h, tx).Some?
    ensures HubFlow.Deposit(h, tx, t, s) == When(s.Has(c), DepositOf(tx, t))
  {
    hide AddTx, RemoveTx, SwapTx, ReleaseEscrow, VlpModel.Valid, Excess, StrLe;
    if tx.AddLiquidity? {
      AddTxNamesPool(h, tx.sender, tx.pair, tx.amount1, tx.amount2, tx.slippage);
      assert tx.pair.Tuple() == tx.pair;
    }
  }

  lemma PacketIsProper(h: Hub, tx: HubTx, c: ChainUid)
    requires FromChain(tx, c) && c != VSL
    ensures Proper(h, tx)
  {
  }

  lemma AckSharesAt(h: Hub, tx: HubTx, c: ChainUid, v: Address, s: Scope)
    requires FromChain(tx, c) && Apply(h, tx).Some?
    ensures AckShares(Apply(h, tx).value.ack, OriginOf(tx), v, s) == AckShares(Apply(h, tx).value.ack, c, v, s)
  {
    hide AddTx, RemoveTx, SwapTx, ReleaseEscrow;
    if tx.Swap? { SwapTxAck(h, tx.sender, tx.assetIn, tx.amountIn, tx.assetOut, tx.minOut, tx.swaps, tx.receivers); }
  }

  lemma LocalDeposit(h: Hub, tx: HubTx, t: Token, s: Scope)
    requires StartsOnHub(tx)
    ensures HubFlow.Deposit(h, tx, t, s) == 0
  {
  }

  // ----- What a settlement means for the factory -----

  lemma DepositInVault(f: Factory, tok: Token, c: Coin, t: Token)
    requires DepositIn(f, tok, c).Some?
    ensures var g := DepositIn(f, tok, c).value;
            Vault(g, t) == Vault(f, t) + When(t == tok, c.amount) && g == f.(escrows := g.escrows)
  {
    hide Credit;
  }

  /** Shares an acknowledgement moves on its own factory. */
  function Moves(ack: Option<Ack>, v: Address): int {
    if ack.Some? then AckShares(ack.value, VSL, v, Every) else 0
  }

  lemma AddSettles(f: Factory, key: ReqKey, ack: Option<Ack>, t: Token, v: Address)
    requires AckAdd(f, key, ack).Some?
    ensures var g, info := AckAdd(f, key, ack).value.factory, f.adds[key];
            && Vault(g, t) == Vault(f, t)
                 + When(ack.Some?, When(t == info.pair.token1, info.coin1.amount)
                        + When(t == info.pair.token2, info.coin2.amount))
            && Get(g.shares, v) == Get(f.shares, v) + Moves(ack, v)
  {
    hide DepositIn;
    if ack.Some? {
      var info := f.adds[key];
      var f1 := f.(adds := f.adds - {key}, shares := Credit(f.shares, ack.value.vlp, ack.value.mintedLp).value);
      DepositInVault(f1, info.pair.token1, info.coin1, t);
      DepositInVault(DepositIn(f1, info.pair.token1, info.coin1).value, info.pair.token2, info.coin2, t);
    }
  }

  lemma RemoveSettles(f: Factory, key: ReqKey, ack: Option<Ack>, t: Token, v: Address)
    requires AckRemove(f, key, ack).Some?
    ensures var g := AckRemove(f, key, ack).value.factory;
            Vault(g, t) == Vault(f, t) && Get(g.shares, v) == Get(f.shares, v) + Moves(ack, v)
  {
  }

  lemma SwapSettles(f: Factory, key: ReqKey, ack: Option<Ack>, t: Token, v: Address)
    requires AckSwap(f, key, ack).Some?
    ensures var g, info := AckSwap(f, key, ack).value.factory, f.swaps[key];
            && Vault(g, t) == Vault(f, t) + When(ack.Some? && t == info.assetIn, info.coin.amount)
            && Get(g.shares, v) == Get(f.shares, v) + Moves(ack, v)
  {
    hide DepositIn;
    if ack.Some? { DepositInVault(f.(swaps := f.swaps - {key}), f.swaps[key].assetIn, f.swaps[key].coin, t); }
  }

  /** Settling moves into the vault exactly the deposit, and into the shares exactly what the hub reported,
      of a request that was accepted, and nothing of any other. */
  lemma AckSettles(f: Factory, p: Packet, t: Token, v: Address)
    requires Pending(f, p) && AckRequest(f, SystemLinks.Key(p), p.tx, AckOf(p)).Some?
    ensures var g := AckRequest(f, SystemLinks.Key(p), p.tx, AckOf(p)).value.factory;
            && Vault(g, t) == Vault(f, t) + When(p.status.Accepted?, DepositOf(p.tx, t))
            && Get(g.shares, v) == Get(f.shares, v) + Moves(AckOf(p), v)
  {
    hide TxIds.Render, AckAdd, AckRemove, AckSwap, Moves;
    var k := SystemLinks.Key(p);
    if p.tx.AddLiquidity? { AddSettles(f, k, AckOf(p), t, v); }
    else if p.tx.RemoveLiquidity? { RemoveSettles(f, k, AckOf(p), t, v); }
    else if p.tx.Swap? { SwapSettles(f, k, AckOf(p), t, v); }
  }

  lemma PaidVault(f: Factory, r: Release, t: Token)
    requires PayRelease(f, r).Some?
    ensures var g := PayRelease(f, r).value.0;
            Vault(g, t) == Vault(f, t) - When(t == r.token, r.amount) && g == f.(escrows := g.escrows)
  {
    hide PayLoop;
  }

  // ----- Pieces of a step -----

  lemma FactoryChanged(q: System, q1: System, c: ChainUid, g: Factory, t: Token, v: Address, s: Scope)
    requires c in q.factories && q1.factories == q.factories[c := g]
    ensures Vaults(q1, t, s) == Vaults(q, t, s) + When(s.Has(c), Vault(g, t) - Vault(q.factories[c], t))
    ensures IssuedLp(q1, v, s) == IssuedLp(q, v, s) + When(s.Has(c), Get(g.shares, v) - Get(q.factories[c].shares, v))
  {
    SumSet(q.factories, VaultWeight(t, s), c, g);
    SumSet(q.factories, IssuedWeight(v, s), c, g);
  }

  lemma PacketChanged(q: System, q1: System, i: nat, p: Packet, t: Token, v: Address, s: Scope)
    requires i < |q.inbound| && q1.inbound == q.inbound[i := p]
    ensures Arriving(q1, t, s) == Arriving(q, t, s) - ArrivingWeight(t, s)(q.inbound[i]) + ArrivingWeight(t, s)(p)
    ensures PendingLp(q1, v, s) == PendingLp(q, v, s) - PendingLpWeight(v, s)(q.inbound[i]) + PendingLpWeight(v, s)(p)
  {
    SeqSumUpdate(q.inbound, ArrivingWeight(t, s), i, p);
    SeqSumUpdate(q.inbound, PendingLpWeight(v, s), i, p);
  }

  lemma PacketSent(q: System, q1: System, p: Packet, t: Token, v: Address, s: Scope)
    requires q1.inbound == q.inbound + [p] && p.status == InFlight
    ensures Arriving(q1, t, s) == Arriving(q, t, s) && PendingLp(q1, v, s) == PendingLp(q, v, s)
  {
    SeqSumConcat(q.inbound, [p], ArrivingWeight(t, s));
    SeqSumConcat(q.inbound, [p], PendingLpWeight(v, s));
    OnePacket(p, ArrivingWeight(t, s));
    OnePacket(p, PendingLpWeight(v, s));
  }

  lemma Launched(q: System, q1: System, rs: seq<Release>, u: Option<User>, t: Token, s: Scope)
    requires q1.outbound == q.outbound + Launch(rs, u)
    ensures Leaving(q1, t, s) == Leaving(q, t, s) + ReleaseSum(rs, t, s)
  {
    SeqSumConcat(q.outbound, Launch(rs, u), LeavingWeight(t, s));
    LaunchSum(rs, u, t, s);
  }

  lemma OutChanged(q: System, q1: System, j: nat, o: OutPacket, t: Token, s: Scope)
    requires j < |q.outbound| && q1.outbound == q.outbound[j := o]
    ensures Leaving(q1, t, s) == Leaving(q, t, s) - LeavingWeight(t, s)(q.outbound[j]) + LeavingWeight(t, s)(o)
  {
    SeqSumUpdate(q.outbound, LeavingWeight(t, s), j, o);
  }

  // ----- Every step keeps both laws -----

  /** Both cross-chain laws, for one token, one pool and one set of chains. */
  ghost predicate Laws(q: System, t: Token, v: Address, s: Scope) { Backed(q, t, s) && LpAgrees(q, v, s) }

  lemma AskKeepsLaws(q: System, c: ChainUid, ask: FactoryOp, t: Token, v: Address, s: Scope)
    requires Links(q) && Laws(q, t, v, s) && DoAsk(q, c, ask).Some?
    ensures Laws(DoAsk(q, c, ask).value, t, v, s)
  {
    hide Requesting, PacketOk, Pending, TxIds.Render, FromChain, Conveys, AckMeets, CoinsOf, PartnerOf;
    var q1 := DoAsk(q, c, ask).value;
    var r := Requesting(q.factories[c], ask).value;
    RequestGrows(q.factories[c], ask, c);
    FactoryChanged(q, q1, c, r.factory, t, v, s);
    PacketSent(q, q1, q1.inbound[|q.inbound|], t, v, s);
  }

  lemma HubReceiveKeepsLaws(q: System, i: nat, t: Token, v: Address, s: Scope)
    requires Links(q) && HubValid(q.hub) && Laws(q, t, v, s) && DoHubReceive(q, i).Some?
    ensures Laws(DoHubReceive(q, i).value, t, v, s)
  {
    hide Apply, HubValid, Pending, Gone, PaysBack, FromChain, Conveys, AckMeets, CoinsOf, PartnerOf, Laws;
    var p := q.inbound[i];
    assert PacketOk(q.factories, p);
    if Apply(q.hub, p.tx).Some? {
      AcceptKeepsLaws(q, i, Apply(q.hub, p.tx).value, t, v, s);
    } else {
      EndKeepsLaws(q, i, Rejected, t, v, s);
    }
  }

  lemma AcceptKeepsLaws(q: System, i: nat, r: TxResult, t: Token, v: Address, s: Scope)
    requires Arrived(q, i) && HubValid(q.hub) && FromChain(q.inbound[i].tx, q.inbound[i].chain) && Laws(q, t, v, s)
    requires !q.inbound[i].settled && Apply(q.hub, q.inbound[i].tx) == Some(r)
    ensures Laws(q.(hub := r.hub, inbound := q.inbound[i := q.inbound[i].(status := Accepted(r.ack))],
                    outbound := q.outbound + Launch(r.releases, HubEffects.AccountOf(q.inbound[i].tx))), t, v, s)
  {
    hide Apply, HubValid, FromChain, Conveys, AckMeets, CoinsOf, PartnerOf, AckShares, DepositOf, EscrowSum,
         ShareSum, ReleaseSum, Launch;
    var p := q.inbound[i];
    var p1 := p.(status := Accepted(r.ack));
    var u := HubEffects.AccountOf(p.tx);
    var q1 := q.(hub := r.hub, inbound := q.inbound[i := p1], outbound := q.outbound + Launch(r.releases, u));
    AcceptedMoves(q.hub, p.tx, p.chain, t, v, s);
    PacketChanged(q, q1, i, p1, t, v, s);
    Launched(q, q1, r.releases, u, t, s);
  }

  /** What an accepted request of chain c does to the hub's side of both laws. */
  lemma AcceptedMoves(h: Hub, tx: HubTx, c: ChainUid, t: Token, v: Address, s: Scope)
    requires HubValid(h) && FromChain(tx, c) && Apply(h, tx).Some?
    ensures var r := Apply(h, tx).value;
            && EscrowSum(r.hub.escrows, t, s)
               == EscrowSum(h.escrows, t, s) + When(s.Has(c), DepositOf(tx, t)) - ReleaseSum(r.releases, t, s)
            && ShareSum(r.hub, v, s) == ShareSum(h, v, s) + When(s.Has(c), AckShares(r.ack, c, v, s))
  {
    hide Apply, HubValid, FromChain, Conveys, AckMeets, CoinsOf, PartnerOf, AckShares, DepositOf, EscrowSum,
         ShareSum, ReleaseSum;
    TxFlow(h, tx, t, s);
    TxShares(h, tx, v, s);
    DepositIsRequested(h, tx, c, t, s);
    AckSharesAt(h, tx, c, v, s);
    AckSharesOutside(Apply(h, tx).value.ack, c, v, s);
  }

  lemma AckSharesOutside(ack: Ack, c: ChainUid, v: Address, s: Scope)
    ensures !s.Has(c) ==> AckShares(ack, c, v, s) == 0
    ensures s.Has(c) ==> AckShares(ack, c, v, s) == Moves(Some(ack), v)
  {
  }

  lemma EndKeepsLaws(q: System, i: nat, status: Status, t: Token, v: Address, s: Scope)
    requires Laws(q, t, v, s) && (status == Rejected || status == TimedOut) && DoEnd(q, i, status).Some?
    ensures Laws(DoEnd(q, i, status).value, t, v, s)
  {
    PacketChanged(q, DoEnd(q, i, status).value, i, q.inbound[i].(status := status), t, v, s);
  }

  lemma FactoryAckKeepsLaws(q: System, i: nat, t: Token, v: Address, s: Scope)
    requires Links(q) && Laws(q, t, v, s) && DoFactoryAck(q, i).Some?
    ensures Laws(DoFactoryAck(q, i).value, t, v, s)
  {
    hide AckRequest, TxIds.Render, Pending, Gone, PaysBack, FromChain, Conveys, AckMeets, CoinsOf, PartnerOf,
         AckShares, DepositOf, Moves;
    var q1 := DoFactoryAck(q, i).value;
    var p := q.inbound[i];
    var f := q.factories[p.chain];
    assert PacketOk(q.factories, p);
    var ack := AckRequest(f, SystemLinks.Key(p), p.tx, AckOf(p));
    if ack.Some? {
      if p.settled { SettledOnce(f, p, AckOf(p)); }
      AckSettles(f, p, t, v);
      FactoryChanged(q, q1, p.chain, ack.value.factory, t, v, s);
      PacketChanged(q, q1, i, q1.inbound[i], t, v, s);
      NoMoves(v);
      if p.status.Accepted? { AckSharesOutside(p.status.ack, p.chain, v, s); }
    }
  }

  lemma NoMoves(v: Address)
    ensures Moves(None, v) == 0
  {
  }

  lemma FactoryReceiveKeepsLaws(q: System, j: nat, t: Token, v: Address, s: Scope)
    requires Laws(q, t, v, s) && DoFactoryReceive(q, j).Some?
    ensures Laws(DoFactoryReceive(q, j).value, t, v, s)
  {
    hide PayRelease;
    var q1 := DoFactoryReceive(q, j).value;
    var r := q.outbound[j].release;
    OutChanged(q, q1, j, q1.outbound[j], t, s);
    if PayRelease(q.factories[r.chain], r).Some? {
      var g := PayRelease(q.factories[r.chain], r).value.0;
      PaidVault(q.factories[r.chain], r, t);
      FactoryChanged(q, q1, r.chain, g, t, v, s);
      assert q.outbound[j].release == r && q.outbound[j].status == Waiting;
      assert ReleaseWeight(t, s)(r) == When(s.Has(r.chain), When(t == r.token, r.amount));
      assert LeavingWeight(t, s)(q.outbound[j]) == When(s.Has(r.chain), When(t == r.token, r.amount));
    }
  }

  lemma HubAckKeepsLaws(q: System, j: nat, t: Token, v: Address, s: Scope)
    requires Laws(q, t, v, s) && DoHubAck(q, j).Some?
    ensures Laws(DoHubAck(q, j).value, t, v, s)
  {
    hide Apply;
    var q1 := DoHubAck(q, j).value;
    var tx := ReleaseFailed(q.outbound[j].release);
    if Apply(q.hub, tx).Some? {
      TxFlow(q.hub, tx, t, s);
      TxShares(q.hub, tx, v, s);
      RestoreAcksNothing(q.hub, q.outbound[j].release);
      OutChanged(q, q1, j, q1.outbound[j], t, s);
    }
  }

  lemma RestoreAcksNothing(h: Hub, r: Release)
    requires Apply(h, ReleaseFailed(r)).Some?
    ensures var x := Apply(h, ReleaseFailed(r)).value; x.releases == [] && x.ack == OtherAck
  {
  }

  lemma LocalAcksNothing(h: Hub, tx: HubTx)
    requires StartsOnHub(tx) && Apply(h, tx).Some?
    ensures Apply(h, tx).value.ack == OtherAck
  {
    hide ReleaseEscrow, ExecuteSwap, TokenUsable;
  }

  lemma HubLocalKeepsLaws(q: System, tx: HubTx, t: Token, v: Address, s: Scope)
    requires Laws(q, t, v, s) && DoHubLocal(q, tx).Some?
    ensures Laws(DoHubLocal(q, tx).value, t, v, s)
  {
    hide Apply, StartsOnHub, Proper;
    var q1 := DoHubLocal(q, tx).value;
    TxFlow(q.hub, tx, t, s);
    TxShares(q.hub, tx, v, s);
    LocalDeposit(q.hub, tx, t, s);
    LocalAcksNothing(q.hub, tx);
    Launched(q, q1, Apply(q.hub, tx).value.releases, HubEffects.AccountOf(tx), t, s);
  }

  lemma DenomKeepsLaws(q: System, c: ChainUid, tok: Token, d: Denom, allow: bool, t: Token, v: Address, s: Scope)
    requires Laws(q, t, v, s) && DoDenom(q, c, tok, d, allow).Some?
    ensures Laws(DoDenom(q, c, tok, d, allow).value, t, v, s)
  {
    var q1 := DoDenom(q, c, tok, d, allow).value;
    FactoryChanged(q, q1, c, q1.factories[c], t, v, s);
  }

  lemma StepKeepsLaws(q: System, step: Step, t: Token, v: Address, s: Scope)
    requires Links(q) && HubValid(q.hub) && Laws(q, t, v, s) && SystemModel.Next(q, step).Some?
    ensures Laws(SystemModel.Next(q, step).value, t, v, s)
  {
    hide Links, HubValid, Laws, DoAsk, DoHubReceive, DoEnd, DoFactoryAck, DoFactoryReceive, DoHubAck, DoHubLocal,
         DoDenom;
    match step
    case Ask(c, ask) => AskKeepsLaws(q, c, ask, t, v, s);
    case HubReceive(i) => HubReceiveKeepsLaws(q, i, t, v, s);
    case HubRefuse(i) => EndKeepsLaws(q, i, Rejected, t, v, s);
    case RequestTimeout(i) => EndKeepsLaws(q, i, TimedOut, t, v, s);
    case FactoryAck(i) => FactoryAckKeepsLaws(q, i, t, v, s);
    case FactoryReceive(j) => FactoryReceiveKeepsLaws(q, j, t, v, s);
    case FactoryRefuse(j) => RefuseKeepsLaws(q, j, t, v, s);
    case HubAck(j) => HubAckKeepsLaws(q, j, t, v, s);
    case HubLocal(tx) => HubLocalKeepsLaws(q, tx, t, v, s);
    case AllowDenom(c, tok, d) => DenomKeepsLaws(q, c, tok, d, true, t, v, s);
    case ForbidDenom(c, tok, d) => DenomKeepsLaws(q, c, tok, d, false, t, v, s);
  }

  lemma RefuseKeepsLaws(q: System, j: nat, t: Token, v: Address, s: Scope)
    requires Laws(q, t, v, s) && DoFactoryRefuse(q, j).Some?
    ensures Laws(DoFactoryRefuse(q, j).value, t, v, s)
  {
    OutChanged(q, DoFactoryRefuse(q, j).value, j, q.outbound[j].(status := Failed), t, s);
  }
}
