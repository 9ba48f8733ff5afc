/** Failed releases: nothing but a full ledger can keep one from being put back. */
module SystemRestore {
  import opened Arith
  import opened Types
  import opened ReleaseModel
  import opened HubModel
  import opened HubFlow
  import opened FactoryModel
  import opened FactoryLaws
  import opened SystemModel
  import opened SystemRuns
  import HubEffects

  /** Every packet carries something, to a registered chain, out of an escrow the hub has on record. */
  ghost predicate OnRecord(h: Hub, rs: seq<Release>) {
    forall i | 0 <= i < |rs| :: Recorded(h, rs[i])
  }

  predicate Recorded(h: Hub, r: Release) {
    r.amount > 0 && r.chain in h.chains && EscrowKey(r.token, r.chain) in h.escrows
  }

  lemma {:induction false} LoopOnRecord(escrows: Escrows, chains: set<ChainUid>, token: Token, remaining: Uint128,
                                        rs: seq<Receiver>)
    requires ReleaseLoop(escrows, chains, token, remaining, rs).Some?
    ensures var o := ReleaseLoop(escrows, chains, token, remaining, rs).value;
            && escrows.Keys <= o.escrows.Keys
            && forall i | 0 <= i < |o.draws| :: EscrowKey(token, o.draws[i].receiver.user.chain) in o.escrows
    decreases |rs|
  {
    if remaining != 0 && rs != [] {
      var take := Take(escrows, token, remaining, rs[0]);
      if take == 0 {
        LoopOnRecord(escrows, chains, token, remaining, rs[1..]);
      } else {
        LoopOnRecord(Lower(escrows, token, rs[0].user.chain, take), chains, token, remaining - take, rs[1..]);
      }
    }
  }

  lemma ReleaseOnRecord(h: Hub, sender: User, token: Token, asked: Option<Uint128>, rs: seq<Receiver>)
    requires ReleaseEscrow(h, sender, token, asked, rs).Some?
    ensures var (h1, out) := ReleaseEscrow(h, sender, token, asked, rs).value;
            h.escrows.Keys <= h1.escrows.Keys && h1.chains == h.chains && OnRecord(h1, out)
  {
    hide ReleaseLoop, DrawTotal;
    var amount := asked.GetOr(Balance(h, sender, token));
    LoopTotals(h.escrows, h.chains, token, amount, rs);
    LoopOnRecord(h.escrows, h.chains, token, amount, rs);
  }

  /** What every transaction owes its releases: no escrow entry is dropped and every packet is on record. */
  ghost predicate Keeps(h: Hub, r: TxResult) {
    h.escrows.Keys <= r.hub.escrows.Keys && r.hub.chains == h.chains && OnRecord(r.hub, r.releases)
  }

  lemma RemoveOnRecord(h: Hub, sender: User, pair: Pair, lp: Uint128, rs: seq<Receiver>)
    requires RemoveTx(h, sender, pair, lp, rs).Some?
    ensures Keeps(h, RemoveTx(h, sender, pair, lp, rs).value)
  {
    hide VlpModel.RemoveLiquidity, PayBoth, ReleaseEscrow, NetLedger;
    var v := h.vlpOf[pair.Tuple()];
    var r := VlpModel.RemoveLiquidity(h.vlps[v], sender.chain, lp).value;
    var h0 := h.(vlps := h.vlps[v := r.vlp]);
    var h1 := PayBoth(h0, v, h.vlps[v].pair, sender, r.paid1, r.paid2).value;
    PayBothFlow(h0, v, h.vlps[v].pair, sender, r.paid1, r.paid2, "");
    ReleaseOnRecord(h1, sender, pair.token1, Some(r.paid1), rs);
    var h2 := ReleaseEscrow(h1, sender, pair.token1, Some(r.paid1), rs).value.0;
    ReleaseOnRecord(h2, sender, pair.token2, Some(r.paid2), rs);
  }

  lemma SwapOnRecord(h: Hub, sender: User, assetIn: Token, amountIn: Uint128, assetOut: Token, minOut: Uint128,
                     swaps: seq<SwapPair>, rs: seq<Receiver>)
    requires SwapTx(h, sender, assetIn, amountIn, assetOut, minOut, swaps, rs).Some?
    ensures Keeps(h, SwapTx(h, sender, assetIn, amountIn, assetOut, minOut, swaps, rs).value)
  {
    hide ExecuteSwap, ReleaseEscrow, Route, NetLedger;
    var hops := Route(h, assetIn, assetOut, swaps).value;
    var h1 := CreditEscrow(h, assetIn, sender.chain, amountIn).value;
    var h2 := Mint(h1, HubAccount(hops[0].vlp), assetIn, amountIn).value;
    var o := ExecuteSwap(h2, sender, hops[0], assetIn, amountIn, minOut, hops[1..]).value;
    SwapFlow(h2, sender, hops[0], assetIn, amountIn, minOut, hops[1..], assetIn);
    ReleaseOnRecord(o.hub, sender, assetOut, Some(o.amountOut), rs);
  }

  lemma AddOnRecord(h: Hub, sender: User, pair: Pair, a1: Uint128, a2: Uint128, slippage: nat)
    requires AddTx(h, sender, pair, a1, a2, slippage).Some?
    ensures Keeps(h, AddTx(h, sender, pair, a1, a2, slippage).value)
  {
    hide VlpModel.AddLiquidity, Mint;
    var v := h.vlpOf[pair.Tuple()];
    MintKeepsEscrows(h, v, h.vlps[v].pair, sender.chain, a1, a2);
  }

  lemma MintKeepsEscrows(h: Hub, v: Address, p: Pair, c: ChainUid, a1: Uint128, a2: Uint128)
    requires v in h.vlps && FundPool(h, v, p, c, a1, a2).Some?
    ensures h.escrows.Keys <= FundPool(h, v, p, c, a1, a2).value.escrows.Keys
    ensures FundPool(h, v, p, c, a1, a2).value.chains == h.chains
  {
  }

  lemma TxOnRecord(h: Hub, tx: HubTx)
    requires Apply(h, tx).Some?
    ensures Keeps(h, Apply(h, tx).value)
  {
    hide AddTx, RemoveTx, SwapTx, ReleaseEscrow, ExecuteSwap, TokenUsable, NetLedger;
    match tx
    case AddLiquidity(sender, pair, a1, a2, slippage) => AddOnRecord(h, sender, pair, a1, a2, slippage);
    case RemoveLiquidity(sender, pair, lp, rs) => RemoveOnRecord(h, sender, pair, lp, rs);
    case Swap(sender, assetIn, amountIn, assetOut, minOut, swaps, rs) =>
      SwapOnRecord(h, sender, assetIn, amountIn, assetOut, minOut, swaps, rs);
    case Withdraw(sender, token, asked, rs) => ReleaseOnRecord(h, sender, token, asked, rs);
    case DirectSwap(sender, hop, assetIn, amountIn, minOut, next) =>
      SwapFlow(h, sender, hop, assetIn, amountIn, minOut, next, assetIn);
    case _ =>
  }

  // ----- Along a run -----

  /** The packet names the account it was taken from; paid, it was paid in full to its address, and otherwise nothing
      was paid for it. */
  predicate Accounted(o: OutPacket) {
    && o.origin == Some(o.release.sender)
    && (if o.status.PaidOut? then PaysTo(o.payments, o.release.to, o.release.amount) else o.payments == [])
  }

  ghost predicate AllOnRecord(q: System) {
    && q.hub.chains == q.factories.Keys
    && forall j | 0 <= j < |q.outbound| :: Recorded(q.hub, q.outbound[j].release) && Accounted(q.outbound[j])
  }

  /** What a transaction does for the packets already out and its own. */
  lemma TxAccounts(h: Hub, tx: HubTx)
    requires Apply(h, tx).Some?
    ensures var r := Apply(h, tx).value;
            && r.hub.chains == h.chains && (forall x :: Recorded(h, x) ==> Recorded(r.hub, x))
            && (forall i | 0 <= i < |r.releases| ::
                  Recorded(r.hub, r.releases[i]) && HubEffects.AccountOf(tx) == Some(r.releases[i].sender))
  {
    hide Apply, HubEffects.SentBy;
    TxOnRecord(h, tx);
    var r := Apply(h, tx).value;
    forall i | 0 <= i < |r.releases| ensures HubEffects.AccountOf(tx) == Some(r.releases[i].sender) {
      HubEffects.TxReleases(h, tx, i);
      SentByAccount(tx, r.releases[i]);
    }
  }

  lemma SentByAccount(tx: HubTx, r: Release)
    requires HubEffects.SentBy(tx, r)
    ensures HubEffects.AccountOf(tx) == Some(r.sender)
  {
  }

  lemma ReceivedAccounts(q: System, j: nat)
    requires AllOnRecord(q) && VaultsValid(q.factories) && DoFactoryReceive(q, j).Some?
    ensures AllOnRecord(DoFactoryReceive(q, j).value)
  {
    hide PayRelease, PaysTo, EscrowModel.EscrowValid;
    var r := q.outbound[j].release;
    OneFactory(q.factories, r.chain);
    PayReleaseLaw(q.factories[r.chain], r, "", EscrowModel.Native(""));
  }

  lemma StepOnRecord(q: System, step: Step)
    requires AllOnRecord(q) && VaultsValid(q.factories) && SystemModel.Next(q, step).Some?
    ensures AllOnRecord(SystemModel.Next(q, step).value)
  {
    hide Apply, Requesting, AckRequest, DoFactoryReceive, EscrowModel.AddAllowed, EscrowModel.Disallow, StartsOnHub,
         HubPools.Proper, Recorded, PaysTo, VaultsValid, HubEffects.AccountOf;
    match step
    case HubReceive(i) => if Apply(q.hub, q.inbound[i].tx).Some? { TxAccounts(q.hub, q.inbound[i].tx); }
    case FactoryReceive(j) => ReceivedAccounts(q, j);
    case HubAck(j) =>
      var tx := ReleaseFailed(q.outbound[j].release);
      if Apply(q.hub, tx).Some? { TxAccounts(q.hub, tx); }
    case HubLocal(tx) => TxAccounts(q.hub, tx);
    case _ =>
  }

  lemma {:induction false} RunOnRecord(q: System, steps: seq<Step>)
    requires Genesis(q)
    ensures AllOnRecord(Exec(q, steps))
  {
    hide SystemModel.Next, SystemLinks.Links, HubSound, SystemLaws.Laws, VaultsValid;
    if steps != [] {
      var before := Exec(q, steps[..|steps| - 1]);
      RunOnRecord(q, steps[..|steps| - 1]);
      RunSound(q, steps[..|steps| - 1], "", "", Every);
      if SystemModel.Next(before, steps[|steps| - 1]).Some? { StepOnRecord(before, steps[|steps| - 1]); }
    }
  }

  /** In every reachable state a release that was paid was paid in full, coin by coin, to the address it names,
      and for one that was not nothing was paid. */
  lemma ReleasesPaidExactly(q: System, steps: seq<Step>, j: nat)
    requires Genesis(q) && j < |Exec(q, steps).outbound|
    ensures var o := Exec(q, steps).outbound[j];
            if o.status.PaidOut? then PaysTo(o.payments, o.release.to, o.release.amount) else o.payments == []
  {
    hide Exec, PaysTo;
    RunOnRecord(q, steps);
  }

  /** In every reachable state a failed release can be put back if and only if neither the chain's escrow balance
      nor the balance of the account it was taken from would overflow; then both grow by exactly its amount, and
      no other account's balance changes. */
  lemma FailedReleaseRestores(q: System, steps: seq<Step>, j: nat, x: User, t: Token)
    requires Genesis(q) && j < |Exec(q, steps).outbound|
    ensures var z := Exec(q, steps);
            var o := z.outbound[j];
            var r := o.release;
            var key, back := EscrowKey(r.token, r.chain), Apply(z.hub, ReleaseFailed(r));
            && o.origin.Some?
            && var account := o.origin.value;
            && (back.Some? <==> Get(z.hub.escrows, key) + r.amount <= U128_MAX
                                && Balance(z.hub, account, r.token) + r.amount <= U128_MAX)
            && (back.Some? ==>
                  && Get(back.value.hub.escrows, key) == Get(z.hub.escrows, key) + r.amount
                  && Balance(back.value.hub, x, t)
                     == Balance(z.hub, x, t) + When(x == account && t == r.token, r.amount))
  {
    hide Exec, Apply, PaysTo;
    RunOnRecord(q, steps);
    HubEffects.RestoreLaw(Exec(q, steps).hub, Exec(q, steps).outbound[j].release, x, t);
  }
}
