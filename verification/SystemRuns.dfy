/** The main theorems: what holds after every run of the protocol from an empty start. */
module SystemRuns {
  import opened Arith
  import opened Sums
  import opened Types
  import opened EscrowModel
  import opened ReleaseModel
  import opened HubModel
  import opened HubFlow
  import opened HubPools
  import opened HubShares
  import opened FactoryModel
  import opened FactoryLaws
  import opened SystemModel
  import opened SystemLinks
  import opened SystemLaws

  // ----- Hub and escrow contracts along a run -----

  /** On the hub: pools valid and covered, and the virtual balances of a token equal its escrow ledger
      plus what transfers to oneself have created. */
  ghost predicate HubSound(h: Hub, t: Token) {
    HubValid(h) && LedgerSum(h, t) == EscrowSum(h.escrows, t, Every) + Inflated(h, t)
  }

  ghost predicate VaultsValid(fs: map<ChainUid, Factory>) {
    forall c, t | c in fs && t in fs[c].escrows :: EscrowValid(fs[c].escrows[t])
  }

  lemma TxKeepsSound(h: Hub, tx: HubTx, t: Token)
    requires HubSound(h, t) && Proper(h, tx) && Apply(h, tx).Some?
    ensures HubSound(Apply(h, tx).value.hub, t)
  {
    hide Apply, HubValid;
    TxKeepsValid(h, tx);
    TxFlow(h, tx, t, Every);
  }

  lemma StepKeepsSound(q: System, step: Step, t: Token)
    requires Links(q) && HubSound(q.hub, t) && SystemModel.Next(q, step).Some?
    ensures HubSound(SystemModel.Next(q, step).value.hub, t)
  {
    hide Apply, HubSound, Requesting, AckRequest, PayRelease, AddAllowed, Disallow, Proper, FromChain, Conveys,
         AckMeets, CoinsOf, PartnerOf, StartsOnHub;
    match step
    case HubReceive(i) =>
      var p := q.inbound[i];
      assert PacketOk(q.factories, p);
      PacketIsProper(q.hub, p.tx, p.chain);
      if Apply(q.hub, p.tx).Some? { TxKeepsSound(q.hub, p.tx, t); }
    case HubAck(j) =>
      var tx := ReleaseFailed(q.outbound[j].release);
      assert Proper(q.hub, tx) by { RestoreIsProper(q.hub, q.outbound[j].release); }
      if Apply(q.hub, tx).Some? { TxKeepsSound(q.hub, tx, t); }
    case HubLocal(tx) => TxKeepsSound(q.hub, tx, t);
    case _ =>
  }

  lemma RestoreIsProper(h: Hub, r: Release)
    ensures Proper(h, ReleaseFailed(r))
  {
  }

  lemma DepositInValid(f: Factory, tok: Token, c: Coin)
    requires DepositIn(f, tok, c).Some? && (forall t | t in f.escrows :: EscrowValid(f.escrows[t]))
    ensures forall t | t in DepositIn(f, tok, c).value.escrows :: EscrowValid(DepositIn(f, tok, c).value.escrows[t])
  {
    hide EscrowModel.Deposit;
    DepositKeepsValid(f.escrows[tok], c);
  }

  lemma AddVaultsValid(f: Factory, key: ReqKey, ack: Option<Ack>)
    requires VaultsInOrder(f) && AckAdd(f, key, ack).Some?
    ensures VaultsInOrder(AckAdd(f, key, ack).value.factory)
  {
    hide DepositIn, Credit, EscrowValid;
    if ack.Some? {
      var info := f.adds[key];
      var f1 := f.(adds := f.adds - {key}, shares := Credit(f.shares, ack.value.vlp, ack.value.mintedLp).value);
      DepositInValid(f1, info.pair.token1, info.coin1);
      DepositInValid(DepositIn(f1, info.pair.token1, info.coin1).value, info.pair.token2, info.coin2);
    }
  }

  lemma AckVaultsValid(f: Factory, key: ReqKey, tx: HubTx, ack: Option<Ack>)
    requires VaultsInOrder(f) && AckRequest(f, key, tx, ack).Some?
    ensures VaultsInOrder(AckRequest(f, key, tx, ack).value.factory)
  {
    hide DepositIn, AckAdd, Credit, Debit, EscrowValid;
    if tx.AddLiquidity? {
      AddVaultsValid(f, key, ack);
    } else if tx.Swap? && ack.Some? {
      DepositInValid(f.(swaps := f.swaps - {key}), f.swaps[key].assetIn, f.swaps[key].coin);
    }
  }

  lemma PaidVaultsValid(f: Factory, r: Release)
    requires VaultsInOrder(f) && PayRelease(f, r).Some?
    ensures VaultsInOrder(PayRelease(f, r).value.0)
  {
    hide PayLoop, EscrowValid;
    assert EscrowValid(f.escrows[r.token]);
    WithdrawLaw(f.escrows[r.token], r.amount);
  }

  lemma StepKeepsVaults(q: System, step: Step)
    requires Links(q) && VaultsValid(q.factories) && SystemModel.Next(q, step).Some?
    ensures VaultsValid(SystemModel.Next(q, step).value.factories)
  {
    hide Apply, Requesting, AckRequest, PayRelease, AddAllowed, Disallow, Proper, EscrowValid, StartsOnHub, PacketOk,
         TxIds.Render;
    match step
    case Ask(c, ask) =>
      RequestGrows(q.factories[c], ask, c);
    case FactoryAck(i) =>
      var p := q.inbound[i];
      assert VaultsInOrder(q.factories[p.chain]);
      if AckRequest(q.factories[p.chain], SystemLinks.Key(p), p.tx, AckOf(p)).Some? {
        AckVaultsValid(q.factories[p.chain], SystemLinks.Key(p), p.tx, AckOf(p));
      }
    case FactoryReceive(j) =>
      var r := q.outbound[j].release;
      assert VaultsInOrder(q.factories[r.chain]);
      if PayRelease(q.factories[r.chain], r).Some? { PaidVaultsValid(q.factories[r.chain], r); }
    case AllowDenom(c, t, d) => AllowKeepsValid(q.factories[c].escrows[t], d);
    case ForbidDenom(c, t, d) => ForbidKeepsValid(q.factories[c].escrows[t], d);
    case _ =>
  }

  // ----- The theorem -----

  /** Everything that holds in a reachable state, for one token, one pool and one set of chains. */
  ghost predicate Sound(q: System, t: Token, v: Address, s: Scope) {
    Links(q) && HubSound(q.hub, t) && VaultsValid(q.factories) && Laws(q, t, v, s)
  }

  lemma StepKeepsAll(q: System, step: Step, t: Token, v: Address, s: Scope)
    requires Sound(q, t, v, s) && SystemModel.Next(q, step).Some?
    ensures Sound(SystemModel.Next(q, step).value, t, v, s)
  {
    hide SystemModel.Next, Links, HubValid, VaultsValid, Laws;
    StepKeepsLinks(q, step);
    StepKeepsSound(q, step, t);
    StepKeepsVaults(q, step);
    StepKeepsLaws(q, step, t, v, s);
  }

  lemma GenesisSound(q: System, t: Token, v: Address, s: Scope)
    requires Genesis(q)
    ensures Sound(q, t, v, s)
  {
    hide Laws, HubSound, EscrowValid;
    GenesisHub(q, t);
    GenesisLaws(q, t, v, s);
    forall c, x | c in q.factories && x in q.factories[c].escrows ensures EscrowValid(q.factories[c].escrows[x]) {
      assert FreshFactory(q.factories[c]);
    }
  }

  lemma GenesisHub(q: System, t: Token)
    requires Genesis(q)
    ensures HubSound(q.hub, t)
  {
    hide FreshFactory;
  }

  lemma GenesisLaws(q: System, t: Token, v: Address, s: Scope)
    requires Genesis(q)
    ensures Laws(q, t, v, s)
  {
    hide EscrowValid;
    forall c | c in q.factories
      ensures VaultWeight(t, s)(c, q.factories[c]) == 0 && IssuedWeight(v, s)(c, q.factories[c]) == 0
    {
      assert FreshFactory(q.factories[c]);
      assert Vault(q.factories[c], t) == 0 && Get(q.factories[c].shares, v) == 0;
    }
    SumZero(q.factories, VaultWeight(t, s));
    SumZero(q.factories, IssuedWeight(v, s));
  }

  /** After every run: requests stay tied to their records, pools are valid and covered, the ledger is
      conserved, the escrow books are in step, every token is backed and every pool's LP agrees. */
  lemma {:induction false} RunSound(q: System, steps: seq<Step>, t: Token, v: Address, s: Scope)
    requires Genesis(q)
    ensures Sound(Exec(q, steps), t, v, s)
  {
    hide Sound, Genesis, SystemModel.Next;
    if steps == [] {
      GenesisSound(q, t, v, s);
    } else {
      var before := Exec(q, steps[..|steps| - 1]);
      RunSound(q, steps[..|steps| - 1], t, v, s);
      if SystemModel.Next(before, steps[|steps| - 1]).Some? { StepKeepsAll(before, steps[|steps| - 1], t, v, s); }
    }
  }

  // ----- What it says, chain by chain and for the whole system -----

  lemma {:induction false} FactoriesStay(q: System, steps: seq<Step>)
    ensures Exec(q, steps).factories.Keys == q.factories.Keys
  {
    hide SystemModel.Next;
    if steps != [] {
      FactoriesStay(q, steps[..|steps| - 1]);
      FactoriesKept(Exec(q, steps[..|steps| - 1]), steps[|steps| - 1]);
    }
  }

  lemma FactoriesKept(q: System, step: Step)
    ensures SystemModel.Next(q, step).Some? ==> SystemModel.Next(q, step).value.factories.Keys == q.factories.Keys
  {
    hide Apply, Requesting, AckRequest, PayRelease, AddAllowed, Disallow, Proper, StartsOnHub;
  }

  /** Cross-chain backing: at every moment and for every chain and token, the hub's escrow balance and the
      releases neither paid nor restored equal the escrow contract's total and the deposits the hub
      accepted but the factory has not settled. */
  lemma ChainBacked(q: System, steps: seq<Step>, t: Token, c: ChainUid)
    requires Genesis(q) && c in q.factories
    ensures var z := Exec(q, steps);
            && c in z.factories
            && Get(z.hub.escrows, EscrowKey(t, c)) + Leaving(z, t, Among({c}))
               == Vault(z.factories[c], t) + Arriving(z, t, Among({c}))
  {
    hide Exec, Genesis, Links, HubSound, VaultsValid, LpAgrees, SystemLaws.Arriving, SystemLaws.Leaving;
    var z := Exec(q, steps);
    RunSound(q, steps, t, "", Among({c}));
    FactoriesStay(q, steps);
    SumSingle(z.hub.escrows, EscrowWeight(t, Among({c})), EscrowKey(t, c));
    SumSingle(z.factories, VaultWeight(t, Among({c})), c);
  }

  /** LP agreement: at every moment and for every chain and pool, the hub's LP for the chain equals the
      LP its factory issued, plus accepted unsettled adds, less accepted unsettled removes. */
  lemma ChainLpAgrees(q: System, steps: seq<Step>, v: Address, c: ChainUid)
    requires Genesis(q) && c in q.factories
    ensures var z := Exec(q, steps);
            && c in z.factories
            && (if v in z.hub.vlps then Get(z.hub.vlps[v].chainLp, c) else 0)
               == Get(z.factories[c].shares, v) + PendingLp(z, v, Among({c}))
  {
    hide Exec, Genesis, Links, HubSound, VaultsValid, Backed, SystemLaws.PendingLp;
    var z := Exec(q, steps);
    RunSound(q, steps, "", v, Among({c}));
    FactoriesStay(q, steps);
    if v in z.hub.vlps { SumSingle(z.hub.vlps[v].chainLp, ShareWeight(Among({c})), c); }
    forall b | b in z.factories && b != c ensures IssuedWeight(v, Among({c}))(b, z.factories[b]) == 0 {
      assert !Among({c}).Has(b);
    }
    SumSingle(z.factories, IssuedWeight(v, Among({c})), c);
  }

  /** Solvency: every virtual balance that a transfer to oneself did not create is backed by escrowed
      coins or deposits on their way, once the releases still to be paid are set aside. */
  lemma Solvent(q: System, steps: seq<Step>, t: Token)
    requires Genesis(q)
    ensures var z := Exec(q, steps);
            LedgerSum(z.hub, t) - Inflated(z.hub, t) + Leaving(z, t, Every)
            == Vaults(z, t, Every) + Arriving(z, t, Every)
  {
    hide Exec, Genesis, Links, VaultsValid, LpAgrees;
    RunSound(q, steps, t, "", Every);
  }

  // ----- Exactly-once settlement -----

  lemma StepKeepsSettled(q: System, step: Step, i: nat)
    requires Links(q) && SystemModel.Next(q, step).Some? && i < |q.inbound|
    ensures var z := SystemModel.Next(q, step).value;
            && i < |z.inbound| && (q.inbound[i].settled ==> z.inbound[i] == q.inbound[i])
            && z.inbound[i].stamp == q.inbound[i].stamp && z.inbound[i].tx == q.inbound[i].tx
            && z.inbound[i].request == q.inbound[i].request
  {
    hide Apply, Requesting, AckRequest, PayRelease, AddAllowed, Disallow, Proper, StartsOnHub, Pending, Gone, PaysBack,
         FromChain, Conveys, AckMeets, CoinsOf, PartnerOf, TxIds.Render;
    assert PacketOk(q.factories, q.inbound[i]);
    if step == FactoryAck(i) && q.inbound[i].settled {
      SettledOnce(q.factories[q.inbound[i].chain], q.inbound[i], AckOf(q.inbound[i]));
    }
  }

  /** Once a request is settled nothing that happens later, redelivered acknowledgements and timeouts
      included, changes what was paid for it. */
  lemma {:induction false} SettledForGood(q: System, steps: seq<Step>, more: seq<Step>, i: nat)
    requires Genesis(q) && i < |Exec(q, steps).inbound| && Exec(q, steps).inbound[i].settled
    ensures var z := Exec(q, steps + more); i < |z.inbound| && z.inbound[i] == Exec(q, steps).inbound[i]
    decreases |more|
  {
    hide SystemModel.Next, Genesis, Links, HubSound, VaultsValid, Laws;
    if more == [] {
      assert steps + more == steps;
    } else {
      var less := more[..|more| - 1];
      assert (steps + more)[..|steps + more| - 1] == steps + less;
      SettledForGood(q, steps, less, i);
      RunSound(q, steps + less, "", "", Every);
      var before, step := Exec(q, steps + less), more[|more| - 1];
      if SystemModel.Next(before, step).Some? { StepKeepsSettled(before, step, i); }
    }
  }

  /** In every reachable state a settled request has paid out, denomination by denomination, exactly the
      coins its request named before the partner fee: to the escrows and the partner if the hub accepted it,
      to its sender if not. An unsettled one has paid nothing. */
  lemma PaidExactlyOnce(q: System, steps: seq<Step>, i: nat, d: Denom)
    requires Genesis(q) && i < |Exec(q, steps).inbound|
    ensures var p := Exec(q, steps).inbound[i];
            && p.coins == CoinsOf(p.request) && p.partner == PartnerOf(p.request)
            && if p.settled then Outcome(p, p.payments) && SentOut(p.payments, d) == CoinsIn(p.coins, d)
            else p.payments == []
  {
    hide Exec, Genesis, HubSound, VaultsValid, Laws, Outcome, Pending, Gone, Conveys, AckMeets, CoinsOf, PartnerOf;
    RunSound(q, steps, "", "", Every);
    assert PacketOk(Exec(q, steps).factories, Exec(q, steps).inbound[i]);
  }

  /** In every reachable state each packet says to the hub what its request said to the factory, and an accepted one
      was honoured: a swap paid at least the minimum its request named, and a removal burned the LP it named. */
  lemma RequestsHonoured(q: System, steps: seq<Step>, i: nat)
    requires Genesis(q) && i < |Exec(q, steps).inbound|
    ensures var p := Exec(q, steps).inbound[i];
            && Conveys(p.chain, p.request, p.stamp, p.tx)
            && (p.status.Accepted? && p.request.AskSwap? ==>
                  p.status.ack.SwapAck? && p.status.ack.amountOut >= p.request.minOut)
            && (p.status.Accepted? && p.request.AskRemove? ==>
                  p.status.ack.RemoveAck? && p.status.ack.burnedLp == p.request.lp)
  {
    hide Exec, Genesis, HubSound, VaultsValid, Laws, PaysBack, Pending, Gone, FromChain;
    RunSound(q, steps, "", "", Every);
    assert PacketOk(Exec(q, steps).factories, Exec(q, steps).inbound[i]);
  }

  /** In every reachable state an accepted or refused request that is not yet settled is settled by the next
      acknowledgement exactly when: refused, its factory is not on the hub's own chain; accepted, the escrows can
      take its coins, the shares and fees can be counted, and the pool's LP token is known. */
  lemma SettlesIff(q: System, steps: seq<Step>, i: nat)
    requires Genesis(q) && i < |Exec(q, steps).inbound|
    requires var p := Exec(q, steps).inbound[i]; p.status != InFlight && !p.settled && !p.tx.Withdraw?
    ensures var z := Exec(q, steps);
            var p := z.inbound[i];
            && p.chain in z.factories
            && var f := z.factories[p.chain];
            AckRequest(f, SystemLinks.Key(p), p.tx, AckOf(p)).Some? <==>
              if p.status.Accepted? then SettlementFits(f, p) else !f.native
  {
    hide Exec, Genesis, HubSound, VaultsValid, Laws, PaysBack, Gone, Conveys, CoinsOf, PartnerOf;
    var z := Exec(q, steps);
    RunSound(q, steps, "", "", Every);
    assert PacketOk(z.factories, z.inbound[i]);
    assert VaultsInOrder(z.factories[z.inbound[i].chain]) by { OneFactory(z.factories, z.inbound[i].chain); }
    SettlementIff(z.factories[z.inbound[i].chain], z.inbound[i]);
  }

  lemma OneFactory(fs: map<ChainUid, Factory>, c: ChainUid)
    requires VaultsValid(fs) && c in fs
    ensures VaultsInOrder(fs[c])
  {
    hide EscrowValid;
  }

  /** The factory has room for what an accepted request settles. */
  predicate SettlementFits(f: Factory, p: Packet)
    requires p.status.Accepted?
  {
    match (p.tx, p.status.ack)
    case (AddLiquidity(_, pair, _, _, _), AddAck(lp, v)) =>
      && |p.coins| == 2 && CanTake(f, pair.token1, p.coins[0]) && CanTake(f, pair.token2, p.coins[1])
      && Get(f.shares, v) + lp <= U128_MAX && v in f.cw20Of
    case (RemoveLiquidity(_, _, _, _), RemoveAck(lp, v)) => lp <= Get(f.shares, v) && v in f.cw20Of
    case (Swap(_, assetIn, amountIn, _, _, _, _), SwapAck(_)) =>
      && |p.coins| == 1 && CanTake(f, assetIn, Coin(p.coins[0].denom, amountIn))
      && Get(f.partnerFees, assetIn) + (p.coins[0].amount - amountIn) <= U128_MAX
    case _ => false
  }

  lemma SettlementIff(f: Factory, p: Packet)
    requires VaultsInOrder(f) && Pending(f, p) && FromChain(p.tx, p.chain) && !p.tx.Withdraw?
    requires p.status.Accepted? ==> AckMeets(p.tx, p.status.ack)
    ensures AckRequest(f, SystemLinks.Key(p), p.tx, AckOf(p)).Some? <==>
              if p.status.Accepted? then SettlementFits(f, p) else !f.native
  {
    hide TxIds.Render, AckAdd, AckRemove, AckSwap, CanTake, EscrowValid, StrLe;
    var key := SystemLinks.Key(p);
    if p.tx.AddLiquidity? {
      SettleAddLaw(f, key, AckOf(p), "", Native(""));
    } else if p.tx.RemoveLiquidity? {
      SettleRemoveLaw(f, key, AckOf(p));
    } else {
      SettleSwapLaw(f, key, AckOf(p), "", Native(""));
    }
  }
}
