/** What pools hold beyond their reserves: every unit of it, through any run in which no pool acts on its own, and
    which pools therefore hold exactly their reserves. */
module HubExcess {
  import opened Arith
  import opened Types
  import opened VlpModel
  import opened ReleaseModel
  import opened HubModel
  import opened HubFlow
  import opened HubPools

  lemma PoolValid(h: Hub, v: Address)
    requires HubValid(h) && v in h.vlps
    ensures Valid(h.vlps[v])
  {
  }

  // ----- Routes -----

  /** What a pool w gains when pool v pays its treasury fee; a payment to itself counts twice, because the ledger adds
      it and the books subtract it. */
  ghost function TreasuryGift(h: Hub, v: Address, assetIn: Token, amountIn: Uint128, w: Address, t: Token): int {
    if v !in h.vlps then 0 else
    match LocalSwap(h.vlps[v], assetIn, amountIn, Balance(h, HubAccount(v), assetIn))
    case None => 0
    case Some(o) =>
      When(h.vlps[v].fee.recipient == HubAccount(w) && t == assetIn, if w == v then 2 * o.euclidFee else o.euclidFee)
  }

  /** What a pool w is left with by a whole route: treasury fees paid to it along the way and the payout, if the route
      pays it out to w. */
  ghost function RouteGift(h: Hub, sender: User, hop: Hop, assetIn: Token, amountIn: Uint128, next: seq<Hop>,
                           w: Address, t: Token): int
    decreases |next|
  {
    var to := if next == [] then sender else HubAccount(next[0].vlp);
    match SwapHop(h, hop.vlp, assetIn, amountIn, to)
    case None => 0
    case Some(o) =>
      var paid := if w == hop.vlp then 2 * o.amountOut else o.amountOut;
      var last := When(sender == HubAccount(w) && t == o.assetOut, paid);
      TreasuryGift(h, hop.vlp, assetIn, amountIn, w, t)
      + (if next == [] then last else RouteGift(o.hub, sender, next[0], o.assetOut, o.amountOut, next[1..], w, t))
  }

  /** One hop, with the excess it passes on. */
  lemma HopGift(h: Hub, v: Address, assetIn: Token, amountIn: Uint128, to: User, w: Address, t: Token)
    requires HubValid(h) && w in h.vlps && SwapHop(h, v, assetIn, amountIn, to).Some?
    ensures var o := SwapHop(h, v, assetIn, amountIn, to).value;
            && v in h.vlps && w in o.hub.vlps && Excess(h, v, assetIn) == amountIn
            && Excess(o.hub, w, t) == Excess(h, w, t) - When(w == v && t == assetIn, amountIn)
                 + TreasuryGift(h, v, assetIn, amountIn, w, t)
                 + When(to == HubAccount(w) && t == o.assetOut, if w == v then 2 * o.amountOut else o.amountOut)
            && TreasuryGift(h, v, assetIn, amountIn, w, t) >= 0
  {
    hide LocalSwap, HubValid;
    HopNamesPool(h, v, assetIn, amountIn, to);
    PoolValid(h, v);
    HopExcess(h, v, assetIn, amountIn, to, w, t);
  }

  /** A whole route uses up exactly the input's excess at its first pool and otherwise leaves with each pool exactly
      what it pays to that pool. */
  lemma {:induction false} RouteExcess(h: Hub, sender: User, hop: Hop, assetIn: Token, amountIn: Uint128,
                                       minOut: Uint128, next: seq<Hop>, w: Address, t: Token)
    requires HubValid(h) && w in h.vlps
    requires ExecuteSwap(h, sender, hop, assetIn, amountIn, minOut, next).Some?
    ensures var h1 := ExecuteSwap(h, sender, hop, assetIn, amountIn, minOut, next).value.hub;
            && w in h1.vlps
            && Excess(h1, w, t) == Excess(h, w, t) - When(w == hop.vlp && t == assetIn, amountIn)
                 + RouteGift(h, sender, hop, assetIn, amountIn, next, w, t)
    decreases |next|
  {
    hide SwapHop, HubValid, TreasuryGift, Excess;
    var to := if next == [] then sender else HubAccount(next[0].vlp);
    HopGift(h, hop.vlp, assetIn, amountIn, to, w, t);
    if next != [] {
      RouteMovesOn(h, sender, hop, assetIn, amountIn, minOut, next);
      HopKeepsValid(h, hop.vlp, assetIn, amountIn, to);
      var o := SwapHop(h, hop.vlp, assetIn, amountIn, to).value;
      RouteExcess(o.hub, sender, next[0], o.assetOut, o.amountOut, minOut, next[1..], w, t);
    }
  }

  /** No pool pays its treasury fee to w. */
  ghost predicate NoTreasury(h: Hub, w: Address) { forall v | v in h.vlps :: h.vlps[v].fee.recipient != HubAccount(w) }

  lemma {:induction false} NoRouteGift(h: Hub, sender: User, hop: Hop, assetIn: Token, amountIn: Uint128,
                                       next: seq<Hop>, w: Address, t: Token)
    requires NoTreasury(h, w) && sender != HubAccount(w)
    ensures RouteGift(h, sender, hop, assetIn, amountIn, next, w, t) == 0
    decreases |next|
  {
    hide SwapHop, LocalSwap;
    var to := if next == [] then sender else HubAccount(next[0].vlp);
    if next != [] && SwapHop(h, hop.vlp, assetIn, amountIn, to).Some? {
      var o := SwapHop(h, hop.vlp, assetIn, amountIn, to).value;
      HopFlow(h, hop.vlp, assetIn, amountIn, to, assetIn);
      NoRouteGift(o.hub, sender, next[0], o.assetOut, o.amountOut, next[1..], w, t);
    }
  }

  /** A swap runs only on an input the pool holds beyond its reserve, to the unit. */
  lemma SwapNeedsExcess(h: Hub, sender: User, hop: Hop, assetIn: Token, amountIn: Uint128, minOut: Uint128,
                        next: seq<Hop>)
    requires HubValid(h) && ExecuteSwap(h, sender, hop, assetIn, amountIn, minOut, next).Some?
    ensures hop.vlp in h.vlps && h.vlps[hop.vlp].pair.Has(assetIn)
    ensures Excess(h, hop.vlp, assetIn) == amountIn > 0
  {
    hide SwapHop, LocalSwap, HubValid;
    var to := if next == [] then sender else HubAccount(next[0].vlp);
    HopNamesPool(h, hop.vlp, assetIn, amountIn, to);
    PoolValid(h, hop.vlp);
    HopExcess(h, hop.vlp, assetIn, amountIn, to, hop.vlp, assetIn);
    HopTakes(h, hop.vlp, assetIn, amountIn, to);
  }

  lemma HopTakes(h: Hub, v: Address, assetIn: Token, amountIn: Uint128, to: User)
    requires SwapHop(h, v, assetIn, amountIn, to).Some?
    ensures amountIn > 0 && h.vlps[v].pair.Has(assetIn)
    ensures SwapHop(h, v, assetIn, amountIn, to).value.assetOut == h.vlps[v].pair.Other(assetIn)
  {
  }

  // ----- What each pool of a route must hold -----

  function PoolAt(hop: Hop, next: seq<Hop>, k: nat): Address
    requires k <= |next|
  {
    if k == 0 then hop.vlp else next[k - 1].vlp
  }

  /** The token that reaches the k-th pool of a route. */
  function Arrives(vlps: map<Address, Vlp>, hop: Hop, assetIn: Token, next: seq<Hop>, k: nat): Token
    requires k <= |next|
    decreases k
  {
    if k == 0 || hop.vlp !in vlps then assetIn
    else Arrives(vlps, next[0], vlps[hop.vlp].pair.Other(assetIn), next[1..], k - 1)
  }

  lemma {:induction false} SameArrival(a: Hub, b: Hub, hop: Hop, assetIn: Token, next: seq<Hop>, k: nat)
    requires OnlySwapped(a, b) && k <= |next|
    ensures Arrives(a.vlps, hop, assetIn, next, k) == Arrives(b.vlps, hop, assetIn, next, k)
    decreases k
  {
    if k > 0 && hop.vlp in a.vlps { SameArrival(a, b, next[0], a.vlps[hop.vlp].pair.Other(assetIn), next[1..], k - 1); }
  }

  /** Along a successful route no pool may hold anything of the token that reaches it beyond its reserve and, at the
      first pool, the input. */
  lemma {:induction false} RouteNeeds(h: Hub, sender: User, hop: Hop, assetIn: Token, amountIn: Uint128,
                                      minOut: Uint128, next: seq<Hop>, k: nat)
    requires HubValid(h) && k <= |next|
    requires ExecuteSwap(h, sender, hop, assetIn, amountIn, minOut, next).Some?
    ensures var w, t := PoolAt(hop, next, k), Arrives(h.vlps, hop, assetIn, next, k);
            && w in h.vlps && h.vlps[w].pair.Has(t)
            && Excess(h, w, t) <= When(w == hop.vlp && t == assetIn, amountIn)
    decreases k
  {
    hide SwapHop, HubValid, TreasuryGift, Excess;
    SwapNeedsExcess(h, sender, hop, assetIn, amountIn, minOut, next);
    if k > 0 {
      var to := HubAccount(next[0].vlp);
      var o := SwapHop(h, hop.vlp, assetIn, amountIn, to).value;
      HopTakes(h, hop.vlp, assetIn, amountIn, to);
      HopKeepsValid(h, hop.vlp, assetIn, amountIn, to);
      RouteMovesOn(h, sender, hop, assetIn, amountIn, minOut, next);
      SameArrival(h, o.hub, next[0], o.assetOut, next[1..], k - 1);
      RouteNeeds(o.hub, sender, next[0], o.assetOut, o.amountOut, minOut, next[1..], k - 1);
      HopGift(h, hop.vlp, assetIn, amountIn, to, PoolAt(hop, next, k), Arrives(h.vlps, hop, assetIn, next, k));
    }
  }

  /** A pool that holds anything of a token beyond its reserve refuses every routed swap in which that token
      reaches it, first pool or later. */
  lemma RoutedSwapNeedsNoExcess(h: Hub, sender: User, assetIn: Token, amountIn: Uint128, assetOut: Token,
                                minOut: Uint128, swaps: seq<SwapPair>, rs: seq<Receiver>, k: nat)
    requires HubValid(h) && SwapTx(h, sender, assetIn, amountIn, assetOut, minOut, swaps, rs).Some?
    ensures var hops := Route(h, assetIn, assetOut, swaps);
            && hops.Some? && hops.value != []
            && (k < |hops.value| ==>
                  var t := Arrives(h.vlps, hops.value[0], assetIn, hops.value[1..], k);
                  hops.value[k].vlp in h.vlps && Excess(h, hops.value[k].vlp, t) == 0)
  {
    hide ExecuteSwap, ReleaseEscrow, HubValid, Route;
    var hops := Route(h, assetIn, assetOut, swaps).value;
    var h1 := CreditEscrow(h, assetIn, sender.chain, amountIn).value;
    var h2 := Mint(h1, HubAccount(hops[0].vlp), assetIn, amountIn).value;
    if k < |hops| {
      var w, t := hops[k].vlp, Arrives(h.vlps, hops[0], assetIn, hops[1..], k);
      KeptIsValid(h, h2);
      RouteNeeds(h2, sender, hops[0], assetIn, amountIn, minOut, hops[1..], k);
      assert PoolAt(hops[0], hops[1..], k) == w;
      Covered(h, w, t);
    }
  }

  lemma Covered(h: Hub, w: Address, t: Token)
    requires HubValid(h) && w in h.vlps && h.vlps[w].pair.Has(t)
    ensures Excess(h, w, t) >= 0
  {
  }

  // ----- Transactions -----

  /** A hub after a routed swap's input was booked and minted to the first pool. */
  function PaidIn(h: Hub, c: ChainUid, v: Address, assetIn: Token, amountIn: Uint128): Option<Hub> {
    var h1 :- CreditEscrow(h, assetIn, c, amountIn);
    Mint(h1, HubAccount(v), assetIn, amountIn)
  }

  /** What a transaction adds to what pool w holds of t beyond its reserve: transfers to it, treasury fees and payouts
      of other pools' swaps, releases restored to it, less what direct swaps spend. */
  ghost function Gift(h: Hub, tx: HubTx, w: Address, t: Token): int {
    match tx
    case UserTransfer(_, to, token, amount) => When(to == HubAccount(w) && t == token, amount)
    case ReleaseFailed(r) => When(r.sender == HubAccount(w) && t == r.token, r.amount)
    case DirectSwap(sender, hop, assetIn, amountIn, _, next) =>
      RouteGift(h, sender, hop, assetIn, amountIn, next, w, t) - When(w == hop.vlp && t == assetIn, amountIn)
    case Swap(sender, assetIn, amountIn, assetOut, _, swaps, _) =>
      (match Route(h, assetIn, assetOut, swaps)
       case None => 0
       case Some(hops) =>
         if hops == [] then 0 else
         match PaidIn(h, sender.chain, hops[0].vlp, assetIn, amountIn)
         case None => 0
         case Some(h2) => RouteGift(h2, sender, hops[0], assetIn, amountIn, hops[1..], w, t))
    case _ => 0
  }

  ghost predicate Gains(h: Hub, tx: HubTx, h1: Hub, w: Address, t: Token) {
    && w in h.vlps && w in h1.vlps
    && Excess(h1, w, t) == Excess(h, w, t) + Gift(h, tx, w, t)
  }

  lemma PaidInExcess(h: Hub, c: ChainUid, v: Address, assetIn: Token, amountIn: Uint128, w: Address, t: Token)
    requires HubValid(h) && w in h.vlps && PaidIn(h, c, v, assetIn, amountIn).Some?
    ensures var h2 := PaidIn(h, c, v, assetIn, amountIn).value;
            && HubValid(h2) && h2.vlps == h.vlps && h2.inflated == h.inflated
            && Excess(h2, w, t) == Excess(h, w, t) + When(w == v && t == assetIn, amountIn)
  {
    hide HubValid;
    KeptIsValid(h, PaidIn(h, c, v, assetIn, amountIn).value);
  }

  lemma ReleaseExcess(h: Hub, sender: User, tok: Token, asked: Option<Uint128>, rs: seq<Receiver>, w: Address, t: Token)
    requires sender != HubAccount(w) && w in h.vlps && ReleaseEscrow(h, sender, tok, asked, rs).Some?
    ensures var h1 := ReleaseEscrow(h, sender, tok, asked, rs).value.0;
            h1.vlps == h.vlps && h1.inflated == h.inflated && Excess(h1, w, t) == Excess(h, w, t)
  {
    hide ReleaseEscrow;
    ReleaseTouches(h, sender, tok, asked, rs, HubAccount(w), t);
  }

  /** The stages of a routed swap. */
  lemma SwapTxStages(h: Hub, sender: User, assetIn: Token, amountIn: Uint128, assetOut: Token, minOut: Uint128,
                     swaps: seq<SwapPair>, rs: seq<Receiver>) returns (hops: seq<Hop>, h2: Hub, o: Routed)
    requires SwapTx(h, sender, assetIn, amountIn, assetOut, minOut, swaps, rs).Some?
    ensures Route(h, assetIn, assetOut, swaps) == Some(hops) && hops != []
    ensures PaidIn(h, sender.chain, hops[0].vlp, assetIn, amountIn) == Some(h2)
    ensures ExecuteSwap(h2, sender, hops[0], assetIn, amountIn, minOut, hops[1..]) == Some(o)
    ensures var r := ReleaseEscrow(o.hub, sender, assetOut, Some(o.amountOut), rs);
            r.Some? && SwapTx(h, sender, assetIn, amountIn, assetOut, minOut, swaps, rs).value.hub == r.value.0
  {
    hide ExecuteSwap, ReleaseEscrow, Route, Mint, CreditEscrow;
    hops := Route(h, assetIn, assetOut, swaps).value;
    h2 := PaidIn(h, sender.chain, hops[0].vlp, assetIn, amountIn).value;
    o := ExecuteSwap(h2, sender, hops[0], assetIn, amountIn, minOut, hops[1..]).value;
  }

  lemma SwapTxGains(h: Hub, sender: User, assetIn: Token, amountIn: Uint128, assetOut: Token, minOut: Uint128,
                    swaps: seq<SwapPair>, rs: seq<Receiver>, w: Address, t: Token)
    requires HubValid(h) && Outside(h, sender) && w in h.vlps
    requires SwapTx(h, sender, assetIn, amountIn, assetOut, minOut, swaps, rs).Some?
    ensures Gains(h, HubTx.Swap(sender, assetIn, amountIn, assetOut, minOut, swaps, rs),
                  SwapTx(h, sender, assetIn, amountIn, assetOut, minOut, swaps, rs).value.hub, w, t)
  {
    hide SwapTx, ExecuteSwap, ReleaseEscrow, Route, PaidIn, HubValid, Excess, RouteGift;
    var hops, h2, o := SwapTxStages(h, sender, assetIn, amountIn, assetOut, minOut, swaps, rs);
    PaidInExcess(h, sender.chain, hops[0].vlp, assetIn, amountIn, w, t);
    RouteExcess(h2, sender, hops[0], assetIn, amountIn, minOut, hops[1..], w, t);
    ReleaseExcess(o.hub, sender, assetOut, Some(o.amountOut), rs, w, t);
  }

  lemma LedgerGains(h: Hub, tx: HubTx, w: Address, t: Token)
    requires (tx.ReleaseFailed? || tx.UserTransfer?) && Proper(h, tx) && Apply(h, tx).Some? && w in h.vlps
    ensures Gains(h, tx, Apply(h, tx).value.hub, w, t)
  {
  }

  lemma SetupGains(h: Hub, tx: HubTx, w: Address, t: Token)
    requires (tx.SetFee? || tx.CreatePool? || tx.CreateEscrow?) && Apply(h, tx).Some? && w in h.vlps
    ensures Gains(h, tx, Apply(h, tx).value.hub, w, t)
  {
    hide TokenUsable, StrLe;
  }

  /** Whatever the transaction, as long as no pool acts on its own, what each pool holds beyond its reserves
      changes by exactly the transaction's gift to it. */
  lemma TxGains(h: Hub, tx: HubTx, w: Address, t: Token)
    requires HubValid(h) && Proper(h, tx) && Apply(h, tx).Some? && w in h.vlps
    ensures Gains(h, tx, Apply(h, tx).value.hub, w, t)
  {
    hide AddTx, RemoveTx, SwapTx, ReleaseEscrow, ExecuteSwap, HubValid, Transfer, Mint, CreatePoolTx, ReleaseFailedTx,
         UpdateFee, RouteGift, Excess;
    match tx
    case AddLiquidity(sender, pair, a1, a2, slippage) => AddSteady(h, sender, pair, a1, a2, slippage);
    case RemoveLiquidity(sender, pair, lp, rs) => RemoveSteady(h, sender, pair, lp, rs);
    case Swap(sender, assetIn, amountIn, assetOut, minOut, swaps, rs) =>
      SwapTxGains(h, sender, assetIn, amountIn, assetOut, minOut, swaps, rs, w, t);
    case Withdraw(sender, token, asked, rs) => ReleaseExcess(h, sender, token, asked, rs, w, t);
    case ReleaseFailed(r) => LedgerGains(h, tx, w, t);
    case UserTransfer(from, to, token, amount) => LedgerGains(h, tx, w, t);
    case DirectSwap(sender, hop, assetIn, amountIn, minOut, next) =>
      RouteExcess(h, sender, hop, assetIn, amountIn, minOut, next, w, t);
    case _ => SetupGains(h, tx, w, t);
  }

  // ----- What persists -----

  lemma DirectSwapIs(h: Hub, tx: HubTx)
    requires tx.DirectSwap? && Apply(h, tx).Some?
    ensures ExecuteSwap(h, tx.sender, tx.hop, tx.assetIn, tx.amountIn, tx.minOut, tx.next).Some?
  {
    hide ExecuteSwap;
  }

  /** No transaction drops a pool or changes the pair it trades, and only pool creation adds one. */
  ghost predicate PoolsPersist(h: Hub, tx: HubTx, h1: Hub) {
    && h.vlps.Keys <= h1.vlps.Keys && (tx.CreatePool? || h1.vlps.Keys == h.vlps.Keys)
    && forall v | v in h.vlps :: h1.vlps[v].pair == h.vlps[v].pair
  }

  /** Pool creation writes one pool: an existing one gets a new chain, or a new one is added. */
  lemma CreatePoolShape(h: Hub, sender: User, pair: Pair, newVlp: Address, admin: Address)
    requires CreatePoolTx(h, sender, pair, newVlp, admin).Some?
    ensures var h1 := CreatePoolTx(h, sender, pair, newVlp, admin).value.hub;
            && h1.inflated == h.inflated
            && (if pair in h.vlpOf then
                  var v := h.vlpOf[pair];
                  && v in h.vlps && h1.vlps.Keys == h.vlps.Keys
                  && h1.vlps == h.vlps[v := h.vlps[v].(chainLp := h1.vlps[v].chainLp)]
                else
                  && newVlp !in h.vlps && newVlp in h1.vlps && h1.vlps == h.vlps[newVlp := h1.vlps[newVlp]]
                  && h1.vlps[newVlp].pair == pair && h1.vlps[newVlp].fee.recipient == HubAccount(admin))
  {
    hide TokenUsable, StrLe;
  }

  lemma SetupPersists(h: Hub, tx: HubTx)
    requires (tx.SetFee? || tx.CreatePool? || tx.CreateEscrow?) && Apply(h, tx).Some?
    ensures PoolsPersist(h, tx, Apply(h, tx).value.hub)
  {
    hide CreatePoolTx;
    if tx.CreatePool? { CreatePoolShape(h, tx.sender, tx.pair, tx.newVlp, tx.admin); }
  }

  lemma SwapTxPairs(h: Hub, sender: User, assetIn: Token, amountIn: Uint128, assetOut: Token, minOut: Uint128,
                    swaps: seq<SwapPair>, rs: seq<Receiver>)
    requires SwapTx(h, sender, assetIn, amountIn, assetOut, minOut, swaps, rs).Some?
    ensures var h1 := SwapTx(h, sender, assetIn, amountIn, assetOut, minOut, swaps, rs).value.hub;
            OnlySwapped(h.(escrows := map[]), h1.(escrows := map[]))
  {
    hide ExecuteSwap, ReleaseEscrow, Route;
    var hops := Route(h, assetIn, assetOut, swaps).value;
    var h1 := CreditEscrow(h, assetIn, sender.chain, amountIn).value;
    var h2 := Mint(h1, HubAccount(hops[0].vlp), assetIn, amountIn).value;
    var o := ExecuteSwap(h2, sender, hops[0], assetIn, amountIn, minOut, hops[1..]).value;
    SwapFlow(h2, sender, hops[0], assetIn, amountIn, minOut, hops[1..], assetIn);
    ReleaseTouches(o.hub, sender, assetOut, Some(o.amountOut), rs, sender, assetOut);
  }

  lemma TxPersists(h: Hub, tx: HubTx)
    requires HubValid(h) && Proper(h, tx) && Apply(h, tx).Some?
    ensures PoolsPersist(h, tx, Apply(h, tx).value.hub)
  {
    hide AddTx, RemoveTx, SwapTx, ReleaseEscrow, ExecuteSwap, HubValid, CreatePoolTx, Excess;
    match tx
    case AddLiquidity(sender, pair, a1, a2, slippage) => AddSteady(h, sender, pair, a1, a2, slippage);
    case RemoveLiquidity(sender, pair, lp, rs) => RemoveSteady(h, sender, pair, lp, rs);
    case Swap(sender, assetIn, amountIn, assetOut, minOut, swaps, rs) =>
      SwapTxPairs(h, sender, assetIn, amountIn, assetOut, minOut, swaps, rs);
    case Withdraw(sender, token, asked, rs) => ReleaseTouches(h, sender, token, asked, rs, sender, token);
    case ReleaseFailed(r) =>
    case UserTransfer(from, to, token, amount) =>
    case DirectSwap(sender, hop, assetIn, amountIn, minOut, next) =>
      RouteKeepsValid(h, sender, hop, assetIn, amountIn, minOut, next);
    case _ => SetupPersists(h, tx);
  }

  /** Which treasuries a transaction may install. */
  ghost predicate Treasuries(h: Hub, tx: HubTx, h1: Hub) {
    forall v | v in h1.vlps ::
      || (v in h.vlps && h1.vlps[v].fee.recipient == h.vlps[v].fee.recipient)
      || (tx.SetFee? && tx.vlp == v && tx.recipient == Some(h1.vlps[v].fee.recipient))
      || (tx.CreatePool? && tx.newVlp == v && tx.pair !in h.vlpOf && h1.vlps[v].fee.recipient == HubAccount(tx.admin))
  }

  lemma SetupTreasuries(h: Hub, tx: HubTx)
    requires (tx.SetFee? || tx.CreatePool? || tx.CreateEscrow?) && Apply(h, tx).Some?
    ensures Treasuries(h, tx, Apply(h, tx).value.hub)
  {
    hide CreatePoolTx;
    if tx.CreatePool? { CreatePoolShape(h, tx.sender, tx.pair, tx.newVlp, tx.admin); }
  }

  lemma TxTreasuries(h: Hub, tx: HubTx)
    requires HubValid(h) && Proper(h, tx) && Apply(h, tx).Some?
    ensures Treasuries(h, tx, Apply(h, tx).value.hub)
  {
    hide AddTx, RemoveTx, SwapTx, ReleaseEscrow, ExecuteSwap, HubValid, CreatePoolTx, Excess, UpdateFee;
    match tx
    case AddLiquidity(sender, pair, a1, a2, slippage) => AddSteady(h, sender, pair, a1, a2, slippage);
    case RemoveLiquidity(sender, pair, lp, rs) => RemoveSteady(h, sender, pair, lp, rs);
    case Swap(sender, assetIn, amountIn, assetOut, minOut, swaps, rs) =>
      SwapTxPairs(h, sender, assetIn, amountIn, assetOut, minOut, swaps, rs);
    case Withdraw(sender, token, asked, rs) => ReleaseTouches(h, sender, token, asked, rs, sender, token);
    case ReleaseFailed(r) =>
    case UserTransfer(from, to, token, amount) =>
    case DirectSwap(sender, hop, assetIn, amountIn, minOut, next) =>
      RouteKeepsValid(h, sender, hop, assetIn, amountIn, minOut, next);
    case _ => SetupTreasuries(h, tx);
  }

  // ----- Runs -----

  /** No pool acts on its own in any transaction of the run that takes effect. */
  ghost predicate ProperRun(h: Hub, txs: seq<HubTx>) {
    txs == [] ||
    (var before, tx := RunHub(h, txs[..|txs| - 1]), txs[|txs| - 1];
     ProperRun(h, txs[..|txs| - 1]) && (Apply(before, tx).Some? ==> Proper(before, tx)))
  }

  lemma {:induction false} ProperRunValid(chains: set<ChainUid>, txs: seq<HubTx>)
    requires ProperRun(EmptyHub(chains), txs)
    ensures HubValid(RunHub(EmptyHub(chains), txs))
  {
    hide Apply, HubValid, Proper;
    if txs == [] {
      assert HubValid(EmptyHub(chains)) by { EmptyIsValid(chains); }
    } else {
      var h, tx := RunHub(EmptyHub(chains), txs[..|txs| - 1]), txs[|txs| - 1];
      ProperRunValid(chains, txs[..|txs| - 1]);
      if Apply(h, tx).Some? { TxKeepsValid(h, tx); }
    }
  }

  /** What others have left with a pool: its account's balance when the pool was created, and every gift since. */
  ghost function Received(h: Hub, txs: seq<HubTx>, w: Address, t: Token): int {
    if txs == [] then 0 else
    var before, tx := RunHub(h, txs[..|txs| - 1]), txs[|txs| - 1];
    if Apply(before, tx).None? then Received(h, txs[..|txs| - 1], w, t)
    else if w !in before.vlps then Balance(before, HubAccount(w), t)
    else Received(h, txs[..|txs| - 1], w, t) + Gift(before, tx, w, t)
  }

  /** A transaction that creates a pool leaves its account alone, and the new pool's reserves are zero. */
  lemma CreatedPool(h: Hub, tx: HubTx, w: Address, t: Token)
    requires tx.CreatePool? && Apply(h, tx).Some? && w !in h.vlps && w in Apply(h, tx).value.hub.vlps
    ensures Excess(Apply(h, tx).value.hub, w, t) == Balance(h, HubAccount(w), t)
    ensures w == tx.newVlp && tx.pair !in h.vlpOf && Apply(h, tx).value.hub.vlps[w].pair == tx.pair
  {
    hide TokenUsable, StrLe;
  }

  /** In every run in which no pool acts on its own, each pool's virtual balance of each token is its reserve plus
      exactly what others have left with it. */
  lemma {:induction false} ExcessIsReceived(chains: set<ChainUid>, txs: seq<HubTx>, w: Address, t: Token)
    requires ProperRun(EmptyHub(chains), txs) && w in RunHub(EmptyHub(chains), txs).vlps
    ensures Excess(RunHub(EmptyHub(chains), txs), w, t) == Received(EmptyHub(chains), txs, w, t)
  {
    hide Apply, HubValid, Proper, Excess, Gift, Balance;
    if txs != [] {
      var h, tx := RunHub(EmptyHub(chains), txs[..|txs| - 1]), txs[|txs| - 1];
      ProperRunValid(chains, txs[..|txs| - 1]);
      if Apply(h, tx).None? {
        ExcessIsReceived(chains, txs[..|txs| - 1], w, t);
      } else if w in h.vlps {
        ExcessIsReceived(chains, txs[..|txs| - 1], w, t);
        TxGains(h, tx, w, t);
      } else {
        TxPersists(h, tx);
        CreatedPool(h, tx, w, t);
      }
    }
  }

  // ----- Pools that nobody sends anything -----

  /** The transaction sends nothing to w and does not make it a treasury, and when it creates w, the account is
      empty. */
  ghost predicate Spares(h: Hub, tx: HubTx, w: Address) {
    match tx
    case UserTransfer(_, to, _, _) => to != HubAccount(w) || w !in h.vlps
    case DirectSwap(sender, _, _, _, _, _) => sender != HubAccount(w) || w !in h.vlps
    case ReleaseFailed(r) => r.sender != HubAccount(w) || w !in h.vlps
    case SetFee(_, _, _, recipient) => recipient != Some(HubAccount(w))
    case CreatePool(_, pair, newVlp, admin) =>
      pair in h.vlpOf || (admin != w && (newVlp == w ==> forall t | pair.Has(t) :: Balance(h, HubAccount(w), t) == 0))
    case _ => true
  }

  ghost predicate SparingRun(h: Hub, txs: seq<HubTx>, w: Address) {
    txs == [] ||
    (var before, tx := RunHub(h, txs[..|txs| - 1]), txs[|txs| - 1];
     SparingRun(h, txs[..|txs| - 1], w) && (Apply(before, tx).Some? ==> Spares(before, tx, w)))
  }

  /** The pool, if there is one at w, holds exactly its reserves. */
  ghost predicate ExactAt(h: Hub, w: Address) {
    w in h.vlps ==> forall t | h.vlps[w].pair.Has(t) :: Excess(h, w, t) == 0
  }

  /** A pool that holds exactly its reserves refuses every swap that was not funded first. */
  lemma DirectSwapRefused(h: Hub, sender: User, hop: Hop, assetIn: Token, amountIn: Uint128, minOut: Uint128,
                          next: seq<Hop>)
    requires HubValid(h) && ExactAt(h, hop.vlp)
    ensures ExecuteSwap(h, sender, hop, assetIn, amountIn, minOut, next).None?
  {
    hide ExecuteSwap, HubValid;
    if ExecuteSwap(h, sender, hop, assetIn, amountIn, minOut, next).Some? {
      SwapNeedsExcess(h, sender, hop, assetIn, amountIn, minOut, next);
      assert false;
    }
  }

  /** To a pool that is nobody's treasury and is spared, only a direct swap there makes a difference. */
  lemma NoGift(h: Hub, tx: HubTx, w: Address, t: Token)
    requires NoTreasury(h, w) && Proper(h, tx) && Spares(h, tx, w) && w in h.vlps
    ensures Gift(h, tx, w, t) == (if tx.DirectSwap? then -When(w == tx.hop.vlp && t == tx.assetIn, tx.amountIn) else 0)
  {
    hide RouteGift, Route;
    if tx.DirectSwap? {
      NoRouteGift(h, tx.sender, tx.hop, tx.assetIn, tx.amountIn, tx.next, w, t);
    } else if tx.Swap? && Route(h, tx.assetIn, tx.assetOut, tx.swaps).Some? {
      var hops := Route(h, tx.assetIn, tx.assetOut, tx.swaps).value;
      if hops != [] && PaidIn(h, tx.sender.chain, hops[0].vlp, tx.assetIn, tx.amountIn).Some? {
        var h2 := PaidIn(h, tx.sender.chain, hops[0].vlp, tx.assetIn, tx.amountIn).value;
        NoRouteGift(h2, tx.sender, hops[0], tx.assetIn, tx.amountIn, hops[1..], w, t);
      }
    }
  }

  lemma SparedNoTreasury(h: Hub, tx: HubTx, w: Address)
    requires HubValid(h) && NoTreasury(h, w) && Proper(h, tx) && Spares(h, tx, w) && Apply(h, tx).Some?
    ensures NoTreasury(Apply(h, tx).value.hub, w)
  {
    hide Apply, HubValid, Balance, Proper;
    TxTreasuries(h, tx);
  }

  lemma SparedExcess(h: Hub, tx: HubTx, w: Address, t: Token)
    requires HubValid(h) && ExactAt(h, w) && NoTreasury(h, w) && Proper(h, tx) && Spares(h, tx, w) && Apply(h, tx).Some?
    requires w in h.vlps && h.vlps[w].pair.Has(t) && w in Apply(h, tx).value.hub.vlps
    ensures Excess(Apply(h, tx).value.hub, w, t) == 0
  {
    hide Apply, HubValid, Excess, Balance, Gift, Proper, Spares, NoTreasury;
    if tx.DirectSwap? && tx.hop.vlp == w {
      DirectSwapRefused(h, tx.sender, tx.hop, tx.assetIn, tx.amountIn, tx.minOut, tx.next);
      DirectSwapIs(h, tx);
      assert false;
    }
    NoGift(h, tx, w, t);
    TxGains(h, tx, w, t);
  }

  lemma SparedStaysExact(h: Hub, tx: HubTx, w: Address)
    requires HubValid(h) && ExactAt(h, w) && NoTreasury(h, w) && Proper(h, tx) && Spares(h, tx, w) && Apply(h, tx).Some?
    ensures ExactAt(Apply(h, tx).value.hub, w)
  {
    hide Apply, HubValid, Excess, Balance, Proper, NoTreasury;
    var h1 := Apply(h, tx).value.hub;
    TxPersists(h, tx);
    forall t | w in h1.vlps && h1.vlps[w].pair.Has(t) ensures Excess(h1, w, t) == 0 {
      if w in h.vlps { SparedExcess(h, tx, w, t); } else { CreatedPool(h, tx, w, t); }
    }
  }

  /** Pool by pool: if nobody ever sent a pool anything, it holds exactly its reserves, whatever happened to other
      pools. */
  lemma {:induction false} PoolExact(chains: set<ChainUid>, txs: seq<HubTx>, w: Address)
    requires ProperRun(EmptyHub(chains), txs) && SparingRun(EmptyHub(chains), txs, w)
    ensures ExactAt(RunHub(EmptyHub(chains), txs), w) && NoTreasury(RunHub(EmptyHub(chains), txs), w)
  {
    hide Apply, HubValid, Spares, Proper, Excess;
    if txs != [] {
      var h, tx := RunHub(EmptyHub(chains), txs[..|txs| - 1]), txs[|txs| - 1];
      PoolExact(chains, txs[..|txs| - 1], w);
      ProperRunValid(chains, txs[..|txs| - 1]);
      if Apply(h, tx).Some? {
        SparedNoTreasury(h, tx, w);
        SparedStaysExact(h, tx, w);
      }
    }
  }

  // ----- Runs that create no balance -----

  ghost predicate NoSelfTreasury(h: Hub) { forall v | v in h.vlps :: h.vlps[v].fee.recipient != HubAccount(v) }

  /** The transaction moves balance from an account to itself, or makes a pool its own treasury. */
  predicate PaysItself(h: Hub, tx: HubTx) {
    match tx
    case UserTransfer(from, to, _, _) => from == to
    case DirectSwap(sender, hop, _, _, _, next) => sender == HubAccount(PoolAt(hop, next, |next|))
    case SetFee(v, _, _, recipient) => recipient == Some(HubAccount(v))
    case CreatePool(_, pair, newVlp, admin) => admin == newVlp && pair !in h.vlpOf
    case _ => false
  }

  lemma PassOnQuiet(h: Hub, v: Address, assetIn: Token, o: Swapped, to: User)
    requires PassOn(h, v, assetIn, o, to).Some? && to != HubAccount(v) && o.vlp.fee.recipient != HubAccount(v)
    ensures PassOn(h, v, assetIn, o, to).value.inflated == h.inflated
  {
  }

  lemma HopQuiet(h: Hub, v: Address, assetIn: Token, amountIn: Uint128, to: User)
    requires SwapHop(h, v, assetIn, amountIn, to).Some?
    requires to != HubAccount(v) && h.vlps[v].fee.recipient != HubAccount(v)
    ensures SwapHop(h, v, assetIn, amountIn, to).value.hub.inflated == h.inflated
  {
    hide LocalSwap;
    var held := Balance(h, HubAccount(v), assetIn);
    var o := LocalSwap(h.vlps[v], assetIn, amountIn, held).value;
    SwapKeepsShares(h.vlps[v], assetIn, amountIn, held);
    PassOnQuiet(h.(vlps := h.vlps[v := o.vlp]), v, assetIn, o, to);
  }

  lemma {:induction false} RouteQuiet(h: Hub, sender: User, hop: Hop, assetIn: Token, amountIn: Uint128,
                                      minOut: Uint128, next: seq<Hop>)
    requires HubValid(h) && NoSelfTreasury(h)
    requires ExecuteSwap(h, sender, hop, assetIn, amountIn, minOut, next).Some?
    requires var last := PoolAt(hop, next, |next|); last in h.vlps ==> sender != HubAccount(last)
    ensures ExecuteSwap(h, sender, hop, assetIn, amountIn, minOut, next).value.hub.inflated == h.inflated
    decreases |next|
  {
    hide SwapHop, HubValid;
    var to := if next == [] then sender else HubAccount(next[0].vlp);
    HopNamesPool(h, hop.vlp, assetIn, amountIn, to);
    if next != [] { RouteMovesOn(h, sender, hop, assetIn, amountIn, minOut, next); }
    HopQuiet(h, hop.vlp, assetIn, amountIn, to);
    if next != [] {
      var o := SwapHop(h, hop.vlp, assetIn, amountIn, to).value;
      HopKeepsValid(h, hop.vlp, assetIn, amountIn, to);
      RouteQuiet(o.hub, sender, next[0], o.assetOut, o.amountOut, minOut, next[1..]);
    }
  }

  lemma SwapTxQuiet(h: Hub, sender: User, assetIn: Token, amountIn: Uint128, assetOut: Token, minOut: Uint128,
                    swaps: seq<SwapPair>, rs: seq<Receiver>)
    requires HubValid(h) && NoSelfTreasury(h) && Outside(h, sender)
    requires SwapTx(h, sender, assetIn, amountIn, assetOut, minOut, swaps, rs).Some?
    ensures SwapTx(h, sender, assetIn, amountIn, assetOut, minOut, swaps, rs).value.hub.inflated == h.inflated
  {
    hide SwapTx, ExecuteSwap, ReleaseEscrow, Route, PaidIn, HubValid, Excess;
    var hops, h2, o := SwapTxStages(h, sender, assetIn, amountIn, assetOut, minOut, swaps, rs);
    PaidInValid(h, sender.chain, hops[0].vlp, assetIn, amountIn);
    RouteQuiet(h2, sender, hops[0], assetIn, amountIn, minOut, hops[1..]);
    ReleaseTouches(o.hub, sender, assetOut, Some(o.amountOut), rs, sender, assetOut);
  }

  lemma PaidInValid(h: Hub, c: ChainUid, v: Address, assetIn: Token, amountIn: Uint128)
    requires HubValid(h) && PaidIn(h, c, v, assetIn, amountIn).Some?
    ensures var h2 := PaidIn(h, c, v, assetIn, amountIn).value;
            HubValid(h2) && h2.vlps == h.vlps && h2.inflated == h.inflated
  {
    hide HubValid;
    KeptIsValid(h, PaidIn(h, c, v, assetIn, amountIn).value);
  }

  lemma SetupQuiet(h: Hub, tx: HubTx)
    requires (tx.SetFee? || tx.CreatePool? || tx.CreateEscrow?) && Apply(h, tx).Some?
    ensures Apply(h, tx).value.hub.inflated == h.inflated
  {
    hide CreatePoolTx;
    if tx.CreatePool? { CreatePoolShape(h, tx.sender, tx.pair, tx.newVlp, tx.admin); }
  }

  /** A transaction in which nobody pays itself creates no balance. */
  lemma TxQuiet(h: Hub, tx: HubTx)
    requires HubValid(h) && NoSelfTreasury(h) && Proper(h, tx) && !PaysItself(h, tx) && Apply(h, tx).Some?
    ensures var h1 := Apply(h, tx).value.hub; h1.inflated == h.inflated && NoSelfTreasury(h1)
  {
    hide AddTx, RemoveTx, SwapTx, ReleaseEscrow, ExecuteSwap, HubValid, CreatePoolTx, UpdateFee, Excess;
    TxTreasuries(h, tx);
    match tx
    case AddLiquidity(sender, pair, a1, a2, slippage) => AddSteady(h, sender, pair, a1, a2, slippage);
    case RemoveLiquidity(sender, pair, lp, rs) => RemoveSteady(h, sender, pair, lp, rs);
    case Swap(sender, assetIn, amountIn, assetOut, minOut, swaps, rs) =>
      SwapTxQuiet(h, sender, assetIn, amountIn, assetOut, minOut, swaps, rs);
    case Withdraw(sender, token, asked, rs) => ReleaseTouches(h, sender, token, asked, rs, sender, token);
    case ReleaseFailed(r) =>
    case UserTransfer(from, to, token, amount) =>
    case DirectSwap(sender, hop, assetIn, amountIn, minOut, next) =>
      RouteQuiet(h, sender, hop, assetIn, amountIn, minOut, next);
    case _ => SetupQuiet(h, tx);
  }

  ghost predicate QuietRun(h: Hub, txs: seq<HubTx>) {
    txs == [] ||
    (var before, tx := RunHub(h, txs[..|txs| - 1]), txs[|txs| - 1];
     QuietRun(h, txs[..|txs| - 1]) && (Apply(before, tx).Some? ==> !PaysItself(before, tx)))
  }

  /** Where nobody pays itself, no balance is ever created: the virtual balances of a token are exactly its escrow
      ledger. */
  lemma {:induction false} QuietRunConserves(chains: set<ChainUid>, txs: seq<HubTx>, t: Token)
    requires ProperRun(EmptyHub(chains), txs) && QuietRun(EmptyHub(chains), txs)
    ensures var h := RunHub(EmptyHub(chains), txs);
            && NoSelfTreasury(h) && h.inflated == map[]
            && LedgerSum(h, t) == EscrowSum(h.escrows, t, Every)
  {
    hide Apply, HubValid, Proper, PaysItself;
    HubConserves(chains, txs, t);
    if txs != [] {
      var h, tx := RunHub(EmptyHub(chains), txs[..|txs| - 1]), txs[|txs| - 1];
      QuietRunConserves(chains, txs[..|txs| - 1], t);
      ProperRunValid(chains, txs[..|txs| - 1]);
      if Apply(h, tx).Some? { TxQuiet(h, tx); }
    }
  }

  lemma EmptyIsValid(chains: set<ChainUid>)
    ensures HubValid(EmptyHub(chains))
  {
  }
}
