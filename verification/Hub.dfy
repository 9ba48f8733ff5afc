/** The hub chain: the virtual-balance ledger, the router and the pools, as one state that every
    transaction either replaces as a whole or leaves untouched. */
module HubModel {
  import opened Arith
  import opened Types
  import opened VlpModel
  import opened ReleaseModel

  datatype BalanceKey = BalanceKey(user: User, token: Token)

  type Balances = map<BalanceKey, Uint128>

  datatype Hub = Hub(
    balances: Balances,                  // virtual balances
    inflated: map<Token, nat>,           // history: amounts moved by transfers of an account to itself
    escrows: Escrows,                    // what the router believes each chain's escrow holds
    vlps: map<Address, Vlp>,             // the pools by contract address
    vlpOf: map<Pair, Address>,           // the router's registry of pools
    chains: set<ChainUid>)               // registered factories

  function Balance(h: Hub, u: User, t: Token): Uint128 { Get(h.balances, BalanceKey(u, t)) }

  function Inflated(h: Hub, t: Token): nat { if t in h.inflated then h.inflated[t] else 0 }

  // ----- contracts/hub/virtual_balance/src/execute.rs -----

  function Mint(h: Hub, u: User, t: Token, amount: Uint128): Option<Hub> {
    var _ :- Ensure(amount != 0);
    var balances :- Credit(h.balances, BalanceKey(u, t), amount);
    Some(h.(balances := balances))
  }

  function Burn(h: Hub, u: User, t: Token, amount: Uint128): Option<Hub> {
    var _ :- Ensure(amount != 0);
    var balances :- Debit(h.balances, BalanceKey(u, t), amount);
    Some(h.(balances := balances))
  }

  /** Both balances are read before either is written, so a transfer to oneself adds the amount. */
  function Transfer(h: Hub, from: User, to: User, t: Token, amount: Uint128): Option<Hub> {
    var left :- CheckedSub(Balance(h, from, t), amount);
    var right :- CheckedAdd(Balance(h, to, t), amount);
    Some(h.(balances := h.balances[BalanceKey(from, t) := left][BalanceKey(to, t) := right],
            inflated := if from == to then h.inflated[t := Inflated(h, t) + amount] else h.inflated))
  }

  // ----- contracts/hub/router/src/execute.rs -----

  /** A packet asking a chain's factory to pay out of its escrow. */
  datatype Release = Release(chain: ChainUid, sender: User, token: Token, amount: Uint128, to: Address)

  function Packets(draws: seq<Draw>, sender: User, token: Token): seq<Release> {
    seq(|draws|, i requires 0 <= i < |draws| =>
      Release(draws[i].receiver.user.chain, sender, token, draws[i].amount, draws[i].receiver.user.address))
  }

  function ReleaseEscrow(h: Hub, sender: User, token: Token, asked: Option<Uint128>, rs: seq<Receiver>)
    : Option<(Hub, seq<Release>)>
  {
    var held := Balance(h, sender, token);
    var amount := asked.GetOr(held);
    var _ :- Ensure(held >= amount);
    var o :- ReleaseLoop(h.escrows, h.chains, token, amount, rs);
    var h1 :- SettleDraws(h, sender, token, amount, o);
    Some((h1, Packets(o.draws, sender, token)))
  }

  /** After the loop: the totals are compared, the ledger is written and what was drawn is burned. */
  function SettleDraws(h: Hub, sender: User, token: Token, amount: Uint128, o: Drawn): Option<Hub> {
    var sent :- Fit(DrawTotal(o.draws));
    var total :- CheckedAdd(sent, o.remaining);
    var _ :- Ensure(total == amount);
    var h1 := h.(escrows := o.escrows);
    if sent == 0 then Some(h1) else Burn(h1, sender, token, sent)
  }

  // ----- contracts/hub/vlp/src/execute.rs: swaps along a route -----

  datatype Hop = Hop(vlp: Address, fail: bool)

  datatype Routed = Routed(hub: Hub, assetOut: Token, amountOut: Uint128)

  /** One pool's whole part in a route: price and book the swap, pay the treasury fee, pass the payout on. */
  function SwapHop(h: Hub, v: Address, assetIn: Token, amountIn: Uint128, to: User): Option<Routed> {
    var _ :- Ensure(v in h.vlps);
    var o :- LocalSwap(h.vlps[v], assetIn, amountIn, Balance(h, HubAccount(v), assetIn));
    var h1 :- PassOn(h.(vlps := h.vlps[v := o.vlp]), v, assetIn, o, to);
    Some(Routed(h1, o.assetOut, o.amountOut))
  }

  /** The ledger messages of one pool's swap. */
  function PassOn(h: Hub, v: Address, assetIn: Token, o: Swapped, to: User): Option<Hub> {
    var h1 :- if o.euclidFee == 0 then Some(h)
              else Transfer(h, HubAccount(v), o.vlp.fee.recipient, assetIn, o.euclidFee);
    Transfer(h1, HubAccount(v), to, o.assetOut, o.amountOut)
  }

  function ExecuteSwap(h: Hub, sender: User, hop: Hop, assetIn: Token, amountIn: Uint128,
                       minOut: Uint128, next: seq<Hop>): Option<Routed>
    decreases |next|
  {
    var _ :- Ensure(!hop.fail);
    if next == [] then
      var o :- SwapHop(h, hop.vlp, assetIn, amountIn, sender);
      var _ :- Ensure(o.amountOut >= minOut);
      Some(o)
    else
      var o :- SwapHop(h, hop.vlp, assetIn, amountIn, HubAccount(next[0].vlp));
      ExecuteSwap(o.hub, sender, next[0], o.assetOut, o.amountOut, minOut, next[1..])
  }

  /** contracts/hub/vlp/src/query.rs: the recursive simulation reads the pools and writes nothing. */
  function SimulateSwap(vlps: map<Address, Vlp>, v: Address, assetIn: Token, amountIn: Uint128, next: seq<Hop>)
    : Option<(Token, Uint128)>
    decreases |next|
  {
    var _ :- Ensure(v in vlps);
    var q :- SwapQuote(vlps[v], assetIn, amountIn);
    if next == [] then Some((q.assetOut, q.amountOut))
    else SimulateSwap(vlps, next[0].vlp, q.assetOut, q.amountOut, next[1..])
  }

  // ----- contracts/hub/router/src/query.rs, contracts/hub/router/src/ibc/receive.rs -----

  datatype SwapPair = SwapPair(tokenIn: Token, tokenOut: Token, fail: bool)

  function ValidateSwapPairs(vlpOf: map<Pair, Address>, swaps: seq<SwapPair>): Option<seq<Hop>> {
    if swaps == [] then Some([]) else
    var pair :- NewPair(swaps[0].tokenIn, swaps[0].tokenOut);
    var _ :- Ensure(pair in vlpOf);
    var rest :- ValidateSwapPairs(vlpOf, swaps[1..]);
    Some([Hop(vlpOf[pair], swaps[0].fail)] + rest)
  }

  /** The checks a swap and its router-level simulation share; gives the route as pool addresses. */
  function Route(h: Hub, assetIn: Token, assetOut: Token, swaps: seq<SwapPair>): Option<seq<Hop>> {
    var _ :- Ensure(swaps != [] && swaps[0].tokenIn == assetIn && swaps[|swaps| - 1].tokenOut == assetOut);
    ValidateSwapPairs(h.vlpOf, swaps)
  }

  function RouterSimulateSwap(h: Hub, assetIn: Token, amountIn: Uint128, assetOut: Token, swaps: seq<SwapPair>)
    : Option<Uint128>
  {
    var hops :- Route(h, assetIn, assetOut, swaps);
    var _ :- Ensure(hops != []);
    var r :- SimulateSwap(h.vlps, hops[0].vlp, assetIn, amountIn, hops[1..]);
    var _ :- Ensure(r.0 == assetOut);
    Some(r.1)
  }

  datatype HubTx =
    | AddLiquidity(sender: User, pair: Pair, amount1: Uint128, amount2: Uint128, slippage: nat)
    | RemoveLiquidity(sender: User, pair: Pair, lp: Uint128, receivers: seq<Receiver>)
    | Swap(sender: User, assetIn: Token, amountIn: Uint128, assetOut: Token, minOut: Uint128,
           swaps: seq<SwapPair>, receivers: seq<Receiver>)
    | Withdraw(sender: User, token: Token, asked: Option<Uint128>, receivers: seq<Receiver>)
    | ReleaseFailed(release: Release)
    | UserTransfer(from: User, to: User, token: Token, amount: Uint128)
    | DirectSwap(sender: User, hop: Hop, assetIn: Token, amountIn: Uint128, minOut: Uint128, next: seq<Hop>)
    | SetFee(vlp: Address, lpBps: Option<Bps>, euclidBps: Option<Bps>, recipient: Option<User>)
    | CreatePool(sender: User, pair: Pair, newVlp: Address, admin: Address)
    | CreateEscrow(sender: User, token: Token)

  datatype Ack =
    | AddAck(mintedLp: Uint128, vlp: Address)
    | RemoveAck(burnedLp: Uint128, vlp: Address)
    | SwapAck(amountOut: Uint128)
    | OtherAck

  datatype TxResult = TxResult(hub: Hub, ack: Ack, releases: seq<Release>)

  function CreditEscrow(h: Hub, t: Token, c: ChainUid, amount: Uint128): Option<Hub> {
    var escrows :- Credit(h.escrows, EscrowKey(t, c), amount);
    Some(h.(escrows := escrows))
  }

  function AddTx(h: Hub, sender: User, pair: Pair, a1: Uint128, a2: Uint128, slippage: nat): Option<TxResult> {
    var _ :- Ensure(pair.Tuple() in h.vlpOf);
    var v := h.vlpOf[pair.Tuple()];
    var _ :- Ensure(v in h.vlps);
    var p := h.vlps[v].pair;
    var h1 :- FundPool(h, v, p, sender.chain, a1, a2);
    var (w, lp) :- VlpModel.AddLiquidity(h1.vlps[v], sender.chain, a1, a2, slippage);
    Some(TxResult(h1.(vlps := h1.vlps[v := w]), AddAck(lp, v), []))
  }

  /** Both deposits enter the escrow ledger and are minted to the pool. */
  function FundPool(h: Hub, v: Address, p: Pair, c: ChainUid, a1: Uint128, a2: Uint128): Option<Hub>
    requires v in h.vlps
    ensures FundPool(h, v, p, c, a1, a2).Some? ==> FundPool(h, v, p, c, a1, a2).value.vlps == h.vlps
  {
    var h1 :- CreditEscrow(h, p.token1, c, a1);
    var h2 :- CreditEscrow(h1, p.token2, c, a2);
    var h3 :- Mint(h2, HubAccount(v), p.token1, a1);
    Mint(h3, HubAccount(v), p.token2, a2)
  }

  /** The tokens released are those of the request's pair in the request's order. */
  function RemoveTx(h: Hub, sender: User, pair: Pair, lp: Uint128, rs: seq<Receiver>): Option<TxResult> {
    var _ :- Ensure(pair.Tuple() in h.vlpOf);
    var v := h.vlpOf[pair.Tuple()];
    var _ :- Ensure(v in h.vlps);
    var p := h.vlps[v].pair;
    var r :- VlpModel.RemoveLiquidity(h.vlps[v], sender.chain, lp);
    var h1 :- PayBoth(h.(vlps := h.vlps[v := r.vlp]), v, p, sender, r.paid1, r.paid2);
    var (h2, out) :- ReleaseBoth(h1, sender, pair, r.paid1, r.paid2, rs);
    Some(TxResult(h2, RemoveAck(lp, v), out))
  }

  function PayBoth(h: Hub, v: Address, p: Pair, to: User, paid1: Uint128, paid2: Uint128): Option<Hub> {
    var h1 :- Transfer(h, HubAccount(v), to, p.token1, paid1);
    Transfer(h1, HubAccount(v), to, p.token2, paid2)
  }

  function ReleaseBoth(h: Hub, sender: User, pair: Pair, paid1: Uint128, paid2: Uint128, rs: seq<Receiver>)
    : Option<(Hub, seq<Release>)>
  {
    var (h1, out1) :- ReleaseEscrow(h, sender, pair.token1, Some(paid1), rs);
    var (h2, out2) :- ReleaseEscrow(h1, sender, pair.token2, Some(paid2), rs);
    Some((h2, out1 + out2))
  }

  function SwapTx(h: Hub, sender: User, assetIn: Token, amountIn: Uint128, assetOut: Token, minOut: Uint128,
                  swaps: seq<SwapPair>, rs: seq<Receiver>): Option<TxResult>
  {
    var hops :- Route(h, assetIn, assetOut, swaps);
    var _ :- Ensure(hops != []);
    var h1 :- CreditEscrow(h, assetIn, sender.chain, amountIn);
    var h2 :- Mint(h1, HubAccount(hops[0].vlp), assetIn, amountIn);
    var o :- ExecuteSwap(h2, sender, hops[0], assetIn, amountIn, minOut, hops[1..]);
    var _ :- Ensure(o.assetOut == assetOut);
    var _ :- Ensure(o.amountOut >= minOut);
    var (h3, out) :- ReleaseEscrow(o.hub, sender, assetOut, Some(o.amountOut), rs);
    Some(TxResult(h3, SwapAck(o.amountOut), out))
  }

  /** contracts/hub/router/src/ibc/ack_and_timeout.rs: a failed or timed-out release is put back. */
  function ReleaseFailedTx(h: Hub, r: Release): Option<TxResult> {
    var _ :- Ensure(EscrowKey(r.token, r.chain) in h.escrows);
    var h1 :- CreditEscrow(h, r.token, r.chain, r.amount);
    var h2 :- Mint(h1, r.sender, r.token, r.amount);
    Some(TxResult(h2, OtherAck, []))
  }

  /** A pool may use a token its chain already has an escrow for, or one no chain has yet. */
  predicate TokenUsable(h: Hub, t: Token, c: ChainUid) {
    EscrowKey(t, c) in h.escrows || forall k | k in h.escrows :: k.token != t
  }

  function CreatePoolTx(h: Hub, sender: User, pair: Pair, newVlp: Address, admin: Address): Option<TxResult> {
    var _ :- Ensure(pair.Sorted() && TokenUsable(h, pair.token1, sender.chain)
                    && TokenUsable(h, pair.token2, sender.chain));
    if pair in h.vlpOf then
      var v := h.vlpOf[pair];
      var _ :- Ensure(v in h.vlps);
      var w :- RegisterPool(h.vlps[v], sender.chain, pair);
      Some(TxResult(h.(vlps := h.vlps[v := w]), OtherAck, []))
    else
      var _ :- Ensure(newVlp !in h.vlps);
      var v0 :- Instantiate(pair, Fee(10, 10, HubAccount(admin)));
      var w :- RegisterPool(v0, sender.chain, pair);
      Some(TxResult(h.(vlps := h.vlps[newVlp := w], vlpOf := h.vlpOf[pair := newVlp]), OtherAck, []))
  }

  /** One hub transaction; None means it failed and was rolled back. */
  function Apply(h: Hub, tx: HubTx): Option<TxResult> {
    match tx
    case AddLiquidity(sender, pair, a1, a2, slippage) => AddTx(h, sender, pair, a1, a2, slippage)
    case RemoveLiquidity(sender, pair, lp, rs) => RemoveTx(h, sender, pair, lp, rs)
    case Swap(sender, assetIn, amountIn, assetOut, minOut, swaps, rs) =>
      SwapTx(h, sender, assetIn, amountIn, assetOut, minOut, swaps, rs)
    case Withdraw(sender, token, amount, rs) =>
      var (h1, out) :- ReleaseEscrow(h, sender, token, amount, rs);
      Some(TxResult(h1, OtherAck, out))
    case ReleaseFailed(r) => ReleaseFailedTx(h, r)
    case UserTransfer(from, to, token, amount) =>
      var h1 :- Transfer(h, from, to, token, amount);
      Some(TxResult(h1, OtherAck, []))
    case DirectSwap(sender, hop, assetIn, amountIn, minOut, next) =>
      var o :- ExecuteSwap(h, sender, hop, assetIn, amountIn, minOut, next);
      Some(TxResult(o.hub, OtherAck, []))
    case SetFee(v, lp, euclid, recipient) =>
      var _ :- Ensure(v in h.vlps);
      var w :- UpdateFee(h.vlps[v], lp, euclid, recipient);
      Some(TxResult(h.(vlps := h.vlps[v := w]), OtherAck, []))
    case CreatePool(sender, pair, newVlp, admin) => CreatePoolTx(h, sender, pair, newVlp, admin)
    case CreateEscrow(sender, token) =>
      var _ :- Ensure(EscrowKey(token, sender.chain) !in h.escrows);
      Some(TxResult(h.(escrows := h.escrows[EscrowKey(token, sender.chain) := 0]), OtherAck, []))
  }
}
