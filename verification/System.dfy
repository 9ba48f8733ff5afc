/** The whole protocol: the hub, the factories and the packets between them, as steps in any order. */
module SystemModel {
  import opened Arith
  import opened Types
  import opened TxIds
  import opened EscrowModel
  import opened HubModel
  import opened HubFlow
  import opened HubPools
  import opened FactoryModel
  import HubEffects

  /** What has become of a request on its way to the hub. */
  datatype Status = InFlight | Accepted(ack: Ack) | Rejected | TimedOut

  /** A request packet with its history: the request it came from, the coins and the partner that request named,
      whether it was settled, and what that paid. */
  datatype Packet = Packet(chain: ChainUid, stamp: Stamp, tx: HubTx, request: FactoryOp, coins: seq<Coin>,
                           partner: Option<Address>, status: Status, settled: bool, payments: seq<Payment>)

  /** A release packet: on its way, paid out, failed or timed out, or put back on the hub. */
  datatype OutStatus = Waiting | PaidOut | Failed | Restored

  /** A release packet with its history: the account it was taken from, and what its chain paid for it. */
  datatype OutPacket = OutPacket(release: Release, origin: Option<User>, status: OutStatus, payments: seq<Payment>)

  datatype System = System(hub: Hub, factories: map<ChainUid, Factory>, inbound: seq<Packet>, outbound: seq<OutPacket>)

  datatype Step =
    | Ask(chain: ChainUid, request: FactoryOp)
    | HubReceive(i: nat)
    | HubRefuse(i: nat)
    | RequestTimeout(i: nat)
    | FactoryAck(i: nat)
    | FactoryReceive(j: nat)
    | FactoryRefuse(j: nat)
    | HubAck(j: nat)
    | HubLocal(tx: HubTx)
    | AllowDenom(chain: ChainUid, token: Token, denom: Denom)
    | ForbidDenom(chain: ChainUid, token: Token, denom: Denom)

  function Requesting(f: Factory, ask: FactoryOp): Option<Requested> {
    match ask
    case AskAdd(at, sender, pair, c1, c2, slippage) => RequestAdd(f, at, sender, pair, c1, c2, slippage)
    case AskRemove(at, sender, caller, pair, lp, received, rs) =>
      RequestRemove(f, at, sender, caller, pair, lp, received, rs)
    case AskSwap(at, sender, assetIn, coin, attached, assetOut, minOut, swaps, rs, partner) =>
      RequestSwap(f, at, sender, assetIn, coin, attached, assetOut, minOut, swaps, rs, partner)
    case AskWithdraw(at, sender, token, amount, rs) => RequestWithdraw(f, at, sender, token, amount, rs)
    case _ => None
  }

  /** The coins a request names, partner fee included. */
  function CoinsOf(ask: FactoryOp): seq<Coin> {
    match ask
    case AskAdd(_, _, _, c1, c2, _) => [c1, c2]
    case AskSwap(_, _, _, coin, _, _, _, _, _, _) => [coin]
    case _ => []
  }

  /** Who gets the partner fee of a request, if it names anybody. */
  function PartnerOf(ask: FactoryOp): Option<Address> {
    if ask.AskSwap? && ask.partner.Some? then Some(ask.partner.value.recipient) else None
  }

  function Posted(c: ChainUid, q: Requested, ask: FactoryOp): Packet {
    Packet(c, q.stamp, q.tx, ask, CoinsOf(ask), PartnerOf(ask), InFlight, false, [])
  }

  /** A request is recorded and its packet sent; the counter has not gone round. */
  function DoAsk(s: System, c: ChainUid, ask: FactoryOp): Option<System> {
    var _ :- Ensure(c in s.factories && s.factories[c].nonce < U128_MAX);
    var q :- Requesting(s.factories[c], ask);
    Some(s.(factories := s.factories[c := q.factory],
            inbound := s.inbound + [Posted(c, q, ask)]))
  }

  /** The packets of a transaction set out. */
  function Launch(rs: seq<Release>, origin: Option<User>): seq<OutPacket> {
    seq(|rs|, i requires 0 <= i < |rs| => OutPacket(rs[i], origin, Waiting, []))
  }

  predicate Arrived(s: System, i: nat) { i < |s.inbound| && s.inbound[i].status == InFlight }

  /** The hub runs the request; an error is caught and becomes an error acknowledgement. */
  function DoHubReceive(s: System, i: nat): Option<System> {
    var _ :- Ensure(Arrived(s, i));
    match Apply(s.hub, s.inbound[i].tx)
    case Some(r) => Some(s.(hub := r.hub, inbound := s.inbound[i := s.inbound[i].(status := Accepted(r.ack))],
                            outbound := s.outbound + Launch(r.releases, HubEffects.AccountOf(s.inbound[i].tx))))
    case None => Some(s.(inbound := s.inbound[i := s.inbound[i].(status := Rejected)]))
  }

  function DoEnd(s: System, i: nat, status: Status): Option<System> {
    var _ :- Ensure(Arrived(s, i));
    Some(s.(inbound := s.inbound[i := s.inbound[i].(status := status)]))
  }

  /** An acknowledgement or timeout reaches the factory, possibly again. A failing handler is swallowed
      and changes nothing. */
  function DoFactoryAck(s: System, i: nat): Option<System> {
    var _ :- Ensure(i < |s.inbound| && s.inbound[i].status != InFlight && s.inbound[i].chain in s.factories);
    var p := s.inbound[i];
    var ack := if p.status.Accepted? then Some(p.status.ack) else None;
    match AckRequest(s.factories[p.chain], KeyOf(p.stamp), p.tx, ack)
    case Some(r) => Some(s.(factories := s.factories[p.chain := r.factory],
                            inbound := s.inbound[i := p.(settled := true, payments := p.payments + r.payments)]))
    case None => Some(s)
  }

  /** A release packet reaches its factory, which pays it out of the escrow or fails. */
  function DoFactoryReceive(s: System, j: nat): Option<System> {
    var _ :- Ensure(j < |s.outbound| && s.outbound[j].status == Waiting && s.outbound[j].release.chain in s.factories);
    var r := s.outbound[j].release;
    match PayRelease(s.factories[r.chain], r)
    case Some((f, ps)) => Some(s.(factories := s.factories[r.chain := f],
                                  outbound := s.outbound[j := s.outbound[j].(status := PaidOut, payments := ps)]))
    case None => Some(s.(outbound := s.outbound[j := s.outbound[j].(status := Failed)]))
  }

  /** The payout fails for a reason outside the escrow's books, or the packet times out. */
  function DoFactoryRefuse(s: System, j: nat): Option<System> {
    var _ :- Ensure(j < |s.outbound| && s.outbound[j].status == Waiting);
    Some(s.(outbound := s.outbound[j := s.outbound[j].(status := Failed)]))
  }

  /** The hub hears of a failed release; it may hear again until the handler, whose failure is swallowed, succeeds,
      and never after. */
  function DoHubAck(s: System, j: nat): Option<System> {
    var _ :- Ensure(j < |s.outbound| && s.outbound[j].status == Failed);
    match Apply(s.hub, ReleaseFailed(s.outbound[j].release))
    case Some(r) => Some(s.(hub := r.hub, outbound := s.outbound[j := s.outbound[j].(status := Restored)]))
    case None => Some(s)
  }

  /** Transactions that start on the hub itself. */
  predicate StartsOnHub(tx: HubTx) {
    match tx
    case Withdraw(u, _, _, _) => u.chain == VSL
    case UserTransfer(_, _, _, _) => true
    case DirectSwap(_, _, _, _, _, _) => true
    case SetFee(_, _, _, _) => true
    case CreatePool(_, _, _, _) => true
    case CreateEscrow(_, _) => true
    case _ => false
  }

  ghost function DoHubLocal(s: System, tx: HubTx): Option<System> {
    var _ :- Ensure(StartsOnHub(tx) && Proper(s.hub, tx));
    var r :- Apply(s.hub, tx);
    Some(s.(hub := r.hub, outbound := s.outbound + Launch(r.releases, HubEffects.AccountOf(tx))))
  }

  function DoDenom(s: System, c: ChainUid, t: Token, d: Denom, allow: bool): Option<System> {
    var _ :- Ensure(c in s.factories && t in s.factories[c].escrows);
    var f := s.factories[c];
    var e :- if allow then AddAllowed(f.escrows[t], d) else Disallow(f.escrows[t], d);
    Some(s.(factories := s.factories[c := f.(escrows := f.escrows[t := e])]))
  }

  /** One step of the protocol; None when the step is not possible. */
  ghost function Next(s: System, step: Step): Option<System> {
    match step
    case Ask(c, ask) => DoAsk(s, c, ask)
    case HubReceive(i) => DoHubReceive(s, i)
    case HubRefuse(i) => DoEnd(s, i, Rejected)
    case RequestTimeout(i) => DoEnd(s, i, TimedOut)
    case FactoryAck(i) => DoFactoryAck(s, i)
    case FactoryReceive(j) => DoFactoryReceive(s, j)
    case FactoryRefuse(j) => DoFactoryRefuse(s, j)
    case HubAck(j) => DoHubAck(s, j)
    case HubLocal(tx) => DoHubLocal(s, tx)
    case AllowDenom(c, t, d) => DoDenom(s, c, t, d, true)
    case ForbidDenom(c, t, d) => DoDenom(s, c, t, d, false)
  }

  /** The state after a run of steps; impossible steps do not happen. */
  ghost function Exec(s: System, steps: seq<Step>): System {
    if steps == [] then s else
    var before := Exec(s, steps[..|steps| - 1]);
    Next(before, steps[|steps| - 1]).GetOr(before)
  }

  /** A fresh factory: nothing pending, no shares, empty escrows. */
  ghost predicate FreshFactory(f: Factory) {
    && f.nonce == 0 && NothingPending(f) && f.shares == map[]
    && forall t | t in f.escrows :: EscrowValid(f.escrows[t]) && f.escrows[t].total == 0
  }

  /** The start: an empty hub, fresh factories under their chain ids, no packets. */
  ghost predicate Genesis(s: System) {
    && s.hub == EmptyHub(s.factories.Keys) && s.inbound == [] && s.outbound == []
    && (forall c | c in s.factories :: c != VSL && s.factories[c].chain == c && FreshFactory(s.factories[c]))
  }
}
