/** The bounded queue of messages to contracts on the same chain (packages/euclid_ibc/src/msg.rs): a message
    waits under its reply id until the reply collects it. */
module MsgQueue {
  import opened Arith

  /** The id ranges of the router and of a factory. */
  const HUB_RANGE := (1001, 2000)
  const CHAIN_RANGE := (2001, 3000)

  datatype Queue<M> = Queue(low: nat, high: nat, slots: map<nat, M>, count: Option<nat>)

  function Fresh<M>(range: (nat, nat)): Queue<M> { Queue(range.0, range.1, map[], None) }

  function Clamp(x: nat, low: nat, high: nat): nat {
    var y := if x <= high then x else high;
    if y >= low then y else low
  }

  /** The slot the next message would take. */
  function NextSlot<M>(q: Queue<M>): nat { Clamp(q.count.GetOr(q.low), q.low, q.high) }

  function Send<M>(q: Queue<M>, m: M): Option<(Queue<M>, nat)> {
    var slot := NextSlot(q);
    var _ :- Ensure(slot !in q.slots);
    Some((q.(slots := q.slots[slot := m], count := Some(slot + 1)), slot))
  }

  function Collect<M>(q: Queue<M>, id: nat): Option<(Queue<M>, M)> {
    var _ :- Ensure(id in q.slots);
    Some((q.(slots := q.slots - {id}), q.slots[id]))
  }

  datatype Event<M> = Sent(msg: M) | Replied(id: nat)

  /** One event; a failed one is rolled back. */
  function Step<M>(q: Queue<M>, e: Event<M>): Queue<M> {
    match e
    case Sent(m) => (match Send(q, m) case Some((q1, _)) => q1 case None => q)
    case Replied(id) => (match Collect(q, id) case Some((q1, _)) => q1 case None => q)
  }

  function Run<M>(q: Queue<M>, es: seq<Event<M>>): Queue<M> {
    if es == [] then q else Step(Run(q, es[..|es| - 1]), es[|es| - 1])
  }

  /** Every waiting id is in range and was handed out before the counter passed it. */
  ghost predicate Valid<M>(q: Queue<M>) {
    && q.low <= q.high
    && (q.count.Some? ==> q.low < q.count.value <= q.high + 1)
    && (forall id | id in q.slots :: q.low <= id && id < q.count.GetOr(q.low))
  }

  lemma {:induction false} RunValid<M>(range: (nat, nat), es: seq<Event<M>>)
    requires range.0 <= range.1
    ensures var q := Run(Fresh(range), es); Valid(q) && q.low == range.0 && q.high == range.1
  {
    if es != [] {
      RunValid(range, es[..|es| - 1]);
    }
  }

  /** A send is refused exactly when the counter has run out and the last slot is still waiting: until
      then it always succeeds, afterwards one message at a time. It never replaces a waiting message. */
  lemma SendLaw<M>(q: Queue<M>, m: M)
    requires Valid(q)
    ensures Send(q, m).None? <==> q.count == Some(q.high + 1) && q.high in q.slots
    ensures Send(q, m).Some? ==>
              var (q1, id) := Send(q, m).value;
              && q.low <= id <= q.high && id !in q.slots
              && id == (if q.count == Some(q.high + 1) then q.high else q.count.GetOr(q.low))
              && q1 == q.(slots := q.slots[id := m], count := Some(id + 1))
  {
  }

  /** A reply is served exactly when its message waits, and takes that one message out. */
  lemma CollectLaw<M>(q: Queue<M>, id: nat)
    ensures Collect(q, id).Some? <==> id in q.slots
    ensures Collect(q, id).Some? ==>
              var (q1, m) := Collect(q, id).value;
              && m == q.slots[id] && q1 == q.(slots := q1.slots)
              && (forall k :: k in q1.slots <==> k in q.slots && k != id)
              && (forall k | k in q1.slots :: q1.slots[k] == q.slots[k])
  {
  }

  /** A waiting message stays as it was through any events that do not collect it. */
  lemma {:induction false} Waits<M>(q: Queue<M>, es: seq<Event<M>>, id: nat)
    requires Valid(q) && id in q.slots
    requires forall i | 0 <= i < |es| :: es[i] != Replied(id)
    ensures Valid(Run(q, es)) && id in Run(q, es).slots && Run(q, es).slots[id] == q.slots[id]
  {
    if es != [] {
      Waits(q, es[..|es| - 1], id);
    }
  }

  /** Each reply gets exactly the message sent under its id, and takes it out of the queue: at any later
      time before the first reply to that id, collecting it returns the message sent. */
  lemma ReplyGetsWhatWasSent<M>(q: Queue<M>, m: M, es: seq<Event<M>>)
    requires Valid(q) && Send(q, m).Some?
    requires forall i | 0 <= i < |es| :: es[i] != Replied(Send(q, m).value.1)
    ensures var (q1, id) := Send(q, m).value;
            var r := Collect(Run(q1, es), id);
            r.Some? && r.value.1 == m && id !in r.value.0.slots
  {
    var (q1, id) := Send(q, m).value;
    Waits(q1, es, id);
  }

  /** The stored queue of one contract. */
  class StoredQueue<M> {
    const low: nat
    const high: nat
    var slots: map<nat, M>
    var count: Option<nat>

    constructor (range: (nat, nat))
      ensures State() == Fresh(range)
    {
      low, high, slots, count := range.0, range.1, map[], None;
    }

    ghost function State(): Queue<M> reads this { Queue(low, high, slots, count) }

    method ToMsg(m: M) returns (r: Option<nat>)
      modifies this
      ensures match Send(old(State()), m)
              case None => r == None && State() == old(State())
              case Some((q, id)) => r == Some(id) && State() == q
    {
      var slot := count.GetOr(low);
      slot := if slot <= high then slot else high;
      slot := if slot >= low then slot else low;
      if slot in slots { return None; }
      slots := slots[slot := m];
      count := Some(slot + 1);
      r := Some(slot);
    }

    method OnReply(id: nat) returns (r: Option<M>)
      modifies this
      ensures match Collect(old(State()), id)
              case None => r == None && State() == old(State())
              case Some((q, m)) => r == Some(m) && State() == q
    {
      if id !in slots { return None; }
      r := Some(slots[id]);
      slots := slots - {id};
    }
  }
}
