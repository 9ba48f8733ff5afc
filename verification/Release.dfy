/** The router's greedy escrow release (contracts/hub/router/src/execute.rs) and its simulation
    (contracts/hub/router/src/query.rs). */
module ReleaseModel {
  import opened Arith
  import opened Sums
  import opened Types

  datatype EscrowKey = EscrowKey(token: Token, chain: ChainUid)

  /** The hub's ledger of what each chain's escrow of a token holds. */
  type Escrows = map<EscrowKey, Uint128>

  datatype Draw = Draw(amount: Uint128, receiver: Receiver)

  datatype Drawn = Drawn(escrows: Escrows, draws: seq<Draw>, remaining: Uint128)

  function Take(escrows: Escrows, token: Token, remaining: Uint128, r: Receiver): Uint128 {
    var balance := Get(escrows, EscrowKey(token, r.user.chain));
    Min(if remaining >= balance then balance else remaining, Limit(r))
  }

  function Lower(escrows: Escrows, token: Token, c: ChainUid, take: Uint128): Escrows
    requires take <= Get(escrows, EscrowKey(token, c))
  {
    escrows[EscrowKey(token, c) := Get(escrows, EscrowKey(token, c)) - take]
  }

  /** The release loop: stops early when nothing remains, skips receivers that yield nothing, and
      fails at a chain that is not registered. */
  function ReleaseLoop(escrows: Escrows, chains: set<ChainUid>, token: Token, remaining: Uint128, rs: seq<Receiver>)
    : Option<Drawn>
    decreases |rs|
  {
    if remaining == 0 || rs == [] then Some(Drawn(escrows, [], remaining)) else
    var r := rs[0];
    var _ :- Ensure(r.user.chain in chains);
    var take := Take(escrows, token, remaining, r);
    if take == 0 then ReleaseLoop(escrows, chains, token, remaining, rs[1..]) else
    var rest :- ReleaseLoop(Lower(escrows, token, r.user.chain, take), chains, token, remaining - take, rs[1..]);
    Some(rest.(draws := [Draw(take, r)] + rest.draws))
  }

  /** The read-only simulation: never stops early and never writes an escrow balance. */
  function SimulateLoop(escrows: Escrows, token: Token, remaining: Uint128, rs: seq<Receiver>): Drawn
    decreases |rs|
  {
    if rs == [] then Drawn(escrows, [], remaining) else
    var take := Take(escrows, token, remaining, rs[0]);
    if take == 0 then SimulateLoop(escrows, token, remaining, rs[1..]) else
    var rest := SimulateLoop(escrows, token, remaining - take, rs[1..]);
    rest.(draws := [Draw(take, rs[0])] + rest.draws)
  }

  function DrawAmount(): Draw -> int { (d: Draw) => d.amount }

  function DrawTotal(draws: seq<Draw>): int { SeqSum(draws, DrawAmount()) }

  lemma ConsTotal(d: Draw, ds: seq<Draw>)
    ensures DrawTotal([d] + ds) == d.amount + DrawTotal(ds)
  {
    SeqSumConcat([d], ds, DrawAmount());
    assert [d][..0] == [];
    assert SeqSum([d], DrawAmount()) == SeqSum([d][..0], DrawAmount()) + DrawAmount()(d);
  }

  /** What a list of draws takes from the escrows of one token over a set of chains. */
  ghost function DrawWeight(s: Scope): Draw -> int {
    (d: Draw) => if s.Has(d.receiver.user.chain) then d.amount else 0
  }

  lemma ConsWeight(d: Draw, ds: seq<Draw>, s: Scope)
    ensures SeqSum([d] + ds, DrawWeight(s)) == DrawWeight(s)(d) + SeqSum(ds, DrawWeight(s))
  {
    SeqSumConcat([d], ds, DrawWeight(s));
    assert [d][..0] == [];
    assert SeqSum([d], DrawWeight(s)) == SeqSum([d][..0], DrawWeight(s)) + DrawWeight(s)(d);
  }

  ghost function EscrowWeight(t: Token, s: Scope): (EscrowKey, Uint128) -> int {
    (k: EscrowKey, x: Uint128) => if k.token == t && s.Has(k.chain) then x else 0
  }

  /** The escrow ledger of token t summed over the chains of a scope. */
  ghost function EscrowSum(escrows: Escrows, t: Token, s: Scope): int {
    Sum(escrows, EscrowWeight(t, s))
  }

  /** What is drawn and what remains add up to what was asked, and every draw is positive and goes to
      a registered chain. */
  lemma {:induction false} LoopTotals(escrows: Escrows, chains: set<ChainUid>, token: Token, remaining: Uint128,
                                      rs: seq<Receiver>)
    requires ReleaseLoop(escrows, chains, token, remaining, rs).Some?
    ensures var o := ReleaseLoop(escrows, chains, token, remaining, rs).value;
            && DrawTotal(o.draws) + o.remaining == remaining
            && (forall i | 0 <= i < |o.draws| :: o.draws[i].amount > 0 && o.draws[i].receiver.user.chain in chains)
    decreases |rs|
  {
    if remaining != 0 && rs != [] {
      var take := Take(escrows, token, remaining, rs[0]);
      if take == 0 {
        LoopTotals(escrows, chains, token, remaining, rs[1..]);
      } else {
        var after := Lower(escrows, token, rs[0].user.chain, take);
        LoopTotals(after, chains, token, remaining - take, rs[1..]);
        ConsTotal(Draw(take, rs[0]), ReleaseLoop(after, chains, token, remaining - take, rs[1..]).value.draws);
      }
    }
  }

  lemma LowerSum(escrows: Escrows, token: Token, c: ChainUid, take: Uint128, t: Token, s: Scope)
    requires take <= Get(escrows, EscrowKey(token, c))
    ensures EscrowSum(Lower(escrows, token, c, take), t, s)
            == EscrowSum(escrows, t, s) - (if t == token && s.Has(c) then take else 0)
  {
    var left: Uint128 := Get(escrows, EscrowKey(token, c)) - take;
    SumSet(escrows, EscrowWeight(t, s), EscrowKey(token, c), left);
  }

  /** The loop hands out exactly what it takes from the ledger, chain by chain and token by token. */
  lemma {:induction false} LoopConserves(escrows: Escrows, chains: set<ChainUid>, token: Token, remaining: Uint128,
                                         rs: seq<Receiver>, t: Token, s: Scope)
    requires ReleaseLoop(escrows, chains, token, remaining, rs).Some?
    ensures var o := ReleaseLoop(escrows, chains, token, remaining, rs).value;
            EscrowSum(o.escrows, t, s)
            == EscrowSum(escrows, t, s) - (if t == token then SeqSum(o.draws, DrawWeight(s)) else 0)
    decreases |rs|
  {
    if remaining != 0 && rs != [] {
      var take := Take(escrows, token, remaining, rs[0]);
      if take == 0 {
        LoopConserves(escrows, chains, token, remaining, rs[1..], t, s);
      } else {
        var after := Lower(escrows, token, rs[0].user.chain, take);
        LowerSum(escrows, token, rs[0].user.chain, take, t, s);
        LoopConserves(after, chains, token, remaining - take, rs[1..], t, s);
        ConsWeight(Draw(take, rs[0]), ReleaseLoop(after, chains, token, remaining - take, rs[1..]).value.draws, s);
      }
    }
  }

  // ----- Optimality -----

  function ChainsOf(rs: seq<Receiver>): set<ChainUid> {
    if rs == [] then {} else {rs[0].user.chain} + ChainsOf(rs[1..])
  }

  /** The sum of the limits listed for a chain; a receiver without a limit counts the largest amount. */
  function LimitSum(rs: seq<Receiver>, c: ChainUid): nat {
    if rs == [] then 0 else (if rs[0].user.chain == c then Limit(rs[0]) else 0) + LimitSum(rs[1..], c)
  }

  ghost function Caps(escrows: Escrows, token: Token, rs: seq<Receiver>): map<ChainUid, int> {
    map c | c in ChainsOf(rs) :: Min(Get(escrows, EscrowKey(token, c)), LimitSum(rs, c))
  }

  ghost function Itself(): (ChainUid, int) -> int { (c: ChainUid, x: int) => x }

  /** The most any release could hand out: over each distinct chain, its escrow or all its limits together. */
  ghost function Capacity(escrows: Escrows, token: Token, rs: seq<Receiver>): int {
    Sum(Caps(escrows, token, rs), Itself())
  }

  lemma {:induction false} NoLimitElsewhere(rs: seq<Receiver>, c: ChainUid)
    requires c !in ChainsOf(rs)
    ensures LimitSum(rs, c) == 0
  {
    if rs != [] { NoLimitElsewhere(rs[1..], c); }
  }

  /** `after` is `before` with `take` drawn from chain c. */
  ghost predicate Lowered(before: Escrows, after: Escrows, token: Token, c: ChainUid, take: Uint128) {
    && Get(after, EscrowKey(token, c)) == Get(before, EscrowKey(token, c)) - take
    && forall d | d != c :: Get(after, EscrowKey(token, d)) == Get(before, EscrowKey(token, d))
  }

  lemma CapsStep(before: Escrows, after: Escrows, token: Token, rs: seq<Receiver>, take: Uint128)
    requires rs != [] && Lowered(before, after, token, rs[0].user.chain, take)
    ensures var c := rs[0].user.chain;
            Caps(before, token, rs)
            == Caps(after, token, rs[1..])[c := Min(Get(before, EscrowKey(token, c)),
                                                    Limit(rs[0]) + LimitSum(rs[1..], c))]
  {
  }

  lemma CapsAt(escrows: Escrows, token: Token, rs: seq<Receiver>, c: ChainUid)
    ensures c in Caps(escrows, token, rs) <==> c in ChainsOf(rs)
    ensures c in ChainsOf(rs) ==> Caps(escrows, token, rs)[c] == Min(Get(escrows, EscrowKey(token, c)), LimitSum(rs, c))
  {
  }

  lemma CapacityShift(before: Escrows, after: Escrows, token: Token, rs: seq<Receiver>, take: Uint128)
    requires rs != [] && Lowered(before, after, token, rs[0].user.chain, take)
    ensures var c := rs[0].user.chain;
            Capacity(before, token, rs) == Capacity(after, token, rs[1..])
              - Min(Get(after, EscrowKey(token, c)), LimitSum(rs[1..], c))
              + Min(Get(before, EscrowKey(token, c)), Limit(rs[0]) + LimitSum(rs[1..], c))
  {
    hide Caps, ChainsOf, LimitSum, Take;
    var c := rs[0].user.chain;
    CapsStep(before, after, token, rs, take);
    CapsAt(after, token, rs[1..], c);
    SumSet(Caps(after, token, rs[1..]), Itself(), c,
           Min(Get(before, EscrowKey(token, c)), Limit(rs[0]) + LimitSum(rs[1..], c)));
    if c !in ChainsOf(rs[1..]) { NoLimitElsewhere(rs[1..], c); }
  }

  /** Drawing `take` for the first receiver lowers the capacity of the rest by exactly that much,
      unless the take was cut short by the amount asked for. */
  lemma CapacityStep(before: Escrows, after: Escrows, token: Token, rs: seq<Receiver>, take: Uint128)
    requires rs != [] && Lowered(before, after, token, rs[0].user.chain, take) && take <= Limit(rs[0])
    ensures Capacity(before, token, rs) >= take + Capacity(after, token, rs[1..])
    ensures take == Min(Get(before, EscrowKey(token, rs[0].user.chain)), Limit(rs[0])) ==>
              Capacity(before, token, rs) == take + Capacity(after, token, rs[1..])
  {
    CapacityShift(before, after, token, rs, take);
  }

  lemma CapacityNonneg(escrows: Escrows, token: Token, rs: seq<Receiver>)
    ensures Capacity(escrows, token, rs) >= 0
  {
    SumNonneg(Caps(escrows, token, rs), Itself());
  }

  lemma NothingAsked(escrows: Escrows, token: Token)
    ensures Capacity(escrows, token, []) == 0 && DrawTotal([]) == 0
  {
    assert Caps(escrows, token, []) == map[];
  }

  /** A release hands out exactly the smaller of what was asked and what the listed chains can bear,
      even when a chain is listed several times. */
  lemma {:induction false} ReleaseIsOptimal(escrows: Escrows, chains: set<ChainUid>, token: Token,
                                            amount: Uint128, rs: seq<Receiver>)
    requires ReleaseLoop(escrows, chains, token, amount, rs).Some?
    ensures DrawTotal(ReleaseLoop(escrows, chains, token, amount, rs).value.draws)
            == Min(amount, Capacity(escrows, token, rs))
    decreases |rs|
  {
    hide Capacity, DrawTotal;
    CapacityNonneg(escrows, token, rs);
    NothingAsked(escrows, token);
    if rs != [] && amount != 0 {
      var take := Take(escrows, token, amount, rs[0]);
      if take == 0 {
        CapacityStep(escrows, escrows, token, rs, take);
        ReleaseIsOptimal(escrows, chains, token, amount, rs[1..]);
      } else {
        var after := Lower(escrows, token, rs[0].user.chain, take);
        CapacityStep(escrows, after, token, rs, take);
        CapacityNonneg(after, token, rs[1..]);
        ReleaseIsOptimal(after, chains, token, amount - take, rs[1..]);
        ConsTotal(Draw(take, rs[0]), ReleaseLoop(after, chains, token, amount - take, rs[1..]).value.draws);
      }
    }
  }

  lemma {:induction false} PrefixDraws(escrows: Escrows, chains: set<ChainUid>, token: Token,
                                       amount: Uint128, rs: seq<Receiver>, j: nat)
    requires j <= |rs| && ReleaseLoop(escrows, chains, token, amount, rs).Some?
    ensures var part := ReleaseLoop(escrows, chains, token, amount, rs[..j]);
            part.Some? && part.value.draws <= ReleaseLoop(escrows, chains, token, amount, rs).value.draws
    decreases |rs|
  {
    if amount != 0 && j > 0 {
      var take := Take(escrows, token, amount, rs[0]);
      assert rs[..j][0] == rs[0] && rs[..j][1..] == rs[1..][..j - 1];
      if take == 0 {
        PrefixDraws(escrows, chains, token, amount, rs[1..], j - 1);
      } else {
        PrefixDraws(Lower(escrows, token, rs[0].user.chain, take), chains, token, amount - take, rs[1..], j - 1);
      }
    }
  }

  /** Earlier receivers come first: cutting the list after j entries gives a prefix of the same draws,
      so every prefix of the list is itself served optimally. */
  lemma PrefixFirst(escrows: Escrows, chains: set<ChainUid>, token: Token,
                    amount: Uint128, rs: seq<Receiver>, j: nat)
    requires j <= |rs| && ReleaseLoop(escrows, chains, token, amount, rs).Some?
    ensures var part := ReleaseLoop(escrows, chains, token, amount, rs[..j]);
            && part.Some?
            && part.value.draws <= ReleaseLoop(escrows, chains, token, amount, rs).value.draws
            && DrawTotal(part.value.draws) == Min(amount, Capacity(escrows, token, rs[..j]))
  {
    PrefixDraws(escrows, chains, token, amount, rs, j);
    ReleaseIsOptimal(escrows, chains, token, amount, rs[..j]);
  }

  /** The loop reaches entry i: what the entries before it can bear is not enough. */
  ghost predicate Reaches(escrows: Escrows, token: Token, amount: Uint128, rs: seq<Receiver>, i: nat)
    requires i < |rs|
  {
    Capacity(escrows, token, rs[..i]) < amount
  }

  /** The loop fails if and only if it reaches an entry whose chain is not registered. */
  lemma {:induction false} LoopFailsIff(escrows: Escrows, chains: set<ChainUid>, token: Token, amount: Uint128,
                                        rs: seq<Receiver>)
    ensures ReleaseLoop(escrows, chains, token, amount, rs).None? <==>
              exists i | 0 <= i < |rs| :: rs[i].user.chain !in chains && Reaches(escrows, token, amount, rs, i)
    decreases |rs|
  {
    hide Capacity, Take;
    if rs == [] || amount == 0 {
      forall i | 0 <= i < |rs| ensures !Reaches(escrows, token, amount, rs, i) {
        CapacityNonneg(escrows, token, rs[..i]);
      }
    } else if rs[0].user.chain !in chains {
      assert rs[..0] == [];
      NothingAsked(escrows, token);
      assert Reaches(escrows, token, amount, rs, 0);
    } else {
      LoopFailsLater(escrows, chains, token, amount, rs);
    }
  }

  lemma {:induction false} LoopFailsLater(escrows: Escrows, chains: set<ChainUid>, token: Token, amount: Uint128,
                                          rs: seq<Receiver>)
    requires rs != [] && amount != 0 && rs[0].user.chain in chains
    ensures ReleaseLoop(escrows, chains, token, amount, rs).None? <==>
              exists i | 0 <= i < |rs| :: rs[i].user.chain !in chains && Reaches(escrows, token, amount, rs, i)
    decreases |rs|, 0
  {
    hide Capacity;
    var take := Take(escrows, token, amount, rs[0]);
    var after, left := if take == 0 then escrows else Lower(escrows, token, rs[0].user.chain, take), amount - take;
    LoopFailsIff(after, chains, token, left, rs[1..]);
    forall i | 1 <= i < |rs|
      ensures Reaches(escrows, token, amount, rs, i) == Reaches(after, token, left, rs[1..], i - 1)
    {
      assert rs[..i][0] == rs[0] && rs[..i][1..] == rs[1..][..i - 1];
      CapacityStep(escrows, after, token, rs[..i], take);
      CapacityNonneg(after, token, rs[1..][..i - 1]);
    }
    if i :| 0 <= i < |rs[1..]| && rs[1..][i].user.chain !in chains && Reaches(after, token, left, rs[1..], i) {
      assert rs[i + 1].user.chain !in chains && Reaches(escrows, token, amount, rs, i + 1);
    }
    if i :| 0 <= i < |rs| && rs[i].user.chain !in chains && Reaches(escrows, token, amount, rs, i) {
      assert rs[1..][i - 1].user.chain !in chains && Reaches(after, token, left, rs[1..], i - 1);
    }
  }

  // ----- Who gets what -----

  /** Earlier draws put in front of the rest of a release. */
  function Following(done: seq<Draw>, rest: Option<Drawn>): Option<Drawn> {
    match rest case Some(d) => Some(d.(draws := done + d.draws)) case None => None
  }

  /** One round of the release loop. */
  lemma LoopStep(escrows: Escrows, chains: set<ChainUid>, token: Token, remaining: Uint128, rs: seq<Receiver>)
    requires remaining != 0 && rs != []
    ensures var loop := ReleaseLoop(escrows, chains, token, remaining, rs);
            var take := Take(escrows, token, remaining, rs[0]);
            && (rs[0].user.chain !in chains ==> loop == None)
            && (rs[0].user.chain in chains && take == 0 ==>
                  loop == ReleaseLoop(escrows, chains, token, remaining, rs[1..]))
            && (rs[0].user.chain in chains && take != 0 ==>
                  loop == Following([Draw(take, rs[0])],
                                    ReleaseLoop(Lower(escrows, token, rs[0].user.chain, take), chains, token,
                                                                     remaining - take, rs[1..])))
  {
  }

  lemma LoopEnd(escrows: Escrows, chains: set<ChainUid>, token: Token, remaining: Uint128, rs: seq<Receiver>)
    requires remaining == 0 || rs == []
    ensures ReleaseLoop(escrows, chains, token, remaining, rs) == Some(Drawn(escrows, [], remaining))
  {
  }

  /** The loop one entry at a time from the end: the last entry gets what it takes off the remainder. */
  lemma {:induction false} ReleaseLast(escrows: Escrows, chains: set<ChainUid>, token: Token, amount: Uint128,
                                       rs: seq<Receiver>)
    requires rs != [] && ReleaseLoop(escrows, chains, token, amount, rs).Some?
    ensures var l := |rs| - 1;
            var part := ReleaseLoop(escrows, chains, token, amount, rs[..l]);
            var all := ReleaseLoop(escrows, chains, token, amount, rs).value;
            && part.Some?
            && var x := part.value.remaining - all.remaining;
            && 0 <= x && all.draws == part.value.draws + (if x == 0 then [] else [Draw(x, rs[l])])
    decreases |rs|
  {
    hide ReleaseLoop;
    var l := |rs| - 1;
    if amount == 0 {
      LoopEnd(escrows, chains, token, amount, rs);
      LoopEnd(escrows, chains, token, amount, rs[..l]);
    } else {
      LoopStep(escrows, chains, token, amount, rs);
      var take := Take(escrows, token, amount, rs[0]);
      var after, left := AfterTake(escrows, token, amount, rs[0]), amount - take;
      if l == 0 {
        LoopEnd(escrows, chains, token, amount, rs[..l]);
        LoopEnd(after, chains, token, left, rs[1..]);
      } else {
        assert rs[..l][0] == rs[0] && rs[..l][1..] == rs[1..][..l - 1] && rs[1..][l - 1] == rs[l];
        LoopStep(escrows, chains, token, amount, rs[..l]);
        ReleaseLast(after, chains, token, left, rs[1..]);
      }
    }
  }

  function AfterTake(escrows: Escrows, token: Token, amount: Uint128, r: Receiver): Escrows {
    var take := Take(escrows, token, amount, r);
    if take == 0 then escrows else Lower(escrows, token, r.user.chain, take)
  }

  /** A list of draws with one more, unless it is of nothing. */
  function Append(draws: seq<Draw>, amount: int, r: Receiver): seq<Draw> {
    if 0 < amount <= U128_MAX then draws + [Draw(amount, r)] else draws
  }

  /** The first k entries in order, each with what the entries up to it can bear of the amount more than those
      before it. */
  ghost function Served(escrows: Escrows, token: Token, amount: Uint128, rs: seq<Receiver>, k: nat): seq<Draw>
    requires k <= |rs|
  {
    if k == 0 then [] else
    Append(Served(escrows, token, amount, rs, k - 1),
           Min(amount, Capacity(escrows, token, rs[..k])) - Min(amount, Capacity(escrows, token, rs[..k - 1])),
           rs[k - 1])
  }

  lemma {:induction false} PrefixServed(escrows: Escrows, chains: set<ChainUid>, token: Token, amount: Uint128,
                                        rs: seq<Receiver>, k: nat)
    requires k <= |rs| && ReleaseLoop(escrows, chains, token, amount, rs).Some?
    ensures var part := ReleaseLoop(escrows, chains, token, amount, rs[..k]);
            && part.Some? && part.value.draws == Served(escrows, token, amount, rs, k)
            && part.value.remaining == amount - Min(amount, Capacity(escrows, token, rs[..k]))
  {
    hide ReleaseLoop, Capacity, DrawTotal;
    PrefixFirst(escrows, chains, token, amount, rs, k);
    LoopTotals(escrows, chains, token, amount, rs[..k]);
    if k == 0 {
      assert rs[..0] == [];
      NothingListed(escrows, chains, token, amount);
    } else {
      PrefixServed(escrows, chains, token, amount, rs, k - 1);
      ReleaseLast(escrows, chains, token, amount, rs[..k]);
      assert rs[..k][..k - 1] == rs[..k - 1] && rs[..k][k - 1] == rs[k - 1];
      var x := ReleaseLoop(escrows, chains, token, amount, rs[..k - 1]).value.remaining
             - ReleaseLoop(escrows, chains, token, amount, rs[..k]).value.remaining;
      var before := ReleaseLoop(escrows, chains, token, amount, rs[..k - 1]).value.draws;
      if x == 0 { assert before + [] == before; }
    }
  }

  lemma NothingListed(escrows: Escrows, chains: set<ChainUid>, token: Token, amount: Uint128)
    ensures ReleaseLoop(escrows, chains, token, amount, []) == Some(Drawn(escrows, [], amount))
  {
  }

  /** A release serves its list in order: every entry gets, under its own name, what the entries up to it can bear of
      the amount more than those before it. */
  lemma ReleaseServes(escrows: Escrows, chains: set<ChainUid>, token: Token, amount: Uint128, rs: seq<Receiver>)
    requires ReleaseLoop(escrows, chains, token, amount, rs).Some?
    ensures ReleaseLoop(escrows, chains, token, amount, rs).value.draws == Served(escrows, token, amount, rs, |rs|)
  {
    PrefixServed(escrows, chains, token, amount, rs, |rs|);
    assert rs[..|rs|] == rs;
  }

  // ----- Simulation -----

  ghost predicate DistinctChains(rs: seq<Receiver>) {
    forall i, j | 0 <= i < j < |rs| :: rs[i].user.chain != rs[j].user.chain
  }

  /** Balances the simulation and the loop read for the chains still to come. */
  ghost predicate AgreeOn(a: Escrows, b: Escrows, token: Token, rs: seq<Receiver>) {
    forall i | 0 <= i < |rs| :: Get(a, EscrowKey(token, rs[i].user.chain)) == Get(b, EscrowKey(token, rs[i].user.chain))
  }

  lemma {:induction false} SimulationStep(a: Escrows, b: Escrows, chains: set<ChainUid>, token: Token,
                                          amount: Uint128, rs: seq<Receiver>)
    requires DistinctChains(rs) && AgreeOn(a, b, token, rs)
    requires forall i | 0 <= i < |rs| :: rs[i].user.chain in chains
    ensures var run := ReleaseLoop(a, chains, token, amount, rs);
            var sim := SimulateLoop(b, token, amount, rs);
            run.Some? && sim.draws == run.value.draws && sim.remaining == run.value.remaining
    decreases |rs|
  {
    if rs != [] {
      var take := Take(a, token, amount, rs[0]);
      assert AgreeOn(a, b, token, rs[1..]);
      if amount == 0 || take == 0 {
        SimulationStep(a, b, chains, token, amount, rs[1..]);
      } else {
        var after := Lower(a, token, rs[0].user.chain, take);
        assert AgreeOn(after, b, token, rs[1..]);
        SimulationStep(after, b, chains, token, amount - take, rs[1..]);
      }
    }
  }

  /** For registered and pairwise distinct chains the simulation lists the very draws the release makes. */
  lemma SimulationAgrees(escrows: Escrows, chains: set<ChainUid>, token: Token, amount: Uint128, rs: seq<Receiver>)
    requires DistinctChains(rs)
    requires forall i | 0 <= i < |rs| :: rs[i].user.chain in chains
    ensures var run := ReleaseLoop(escrows, chains, token, amount, rs);
            var sim := SimulateLoop(escrows, token, amount, rs);
            run.Some? && sim.draws == run.value.draws && sim.remaining == run.value.remaining
  {
    SimulationStep(escrows, escrows, chains, token, amount, rs);
  }

  /** What a list of draws takes from one chain. */
  ghost function Promised(draws: seq<Draw>, c: ChainUid): int { SeqSum(draws, DrawWeight(Among({c}))) }

  lemma {:induction false} KeptPromises(a: Escrows, b: Escrows, chains: set<ChainUid>, token: Token,
                                        amount: Uint128, rs: seq<Receiver>)
    requires forall i | 0 <= i < |rs| :: rs[i].user.chain in chains
    requires forall c :: Get(a, EscrowKey(token, c)) <= Get(b, EscrowKey(token, c))
    requires forall c :: Promised(SimulateLoop(b, token, amount, rs).draws, c) <= Get(a, EscrowKey(token, c))
    ensures var run := ReleaseLoop(a, chains, token, amount, rs);
            var sim := SimulateLoop(b, token, amount, rs);
            run.Some? && sim.draws == run.value.draws && sim.remaining == run.value.remaining
    decreases |rs|
  {
    hide Promised;
    if rs != [] {
      var c0 := rs[0].user.chain;
      var take := Take(b, token, amount, rs[0]);
      if take == 0 {
        KeptPromises(a, b, chains, token, amount, rs[1..]);
      } else {
        var rest := SimulateLoop(b, token, amount - take, rs[1..]).draws;
        forall c
          ensures Promised([Draw(take, rs[0])] + rest, c) == (if c == c0 then take else 0) + Promised(rest, c)
          ensures Promised(rest, c) >= 0
        {
          PromisedMore(Draw(take, rs[0]), rest, c);
        }
        assert Promised(SimulateLoop(b, token, amount, rs).draws, c0) <= Get(a, EscrowKey(token, c0));
        assert Take(a, token, amount, rs[0]) == take;
        var after := Lower(a, token, c0, take);
        forall c ensures Promised(rest, c) <= Get(after, EscrowKey(token, c)) {
          assert Promised(SimulateLoop(b, token, amount, rs).draws, c) <= Get(a, EscrowKey(token, c));
        }
        KeptPromises(after, b, chains, token, amount - take, rs[1..]);
      }
    }
  }

  lemma PromisedMore(d: Draw, ds: seq<Draw>, c: ChainUid)
    ensures Promised([d] + ds, c) == (if c == d.receiver.user.chain then d.amount else 0) + Promised(ds, c)
    ensures Promised(ds, c) >= 0
  {
    ConsWeight(d, ds, Among({c}));
    SeqSumNonneg(ds, DrawWeight(Among({c})));
  }

  lemma ReleaseWithinEscrow(escrows: Escrows, chains: set<ChainUid>, token: Token, amount: Uint128,
                            rs: seq<Receiver>, c: ChainUid)
    requires ReleaseLoop(escrows, chains, token, amount, rs).Some?
    ensures Promised(ReleaseLoop(escrows, chains, token, amount, rs).value.draws, c)
        <= Get(escrows, EscrowKey(token, c))
  {
    var o := ReleaseLoop(escrows, chains, token, amount, rs).value;
    LoopConserves(escrows, chains, token, amount, rs, token, Among({c}));
    SumNonneg(o.escrows, EscrowWeight(token, Among({c})));
    SumSingle(escrows, EscrowWeight(token, Among({c})), EscrowKey(token, c));
  }

  // ----- The simulation in closed form -----

  /** The most the simulation could give one entry. */
  function Offer(escrows: Escrows, token: Token, r: Receiver): nat {
    Min(Get(escrows, EscrowKey(token, r.user.chain)), Limit(r))
  }

  /** The offers of the first k entries together. */
  function Offered(escrows: Escrows, token: Token, rs: seq<Receiver>, k: nat): nat
    requires k <= |rs|
  {
    if k == 0 then 0 else Offered(escrows, token, rs, k - 1) + Offer(escrows, token, rs[k - 1])
  }

  /** What entry i gets of an amount when the offers are filled in order. */
  function ShareAt(escrows: Escrows, token: Token, amount: Uint128, rs: seq<Receiver>, i: nat): int
    requires i < |rs|
  {
    Min(amount, Offered(escrows, token, rs, i + 1)) - Min(amount, Offered(escrows, token, rs, i))
  }

  /** The shares of the first k entries that fall to chain c. */
  function Claim(escrows: Escrows, token: Token, amount: Uint128, rs: seq<Receiver>, c: ChainUid, k: nat): int
    requires k <= |rs|
  {
    if k == 0 then 0 else
    Claim(escrows, token, amount, rs, c, k - 1)
    + (if rs[k - 1].user.chain == c then ShareAt(escrows, token, amount, rs, k - 1) else 0)
  }

  /** The first k entries in order, each with its share. */
  function Offers(escrows: Escrows, token: Token, amount: Uint128, rs: seq<Receiver>, k: nat): seq<Draw>
    requires k <= |rs|
  {
    if k == 0 then [] else
    Append(Offers(escrows, token, amount, rs, k - 1), ShareAt(escrows, token, amount, rs, k - 1), rs[k - 1])
  }

  /** The simulation one entry at a time from the end. */
  lemma {:induction false} SimulateLast(escrows: Escrows, token: Token, remaining: Uint128, rs: seq<Receiver>)
    requires rs != []
    ensures var l := |rs| - 1;
            var part := SimulateLoop(escrows, token, remaining, rs[..l]);
            var take := Take(escrows, token, part.remaining, rs[l]);
            var all := SimulateLoop(escrows, token, remaining, rs);
            && all.draws == part.draws + (if take == 0 then [] else [Draw(take, rs[l])])
            && all.remaining == part.remaining - take
    decreases |rs|
  {
    var l := |rs| - 1;
    if l > 0 {
      assert rs[..l][0] == rs[0] && rs[..l][1..] == rs[1..][..l - 1] && rs[1..][l - 1] == rs[l];
      SimulateLast(escrows, token, remaining - Take(escrows, token, remaining, rs[0]), rs[1..]);
    }
  }

  lemma PromisedLast(ds: seq<Draw>, d: Draw, c: ChainUid)
    ensures Promised(ds + [d], c) == Promised(ds, c) + (if d.receiver.user.chain == c then d.amount else 0)
  {
    assert (ds + [d])[..|ds|] == ds;
  }

  /** What the simulation answers, from its inputs alone: it hands out the smaller of the amount and all offers
      together, and entry by entry fills the offers in order. */
  lemma {:induction false} SimulationClosedForm(escrows: Escrows, token: Token, amount: Uint128, rs: seq<Receiver>,
                                                k: nat, c: ChainUid)
    requires k <= |rs|
    ensures var sim := SimulateLoop(escrows, token, amount, rs[..k]);
            && sim.remaining == amount - Min(amount, Offered(escrows, token, rs, k))
            && sim.draws == Offers(escrows, token, amount, rs, k)
            && Promised(sim.draws, c) == Claim(escrows, token, amount, rs, c, k)
  {
    hide Promised, SimulateLoop;
    if k == 0 {
      assert rs[..0] == [];
      NoneListed(escrows, token, amount);
      NothingPromised(c);
    } else {
      SimulationClosedForm(escrows, token, amount, rs, k - 1, c);
      SimulateLast(escrows, token, amount, rs[..k]);
      assert rs[..k][..k - 1] == rs[..k - 1] && rs[..k][k - 1] == rs[k - 1];
      var part := SimulateLoop(escrows, token, amount, rs[..k - 1]);
      var take := Take(escrows, token, part.remaining, rs[k - 1]);
      assert take == ShareAt(escrows, token, amount, rs, k - 1);
      if take != 0 {
        PromisedLast(part.draws, Draw(take, rs[k - 1]), c);
      } else {
        assert part.draws + [] == part.draws;
      }
    }
  }

  lemma NoneListed(escrows: Escrows, token: Token, amount: Uint128)
    ensures SimulateLoop(escrows, token, amount, []) == Drawn(escrows, [], amount)
  {
  }

  lemma NothingPromised(c: ChainUid)
    ensures Promised([], c) == 0
  {
  }

  lemma {:induction false} NoClaimElsewhere(escrows: Escrows, token: Token, amount: Uint128, rs: seq<Receiver>,
                                            c: ChainUid, k: nat)
    requires k <= |rs| && c !in ChainsOf(rs)
    ensures Claim(escrows, token, amount, rs, c, k) == 0
  {
    if k > 0 {
      ListedChain(rs, k - 1);
      NoClaimElsewhere(escrows, token, amount, rs, c, k - 1);
    }
  }

  lemma {:induction false} ListedChain(rs: seq<Receiver>, i: nat)
    requires i < |rs|
    ensures rs[i].user.chain in ChainsOf(rs)
  {
    if i > 0 { ListedChain(rs[1..], i - 1); }
  }

  /** When the listed chains are registered, the simulation tells the truth if and only if no listed chain's
      entries, filled in order against its full escrow each time, together claim more than that escrow. */
  lemma SimulationExact(escrows: Escrows, chains: set<ChainUid>, token: Token, amount: Uint128, rs: seq<Receiver>)
    requires forall i | 0 <= i < |rs| :: rs[i].user.chain in chains
    ensures var run := ReleaseLoop(escrows, chains, token, amount, rs);
            var sim := SimulateLoop(escrows, token, amount, rs);
            (run.Some? && sim.draws == run.value.draws && sim.remaining == run.value.remaining)
            <==> (forall c | c in ChainsOf(rs) ::
                    Claim(escrows, token, amount, rs, c, |rs|) <= Get(escrows, EscrowKey(token, c)))
  {
    hide Promised, ReleaseLoop, SimulateLoop, Claim;
    var run := ReleaseLoop(escrows, chains, token, amount, rs);
    var sim := SimulateLoop(escrows, token, amount, rs);
    assert rs[..|rs|] == rs;
    forall c ensures Promised(sim.draws, c) == Claim(escrows, token, amount, rs, c, |rs|) {
      SimulationClosedForm(escrows, token, amount, rs, |rs|, c);
    }
    if forall c | c in ChainsOf(rs) :: Claim(escrows, token, amount, rs, c, |rs|) <= Get(escrows, EscrowKey(token, c)) {
      forall c ensures Promised(sim.draws, c) <= Get(escrows, EscrowKey(token, c)) {
        if c !in ChainsOf(rs) { NoClaimElsewhere(escrows, token, amount, rs, c, |rs|); }
      }
      KeptPromises(escrows, escrows, chains, token, amount, rs);
    }
    if run.Some? && sim.draws == run.value.draws {
      forall c ensures Promised(sim.draws, c) <= Get(escrows, EscrowKey(token, c)) {
        ReleaseWithinEscrow(escrows, chains, token, amount, rs, c);
      }
    }
  }

  /** Listing a chain twice makes the simulation promise the same escrow twice. */
  lemma SimulationOverpromises()
    ensures var r := Receiver(User("a", "x"), None);
            var escrows: Escrows := map[EscrowKey("t", "a") := 5];
            && SimulateLoop(escrows, "t", 10, [r, r]).remaining == 0
            && ReleaseLoop(escrows, {"a"}, "t", 10, [r, r]).Some?
            && ReleaseLoop(escrows, {"a"}, "t", 10, [r, r]).value.remaining == 5
  {
    var r := Receiver(User("a", "x"), None);
    var escrows: Escrows := map[EscrowKey("t", "a") := 5];
    var after := Lower(escrows, "t", "a", 5);
    assert [r, r][1..] == [r] && [r][1..] == [];
    assert SimulateLoop(escrows, "t", 5, [r]) == Drawn(escrows, [Draw(5, r)], 0);
    assert ReleaseLoop(after, {"a"}, "t", 5, [r]) == Some(Drawn(after, [], 5));
  }
}
