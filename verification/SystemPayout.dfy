/** Releases in flight: when the escrow contract is sure to hold what the hub has promised. */
module SystemPayout {
  import opened Arith
  import opened Sums
  import opened Types
  import opened EscrowModel
  import opened ReleaseModel
  import opened HubModel
  import opened HubFlow
  import opened FactoryModel
  import opened SystemModel
  import opened SystemLaws
  import opened SystemRuns
  import opened SystemRestore

  /** Only allowed denominations hold anything. */
  ghost predicate NoneStranded(e: Escrow) { OnlyIn(e.amounts, e.allowed.GetOr([])) }

  ghost predicate OnlyIn(amounts: Amounts, list: seq<Denom>) {
    forall k | k in amounts && amounts[k] > 0 :: exists i | 0 <= i < |list| :: Key(list[i]) == k
  }

  lemma {:induction false} HeldIsAll(a: Amounts, list: seq<Denom>)
    requires Distinct(list) && Booked(a, list) && OnlyIn(a, list)
    ensures Held(a, list) == Sum(a, AmountWeight())
    decreases |list|
  {
    hide Key;
    if list == [] {
      SumZero(a, AmountWeight());
    } else {
      var d, rest := list[0], list[1..];
      var zero: Uint128 := 0;
      var a1: Amounts := a[Key(d) := zero];
      SumSet(a, AmountWeight(), Key(d), zero);
      HeldUnchanged(a, d, zero, rest);
      forall k | k in a1 && a1[k] > 0 ensures exists i | 0 <= i < |rest| :: Key(rest[i]) == k {
        var i :| 0 <= i < |list| && Key(list[i]) == k;
        assert Key(rest[i - 1]) == k;
      }
      HeldIsAll(a1, rest);
    }
  }

  /** An escrow without stranded amounts pays every positive amount within its total. */
  lemma PaysWithinTotal(e: Escrow, amount: Uint128)
    requires EscrowValid(e) && NoneStranded(e) && 0 < amount <= e.total
    ensures EscrowModel.Withdraw(e, amount).Some?
  {
    hide EscrowModel.Withdraw;
    if e.allowed.None? {
      SumZero(e.amounts, AmountWeight());
    } else {
      HeldIsAll(e.amounts, e.allowed.value);
      WithdrawLaw(e, amount);
    }
  }

  lemma {:induction false} OneOfSeq<T>(s: seq<T>, w: T -> int, j: nat)
    requires j < |s| && forall i | 0 <= i < |s| :: w(s[i]) >= 0
    ensures w(s[j]) <= SeqSum(s, w)
  {
    var l := |s| - 1;
    if j < l { OneOfSeq(s[..l], w, j); } else { SeqSumNonneg(s[..l], w); }
  }

  /** A release that is neither paid nor restored counts in full. */
  lemma UnpaidCounts(z: System, j: nat)
    requires j < |z.outbound| && (z.outbound[j].status.Waiting? || z.outbound[j].status.Failed?)
    ensures var r := z.outbound[j].release; r.amount <= Leaving(z, r.token, Among({r.chain}))
  {
    var r := z.outbound[j].release;
    var w := LeavingWeight(r.token, Among({r.chain}));
    assert ReleaseWeight(r.token, Among({r.chain}))(r) == r.amount;
    assert w(z.outbound[j]) == r.amount;
    forall i | 0 <= i < |z.outbound| ensures w(z.outbound[i]) >= 0 {
      var o := z.outbound[i];
      assert ReleaseWeight(r.token, Among({r.chain}))(o.release) >= 0;
    }
    OneOfSeq(z.outbound, w, j);
  }

  /** In every reachable state, a waiting release is within what its escrow contract holds, unless a deposit the
      hub accepted is still to be settled there. */
  lemma WaitingIsHeld(q: System, steps: seq<Step>, j: nat)
    requires Genesis(q) && j < |Exec(q, steps).outbound| && Exec(q, steps).outbound[j].status.Waiting?
    requires var r := Exec(q, steps).outbound[j].release;
             Arriving(Exec(q, steps), r.token, Among({r.chain})) == 0
    ensures var z := Exec(q, steps);
            var r := z.outbound[j].release;
            r.chain in z.factories && 0 < r.amount <= Vault(z.factories[r.chain], r.token)
  {
    hide Exec, Genesis, Arriving, Leaving;
    var r := Exec(q, steps).outbound[j].release;
    RunOnRecord(q, steps);
    FactoriesStay(q, steps);
    ChainBacked(q, steps, r.token, r.chain);
    UnpaidCounts(Exec(q, steps), j);
  }

  /** In every reachable state where a chain has no accepted deposit of a token still to be settled and no
      disallowed denomination of it holding anything, every waiting release of that token to that chain is paid. */
  lemma WaitingIsPaid(q: System, steps: seq<Step>, j: nat)
    requires Genesis(q) && j < |Exec(q, steps).outbound| && Exec(q, steps).outbound[j].status.Waiting?
    requires var z := Exec(q, steps);
             var r := z.outbound[j].release;
             && Arriving(z, r.token, Among({r.chain})) == 0
             && (r.chain in z.factories && r.token in z.factories[r.chain].escrows ==>
                   NoneStranded(z.factories[r.chain].escrows[r.token]))
    ensures var z := Exec(q, steps);
            var r := z.outbound[j].release;
            r.chain in z.factories && PayRelease(z.factories[r.chain], r).Some?
  {
    hide Exec, Genesis, Arriving, SystemLinks.Links, HubSound, Laws, EscrowModel.Withdraw, EscrowValid, NoneStranded;
    var z := Exec(q, steps);
    var r := z.outbound[j].release;
    WaitingIsHeld(q, steps, j);
    RunSound(q, steps, r.token, "", Every);
    PaysWithinTotal(z.factories[r.chain].escrows[r.token], r.amount);
  }

  /** In every reachable state where a chain has no accepted deposit of a token still to be settled, a failed release
      of that token to that chain can be put back if and only if the balance of the account it was taken from would
      not overflow: the chain's escrow balance never does. */
  lemma FailedReleaseFits(q: System, steps: seq<Step>, j: nat)
    requires Genesis(q) && j < |Exec(q, steps).outbound| && Exec(q, steps).outbound[j].status.Failed?
    requires var r := Exec(q, steps).outbound[j].release;
             Arriving(Exec(q, steps), r.token, Among({r.chain})) == 0
    ensures var z := Exec(q, steps);
            var r := z.outbound[j].release;
            && Get(z.hub.escrows, EscrowKey(r.token, r.chain)) + r.amount <= U128_MAX
            && z.outbound[j].origin.Some?
            && (Apply(z.hub, ReleaseFailed(r)).Some? <==>
                  Balance(z.hub, z.outbound[j].origin.value, r.token) + r.amount <= U128_MAX)
  {
    hide Exec, Genesis, Arriving, Leaving, Apply;
    var r := Exec(q, steps).outbound[j].release;
    RunOnRecord(q, steps);
    FactoriesStay(q, steps);
    ChainBacked(q, steps, r.token, r.chain);
    UnpaidCounts(Exec(q, steps), j);
    FailedReleaseRestores(q, steps, j, r.sender, r.token);
  }
}
