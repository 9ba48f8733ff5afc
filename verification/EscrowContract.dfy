/** The stored state of an escrow contract and the messages that update it
    (contracts/liquidity/escrow/src/execute.rs), proved against EscrowModel. */
module EscrowContract {
  import opened Arith
  import opened Types
  import opened EscrowModel

  lemma {:induction false} DepositPrefix(e: Escrow, funds: seq<Coin>, i: nat)
    requires i <= |funds| && DepositAll(e, funds[..i]).None?
    ensures DepositAll(e, funds).None?
    decreases |funds|
  {
    hide Deposit;
    if i < |funds| {
      var l := |funds| - 1;
      assert funds[..l][..i] == funds[..i];
      DepositPrefix(e, funds[..l], i);
    } else {
      assert funds[..i] == funds;
    }
  }

  class Contract {
    var total: Uint128
    var allowed: Option<seq<Denom>>
    var amounts: Amounts

    function State(): Escrow reads this { Escrow(total, allowed, amounts) }

    constructor (first: Option<Denom>)
      ensures NewEscrow(first) == Some(State())
    {
      total, allowed, amounts := 0, None, map[];
      assert first.Some? ==> [] + [first.value] == [first.value];
      if first.Some? {
        allowed, amounts := Some([first.value]), map[Key(first.value) := 0];
      }
    }

    method AllowDenom(d: Denom) returns (r: Option<()>)
      modifies this`allowed, this`amounts
      ensures r.Some? <==> AddAllowed(old(State()), d).Some?
      ensures r.Some? ==> State() == AddAllowed(old(State()), d).value
    {
      var list := allowed.GetOr([]);
      var _ :- Ensure(d !in list);
      allowed := Some(list + [d]);
      if Key(d) !in amounts { amounts := amounts[Key(d) := 0]; }
      assert State().amounts == old(amounts)[Key(d) := Get(old(amounts), Key(d))];
      return Some(());
    }

    method DisallowDenom(d: Denom) returns (r: Option<()>)
      modifies this`allowed
      ensures r.Some? <==> Disallow(old(State()), d).Some?
      ensures r.Some? ==> State() == Disallow(old(State()), d).value
    {
      var list :- allowed;
      var _ :- Ensure(d in list);
      allowed := Some(Without(list, d));
      return Some(());
    }

    /** Native deposits, one coin after the other; an empty deposit is refused. */
    method DepositNative(funds: seq<Coin>) returns (r: Option<()>)
      modifies this`total, this`amounts
      ensures r.Some? <==> funds != [] && DepositAll(old(State()), funds).Some?
      ensures r.Some? ==> State() == DepositAll(old(State()), funds).value
    {
      var _ :- Ensure(funds != []);
      if allowed.None? {
        assert funds[..1][..0] == [];
        assert DepositAll(State(), funds[..1]).None?;
        DepositPrefix(State(), funds, 1);
        return None;
      }
      var i := 0;
      while i < |funds|
        invariant 0 <= i <= |funds|
        invariant DepositAll(old(State()), funds[..i]) == Some(State())
      {
        var ok := DepositCoin(funds[i]);
        assert funds[..i + 1][..i] == funds[..i];
        if ok.None? {
          DepositPrefix(old(State()), funds, i + 1);
          return None;
        }
        i := i + 1;
      }
      assert funds[..i] == funds;
      return Some(());
    }

    /** One coin; also the whole of a cw20 deposit. */
    method DepositCoin(c: Coin) returns (r: Option<()>)
      modifies this`total, this`amounts
      ensures r.Some? <==> Deposit(old(State()), c).Some?
      ensures r.Some? ==> State() == Deposit(old(State()), c).value
    {
      var _ :- Ensure(c.amount != 0);
      var list :- allowed;
      var _ :- Ensure(c.denom in list);
      var _ :- Ensure(Key(c.denom) in amounts);
      var balance :- CheckedAdd(amounts[Key(c.denom)], c.amount);
      amounts := amounts[Key(c.denom) := balance];
      total :- CheckedAdd(total, c.amount);
      return Some(());
    }

    method WithdrawAmount(amount: Uint128) returns (r: Option<seq<Coin>>)
      modifies this`total, this`amounts
      ensures r.Some? <==> Withdraw(old(State()), amount).Some?
      ensures r.Some? ==> Withdraw(old(State()), amount) == Some((State(), r.value))
    {
      var _ :- Ensure(amount != 0);
      var list :- allowed;
      var transfers: seq<Coin> := [];
      var remaining := amount;
      var i := 0;
      AfterNothing(PayLoop(amounts, list, amount));
      while remaining != 0 && i < |list|
        invariant 0 <= i <= |list| && |transfers| == i
        invariant PayLoop(old(amounts), list, amount) == After(transfers, PayLoop(amounts, list[i..], remaining))
        invariant total == old(total)
      {
        var denom := list[i];
        var _ :- Ensure(Key(denom) in amounts);
        var balance := amounts[Key(denom)];
        var pay := if remaining >= balance then balance else remaining;
        transfers := transfers + [Coin(denom, pay)];
        remaining := remaining - pay;
        amounts := amounts[Key(denom) := balance - pay];
        assert list[i..][0] == denom && list[i..][1..] == list[i + 1..];
        AfterMore(transfers[..i], Coin(denom, pay), PayLoop(amounts, list[i + 1..], remaining));
        i := i + 1;
      }
      AfterLast(transfers, amounts, remaining);
      var _ :- Ensure(remaining == 0);
      total :- CheckedSub(total, amount);
      return Some(transfers);
    }

    /** One message with the chain's roll-back on failure: the step machine of EscrowModel. */
    method Execute(op: EscrowOp)
      requires EscrowValid(State())
      modifies this
      ensures State() == EscrowStep(old(State()), op) && EscrowValid(State())
    {
      hide AddAllowed, Disallow, Deposit, Withdraw, EscrowValid;
      EscrowStepKeepsValid(State(), op);
      var was := State();
      var ok: bool;
      match op {
        case Allow(d) => var r := AllowDenom(d); ok := r.Some?;
        case Forbid(d) => var r := DisallowDenom(d); ok := r.Some?;
        case Receive(funds) => var r := DepositNative(funds); ok := r.Some?;
        case PayOut(a) => var r := WithdrawAmount(a); ok := r.Some?;
      }
      if !ok { total, allowed, amounts := was.total, was.allowed, was.amounts; }
    }
  }

  /** The rest of a payout with earlier transfers put in front. */
  function After(done: seq<Coin>, rest: Option<Paid>): Option<Paid> {
    match rest case Some(p) => Some(p.(transfers := done + p.transfers)) case None => None
  }

  lemma AfterNothing(rest: Option<Paid>)
    ensures After([], rest) == rest
  {
    if rest.Some? { assert [] + rest.value.transfers == rest.value.transfers; }
  }

  lemma AfterMore(done: seq<Coin>, c: Coin, rest: Option<Paid>)
    ensures After(done + [c], rest) == After(done, After([c], rest))
  {
    if rest.Some? { assert done + [c] + rest.value.transfers == done + ([c] + rest.value.transfers); }
  }

  lemma AfterLast(done: seq<Coin>, amounts: Amounts, remaining: Uint128)
    ensures After(done, Some(Paid(amounts, [], remaining))) == Some(Paid(amounts, done, remaining))
  {
    assert done + [] == done;
  }
}
