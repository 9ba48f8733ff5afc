/** A chain's escrow of one token, holding any number of denominations of it
    (contracts/liquidity/escrow/src/execute.rs). */
module EscrowModel {
  import opened Arith
  import opened Sums
  import opened Types

  datatype Denom = Native(denom: string) | Smart(address: string)

  /** The storage key of a denomination (packages/euclid/src/token.rs). */
  function Key(d: Denom): string {
    match d case Native(s) => "native:" + s case Smart(s) => "smart:" + s
  }

  /** Distinct denominations never share a storage key. */
  lemma KeyInjective(a: Denom, b: Denom)
    requires Key(a) == Key(b)
    ensures a == b
  {
    assert Key(a)[0] == Key(b)[0];
    match a
    case Native(s) =>
      assert s == Key(a)[7..] && b.Native? && b.denom == Key(b)[7..];
    case Smart(s) =>
      assert s == Key(a)[6..] && b.Smart? && b.address == Key(b)[6..];
  }

  type Amounts = map<string, Uint128>

  datatype Escrow = Escrow(total: Uint128, allowed: Option<seq<Denom>>, amounts: Amounts)

  datatype Coin = Coin(denom: Denom, amount: Uint128)

  function NewEscrow(first: Option<Denom>): Option<Escrow> {
    var e := Escrow(0, None, map[]);
    if first.Some? then AddAllowed(e, first.value) else Some(e)
  }

  function AddAllowed(e: Escrow, d: Denom): Option<Escrow> {
    var list := e.allowed.GetOr([]);
    var _ :- Ensure(d !in list);
    Some(e.(allowed := Some(list + [d]), amounts := e.amounts[Key(d) := Get(e.amounts, Key(d))]))
  }

  function Without(list: seq<Denom>, d: Denom): seq<Denom> {
    if list == [] then [] else
    var l := |list| - 1;
    Without(list[..l], d) + (if list[l] == d then [] else [list[l]])
  }

  /** Disallowing a denomination keeps its amount in the books. */
  function Disallow(e: Escrow, d: Denom): Option<Escrow> {
    var _ :- Ensure(e.allowed.Some? && d in e.allowed.value);
    Some(e.(allowed := Some(Without(e.allowed.value, d))))
  }

  function Deposit(e: Escrow, c: Coin): Option<Escrow> {
    var _ :- Ensure(c.amount != 0 && e.allowed.Some? && c.denom in e.allowed.value && Key(c.denom) in e.amounts);
    var amounts :- Credit(e.amounts, Key(c.denom), c.amount);
    var total :- CheckedAdd(e.total, c.amount);
    Some(e.(amounts := amounts, total := total))
  }

  function DepositAll(e: Escrow, funds: seq<Coin>): Option<Escrow> {
    if funds == [] then Some(e) else
    var e1 :- DepositAll(e, funds[..|funds| - 1]);
    Deposit(e1, funds[|funds| - 1])
  }

  datatype Paid = Paid(amounts: Amounts, transfers: seq<Coin>, remaining: Uint128)

  /** The payout loop: denominations in listed order, each drained before the next, stopping when
      nothing remains. A drained denomination still gets a transfer, of zero. */
  function PayLoop(amounts: Amounts, list: seq<Denom>, remaining: Uint128): Option<Paid>
    decreases |list|
  {
    if remaining == 0 || list == [] then Some(Paid(amounts, [], remaining)) else
    var key := Key(list[0]);
    var _ :- Ensure(key in amounts);
    var pay := Min(remaining, amounts[key]);
    var rest :- PayLoop(amounts[key := amounts[key] - pay], list[1..], remaining - pay);
    Some(rest.(transfers := [Coin(list[0], pay)] + rest.transfers))
  }

  function Withdraw(e: Escrow, amount: Uint128): Option<(Escrow, seq<Coin>)> {
    var _ :- Ensure(amount != 0 && e.allowed.Some?);
    var o :- PayLoop(e.amounts, e.allowed.value, amount);
    var _ :- Ensure(o.remaining == 0);
    var total :- CheckedSub(e.total, amount);
    Some((e.(amounts := o.amounts, total := total), o.transfers))
  }

  // ----- Invariant -----

  ghost function AmountWeight(): (string, Uint128) -> int { (k: string, x: Uint128) => x }

  ghost predicate Distinct(list: seq<Denom>) {
    forall i, j | 0 <= i < j < |list| :: list[i] != list[j]
  }

  ghost predicate Booked(amounts: Amounts, list: seq<Denom>) {
    forall i | 0 <= i < |list| :: Key(list[i]) in amounts
  }

  /** The total is the sum over all denominations, disallowed ones included, and the allowed list has
      no duplicates and only booked denominations. */
  ghost predicate EscrowValid(e: Escrow) {
    && Sum(e.amounts, AmountWeight()) == e.total
    && (e.allowed.Some? ==> Distinct(e.allowed.value) && Booked(e.amounts, e.allowed.value))
  }

  function Held(amounts: Amounts, list: seq<Denom>): int {
    if list == [] then 0 else Get(amounts, Key(list[0])) + Held(amounts, list[1..])
  }

  lemma {:induction false} HeldUnchanged(a: Amounts, d: Denom, x: Uint128, list: seq<Denom>)
    requires d !in list
    ensures Held(a[Key(d) := x], list) == Held(a, list)
  {
    if list != [] {
      if Key(list[0]) == Key(d) { KeyInjective(list[0], d); }
      HeldUnchanged(a, d, x, list[1..]);
    }
  }

  lemma {:induction false} HeldNonneg(a: Amounts, list: seq<Denom>)
    ensures Held(a, list) >= 0
  {
    if list != [] { HeldNonneg(a, list[1..]); }
  }

  function CoinAmount(): Coin -> int { (c: Coin) => c.amount }

  function CoinTotal(cs: seq<Coin>): int { SeqSum(cs, CoinAmount()) }

  lemma ConsCoins(c: Coin, cs: seq<Coin>)
    ensures CoinTotal([c] + cs) == c.amount + CoinTotal(cs)
  {
    SeqSumConcat([c], cs, CoinAmount());
    assert [c][..0] == [];
    assert SeqSum([c], CoinAmount()) == SeqSum([c][..0], CoinAmount()) + CoinAmount()(c);
  }

  /** One round of the payout loop. */
  lemma PayStep(a: Amounts, list: seq<Denom>, remaining: Uint128)
    requires Booked(a, list)
    ensures remaining == 0 || list == [] ==> PayLoop(a, list, remaining) == Some(Paid(a, [], remaining))
    ensures remaining != 0 && list != [] ==>
              var pay := Min(remaining, a[Key(list[0])]);
              var rest := PayLoop(a[Key(list[0]) := a[Key(list[0])] - pay], list[1..], remaining - pay);
              && PayLoop(a, list, remaining).Some? == rest.Some?
              && (rest.Some? ==> PayLoop(a, list, remaining).value
                                 == rest.value.(transfers := [Coin(list[0], pay)] + rest.value.transfers))
  {
    hide Key;
  }

  lemma NoTransfers()
    ensures CoinTotal([]) == 0
  {
  }

  lemma Paying(a: Amounts, k: string, left: Uint128)
    requires k in a
    ensures Sum(a[k := left], AmountWeight()) == Sum(a, AmountWeight()) - a[k] + left
  {
    SumSet(a, AmountWeight(), k, left);
  }

  /** How the loop pays: transfers follow the list in order, all but the last drain their
      denomination, and they add up to what left the books. */
  lemma {:induction false} PayLoopLaw(a: Amounts, list: seq<Denom>, remaining: Uint128)
    requires Distinct(list) && Booked(a, list)
    ensures var r := PayLoop(a, list, remaining);
            && r.Some?
            && r.value.remaining == (if remaining <= Held(a, list) then 0 else remaining - Held(a, list))
            && CoinTotal(r.value.transfers) == remaining - r.value.remaining
            && Sum(r.value.amounts, AmountWeight()) == Sum(a, AmountWeight()) - CoinTotal(r.value.transfers)
            && r.value.amounts.Keys == a.Keys
    decreases |list|
  {
    hide Key, CoinTotal, AmountWeight, PayLoop;
    HeldNonneg(a, list);
    NoTransfers();
    PayStep(a, list, remaining);
    if remaining != 0 && list != [] {
      var d := list[0];
      var pay: Uint128 := Min(remaining, a[Key(d)]);
      var left: Uint128 := a[Key(d)] - pay;
      var a1: Amounts := a[Key(d) := left];
      Paying(a, Key(d), left);
      HeldUnchanged(a, d, left, list[1..]);
      HeldNonneg(a, list[1..]);
      PayLoopLaw(a1, list[1..], remaining - pay);
      ConsCoins(Coin(d, pay), PayLoop(a1, list[1..], remaining - pay).value.transfers);
    }
  }

  /** The i-th transfer goes to the i-th allowed denomination; every one but the last pays all of it,
      and everything else in the books is untouched. */
  lemma {:induction false} PayLoopOrder(a: Amounts, list: seq<Denom>, remaining: Uint128, i: nat)
    requires Distinct(list) && Booked(a, list) && PayLoop(a, list, remaining).Some?
    requires i < |list|
    ensures var r := PayLoop(a, list, remaining).value;
            && |r.transfers| <= |list|
            && (i < |r.transfers| ==> r.transfers[i].denom == list[i] && r.transfers[i].amount <= a[Key(list[i])])
            && (i + 1 < |r.transfers| ==> r.transfers[i].amount == a[Key(list[i])])
            && Key(list[i]) in r.amounts
            && r.amounts[Key(list[i])]
               == a[Key(list[i])] - (if i < |r.transfers| then r.transfers[i].amount else 0)
    decreases |list|
  {
    hide Key;
    if remaining != 0 {
      var d := list[0];
      var pay: Uint128 := Min(remaining, a[Key(d)]);
      var a1: Amounts := a[Key(d) := a[Key(d)] - pay];
      forall j | 0 <= j < |list[1..]| ensures Key(list[1..][j]) != Key(d) {
        if Key(list[j + 1]) == Key(d) { KeyInjective(list[j + 1], d); }
      }
      PayElsewhere(a1, list[1..], remaining - pay, Key(d));
      if i > 0 {
        assert Key(list[1..][i - 1]) != Key(d);
        PayLoopOrder(a1, list[1..], remaining - pay, i - 1);
      } else if |list| > 1 {
        PayLoopOrder(a1, list[1..], remaining - pay, 0);
      }
    }
  }

  lemma {:induction false} PayElsewhere(a: Amounts, list: seq<Denom>, remaining: Uint128, k: string)
    requires PayLoop(a, list, remaining).Some?
    ensures (k in a ==> k in PayLoop(a, list, remaining).value.amounts)
    ensures k in a && (forall i | 0 <= i < |list| :: Key(list[i]) != k) ==>
              PayLoop(a, list, remaining).value.amounts[k] == a[k]
    decreases |list|
  {
    if remaining != 0 && list != [] {
      var pay: Uint128 := Min(remaining, a[Key(list[0])]);
      var a1: Amounts := a[Key(list[0]) := a[Key(list[0])] - pay];
      PayElsewhere(a1, list[1..], remaining - pay, k);
    }
  }

  /** A nonzero withdraw succeeds exactly when the allowed denominations hold enough; then its transfers
      add up to the amount and the total stays in step. */
  lemma WithdrawLaw(e: Escrow, amount: Uint128)
    requires EscrowValid(e) && e.allowed.Some? && amount > 0
    ensures Withdraw(e, amount).Some? <==> amount <= Held(e.amounts, e.allowed.value)
    ensures Withdraw(e, amount).Some? ==>
              var (e1, transfers) := Withdraw(e, amount).value;
              EscrowValid(e1) && CoinTotal(transfers) == amount && e1.total == e.total - amount
  {
    PayLoopLaw(e.amounts, e.allowed.value, amount);
    var r := PayLoop(e.amounts, e.allowed.value, amount).value;
    SumNonneg(r.amounts, AmountWeight());
  }

  lemma DepositKeepsValid(e: Escrow, c: Coin)
    requires EscrowValid(e) && Deposit(e, c).Some?
    ensures EscrowValid(Deposit(e, c).value) && Deposit(e, c).value.total == e.total + c.amount
  {
    var x: Uint128 := e.amounts[Key(c.denom)] + c.amount;
    SumSet(e.amounts, AmountWeight(), Key(c.denom), x);
  }

  /** A deposit fits the total whenever it fits nowhere smaller: the books never refuse on their own. */
  lemma DepositSucceedsIff(e: Escrow, c: Coin)
    requires EscrowValid(e)
    ensures Deposit(e, c).Some? <==>
              c.amount > 0 && e.allowed.Some? && c.denom in e.allowed.value && e.total + c.amount <= U128_MAX
  {
    if e.allowed.Some? && c.denom in e.allowed.value {
      SumAtLeast(e.amounts, AmountWeight(), Key(c.denom));
    }
  }

  lemma {:induction false} WithoutLaw(list: seq<Denom>, d: Denom)
    requires Distinct(list)
    ensures Distinct(Without(list, d))
    ensures forall x :: x in Without(list, d) <==> x in list && x != d
  {
    if list != [] {
      var l := |list| - 1;
      WithoutLaw(list[..l], d);
      assert list == list[..l] + [list[l]];
      var kept := Without(list[..l], d);
      forall i | 0 <= i < |kept| ensures kept[i] != list[l] {
        assert kept[i] in list[..l];
      }
    }
  }

  // ----- Denomination by denomination -----

  function InDenom(c: Coin, d: Denom): int { if c.denom == d then c.amount else 0 }

  /** What a list of coins holds of one denomination. */
  function CoinsIn(coins: seq<Coin>, d: Denom): int {
    if coins == [] then 0 else CoinsIn(coins[..|coins| - 1], d) + InDenom(coins[|coins| - 1], d)
  }

  lemma {:induction false} ConsIn(c: Coin, cs: seq<Coin>, d: Denom)
    ensures CoinsIn([c] + cs, d) == InDenom(c, d) + CoinsIn(cs, d)
  {
    var l := |cs|;
    if l == 0 {
      assert ([c] + cs)[..0] == [];
    } else {
      assert ([c] + cs)[..l] == [c] + cs[..l - 1];
      ConsIn(c, cs[..l - 1], d);
    }
  }

  function Booking(e: Escrow, d: Denom): Uint128 { Get(e.amounts, Key(d)) }

  /** A deposit is booked under its own denomination and no other, and leaves the allowed list alone. */
  lemma DepositBooks(e: Escrow, c: Coin, d: Denom)
    requires Deposit(e, c).Some?
    ensures var e1 := Deposit(e, c).value;
            && Booking(e1, d) == Booking(e, d) + InDenom(c, d)
            && e1.allowed == e.allowed && e1.total == e.total + c.amount
  {
    hide Key;
    if Key(d) == Key(c.denom) { KeyInjective(d, c.denom); }
  }

  /** Deposits of several coins book each denomination's own sum. */
  lemma {:induction false} DepositAllBooks(e: Escrow, funds: seq<Coin>, d: Denom)
    requires DepositAll(e, funds).Some?
    ensures var e1 := DepositAll(e, funds).value;
            Booking(e1, d) == Booking(e, d) + CoinsIn(funds, d) && e1.allowed == e.allowed
  {
    hide Deposit, Booking;
    if funds != [] {
      DepositAllBooks(e, funds[..|funds| - 1], d);
      DepositBooks(DepositAll(e, funds[..|funds| - 1]).value, funds[|funds| - 1], d);
    }
  }

  lemma {:induction false} PayLoopBooks(a: Amounts, list: seq<Denom>, remaining: Uint128, d: Denom)
    requires PayLoop(a, list, remaining).Some?
    ensures var r := PayLoop(a, list, remaining).value;
            Get(r.amounts, Key(d)) == Get(a, Key(d)) - CoinsIn(r.transfers, d)
    decreases |list|
  {
    hide Key, CoinsIn;
    NoCoinsIn(d);
    if remaining != 0 && list != [] {
      var pay: Uint128 := Min(remaining, a[Key(list[0])]);
      var a1: Amounts := a[Key(list[0]) := a[Key(list[0])] - pay];
      PayLoopBooks(a1, list[1..], remaining - pay, d);
      ConsIn(Coin(list[0], pay), PayLoop(a1, list[1..], remaining - pay).value.transfers, d);
      if Key(d) == Key(list[0]) { KeyInjective(d, list[0]); }
    }
  }

  lemma NoCoinsIn(d: Denom)
    ensures CoinsIn([], d) == 0
  {
  }

  /** A withdraw takes from each denomination's booking exactly what it transfers of it. */
  lemma WithdrawBooks(e: Escrow, amount: Uint128, d: Denom)
    requires Withdraw(e, amount).Some?
    ensures var (e1, transfers) := Withdraw(e, amount).value;
            && Booking(e1, d) == Booking(e, d) - CoinsIn(transfers, d)
            && e1.allowed == e.allowed && e1.total == e.total - amount
  {
    hide PayLoop;
    PayLoopBooks(e.amounts, e.allowed.value, amount, d);
  }

  /** Allowing a denomination succeeds unless it is allowed already; it goes to the end of the list, and no booking
      changes. */
  lemma AllowLaw(e: Escrow, d: Denom, x: Denom)
    ensures AddAllowed(e, d).Some? <==> d !in e.allowed.GetOr([])
    ensures AddAllowed(e, d).Some? ==>
              var e1 := AddAllowed(e, d).value;
              && e1.allowed == Some(e.allowed.GetOr([]) + [d]) && e1.total == e.total && Booking(e1, x) == Booking(e, x)
              && Key(d) in e1.amounts
  {
    hide Key;
    if Key(x) == Key(d) { KeyInjective(x, d); }
  }

  /** Disallowing a denomination succeeds exactly when it is allowed; it alone leaves the list, and no booking
      changes. */
  lemma DisallowLaw(e: Escrow, d: Denom, x: Denom)
    requires e.allowed.Some? ==> Distinct(e.allowed.value)
    ensures Disallow(e, d).Some? <==> d in e.allowed.GetOr([])
    ensures Disallow(e, d).Some? ==>
              var e1 := Disallow(e, d).value;
              && e1.allowed.Some? && (x in e1.allowed.value <==> x in e.allowed.value && x != d)
              && e1.total == e.total && Booking(e1, x) == Booking(e, x)
  {
    if Disallow(e, d).Some? { WithoutLaw(e.allowed.value, d); }
  }

  /** What a disallowed denomination leaves behind keeps its order: the list without it, front and back. */
  lemma {:induction false} WithoutOrder(list: seq<Denom>, d: Denom, i: nat)
    requires Distinct(list) && i < |list| && list[i] == d
    ensures Without(list, d) == list[..i] + list[i + 1..]
  {
    var l := |list| - 1;
    if i == l {
      NotIn(list[..l], d);
      assert list[l + 1..] == [] && list[..l] + [] == list[..l];
    } else {
      assert list[..l][i] == d;
      WithoutOrder(list[..l], d, i);
      assert list[..l][..i] == list[..i] && list[..l][i + 1..] + [list[l]] == list[i + 1..];
    }
  }

  lemma {:induction false} NotIn(list: seq<Denom>, d: Denom)
    requires d !in list
    ensures Without(list, d) == list
  {
    if list != [] { NotIn(list[..|list| - 1], d); }
  }

  /** A new escrow is empty and allows its first denomination, if it is given one. */
  lemma NewEscrowLaw(first: Option<Denom>, x: Denom)
    ensures NewEscrow(first).Some?
    ensures var e := NewEscrow(first).value;
            e.total == 0 && Booking(e, x) == 0 && e.allowed == (if first.Some? then Some([first.value]) else None)
  {
    hide Key;
    if first.Some? { assert [] + [first.value] == [first.value]; }
  }

  // ----- Runs of one escrow -----

  datatype EscrowOp = Allow(denom: Denom) | Forbid(denom: Denom) | Receive(funds: seq<Coin>) | PayOut(amount: Uint128)

  /** One message to the escrow; a refused message is rolled back. */
  function EscrowStep(e: Escrow, op: EscrowOp): Escrow {
    match op
    case Allow(d) => AddAllowed(e, d).GetOr(e)
    case Forbid(d) => Disallow(e, d).GetOr(e)
    case Receive(funds) => DepositAll(e, funds).GetOr(e)
    case PayOut(a) => (match Withdraw(e, a) case Some((e1, _)) => e1 case None => e)
  }

  function EscrowRun(e: Escrow, ops: seq<EscrowOp>): Escrow {
    if ops == [] then e else EscrowStep(EscrowRun(e, ops[..|ops| - 1]), ops[|ops| - 1])
  }

  lemma {:induction false} DepositAllKeepsValid(e: Escrow, funds: seq<Coin>)
    requires EscrowValid(e) && DepositAll(e, funds).Some?
    ensures EscrowValid(DepositAll(e, funds).value)
    ensures DepositAll(e, funds).value.total == e.total + CoinTotal(funds)
  {
    if funds != [] {
      DepositAllKeepsValid(e, funds[..|funds| - 1]);
      DepositKeepsValid(DepositAll(e, funds[..|funds| - 1]).value, funds[|funds| - 1]);
    }
  }

  lemma AllowKeepsValid(e: Escrow, d: Denom)
    requires EscrowValid(e) && AddAllowed(e, d).Some?
    ensures EscrowValid(AddAllowed(e, d).value) && AddAllowed(e, d).value.total == e.total
  {
    SumSet(e.amounts, AmountWeight(), Key(d), Get(e.amounts, Key(d)));
  }

  lemma ForbidKeepsValid(e: Escrow, d: Denom)
    requires EscrowValid(e) && Disallow(e, d).Some?
    ensures EscrowValid(Disallow(e, d).value)
  {
    var list := e.allowed.value;
    WithoutLaw(list, d);
    forall i | 0 <= i < |Without(list, d)| ensures Key(Without(list, d)[i]) in e.amounts {
      assert Without(list, d)[i] in list;
    }
  }

  lemma EscrowStepKeepsValid(e: Escrow, op: EscrowOp)
    requires EscrowValid(e)
    ensures EscrowValid(EscrowStep(e, op))
  {
    match op
    case Allow(d) => if AddAllowed(e, d).Some? { AllowKeepsValid(e, d); }
    case Forbid(d) => if Disallow(e, d).Some? { ForbidKeepsValid(e, d); }
    case Receive(funds) => if DepositAll(e, funds).Some? { DepositAllKeepsValid(e, funds); }
    case PayOut(a) => if Withdraw(e, a).Some? { WithdrawLaw(e, a); }
  }

  /** Every state an escrow can reach, through any messages in any order, has its books in step. */
  lemma {:induction false} EscrowRunValid(first: Option<Denom>, ops: seq<EscrowOp>)
    requires NewEscrow(first).Some?
    ensures EscrowValid(EscrowRun(NewEscrow(first).value, ops))
  {
    if ops == [] {
      var e := Escrow(0, None, map[]);
      assert EscrowValid(e);
      if first.Some? { AllowKeepsValid(e, first.value); }
    } else {
      EscrowRunValid(first, ops[..|ops| - 1]);
      EscrowStepKeepsValid(EscrowRun(NewEscrow(first).value, ops[..|ops| - 1]), ops[|ops| - 1]);
    }
  }
}
