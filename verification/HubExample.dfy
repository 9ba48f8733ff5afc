/** A worked run of the hub, so that the laws are seen to speak of something: a pool is created and funded,
    a swap goes through it, and the payout leaves in a release packet. */
module HubExample {
  import opened Arith
  import opened Types
  import opened PoolMath
  import opened VlpModel
  import opened ReleaseModel
  import opened HubModel
  import opened HubFlow

  const USER := User("a", "u")
  const PAIR := Pair("x", "y")
  const TREASURY := Fee(10, 10, HubAccount("admin"))

  function Pool(totalLp: Uint128, x: Uint128, y: Uint128, lpFees: map<Token, Uint128>,
                euclidFees: map<Token, Uint128>): Vlp
  {
    Vlp(PAIR, TREASURY, totalLp, map["x" := x, "y" := y], map["a" := totalLp], lpFees, euclidFees)
  }

  /** A hub with this one pool, its account in the ledger and the chain's two escrow entries. */
  function WithPool(pool: Vlp, balances: Balances, escrows: Escrows): Hub {
    Hub(balances, map[], escrows, map["v" := pool], map[PAIR := "v"], {"a"})
  }

  function Funded(): Hub {
    WithPool(Pool(999_000, 1_000_000, 1_000_000, map[], map[]),
             map[BalanceKey(HubAccount("v"), "x") := 1_000_000, BalanceKey(HubAccount("v"), "y") := 1_000_000],
             map[EscrowKey("x", "a") := 1_000_000, EscrowKey("y", "a") := 1_000_000])
  }

  lemma PairIsSorted()
    ensures PAIR.Sorted() && PAIR.Tuple() == PAIR && NewPair("x", "y") == Some(PAIR)
  {
    assert StrLe("x", "y");
  }

  lemma CreateRuns()
    ensures Apply(EmptyHub({"a"}), CreatePool(USER, PAIR, "v", "admin"))
            == Some(TxResult(WithPool(Pool(0, 0, 0, map[], map[]), map[], map[]), OtherAck, []))
  {
    PairIsSorted();
  }

  lemma RootIs(root: nat, n: nat)
    requires root * root <= n * n < (root + 1) * (root + 1)
    ensures root == n
  {
    SquareOrder(root, n);
    SquareOrder(n, root);
  }

  lemma FirstMint()
    ensures CalculateLpAllocation(1_000_000, 1_000_000, 0, 0, 0) == Some(999_000)
  {
    hide CalculateLpAllocation;
    FirstAllocation(1_000_000, 1_000_000, 0, 0);
    RootIs(CalculateLpAllocation(1_000_000, 1_000_000, 0, 0, 0).value + MINIMUM_LIQUIDITY, 1_000_000);
  }

  lemma PoolAddRuns()
    ensures VlpModel.AddLiquidity(Pool(0, 0, 0, map[], map[]), "a", 1_000_000, 1_000_000, 1)
            == Some((Pool(999_000, 1_000_000, 1_000_000, map[], map[]), 999_000))
  {
    hide CalculateLpAllocation, StrLe;
    FirstMint();
    var v, w := Pool(0, 0, 0, map[], map[]), Pool(999_000, 1_000_000, 1_000_000, map[], map[]);
    assert AddQuote(v, 1_000_000, 1_000_000, 1) == Some(999_000);
    assert v.chainLp["a" := 999_000] == w.chainLp;
    assert v.reserves["x" := 1_000_000]["y" := 1_000_000] == w.reserves;
    assert BookAdd(v, "a", 1_000_000, 1_000_000, 999_000) == Some(w);
  }

  lemma AddRuns()
    ensures Apply(WithPool(Pool(0, 0, 0, map[], map[]), map[], map[]),
                  AddLiquidity(USER, PAIR, 1_000_000, 1_000_000, 1))
            == Some(TxResult(Funded(), AddAck(999_000, "v"), []))
  {
    hide VlpModel.AddLiquidity, StrLe;
    PairIsSorted();
    PoolAddRuns();
    var h := WithPool(Pool(0, 0, 0, map[], map[]), map[], map[]);
    var h1 := h.(balances := Funded().balances, escrows := Funded().escrows);
    assert FundPool(h, "v", PAIR, "a", 1_000_000, 1_000_000) == Some(h1) by {
      var m: Balances := map[];
      assert m[BalanceKey(HubAccount("v"), "x") := 1_000_000][BalanceKey(HubAccount("v"), "y") := 1_000_000]
          == h1.balances;
      var e: Escrows := map[];
      assert e[EscrowKey("x", "a") := 1_000_000][EscrowKey("y", "a") := 1_000_000] == h1.escrows;
    }
    assert h1.vlps["v" := Funded().vlps["v"]] == Funded().vlps;
  }

  /** A later add of 10,000 each mints its share, 9,990, in full. */
  lemma LaterAddRuns()
    ensures var r := VlpModel.AddLiquidity(Funded().vlps["v"], "a", 10_000, 10_000, 1);
            r.Some? && r.value.1 == 9_990 && r.value.0.totalLp == 1_008_990
  {
    var v := Funded().vlps["v"];
    assert CalculateLpAllocation(10_000, 10_000, 1_000_000, 1_000_000, 999_000) == Some(9_990);
    assert AddQuote(v, 10_000, 10_000, 1) == Some(9_990);
  }

  /** With rates of 30 basis points for LP and 10 for the treasury, 10,000 in leave 30 and 10 behind. */
  lemma TwoRatesRun()
    ensures var v := Funded().vlps["v"].(fee := Fee(30, 10, HubAccount("admin")));
            var r := LocalSwap(v, "x", 10_000, 1_010_000);
            && r.Some? && r.value.euclidFee == 10 && Get(r.value.vlp.lpFees, "x") == 30 && r.value.amountOut == 9_862
            && Get(r.value.vlp.reserves, "x") == 1_009_990
  {
    var v := Funded().vlps["v"].(fee := Fee(30, 10, HubAccount("admin")));
    assert SwapQuote(v, "x", 10_000) == Some(Quote("y", 9_862, 30, 10));
  }

  /** 1000 of x: one unit each of LP and treasury fee, and 998 of y out. */
  function Traded(): Vlp { Pool(999_000, 1_000_999, 999_002, map["x" := 1], map["x" := 1]) }

  lemma PoolSwapRuns()
    ensures LocalSwap(Funded().vlps["v"], "x", 1000, 1_001_000) == Some(Swapped(Traded(), "y", 998, 1))
  {
    var v := Funded().vlps["v"];
    assert SwapQuote(v, "x", 1000) == Some(Quote("y", 998, 1, 1));
    assert v.reserves["x" := 1_000_999]["y" := 999_002] == Traded().reserves;
    assert v.lpFees["x" := 1] == Traded().lpFees && v.euclidFees["x" := 1] == Traded().euclidFees;
  }

  const ROUTE := [SwapPair("x", "y", false)]
  const RECEIVERS := [Receiver(User("a", "w"), None)]

  lemma RouteRuns()
    ensures Route(Funded(), "x", "y", ROUTE) == Some([Hop("v", false)])
  {
    PairIsSorted();
    assert ROUTE[1..] == [];
    assert ValidateSwapPairs(Funded().vlpOf, []) == Some([]);
    assert ValidateSwapPairs(Funded().vlpOf, ROUTE) == Some([Hop("v", false)] + []);
    assert [Hop("v", false)] + [] == [Hop("v", false)];
  }

  /** A release to the one receiver of an amount that account and escrow both hold. */
  lemma ReleaseRuns(h: Hub, tok: Token, amount: Uint128)
    requires "a" in h.chains && 0 < amount <= Balance(h, USER, tok) && amount <= Get(h.escrows, EscrowKey(tok, "a"))
    ensures ReleaseEscrow(h, USER, tok, Some(amount), RECEIVERS).Some?
    ensures var (h1, out) := ReleaseEscrow(h, USER, tok, Some(amount), RECEIVERS).value;
            && out == [Release("a", USER, tok, amount, "w")] && h1.chains == h.chains
            && Balance(h1, USER, tok) == Balance(h, USER, tok) - amount
            && (forall t | t != tok :: Balance(h1, USER, t) == Balance(h, USER, t)
                                       && Get(h1.escrows, EscrowKey(t, "a")) == Get(h.escrows, EscrowKey(t, "a")))
  {
    var e := Lower(h.escrows, tok, "a", amount);
    assert RECEIVERS[1..] == [];
    assert ReleaseLoop(e, h.chains, tok, 0, []) == Some(Drawn(e, [], 0));
    var draws := [Draw(amount, RECEIVERS[0])];
    assert draws + [] == draws && draws[..0] == [];
    assert ReleaseLoop(h.escrows, h.chains, tok, amount, RECEIVERS) == Some(Drawn(e, draws, 0));
    assert DrawTotal(draws) == amount by { ConsTotal(draws[0], []); }
  }

  lemma HopRuns(h: Hub)
    requires h.vlps == Funded().vlps
    requires Balance(h, HubAccount("v"), "x") == 1_001_000 && Balance(h, HubAccount("v"), "y") == 1_000_000
    requires Balance(h, HubAccount("admin"), "x") == 0 && Balance(h, USER, "y") == 0
    ensures var r := ExecuteSwap(h, USER, Hop("v", false), "x", 1000, 998, []);
            && r.Some? && r.value.assetOut == "y" && r.value.amountOut == 998
            && r.value.hub == h.(balances := r.value.hub.balances, vlps := r.value.hub.vlps)
            && Balance(r.value.hub, USER, "y") == 998
  {
    hide LocalSwap;
    PoolSwapRuns();
  }

  /** The swap pays out 998 and sends them back to the sender's chain in one packet. */
  lemma SwapRuns()
    ensures var r := Apply(Funded(), HubTx.Swap(USER, "x", 1000, "y", 998, ROUTE, RECEIVERS));
            r.Some? && r.value.ack == SwapAck(998) && r.value.releases == [Release("a", USER, "y", 998, "w")]
  {
    hide ExecuteSwap, ReleaseEscrow, Route;
    RouteRuns();
    var h := Funded();
    var h1 := CreditEscrow(h, "x", "a", 1000).value;
    var h2 := Mint(h1, HubAccount("v"), "x", 1000).value;
    HopRuns(h2);
    assert [Hop("v", false)][1..] == [];
    ReleaseRuns(ExecuteSwap(h2, USER, Hop("v", false), "x", 1000, 998, []).value.hub, "y", 998);
  }

  // ----- A removal that names its pair in reverse -----

  /** The user owns the whole pool of 1000 x and 2000 y, and 100 x besides. */
  function Saved(): Hub {
    WithPool(Pool(1000, 1000, 2000, map[], map[]),
             map[BalanceKey(HubAccount("v"), "x") := 1000, BalanceKey(HubAccount("v"), "y") := 2000,
                 BalanceKey(USER, "x") := 100],
             map[EscrowKey("x", "a") := 1100, EscrowKey("y", "a") := 2000])
  }

  lemma PoolRemoveRuns()
    ensures var r := VlpModel.RemoveLiquidity(Saved().vlps["v"], "a", 100);
            r.Some? && r.value.paid1 == 100 && r.value.paid2 == 200
  {
    assert RemovePayout(1000, 100, 1000) == Some(100);
    assert RemovePayout(2000, 100, 1000) == Some(200);
  }

  lemma PayRuns(h: Hub)
    requires h.balances == Saved().balances
    ensures var r := PayBoth(h, "v", PAIR, USER, 100, 200);
            && r.Some? && Balance(r.value, USER, "x") == 200 && Balance(r.value, USER, "y") == 200
            && r.value == h.(balances := r.value.balances)
  {
  }

  /** Removing a tenth of the pool under the pair written in reverse pays 100 x and 200 y into the account, then
      releases 200 x and 100 y out of it: the 100 x the user had before are gone. */
  lemma ReversedRemovalRuns()
    ensures var r := Apply(Saved(), HubTx.RemoveLiquidity(USER, Pair("y", "x"), 100, RECEIVERS));
            r.Some? && Balance(Saved(), USER, "x") == 100 && Balance(r.value.hub, USER, "x") == 0
  {
    hide VlpModel.RemoveLiquidity, PayBoth, ReleaseEscrow, StrLe;
    PoolRemoveRuns();
    assert Pair("y", "x").Tuple() == PAIR by { NotSorted(); }
    var r := VlpModel.RemoveLiquidity(Saved().vlps["v"], "a", 100).value;
    var h0 := Saved().(vlps := Saved().vlps["v" := r.vlp]);
    PayRuns(h0);
    var h1 := PayBoth(h0, "v", PAIR, USER, 100, 200).value;
    ReleaseRuns(h1, "y", 100);
    var h2 := ReleaseEscrow(h1, USER, "y", Some(100), RECEIVERS).value.0;
    assert Get(h2.escrows, EscrowKey("x", "a")) == 1100;
    ReleaseRuns(h2, "x", 200);
  }

  lemma NotSorted()
    ensures Pair("y", "x").Tuple() == PAIR
  {
    assert !StrLe("y", "x");
  }
}
