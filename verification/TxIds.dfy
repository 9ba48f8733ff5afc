/** Transaction ids (packages/euclid/src/utils.rs): a readable stamp that ends in a wrapping counter. */
module TxIds {
  import opened Arith
  import opened Types

  /** Everything a transaction id is made of. */
  datatype Stamp = Stamp(sender: User, chainId: string, height: nat, index: nat, nonce: Uint128)

  function Digit(d: nat): char requires d < 10 { '0' + d as char }

  function Decimal(n: nat): (s: string)
    ensures s != [] && forall i | 0 <= i < |s| :: '0' <= s[i] <= '9'
    ensures n >= 10 ==> |s| >= 2
  {
    if n < 10 then [Digit(n)] else Decimal(n / 10) + [Digit(n % 10)]
  }

  function Render(s: Stamp): string {
    s.sender.chain + ":" + s.sender.address + ":" + s.chainId + ":" + Decimal(s.height) + ":" + Decimal(s.index)
    + ":" + Decimal(s.nonce)
  }

  lemma {:induction false} DecimalInjective(n: nat, m: nat)
    requires Decimal(n) == Decimal(m)
    ensures n == m
    decreases n
  {
    if n >= 10 && m >= 10 {
      var a, b := Decimal(n / 10), Decimal(m / 10);
      assert Decimal(n) == a + [Digit(n % 10)] && Decimal(m) == b + [Digit(m % 10)];
      assert Decimal(n)[..|Decimal(n)| - 1] == a && Decimal(m)[..|Decimal(m)| - 1] == b;
      assert Decimal(n)[|Decimal(n)| - 1] == Digit(n % 10) && Decimal(m)[|Decimal(m)| - 1] == Digit(m % 10);
      DecimalInjective(n / 10, m / 10);
    } else if n < 10 && m < 10 {
      assert Decimal(n)[0] == Digit(n) && Decimal(m)[0] == Digit(m);
    }
  }

  /** What follows the last colon is determined by the whole string. */
  lemma AfterLastColon(a: string, x: string, b: string, y: string)
    requires a + ":" + x == b + ":" + y && ':' !in x && ':' !in y
    ensures x == y
  {
    if |a| < |b| {
      Tail(a, x, |b|);
      Tail(b, y, |b|);
    } else if |b| < |a| {
      Tail(b, y, |a|);
      Tail(a, x, |a|);
    } else {
      assert x == (a + ":" + x)[|a| + 1..] && y == (b + ":" + y)[|b| + 1..];
    }
  }

  lemma Tail(a: string, x: string, i: nat)
    requires |a| <= i <= |a| + |x|
    ensures i == |a| ==> (a + ":" + x)[i] == ':'
    ensures i > |a| ==> (a + ":" + x)[i] in x
  {
    if i > |a| { assert (a + ":" + x)[i] == x[i - |a| - 1]; }
  }

  /** Two equal ids carry the same counter value, whoever sent them and whenever. */
  lemma SameIdSameNonce(s: Stamp, t: Stamp)
    requires Render(s) == Render(t)
    ensures s.nonce == t.nonce
  {
    AfterLastColon(
      s.sender.chain + ":" + s.sender.address + ":" + s.chainId + ":" + Decimal(s.height) + ":" + Decimal(s.index),
      Decimal(s.nonce),
      t.sender.chain + ":" + t.sender.address + ":" + t.chainId + ":" + Decimal(t.height) + ":" + Decimal(t.index),
      Decimal(t.nonce));
    DecimalInjective(s.nonce, t.nonce);
  }

  function Join(parts: seq<string>): string {
    if parts == [] then "" else if |parts| == 1 then parts[0] else parts[0] + ":" + Join(parts[1..])
  }

  /** An id lists the sender's chain and address, the chain's own name, the block's height and index and the counter,
      in this order. */
  lemma RenderIsJoined(s: Stamp)
    ensures Render(s)
         == Join([s.sender.chain, s.sender.address, s.chainId, Decimal(s.height), Decimal(s.index), Decimal(s.nonce)])
  {
    hide Decimal;
    SixJoined(s.sender.chain, s.sender.address, s.chainId, Decimal(s.height), Decimal(s.index), Decimal(s.nonce));
  }

  lemma SixJoined(a: string, b: string, c: string, d: string, e: string, f: string)
    ensures a + ":" + b + ":" + c + ":" + d + ":" + e + ":" + f == Join([a, b, c, d, e, f])
  {
    assert Join([d, e, f]) == d + ":" + e + ":" + f by {
      Joined(d, [e, f]);
      Joined(e, [f]);
    }
    assert Join([a, b, c, d, e, f]) == a + ":" + (b + ":" + (c + ":" + Join([d, e, f]))) by {
      hide Join;
      Joined(a, [b, c, d, e, f]);
      Joined(b, [c, d, e, f]);
      Joined(c, [d, e, f]);
      assert [a] + [b, c, d, e, f] == [a, b, c, d, e, f] && [b] + [c, d, e, f] == [b, c, d, e, f];
      assert [c] + [d, e, f] == [c, d, e, f];
    }
  }

  lemma Joined(part: string, rest: seq<string>)
    requires rest != []
    ensures Join([part] + rest) == part + ":" + Join(rest)
  {
    assert ([part] + rest)[1..] == rest;
  }

  /** The counter wraps around at 128 bits. */
  function NextNonce(n: Uint128): Uint128 { if n == U128_MAX then 0 else n + 1 }

  /** The counter's value after k calls on a fresh contract. */
  function NonceAfter(k: nat): Uint128 { if k == 0 then 0 else NextNonce(NonceAfter(k - 1)) }

  lemma {:induction false} NonceAfterIsMod(k: nat)
    ensures NonceAfter(k) == k % (U128_MAX + 1)
  {
    if k > 0 {
      NonceAfterIsMod(k - 1);
      ModStep(k - 1, U128_MAX + 1);
    }
  }

  lemma ModStep(k: nat, n: nat)
    requires n > 0
    ensures (k + 1) % n == if k % n == n - 1 then 0 else k % n + 1
  {
    DivBounds(k, n);
    var q := if k % n == n - 1 then k / n + 1 else k / n;
    assert n * (k / n + 1) == n * (k / n) + n;
    DivUnique(k + 1, n, q);
  }

  lemma ModGap(i: nat, j: nat, n: nat)
    requires i < j && 0 < n
    ensures j - i < n ==> i % n != j % n
    ensures j - i == n ==> i % n == j % n
  {
    var a, b := i / n, j / n;
    if j - i == n {
      DivUnique(j, n, a + 1);
    } else if j - i < n && i % n == j % n {
      assert j - i == n * b - n * a;
      MulCancelStrict(n, a, b);
      MulLe(a + 1, b, n);
    }
  }

  /** The ids of calls i and j differ whenever fewer than 2^128 calls lie between them, whatever the senders
      and blocks; and after exactly 2^128 more calls the same stamp comes round again. */
  lemma IdsDistinct(i: nat, j: nat, s: Stamp, t: Stamp)
    requires i < j && s.nonce == NonceAfter(i) && t.nonce == NonceAfter(j)
    ensures j - i <= U128_MAX ==> Render(s) != Render(t)
    ensures j - i == U128_MAX + 1 && t == s.(nonce := t.nonce) ==> Render(s) == Render(t)
  {
    NonceAfterIsMod(i);
    NonceAfterIsMod(j);
    ModGap(i, j, U128_MAX + 1);
    if Render(s) == Render(t) { SameIdSameNonce(s, t); }
  }

  /** The stored counter of one contract. */
  class TxCounter {
    var stored: Option<Uint128>

    constructor ()
      ensures stored == None
    {
      stored := None;
    }

    function Nonce(): Uint128 reads this { stored.GetOr(0) }

    method GenerateTx(sender: User, chainId: string, height: nat, index: nat) returns (id: string)
      modifies this
      ensures stored == Some(NextNonce(old(Nonce())))
      ensures id == Render(Stamp(sender, chainId, height, index, Nonce()))
    {
      var nonce := stored.GetOr(0);
      nonce := if nonce == U128_MAX then 0 else nonce + 1;
      stored := Some(nonce);
      id := Render(Stamp(sender, chainId, height, index, nonce));
    }
  }
}
