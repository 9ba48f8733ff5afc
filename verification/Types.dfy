/** Identifiers and message parts shared by the contracts. */
module Types {
  import opened Arith

  type Token = string
  type ChainUid = string
  type Address = string

  /** The chain id of the hub itself. */
  const VSL: ChainUid := "vsl"

  datatype User = User(chain: ChainUid, address: Address)

  /** The account a contract at `a` on the hub holds in the virtual-balance ledger. */
  function HubAccount(a: Address): User { User(VSL, a) }

  /** A receiver with an optional cap on what its chain may release. */
  datatype Receiver = Receiver(user: User, limit: Option<Uint128>)

  function Limit(r: Receiver): Uint128 { r.limit.GetOr(U128_MAX) }

  datatype Pair = Pair(token1: Token, token2: Token) {
    /** The key under which the router and the factories register a pair. */
    function Tuple(): Pair { if StrLe(token1, token2) then this else Pair(token2, token1) }

    predicate Sorted() { token1 != token2 && StrLe(token1, token2) }

    function Other(t: Token): Token { if t == token1 then token2 else token1 }

    predicate Has(t: Token) { t == token1 || t == token2 }
  }

  /** Byte-wise string order. */
  predicate StrLe(a: string, b: string) {
    a == [] || (b != [] && (a[0] < b[0] || (a[0] == b[0] && StrLe(a[1..], b[1..]))))
  }

  function NewPair(a: Token, b: Token): Option<Pair> {
    if a == b then None else Some(Pair(a, b).Tuple())
  }

  /** A choice of chains to sum over. */
  datatype Scope = Every | Among(chains: set<ChainUid>) {
    predicate Has(c: ChainUid) { Every? || c in chains }
  }

  /** A map read with a missing entry counting as zero. */
  function Get<K>(m: map<K, Uint128>, k: K): Uint128 {
    if k in m then m[k] else 0
  }

  /** Adds to a map entry that may be missing; fails on overflow. */
  function Credit<K>(m: map<K, Uint128>, k: K, amount: Uint128): Option<map<K, Uint128>> {
    var x :- CheckedAdd(Get(m, k), amount);
    Some(m[k := x])
  }

  /** Subtracts from a map entry that may be missing; fails on underflow. */
  function Debit<K>(m: map<K, Uint128>, k: K, amount: Uint128): Option<map<K, Uint128>> {
    var x :- CheckedSub(Get(m, k), amount);
    Some(m[k := x])
  }
}
