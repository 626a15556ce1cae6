/** The parts of the Solana runtime that both programs rely on: bytes and
    64-bit unsigned integers, account keys with program-derived addresses,
    the lamport ledger, and the all-or-nothing outcome of an instruction. */
module Solana {

  type byte = x: int | 0 <= x < 256

  const U64_MAX: nat := 0xFFFF_FFFF_FFFF_FFFF

  /** Rust's `u64`: every value the programs store or receive is in range, and
      every addition they make is checked against U64_MAX explicitly. */
  type u64 = x: nat | x <= U64_MAX

  datatype Result<+T, +E> = Ok(value: T) | Err(error: E)

  // ---------------------------------------------------------------------------
  // Keys and program-derived addresses
  // ---------------------------------------------------------------------------

  /** One seed of a derivation: a literal byte string, or the 32 bytes of a key
      kept symbolic. */
  datatype Seed = Bytes(bytes: seq<byte>) | KeyOf(key: Key)

  /** An account key. `Keypair` keys belong to wallets (and program ids);
      `ProgramAddress` keys are derived from a program id and a seed list.
      Two keys are equal exactly when they are built from equal parts. The real
      derivation hashes the concatenated seed bytes, so two seed lists that
      concatenate to the same bytes derive the same address there; treating
      the lists structurally is sound here because every address kind the
      programs derive has a fixed byte layout (4 + 32 bytes for a fund, 7 + 32
      + 8 for a request, 5 + 32 for a vault), and the hash is assumed free of
      collisions between different byte strings. */
  datatype Key = Keypair(id: nat) | ProgramAddress(programId: string, seeds: seq<Seed>)

  /** The address a program derives from its id and a seed list, with the
      canonical bump seed implicit. */
  function Derive(programId: string, seeds: seq<Seed>): (k: Key)
    ensures !k.Keypair?
  {
    ProgramAddress(programId, seeds)
  }

  lemma DeriveInjective(p1: string, s1: seq<Seed>, p2: string, s2: seq<Seed>)
    requires Derive(p1, s1) == Derive(p2, s2)
    ensures p1 == p2 && s1 == s2
  {
  }

  // ---------------------------------------------------------------------------
  // Little-endian encoding (`u64::to_le_bytes`)
  // ---------------------------------------------------------------------------

  function Pow256(n: nat): (p: nat)
    ensures p >= 1
  {
    if n == 0 then 1 else 256 * Pow256(n - 1)
  }

  /** The value of a little-endian byte string. */
  function FromLittleEndian(bs: seq<byte>): nat
  {
    if bs == [] then 0 else bs[0] + 256 * FromLittleEndian(bs[1..])
  }

  /** The `width` little-endian bytes of `n`; decoding them gives `n` back. */
  function LittleEndian(n: nat, width: nat): (bs: seq<byte>)
    requires n < Pow256(width)
    ensures |bs| == width
    ensures FromLittleEndian(bs) == n
  {
    if width == 0 then []
    else
      assert n / 256 < Pow256(width - 1);
      [n % 256] + LittleEndian(n / 256, width - 1)
  }

  lemma Pow256Of8()
    ensures Pow256(8) == U64_MAX + 1
  {
    assert Pow256(4) == 0x1_0000_0000;
  }

  /** `n.to_le_bytes()` for a u64: eight bytes that decode back to `n`. */
  function LeBytes(n: u64): (bs: seq<byte>)
    ensures |bs| == 8
    ensures FromLittleEndian(bs) == n
  {
    Pow256Of8();
    LittleEndian(n, 8)
  }

  lemma LeBytesInjective(a: u64, b: u64)
    requires LeBytes(a) == LeBytes(b)
    ensures a == b
  {
  }

  // ---------------------------------------------------------------------------
  // The lamport ledger
  // ---------------------------------------------------------------------------

  /** Lamports held by `k`; an account that is absent holds none. */
  function Balance(m: map<Key, u64>, k: Key): u64
  {
    if k in m then m[k] else 0
  }

  ghost function PickKey(m: map<Key, u64>): (k: Key)
    requires m != map[]
    ensures k in m
  {
    var k :| k in m; k
  }

  /** The sum of all balances. */
  ghost function Total(m: map<Key, u64>): nat
    decreases |m|
  {
    if m == map[] then 0
    else
      var k := PickKey(m);
      assert (m - {k}).Keys == m.Keys - {k};
      m[k] + Total(m - {k})
  }

  /** The native supply fits in a u64. The runtime never creates lamports, so
      every state it reaches keeps this, and no credit can overflow. */
  ghost predicate Bounded(m: map<Key, u64>)
  {
    Total(m) <= U64_MAX
  }

  lemma {:induction false} TotalRemove(m: map<Key, u64>, k: Key)
    requires k in m
    ensures Total(m) == m[k] + Total(m - {k})
    decreases |m|
  {
    var j := PickKey(m);
    assert (m - {j}).Keys == m.Keys - {j};
    if j != k {
      TotalRemove(m - {j}, k);
      assert (m - {k}).Keys == m.Keys - {k};
      TotalRemove(m - {k}, j);
      assert m - {j} - {k} == m - {k} - {j};
    }
  }

  lemma TotalUpdate(m: map<Key, u64>, k: Key, v: u64)
    ensures Total(m[k := v]) + Balance(m, k) == Total(m) + v
  {
    TotalRemove(m[k := v], k);
    if k in m {
      TotalRemove(m, k);
      assert m[k := v] - {k} == m - {k};
    } else {
      assert m[k := v] - {k} == m;
    }
  }

  lemma BalanceAtMostTotal(m: map<Key, u64>, k: Key)
    ensures Balance(m, k) <= Total(m)
  {
    if k in m {
      TotalRemove(m, k);
    }
  }

  /** Takes `amount` lamports out of `from` by lowering its balance in place;
      the caller has checked that the balance covers it. */
  function Debit(m: map<Key, u64>, from: Key, amount: u64): (r: map<Key, u64>)
    requires amount <= Balance(m, from)
    ensures Balance(r, from) == Balance(m, from) - amount
    ensures forall k :: k != from ==> Balance(r, k) == Balance(m, k)
    ensures Total(r) + amount == Total(m)
  {
    TotalUpdate(m, from, Balance(m, from) - amount);
    m[from := Balance(m, from) - amount]
  }

  /** Adds `amount` lamports to `to` by raising its balance in place; it cannot
      overflow while the supply, counting `amount`, fits in a u64. */
  function Credit(m: map<Key, u64>, to: Key, amount: u64): (r: map<Key, u64>)
    requires Total(m) + amount <= U64_MAX
    ensures Balance(r, to) == Balance(m, to) + amount
    ensures forall k :: k != to ==> Balance(r, k) == Balance(m, k)
    ensures Total(r) == Total(m) + amount
  {
    BalanceAtMostTotal(m, to);
    TotalUpdate(m, to, Balance(m, to) + amount);
    m[to := Balance(m, to) + amount]
  }

  /** Moves `amount` lamports from `from` to `to`, as the system program's
      `transfer` does once it has checked the payer's balance. The supply is
      unchanged, so the ledger stays bounded. */
  function Transfer(m: map<Key, u64>, from: Key, to: Key, amount: u64): (r: map<Key, u64>)
    requires Bounded(m)
    requires amount <= Balance(m, from)
    ensures Total(r) == Total(m) && Bounded(r)
    ensures from != to ==> Balance(r, from) == Balance(m, from) - amount
    ensures from != to ==> Balance(r, to) == Balance(m, to) + amount
    ensures from == to ==> Balance(r, from) == Balance(m, from)
    ensures forall k :: k != from && k != to ==> Balance(r, k) == Balance(m, k)
  {
    Credit(Debit(m, from, amount), to, amount)
  }

  // ---------------------------------------------------------------------------
  // All-or-nothing instructions
  // ---------------------------------------------------------------------------

  /** What a transaction leaves behind: on success the new state the
      instruction computed, on failure the state it started from (the runtime
      rolls back every write), and in both cases the instruction's result. */
  ghost predicate Atomic<S, E>(outcome: Result<S, E>, before: S, after: S, r: Result<(), E>)
  {
    match outcome
    case Ok(next) => after == next && r == Ok(())
    case Err(e) => after == before && r == Err(e)
  }
}
