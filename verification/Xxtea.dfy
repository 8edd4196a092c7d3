/** The XXTEA block function on two words, 32 rounds, and its inverse. */
module Xxtea {
  import opened Bytes

  const DELTA: uint32 := 0x9E3779B9
  const ROUNDS := 32

  datatype Block = Block(v0: uint32, v1: uint32)

  type Key = k: seq<uint32> | |k| == 4 witness [0, 0, 0, 0]

  /** uint32_t addition and subtraction. */
  function Plus(a: uint32, b: uint32): uint32 {
    (a + b) % TWO_32
  }

  function Minus(a: uint32, b: uint32): uint32 {
    (a - b) % TWO_32
  }

  lemma PlusMinus(a: uint32, m: uint32)
    ensures Minus(Plus(a, m), m) == a
    ensures Plus(Minus(a, m), m) == a
  {
  }

  lemma Remainder(n: nat, q: nat, r: uint32)
    requires n == q * TWO_32 + r
    ensures n % TWO_32 == r
  {
  }

  /** Adding modulo 2^32 step by step is adding modulo 2^32. */
  lemma PlusMod(a: nat, m: uint32)
    ensures Plus(a % TWO_32, m) == (a + m) % TWO_32
  {
    var q, x := a / TWO_32, a % TWO_32 + m;
    if x < TWO_32 {
      Remainder(x, 0, x);
      Remainder(a + m, q, x);
    } else {
      Remainder(x, 1, x - TWO_32);
      Remainder(a + m, q + 1, x - TWO_32);
    }
  }

  /** The mixing expression of the C loop on machine words. */
  function MxWords(y: bv32, z: bv32, sum: bv32, k: bv32): bv32 {
    (((z >> 5) ^ (y << 2)) + ((y >> 3) ^ (z << 4))) ^ ((sum ^ y) + (k ^ z))
  }

  function Mx(y: uint32, z: uint32, sum: uint32, k: uint32): uint32 {
    MxWords(y as bv32, z as bv32, sum as bv32, k as bv32) as int
  }

  /** The key word for word p of the block: (p & 3) ^ e with e = (sum >> 2) & 3. */
  function KeyWord(key: Key, p: nat, sum: uint32): uint32
    requires p < 2
  {
    var e := sum / 4 % 4;
    key[if p == 0 then e else if e % 2 == 0 then e + 1 else e - 1]
  }

  /** One word mixed with its neighbours, and the way back. */
  function Mixed(v: uint32, y: uint32, z: uint32, sum: uint32, k: uint32): uint32 {
    Plus(v, Mx(y, z, sum, k))
  }

  function Unmixed(v: uint32, y: uint32, z: uint32, sum: uint32, k: uint32): uint32 {
    Minus(v, Mx(y, z, sum, k))
  }

  /** `sum` in round n. */
  function Sum(n: nat): uint32 {
    if n == 0 then 0 else Plus(Sum(n - 1), DELTA)
  }

  function Cycle(b: Block, key: Key, sum: uint32): Block {
    var v0 := Mixed(b.v0, b.v1, b.v1, sum, KeyWord(key, 0, sum));
    Block(v0, Mixed(b.v1, v0, v0, sum, KeyWord(key, 1, sum)))
  }

  function Uncycle(b: Block, key: Key, sum: uint32): Block {
    var v1 := Unmixed(b.v1, b.v0, b.v0, sum, KeyWord(key, 1, sum));
    Block(Unmixed(b.v0, v1, v1, sum, KeyWord(key, 0, sum)), v1)
  }

  function Rounds(n: nat, b: Block, key: Key): Block {
    if n == 0 then b else Cycle(Rounds(n - 1, b, key), key, Sum(n))
  }

  function Unrounds(n: nat, b: Block, key: Key): Block {
    if n == 0 then b else Unrounds(n - 1, Uncycle(b, key, Sum(n)), key)
  }

  function Encrypt(b: Block, key: Key): Block {
    Rounds(ROUNDS, b, key)
  }

  /** The in-place C routine: an outer loop over rounds, an inner loop over all words but the last. */
  method XxteaEncryptBlock(v: array<uint32>, key: Key)
    requires v.Length == 2
    modifies v
    ensures Block(v[0], v[1]) == Encrypt(old(Block(v[0], v[1])), key)
  {
    hide Mixed;
    hide KeyWord;
    hide Plus;
    var sum: uint32 := 0;
    var rounds := 0;
    var z := v[1];
    while rounds < ROUNDS
      invariant 0 <= rounds <= ROUNDS
      invariant sum == Sum(rounds) && z == v[1]
      invariant Block(v[0], v[1]) == Rounds(rounds, old(Block(v[0], v[1])), key)
    {
      sum := Plus(sum, DELTA);
      var y := v[1];
      z := Mixed(v[0], y, z, sum, KeyWord(key, 0, sum));
      v[0] := z;
      y := v[0];
      z := Mixed(v[1], y, z, sum, KeyWord(key, 1, sum));
      v[1] := z;
      rounds := rounds + 1;
    }
  }

  lemma UnmixedMixed(v: uint32, y: uint32, z: uint32, sum: uint32, k: uint32)
    ensures Unmixed(Mixed(v, y, z, sum, k), y, z, sum, k) == v
    ensures Mixed(Unmixed(v, y, z, sum, k), y, z, sum, k) == v
  {
    hide Mx;
    hide Plus;
    hide Minus;
    PlusMinus(v, Mx(y, z, sum, k));
  }

  lemma UncycleCycle(b: Block, key: Key, sum: uint32)
    ensures Uncycle(Cycle(b, key, sum), key, sum) == b
    ensures Cycle(Uncycle(b, key, sum), key, sum) == b
  {
    hide Mixed;
    hide Unmixed;
    hide KeyWord;
    var k0, k1 := KeyWord(key, 0, sum), KeyWord(key, 1, sum);
    var c, u := Cycle(b, key, sum), Uncycle(b, key, sum);
    UnmixedMixed(b.v0, b.v1, b.v1, sum, k0);
    UnmixedMixed(b.v1, c.v0, c.v0, sum, k1);
    UnmixedMixed(b.v1, b.v0, b.v0, sum, k1);
    UnmixedMixed(b.v0, u.v1, u.v1, sum, k0);
  }

  /** For every key and every number of rounds the block function is a bijection. */
  lemma {:induction false} RoundsAreInvertible(n: nat, b: Block, key: Key)
    ensures Unrounds(n, Rounds(n, b, key), key) == b
    ensures Rounds(n, Unrounds(n, b, key), key) == b
  {
    hide Cycle;
    hide Uncycle;
    if n == 0 {
    } else {
      UncycleCycle(Rounds(n - 1, b, key), key, Sum(n));
      UncycleCycle(b, key, Sum(n));
      RoundsAreInvertible(n - 1, b, key);
      RoundsAreInvertible(n - 1, Uncycle(b, key, Sum(n)), key);
    }
  }

  /** [ctr, ~ctr], the block a counter is turned into. */
  function CounterBlock(ctr: uint32): Block {
    Block(ctr, TWO_32 - 1 - ctr)
  }

  /** Hence different counters always give different keystream blocks. */
  lemma KeystreamBlocksDiffer(a: uint32, b: uint32, key: Key)
    requires a != b
    ensures Encrypt(CounterBlock(a), key) != Encrypt(CounterBlock(b), key)
  {
    hide Rounds;
    hide Unrounds;
    RoundsAreInvertible(ROUNDS, CounterBlock(a), key);
    RoundsAreInvertible(ROUNDS, CounterBlock(b), key);
  }
}
