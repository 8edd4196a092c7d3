/** Bytes seen as eight bits, without leaning on integer-to-bit-vector conversions. */
module BitBytes {
  import opened Bytes

  function Bit(n: nat): bv8 {
    if n % 2 == 1 then 1 else 0
  }

  /** The eight bits of a byte. */
  function Octet(b: byte): bv8 {
    Bit(b) | (Bit(b / 2) << 1) | (Bit(b / 4) << 2) | (Bit(b / 8) << 3) |
    (Bit(b / 16) << 4) | (Bit(b / 32) << 5) | (Bit(b / 64) << 6) | (Bit(b / 128) << 7)
  }

  function Weight(o: bv8, mask: bv8, weight: nat): nat {
    if o & mask == mask then weight else 0
  }

  lemma OctetWeights(b: byte)
    ensures Weight(Octet(b), 1, 1) == b % 2
    ensures Weight(Octet(b), 2, 2) == 2 * (b / 2 % 2)
    ensures Weight(Octet(b), 4, 4) == 4 * (b / 4 % 2)
    ensures Weight(Octet(b), 8, 8) == 8 * (b / 8 % 2)
    ensures Weight(Octet(b), 16, 16) == 16 * (b / 16 % 2)
    ensures Weight(Octet(b), 32, 32) == 32 * (b / 32 % 2)
    ensures Weight(Octet(b), 64, 64) == 64 * (b / 64 % 2)
    ensures Weight(Octet(b), 128, 128) == 128 * (b / 128 % 2)
  {
  }

  lemma Digits(b: byte)
    ensures b == b % 2 + 2 * (b / 2 % 2) + 4 * (b / 4 % 2) + 8 * (b / 8 % 2) + 16 * (b / 16 % 2)
                 + 32 * (b / 32 % 2) + 64 * (b / 64 % 2) + 128 * (b / 128 % 2)
  {
    assert b / 2 / 2 == b / 4;
    assert b / 4 / 2 == b / 8;
    assert b / 8 / 2 == b / 16;
    assert b / 16 / 2 == b / 32;
    assert b / 32 / 2 == b / 64;
    assert b / 64 / 2 == b / 128;
  }

  function Value(o: bv8): nat {
    Weight(o, 1, 1) + Weight(o, 2, 2) + Weight(o, 4, 4) + Weight(o, 8, 8) + Weight(o, 16, 16)
    + Weight(o, 32, 32) + Weight(o, 64, 64) + Weight(o, 128, 128)
  }

  lemma ValueOfOctet(b: byte)
    ensures Value(Octet(b)) == b
  {
    hide Octet;
    hide Weight;
    OctetWeights(b);
    Digits(b);
  }

  lemma ValueIsInt(o: bv8)
    ensures Value(o) == o as int
  {
  }

  lemma OctetOf(o: bv8)
    ensures Octet(o as int) == o
  {
    hide Octet, Value;
    ValueOfOctet(o as int);
    ValueIsInt(Octet(o as int));
  }

  function Pow2(n: nat): nat {
    if n == 0 then 1 else 2 * Pow2(n - 1)
  }

  /** Exclusive or of two n-bit numbers, lowest bit first. */
  function XorBits(n: nat, a: nat, b: nat): (r: nat)
    ensures r < Pow2(n)
  {
    if n == 0 then 0 else (a + b) % 2 + 2 * XorBits(n - 1, a / 2, b / 2)
  }

  lemma LowestBitTwice(a: nat, b: nat, rest: nat)
    ensures ((a + b) % 2 + 2 * rest) / 2 == rest
    ensures ((a + b) % 2 + 2 * rest + b) % 2 == a % 2
  {
    var i, j := a / 2, b / 2;
    assert a == 2 * i + a % 2 && b == 2 * j + b % 2;
    if a % 2 == b % 2 {
      assert a + b == 2 * (i + j + a % 2);
    } else {
      assert a + b == 2 * (i + j) + 1;
    }
  }

  lemma {:induction false} XorBitsTwice(n: nat, a: nat, b: nat)
    requires a < Pow2(n)
    ensures XorBits(n, XorBits(n, a, b), b) == a
  {
    if n == 0 {
    } else {
      var rest := XorBits(n - 1, a / 2, b / 2);
      var x := XorBits(n, a, b);
      XorBitsTwice(n - 1, a / 2, b / 2);
      assert (x + b) % 2 == a % 2 && x / 2 == rest by {
        LowestBitTwice(a, b, rest);
      }
    }
  }

  lemma {:induction false} XorBitsCommutes(n: nat, a: nat, b: nat)
    ensures XorBits(n, a, b) == XorBits(n, b, a)
  {
    if n == 0 {
    } else {
      XorBitsCommutes(n - 1, a / 2, b / 2);
    }
  }

  function Xor(a: byte, b: byte): byte {
    assert Pow2(8) == 2 * 2 * 2 * 2 * Pow2(4);
    XorBits(8, a, b)
  }

  /** Applying the same key byte twice gives the byte back. */
  lemma XorTwice(a: byte, b: byte)
    ensures Xor(Xor(a, b), b) == a
  {
    assert Pow2(8) == 2 * 2 * 2 * 2 * Pow2(4);
    XorBitsTwice(8, a, b);
  }

  /** And with the text instead of the key byte it gives the key byte. */
  lemma XorWithText(a: byte, b: byte)
    ensures Xor(a, Xor(a, b)) == b
  {
    hide XorBits;
    XorBitsCommutes(8, a, b);
    XorBitsCommutes(8, a, Xor(a, b));
    XorTwice(b, a);
  }
}
