/** The CRC both ends compute over a firmware image: crc16_ccitt. */
module Crc16 {
  import opened Bytes
  import opened BitBytes

  function Word(b: byte): bv16 {
    Octet(b) as bv16
  }

  lemma OctetFits(o: bv8)
    ensures (o as bv16) & 0xff == o as bv16
  {
  }

  lemma WordFits(b: byte)
    ensures Word(b) & 0xff == Word(b)
  {
    hide Octet;
    OctetFits(Octet(b));
  }

  lemma WideningInjective(x: bv8, y: bv8)
    requires x as bv16 == y as bv16
    ensures x == y
  {
  }

  lemma WordInjective(a: byte, b: byte)
    requires Word(a) == Word(b)
    ensures a == b
  {
    hide Octet;
    hide Value;
    WideningInjective(Octet(a), Octet(b));
    ValueOfOctet(a);
    ValueOfOctet(b);
  }

  /** One byte of the table-free form: the C function's loop body, `e` and `f` kept to 8 bits. */
  function ByteStep(seed: bv16, b: bv16): bv16 {
    var e := (seed & 0xff) ^ b;
    var f := (e ^ (e << 4)) & 0xff;
    Spread(seed >> 8, f)
  }

  function Spread(high: bv16, f: bv16): bv16 {
    high ^ (f << 8) ^ (f << 3) ^ (f >> 4)
  }

  /** One clock of the 16-bit shift register, polynomial 0x1021 reflected. */
  function BitStep(crc: bv16): bv16 {
    if crc & 1 == 1 then (crc >> 1) ^ 0x8408 else crc >> 1
  }

  function FourBits(crc: bv16): bv16 {
    BitStep(BitStep(BitStep(BitStep(crc))))
  }

  /** Eight clocks with one byte fed in, least significant bit first. */
  function Feed(crc: bv16, b: byte): bv16 {
    FourBits(FourBits(crc ^ Word(b)))
  }

  /** The reference definition: the bit-serial register clocked over a byte string. */
  function Register(seed: bv16, s: seq<byte>): bv16 {
    if s == [] then seed else Feed(Register(seed, s[..|s| - 1]), s[|s| - 1])
  }

  /** The value carried in FW_END. */
  function Crc(s: seq<byte>): uint16 {
    Register(0, s) as int
  }

  // ----- the byte-wise form equals eight clocks -----

  // The same clocks written without a branch, one, two and four at a time.
  function Clock1(x: bv16): bv16 {
    (x >> 1) ^ ((x & 1) << 15) ^ ((x & 1) << 10) ^ ((x & 1) << 3)
  }

  function Clock2(x: bv16): bv16 {
    (x >> 2) ^ ((x & 3) << 14) ^ ((x & 3) << 9) ^ ((x & 3) << 2)
  }

  function Clock4(x: bv16): bv16 {
    (x >> 4) ^ ((x & 0xf) << 12) ^ ((x & 0xf) << 7) ^ (x & 0xf)
  }

  function Clock8(x: bv16): bv16 {
    Spread(x >> 8, (x ^ (x << 4)) & 0xff)
  }

  lemma BitStepIsClock1(x: bv16)
    ensures BitStep(x) == Clock1(x)
  {
    assert x & 1 == 1 || x & 1 == 0;
    if x & 1 == 1 {
      assert Clock1(x) == (x >> 1) ^ (1 << 15) ^ (1 << 10) ^ (1 << 3);
    } else {
      assert Clock1(x) == (x >> 1) ^ (0 << 15) ^ (0 << 10) ^ (0 << 3);
    }
  }

  lemma TwoClocks(x: bv16)
    ensures Clock1(Clock1(x)) == Clock2(x)
  {
  }

  lemma FourClocks(x: bv16)
    ensures Clock2(Clock2(x)) == Clock4(x)
  {
  }

  lemma EightClocks(x: bv16)
    ensures Clock4(Clock4(x)) == Clock8(x)
  {
  }

  lemma FourBitsIsClock4(x: bv16)
    ensures FourBits(x) == Clock4(x)
  {
    var x1 := BitStep(x);
    var x2 := BitStep(x1);
    BitStepIsClock1(x);
    BitStepIsClock1(x1);
    BitStepIsClock1(x2);
    BitStepIsClock1(BitStep(x2));
    TwoClocks(x);
    TwoClocks(x2);
    FourClocks(x);
  }

  lemma LowByte(seed: bv16, b: bv16)
    requires b & 0xff == b
    ensures (((seed & 0xff) ^ b) ^ (((seed & 0xff) ^ b) << 4)) & 0xff ==
            ((seed ^ b) ^ ((seed ^ b) << 4)) & 0xff
    ensures seed >> 8 == (seed ^ b) >> 8
  {
  }

  lemma ByteStepIsClock8(seed: bv16, b: bv16)
    requires b & 0xff == b
    ensures ByteStep(seed, b) == Clock8(seed ^ b)
  {
    hide Spread;
    LowByte(seed, b);
  }

  /** The fast form refines the shift register, one byte at a time. */
  lemma ByteStepIsFeed(seed: bv16, b: byte)
    ensures ByteStep(seed, Word(b)) == Feed(seed, b)
    ensures Feed(seed, b) == Clock8(seed ^ Word(b))
  {
    hide BitStep;
    hide ByteStep;
    hide FourBits;
    hide Clock4;
    hide Clock8;
    hide Word;
    var x := seed ^ Word(b);
    WordFits(b);
    ByteStepIsClock8(seed, Word(b));
    FourBitsIsClock4(x);
    FourBitsIsClock4(FourBits(x));
    EightClocks(x);
  }

  /** crc16_ccitt, with the running seed of the Zephyr form. */
  method Crc16Ccitt(start: bv16, data: seq<byte>) returns (seed: bv16)
    ensures seed == Register(start, data)
  {
    hide Feed;
    hide ByteStep;
    hide Word;
    seed := start;
    var i := 0;
    while i < |data|
      invariant 0 <= i <= |data|
      invariant seed == Register(start, data[..i])
    {
      ByteStepIsFeed(seed, data[i]);
      seed := ByteStep(seed, Word(data[i]));
      assert data[..i + 1][..i] == data[..i];
      i := i + 1;
    }
    assert data[..i] == data;
  }

  /** Carrying the seed from chunk to chunk computes the CRC of the concatenation. */
  lemma {:induction false} RegisterConcat(seed: bv16, a: seq<byte>, b: seq<byte>)
    ensures Register(seed, a + b) == Register(Register(seed, a), b)
  {
    hide Feed;
    if b == [] {
      assert a + b == a;
    } else {
      var last := |b| - 1;
      assert (a + b)[..|a + b| - 1] == a + b[..last];
      RegisterConcat(seed, a, b[..last]);
    }
  }

  // ----- what a matching CRC rules out -----

  lemma Clock8Injective(x: bv16, y: bv16)
    requires Clock8(x) == Clock8(y)
    ensures x == y
  {
  }

  lemma Clock8HighByte(x: bv16, b: bv16)
    requires b & 0xff == b
    ensures Clock8(x) ^ b == Clock8(x ^ (b << 8))
  {
  }

  lemma XorCancel(x: bv16, y: bv16, b: bv16)
    requires x ^ b == y ^ b
    ensures x == y
  {
  }

  function Pair(s: bv16, a: bv16, b: bv16): bv16 {
    (s ^ a) ^ (b << 8)
  }

  lemma PairInjective(s: bv16, a: bv16, b: bv16, c: bv16, d: bv16)
    requires a & 0xff == a && b & 0xff == b && c & 0xff == c && d & 0xff == d
    requires Pair(s, a, b) == Pair(s, c, d)
    ensures a == c && b == d
  {
  }

  lemma TwoBytesAtOnce(s: bv16, a: bv16, b: bv16)
    requires b & 0xff == b
    ensures Clock8(Clock8(s ^ a) ^ b) == Clock8(Clock8(Pair(s, a, b)))
  {
    hide Clock8;
    Clock8HighByte(s ^ a, b);
  }

  lemma ClockedInjective(s: bv16, t: bv16, w: bv16)
    requires Clock8(s ^ w) == Clock8(t ^ w)
    ensures s == t
  {
    hide Clock8;
    Clock8Injective(s ^ w, t ^ w);
    XorCancel(s, t, w);
  }

  lemma TwoClockedInjective(s: bv16, a: bv16, b: bv16, c: bv16, d: bv16)
    requires a & 0xff == a && b & 0xff == b && c & 0xff == c && d & 0xff == d
    requires Clock8(Clock8(s ^ a) ^ b) == Clock8(Clock8(s ^ c) ^ d)
    ensures a == c && b == d
  {
    hide Clock8;
    hide Pair;
    TwoBytesAtOnce(s, a, b);
    TwoBytesAtOnce(s, c, d);
    Clock8Injective(Clock8(Pair(s, a, b)), Clock8(Pair(s, c, d)));
    Clock8Injective(Pair(s, a, b), Pair(s, c, d));
    PairInjective(s, a, b, c, d);
  }

  lemma FeedInjective(s: bv16, t: bv16, b: byte)
    requires Feed(s, b) == Feed(t, b)
    ensures s == t
  {
    hide *;
    ByteStepIsFeed(s, b);
    ByteStepIsFeed(t, b);
    ClockedInjective(s, t, Word(b));
  }

  lemma TwoFeedsInjective(s: bv16, a: byte, b: byte, c: byte, d: byte)
    requires Feed(Feed(s, a), b) == Feed(Feed(s, c), d)
    ensures a == c && b == d
  {
    hide *;
    ByteStepIsFeed(s, a);
    ByteStepIsFeed(s, c);
    ByteStepIsFeed(Feed(s, a), b);
    ByteStepIsFeed(Feed(s, c), d);
    WordFits(a);
    WordFits(b);
    WordFits(c);
    WordFits(d);
    TwoClockedInjective(s, Word(a), Word(b), Word(c), Word(d));
    WordInjective(a, c);
    WordInjective(b, d);
  }

  /** Over the same bytes, different starting registers never meet. */
  lemma {:induction false} RegisterInjectiveInSeed(s: bv16, t: bv16, data: seq<byte>)
    requires Register(s, data) == Register(t, data)
    ensures s == t
  {
    hide Feed;
    if data == [] {
    } else {
      var front := data[..|data| - 1];
      FeedInjective(Register(s, front), Register(t, front), data[|data| - 1]);
      RegisterInjectiveInSeed(s, t, front);
    }
  }

  lemma TwoByteRegister(s: bv16, x: seq<byte>)
    requires |x| == 2
    ensures Register(s, x) == Feed(Feed(s, x[0]), x[1])
  {
    hide Feed;
    assert x[..1] == [x[0]];
    assert Register(s, [x[0]]) == Feed(Register(s, [x[0]][..0]), x[0]);
  }

  /** Two images that differ only inside one pair of adjacent bytes never share a CRC. */
  lemma BurstIsDetected(pre: seq<byte>, x: seq<byte>, y: seq<byte>, post: seq<byte>)
    requires |x| == |y| == 2 && x != y
    ensures Register(0, pre + x + post) != Register(0, pre + y + post)
  {
    hide *;
    var s := Register(0, pre);
    RegisterConcat(0, pre, x);
    RegisterConcat(0, pre, y);
    RegisterConcat(0, pre + x, post);
    RegisterConcat(0, pre + y, post);
    if Register(0, pre + x + post) == Register(0, pre + y + post) {
      RegisterInjectiveInSeed(Register(s, x), Register(s, y), post);
      TwoByteRegister(s, x);
      TwoByteRegister(s, y);
      TwoFeedsInjective(s, x[0], x[1], y[0], y[1]);
      assert false;
    }
  }

  // ----- the images with CRC 0 -----

  function Int(w: bv16): uint16 {
    w as int
  }

  lemma InHalves(w: bv16)
    ensures Int(w) == Int(w >> 8) * 0x100 + Int(w & 0xff)
    ensures 0 <= Int(w >> 8) < 0x100 && 0 <= Int(w & 0xff) < 0x100
  {
  }

  lemma WordOf(w: bv16)
    requires w & 0xff == w && Int(w) < 0x100
    ensures Word(Int(w)) == w
  {
    hide Octet;
    OctetOf(w as bv8);
  }

  lemma Bytewise(high: byte, low: byte)
    ensures Le16(high * 0x100 + low) == [low, high]
  {
  }

  /** The two wire bytes of a register are its halves. */
  lemma WireBytes(w: bv16)
    ensures Word(Le16(Int(w))[0]) == w & 0xff
    ensures Word(Le16(Int(w))[1]) == w >> 8
  {
    hide *;
    InHalves(w);
    Bytewise(Int(w >> 8), Int(w & 0xff));
    HalvesFit(w);
    WordOf(w & 0xff);
    WordOf(w >> 8);
  }

  lemma HalvesFit(w: bv16)
    ensures (w & 0xff) & 0xff == w & 0xff && (w >> 8) & 0xff == w >> 8
  {
  }

  lemma Drained(r: bv16)
    ensures Clock8(Clock8(r ^ (r & 0xff)) ^ (r >> 8)) == 0
  {
  }

  lemma OwnBytesDrain(r: bv16)
    ensures Feed(Feed(r, Le16(Int(r))[0]), Le16(Int(r))[1]) == 0
  {
    hide *;
    var own := Le16(Int(r));
    WireBytes(r);
    ByteStepIsFeed(r, own[0]);
    ByteStepIsFeed(Feed(r, own[0]), own[1]);
    Drained(r);
  }

  lemma CrcIsInt(m: seq<byte>)
    ensures Crc(m) == Int(Register(0, m)) && (Crc(m) == 0 <==> Register(0, m) == 0)
  {
    hide Register;
  }

  /** Two bytes bring the CRC of any message to 0 iff they are its own CRC, as FW_END carries it. */
  lemma OwnCrcDrains(m: seq<byte>, x: seq<byte>)
    requires |x| == 2
    ensures Crc(m + x) == 0 <==> x == Le16(Crc(m))
  {
    hide *;
    var r := Register(0, m);
    var own := Le16(Int(r));
    CrcIsInt(m);
    CrcIsInt(m + x);
    RegisterConcat(0, m, x);
    TwoByteRegister(r, x);
    OwnBytesDrain(r);
    if Register(0, m + x) == 0 {
      TwoFeedsInjective(r, x[0], x[1], own[0], own[1]);
    }
  }

  lemma CrcOfNothing()
    ensures Crc([]) == 0
  {
  }
}
