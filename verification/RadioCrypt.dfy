/** The radio link cipher: sealing a frame, opening it, and inferring 32 counter bits from 8. */
module RadioCrypt {
  import opened Bytes
  import opened BitBytes
  import opened Xxtea
  import opened Wrappers

  const RX_WINDOW := 32
  const MIN_PLAIN := 2
  const MAX_PLAIN := 31

  // ----- the keystream -----

  function Be32(v: uint32): (r: seq<byte>)
    ensures |r| == 8 / 2
  {
    [v / 0x100_0000, v / 0x1_0000 % 0x100, v / 0x100 % 0x100, v % 0x100]
  }

  /** Eight keystream bytes for one counter value. */
  function Keystream(key: Key, ctr: uint32): (r: seq<byte>)
    ensures |r| == 8
  {
    var b := Encrypt(CounterBlock(ctr), key);
    Be32(b.v0) + Be32(b.v1)
  }

  /** Byte i of the stream: block after block, the counter going up by one modulo 2^32. */
  function StreamByte(key: Key, ctr: uint32, i: nat): byte
    decreases i
  {
    if i < 8 then Keystream(key, ctr)[i] else StreamByte(key, Plus(ctr, 1), i - 8)
  }

  function CounterAfter(ctr: uint32, blocks: nat): uint32 {
    if blocks == 0 then ctr else Plus(CounterAfter(ctr, blocks - 1), 1)
  }

  function CtrXor(key: Key, ctr: uint32, s: seq<byte>): (r: seq<byte>)
    ensures |r| == |s|
  {
    seq(|s|, i requires 0 <= i < |s| => Xor(s[i], StreamByte(key, ctr, i)))
  }

  /** Applying the keystream twice restores the text. */
  lemma CtrXorTwice(key: Key, ctr: uint32, s: seq<byte>)
    ensures CtrXor(key, ctr, CtrXor(key, ctr, s)) == s
  {
    hide Xor;
    hide StreamByte;
    forall i | 0 <= i < |s|
      ensures CtrXor(key, ctr, CtrXor(key, ctr, s))[i] == s[i]
    {
      XorTwice(s[i], StreamByte(key, ctr, i));
    }
  }

  lemma {:induction false} StreamByBlocks(key: Key, ctr: uint32, blocks: nat, i: nat)
    requires i < 8
    ensures StreamByte(key, ctr, 8 * blocks + i) == Keystream(key, CounterAfter(ctr, blocks))[i]
    decreases blocks
  {
    hide Keystream;
    hide Plus;
    if blocks == 0 {
    } else {
      StreamByBlocks(key, Plus(ctr, 1), blocks - 1, i);
      CounterShift(ctr, blocks - 1);
    }
  }

  lemma {:induction false} CounterShift(ctr: uint32, n: nat)
    ensures CounterAfter(Plus(ctr, 1), n) == CounterAfter(ctr, n + 1)
  {
    hide Plus;
    if n == 0 {
    } else {
      CounterShift(ctr, n - 1);
    }
  }

  // ----- sealing and opening -----

  function Low(ctr: uint32): byte {
    ctr % 0x100
  }

  function Seal(key: Key, ctr: uint32, plain: seq<byte>): seq<byte> {
    [Low(ctr)] + CtrXor(key, ctr, plain)
  }

  /** The receiver's window: nothing accepted yet, or the counter of the last accepted frame. */
  datatype Receiver = Receiver(counter: uint32, initialized: bool)

  function Infer(rx: Receiver, ctrByte: byte): Option<uint32> {
    if !rx.initialized then Some(ctrByte)
    else
      var rxLow := Low(rx.counter);
      var diff := (ctrByte - rxLow) % 0x100;
      if diff == 0 || diff > RX_WINDOW then None
      else if ctrByte < rxLow then Some((rx.counter - rxLow + 0x100 + ctrByte) % TWO_32)
      else Some(rx.counter - rxLow + ctrByte)
  }

  /** nrf24_crypt_open: the plaintext, or nothing and an untouched receiver. */
  function Open(key: Key, rx: Receiver, frame: seq<byte>): (Receiver, Option<seq<byte>>) {
    if |frame| < MIN_PLAIN + 1 || |frame| > MAX_PLAIN + 1 then (rx, None)
    else
      var ctr := Infer(rx, frame[0]);
      if ctr == None then (rx, None)
      else (Receiver(ctr.value, true), Some(CtrXor(key, ctr.value, frame[1..])))
  }

  // ----- what a frame is encrypted with -----

  function FromBe32(b: seq<byte>): uint32
    requires |b| == 4
  {
    (b[0] as int) * 0x100_0000 + (b[1] as int) * 0x1_0000 + (b[2] as int) * 0x100 + (b[3] as int)
  }

  lemma Be32RoundTrip(v: uint32)
    ensures FromBe32(Be32(v)) == v
  {
    assert v / 0x100 / 0x100 == v / 0x1_0000;
    assert v / 0x1_0000 / 0x100 == v / 0x100_0000;
  }

  /** Eight bytes as the two words of a block. */
  function BlockOf(b: seq<byte>): Block
    requires |b| == 8
  {
    Block(FromBe32(b[..4]), FromBe32(b[4..]))
  }

  function XorAll(a: seq<byte>, b: seq<byte>): (r: seq<byte>)
    requires |a| == |b|
    ensures |r| == |a|
  {
    seq(|a|, i requires 0 <= i < |a| => Xor(a[i], b[i]))
  }

  lemma KeystreamIsEncrypted(key: Key, ctr: uint32)
    ensures BlockOf(Keystream(key, ctr)) == Encrypt(CounterBlock(ctr), key)
  {
    hide Be32, FromBe32, Rounds;
    var b := Encrypt(CounterBlock(ctr), key);
    Be32RoundTrip(b.v0);
    Be32RoundTrip(b.v1);
    assert Keystream(key, ctr)[..4] == Be32(b.v0) && Keystream(key, ctr)[4..] == Be32(b.v1);
  }

  lemma {:induction false} CounterAfterIs(ctr: uint32, n: nat)
    ensures CounterAfter(ctr, n) == (ctr + n) % TWO_32
  {
    if n == 0 {
    } else {
      hide Plus;
      CounterAfterIs(ctr, n - 1);
      PlusMod(ctr + n - 1, 1);
    }
  }

  /** Byte i of the text is masked with byte i % 8 of the keystream block for the counter of its block. */
  lemma ByteIsMasked(key: Key, ctr: uint32, plain: seq<byte>, i: nat)
    requires i < |plain|
    ensures Xor(plain[i], Seal(key, ctr, plain)[1 + i]) == Keystream(key, (ctr + i / 8) % TWO_32)[i % 8]
  {
    hide Xor, StreamByte, Keystream, CounterAfter, Plus;
    StreamByBlocks(key, ctr, i / 8, i % 8);
    CounterAfterIs(ctr, i / 8);
    XorWithText(plain[i], StreamByte(key, ctr, i));
  }

  /**
    Every full block of a frame's text is encrypted with the block cipher under the key: text and ciphertext of
    block j, combined and run backwards through the cipher, are the counter of the block and its complement.
   */
  lemma FrameIsEncrypted(key: Key, ctr: uint32, plain: seq<byte>, j: nat)
    requires 8 * j + 8 <= |plain|
    ensures var frame := Seal(key, ctr, plain);
      var mask := XorAll(plain[8 * j..8 * j + 8], frame[1 + 8 * j..9 + 8 * j]);
      var count: uint32 := (ctr + j) % TWO_32;
      frame[0] == ctr % 0x100 && Unrounds(ROUNDS, BlockOf(mask), key) == Block(count, TWO_32 - 1 - count)
  {
    hide Xor, StreamByte, Keystream, Rounds, Unrounds, FromBe32;
    var frame := Seal(key, ctr, plain);
    var mask := XorAll(plain[8 * j..8 * j + 8], frame[1 + 8 * j..9 + 8 * j]);
    var count := (ctr + j) % TWO_32;
    forall i | 0 <= i < 8
      ensures mask[i] == Keystream(key, count)[i]
    {
      ByteIsMasked(key, ctr, plain, 8 * j + i);
    }
    assert mask == Keystream(key, count);
    KeystreamIsEncrypted(key, count);
    RoundsAreInvertible(ROUNDS, CounterBlock(count), key);
  }

  // ----- the code -----

  class Crypt {
    const key: Key
    var txCounter: uint32
    var rxCounter: uint32
    var rxInitialized: bool

    function Rx(): Receiver
      reads this
    {
      Receiver(rxCounter, rxInitialized)
    }

    constructor (key: Key)
      ensures this.key == key && txCounter == 0 && !rxInitialized
    {
      this.key := key;
      txCounter, rxCounter, rxInitialized := 0, 0, false;
    }

    /** The inner loop of ctr_xor: one block's worth of bytes. */
    method XorChunk(buf: array<byte>, at: nat, n: nat, ks: seq<byte>)
      requires at + n <= buf.Length && n <= |ks|
      modifies buf
      ensures forall j | 0 <= j < n :: buf[at + j] == Xor(old(buf[at + j]), ks[j])
      ensures forall j | 0 <= j < buf.Length && !(at <= j < at + n) :: buf[j] == old(buf[j])
    {
      hide Xor;
      var i := 0;
      while i < n
        invariant 0 <= i <= n
        invariant forall j | 0 <= j < i :: buf[at + j] == Xor(old(buf[at + j]), ks[j])
        invariant forall j | 0 <= j < buf.Length && !(at <= j < at + i) :: buf[j] == old(buf[j])
      {
        buf[at + i] := Xor(buf[at + i], ks[i]);
        i := i + 1;
      }
    }

    /** One block of the stream: {counter, ~counter} through the block cipher, in big-endian bytes. */
    method BlockBytes(counter: uint32) returns (ks: seq<byte>)
      ensures ks == Keystream(key, counter)
    {
      hide Rounds, Be32;
      var block := new uint32[2];
      block[0], block[1] := counter, TWO_32 - 1 - counter;
      XxteaEncryptBlock(block, key);
      ks := Be32(block[0]) + Be32(block[1]);
    }

    /** ctr_xor over buf[start..start + len], in place. */
    method CtrXorInPlace(buf: array<byte>, start: nat, len: nat, ctr: uint32)
      requires start + len <= buf.Length
      modifies buf
      ensures forall j | 0 <= j < len :: buf[start + j] == Xor(old(buf[start + j]), StreamByte(key, ctr, j))
      ensures forall j | 0 <= j < buf.Length && !(start <= j < start + len) :: buf[j] == old(buf[j])
    {
      hide Xor;
      hide Keystream;
      hide StreamByte;
      hide Plus;
      var off, counter := 0, ctr;
      ghost var blocks := 0;
      while off < len
        invariant off == Min(8 * blocks, len) && counter == CounterAfter(ctr, blocks)
        invariant forall j | 0 <= j < off :: buf[start + j] == Xor(old(buf[start + j]), StreamByte(key, ctr, j))
        invariant forall j | 0 <= j < buf.Length && !(start <= j < start + off) :: buf[j] == old(buf[j])
      {
        var chunk := Min(len - off, 8);
        var ks := BlockBytes(counter);
        XorChunk(buf, start + off, chunk, ks);
        forall j | off <= j < off + chunk
          ensures buf[start + j] == Xor(old(buf[start + j]), StreamByte(key, ctr, j))
        {
          StreamByBlocks(key, ctr, blocks, j - off);
          assert buf[(start + off) + (j - off)] == buf[start + j];
        }
        off := off + chunk;
        counter := Plus(counter, 1);
        blocks := blocks + 1;
      }
    }

    /** nrf24_crypt_seal: the plaintext in buf becomes the frame, one byte longer; 0 on a bad length. */
    method SealFrame(buf: array<byte>, plainLen: nat) returns (n: nat)
      requires plainLen < buf.Length
      modifies this`txCounter, buf
      ensures var all := old(buf[..]);
              if MIN_PLAIN <= plainLen <= MAX_PLAIN then
                && n == plainLen + 1
                && buf[..n] == Seal(key, old(txCounter), all[..plainLen]) && buf[n..] == all[n..]
                && txCounter == Plus(old(txCounter), 1)
              else n == 0 && buf[..] == all && txCounter == old(txCounter)
    {
      hide Xor;
      hide StreamByte;
      if plainLen < MIN_PLAIN || plainLen > MAX_PLAIN {
        return 0;
      }
      ghost var all := buf[..];
      var ctr := txCounter;
      txCounter := Plus(txCounter, 1);
      forall i | 0 <= i < plainLen {
        buf[i + 1] := buf[i];
      }
      CtrXorInPlace(buf, 1, plainLen, ctr);
      buf[0] := Low(ctr);
      return plainLen + 1;
    }

    /** nrf24_crypt_open: the frame in buf becomes the plaintext, one byte shorter; 0 if it is dropped. */
    method OpenFrame(buf: array<byte>, frameLen: nat) returns (n: nat)
      requires frameLen <= buf.Length
      modifies this`rxCounter, this`rxInitialized, buf
      ensures var (rx, plain) := Open(key, old(Rx()), old(buf[..frameLen]));
              && Rx() == rx
              && if plain.Some? then n == frameLen - 1 && buf[..n] == plain.value
                 else n == 0 && buf[..] == old(buf[..])
    {
      hide Xor;
      hide StreamByte;
      if frameLen < 3 || frameLen > 32 {
        return 0;
      }
      ghost var all := buf[..];
      var ctrByte := buf[0];
      var ctr: uint32;
      if !rxInitialized {
        ctr := ctrByte;
      } else {
        var rxLow := Low(rxCounter);
        var diff: byte := (ctrByte as int - rxLow as int) % 0x100;
        if diff == 0 || diff > RX_WINDOW {
          return 0;
        }
        if ctrByte < rxLow {
          ctr := (rxCounter - rxLow + 0x100 + ctrByte) % TWO_32;
        } else {
          ctr := rxCounter - rxLow + ctrByte;
        }
      }
      CtrXorInPlace(buf, 1, frameLen - 1, ctr);
      forall i | 0 <= i < frameLen - 1 {
        buf[i] := buf[i + 1];
      }
      rxCounter := ctr;
      rxInitialized := true;
      return frameLen - 1;
    }
  }
}
