/** Bytes and the fixed-width integers the firmware puts on the wire. */
module Bytes {
  type byte = x: int | 0 <= x < 0x100
  type uint16 = x: int | 0 <= x < 0x1_0000
  type uint32 = x: int | 0 <= x < 0x1_0000_0000

  const TWO_16 := 0x1_0000
  const TWO_32 := 0x1_0000_0000

  function Min(a: int, b: int): int {
    if a < b then a else b
  }

  /** sys_put_le32 / wr_le32. */
  function Le32(v: uint32): (r: seq<byte>)
    ensures |r| == 4
  {
    [v % 0x100, v / 0x100 % 0x100, v / 0x1_0000 % 0x100, v / 0x100_0000]
  }

  /** sys_get_le32 / rd_le32. */
  function FromLe32(b: seq<byte>): uint32
    requires |b| == 4
  {
    (b[0] as int) + (b[1] as int) * 0x100 + (b[2] as int) * 0x1_0000 + (b[3] as int) * 0x100_0000
  }

  function Le16(v: uint16): (r: seq<byte>)
    ensures |r| == 2
  {
    [v % 0x100, v / 0x100]
  }

  function FromLe16(b: seq<byte>): uint16
    requires |b| == 2
  {
    (b[0] as int) + (b[1] as int) * 0x100
  }

  function Be16(v: uint16): (r: seq<byte>)
    ensures |r| == 2
  {
    [v / 0x100, v % 0x100]
  }

  function FromBe16(b: seq<byte>): uint16
    requires |b| == 2
  {
    (b[0] as int) * 0x100 + (b[1] as int)
  }

  /** Numbers survive the trip through their wire bytes, both ways. */
  lemma Le32RoundTrip(v: uint32)
    ensures FromLe32(Le32(v)) == v
  {
    assert v / 0x100 / 0x100 == v / 0x1_0000;
    assert v / 0x1_0000 / 0x100 == v / 0x100_0000;
  }

  lemma FromLe32RoundTrip(b: seq<byte>)
    requires |b| == 4
    ensures Le32(FromLe32(b)) == b
  {
    var high: int := b[2] as int + 0x100 * b[3] as int;
    var mid: int := b[1] as int + 0x100 * high;
    var v: int := b[0] as int + 0x100 * mid;
    assert v == FromLe32(b) && v % 0x100 == b[0] && v / 0x100 == mid;
    assert mid % 0x100 == b[1] && mid / 0x100 == high;
    assert v / 0x1_0000 == v / 0x100 / 0x100;
    assert v / 0x100_0000 == v / 0x1_0000 / 0x100;
  }

  lemma FromLe16RoundTrip(b: seq<byte>)
    requires |b| == 2
    ensures Le16(FromLe16(b)) == b
  {
  }

  lemma Le16RoundTrip(v: uint16)
    ensures FromLe16(Le16(v)) == v
  {
  }

  lemma Be16RoundTrip(v: uint16)
    ensures FromBe16(Be16(v)) == v
  {
  }
}
