/** The 2 KiB rings of a W5500 hardware socket, addressed by free-running 16-bit pointers. */
module W5500Ring {
  import opened Bytes

  const RING := 2048
  /** Transfers of at least this many bytes take the fast path, which reports no error. */
  const FAST_MIN := 32

  /** Two positions less than one ring apart never share a cell. */
  lemma CellsApart(p: nat, q: nat)
    requires q < p < q + RING
    ensures p % RING != q % RING
  {
  }

  /** Wrapping a pointer at 2^16 does not move it in the ring, because the ring divides 2^16. */
  lemma PointerWrap(p: nat)
    ensures (p % TWO_16) % RING == p % RING
  {
    assert p == TWO_16 * (p / TWO_16) + p % TWO_16;
    assert p == RING * (32 * (p / TWO_16)) + p % TWO_16;
    ModOfSum(32 * (p / TWO_16), p % TWO_16);
  }

  lemma ModOfSum(k: nat, r: nat)
    ensures (RING * k + r) % RING == r % RING
  {
    assert RING * k + r == RING * (k + r / RING) + r % RING;
    ModUnique(RING * k + r, k + r / RING, r % RING);
  }

  lemma ModUnique(n: nat, q: nat, r: nat)
    requires n == RING * q + r && r < RING
    ensures n % RING == r
  {
  }

  /** Where byte j of a transfer at pointer ptr lies. */
  function Cell(ptr: nat, j: nat): (i: nat)
    ensures i < RING
  {
    (ptr + j) % RING
  }

  /** Pointers wrap at 2^16, and what is computed from them is right within one ring. */
  lemma Distance(a: nat, b: nat)
    requires a <= b <= a + RING
    ensures (b % TWO_16 - a % TWO_16) % TWO_16 == b - a
  {
  }

  lemma Advance(p: nat, n: nat)
    ensures (p % TWO_16 + n) % TWO_16 == (p + n) % TWO_16
  {
  }

  lemma CellShift(a: nat, b: nat, c: nat)
    ensures Cell(a + b, c) == Cell(a, b + c)
  {
  }

  lemma CellOfWrapped(p: nat, j: nat)
    ensures Cell(p % TWO_16, j) == Cell(p, j)
  {
    PointerWrap(p);
    assert p % TWO_16 + j == RING * (p % TWO_16 / RING) + (p % TWO_16 % RING + j);
    ModOfSum(p % TWO_16 / RING, p % TWO_16 % RING + j);
    assert p + j == RING * (p / RING) + (p % RING + j);
    ModOfSum(p / RING, p % RING + j);
  }

  /** Before and behind the end of the buffer. */
  lemma CellSplit(ptr: nat, j: nat)
    requires j < RING
    ensures Cell(ptr, j) == if j < RING - ptr % RING then ptr % RING + j else j - (RING - ptr % RING)
  {
    assert ptr + j == RING * (ptr / RING) + (ptr % RING + j);
    ModOfSum(ptr / RING, ptr % RING + j);
  }

  /** A transfer into consecutive cells; one that fails may have written some of its bytes. */
  method WriteBlock(buf: array<byte>, at: nat, data: seq<byte>, ok: bool, part: nat)
    requires at + |data| <= buf.Length
    modifies buf
    ensures ok ==> buf[at..at + |data|] == data
    ensures forall i | 0 <= i < buf.Length && !(at <= i < at + |data|) :: buf[i] == old(buf[i])
  {
    var n := if ok then |data| else if part < |data| then part else |data|;
    var k := 0;
    while k < n
      invariant 0 <= k <= n && buf[at..at + k] == data[..k]
      invariant forall i | 0 <= i < buf.Length && !(at <= i < at + |data|) :: buf[i] == old(buf[i])
    {
      buf[at + k] := data[k];
      k := k + 1;
    }
  }

  /** Cell i is none of the n cells of a transfer at ptr. */
  ghost predicate Outside(i: nat, ptr: nat, n: nat) {
    forall j | 0 <= j < n :: Cell(ptr, j) != i
  }

  /** What the two SPI transfers of sock_buf_write do: each succeeds, or stops after some bytes. */
  datatype Spi = Spi(firstOk: bool, secondOk: bool, part: nat)

  /** The transfers of n bytes at pointer ptr are both successful: the first ends at the buffer's end. */
  predicate Succeeds(ptr: nat, n: nat, spi: Spi) {
    var first := Min(n, RING - ptr % RING);
    && (spi.firstOk || first >= FAST_MIN)
    && (first == n || spi.secondOk || n - first >= FAST_MIN)
  }

  /** sock_buf_write: the cells of the transfer take its bytes, or some of them, and no other cell changes. */
  method SockBufWrite(buf: array<byte>, ptr: uint16, data: seq<byte>, spi: Spi) returns (ok: bool)
    requires buf.Length == RING && |data| <= RING
    modifies buf
    ensures ok == Succeeds(ptr, |data|, spi)
    ensures ok ==> forall j | 0 <= j < |data| :: buf[Cell(ptr, j)] == data[j]
    ensures forall i | 0 <= i < RING && Outside(i, ptr, |data|) :: buf[i] == old(buf[i])
  {
    hide Cell, Outside;
    var at := ptr % RING;
    var first := Min(|data|, RING - at);
    forall j | 0 <= j < |data|
      ensures Cell(ptr, j) == if j < first then at + j else j - first
    {
      CellSplit(ptr, j);
    }
    assert Touched(ptr, data, at, first);
    ok := spi.firstOk || first >= FAST_MIN;
    WriteBlock(buf, at, data[..first], ok, spi.part);
    ghost var half := buf[..];
    assert ok ==> forall j | 0 <= j < first :: buf[at + j] == data[j] by {
      if ok {
        assert forall j | 0 <= j < first :: buf[at + j] == buf[at..at + first][j] == data[..first][j];
      }
    }
    if !ok || first == |data| {
      BlockCells(ptr, data, at, first);
      return;
    }
    ok := spi.secondOk || |data| - first >= FAST_MIN;
    WriteBlock(buf, 0, data[first..], ok, spi.part);
    assert ok ==> forall j | first <= j < |data| :: buf[j - first] == data[j] by {
      if ok {
        assert forall j | first <= j < |data| ::
            data[j] == data[first..][j - first] == buf[0..0 + |data[first..]|][j - first];
      }
    }
    BlockCells(ptr, data, at, first);
  }

  ghost predicate Touched(ptr: uint16, data: seq<byte>, at: nat, first: nat) {
    && at + first <= RING && first <= |data| <= RING && (first < |data| ==> at + first == RING)
    && forall j | 0 <= j < |data| :: Cell(ptr, j) == if j < first then at + j else j - first
  }

  /** Every cell of the two blocks is a cell of the transfer. */
  lemma BlockCells(ptr: uint16, data: seq<byte>, at: nat, first: nat)
    requires Touched(ptr, data, at, first)
    ensures forall i: nat | at <= i < at + first || i < |data| - first :: !Outside(i, ptr, |data|)
  {
    hide Cell;
    forall i: nat | at <= i < at + first || i < |data| - first
      ensures !Outside(i, ptr, |data|)
    {
      assert Cell(ptr, if at <= i < at + first then i - at else i + first) == i;
    }
  }

  /**
    sock_buf_read into a buffer that held `before`: a transfer that fails leaves what was there, or a part
    of it.
   */
  method SockBufRead(buf: array<byte>, ptr: nat, before: seq<byte>, spi: Spi) returns (ok: bool, data: seq<byte>)
    requires buf.Length == RING && |before| <= RING
    ensures |data| == |before| && ok == Succeeds(ptr, |before|, spi)
    ensures ok ==> forall j | 0 <= j < |before| :: data[j] == buf[Cell(ptr, j)]
    ensures forall j | 0 <= j < |before| :: data[j] == buf[Cell(ptr, j)] || data[j] == before[j]
  {
    hide Cell;
    var len := |before|;
    var at := ptr % RING;
    var first := Min(len, RING - at);
    forall j | 0 <= j < len
      ensures Cell(ptr, j) == if j < first then at + j else j - first
    {
      CellSplit(ptr, j);
    }
    ok := spi.firstOk || first >= FAST_MIN;
    if !ok {
      data := before;
      return;
    }
    if first == len {
      data := buf[at..at + first];
      return;
    }
    ok := spi.secondOk || len - first >= FAST_MIN;
    data := buf[at..at + first] + (if ok then buf[..len - first] else before[first..]);
  }
}
