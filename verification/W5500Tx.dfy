/**
  Sending through a W5500 hardware socket: the ring is proved to be a byte queue. `stream` is everything
  the driver ever put in, `wire` what the chip has sent (and the peer acknowledged), read out of the ring.
 */
module W5500Tx {
  import opened Bytes
  import opened W5500Ring

  class TxRing {
    const buf: array<byte>
    /** Sn_TX_WR and the chip's own read pointer. */
    var txWr: uint16
    var txRd: uint16
    /** Where the last SEND command told the chip to stop. */
    var txEnd: uint16
    /** What has left the ring. */
    var wire: seq<byte>
    ghost const start: nat
    ghost var stream: seq<byte>
    /** How much of it SEND commands have handed to the chip. */
    ghost var committed: nat

    ghost predicate Valid()
      reads this, buf
    {
      && buf.Length == RING
      && |wire| <= committed <= |stream| <= |wire| + RING
      && txRd == (start + |wire|) % TWO_16 && txWr == (start + |stream|) % TWO_16
      && txEnd == (start + committed) % TWO_16
      && wire == stream[..|wire|]
      && forall p | |wire| <= p < |stream| :: buf[Cell(start, p)] == stream[p]
    }

    /** How many bytes the ring holds. */
    ghost function Queued(): nat
      requires Valid()
      reads this, buf
    {
      |stream| - |wire|
    }

    lemma Sizes()
      requires Valid()
      ensures |wire| <= committed <= |stream| <= |wire| + RING
    {
    }

    /** A freshly opened hardware socket: its pointers may stand anywhere. */
    constructor (at: uint16)
      ensures Valid() && fresh(buf) && stream == [] && wire == [] && committed == 0
    {
      buf := new byte[RING];
      txWr, txRd, txEnd, wire, start, stream, committed := at, at, at, [], at, [], 0;
    }

    /** Sn_TX_FSR, as the chip computes it from its pointers. */
    method FreeSize() returns (n: uint16)
      requires Valid()
      ensures n == |wire| + RING - |stream|
    {
      Distance(start + |wire|, start + |stream|);
      n := RING - (txWr - txRd) % TWO_16;
    }

    /** The chip sends one byte of what it was told to. */
    method DrainByte()
      requires Valid() && |wire| < committed
      modifies this`wire, this`txRd
      ensures Valid() && wire == old(wire) + [stream[old(|wire|)]]
    {
      hide Cell;
      CellOfRegister(start + |wire|, start, |wire|);
      wire := wire + [buf[txRd % RING]];
      Advance(start + |wire| - 1, 1);
      txRd := (txRd + 1) % TWO_16;
    }

    /** The chip sends up to k bytes of what it was told to. */
    method Drain(k: nat)
      requires Valid()
      modifies this`wire, this`txRd
      ensures Valid() && old(wire) <= wire
      ensures |wire| == if k < committed - old(|wire|) then old(|wire|) + k else committed
    {
      hide Cell;
      SamePointer(start + |wire|, start + committed);
      var n := 0;
      while n < k && txRd != txEnd
        invariant 0 <= n <= k && Valid() && |wire| == old(|wire|) + n && old(wire) <= wire
        invariant txRd == txEnd <==> |wire| == committed
        decreases k - n
      {
        DrainByte();
        SamePointer(start + |wire|, start + committed);
        n := n + 1;
      }
    }

    /** sock_buf_write at Sn_TX_WR: only free cells are written, so nothing queued is lost. */
    method Stage(data: seq<byte>, spi: Spi) returns (ok: bool)
      requires Valid() && |stream| + |data| <= |wire| + RING
      modifies buf
      ensures Valid() && ok == Succeeds(txWr, |data|, spi)
      ensures ok ==> forall j | 0 <= j < |data| :: buf[Cell(start, |stream| + j)] == data[j]
    {
      hide Cell;
      ok := SockBufWrite(buf, txWr, data, spi);
      forall j | 0 <= j < |data|
        ensures Cell(txWr, j) == Cell(start, |stream| + j)
      {
        CellOfWrapped(start + |stream|, j);
        CellShift(start, |stream|, j);
      }
      forall p | |wire| <= p < |stream|
        ensures buf[Cell(start, p)] == stream[p]
      {
        forall j | 0 <= j < |data|
          ensures Cell(txWr, j) != Cell(start, p)
        {
          CellsDiffer(start, p, |stream| + j);
        }
        assert Outside(Cell(start, p), txWr, |data|);
      }
    }

    /** Moving Sn_TX_WR behind the staged bytes. */
    method Publish(data: seq<byte>)
      requires Valid() && |stream| + |data| <= |wire| + RING
      requires forall j | 0 <= j < |data| :: buf[Cell(start, |stream| + j)] == data[j]
      modifies this`txWr, this`stream
      ensures Valid() && stream == old(stream) + data
    {
      hide Cell;
      Advance(start + |stream|, |data|);
      txWr := (txWr + |data|) % TWO_16;
      ghost var was := stream;
      stream := stream + data;
      forall p | |wire| <= p < |stream|
        ensures buf[Cell(start, p)] == stream[p]
      {
        if p >= |was| {
          assert Cell(start, |was| + (p - |was|)) == Cell(start, p);
        }
      }
    }

    /** Sn_CR=SEND commits everything up to Sn_TX_WR, when the command engine answers. */
    method Send(ok: bool)
      requires Valid()
      modifies this`committed, this`txEnd
      ensures Valid() && committed == if ok then |stream| else old(committed)
    {
      if ok {
        txEnd := txWr;
        committed := |stream|;
      }
    }

    /**
      The wait for free space in w5500_sendto, over a script of what happens each time the mutex is given
      up: 30 short polls, then sleeping slices. It gives up only without blocking or at a moment that ends it,
      and it waits on through all others until there is room. `left` is what the call still has to send.
     */
    method WaitForSpace(chunk: nat, tcp: bool, nonblock: bool, moments: seq<Moment>, from: nat, ghost left: nat)
      returns (outcome: Waiting, next: nat)
      requires Valid() && from <= |moments| && 0 < chunk == Piece(left, tcp)
      modifies this`wire, this`txRd
      ensures Valid() && old(wire) <= wire && from <= next <= |moments|
      ensures outcome.Ready? ==> |stream| + chunk <= |wire| + RING
      ensures !outcome.Ready? ==> |stream| + chunk > old(|wire|) + RING
      ensures outcome.StillWaiting? ==> next == |moments| && !nonblock && |stream| + chunk > |wire| + RING
      ensures outcome.GaveUp? ==> nonblock || (next > from && Ends(moments[next - 1], next - 1 - from, tcp))
      ensures forall k | from <= k < next && Ends(moments[k], k - from, tcp) :: outcome.GaveUp? && k == next - 1
      ensures committed == |stream| ==>
        Served(old(Queued()), left, tcp, moments[from..]) == Served(Queued(), left, tcp, moments[next..])
    {
      hide Valid, Served, Ends;
      var polls := POLLS;
      next := from;
      Sizes();
      var fsr := FreeSize();
      while fsr < chunk
        invariant Valid() && old(wire) <= wire && from <= next <= |moments|
        invariant fsr == |wire| + RING - |stream|
        invariant fsr >= chunk || |stream| + chunk > old(|wire|) + RING
        invariant polls == if next - from < POLLS then POLLS - (next - from) else 0
        invariant forall k | from <= k < next :: !Ends(moments[k], k - from, tcp)
        invariant committed == |stream| ==>
          Served(old(Queued()), left, tcp, moments[from..]) == Served(Queued(), left, tcp, moments[next..])
        decreases |moments| - next
      {
        if nonblock {
          return GaveUp, next;
        }
        if next == |moments| {
          return StillWaiting, next;
        }
        var m := moments[next];
        ServedLater(Queued(), left, tcp, moments, next);
        EndsIs(m, next - from, tcp);
        next := next + 1;
        Drain(m.drained);
        Sizes();
        if m.zombie {
          return GaveUp, next;
        }
        if polls > 0 {
          polls := polls - 1;
        } else if !m.waitOk || (tcp && !m.alive) {
          return GaveUp, next;
        }
        fsr := FreeSize();
      }
      outcome := Ready;
    }

    /** One chunk: stage it, move Sn_TX_WR, issue SEND. It stays queued exactly when only the SEND fails. */
    method SendChunk(data: seq<byte>, io: ChunkIo) returns (stop: Stop)
      requires Valid() && |stream| + |data| <= |wire| + RING
      modifies this`txWr, this`stream, this`committed, this`txEnd, buf
      ensures Valid() && stop == Outcome(old(txWr), |data|, io)
      ensures stream == if stop.NotWritten? then old(stream) else old(stream) + data
      ensures committed == if stop.AllSent? then |stream| else old(committed)
    {
      var ok := Stage(data, io.spi);
      if !ok {
        return NotWritten;
      }
      Publish(data);
      Send(io.sendOk);
      return if io.sendOk then AllSent else NotSent;
    }

    /** One turn of the sending loop: the checks at its head, the wait for space, the chunk. */
    method SendPiece(data: seq<byte>, tcp: bool, nonblock: bool, moments: seq<Moment>, from: nat, head: Head,
                     io: ChunkIo, ghost left: nat)
      returns (stop: Stop, next: nat)
      requires Valid() && from <= |moments| && 0 < |data| == Piece(left, tcp)
      modifies this`wire, this`txRd, this`txWr, this`stream, this`committed, this`txEnd, buf
      ensures Valid() && old(wire) <= wire && from <= next <= |moments|
      ensures stop in {AllSent, NotWritten, NotSent} ==> stop == Outcome(old(txWr), |data|, io)
      ensures stop.Refused? <==> head.zombie || !head.alive
      ensures stop in {NoRoom, Asleep} ==> old(|stream|) + |data| > old(|wire|) + RING
      ensures stream == if stop in {AllSent, NotSent} then old(stream) + data else old(stream)
      ensures committed == if stop.AllSent? then |stream| else old(committed)
      ensures stop.NoRoom? ==> nonblock || (next > from && Ends(moments[next - 1], next - 1 - from, tcp))
      ensures forall k | from <= k < next && Ends(moments[k], k - from, tcp) :: stop.NoRoom? && k == next - 1
      ensures stop.Asleep? ==> next == |moments| && !nonblock
      ensures old(committed == |stream|) && stop.AllSent? ==>
        Served(old(Queued()), left, tcp, moments[from..]) == Served(Queued(), left - |data|, tcp, moments[next..])
      ensures old(committed == |stream|) && stop.Asleep? ==> !Served(old(Queued()), left, tcp, moments[from..])
    {
      hide Valid, Succeeds;
      next := from;
      if head.zombie || !head.alive {
        return Refused, next;
      }
      var wait: Waiting;
      wait, next := WaitForSpace(|data|, tcp, nonblock, moments, from, left);
      match wait {
        case GaveUp => return NoRoom, next;
        case StillWaiting => return Asleep, next;
        case Ready =>
          stop := SendChunk(data, io);
      }
    }

    /**
      The sending loop of w5500_sendto. `chunks` chunks with the first `off` bytes were handed to the chip, and
      they are exactly the next bytes of the stream. The chunk behind them was queued as well exactly when
      its transfer succeeded and its SEND did not: stop.NotSent.
     */
    method SendAll(src: seq<byte>, tcp: bool, nonblock: bool, moments: seq<Moment>, heads: nat -> Head,
                   ios: nat -> ChunkIo)
      returns (off: nat, staged: nat, stop: Stop, chunks: nat)
      requires Valid()
      modifies this`wire, this`txRd, this`txWr, this`stream, this`committed, this`txEnd, buf
      ensures Valid() && old(wire) <= wire
      ensures off + staged <= |src| && stream == old(stream) + src[..off + staged]
      ensures committed == if off > 0 then old(|stream|) + off else old(committed)
      ensures stop.AllSent? <==> off == |src|
      ensures staged == if stop.NotSent? then Piece(|src| - off, tcp) else 0
      ensures stop in {NotWritten, NotSent} ==>
        stop == Outcome((start + old(|stream|) + off) % TWO_16, Piece(|src| - off, tcp), ios(chunks))
      ensures stop.Refused? ==> heads(chunks).zombie || !heads(chunks).alive
      ensures stop in {NoRoom, Asleep} ==>
        old(|stream|) + off + Piece(|src| - off, tcp) > old(|wire|) + RING
      ensures forall c: nat | c < chunks :: ios(c).sendOk
      ensures if chunks == 0 then off == 0 else off >= Piece(|src|, tcp)
      ensures stop.NoRoom? ==> nonblock || exists k: nat, p: nat | p <= k < |moments| :: Ends(moments[k], p, tcp)
      ensures stop.Asleep? ==> !nonblock
      ensures old(committed == |stream|) ==>
        (stop.AllSent? ==> Served(old(Queued()), |src|, tcp, moments))
        && (stop.Asleep? ==> !Served(old(Queued()), |src|, tcp, moments))
    {
      hide Valid, Succeeds, Served, Ends, Outcome;
      off, staged, chunks, stop := 0, 0, 0, AllSent;
      assert src[..0] == [] && src[..|src|] == src && moments[0..] == moments;
      WritePointer();
      var k := 0;
      while off < |src|
        invariant Valid() && old(wire) <= wire && off <= |src| && k <= |moments| && staged == 0
        invariant stream == old(stream) + src[..off] && stop.AllSent?
        invariant committed == if off > 0 then |stream| else old(committed)
        invariant txWr == (start + |stream|) % TWO_16
        invariant forall c: nat | c < chunks :: ios(c).sendOk
        invariant if chunks == 0 then off == 0 else off >= Piece(|src|, tcp)
        invariant old(committed == |stream|) ==> committed == |stream|
        invariant old(committed == |stream|) ==>
          Served(old(Queued()), |src|, tcp, moments) == Served(Queued(), |src| - off, tcp, moments[k..])
      {
        var chunk := Piece(|src| - off, tcp);
        OutcomeIs(txWr, chunk, ios(chunks));
        stop, k := SendPiece(src[off..off + chunk], tcp, nonblock, moments, k, heads(chunks), ios(chunks),
                             |src| - off);
        WritePointer();
        Extends(old(stream), src, off, chunk);
        if !stop.AllSent? {
          staged := if stop.NotSent? then chunk else 0;
          return;
        }
        off := off + chunk;
        chunks := chunks + 1;
      }
      AllServed(Queued(), tcp, moments[k..]);
    }

    /**
      w5500_sendto, from its length checks on; `off`, `staged`, `stop` and `chunks` are those of its loop. A
      blocking call gives up for lack of room only at a moment that ends its wait; unhindered, it
      returns all of `src` exactly when a queue that drains like this ring takes it.
     */
    method SendTo(src: seq<byte>, tcp: bool, nonblock: bool, moments: seq<Moment>, heads: nat -> Head,
                  ios: nat -> ChunkIo)
      returns (outcome: SendOutcome, off: nat, staged: nat, stop: Stop, chunks: nat)
      requires Valid()
      modifies this`wire, this`txRd, this`txWr, this`stream, this`committed, this`txEnd, buf
      ensures Valid() && old(wire) <= wire
      ensures off + staged <= |src| && stream == old(stream) + src[..off + staged]
      ensures committed == if off > 0 then old(|stream|) + off else old(committed)
      ensures outcome.Returned? ==>
        outcome.value == if off == |src| then |src| else if off > 0 then off else -1
      ensures outcome == Returned(|src|) ==> stream == old(stream) + src
      ensures outcome.Sleeping? <==> stop.Asleep?
      ensures stop.AllSent? <==> off == |src|
      ensures staged > 0 <==> stop.NotSent?
      ensures stop in {NotWritten, NotSent} ==>
        stop == Outcome((start + old(|stream|) + off) % TWO_16, Piece(|src| - off, tcp), ios(chunks))
      ensures stop.NotSent? ==> !ios(chunks).sendOk && staged == Piece(|src| - off, tcp)
      ensures stop.Refused? ==> (!tcp && |src| > RING - 8) || heads(chunks).zombie || !heads(chunks).alive
      ensures stop in {NoRoom, Asleep} ==>
        old(|stream|) + off + Piece(|src| - off, tcp) > old(|wire|) + RING
      ensures forall c: nat | c < chunks :: ios(c).sendOk
      ensures (forall c: nat :: ios(c).sendOk) ==> staged == 0 && stream == old(stream) + src[..off]
      ensures if chunks == 0 then off == 0 else off >= Piece(|src|, tcp)
      ensures !tcp && |src| > RING - 8 ==> outcome == Returned(-1) && off == staged == 0
      ensures stop.NoRoom? ==> nonblock || exists k: nat, p: nat | p <= k < |moments| :: Ends(moments[k], p, tcp)
      ensures old(committed == |stream|) && Unhindered(|src|, tcp, nonblock, moments, heads, ios) ==>
              outcome == if Served(old(Queued()), |src|, tcp, moments) then Returned(|src|) else Sleeping
    {
      hide Valid, Succeeds, Served, Ends, Smooth, Well, Outcome;
      off, staged, chunks, stop := 0, 0, 0, AllSent;
      if |src| == 0 {
        AllServed(Queued(), tcp, moments);
        outcome := Returned(0);
        return;
      }
      if !tcp && |src| > RING - 8 {
        outcome, stop := Returned(-1), Refused;
        return;
      }
      off, staged, stop, chunks := SendAll(src, tcp, nonblock, moments, heads, ios);
      assert src[..|src|] == src;
      OutcomeIs((start + old(|stream|) + off) % TWO_16, Piece(|src| - off, tcp), ios(chunks));
      if Unhindered(|src|, tcp, nonblock, moments, heads, ios) {
        SmoothNeverEnds(moments, tcp);
        WellSends(heads, ios, chunks, (start + old(|stream|) + off) % TWO_16, Piece(|src| - off, tcp));
      }
      outcome := if stop.AllSent? then Returned(|src|)
                 else if stop.Asleep? then Sleeping
                 else Returned(if off > 0 then off else -1);
    }

    lemma WritePointer()
      requires Valid()
      ensures txWr == (start + |stream|) % TWO_16
    {
    }

    /**
      Two calls in a row on an idle socket: the SEND of the first is refused, the caller is told that
      nothing was sent and sends the same bytes again. The chip is handed them twice.
     */
    method SendAgain(src: seq<byte>, refused: nat -> ChunkIo, good: nat -> ChunkIo)
      returns (first: SendOutcome, second: SendOutcome)
      requires Valid() && |stream| == |wire| && 0 < |src| <= RING / 2
      requires refused(0) == ChunkIo(Spi(true, true, 0), false) && good(0) == ChunkIo(Spi(true, true, 0), true)
      modifies this`wire, this`txRd, this`txWr, this`stream, this`committed, this`txEnd, buf
      ensures Valid() && first == Returned(-1) && second == Returned(|src|)
      ensures stream == old(stream) + src + src && committed == |stream|
    {
      hide Valid;
      var up := (_: nat) => Head(false, true);
      var off, staged, stop, chunks;
      first, off, staged, stop, chunks := SendTo(src, true, true, [], up, refused);
      assert stream == old(stream) + src;
      second, off, staged, stop, chunks := SendTo(src, true, true, [], up, good);
    }
  }

  const POLLS := 30

  /** This moment, the one after `polled` others of the same wait, ends a blocking wait without room. */
  predicate Ends(m: Moment, polled: nat, tcp: bool) {
    m.zombie || (polled >= POLLS && (!m.waitOk || (tcp && !m.alive)))
  }

  /** Nothing in the script ends a blocking wait. */
  predicate Smooth(moments: seq<Moment>, tcp: bool) {
    forall m | m in moments :: !m.zombie && m.waitOk && (tcp ==> m.alive)
  }

  /**
    The reference: a queue of RING bytes, `queued` of them in use, takes `left` more in pieces that fit as a
    whole, while each moment of the script takes some out. True if all of them get in.
   */
  ghost predicate Served(queued: nat, left: nat, tcp: bool, moments: seq<Moment>)
    decreases left, |moments|
  {
    left == 0
    || (if queued + Piece(left, tcp) <= RING then
          Served(queued + Piece(left, tcp), left - Piece(left, tcp), tcp, moments)
        else
          moments != [] && Served(queued - Min(queued, moments[0].drained), left, tcp, moments[1..]))
  }

  /** How many moments of the script take anything out. */
  function Busy(moments: seq<Moment>): nat {
    if moments == [] then 0 else (if moments[0].drained > 0 then 1 else 0) + Busy(moments[1..])
  }

  /** A byte now and then is enough: as many busy moments as there are bytes in the ring and in the call. */
  lemma {:induction false} ServedByBusyMoments(queued: nat, left: nat, tcp: bool, moments: seq<Moment>)
    requires queued <= RING && (tcp || left <= RING) && Busy(moments) >= queued + left
    ensures Served(queued, left, tcp, moments)
    decreases left, |moments|
  {
    if left == 0 {
    } else if queued + Piece(left, tcp) <= RING {
      ServedByBusyMoments(queued + Piece(left, tcp), left - Piece(left, tcp), tcp, moments);
    } else {
      ServedByBusyMoments(queued - Min(queued, moments[0].drained), left, tcp, moments[1..]);
    }
  }

  function Total(moments: seq<Moment>): nat {
    if moments == [] then 0 else moments[0].drained + Total(moments[1..])
  }

  /** What goes in one piece gets in exactly if the ring has, or comes to have, that much room. */
  lemma {:induction false} OnePieceIsServedIff(queued: nat, left: nat, tcp: bool, moments: seq<Moment>)
    requires 0 < left == Piece(left, tcp)
    ensures Served(queued, left, tcp, moments) <==> queued + left <= RING + Min(queued, Total(moments))
    decreases |moments|
  {
    if queued + left <= RING || moments == [] {
    } else {
      OnePieceIsServedIff(queued - Min(queued, moments[0].drained), left, tcp, moments[1..]);
    }
  }

  /** Nobody closes the socket, the connection stays up, and every transfer and SEND succeeds. */
  ghost predicate Well(heads: nat -> Head, ios: nat -> ChunkIo) {
    forall c: nat :: !heads(c).zombie && heads(c).alive && ios(c).sendOk && ios(c).spi.firstOk && ios(c).spi.secondOk
  }

  /** A blocking call with a size the socket takes, that nothing ends early. */
  ghost predicate Unhindered(n: nat, tcp: bool, nonblock: bool, moments: seq<Moment>, heads: nat -> Head,
                             ios: nat -> ChunkIo) {
    !nonblock && (tcp || n <= RING - 8) && Smooth(moments, tcp) && Well(heads, ios)
  }

  lemma OutcomeIs(ptr: nat, n: nat, io: ChunkIo)
    ensures Outcome(ptr, n, io).AllSent? ==> io.sendOk
    ensures Outcome(ptr, n, io).NotSent? ==> !io.sendOk
  {
  }

  lemma EndsIs(m: Moment, polled: nat, tcp: bool)
    ensures Ends(m, polled, tcp) <==> m.zombie || (polled >= POLLS && (!m.waitOk || (tcp && !m.alive)))
  {
  }

  lemma SmoothNeverEnds(moments: seq<Moment>, tcp: bool)
    requires Smooth(moments, tcp)
    ensures forall k: nat, p: nat | k < |moments| :: !Ends(moments[k], p, tcp)
  {
  }

  lemma WellSends(heads: nat -> Head, ios: nat -> ChunkIo, c: nat, ptr: nat, n: nat)
    requires Well(heads, ios)
    ensures !heads(c).zombie && heads(c).alive && Outcome(ptr, n, ios(c)) == AllSent
  {
  }

  lemma AllServed(queued: nat, tcp: bool, moments: seq<Moment>)
    ensures Served(queued, 0, tcp, moments)
  {
  }

  lemma ServedLater(queued: nat, left: nat, tcp: bool, moments: seq<Moment>, k: nat)
    requires 0 < left && queued + Piece(left, tcp) > RING && k < |moments|
    ensures Served(queued, left, tcp, moments[k..]) ==
            Served(queued - Min(queued, moments[k].drained), left, tcp, moments[k + 1..])
  {
    assert moments[k..][1..] == moments[k + 1..];
  }

  function Piece(left: nat, tcp: bool): nat {
    if tcp then Min(left, RING) else left
  }

  /** How handing one chunk of n bytes to the chip ends, with the write pointer at ptr. */
  function Outcome(ptr: nat, n: nat, io: ChunkIo): Stop {
    if !Succeeds(ptr, n, io.spi) then NotWritten else if !io.sendOk then NotSent else AllSent
  }

  lemma Extends(a: seq<byte>, src: seq<byte>, off: nat, chunk: nat)
    requires off + chunk <= |src|
    ensures (a + src[..off]) + src[off..off + chunk] == a + src[..off + chunk]
  {
  }

  /** What has happened when the sender gets the mutex back. */
  datatype Moment = Moment(drained: nat, zombie: bool, alive: bool, waitOk: bool)
  /** What the loop head sees: closed by another thread, and the status register. */
  datatype Head = Head(zombie: bool, alive: bool)
  datatype ChunkIo = ChunkIo(spi: Spi, sendOk: bool)
  datatype Waiting = Ready | GaveUp | StillWaiting
  /**
    Why the loop ended: everything sent, refused at its head, no room in time, asleep at the end of the
    script, a transfer that failed, or a SEND the chip did not answer.
   */
  datatype Stop = AllSent | Refused | NoRoom | Asleep | NotWritten | NotSent
  /** The return value, or still asleep at the end of the script. */
  datatype SendOutcome = Returned(value: int) | Sleeping

  lemma SamePointer(a: nat, b: nat)
    requires a <= b <= a + RING
    ensures a % TWO_16 == b % TWO_16 <==> a == b
  {
  }

  lemma CellOfRegister(p: nat, start: nat, n: nat)
    requires p == start + n
    ensures p % TWO_16 % RING == Cell(start, n)
  {
    PointerWrap(p);
  }

  lemma CellsDiffer(start: nat, p: nat, q: nat)
    requires p < q < p + RING
    ensures Cell(start, p) != Cell(start, q)
  {
    CellsApart(start + q, start + p);
  }
}
