/**
  Receiving through a W5500 hardware socket. The ring delivers a byte stream; for UDP that stream is a
  sequence of frames, each an eight-byte header (source address, port and length, big endian) and a payload.
 */
module W5500Rx {
  import opened Bytes
  import opened W5500Ring

  const HEADER := 8

  datatype Datagram = Datagram(ip: seq<byte>, port: uint16, payload: seq<byte>)
  /** A datagram that can be in the ring. */
  type Packet = d: Datagram | |d.ip| == 4 && |d.payload| <= RING - HEADER
    witness Datagram([0, 0, 0, 0], 0, [])

  function Frame(d: Packet): (f: seq<byte>)
    ensures |f| == HEADER + |d.payload|
  {
    d.ip + Be16(d.port) + Be16(|d.payload|) + d.payload
  }

  /** The bytes of consecutive frames. */
  function Flat(ds: seq<Packet>): seq<byte> {
    if ds == [] then [] else Flat(ds[..|ds| - 1]) + Frame(ds[|ds| - 1])
  }

  lemma FlatSnoc(ds: seq<Packet>, d: Packet)
    ensures Flat(ds + [d]) == Flat(ds) + Frame(d)
  {
    assert (ds + [d])[..|ds|] == ds;
  }

  /** Frame n starts where the frames before it end. */
  lemma {:induction false} FrameAt(ds: seq<Packet>, n: nat)
    requires n < |ds|
    ensures |Flat(ds[..n])| + HEADER + |ds[n].payload| == |Flat(ds[..n + 1])| <= |Flat(ds)|
    ensures Flat(ds)[|Flat(ds[..n])|..|Flat(ds[..n + 1])|] == Frame(ds[n])
  {
    hide Frame, Flat;
    assert ds[..n + 1] == ds[..n] + [ds[n]];
    FlatSnoc(ds[..n], ds[n]);
    if n + 1 == |ds| {
      assert ds[..n + 1] == ds;
    } else {
      var front := ds[..|ds| - 1];
      assert front + [ds[|ds| - 1]] == ds;
      assert front[..n] == ds[..n] && front[..n + 1] == ds[..n + 1];
      FlatSnoc(front, ds[|ds| - 1]);
      FrameAt(front, n);
    }
  }

  /** What the receive code takes out of a header. */
  function Source(h: seq<byte>): seq<byte>
    requires |h| == HEADER
  {
    h[..4]
  }

  function Port(h: seq<byte>): uint16
    requires |h| == HEADER
  {
    (h[4] as int) * 0x100 + (h[5] as int)
  }

  function Length(h: seq<byte>): uint16
    requires |h| == HEADER
  {
    (h[6] as int) * 0x100 + (h[7] as int)
  }

  lemma HeaderIs(d: Packet)
    ensures var h := Frame(d)[..HEADER];
      Source(h) == d.ip && Port(h) == d.port && Length(h) == |d.payload|
    ensures Frame(d)[HEADER..] == d.payload
  {
    Be16RoundTrip(d.port);
    Be16RoundTrip(|d.payload|);
  }

  /** One recvfrom() that returned a datagram; `intact` is whether the payload's transfers succeeded. */
  datatype Received = Received(maxLen: nat, ip: seq<byte>, port: uint16, data: seq<byte>, intact: bool)

  /** A failed payload transfer goes unnoticed: address and length are right, the bytes need not be. */
  predicate Delivers(r: Received, d: Packet) {
    && r.ip == d.ip && r.port == d.port
    && |r.data| == Min(r.maxLen, |d.payload|)
    && (r.intact ==> r.data == d.payload[..|r.data|])
  }

  /** The transfers of one call: its header's, its payload's, and what lay in the header buffer before. */
  datatype Reads = Reads(header: Spi, payload: Spi, junk: seq<byte>)

  /** What happens while recvfrom() sleeps without the mutex. */
  datatype Nap = Nap(arriving: seq<Packet>, zombie: bool, waitOk: bool)

  predicate Ends(n: Nap) {
    n.zombie || !n.waitOk
  }

  /** Nothing happens in this nap: the call sleeps on. */
  predicate Calm(n: Nap) {
    !Ends(n) && n.arriving == []
  }

  /** The first nap in which something does, or the length of the script. */
  function FirstStir(naps: seq<Nap>): (s: nat)
    ensures s <= |naps| && (s < |naps| ==> !Calm(naps[s])) && forall k | 0 <= k < s :: Calm(naps[k])
  {
    if naps == [] || !Calm(naps[0]) then 0 else 1 + FirstStir(naps[1..])
  }

  /**
    The call returned a datagram, garbage because the header could not be read, 0 for an empty buffer, an
    error, or still sleeps at the end of the script.
   */
  datatype RecvOutcome = Got(r: Received) | Garbled(hdr: seq<byte>) | Nothing | NoData | Asleep

  /** What Sn_SR says of a TCP connection: still open, closed by the peer (SOCK_CLOSE_WAIT), or SOCK_CLOSED. */
  datatype Line = Up | Finished | Reset

  /** What happens while a TCP recvfrom() sleeps, and Sn_SR after it. */
  datatype TcpNap = TcpNap(arriving: seq<byte>, zombie: bool, waitOk: bool, line: Line)

  /** The call returned data, 0, 0 at the end of the stream, -1 for a reset, -1 without data, or still sleeps. */
  datatype TcpOutcome = Data(data: seq<byte>) | None | Eof | Broken | NoTcpData | TcpAsleep

  predicate TcpEnds(n: TcpNap) {
    n.zombie || !n.waitOk
  }

  predicate TcpCalm(n: TcpNap) {
    !TcpEnds(n) && n.arriving == [] && n.line.Up?
  }

  function FirstTcpStir(naps: seq<TcpNap>): (s: nat)
    ensures s <= |naps| && (s < |naps| ==> !TcpCalm(naps[s])) && forall k | 0 <= k < s :: TcpCalm(naps[k])
  {
    if naps == [] || !TcpCalm(naps[0]) then 0 else 1 + FirstTcpStir(naps[1..])
  }

  class RxRing {
    const buf: array<byte>
    /** Sn_RX_RD, and the chip's write pointer behind it. */
    var rxRd: uint16
    var rxWr: uint16
    ghost const start: nat
    /** Everything that ever arrived, and how much of it was consumed. */
    ghost var stream: seq<byte>
    ghost var taken: nat
    /** For a UDP socket: the datagrams that arrived, and the calls that returned one. */
    ghost var arrived: seq<Packet>
    ghost var got: seq<Received>

    ghost predicate Valid()
      reads this`rxRd, this`rxWr, this`stream, this`taken, buf
    {
      && buf.Length == RING
      && taken <= |stream| <= taken + RING
      && rxRd == (start + taken) % TWO_16 && rxWr == (start + |stream|) % TWO_16
      && forall p | taken <= p < |stream| :: buf[Cell(start, p)] == stream[p]
    }

    /**
      The read pointer stands on a frame boundary, behind exactly the datagrams handed out, and those were
      handed out in arrival order, each cut at the caller's buffer.
     */
    ghost predicate ValidUdp()
      reads this, buf
    {
      && Valid()
      && stream == Flat(arrived)
      && |got| <= |arrived| && taken == |Flat(arrived[..|got|])|
      && forall i | 0 <= i < |got| :: Delivers(got[i], arrived[i])
    }

    constructor (at: uint16)
      ensures ValidUdp() && fresh(buf) && arrived == [] && got == [] && stream == [] && taken == 0
    {
      buf := new byte[RING];
      rxRd, rxWr, start, stream, taken, arrived, got := at, at, at, [], 0, [], [];
    }

    /** Sn_RX_RSR. */
    method ReceivedSize() returns (n: uint16)
      requires Valid()
      ensures n == |stream| - taken
    {
      Distance(start + taken, start + |stream|);
      n := (rxWr - rxRd) % TWO_16;
    }

    /** The chip stores what fits, and drops the rest. */
    method Arrive(data: seq<byte>) returns (stored: bool)
      requires Valid()
      modifies this`rxWr, this`stream, buf
      ensures Valid() && stored == (old(|stream|) + |data| <= taken + RING)
      ensures stream == if stored then old(stream) + data else old(stream)
    {
      hide Cell;
      var n := ReceivedSize();
      stored := n + |data| <= RING;
      if stored {
        Store(data);
        Advance(start + |stream|, |data|);
        rxWr := (rxWr + |data|) % TWO_16;
        ghost var was := stream;
        stream := stream + data;
        forall p | taken <= p < |stream|
          ensures buf[Cell(start, p)] == stream[p]
        {
          if p >= |was| {
            assert Cell(start, |was| + (p - |was|)) == Cell(start, p);
          }
        }
      }
    }

    method Store(data: seq<byte>)
      requires Valid() && |stream| + |data| <= taken + RING
      modifies buf
      ensures Valid() && forall j | 0 <= j < |data| :: buf[Cell(start, |stream| + j)] == data[j]
    {
      hide Cell;
      var ok := SockBufWrite(buf, rxWr, data, Spi(true, true, 0));
      forall j | 0 <= j < |data|
        ensures Cell(rxWr, j) == Cell(start, |stream| + j)
      {
        CellOfWrapped(start + |stream|, j);
        CellShift(start, |stream|, j);
      }
      forall p | taken <= p < |stream|
        ensures buf[Cell(start, p)] == stream[p]
      {
        forall j | 0 <= j < |data|
          ensures Cell(rxWr, j) != Cell(start, p)
        {
          CellsApart(start + |stream| + j, start + p);
          CellIs(start, p);
          CellIs(start, |stream| + j);
        }
        assert Outside(Cell(start, p), rxWr, |data|);
      }
    }

    /** sock_buf_read, `skip` bytes behind the read pointer, over a buffer that held `before`. */
    method Peek(skip: nat, before: seq<byte>, spi: Spi) returns (ok: bool, data: seq<byte>)
      requires Valid() && taken + skip + |before| <= |stream|
      ensures |data| == |before| && ok == Succeeds((rxRd + skip) % TWO_16, |before|, spi)
      ensures ok ==> data == stream[taken + skip..taken + skip + |data|]
    {
      hide Cell, Succeeds;
      ok, data := SockBufRead(buf, (rxRd + skip) % TWO_16, before, spi);
      if ok {
        forall j | 0 <= j < |data|
          ensures data[j] == stream[taken + skip + j]
        {
          Advance(start + taken, skip);
          CellOfWrapped(start + taken + skip, j);
          CellShift(start, taken + skip, j);
        }
      }
    }

    /** Moving Sn_RX_RD and issuing RECV. */
    method Consume(n: nat)
      requires Valid() && taken + n <= |stream|
      modifies this`rxRd, this`taken
      ensures Valid() && taken == old(taken) + n
    {
      Advance(start + taken, n);
      rxRd := (rxRd + n) % TWO_16;
      taken := taken + n;
    }

    /**
      The TCP branch of w5500_recvfrom once data is there: the next bytes of the stream, in order, unless a
      transfer failed, which goes unnoticed and uses them up all the same.
     */
    method ReceiveStream(room: seq<byte>, spi: Spi) returns (data: seq<byte>)
      requires Valid()
      modifies this`rxRd, this`taken
      ensures Valid() && taken == old(taken) + |data| <= |stream|
      ensures |data| == Min(|room|, old(|stream| - taken))
      ensures Succeeds(old(rxRd), |data|, spi) ==> data == stream[old(taken)..taken]
    {
      hide Succeeds;
      var rsr := ReceivedSize();
      var take := Min(|room|, rsr);
      RegisterInRange();
      var ok;
      ok, data := Peek(0, room[..take], spi);
      Consume(take);
    }

    /**
      w5500_recvfrom on a TCP socket; `line` is Sn_SR before the first sleep. Data that is there is always handed
      out first, so the end of the stream and a reset are reported only when nothing is left unread. A call
      that has to wait goes on until the first nap in which something happens, and that decides what it returns.
     */
    method RecvStream(room: seq<byte>, nonblock: bool, line: Line, naps: seq<TcpNap>, spi: Spi)
      returns (outcome: TcpOutcome)
      requires Valid() && forall n | n in naps :: |n.arriving| <= RING
      modifies this`rxRd, this`rxWr, this`stream, this`taken, buf
      ensures Valid() && old(stream) <= stream
      ensures outcome.None? <==> |room| == 0
      ensures outcome.Data? ==>
        && |outcome.data| == Min(|room|, |stream| - old(taken)) && taken == old(taken) + |outcome.data|
        && (Succeeds(old(rxRd), |outcome.data|, spi) ==> outcome.data == stream[old(taken)..taken])
      ensures !outcome.Data? ==> taken == old(taken)
      ensures outcome.Eof? || outcome.Broken? ==> taken == |stream|
      ensures |room| > 0 && old(|stream| > taken) ==> outcome.Data? && stream == old(stream)
      ensures |room| > 0 && old(|stream| == taken) ==>
        var s := FirstTcpStir(naps);
        if line.Finished? then outcome.Eof?
        else if line.Reset? then outcome.Broken?
        else if nonblock then outcome.NoTcpData?
        else if s == |naps| then outcome.TcpAsleep?
        else if TcpEnds(naps[s]) then outcome.NoTcpData?
        else if naps[s].arriving != [] then outcome.Data? && stream == old(stream) + naps[s].arriving
        else if naps[s].line.Finished? then outcome.Eof?
        else outcome.Broken?
    {
      hide Valid, Succeeds;
      if |room| == 0 {
        return None;
      }
      var k, now := 0, line;
      ghost var s := FirstTcpStir(naps);
      while k <= |naps|
        invariant 0 <= k <= |naps| && Valid() && old(stream) <= stream
        invariant taken == old(taken) && rxRd == old(rxRd)
        invariant old(|stream| > taken) ==> k == 0 && stream == old(stream)
        invariant now == if k == 0 then line else naps[k - 1].line
        invariant k > 0 ==> line.Up? && !nonblock
        invariant old(|stream| == taken) ==>
          if stream == old(stream) && now.Up? then k <= s
          else if k == 0 then stream == old(stream)
          else k == s + 1 && !TcpEnds(naps[s]) && stream == old(stream) + naps[s].arriving
        decreases |naps| - k
      {
        var rsr := ReceivedSize();
        if rsr > 0 {
          var data := ReceiveStream(room, spi);
          return Data(data);
        }
        if !now.Up? {
          return if now.Finished? then Eof else Broken;
        }
        if nonblock {
          return NoTcpData;
        }
        if k == |naps| {
          return TcpAsleep;
        }
        assert naps[k] in naps;
        var _ := Arrive(naps[k].arriving);
        if naps[k].zombie || !naps[k].waitOk {
          return NoTcpData;
        }
        now := naps[k].line;
        k := k + 1;
      }
      outcome := TcpAsleep;
    }

    /** A datagram arriving at a UDP socket. */
    method ArrivePacket(d: Packet) returns (stored: bool)
      requires ValidUdp()
      modifies this`rxWr, this`stream, this`arrived, buf
      ensures ValidUdp()
      ensures arrived == if stored then old(arrived) + [d] else old(arrived)
      ensures stored == (old(|stream|) + HEADER + |d.payload| <= taken + RING)
    {
      hide Valid, Frame, Flat, Delivers;
      stored := Arrive(Frame(d));
      if stored {
        FlatSnoc(arrived, d);
        assert (arrived + [d])[..|got|] == arrived[..|got|];
        arrived := arrived + [d];
      }
    }

    method ArrivePackets(ds: seq<Packet>)
      requires ValidUdp()
      modifies this`rxWr, this`stream, this`arrived, buf
      ensures ValidUdp() && old(arrived) <= arrived
      ensures ds == [] ==> arrived == old(arrived)
      ensures ds != [] && old(|got| == |arrived|) ==> |got| < |arrived| && arrived[|got|] == ds[0]
    {
      hide ValidUdp;
      for i := 0 to |ds|
        invariant ValidUdp() && old(arrived) <= arrived
        invariant i == 0 ==> arrived == old(arrived)
        invariant i > 0 && old(|got| == |arrived|) ==> |got| < |arrived| && arrived[|got|] == ds[0]
      {
        if i == 0 && |got| == |arrived| {
          EmptyHasRoom();
        }
        var _ := ArrivePacket(ds[i]);
      }
    }

    /** With nothing waiting the whole ring is free. */
    lemma EmptyHasRoom()
      requires ValidUdp() && |got| == |arrived|
      ensures |stream| == taken
    {
      assert arrived[..|got|] == arrived;
    }

    /** A UDP ring holds data exactly when a datagram waits, and then a whole one. */
    lemma DatagramWaits()
      requires ValidUdp()
      ensures |stream| > taken <==> |got| < |arrived|
      ensures |got| < |arrived| ==>
        var d := arrived[|got|];
        && taken + HEADER + |d.payload| == |Flat(arrived[..|got| + 1])| <= |stream|
        && stream[taken..taken + HEADER + |d.payload|] == Frame(d)
    {
      if |got| < |arrived| {
        FrameAt(arrived, |got|);
      } else {
        assert arrived[..|got|] == arrived;
      }
    }

    /** Reading the header of the waiting datagram. */
    method ReadHeader(junk: seq<byte>, spi: Spi) returns (ok: bool, hdr: seq<byte>)
      requires ValidUdp() && |got| < |arrived| && |junk| == HEADER
      ensures |hdr| == HEADER && ok == Succeeds(rxRd, HEADER, spi)
      ensures ok ==> var d := arrived[|got|]; Source(hdr) == d.ip && Port(hdr) == d.port && Length(hdr) == |d.payload|
    {
      hide Valid, Frame, Flat, Succeeds, Source, Port, Length;
      DatagramWaits();
      HeaderIs(arrived[|got|]);
      ghost var frame := stream[taken..taken + HEADER + |arrived[|got|].payload|];
      RegisterInRange();
      ok, hdr := Peek(0, junk, spi);
      assert ok ==> hdr == frame[..HEADER];
    }

    lemma RegisterInRange()
      ensures (rxRd + 0) % TWO_16 == rxRd
    {
    }

    /** The UDP branch of w5500_recvfrom once data is there and its header could be read. */
    method TakeDatagram(room: seq<byte>, hdr: seq<byte>, spi: Spi) returns (r: Received)
      requires ValidUdp() && |got| < |arrived| && |hdr| == HEADER
      requires var d := arrived[|got|]; Source(hdr) == d.ip && Port(hdr) == d.port && Length(hdr) == |d.payload|
      modifies this`rxRd, this`taken, this`got
      ensures ValidUdp() && got == old(got) + [r] && r.maxLen == |room|
      ensures Delivers(r, arrived[|old(got)|])
      ensures r.intact == Succeeds((old(rxRd) + HEADER) % TWO_16, |r.data|, spi)
    {
      hide Valid, Frame, Flat, Succeeds, Source, Port, Length;
      DatagramWaits();
      ghost var d := arrived[|got|];
      ghost var frame := stream[taken..taken + HEADER + |d.payload|];
      HeaderIs(d);
      var dlen := Length(hdr);
      var take := Min(|room|, dlen);
      var ok, data := Peek(HEADER, room[..take], spi);
      assert ok ==> data == frame[HEADER..][..take];
      Consume(HEADER + dlen);
      r := Received(|room|, Source(hdr), Port(hdr), data, ok);
      got := got + [r];
    }

    /** Where the read pointer has to be for the datagram behind the waiting one. */
    ghost function NextHeader(): uint16
      requires |got| < |arrived|
      reads this
    {
      (start + |Flat(arrived[..|got| + 1])|) % TWO_16
    }

    /**
      w5500_recvfrom on a UDP socket, over a script of what happens while it sleeps. A header that cannot
      be read goes unnoticed: the pointer then moves by whatever length the buffer held, and is on the next
      header exactly if that happens to be the datagram's.
     */
    method RecvFrom(room: seq<byte>, nonblock: bool, naps: seq<Nap>, io: Reads) returns (outcome: RecvOutcome)
      requires ValidUdp() && |io.junk| == HEADER
      modifies this`rxRd, this`rxWr, this`stream, this`taken, this`arrived, this`got, buf
      ensures old(arrived) <= arrived
      ensures !outcome.Garbled? ==> ValidUdp()
      ensures outcome.Got? ==>
        && got == old(got) + [outcome.r] && outcome.r.maxLen == |room| && |got| <= |arrived|
        && Delivers(outcome.r, arrived[|old(got)|])
      ensures outcome.Got? ==>
        outcome.r.intact == Succeeds((old(rxRd) + HEADER) % TWO_16, |outcome.r.data|, io.payload)
      ensures !outcome.Got? ==> got == old(got)
      ensures outcome.Garbled? ==>
        && !Succeeds(old(rxRd), HEADER, io.header) && |outcome.hdr| == HEADER && |got| < |arrived|
        && (rxRd == NextHeader() <==> Length(outcome.hdr) == |arrived[|got|].payload|)
      ensures outcome.Nothing? <==> |room| == 0
      ensures |room| > 0 && old(|got| < |arrived|) ==>
        if Succeeds(old(rxRd), HEADER, io.header) then outcome.Got? else outcome.Garbled?
      ensures |room| > 0 && old(|got| == |arrived|) ==>
        var s := FirstStir(naps);
        && (outcome.Asleep? <==> !nonblock && s == |naps|)
        && (outcome.NoData? <==> nonblock || (s < |naps| && Ends(naps[s])))
        && (outcome.Got? || outcome.Garbled? <==> !nonblock && s < |naps| && !Ends(naps[s]))
        && (outcome.Got? || outcome.Garbled? ==> arrived[|old(got)|] == naps[s].arriving[0])
    {
      hide Flat, Frame, Valid, Succeeds, Length, Source, Port;
      if |room| == 0 {
        return Nothing;
      }
      var k := 0;
      ghost var s := FirstStir(naps);
      while k <= |naps|
        invariant 0 <= k <= |naps| && ValidUdp() && old(arrived) <= arrived && got == old(got)
        invariant old(|got| < |arrived|) ==> k == 0 && arrived == old(arrived)
        invariant old(|got| == |arrived|) ==> if |got| == |arrived| then k <= s else
          k == s + 1 && !Ends(naps[s]) && !nonblock && arrived[|got|] == naps[s].arriving[0]
        invariant rxRd == old(rxRd)
        decreases |naps| - k
      {
        var rsr := ReceivedSize();
        DatagramWaits();
        if rsr > 0 {
          var ok, hdr := ReadHeader(io.junk, io.header);
          if ok {
            var r := TakeDatagram(room, hdr, io.payload);
            return Got(r);
          }
          var dlen := Length(hdr);
          Misplaced(dlen);
          rxRd := (rxRd + HEADER + dlen) % TWO_16;
          return Garbled(hdr);
        }
        if nonblock {
          return NoData;
        }
        if k == |naps| {
          return Asleep;
        }
        ArrivePackets(naps[k].arriving);
        if naps[k].zombie || !naps[k].waitOk {
          return NoData;
        }
        k := k + 1;
      }
      outcome := Asleep;
    }

    /** Moving on by a header and n bytes reaches the next header exactly for the right n. */
    lemma Misplaced(n: uint16)
      requires ValidUdp() && |got| < |arrived|
      ensures (rxRd + HEADER + n) % TWO_16 == NextHeader() <==> n == |arrived[|got|].payload|
    {
      hide Flat, Frame;
      DatagramWaits();
      SameDistance(start + taken + HEADER, n, |arrived[|got|].payload|);
      Advance(start + taken, HEADER + n);
    }
  }

  lemma SameDistance(p: nat, m: nat, n: nat)
    requires m < TWO_16 && n < TWO_16
    ensures (p + m) % TWO_16 == (p + n) % TWO_16 <==> m == n
  {
  }

  lemma CellIs(a: nat, b: nat)
    ensures Cell(a, b) == (a + b) % RING
  {
  }
}
