/**
  A UDP transfer on a line that delivers every datagram once and in order, to a device with a healthy
  flash and no other upgrade going on. Host, device and the two directions of the line still interleave
  freely. Every such run is one of UdpTransfer, and it completes.
 */
module UdpDelivery {
  import opened Bytes
  import opened Wrappers
  import opened Crc16
  import opened Flash
  import opened FirmwareImage
  import opened UdpTransfer
  import D = UpgradeSystem
  import H = UdpHost
  import U = UdpFirmware

  /** The world, and what is on its way in either direction. */
  datatype Line = Line(world: World, frames: seq<Datagram>, replies: seq<Datagram>)

  datatype Move = Send | Arrive | Run | Read

  /** No old data lies under the image, or none that its writes would not erase. */
  predicate Covered(s: Setup, stale: set<nat>) {
    s.erases || Below(|s.img|) !! stale
  }

  /**
    A device with a key and a FW_START with a key hash have the same one, and the length FW_START erases
    covers the image if there is anything to erase.
   */
  predicate Welcome(s: Setup) {
    && Sensible(s) && (s.cfg.keyhash.Some? && SentKeyhash(s) != [] ==> SentKeyhash(s) == s.cfg.keyhash.value)
    && (|s.img| <= TWO_32 - SECTOR || Covered(s, s.stale))
  }

  function AtFirst(s: Setup): Line {
    Line(Begin(s), [StartFrame(s)], [])
  }

  predicate HasMail(l: Line, m: Move) {
    (m.Arrive? ==> l.frames != []) && (m.Read? ==> l.replies != [])
  }

  function StepOfMove(l: Line, m: Move): Step
    requires HasMail(l, m)
  {
    match m
    case Send => HostSends
    case Arrive => DeviceReceives(l.frames[0], D.ALL_WELL)
    case Run => DeviceRuns(D.UdpContinue(D.ALL_WELL))
    case Read => HostReceives(l.replies[0])
  }

  ghost predicate Can(s: Setup, l: Line, m: Move) {
    HasMail(l, m) && Possible(s, l.world, StepOfMove(l, m))
  }

  /** What the host sends next. */
  function Outgoing(s: Setup, w: World): Datagram
    requires SenderReady(s, w.host)
  {
    if w.host.sender.phase.Sending? then H.SendOne(s.img, w.host.chunk, w.host.sender).1 else EndFrame(s)
  }

  function Queued(q: seq<Datagram>, r: U.Reply): seq<Datagram> {
    if r.Some? then q + [r.value] else q
  }

  ghost function Go(s: Setup, l: Line, m: Move): Line
    requires Can(s, l, m)
  {
    var v := After(s, l.world, StepOfMove(l, m));
    match m
    case Send => Line(v, l.frames + [Outgoing(s, l.world)], l.replies)
    case Arrive =>
      var f := l.frames[0];
      Line(v, l.frames[1..], Queued(l.replies, D.Next(s.cfg, l.world.device, D.UdpCommand(f[0], f[1..], D.ALL_WELL)).1))
    case Run =>
      Line(v, l.frames, Queued(l.replies, D.Next(s.cfg, l.world.device, D.UdpContinue(D.ALL_WELL)).1))
    case Read => Line(v, l.frames, l.replies[1..])
  }

  // ----- one window -----

  /** The end of the window's n-th frame. */
  function Pos(total: nat, chunk: nat, off: nat, n: nat): (r: nat)
    requires off <= total
    ensures off <= r <= H.WinEnd(total, chunk, off) <= total
  {
    if n == 0 then off else Min(Pos(total, chunk, off, n - 1) + chunk, H.WinEnd(total, chunk, off))
  }

  lemma {:induction false} PosGrows(total: nat, chunk: nat, off: nat, a: nat, b: nat)
    requires off <= total && a <= b
    ensures Pos(total, chunk, off, a) <= Pos(total, chunk, off, b)
  {
    if a == b {
    } else {
      PosGrows(total, chunk, off, a, b - 1);
    }
  }

  function Frame(img: Image, chunk: nat, off: nat, n: nat): Datagram
    requires off <= |img|
  {
    PosGrows(|img|, chunk, off, n, n + 1);
    H.DataFrame(img, Pos(|img|, chunk, off, n), Pos(|img|, chunk, off, n + 1) - Pos(|img|, chunk, off, n))
  }

  function Ack(img: Image, chunk: nat, off: nat, n: nat): Datagram
    requires off <= |img|
  {
    U.OffsetReply(6, Pos(|img|, chunk, off, n + 1))
  }

  /** The window's frames number from..end. */
  function Frames(img: Image, chunk: nat, off: nat, from: nat, end: nat): (r: seq<Datagram>)
    requires off <= |img| && from <= end
    ensures |r| == end - from
  {
    seq(end - from, x requires 0 <= x < end - from => Frame(img, chunk, off, from + x))
  }

  function Acks(img: Image, chunk: nat, off: nat, from: nat, end: nat): (r: seq<Datagram>)
    requires off <= |img| && from <= end
    ensures |r| == end - from
  {
    seq(end - from, x requires 0 <= x < end - from => Ack(img, chunk, off, from + x))
  }

  lemma QueueMoves(img: Image, chunk: nat, off: nat, from: nat, end: nat)
    requires off <= |img| && from <= end
    ensures Frames(img, chunk, off, from, end + 1) == Frames(img, chunk, off, from, end) + [Frame(img, chunk, off, end)]
    ensures Acks(img, chunk, off, from, end + 1) == Acks(img, chunk, off, from, end) + [Ack(img, chunk, off, end)]
    ensures from < end ==> Frames(img, chunk, off, from, end)[0] == Frame(img, chunk, off, from)
    ensures from < end ==> Frames(img, chunk, off, from, end)[1..] == Frames(img, chunk, off, from + 1, end)
    ensures from < end ==> Acks(img, chunk, off, from, end)[0] == Ack(img, chunk, off, from)
    ensures from < end ==> Acks(img, chunk, off, from, end)[1..] == Acks(img, chunk, off, from + 1, end)
  {
    hide Frame, Ack;
  }

  // ----- what holds on the line -----

  /** The session is open, has `received` bytes, and old data is no danger to the image. */
  predicate Open(s: Setup, d: D.Device, received: nat) {
    d.udp.started && d.udp.pc.Idle? && d.udp.received == received && Covered(s, d.slot1.area.stale)
  }

  /** Of the frames of the window `sent` are out, `handled` were taken and `read` acknowledged. */
  predicate InWindow(s: Setup, l: Line, read: nat, handled: nat, sent: nat) {
    var host, total, chunk := l.world.host, |s.img|, s.cfg.chunk;
    && host.Streaming? && host.chunk == chunk
    && var h := host.sender; var off := h.off;
    && off < total && read <= handled <= sent
    && (sent > 0 ==> Pos(total, chunk, off, sent - 1) < H.WinEnd(total, chunk, off))
    && (|| (h.phase == H.Sending(Pos(total, chunk, off, sent)) && read == 0)
        || (h.phase == H.Receiving(Pos(total, chunk, off, read))
            && Pos(total, chunk, off, read) < Pos(total, chunk, off, sent) == H.WinEnd(total, chunk, off)))
    && Open(s, l.world.device, Pos(total, chunk, off, handled))
    && l.frames == Frames(s.img, chunk, off, handled, sent)
    && l.replies == Acks(s.img, chunk, off, read, handled)
  }

  ghost predicate Streams(s: Setup, l: Line) {
    exists read: nat, handled: nat, sent: nat :: InWindow(s, l, read, handled, sent)
  }

  function StartOk(s: Setup): Datagram {
    U.StartReply(s.cfg, U.FW_START_OK)
  }

  predicate Opening(s: Setup, l: Line) {
    var d := l.world.device;
    && l.world.host.Starting?
    && (|| (l.frames == [StartFrame(s)] && l.replies == [] && d == D.PowerOn(s.erases, s.stale))
        || (l.frames == [] && l.replies == [] && d.udp.pc.Locked? && d.udp.size == |s.img|
            && d.slot1 == AtPowerUp(s.erases, s.stale))
        || (l.frames == [] && l.replies == [] && d.udp.pc.Erased? && Covered(s, d.slot1.area.stale))
        || (l.frames == [] && l.replies == [StartOk(s)] && Open(s, d, 0)))
  }

  predicate AllSent(s: Setup, l: Line) {
    && l.world.host.Streaming? && l.world.host.sender == H.Host(|s.img|, 0, H.Done)
    && 0 < l.world.host.chunk
    && l.frames == [] && l.replies == [] && Open(s, l.world.device, |s.img|)
  }

  predicate Asking(s: Setup, l: Line) {
    l.world.host.Ending? && l.frames == [EndFrame(s)] && l.replies == [] && Open(s, l.world.device, |s.img|)
  }

  /** The image was verified, and the flash holds it. */
  predicate Installed(s: Setup, l: Line) {
    && l.frames == [] && l.world.device.udp.verified && l.world.device.slot1.area.programmed == s.img
    && ((l.world.host.Ending? && l.replies == [U.EndReply(1)]) || (l.world.host.Succeeded? && l.replies == []))
  }

  ghost predicate Orderly(s: Setup, l: Line) {
    && WInv(s, l.world)
    && (forall f | f in l.frames :: f in l.world.toDevice) && (forall r | r in l.replies :: r in l.world.toHost)
    && (Opening(s, l) || Streams(s, l) || AllSent(s, l) || Asking(s, l) || Installed(s, l))
  }

  // ----- every move keeps it -----

  lemma SendInWindow(s: Setup, l: Line, read: nat, handled: nat, sent: nat)
    requires Welcome(s) && InWindow(s, l, read, handled, sent) && l.world.host.sender.phase.Sending? && Can(s, l, Send)
    ensures InWindow(s, Go(s, l, Send), read, handled, sent + 1)
  {
    hide Accepts, KeyhashOf, SentKeyhash, Open, Frames, Acks, H.DataFrame;
    var off := l.world.host.sender.off;
    QueueMoves(s.img, s.cfg.chunk, off, handled, sent);
    PosGrows(|s.img|, s.cfg.chunk, off, 0, sent);
  }

  /** The host does not notice what the device does. */
  lemma DeviceMoves(s: Setup, l: Line, m: Move)
    requires (m.Arrive? || m.Run?) && Can(s, l, m)
    ensures var a := if m.Run? then D.UdpContinue(D.ALL_WELL)
                     else D.UdpCommand(l.frames[0][0], l.frames[0][1..], D.ALL_WELL);
            var (d, r) := D.Next(s.cfg, l.world.device, a);
            var v := Go(s, l, m);
      && v.world.host == l.world.host && v.world.device == d
      && v.frames == (if m.Run? then l.frames else l.frames[1..]) && v.replies == Queued(l.replies, r)
  {
    hide D.Next;
  }

  /** The frame at the head of the queue is the one the device waits for. */
  lemma HeadIsDue(s: Setup, l: Line, read: nat, handled: nat, sent: nat)
    requires InWindow(s, l, read, handled, sent) && l.frames != []
    ensures handled < sent
    ensures var off, total, chunk := l.world.host.sender.off, |s.img|, s.cfg.chunk;
            var from, end := Pos(total, chunk, off, handled), Pos(total, chunk, off, handled + 1);
      && (s.cfg.chunk > 0 ==> from < end) && l.frames[0] == H.DataFrame(s.img, from, end - from)
      && Open(s, l.world.device, from)
      && l.frames[1..] == Frames(s.img, chunk, off, handled + 1, sent)
      && l.replies + [U.OffsetReply(6, end)] == Acks(s.img, chunk, off, read, handled + 1)
  {
    hide Open, Frames, Acks, U.OffsetReply, H.DataFrame;
    var off, total, chunk := l.world.host.sender.off, |s.img|, s.cfg.chunk;
    QueueMoves(s.img, chunk, off, handled, sent);
    QueueMoves(s.img, chunk, off, read, handled);
    PosGrows(total, chunk, off, handled, sent - 1);
  }

  lemma ArriveInWindow(s: Setup, l: Line, read: nat, handled: nat, sent: nat)
    requires Welcome(s) && WInv(s, l.world) && InWindow(s, l, read, handled, sent) && Can(s, l, Arrive)
    ensures InWindow(s, Go(s, l, Arrive), read, handled + 1, sent)
  {
    hide Accepts, KeyhashOf, WInv, Go, U.KeyhashRefused, Open, Frames, Acks, U.OffsetReply, H.DataFrame;
    var off, total, chunk := l.world.host.sender.off, |s.img|, s.cfg.chunk;
    HeadIsDue(s, l, read, handled, sent);
    DeviceMoves(s, l, Arrive);
    hide D.Next, Can;
    FrameIsTaken(s, l.world, Pos(total, chunk, off, handled), Pos(total, chunk, off, handled + 1));
  }

  /** The frame of the image that is due is written and answered with its end. */
  lemma FrameIsTaken(s: Setup, w: World, from: nat, end: nat)
    requires Sensible(s) && WInv(s, w) && Open(s, w.device, from) && from < end <= |s.img|
    ensures var f := H.DataFrame(s.img, from, end - from);
      var (d, r) := D.Next(s.cfg, w.device, D.UdpCommand(f[0], f[1..], D.ALL_WELL));
      Open(s, d, end) && r == Some(U.OffsetReply(6, end))
  {
    hide Accepts, KeyhashOf, WInv, D.Next, H.Carries, U.OffsetReply;
    ItCarries(s.img, from, end);
    DataFrameEffect(s, w, H.DataFrame(s.img, from, end - from), D.ALL_WELL);
  }

  lemma ItCarries(img: Image, from: nat, end: nat)
    requires from < end <= |img|
    ensures H.Carries(img, H.DataFrame(img, from, end - from))
    ensures FromLe32(H.DataFrame(img, from, end - from)[1..5]) == from
    ensures |H.DataFrame(img, from, end - from)| == 5 + end - from
  {
    var f := H.DataFrame(img, from, end - from);
    assert f[1..5] == Le32(from) && f[5..] == img[from..end];
    Le32RoundTrip(from);
  }

  lemma HostReads(s: Setup, l: Line)
    requires Can(s, l, Read) && l.world.host.Streaming?
    ensures l.replies != [] && l.world.host.sender.phase.Receiving? && SenderReady(s, l.world.host)
    ensures Go(s, l, Read) ==
            l.(world := l.world.(host := Streaming(l.world.host.chunk,
                 H.ReceiveOne(|s.img|, l.world.host.chunk, l.world.host.sender, l.replies[0]))),
               replies := l.replies[1..])
  {
    hide H.ReceiveOne;
  }

  /** An acknowledgement inside the window raises the confirmed offset. */
  lemma ReadOn(s: Setup, l: Line, read: nat, handled: nat, sent: nat)
    requires InWindow(s, l, read, handled, sent) && Can(s, l, Read)
    requires Pos(|s.img|, s.cfg.chunk, l.world.host.sender.off, read + 1)
             < H.WinEnd(|s.img|, s.cfg.chunk, l.world.host.sender.off)
    ensures InWindow(s, Go(s, l, Read), read + 1, handled, sent)
  {
    hide Can, Go, H.Acked, U.OffsetReply, Open;
    var off, total, chunk := l.world.host.sender.off, |s.img|, s.cfg.chunk;
    HostReads(s, l);
    QueueMoves(s.img, chunk, off, read, handled);
    PosGrows(total, chunk, off, read, read + 1);
    OffsetReplyAck(Pos(total, chunk, off, read + 1));
    hide Frames, Acks;
  }

  /** The last acknowledgement of the window opens the next one, or ends the data. */
  lemma ReadLast(s: Setup, l: Line, read: nat, handled: nat, sent: nat)
    requires InWindow(s, l, read, handled, sent) && Can(s, l, Read)
    requires Pos(|s.img|, s.cfg.chunk, l.world.host.sender.off, read + 1)
             == H.WinEnd(|s.img|, s.cfg.chunk, l.world.host.sender.off)
    ensures InWindow(s, Go(s, l, Read), 0, 0, 0) || AllSent(s, Go(s, l, Read))
  {
    hide Can, Go, H.Acked, U.OffsetReply;
    var off, total, chunk := l.world.host.sender.off, |s.img|, s.cfg.chunk;
    var next := Pos(total, chunk, off, read + 1);
    HostReads(s, l);
    QueueMoves(s.img, chunk, off, read, handled);
    OffsetReplyAck(next);
    if read + 1 < sent {
      PosGrows(total, chunk, off, read + 1, sent - 1);
    }
    assert read + 1 == handled == sent;
    PosGrows(total, chunk, next, 0, 0);
  }

  lemma ReadInWindow(s: Setup, l: Line, read: nat, handled: nat, sent: nat)
    requires InWindow(s, l, read, handled, sent) && Can(s, l, Read)
    ensures var v := Go(s, l, Read);
      InWindow(s, v, read + 1, handled, sent) || InWindow(s, v, 0, 0, 0) || AllSent(s, v)
  {
    hide Can, Go;
    if Pos(|s.img|, s.cfg.chunk, l.world.host.sender.off, read + 1)
       < H.WinEnd(|s.img|, s.cfg.chunk, l.world.host.sender.off) {
      hide InWindow;
      ReadOn(s, l, read, handled, sent);
    } else {
      hide InWindow;
      ReadLast(s, l, read, handled, sent);
    }
  }

  /** FW_START arrives at a device where nothing else is going on. */
  lemma StartArrives(s: Setup, d: D.Device, io: Io)
    requires Welcome(s) && d == D.PowerOn(s.erases, s.stale)
    ensures var f := StartFrame(s);
      var (d', r) := D.Next(s.cfg, d, D.UdpCommand(f[0], f[1..], io));
      r == None && d'.udp.pc.Locked? && d'.udp.size == |s.img| && d'.slot1 == d.slot1
  {
    hide Accepts, KeyhashOf, SentKeyhash;
    HashIsCarried(s);
    assert StartFrame(s)[1..][..4] == Le32(|s.img|);
    Le32RoundTrip(|s.img|);
  }

  /** The erase reaches over the whole image, and the image is set up. */
  lemma SessionOpens(s: Setup, d: D.Device)
    requires |s.img| <= TWO_32 - SECTOR || Covered(s, s.stale)
    requires !U.Resting(d.udp.pc) && !d.udp.pc.Failing?
    requires d.udp.pc.Locked? ==> d.udp.size == |s.img| && d.slot1 == AtPowerUp(s.erases, s.stale)
    requires d.udp.pc.Erased? ==> Covered(s, d.slot1.area.stale)
    ensures var (d', r) := D.Next(s.cfg, d, D.UdpContinue(D.ALL_WELL));
      if d.udp.pc.Locked? then r == None && d'.udp.pc.Erased? && Covered(s, d'.slot1.area.stale)
      else Open(s, d', 0) && r == Some(StartOk(s))
  {
    EraseLenCovers(|s.img|);
  }

  lemma StartIsRead(s: Setup)
    requires Sensible(s)
    ensures AfterStartReply(s, StartOk(s)) == Streaming(s.cfg.chunk, H.OpenWindow(|s.img|, 0, 0))
    ensures |s.img| > 0
  {
    hide KeyhashOf;
    assert StartOk(s)[2..4] == Le16(s.cfg.chunk);
    Le16RoundTrip(s.cfg.chunk);
  }

  lemma OpeningKeeps(s: Setup, l: Line, m: Move)
    requires Welcome(s) && Opening(s, l) && Can(s, l, m)
    ensures Opening(s, Go(s, l, m)) || InWindow(s, Go(s, l, m), 0, 0, 0)
  {
    hide Accepts, KeyhashOf, SentKeyhash, D.Next, AfterStartReply, StartOk;
    match m
    case Arrive =>
      StartArrives(s, l.world.device, D.ALL_WELL);
      DeviceMoves(s, l, m);
    case Run =>
      SessionOpens(s, l.world.device);
      DeviceMoves(s, l, m);
    case Read => StartIsRead(s);
    case Send =>
  }

  /** FW_END with a healthy flash: the image is flushed, read back right and verified. */
  lemma EndArrives(s: Setup, w: World)
    requires Sensible(s) && WInv(s, w) && Open(s, w.device, |s.img|)
    ensures var f := EndFrame(s);
      var (d, r) := D.Next(s.cfg, w.device, D.UdpCommand(f[0], f[1..], D.ALL_WELL));
      r == Some(U.EndReply(1)) && d.udp.verified && d.slot1.area.programmed == s.img
  {
    hide Accepts, KeyhashOf, Crc, D.Next;
    var area := w.device.slot1.area;
    SoundSlot(s, w);
    assert area.bytes == s.img[..|s.img|] == s.img;
    FlashHoldsIff(area, D.ALL_WELL);
    assert U.Readable(|s.img|, {});
    EndFrameEffect(s, w.device, D.ALL_WELL);
  }

  lemma LaterKeeps(s: Setup, l: Line, m: Move)
    requires Sensible(s) && WInv(s, l.world) && Can(s, l, m) && (AllSent(s, l) || Asking(s, l) || Installed(s, l))
    ensures Asking(s, Go(s, l, m)) || (Installed(s, Go(s, l, m)) && !AllSent(s, l))
  {
    hide Accepts, KeyhashOf, D.Next, WInv, Crc;
    if Asking(s, l) && m.Arrive? {
      EndArrives(s, l.world);
      DeviceMoves(s, l, m);
    } else if Installed(s, l) {
      NothingRuns(s, l.world);
    }
  }

  lemma NothingRuns(s: Setup, w: World)
    requires WInv(s, w)
    ensures w.device.udp.verified ==> U.Resting(w.device.udp.pc)
  {
  }

  lemma StreamKeeps(s: Setup, l: Line, m: Move)
    requires Welcome(s) && WInv(s, l.world) && Streams(s, l) && Can(s, l, m)
    ensures Streams(s, Go(s, l, m)) || AllSent(s, Go(s, l, m))
  {
    hide Can, Go, WInv;
    var read: nat, handled: nat, sent: nat :| InWindow(s, l, read, handled, sent);
    WhoMoves(s, l, m, read, handled, sent);
    hide InWindow;
    match m
    case Send => SendInWindow(s, l, read, handled, sent);
    case Arrive => ArriveInWindow(s, l, read, handled, sent);
    case Run =>
    case Read => ReadInWindow(s, l, read, handled, sent);
  }

  lemma WhoMoves(s: Setup, l: Line, m: Move, read: nat, handled: nat, sent: nat)
    requires InWindow(s, l, read, handled, sent) && Can(s, l, m)
    ensures !m.Run? && (m.Send? ==> l.world.host.sender.phase.Sending?)
  {
  }

  /** What is on its way was sent. */
  lemma QueuesWereSent(s: Setup, l: Line, m: Move)
    requires Can(s, l, m)
    requires (forall f | f in l.frames :: f in l.world.toDevice) && (forall r | r in l.replies :: r in l.world.toHost)
    requires m.Send? ==> !l.world.host.sender.phase.GaveUp?
    ensures forall f | f in Go(s, l, m).frames :: f in Go(s, l, m).world.toDevice
    ensures forall r | r in Go(s, l, m).replies :: r in Go(s, l, m).world.toHost
    ensures Go(s, l, m).world == After(s, l.world, StepOfMove(l, m))
  {
    hide D.Next, H.SendOne, EndFrame;
  }

  lemma NobodyGaveUp(s: Setup, l: Line)
    requires Opening(s, l) || Streams(s, l) || AllSent(s, l) || Asking(s, l) || Installed(s, l)
    ensures l.world.host.Streaming? ==> !l.world.host.sender.phase.GaveUp?
  {
  }

  lemma MoveKeeps(s: Setup, l: Line, m: Move)
    requires Welcome(s) && Orderly(s, l) && Can(s, l, m)
    ensures Orderly(s, Go(s, l, m))
  {
    NobodyGaveUp(s, l);
    QueuesWereSent(s, l, m);
    hide Go, Can, Opening, AllSent, Asking, Installed, WInv, After, InWindow, Possible;
    assert Possible(s, l.world, StepOfMove(l, m)) by {
      CanIsPossible(s, l, m);
    }
    StepKeepsWInv(s, l.world, StepOfMove(l, m));
    if Opening(s, l) {
      OpeningKeeps(s, l, m);
    } else if Streams(s, l) {
      StreamKeeps(s, l, m);
    } else {
      LaterKeeps(s, l, m);
    }
  }

  lemma CanIsPossible(s: Setup, l: Line, m: Move)
    requires Can(s, l, m)
    ensures HasMail(l, m) && Possible(s, l.world, StepOfMove(l, m))
  {
  }

  // ----- every delivery ends, and ends well -----

  /** Work left: bytes to send, frames to handle, replies to read. */
  function Work(s: Setup, l: Line): int {
    var h, pc := l.world.host, l.world.device.udp.pc;
    if h.Starting? then
      3 * |s.img| + if l.frames != [] then 12 else if pc.Locked? then 11 else if pc.Erased? then 10 else 9
    else if h.Streaming? then
      var unsent := match h.sender.phase
        case Sending(w) => |s.img| - w
        case Receiving(_) => |s.img| - H.WinEnd(|s.img|, h.chunk, h.sender.off)
        case _ => 0;
      3 * unsent + 2 * |l.frames| + |l.replies| + 5
    else if h.Ending? then 2 * |l.frames| + |l.replies| + 2
    else 0
  }

  lemma OpeningWork(s: Setup, l: Line, m: Move)
    requires Welcome(s) && Opening(s, l) && Can(s, l, m)
    ensures 0 <= Work(s, Go(s, l, m)) < Work(s, l)
  {
    hide Accepts, KeyhashOf, SentKeyhash, D.Next, AfterStartReply, StartOk;
    match m
    case Arrive =>
      StartArrives(s, l.world.device, D.ALL_WELL);
      DeviceMoves(s, l, m);
    case Run =>
      SessionOpens(s, l.world.device);
      DeviceMoves(s, l, m);
    case Read => StartIsRead(s);
    case Send =>
  }

  lemma StreamingWork(s: Setup, l: Line, m: Move)
    requires WInv(s, l.world) && Can(s, l, m) && l.world.host.Streaming? && !m.Run?
    requires m.Send? ==> !l.world.host.sender.phase.GaveUp?
    ensures 0 <= Work(s, Go(s, l, m)) < Work(s, l)
  {
    hide D.Next, H.Acked, H.DataFrame, EndFrame, FrameOk, ReplyOk, VerifiedOk, D.Inv, DevicePrefix;
    match m
    case Arrive => DeviceMoves(s, l, m);
    case Read => HostReads(s, l);
    case _ =>
  }

  lemma LastWork(s: Setup, l: Line, m: Move)
    requires Sensible(s) && WInv(s, l.world) && Can(s, l, m) && (Asking(s, l) || Installed(s, l))
    ensures 0 <= Work(s, Go(s, l, m)) < Work(s, l)
  {
    hide Accepts, KeyhashOf, D.Next, WInv, Crc;
    if Asking(s, l) && m.Arrive? {
      EndArrives(s, l.world);
      DeviceMoves(s, l, m);
    } else if Installed(s, l) {
      NothingRuns(s, l.world);
    }
  }

  lemma NothingRunsWhileStreaming(s: Setup, l: Line)
    requires Streams(s, l) || AllSent(s, l)
    ensures l.world.host.Streaming? && U.Resting(l.world.device.udp.pc)
  {
  }

  lemma WorkGoesDown(s: Setup, l: Line, m: Move)
    requires Welcome(s) && Orderly(s, l) && Can(s, l, m)
    ensures 0 <= Work(s, Go(s, l, m)) < Work(s, l)
  {
    NobodyGaveUp(s, l);
    if Streams(s, l) || AllSent(s, l) {
      NothingRunsWhileStreaming(s, l);
    }
    hide Go, Opening, Streams, AllSent, Asking, Installed, WInv, Work;
    if Opening(s, l) {
      OpeningWork(s, l, m);
    } else if Streams(s, l) || AllSent(s, l) {
      CanIsPossible(s, l, m);
      hide Can;
      StreamingWork(s, l, m);
    } else {
      hide Can;
      LastWork(s, l, m);
    }
  }

  /** While the host waits for a window's acknowledgements, something is on its way. */
  lemma SomethingIsOnItsWay(s: Setup, l: Line, read: nat, handled: nat, sent: nat)
    requires InWindow(s, l, read, handled, sent)
    ensures l.world.host.Streaming? && (l.world.host.sender.phase.Sending? || l.world.host.sender.phase.Receiving?)
    ensures l.world.host.sender.phase.Receiving? ==> l.frames != [] || l.replies != []
    ensures l.frames != [] ==> l.frames[0] != []
    ensures l.world.device.udp.pc.Idle?
  {
    if l.frames != [] {
      HeadIsDue(s, l, read, handled, sent);
    }
  }

  /** Nobody ever waits for a datagram that is not coming. */
  lemma SomeMove(s: Setup, l: Line) returns (m: Move)
    requires Sensible(s) && Orderly(s, l) && !l.world.host.Succeeded?
    ensures Can(s, l, m)
  {
    hide Accepts, KeyhashOf, InWindow, StartOk, FrameOk, ReplyOk, VerifiedOk, D.Inv, DevicePrefix;
    m := if l.frames != [] then Arrive
         else if l.replies != [] && Waiting(s, l.world.host) then Read
         else if !U.Resting(l.world.device.udp.pc) then Run
         else Send;
    if Streams(s, l) {
      var read: nat, handled: nat, sent: nat :| InWindow(s, l, read, handled, sent);
      SomethingIsOnItsWay(s, l, read, handled, sent);
    }
    if m.Arrive? {
      assert l.frames[0] in l.world.toDevice;
    } else if m.Read? {
      assert l.replies[0] in l.world.toHost;
    }
  }

  // ----- runs -----

  ghost predicate IsDelivery(s: Setup, lines: seq<Line>, moves: seq<Move>) {
    && |lines| == |moves| + 1 && lines[0] == AtFirst(s)
    && forall i | 0 <= i < |moves| :: Can(s, lines[i], moves[i]) && lines[i + 1] == Go(s, lines[i], moves[i])
  }

  lemma OrderlyAtFirst(s: Setup)
    requires Sensible(s)
    ensures Orderly(s, AtFirst(s)) && Work(s, AtFirst(s)) == 3 * |s.img| + 12
  {
    hide Accepts, KeyhashOf;
    var trace, steps := [Begin(s)], [];
    ReachableInv(s, trace, steps, 0);
  }

  lemma MoveOf(s: Setup, lines: seq<Line>, moves: seq<Move>, n: nat)
    requires IsDelivery(s, lines, moves)
    ensures |lines| == |moves| + 1 && lines[0] == AtFirst(s)
    ensures n < |moves| ==> Can(s, lines[n], moves[n]) && lines[n + 1] == Go(s, lines[n], moves[n])
  {
  }

  lemma {:induction false} DeliveryKeeps(s: Setup, lines: seq<Line>, moves: seq<Move>, n: nat)
    requires Welcome(s) && IsDelivery(s, lines, moves) && n <= |moves|
    ensures Orderly(s, lines[n]) && 0 <= Work(s, lines[n]) <= 3 * |s.img| + 12 - n
  {
    hide *;
    MoveOf(s, lines, moves, 0);
    if n == 0 {
      WelcomeIsSensible(s);
      OrderlyAtFirst(s);
    } else {
      MoveOf(s, lines, moves, n - 1);
      DeliveryKeeps(s, lines, moves, n - 1);
      MoveKeeps(s, lines[n - 1], moves[n - 1]);
      WorkGoesDown(s, lines[n - 1], moves[n - 1]);
    }
  }

  lemma WelcomeIsSensible(s: Setup)
    requires Welcome(s)
    ensures Sensible(s)
  {
  }

  /** The worlds of a delivery are a run of host, network and device. */
  lemma DeliveryIsARun(s: Setup, lines: seq<Line>, moves: seq<Move>) returns (trace: seq<World>, steps: seq<Step>)
    requires Welcome(s) && IsDelivery(s, lines, moves)
    ensures IsRun(s, trace, steps) && |steps| == |moves|
    ensures forall i | 0 <= i <= |moves| :: trace[i] == lines[i].world
  {
    hide Welcome, Can, Go, Possible, After, Orderly;
    forall i | 0 <= i < |moves|
      ensures HasMail(lines[i], moves[i]) && Possible(s, lines[i].world, StepOfMove(lines[i], moves[i]))
      ensures lines[i + 1].world == After(s, lines[i].world, StepOfMove(lines[i], moves[i]))
    {
      MoveOf(s, lines, moves, i);
      DeliveryKeeps(s, lines, moves, i);
      GoIsAfter(s, lines[i], moves[i]);
    }
    trace := seq(|lines|, i requires 0 <= i < |lines| => lines[i].world);
    steps := seq(|moves|, i requires 0 <= i < |moves| && HasMail(lines[i], moves[i]) => StepOfMove(lines[i], moves[i]));
  }

  lemma GoIsAfter(s: Setup, l: Line, m: Move)
    requires Orderly(s, l) && Can(s, l, m)
    ensures HasMail(l, m) && Possible(s, l.world, StepOfMove(l, m))
    ensures Go(s, l, m).world == After(s, l.world, StepOfMove(l, m))
  {
    NobodyGaveUp(s, l);
    QueuesWereSent(s, l, m);
  }

  /** What success means on the line. */
  lemma SuccessIsInstalled(s: Setup, l: Line)
    requires Orderly(s, l) && l.world.host.Succeeded?
    ensures l.world.device.udp.verified && l.world.device.slot1.area.programmed == s.img
  {
  }

  /**
    On a line that keeps every datagram, with a healthy flash, every interleaving of host, device and line is
    over after at most 3 * |img| + 12 moves; and if nothing more can happen the host has succeeded, the
    image is the verified one, and the flash holds it.
   */
  lemma DeliveryCompletes(s: Setup, lines: seq<Line>, moves: seq<Move>)
    requires Welcome(s) && IsDelivery(s, lines, moves)
    ensures |moves| <= 3 * |s.img| + 12
    ensures var l := lines[|moves|];
      if l.world.host.Succeeded? then l.world.device.udp.verified && l.world.device.slot1.area.programmed == s.img
      else exists m :: Can(s, l, m)
  {
    hide *;
    MoveOf(s, lines, moves, 0);
    DeliveryKeeps(s, lines, moves, |moves|);
    var l := lines[|moves|];
    if l.world.host.Succeeded? {
      SuccessIsInstalled(s, l);
    } else {
      WelcomeIsSensible(s);
      var m := SomeMove(s, l);
    }
  }

  // ----- a delivery for every image -----

  /** Before the host's FW_END arrives. */
  predicate Underway(s: Setup, l: Line) {
    l.world.host.Starting? || l.world.host.Streaming? || l.frames != []
  }

  lemma UnderwayIs(s: Setup, l: Line)
    ensures Opening(s, l) || Streams(s, l) || AllSent(s, l) || Asking(s, l) ==> Underway(s, l)
    ensures Underway(s, l) ==> !Installed(s, l)
  {
  }

  lemma UnderwayUntilAsking(s: Setup, l: Line, m: Move)
    requires Welcome(s) && Orderly(s, l) && Can(s, l, m) && Underway(s, l) && !Asking(s, l)
    ensures Underway(s, Go(s, l, m))
  {
    WelcomeIsSensible(s);
    UnderwayIs(s, l);
    UnderwayIs(s, Go(s, l, m));
    hide Welcome, Sensible, Can, Go, Opening, Streams, AllSent, Asking, Installed, Underway, WInv;
    if Opening(s, l) {
      OpeningKeeps(s, l, m);
      if InWindow(s, Go(s, l, m), 0, 0, 0) {
        AtTheFront(s, Go(s, l, m));
      }
    } else if Streams(s, l) {
      StreamKeeps(s, l, m);
    } else {
      LaterKeeps(s, l, m);
    }
  }

  lemma AtTheFront(s: Setup, l: Line)
    requires InWindow(s, l, 0, 0, 0)
    ensures Streams(s, l)
  {
  }

  lemma Extend(s: Setup, lines: seq<Line>, moves: seq<Move>, m: Move)
    returns (lines': seq<Line>, moves': seq<Move>)
    requires IsDelivery(s, lines, moves) && |lines| == |moves| + 1 && Can(s, lines[|moves|], m)
    ensures lines' == lines + [Go(s, lines[|moves|], m)] && moves' == moves + [m] && IsDelivery(s, lines', moves')
  {
    hide Can, Go;
    lines', moves' := lines + [Go(s, lines[|moves|], m)], moves + [m];
  }

  /** Any delivery under way can be led to the point where FW_END is about to arrive. */
  lemma {:induction false} LedToTheEnd(s: Setup, lines: seq<Line>, moves: seq<Move>)
    returns (lines': seq<Line>, moves': seq<Move>)
    requires Welcome(s) && IsDelivery(s, lines, moves) && |lines| == |moves| + 1 && Underway(s, lines[|moves|])
    ensures IsDelivery(s, lines', moves') && |lines'| == |moves'| + 1 && Asking(s, lines'[|moves'|])
    decreases 3 * |s.img| + 12 - |moves|
  {
    hide *;
    var l := lines[|moves|];
    DeliveryKeeps(s, lines, moves, |moves|);
    if Asking(s, l) {
      lines', moves' := lines, moves;
    } else {
      WelcomeIsSensible(s);
      UnderwayIsNotOver(s, l);
      var m := SomeMove(s, l);
      UnderwayUntilAsking(s, l, m);
      WorkGoesDown(s, l, m);
      lines', moves' := Extend(s, lines, moves, m);
      lines', moves' := LedToTheEnd(s, lines', moves');
    }
  }

  lemma UnderwayIsNotOver(s: Setup, l: Line)
    requires Orderly(s, l) && Underway(s, l)
    ensures !l.world.host.Succeeded?
  {
    NobodyGaveUp(s, l);
    hide InWindow;
  }

  /** For every accepted image there is a run at whose end the image is whole on the device and FW_END arrives. */
  lemma WholeImageArrives(s: Setup) returns (trace: seq<World>, steps: seq<Step>)
    requires Welcome(s)
    ensures IsRun(s, trace, steps) && |trace| == |steps| + 1
    ensures var w := trace[|steps|];
      w.host.Ending? && EndFrame(s) in w.toDevice && Whole(s, w.device) && w.device.udp.pc.Idle? && WInv(s, w)
  {
    hide *;
    var lines, moves := NothingYet(s);
    lines, moves := LedToTheEnd(s, lines, moves);
    trace, steps := DeliveryIsARun(s, lines, moves);
    DeliveryKeeps(s, lines, moves, |moves|);
    AskingIsWhole(s, lines[|moves|]);
    StepOf(s, trace, steps, 0);
  }

  lemma NothingYet(s: Setup) returns (lines: seq<Line>, moves: seq<Move>)
    ensures IsDelivery(s, lines, moves) && |lines| == 1 && moves == [] && Underway(s, lines[0])
  {
    lines, moves := [AtFirst(s)], [];
  }

  lemma AskingIsWhole(s: Setup, l: Line)
    requires Orderly(s, l) && Asking(s, l)
    ensures var w := l.world;
      w.host.Ending? && EndFrame(s) in w.toDevice && Whole(s, w.device) && w.device.udp.pc.Idle? && WInv(s, w)
  {
    assert EndFrame(s) in l.frames;
  }
}
