/**
  One firmware transfer over UDP, end to end: the host tool, the device with all its upgrade
  channels, and a network that may lose, duplicate and reorder datagrams at will. The network is
  kept as the sets of datagrams ever sent: any of them may arrive at any time, any number of times.
 */
module UdpTransfer {
  import opened Bytes
  import opened Wrappers
  import opened UpgradeLock
  import opened Crc16
  import opened Flash
  import opened FirmwareImage
  import opened UpgradeSystem
  import H = UdpHost
  import U = UdpFirmware

  type Datagram = seq<byte>

  const UDP_CHUNK_SIZE_V2_MAX := 1400
  const MIN_V2_CHUNK := 512

  /**
    What one run is about: the image and the host's options, the device's build, and the old data in its
    slot1. `erases` is the part of the build that Flash.Partition explains.
   */
  datatype Setup = Setup(img: Image, noKeyhash: bool, testMode: byte, cfg: U.Config, erases: bool, stale: set<nat>)

  /** parse_image lets the image pass; Kconfig bounds the device's frame size. */
  predicate Sensible(s: Setup) {
    Accepts(s.img, !s.noKeyhash) && MIN_V2_CHUNK <= s.cfg.chunk <= UDP_CHUNK_SIZE_V2_MAX
  }

  /** The key hash goes into FW_START if the image has one and the user did not say --no-keyhash. */
  function SentKeyhash(s: Setup): seq<byte> {
    if !s.noKeyhash && KeyhashOf(s.img).Some? then KeyhashOf(s.img).value else []
  }

  /** upgrade_udp: waiting for FW_START, sending, waiting for FW_END, or over. */
  datatype HostState = Starting | Streaming(chunk: nat, sender: H.Host) | StopAndWait | Ending | Succeeded | Stopped

  /** The image is signed for another key than the device's, and FW_START says so. */
  predicate Foreign(s: Setup) {
    s.cfg.keyhash.Some? && SentKeyhash(s) != [] && SentKeyhash(s) != s.cfg.keyhash.value
  }

  /** `sessions` counts the sessions the device has opened so far. */
  datatype World = World(host: HostState, device: Device, toDevice: set<Datagram>,
                         toHost: set<Datagram>, sessions: nat)

  datatype Step =
    | HostSends
    | HostReceives(reply: Datagram)
    | HostTimesOut
    | DeviceReceives(frame: Datagram, io: Io)
    | DeviceRuns(action: Action)

  function StartFrame(s: Setup): Datagram {
    [U.FW_CMD_START] + Le32(|s.img|) + SentKeyhash(s)
  }

  lemma HashIsCarried(s: Setup)
    ensures var data := StartFrame(s)[1..];
      |data| == 4 + |SentKeyhash(s)| && data[4..] == SentKeyhash(s)
      && (SentKeyhash(s) != [] ==> |SentKeyhash(s)| == U.KEYHASH_LEN)
  {
    hide Keyhash, WellFormed;
    assert StartFrame(s)[1..] == Le32(|s.img|) + SentKeyhash(s);
  }

  function EndFrame(s: Setup): Datagram {
    [U.FW_CMD_END, s.testMode] + Le16(Crc(s.img))
  }

  function Begin(s: Setup): World {
    World(Starting, PowerOn(s.erases, s.stale), {StartFrame(s)}, {}, 0)
  }

  predicate SenderReady(s: Setup, h: HostState) {
    h.Streaming? && H.Valid(|s.img|, h.chunk, h.sender)
  }

  predicate Waiting(s: Setup, h: HostState) {
    h.Starting? || h.Ending? || (SenderReady(s, h) && h.sender.phase.Receiving?)
  }

  ghost predicate Possible(s: Setup, w: World, step: Step) {
    match step
    case HostSends =>
      SenderReady(s, w.host) && !w.host.sender.phase.Receiving?
    case HostReceives(reply) =>
      reply in w.toHost && Waiting(s, w.host)
    case HostTimesOut =>
      Waiting(s, w.host)
    case DeviceReceives(frame, io) =>
      frame in w.toDevice && frame != [] && Enabled(w.device, UdpCommand(frame[0], frame[1..], io))
    case DeviceRuns(action) =>
      !action.UdpCommand? && Enabled(w.device, action)
  }

  /** The frame size a FW_START reply announces; 0 from a device that predates DATA_V2. */
  function Announced(reply: Datagram): nat {
    if |reply| >= 4 then Min(FromLe16(reply[2..4]), UDP_CHUNK_SIZE_V2_MAX) else 0
  }

  function AfterStartReply(s: Setup, reply: Datagram): HostState {
    if |reply| < 2 || reply[0] != U.FW_CMD_START || reply[1] != U.FW_START_OK then Stopped
    else if Announced(reply) >= MIN_V2_CHUNK then
      Streaming(Announced(reply), H.OpenWindow(|s.img|, 0, 0))
    else StopAndWait
  }

  function AfterEndReply(reply: Datagram): HostState {
    if |reply| >= 2 && reply[0] == U.FW_CMD_END && reply[1] == 1 then Succeeded else Stopped
  }

  /**
    What the host makes of a device's answer to FW_START: it goes on exactly on status 1, in frames of the size the
    device announced, at most 1400 bytes, or in stop-and-wait with a device that announces less than 512.
   */
  lemma Negotiated(s: Setup, status: byte)
    ensures var reply := U.StartReply(s.cfg, status);
      && |reply| == 4 && reply[..2] == [1, status]
      && AfterStartReply(s, reply) ==
         if status != 1 then Stopped
         else if s.cfg.chunk < 512 then StopAndWait
         else Streaming(Min(s.cfg.chunk, 1400), H.OpenWindow(|s.img|, 0, 0))
  {
    var reply := U.StartReply(s.cfg, status);
    Le16RoundTrip(s.cfg.chunk);
    assert reply[2..4] == Le16(s.cfg.chunk);
  }

  ghost function DeviceStep(s: Setup, w: World, a: Action): World
    requires Enabled(w.device, a)
  {
    var (d, reply) := Next(s.cfg, w.device, a);
    w.(device := d,
       toHost := if reply.Some? then w.toHost + {reply.value} else w.toHost,
       sessions := if d.udp.started && !w.device.udp.started then w.sessions + 1 else w.sessions)
  }

  ghost function After(s: Setup, w: World, step: Step): World
    requires Possible(s, w, step)
  {
    match step
    case HostSends =>
      var h := w.host.sender;
      if h.phase.Sending? then
        var (h', frame) := H.SendOne(s.img, w.host.chunk, h);
        w.(host := Streaming(w.host.chunk, h'), toDevice := w.toDevice + {frame})
      else if h.phase.Done? then
        w.(host := Ending, toDevice := w.toDevice + {EndFrame(s)})
      else w.(host := Stopped)
    case HostReceives(reply) =>
      w.(host := if w.host.Starting? then AfterStartReply(s, reply)
                 else if w.host.Ending? then AfterEndReply(reply)
                 else Streaming(w.host.chunk, H.ReceiveOne(|s.img|, w.host.chunk, w.host.sender, reply)))
    case HostTimesOut =>
      w.(host := if w.host.Streaming? then Streaming(w.host.chunk, H.TimeOut(|s.img|, w.host.chunk, w.host.sender))
                 else Stopped)
    case DeviceReceives(frame, io) => DeviceStep(s, w, UdpCommand(frame[0], frame[1..], io))
    case DeviceRuns(action) => DeviceStep(s, w, action)
  }

  // ----- what holds in every reachable state -----

  /** The device holds the complete image and its session is still open. */
  predicate Whole(s: Setup, d: Device) {
    d.udp.started && d.udp.received == |s.img|
  }

  predicate Transferring(h: HostState) {
    h.Starting? || h.Streaming?
  }

  predicate FrameOk(s: Setup, w: World, f: Datagram) {
    || f == StartFrame(s)
    || H.Carries(s.img, f)
    || (f == EndFrame(s) && !Transferring(w.host))
  }

  /** `off` is an offset the device has acknowledged, or that the host takes for acknowledged. */
  predicate AckOk(s: Setup, w: World, off: int) {
    && off <= |s.img|
    && (off == |s.img| && Transferring(w.host) ==> Whole(s, w.device))
    && (w.sessions <= 1 ==> off <= w.device.udp.received)
  }

  predicate ReplyOk(s: Setup, w: World, r: Datagram) {
    && AckOk(s, w, H.Acked(r))
    && (r == U.EndReply(1) ==> w.device.udp.verified)
    && (|r| >= 2 && r[0] == U.FW_CMD_END ==> r in {U.EndReply(0), U.EndReply(1)})
  }

  predicate DevicePrefix(s: Setup, d: Device) {
    d.udp.started ==>
      d.udp.received <= |s.img| && d.slot1.area.bytes == s.img[..d.udp.received]
  }

  /**
    What a verified image is: of the bytes the device accepted, a prefix of the image, some first part
    was flushed, and what the flash reads back there has the image's CRC.
   */
  ghost predicate VerifiedOk(s: Setup, d: Device, sessions: nat) {
    var area := d.slot1.area;
    d.udp.verified ==>
      && area.bytes <= s.img
      && (sessions <= 1 ==> area.bytes == s.img)
      && |area.programmed| <= |area.bytes|
      && (forall p | 0 <= p < |area.programmed| && p !in area.stale :: area.programmed[p] == area.bytes[p])
      && Crc(area.programmed) == Crc(s.img)
  }

  ghost predicate WInv(s: Setup, w: World) {
    && Inv(w.device) && w.device.slot1.area.erases == s.erases
    && (forall f | f in w.toDevice :: FrameOk(s, w, f))
    && (forall r | r in w.toHost :: ReplyOk(s, w, r))
    && (w.device.udp.pc.Failing? ==>
          ReplyOk(s, w, w.device.udp.pc.reply) && w.device.udp.pc.reply != U.EndReply(1))
    && DevicePrefix(s, w.device)
    && (w.host.Streaming? ==>
          H.Valid(|s.img|, w.host.chunk, w.host.sender) && AckOk(s, w, H.Confirmed(w.host.sender)))
    && (w.sessions == 0 ==>
          w.device.udp.received == 0 && !w.device.udp.started && !w.device.udp.verified
          && EndFrame(s) !in w.toDevice)
    && (w.device.udp.pc.Erased? ==> w.device.slot1.area.bytes == [])
    && (w.device.udp.pc.Locked? ==> w.device.udp.size == |s.img|)
    && (w.sessions <= 1 && EndFrame(s) in w.toDevice && w.device.udp.started ==>
          Whole(s, w.device))
    && VerifiedOk(s, w.device, w.sessions)
    && (w.host.Succeeded? ==> w.device.udp.verified)
  }

  // ----- every step keeps it -----

  /** The device moved on without going back on anything it had told the host. */
  ghost predicate Onward(s: Setup, w: World, v: World) {
    && v.host == w.host && v.toDevice == w.toDevice && v.sessions >= w.sessions
    && (Transferring(w.host) && Whole(s, w.device) ==> Whole(s, v.device))
    && (v.sessions <= 1 ==> w.device.udp.received <= v.device.udp.received)
    && (w.device.udp.verified ==> v.device.udp.verified)
  }

  lemma OnwardKeepsReplies(s: Setup, w: World, v: World)
    requires WInv(s, w) && Onward(s, w, v)
    ensures forall f | f in v.toDevice :: FrameOk(s, v, f)
    ensures forall r | r in w.toHost :: ReplyOk(s, v, r)
    ensures v.host.Streaming? ==>
              H.Valid(|s.img|, v.host.chunk, v.host.sender) && AckOk(s, v, H.Confirmed(v.host.sender))
    ensures v.host.Succeeded? ==> v.device.udp.verified
  {
  }

  lemma HostSendKeeps(s: Setup, w: World)
    requires Sensible(s) && WInv(s, w) && Possible(s, w, HostSends)
    ensures WInv(s, After(s, w, HostSends))
  {
    hide Accepts, KeyhashOf;
    hide VerifiedOk, Inv, DevicePrefix;
    var h := w.host.sender;
    if h.phase.Sending? {
      H.SendsTheImage(s.img, w.host.chunk, h);
    }
  }

  lemma ImageIsNotEmpty(s: Setup)
    requires Sensible(s)
    ensures |s.img| >= HEADER_LEN + TLV_HEAD
  {
  }

  lemma HostReceiveKeeps(s: Setup, w: World, reply: Datagram)
    requires Sensible(s) && WInv(s, w) && Possible(s, w, HostReceives(reply))
    ensures WInv(s, After(s, w, HostReceives(reply)))
  {
    hide Accepts, KeyhashOf;
    ImageIsNotEmpty(s);
    hide VerifiedOk, Inv, DevicePrefix;
    assert ReplyOk(s, w, reply);
  }

  lemma HostTimeOutKeeps(s: Setup, w: World)
    requires Sensible(s) && WInv(s, w) && Possible(s, w, HostTimesOut)
    ensures WInv(s, After(s, w, HostTimesOut))
  {
    hide Accepts, KeyhashOf;
  }

  lemma OtherChannelKeeps(s: Setup, w: World, a: Action)
    requires Sensible(s) && WInv(s, w) && Enabled(w.device, a) && Actor(a) != UDP
    ensures WInv(s, DeviceStep(s, w, a))
  {
    hide Accepts, KeyhashOf;
    var v := DeviceStep(s, w, a);
    StepKeepsInv(s.cfg, w.device, a);
    assert v.device.udp == w.device.udp;
    assert UdpOwns(w.device) ==> v.device.slot1 == w.device.slot1;
    OnwardKeepsReplies(s, w, v);
  }

  lemma UdpContinueKeeps(s: Setup, w: World, io: Io)
    requires Sensible(s) && WInv(s, w) && Enabled(w.device, UdpContinue(io))
    ensures WInv(s, DeviceStep(s, w, UdpContinue(io)))
  {
    hide Accepts, KeyhashOf;
    var v := DeviceStep(s, w, UdpContinue(io));
    StepKeepsInv(s.cfg, w.device, UdpContinue(io));
    OnwardKeepsReplies(s, w, v);
  }

  lemma StartFrameEffect(s: Setup, d: Device, io: Io)
    requires d.udp.pc.Idle?
    ensures var f := StartFrame(s);
            var (d', r) := Next(s.cfg, d, UdpCommand(f[0], f[1..], io));
      && d'.slot1 == d.slot1
      && (r.Some? ==> |r.value| == 4 && r.value[0] == U.FW_CMD_START)
      && if d.udp.started then d' == d && r.Some?
         else d'.udp == d.udp.(size := |s.img|, pc := if r.Some? then U.Idle else U.Locked)
  {
    hide KeyhashOf;
    assert StartFrame(s)[1..][..4] == Le32(|s.img|);
    Le32RoundTrip(|s.img|);
  }

  lemma StartFrameKeeps(s: Setup, w: World, f: Datagram, io: Io)
    requires Sensible(s) && WInv(s, w) && f == StartFrame(s)
    requires Enabled(w.device, UdpCommand(f[0], f[1..], io))
    ensures WInv(s, DeviceStep(s, w, UdpCommand(f[0], f[1..], io)))
  {
    hide Accepts, KeyhashOf;
    var v := DeviceStep(s, w, UdpCommand(f[0], f[1..], io));
    StepKeepsInv(s.cfg, w.device, UdpCommand(f[0], f[1..], io));
    StartFrameEffect(s, w.device, io);
    hide Next, Inv, H.Carries;
    OnwardKeepsReplies(s, w, v);
  }

  lemma ImageFrameEffect(s: Setup, v: U.View, f: Datagram, io: Io)
    requires H.Carries(s.img, f)
    requires v.udp.started ==> v.udp.received <= |s.img| && v.slot1.area.bytes == s.img[..v.udp.received]
    ensures var u := v.udp;
            var (v', r) := U.DataV2(v, f[1..], io);
            if !u.started then v' == v && r == Some(U.OffsetReply(6, 0))
            else if FromLe32(f[1..5]) != u.received then v' == v && r == Some(U.OffsetReply(6, u.received))
            else if !io.writeOk then
              && u.received < |s.img| && r == None
              && v' == v.(udp := u.(started := false, pc := U.Failing(U.OffsetReply(6, u.received))))
            else
              && r == Some(U.OffsetReply(6, v'.udp.received))
              && u.received < v'.udp.received == u.received + |f| - 5 <= |s.img|
              && v'.udp == u.(received := v'.udp.received) && v'.slot1.area.stale <= v.slot1.area.stale
              && v'.slot1.area.bytes == s.img[..v'.udp.received] && v'.lock == v.lock
  {
    var data := f[1..];
    assert data[..4] == f[1..5] && data[4..] == f[5..];
    var u := v.udp;
    if u.started && FromLe32(f[1..5]) == u.received {
      var n := u.received + |f| - 5;
      assert s.img[..u.received] + s.img[u.received..n] == s.img[..n];
    }
  }

  /** What a frame of the image does to the device, spelled out. */
  lemma DataFrameEffect(s: Setup, w: World, f: Datagram, io: Io)
    requires Sensible(s) && WInv(s, w) && H.Carries(s.img, f)
    requires Enabled(w.device, UdpCommand(f[0], f[1..], io))
    ensures var u := w.device.udp;
            var (d, r) := Next(s.cfg, w.device, UdpCommand(f[0], f[1..], io));
            if !u.started then d == w.device && r == Some(U.OffsetReply(6, 0))
            else if FromLe32(f[1..5]) != u.received then d == w.device && r == Some(U.OffsetReply(6, u.received))
            else if !io.writeOk then
              && u.received < |s.img| && r == None
              && d == w.device.(udp := u.(started := false, pc := U.Failing(U.OffsetReply(6, u.received))))
            else
              && r == Some(U.OffsetReply(6, d.udp.received))
              && u.received < d.udp.received == u.received + |f| - 5 <= |s.img|
              && d.udp == u.(received := d.udp.received) && d.slot1.area.stale <= w.device.slot1.area.stale
              && d.slot1.area.bytes == s.img[..d.udp.received] && d.lock == w.device.lock
  {
    hide FrameOk, ReplyOk, VerifiedOk, Inv, U.DataV2;
    ImageFrameEffect(s, UdpView(w.device), f, io);
  }

  lemma OffsetReplyAck(off: uint32)
    ensures H.Acked(U.OffsetReply(6, off)) == off
  {
    Le32RoundTrip(off);
    assert U.OffsetReply(6, off)[1..5] == Le32(off);
  }

  lemma DataFrameKeeps(s: Setup, w: World, f: Datagram, io: Io)
    requires Sensible(s) && WInv(s, w) && H.Carries(s.img, f)
    requires Enabled(w.device, UdpCommand(f[0], f[1..], io))
    ensures WInv(s, DeviceStep(s, w, UdpCommand(f[0], f[1..], io)))
  {
    hide Accepts, KeyhashOf;
    var a := UdpCommand(f[0], f[1..], io);
    var v := DeviceStep(s, w, a);
    StepKeepsInv(s.cfg, w.device, a);
    DataFrameEffect(s, w, f, io);
    OffsetReplyAck(0);
    OffsetReplyAck(w.device.udp.received);
    OffsetReplyAck(v.device.udp.received);
    hide Next;
    hide H.Acked;
    hide H.Carries;
    hide Inv;
    OnwardKeepsReplies(s, w, v);
  }

  lemma EndFrameEffect(s: Setup, d: Device, io: Io)
    requires d.udp.pc.Idle?
    ensures var f := EndFrame(s);
            var (d', r) := Next(s.cfg, d, UdpCommand(f[0], f[1..], io));
            var u, slot1 := d.udp, d.slot1.Flushed(io);
      if !u.started then d' == d && r == Some(U.EndReply(0))
      else if U.Verifies(slot1.area.programmed, io, Crc(s.img)) && io.bootOk then
        && r == Some(U.EndReply(1)) && Crc(slot1.area.programmed) == Crc(s.img)
        && d' == d.(slot1 := slot1, udp := u.(started := false, verified := true))
      else
        r == None && d' == d.(slot1 := slot1, udp := u.(started := false, pc := U.Failing(U.EndReply(0))))
  {
    hide Crc;
    var f := EndFrame(s);
    Le16RoundTrip(Crc(s.img));
    assert f[1..][1..3] == f[2..4] == Le16(Crc(s.img));
  }

  lemma EndFrameKeeps(s: Setup, w: World, io: Io)
    requires Sensible(s) && WInv(s, w) && EndFrame(s) in w.toDevice
    requires Enabled(w.device, UdpCommand(EndFrame(s)[0], EndFrame(s)[1..], io))
    ensures WInv(s, DeviceStep(s, w, UdpCommand(EndFrame(s)[0], EndFrame(s)[1..], io)))
  {
    hide Accepts, Crc;
    var f := EndFrame(s);
    var v := DeviceStep(s, w, UdpCommand(f[0], f[1..], io));
    StepKeepsInv(s.cfg, w.device, UdpCommand(f[0], f[1..], io));
    EndFrameEffect(s, w.device, io);
    hide Next, Inv, H.Carries;
    OnwardKeepsReplies(s, w, v);
  }

  lemma StepKeepsWInv(s: Setup, w: World, step: Step)
    requires Sensible(s) && WInv(s, w) && Possible(s, w, step)
    ensures WInv(s, After(s, w, step))
  {
    hide WInv;
    hide DeviceStep;
    hide H.Carries;
    match step
    case HostSends => HostSendKeeps(s, w);
    case HostReceives(reply) => HostReceiveKeeps(s, w, reply);
    case HostTimesOut => HostTimeOutKeeps(s, w);
    case DeviceReceives(f, io) =>
      FramesAreOk(s, w, f);
      if f == StartFrame(s) {
        StartFrameKeeps(s, w, f, io);
      } else if H.Carries(s.img, f) {
        DataFrameKeeps(s, w, f, io);
      } else {
        EndFrameKeeps(s, w, io);
      }
    case DeviceRuns(a) =>
      if Actor(a) == UDP {
        UdpContinueKeeps(s, w, a.io);
      } else {
        OtherChannelKeeps(s, w, a);
      }
  }

  lemma FramesAreOk(s: Setup, w: World, f: Datagram)
    requires WInv(s, w) && f in w.toDevice
    ensures FrameOk(s, w, f)
  {
  }

  // ----- runs -----

  ghost predicate IsRun(s: Setup, trace: seq<World>, steps: seq<Step>) {
    && |trace| == |steps| + 1
    && trace[0] == Begin(s)
    && forall i | 0 <= i < |steps| ::
         Possible(s, trace[i], steps[i]) && trace[i + 1] == After(s, trace[i], steps[i])
  }

  lemma {:induction false} ReachableInv(s: Setup, trace: seq<World>, steps: seq<Step>, n: nat)
    requires Sensible(s) && IsRun(s, trace, steps) && n <= |steps|
    ensures WInv(s, trace[n])
  {
    hide Possible;
    hide After;
    if n == 0 {
    } else {
      ReachableInv(s, trace, steps, n - 1);
      StepKeepsWInv(s, trace[n - 1], steps[n - 1]);
    }
  }

  /**
    Whatever the network, the flash and the other channels do: the device has accepted a prefix of the
    image, it has at least as much as any acknowledgement says as long as it has opened one session
    only, and when a sender is done it has accepted all of the image.
   */
  lemma TransferIsSafe(s: Setup, trace: seq<World>, steps: seq<Step>, n: nat)
    requires Sensible(s) && IsRun(s, trace, steps) && n <= |steps|
    ensures var w := trace[n]; var u := w.device.udp;
            && (u.started ==> u.received <= |s.img| && w.device.slot1.area.bytes == s.img[..u.received])
            && (w.sessions <= 1 ==> forall r | r in w.toHost :: H.Acked(r) <= u.received)
            && (w.sessions <= 1 && w.host.Streaming? ==> H.Confirmed(w.host.sender) <= u.received)
            && (w.host.Streaming? && w.host.sender.phase.Done? ==>
                  u.started && w.device.slot1.area.bytes == s.img)
  {
    ReachableInv(s, trace, steps, n);
    var w := trace[n];
    forall r | r in w.toHost
      ensures ReplyOk(s, w, r)
    {
    }
    assert s.img[..|s.img|] == s.img;
  }

  lemma FrozenStep(s: Setup, w: World, step: Step)
    requires WInv(s, w) && Possible(s, w, step) && w.device.udp.verified
    ensures After(s, w, step).device.udp.verified
    ensures After(s, w, step).device.slot1 == w.device.slot1
    ensures After(s, w, step).sessions == w.sessions
  {
    hide Next;
    match step
    case DeviceReceives(f, io) =>
      VerifiedStep(s.cfg, w.device, UdpCommand(f[0], f[1..], io));
      StepKeepsInv(s.cfg, w.device, UdpCommand(f[0], f[1..], io));
    case DeviceRuns(a) =>
      VerifiedStep(s.cfg, w.device, a);
      StepKeepsInv(s.cfg, w.device, a);
    case _ =>
  }

  lemma StepOf(s: Setup, trace: seq<World>, steps: seq<Step>, n: nat)
    requires IsRun(s, trace, steps)
    ensures |trace| == |steps| + 1
    ensures n < |steps| ==> Possible(s, trace[n], steps[n]) && trace[n + 1] == After(s, trace[n], steps[n])
  {
  }

  lemma VerifiedIsInstalled(s: Setup, w: World)
    requires WInv(s, w)
    ensures w.host.Succeeded? ==> w.device.udp.verified
    ensures w.device.udp.verified ==>
      var area := w.device.slot1.area;
      && w.device.lock.HeldBy(UDP)
      && area.bytes <= s.img && |area.programmed| <= |area.bytes| && Crc(area.programmed) == Crc(s.img)
      && (w.sessions <= 1 ==> area.bytes == s.img)
  {
    hide Crc, FrameOk, ReplyOk;
  }

  /**
    If the host reports success at step i, the device accepted a prefix of the image, the whole of it if it
    opened a single session; what its flash reads back has the image's CRC; and all of this stays until
    the reboot.
   */
  lemma {:induction false} SuccessMeansVerified(s: Setup, trace: seq<World>, steps: seq<Step>, i: nat, j: nat)
    requires Sensible(s) && IsRun(s, trace, steps) && i <= j <= |steps|
    requires trace[i].host.Succeeded?
    ensures trace[j].device.udp.verified && trace[j].device.lock.HeldBy(UDP)
    ensures trace[j].device.slot1 == trace[i].device.slot1 && trace[j].sessions == trace[i].sessions
    ensures var area := trace[j].device.slot1.area;
            && area.bytes <= s.img && |area.programmed| <= |area.bytes| && Crc(area.programmed) == Crc(s.img)
            && (trace[j].sessions <= 1 ==> area.bytes == s.img)
    decreases j
  {
    hide *;
    StepOf(s, trace, steps, j);
    ReachableInv(s, trace, steps, j);
    VerifiedIsInstalled(s, trace[j]);
    if i == j {
    } else {
      SuccessMeansVerified(s, trace, steps, i, j - 1);
      ReachableInv(s, trace, steps, j - 1);
      StepOf(s, trace, steps, j - 1);
      FrozenStep(s, trace[j - 1], steps[j - 1]);
    }
  }

  // ----- and what is in the flash then -----

  /** The step that makes the image a verified one: FW_END, with these answers of the flash. */
  predicate Verifies(s: Setup, w: World, step: Step, v: World) {
    && !w.device.udp.verified && v.device.udp.verified
    && step.DeviceReceives? && step.frame == EndFrame(s)
    && v.device.slot1 == w.device.slot1.Flushed(step.io)
  }

  lemma VerifyingStepIsEnd(s: Setup, w: World, step: Step)
    requires Sensible(s) && WInv(s, w) && Possible(s, w, step)
    requires !w.device.udp.verified && After(s, w, step).device.udp.verified
    ensures Verifies(s, w, step, After(s, w, step))
  {
    hide Accepts, KeyhashOf;
    hide Crc;
    if step.DeviceReceives? {
      FramesAreOk(s, w, step.frame);
    }
  }

  lemma {:induction false} VerifyingStep(s: Setup, trace: seq<World>, steps: seq<Step>, i: nat) returns (k: nat)
    requires Sensible(s) && IsRun(s, trace, steps) && i <= |steps|
    requires trace[i].device.udp.verified
    ensures k < i && Verifies(s, trace[k], steps[k], trace[k + 1])
    ensures trace[i].device.slot1 == trace[k + 1].device.slot1 && trace[i].sessions == trace[k].sessions
  {
    hide *;
    StepOf(s, trace, steps, 0);
    if i == 0 {
      NotVerifiedAtFirst(s, trace, steps);
    } else {
      StepOf(s, trace, steps, i - 1);
      ReachableInv(s, trace, steps, i - 1);
      if trace[i - 1].device.udp.verified {
        FrozenStep(s, trace[i - 1], steps[i - 1]);
        k := VerifyingStep(s, trace, steps, i - 1);
      } else {
        k := i - 1;
        VerifyingStepIsEnd(s, trace[k], steps[k]);
        EndOpensNoSession(s, trace[k], steps[k]);
      }
    }
  }

  lemma NotVerifiedAtFirst(s: Setup, trace: seq<World>, steps: seq<Step>)
    requires IsRun(s, trace, steps)
    ensures !trace[0].device.udp.verified && !trace[0].device.udp.started && !trace[0].device.udp.pc.Erased?
  {
  }

  lemma EndOpensNoSession(s: Setup, w: World, step: Step)
    requires Possible(s, w, step) && Verifies(s, w, step, After(s, w, step))
    ensures After(s, w, step).sessions == w.sessions
  {
    hide Crc;
  }

  /** A UDP session is being set up or runs. */
  predicate Writing(d: Device) {
    d.udp.started || d.udp.pc.Erased?
  }

  /** The erase of the session: which answers it got, and the size it was for. */
  predicate Erases(s: Setup, w: World, step: Step, v: World) {
    && step.DeviceRuns? && step.action.UdpContinue? && w.device.udp.pc.Locked? && step.action.io.openOk
    && v.device.slot1 ==
       w.device.slot1.SetUp(UDP, Cleared(|s.img|, step.action.io))
  }

  lemma WritingStep(s: Setup, w: World, step: Step)
    requires Sensible(s) && WInv(s, w) && Possible(s, w, step) && Writing(After(s, w, step).device)
    ensures if Writing(w.device) then After(s, w, step).device.slot1.area.stale <= w.device.slot1.area.stale
            else Erases(s, w, step, After(s, w, step))
  {
    hide Accepts, KeyhashOf;
    hide Crc;
    if step.DeviceReceives? {
      StepKeepsInv(s.cfg, w.device, UdpCommand(step.frame[0], step.frame[1..], step.io));
    } else if step.DeviceRuns? {
      StepKeepsInv(s.cfg, w.device, step.action);
    }
  }

  lemma {:induction false} ErasingStep(s: Setup, trace: seq<World>, steps: seq<Step>, k: nat) returns (m: nat)
    requires Sensible(s) && IsRun(s, trace, steps) && k <= |steps|
    requires Writing(trace[k].device)
    ensures m < k && Erases(s, trace[m], steps[m], trace[m + 1])
    ensures trace[k].device.slot1.area.stale <= trace[m + 1].device.slot1.area.stale
  {
    hide *;
    StepOf(s, trace, steps, 0);
    if k == 0 {
      NotWritingAtFirst(s, trace, steps);
    } else {
      StepOf(s, trace, steps, k - 1);
      ReachableInv(s, trace, steps, k - 1);
      WritingStep(s, trace[k - 1], steps[k - 1]);
      if Writing(trace[k - 1].device) {
        m := ErasingStep(s, trace, steps, k - 1);
      } else {
        m := k - 1;
      }
    }
  }

  lemma NotWritingAtFirst(s: Setup, trace: seq<World>, steps: seq<Step>)
    requires IsRun(s, trace, steps)
    ensures !Writing(trace[0].device)
  {
  }

  lemma VerifyingNeedsASession(s: Setup, w: World, step: Step)
    requires Possible(s, w, step) && Verifies(s, w, step, After(s, w, step))
    ensures Writing(w.device)
  {
    hide Crc;
  }

  /** A successful erase leaves no old data under the image. */
  lemma ErasedUnderTheImage(s: Setup, w: World, step: Step, v: World)
    requires Erases(s, w, step, v) && step.action.io.eraseOk && |s.img| <= TWO_32 - SECTOR
    ensures forall p | p in v.device.slot1.area.stale :: p >= |s.img|
  {
    EraseLenCovers(|s.img|);
  }

  /**
    What a host that reported success left in the flash, exactly. In a run with one session there is one
    FW_START erase (step m) and one FW_END that verified (step k); the flash holds the image if and
    only if the flush of FW_END reached the image's end and, unless the firmware's writes erase, the bytes
    written over data that was not erased read back right. The latter holds whenever the erase succeeded.
   */
  lemma FlashHoldsTheImageIff(s: Setup, trace: seq<World>, steps: seq<Step>, i: nat) returns (m: nat, k: nat)
    requires Sensible(s) && IsRun(s, trace, steps) && i <= |steps|
    requires trace[i].host.Succeeded? && trace[i].sessions <= 1
    ensures m < k < i && Erases(s, trace[m], steps[m], trace[m + 1]) && Verifies(s, trace[k], steps[k], trace[k + 1])
    ensures var area := trace[i].device.slot1.area;
      && (area.programmed == s.img <==>
            (steps[k].io.flushOk || steps[k].io.flushed >= |s.img|) && (s.erases || ReadsRight(area, s.img)))
      && (steps[m].action.io.eraseOk && |s.img| <= TWO_32 - SECTOR ==> ReadsRight(area, s.img))
  {
    hide *;
    StepOf(s, trace, steps, i);
    SuccessMeansVerified(s, trace, steps, i, i);
    k := VerifyingStep(s, trace, steps, i);
    StepOf(s, trace, steps, k);
    ReachableInv(s, trace, steps, k);
    SoundSlot(s, trace[k]);
    VerifyingNeedsASession(s, trace[k], steps[k]);
    m := ErasingStep(s, trace, steps, k);
    Concluding(s, trace[m], steps[m], trace[m + 1], trace[k], steps[k], trace[k + 1]);
  }

  lemma SoundSlot(s: Setup, w: World)
    requires WInv(s, w)
    ensures w.device.slot1.area.Sound() && w.device.slot1.area.erases == s.erases
  {
  }

  lemma Concluding(s: Setup, w0: World, s0: Step, w1: World, w2: World, s2: Step, w3: World)
    requires Erases(s, w0, s0, w1) && w2.device.slot1.area.stale <= w1.device.slot1.area.stale
    requires w2.device.slot1.area.Sound() && w2.device.slot1.area.erases == s.erases
    requires Verifies(s, w2, s2, w3) && w3.device.slot1.area.bytes == s.img
    ensures var area := w3.device.slot1.area;
      && (area.programmed == s.img <==>
            (s2.io.flushOk || s2.io.flushed >= |s.img|) && (s.erases || ReadsRight(area, s.img)))
      && (s0.action.io.eraseOk && |s.img| <= TWO_32 - SECTOR ==> ReadsRight(area, s.img))
  {
    FlashHoldsIff(w2.device.slot1.area, s2.io);
    if s0.action.io.eraseOk && |s.img| <= TWO_32 - SECTOR {
      ErasedUnderTheImage(s, w0, s0, w1);
    }
  }

  // ----- the images that are lost when the final flush writes nothing -----

  /** The final flush fails before it wrote anything; everything else is well. */
  predicate FlushesNothing(io: Io) {
    io.openOk && io.bootOk && !io.flushOk && io.flushed == 0 && io.badReads == {}
  }

  /**
    With the image whole on the device and a final flush that writes nothing, FW_END answers 1 if and only if
    the image's CRC is 0, as that of nothing is; and nothing is in the flash then.
   */
  lemma CrcZeroIsLost(s: Setup, w: World, io: Io)
    requires Sensible(s) && WInv(s, w) && Whole(s, w.device) && FlushesNothing(io)
    requires Possible(s, w, DeviceReceives(EndFrame(s), io))
    ensures var v := After(s, w, DeviceReceives(EndFrame(s), io));
      && v.device.slot1.area.bytes == s.img && v.device.slot1.area.programmed == []
      && (v.device.udp.verified <==> Crc(s.img) == 0)
      && (v.device.udp.verified ==> U.EndReply(1) in v.toHost)
  {
    hide FrameOk, ReplyOk, Crc, Inv, Accepts;
    assert s.img[..|s.img|] == s.img;
    StartedIsNotVerified(s, w);
    EndOnNothingFlushed(U.View(w.device.lock, w.device.slot1, w.device.udp), s.testMode, Crc(s.img), io);
    assert EndFrame(s)[1..] == [s.testMode] + Le16(Crc(s.img));
  }

  lemma StartedIsNotVerified(s: Setup, w: World)
    requires WInv(s, w) && w.device.udp.started
    ensures !w.device.udp.verified
  {
  }

  lemma EndOnNothingFlushed(v: U.View, testMode: byte, crc: uint16, io: Io)
    requires v.udp.started && !v.udp.verified && FlushesNothing(io)
    ensures var (v', r) := U.End(v, [testMode] + Le16(crc), io);
      && (v'.udp.verified <==> crc == 0) && (crc == 0 ==> r == Some(U.EndReply(1)))
      && v'.slot1 == v.slot1.(area := v.slot1.area.(programmed := []))
  {
    hide Crc;
    CrcOfNothing();
    Le16RoundTrip(crc);
    assert ([testMode] + Le16(crc))[1..3] == Le16(crc);
  }
}
