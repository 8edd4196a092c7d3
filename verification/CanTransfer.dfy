/**
  The host tool's CAN upgrade and the device, on a bus that neither loses nor reorders frames. Either
  side may run ahead of the other; the two queues hold what has been sent and not yet been looked at.
 */
module CanTransfer {
  import opened Bytes
  import opened Wrappers
  import opened CanDevice
  import opened FirmwareImage
  import F = Flash

  const PAYLOAD := 8
  const OFFSET_REPLY_INTERVAL := 8
  const MSGQ_DEPTH := 32

  datatype Phase =
    | AwaitStart
    | Sending
    | AwaitBlock
    | AwaitTail
    | SendConfirm
    | AwaitConfirm
    | Success
    | Failure

  datatype Host = Host(phase: Phase, off: nat, seqInBlock: nat)

  predicate Awaiting(h: Host) {
    h.phase in {AwaitStart, AwaitBlock, AwaitTail, AwaitConfirm}
  }

  predicate Valid(img: Image, h: Host) {
    && h.off <= |img|
    && (h.phase.Sending? ==> h.off < |img|)
    && (h.phase.AwaitTail? ==> h.off < |img| < h.off + PAYLOAD)
  }

  predicate CanSend(img: Image, h: Host) {
    Valid(img, h) && (h.phase.Sending? || h.phase.SendConfirm?)
  }

  const CONFIRM_FRAME := Control(FW_CMD_CONFIRM, 1, 8)

  /** The next frame of can_send_data, or can_confirm's frame once the data is out. */
  function Send(img: Image, h: Host): (r: (Host, Frame))
    requires CanSend(img, h)
    ensures Valid(img, r.0)
  {
    if h.phase.SendConfirm? then (h.(phase := AwaitConfirm), CONFIRM_FRAME)
    else if h.off + PAYLOAD <= |img| then
      var off, seqInBlock := h.off + PAYLOAD, h.seqInBlock + 1;
      var wait := seqInBlock >= OFFSET_REPLY_INTERVAL || off >= |img|;
      (Host(if wait then AwaitBlock else Sending, off, seqInBlock), Data(img[h.off..off]))
    else (h.(phase := AwaitTail), Data(img[h.off..]))
  }

  /** What the host makes of a reply, at each of the four places it waits for one. */
  function Receive(img: Image, h: Host, r: Reply): (h': Host)
    requires Valid(img, h) && Awaiting(h)
    ensures Valid(img, h')
  {
    var sendOn := if h.off < |img| then Sending else SendConfirm;
    match h.phase
    case AwaitStart => h.(phase := if r.code.OFFSET? && r.arg == 0 then sendOn else Failure)
    case AwaitBlock =>
      if r.code.UPDATE_SUCCESS? then h.(phase := SendConfirm)
      else if r.code.OFFSET? then Host(sendOn, h.off, 0)
      else h.(phase := Failure)
    case AwaitTail =>
      h.(phase := if r.code.UPDATE_SUCCESS? || r.code.OFFSET? then SendConfirm else Failure)
    case AwaitConfirm =>
      h.(phase := if r.code.CONFIRM? && r.arg == CONFIRM_MAGIC then Success else Failure)
  }

  // ----- the host's code -----

  datatype Event = Sent(frame: Frame) | Got(reply: Reply)

  /** The state the data phase is in after a run of sends and replies, if every event was possible. */
  function Exec(img: Image, trace: seq<Event>): (r: Option<Host>)
    ensures r.Some? ==> Valid(img, r.value)
  {
    if trace == [] then Some(Host(if img == [] then SendConfirm else Sending, 0, 0))
    else
      var before, e := Exec(img, trace[..|trace| - 1]), trace[|trace| - 1];
      if before == None then None
      else
        var h := before.value;
        match e
        case Sent(f) =>
          if h.phase.Sending? && Send(img, h).1 == f then Some(Send(img, h).0) else None
        case Got(r) =>
          if h.phase.AwaitBlock? || h.phase.AwaitTail? then Some(Receive(img, h, r)) else None
  }

  lemma ExecMore(img: Image, trace: seq<Event>, e: Event)
    requires Exec(img, trace).Some?
    ensures var h := Exec(img, trace).value;
            && (h.phase.Sending? && e == Sent(Send(img, h).1) ==> Exec(img, trace + [e]) == Some(Send(img, h).0))
            && ((h.phase.AwaitBlock? || h.phase.AwaitTail?) && e.Got? ==>
                  Exec(img, trace + [e]) == Some(Receive(img, h, e.reply)))
  {
    hide Send;
    hide Receive;
    assert (trace + [e])[..|trace + [e]| - 1] == trace;
  }

  function Ready(img: Image, off: nat, seqInBlock: nat): Host {
    Host(if off < |img| then Sending else SendConfirm, off, seqInBlock)
  }

  lemma BlockSent(img: Image, trace: seq<Event>, off: nat, seqInBlock: nat)
    requires off + PAYLOAD <= |img| && Exec(img, trace) == Some(Ready(img, off, seqInBlock))
    ensures var wait := seqInBlock + 1 >= OFFSET_REPLY_INTERVAL || off + PAYLOAD >= |img|;
      Exec(img, trace + [Sent(Data(img[off..off + PAYLOAD]))])
      == Some(Host(if wait then AwaitBlock else Sending, off + PAYLOAD, seqInBlock + 1))
  {
    ExecMore(img, trace, Sent(Data(img[off..off + PAYLOAD])));
    hide Exec;
  }

  lemma BlockAnswered(img: Image, trace: seq<Event>, off: nat, seqInBlock: nat, r: Reply)
    requires Exec(img, trace) == Some(Host(AwaitBlock, off, seqInBlock))
    ensures Exec(img, trace + [Got(r)]) ==
            Some(if r.code.UPDATE_SUCCESS? then Host(SendConfirm, off, seqInBlock)
                 else if r.code.OFFSET? then Ready(img, off, 0)
                 else Host(Failure, off, seqInBlock))
  {
    ExecMore(img, trace, Got(r));
    hide Exec;
  }

  lemma TailSent(img: Image, trace: seq<Event>, off: nat, seqInBlock: nat)
    requires off < |img| < off + PAYLOAD && Exec(img, trace) == Some(Ready(img, off, seqInBlock))
    ensures Exec(img, trace + [Sent(Data(img[off..]))]) == Some(Host(AwaitTail, off, seqInBlock))
  {
    ExecMore(img, trace, Sent(Data(img[off..])));
    hide Exec;
  }

  lemma TailAnswered(img: Image, trace: seq<Event>, off: nat, seqInBlock: nat, r: Reply)
    requires Exec(img, trace) == Some(Host(AwaitTail, off, seqInBlock))
    ensures var ok := r.code.UPDATE_SUCCESS? || r.code.OFFSET?;
      Exec(img, trace + [Got(r)]) == Some(Host(if ok then SendConfirm else Failure, off, seqInBlock))
  {
    ExecMore(img, trace, Got(r));
    hide Exec;
  }

  /**
    can_send_data: `replies` are the replies that arrive, in order; running out of them is a timeout.
    What it did is a run of the machine above, and it succeeds exactly when that run may go on to confirm.
   */
  method CanSendData(img: Image, replies: seq<Reply>) returns (ok: bool, trace: seq<Event>)
    ensures Exec(img, trace).Some?
    ensures ok <==> Exec(img, trace).value.phase.SendConfirm?
  {
    trace := [];
    var taken := 0;
    var off := 0;
    var seqInBlock := 0;
    assert Exec(img, trace) == Some(Ready(img, off, seqInBlock));
    hide Exec;
    while off + PAYLOAD <= |img|
      invariant 0 <= off <= |img| && 0 <= seqInBlock && 0 <= taken <= |replies|
      invariant Exec(img, trace) == Some(Ready(img, off, seqInBlock))
    {
      BlockSent(img, trace, off, seqInBlock);
      trace := trace + [Sent(Data(img[off..off + PAYLOAD]))];
      off := off + PAYLOAD;
      seqInBlock := seqInBlock + 1;
      if seqInBlock >= OFFSET_REPLY_INTERVAL || off >= |img| {
        if taken == |replies| {
          return false, trace;
        }
        var r := replies[taken];
        taken := taken + 1;
        BlockAnswered(img, trace, off, seqInBlock, r);
        trace := trace + [Got(r)];
        if r.code.UPDATE_SUCCESS? {
          return true, trace;
        }
        if !r.code.OFFSET? {
          return false, trace;
        }
        seqInBlock := 0;
      }
    }
    if off < |img| {
      TailSent(img, trace, off, seqInBlock);
      trace := trace + [Sent(Data(img[off..]))];
      if taken == |replies| {
        return false, trace;
      }
      TailAnswered(img, trace, off, seqInBlock, replies[taken]);
      trace := trace + [Got(replies[taken])];
      return replies[taken].code.UPDATE_SUCCESS? || replies[taken].code.OFFSET?, trace;
    }
    return true, trace;
  }

  // ----- both ends -----

  datatype World = World(host: Host, toDevice: seq<Frame>, device: State, toHost: seq<Reply>)

  datatype Step = HostSends | HostReceives | DeviceHandles(io: Io)

  function Begin(img: Image, device: State): World {
    World(Host(AwaitStart, 0, 0), [Control(FW_CMD_START_UPDATE, |img|, 8)], device, [])
  }

  predicate Possible(img: Image, w: World, s: Step) {
    match s
    case HostSends => CanSend(img, w.host)
    case HostReceives => Valid(img, w.host) && Awaiting(w.host) && w.toHost != []
    case DeviceHandles(_) => w.toDevice != []
  }

  function After(img: Image, w: World, s: Step): World
    requires Possible(img, w, s)
  {
    match s
    case HostSends =>
      var (h, f) := Send(img, w.host);
      w.(host := h, toDevice := w.toDevice + [f])
    case HostReceives =>
      w.(host := Receive(img, w.host, w.toHost[0]), toHost := w.toHost[1..])
    case DeviceHandles(io) =>
      var f := w.toDevice[0];
      var (d, r) := Handle(w.device, f, io);
      // a START that succeeds also throws away whatever else is waiting in the message queue
      var started := f.Control? && f.cmd == FW_CMD_START_UPDATE && r == Some(Reply(OFFSET, 0));
      w.(device := d,
         toDevice := if started then [] else w.toDevice[1..],
         toHost := if r.Some? then w.toHost + [r.value] else w.toHost)
  }

  /** img[from..end] cut into data frames of eight bytes, the last one possibly shorter. */
  function Chunks(img: Image, from: int, end: int): (r: seq<Frame>)
    requires 0 <= from <= end <= |img|
    ensures |r| == (end - from + PAYLOAD - 1) / PAYLOAD
    decreases end - from
  {
    if from == end then []
    else
      var next := Min(from + PAYLOAD, end);
      [Data(img[from..next])] + Chunks(img, next, end)
  }

  /** The start of the block of up to 64 bytes the host is in. */
  function BlockStart(h: Host): int {
    h.off - PAYLOAD * h.seqInBlock
  }

  /** The host is `seqInBlock` frames into a block and the device has handled `n` bytes, within that block. */
  predicate InBlock(img: Image, h: Host, n: int) {
    && h.off <= |img| && h.off % PAYLOAD == 0 && h.seqInBlock <= OFFSET_REPLY_INTERVAL
    && 0 <= BlockStart(h) <= n <= h.off && BlockStart(h) % REPLY_INTERVAL == 0 && n % PAYLOAD == 0
  }

  /** The device has taken the first `written` bytes of the image and nothing else. */
  predicate InOrder(img: Image, d: State) {
    d.initialized && d.total == |img| && d.written <= |img| && d.area.bytes == img[..d.written]
  }

  /** The reply that is due once the device has `n` bytes. */
  function Due(img: Image, n: int): Reply
    requires 0 <= n <= |img|
  {
    if n == |img| then Reply(UPDATE_SUCCESS, |img|) else Reply(OFFSET, n)
  }

  const MAGIC := Reply(CONFIRM, CONFIRM_MAGIC)

  /** Neither side has met an error: who owes what to whom, phase by phase. */
  predicate LockStep(img: Image, w: World) {
    var h, d := w.host, w.device;
    match h.phase
    case AwaitStart =>
      && h == Host(AwaitStart, 0, 0)
      && if w.toHost == [] then w.toDevice == [Control(FW_CMD_START_UPDATE, |img|, 8)]
         else w.toHost == [Reply(OFFSET, 0)] && w.toDevice == [] && InOrder(img, d) && d.written == 0
    case Sending =>
      && InOrder(img, d) && InBlock(img, h, d.written) && h.off < |img| && h.seqInBlock < OFFSET_REPLY_INTERVAL
      && w.toDevice == Chunks(img, d.written, h.off) && w.toHost == []
    case AwaitBlock =>
      && InOrder(img, d) && InBlock(img, h, d.written) && 0 < h.seqInBlock
      && (h.off == |img| || h.seqInBlock == OFFSET_REPLY_INTERVAL)
      && w.toDevice == Chunks(img, d.written, h.off)
      && w.toHost == if d.written == h.off then [Due(img, h.off)] else []
    case AwaitTail =>
      && InOrder(img, d) && InBlock(img, h, Min(d.written, h.off))
      && h.off < |img| < h.off + PAYLOAD && h.seqInBlock < OFFSET_REPLY_INTERVAL
      && (d.written <= h.off || d.written == |img|)
      && w.toDevice == Chunks(img, d.written, |img|)
      && w.toHost == if d.written == |img| then [Due(img, |img|)] else []
    case SendConfirm =>
      h.off <= |img| && InOrder(img, d) && d.written == |img| && w.toDevice == [] && w.toHost == []
    case AwaitConfirm =>
      && h.off <= |img| && d.area.bytes == img
      && if w.toHost == [] then InOrder(img, d) && d.written == |img| && w.toDevice == [CONFIRM_FRAME]
         else w.toHost == [MAGIC] && w.toDevice == []
    case Success => d.area.bytes == img && w.toDevice == [] && w.toHost == []
    case Failure => false
  }

  /** After an error the first reply the host will read is one that makes it give up. */
  predicate Fatal(h: Host, r: Reply) {
    if h.phase.AwaitConfirm? then r.code.TRANSFER_ERROR?
    else r.code.FLASH_ERROR? || r.code.TRANSFER_ERROR? || r.code.KEYHASH_ERROR?
  }

  predicate Doomed(img: Image, w: World) {
    || w.host.phase.Failure?
    || (&& Valid(img, w.host) && w.toHost != [] && Fatal(w.host, w.toHost[0])
        && !w.host.phase.SendConfirm? && !w.host.phase.Success?)
  }

  lemma {:induction false} ChunksMore(img: Image, from: int, mid: int, end: int)
    requires 0 <= from <= mid < end <= |img| && (mid - from) % PAYLOAD == 0 && end <= mid + PAYLOAD
    ensures Chunks(img, from, end) == Chunks(img, from, mid) + [Data(img[mid..end])]
    decreases mid - from
  {
    if from == mid {
    } else {
      ChunksMore(img, from + PAYLOAD, mid, end);
    }
  }

  lemma BlockGrows(img: Image, h: Host, n: int, phase: Phase)
    requires InBlock(img, h, n) && h.off + PAYLOAD <= |img| && h.seqInBlock < OFFSET_REPLY_INTERVAL
    ensures InBlock(img, Host(phase, h.off + PAYLOAD, h.seqInBlock + 1), n)
    ensures (h.off - n) % PAYLOAD == 0
  {
    InWholeFrames(img, h, n);
  }

  lemma InWholeFrames(img: Image, h: Host, n: int)
    requires InBlock(img, h, n)
    ensures (h.off - n) % PAYLOAD == 0
  {
    var i, j := h.off / PAYLOAD, n / PAYLOAD;
    assert h.off - n == PAYLOAD * (i - j);
  }

  lemma HostSendBlockKeeps(img: Image, w: World)
    requires LockStep(img, w) && w.host.phase.Sending? && w.host.off + PAYLOAD <= |img|
    ensures LockStep(img, After(img, w, HostSends))
  {
    hide Chunks, InBlock;
    var n, off := w.device.written, w.host.off;
    assert n <= off by {
      WithinImage(img, w.host, n);
    }
    BlockGrows(img, w.host, n, After(img, w, HostSends).host.phase);
    ChunksMore(img, n, off, off + PAYLOAD);
  }

  lemma WithinImage(img: Image, h: Host, n: int)
    requires InBlock(img, h, n)
    ensures 0 <= n <= h.off <= |img|
  {
  }

  lemma HostSendTailKeeps(img: Image, w: World)
    requires LockStep(img, w) && w.host.phase.Sending? && w.host.off + PAYLOAD > |img|
    ensures LockStep(img, After(img, w, HostSends))
  {
    hide Chunks;
    var n, off := w.device.written, w.host.off;
    InWholeFrames(img, w.host, n);
    ChunksMore(img, n, off, |img|);
    assert img[off..] == img[off..|img|];
    assert InBlock(img, w.host, n);
  }

  lemma HostSendKeeps(img: Image, w: World)
    requires LockStep(img, w) && Possible(img, w, HostSends)
    ensures LockStep(img, After(img, w, HostSends))
  {
    if w.host.phase.Sending? {
      hide After;
      if w.host.off + PAYLOAD <= |img| {
        HostSendBlockKeeps(img, w);
      } else {
        HostSendTailKeeps(img, w);
      }
    }
  }

  lemma HostReceiveKeeps(img: Image, w: World)
    requires LockStep(img, w) && Possible(img, w, HostReceives)
    ensures LockStep(img, After(img, w, HostReceives))
  {
  }

  /** The device handles the next chunk of the image. */
  lemma ChunkHandled(img: Image, d: State, end: int, io: Io)
    requires InOrder(img, d) && d.written < end <= |img|
    ensures var next := Min(d.written + PAYLOAD, end);
            var (d', r) := Handle(d, Chunks(img, d.written, end)[0], io);
            && Chunks(img, d.written, end)[1..] == Chunks(img, next, end)
            && (!io.flash.writeOk ==> d' == d && r == Some(Reply(FLASH_ERROR, 0)))
            && (io.flash.writeOk ==>
                  && InOrder(img, d') && d'.written == next
                  && r == if next == |img| || next % REPLY_INTERVAL == 0 then Some(Due(img, next)) else None)
  {
    var next := Min(d.written + PAYLOAD, end);
    assert img[..d.written] + img[d.written..next] == img[..next];
  }

  /** Within a block only its 64th byte is a multiple of 64. */
  lemma OnlyTheBlocksEnd(img: Image, h: Host, n: int)
    requires InBlock(img, h, n) && n < h.off
    ensures InBlock(img, h, n + PAYLOAD)
    ensures (n + PAYLOAD) % REPLY_INTERVAL == 0 <==> n + PAYLOAD == h.off && h.seqInBlock == OFFSET_REPLY_INTERVAL
  {
    var b := BlockStart(h);
    assert (n + PAYLOAD) % REPLY_INTERVAL == (n + PAYLOAD - b) % REPLY_INTERVAL;
  }

  lemma DeviceStartKeeps(img: Image, w: World, io: Io)
    requires LockStep(img, w) && w.host.phase.AwaitStart? && w.toDevice != []
    ensures io == ALL_WELL ==> LockStep(img, After(img, w, DeviceHandles(io)))
    ensures LockStep(img, After(img, w, DeviceHandles(io))) || Doomed(img, After(img, w, DeviceHandles(io)))
  {
  }

  lemma DeviceDataKeeps(img: Image, w: World, io: Io)
    requires LockStep(img, w) && (w.host.phase.Sending? || w.host.phase.AwaitBlock?) && w.toDevice != []
    ensures io == ALL_WELL ==> LockStep(img, After(img, w, DeviceHandles(io)))
    ensures LockStep(img, After(img, w, DeviceHandles(io))) || Doomed(img, After(img, w, DeviceHandles(io)))
  {
    var h, n := w.host, w.device.written;
    assert n < h.off;
    ChunkHandled(img, w.device, h.off, io);
    OnlyTheBlocksEnd(img, h, n);
    hide Handle;
    hide Chunks;
  }

  lemma DeviceTailKeeps(img: Image, w: World, io: Io)
    requires LockStep(img, w) && w.host.phase.AwaitTail? && w.toDevice != []
    ensures io == ALL_WELL ==> LockStep(img, After(img, w, DeviceHandles(io)))
    ensures LockStep(img, After(img, w, DeviceHandles(io))) || Doomed(img, After(img, w, DeviceHandles(io)))
  {
    var h, n := w.host, w.device.written;
    ChunkHandled(img, w.device, |img|, io);
    if n < h.off {
      OnlyTheBlocksEnd(img, h, n);
    }
    hide Handle;
    hide Chunks;
  }

  lemma DeviceConfirmKeeps(img: Image, w: World, io: Io)
    requires LockStep(img, w) && w.host.phase.AwaitConfirm? && w.toDevice != []
    ensures io == ALL_WELL ==> LockStep(img, After(img, w, DeviceHandles(io)))
    ensures LockStep(img, After(img, w, DeviceHandles(io))) || Doomed(img, After(img, w, DeviceHandles(io)))
  {
  }

  lemma DeviceKeeps(img: Image, w: World, io: Io)
    requires LockStep(img, w) && Possible(img, w, DeviceHandles(io))
    ensures io == ALL_WELL ==> LockStep(img, After(img, w, DeviceHandles(io)))
    ensures LockStep(img, After(img, w, DeviceHandles(io))) || Doomed(img, After(img, w, DeviceHandles(io)))
  {
    hide After;
    hide Doomed;
    match w.host.phase
    case AwaitStart => DeviceStartKeeps(img, w, io);
    case AwaitTail => DeviceTailKeeps(img, w, io);
    case AwaitConfirm => DeviceConfirmKeeps(img, w, io);
    case SendConfirm =>
    case Success =>
    case Failure =>
    case _ => DeviceDataKeeps(img, w, io);
  }

  /** Once an error is on its way the host can only end in failure. */
  lemma DoomedStays(img: Image, w: World, s: Step)
    requires Doomed(img, w) && Possible(img, w, s)
    ensures Doomed(img, After(img, w, s))
  {
  }

  lemma StepKeeps(img: Image, w: World, s: Step)
    requires (LockStep(img, w) || Doomed(img, w)) && Possible(img, w, s)
    ensures LockStep(img, After(img, w, s)) || Doomed(img, After(img, w, s))
    ensures LockStep(img, w) && (s.DeviceHandles? ==> s.io == ALL_WELL) ==> LockStep(img, After(img, w, s))
  {
    hide *;
    if LockStep(img, w) {
      match s
      case HostSends => HostSendKeeps(img, w);
      case HostReceives => HostReceiveKeeps(img, w);
      case DeviceHandles(io) => DeviceKeeps(img, w, io);
    } else {
      DoomedStays(img, w, s);
    }
  }

  // ----- runs -----

  ghost predicate IsRun(img: Image, trace: seq<World>, steps: seq<Step>) {
    && |trace| == |steps| + 1
    && (exists device :: trace[0] == Begin(img, device))
    && forall i | 0 <= i < |steps| ::
         Possible(img, trace[i], steps[i]) && trace[i + 1] == After(img, trace[i], steps[i])
  }

  predicate NoErrors(steps: seq<Step>) {
    forall i | 0 <= i < |steps| :: steps[i].DeviceHandles? ==> steps[i].io == ALL_WELL
  }

  lemma {:induction false} Reachable(img: Image, trace: seq<World>, steps: seq<Step>, n: nat)
    requires IsRun(img, trace, steps) && n <= |steps|
    ensures LockStep(img, trace[n]) || Doomed(img, trace[n])
    ensures NoErrors(steps) ==> LockStep(img, trace[n])
  {
    hide Possible;
    hide After;
    hide Doomed;
    if n == 0 {
    } else {
      hide LockStep;
      Reachable(img, trace, steps, n - 1);
      StepKeeps(img, trace[n - 1], steps[n - 1]);
    }
  }

  /** A host that reports success had the whole image accepted by the device, whatever went wrong on the way. */
  lemma SuccessMeansAccepted(img: Image, trace: seq<World>, steps: seq<Step>)
    requires IsRun(img, trace, steps) && trace[|steps|].host.phase.Success?
    ensures trace[|steps|].device.area.bytes == img
  {
    Reachable(img, trace, steps, |steps|);
  }

  /** What the host has not yet read plus what the device will still answer to the frames waiting for it. */
  function Owed(d: State, frames: seq<Frame>): nat
    decreases |frames|
  {
    if frames == [] then 0
    else
      var (d', r) := Handle(d, frames[0], ALL_WELL);
      (if r.Some? then 1 else 0) + Owed(d', frames[1..])
  }

  lemma {:induction false} ChunksOwe(img: Image, h: Host, d: State, end: int)
    requires InOrder(img, d) && d.written <= end <= |img| && h.off <= end
    requires end == h.off || (end == |img| && h.off < end < h.off + PAYLOAD)
    requires InBlock(img, h, Min(d.written, h.off)) && (end > h.off ==> h.seqInBlock < OFFSET_REPLY_INTERVAL)
    requires end > h.off ==> d.written <= h.off || d.written == end
    ensures Owed(d, Chunks(img, d.written, end)) ==
            if d.written < end && (end == |img| || h.seqInBlock == OFFSET_REPLY_INTERVAL) then 1 else 0
    decreases end - d.written
  {
    if d.written == end {
    } else {
      ChunkHandled(img, d, end, ALL_WELL);
      var d' := Handle(d, Chunks(img, d.written, end)[0], ALL_WELL).0;
      if d.written < h.off {
        OnlyTheBlocksEnd(img, h, d.written);
      }
      ChunksOwe(img, h, d', end);
      hide Handle;
      hide Chunks;
    }
  }

  /** Exactly one reply is unread or owed while the host waits, and none while it does not. */
  lemma RepliesMatchWaits(img: Image, w: World)
    requires LockStep(img, w)
    ensures |w.toHost| + Owed(w.device, w.toDevice) == if Awaiting(w.host) then 1 else 0
    ensures |w.toDevice| <= OFFSET_REPLY_INTERVAL < MSGQ_DEPTH
  {
    var h, d := w.host, w.device;
    match h.phase
    case AwaitStart => OneFrameOwes(d, w.toDevice);
    case Sending => ChunksOwe(img, h, d, h.off);
    case AwaitBlock => ChunksOwe(img, h, d, h.off);
    case AwaitTail => ChunksOwe(img, h, d, |img|);
    case AwaitConfirm => OneFrameOwes(d, w.toDevice);
    case _ =>
  }

  lemma OneFrameOwes(d: State, frames: seq<Frame>)
    requires |frames| <= 1
    ensures Owed(d, frames) == if frames != [] && Handle(d, frames[0], ALL_WELL).1.Some? then 1 else 0
  {
    if frames != [] {
      assert frames[1..] == [];
    }
  }

  /** On an error-free run nobody ever waits for a frame that is not coming: some step is possible until success. */
  lemma NoDeadlock(img: Image, w: World)
    requires LockStep(img, w) && !w.host.phase.Success?
    ensures Possible(img, w, HostSends) || Possible(img, w, HostReceives) || Possible(img, w, DeviceHandles(ALL_WELL))
  {
    RepliesMatchWaits(img, w);
  }

  /** Work left: bytes to send, frames to handle, replies to read. */
  function Work(img: Image, w: World): int {
    var unsent := if w.host.phase.AwaitStart? then |img| + 2
                  else if w.host.phase.Sending? || w.host.phase.AwaitBlock? then |img| - w.host.off + 1
                  else if w.host.phase.AwaitTail? || w.host.phase.SendConfirm? then 1 else 0;
    3 * unsent + 2 * |w.toDevice| + |w.toHost|
  }

  lemma WorkGoesDown(img: Image, w: World, s: Step)
    requires LockStep(img, w) && Possible(img, w, s)
    ensures Work(img, w) >= 0
    ensures Work(img, After(img, w, s)) < Work(img, w)
  {
    hide Handle;
    hide Chunks;
  }

  lemma {:induction false} WorkBoundsTheRun(img: Image, trace: seq<World>, steps: seq<Step>, n: nat)
    requires IsRun(img, trace, steps) && NoErrors(steps) && n <= |steps|
    ensures LockStep(img, trace[n]) && Work(img, trace[n]) + n <= 3 * |img| + 8
  {
    hide Possible;
    hide After;
    Reachable(img, trace, steps, n);
    if n == 0 {
    } else {
      hide LockStep;
      hide Work;
      WorkBoundsTheRun(img, trace, steps, n - 1);
      Reachable(img, trace, steps, n - 1);
      WorkGoesDown(img, trace[n - 1], steps[n - 1]);
    }
  }

  // ----- what is in the flash when the host reports success -----

  predicate Asked(w: World) {
    w.host.phase.AwaitStart? && w.toHost == []
  }

  predicate Confirmed(w: World) {
    w.host.phase.Success? || (w.host.phase.AwaitConfirm? && w.toHost != [])
  }

  /** The device takes the START of the image, with these answers of the flash. */
  predicate Starts(img: Image, w: World, s: Step, v: World) {
    && s.DeviceHandles? && Asked(w)
    && s.io.keyhashOk && s.io.startAllowed && s.io.flash.openOk && s.io.flash.initOk
    && v.device.area == w.device.area.SetUp(F.Cleared(|img|, s.io.flash))
  }

  /** The device handles the CONFIRM that the host takes for success. */
  predicate Confirms(img: Image, w: World, s: Step, v: World) {
    && s.DeviceHandles? && w.host.phase.AwaitConfirm? && w.device.area.bytes == img && s.io.flash.bootOk
    && v.device.area == w.device.area.Flushed(s.io.flash)
  }

  lemma LockStepIsNotDoomed(img: Image, w: World)
    requires LockStep(img, w)
    ensures !Doomed(img, w)
  {
  }

  /** A world in lock-step was in lock-step one step before. */
  lemma LockStepBefore(img: Image, trace: seq<World>, steps: seq<Step>, n: nat)
    requires IsRun(img, trace, steps) && 0 < n <= |steps| && LockStep(img, trace[n])
    ensures LockStep(img, trace[n - 1])
    ensures Possible(img, trace[n - 1], steps[n - 1]) && trace[n] == After(img, trace[n - 1], steps[n - 1])
  {
    hide LockStep, Doomed, Possible, After;
    Reachable(img, trace, steps, n - 1);
    LockStepIsNotDoomed(img, trace[n]);
    assert Possible(img, trace[n - 1], steps[n - 1]) && trace[n - 1 + 1] == After(img, trace[n - 1], steps[n - 1]);
    if Doomed(img, trace[n - 1]) {
      DoomedStays(img, trace[n - 1], steps[n - 1]);
    }
  }

  lemma StartStep(img: Image, w: World, s: Step)
    requires LockStep(img, w) && Possible(img, w, s) && LockStep(img, After(img, w, s)) && !Asked(After(img, w, s))
    ensures var v := After(img, w, s);
            if Asked(w) then Starts(img, w, s, v) && v.device.area.Sound()
            else v.device.area.GrownFrom(w.device.area) && (w.device.area.Sound() ==> v.device.area.Sound())
  {
    hide Chunks, InBlock;
    if Asked(w) {
      var v := After(img, w, s);
      assert w.toDevice[0] == Control(FW_CMD_START_UPDATE, |img|, 8);
      assert v.toHost[0] == Handle(w.device, w.toDevice[0], s.io).1.value == Reply(OFFSET, 0);
    } else if s.DeviceHandles? {
      NotAStart(img, w);
      OnlyStartSetsUp(w.device, w.toDevice[0], s.io);
    }
  }

  lemma OnlyStartSetsUp(d: State, f: Frame, io: Io)
    requires f.Data? || f.cmd != FW_CMD_START_UPDATE
    ensures Handle(d, f, io).0.area.GrownFrom(d.area)
    ensures d.area.Sound() ==> Handle(d, f, io).0.area.Sound()
  {
  }

  /** Once the START is handled no other one is on the bus. */
  lemma NotAStart(img: Image, w: World)
    requires LockStep(img, w) && !Asked(w) && w.toDevice != []
    ensures w.toDevice[0].Data? || w.toDevice[0].cmd != FW_CMD_START_UPDATE
  {
    var h, d := w.host, w.device;
    match h.phase
    case Sending => ChunkIsData(img, d.written, h.off);
    case AwaitBlock => ChunkIsData(img, d.written, h.off);
    case AwaitTail => ChunkIsData(img, d.written, |img|);
    case _ =>
  }

  lemma ChunkIsData(img: Image, from: int, end: int)
    requires 0 <= from <= end <= |img|
    ensures Chunks(img, from, end) != [] ==> Chunks(img, from, end)[0].Data?
  {
  }

  lemma ConfirmStep(img: Image, w: World, s: Step)
    requires LockStep(img, w) && Possible(img, w, s) && LockStep(img, After(img, w, s)) && Confirmed(After(img, w, s))
    ensures if Confirmed(w) then After(img, w, s).device.area == w.device.area
            else Confirms(img, w, s, After(img, w, s))
  {
    hide Chunks, InBlock;
    if !Confirmed(w) && w.toDevice != [] {
      var v := After(img, w, s);
      assert v.host.phase.AwaitConfirm? && w.toDevice == [CONFIRM_FRAME];
      assert v.toHost[0] == Handle(w.device, CONFIRM_FRAME, s.io).1.value == MAGIC;
    }
  }

  lemma {:induction false} FindStart(img: Image, trace: seq<World>, steps: seq<Step>, n: nat) returns (m: nat)
    requires IsRun(img, trace, steps) && n <= |steps| && LockStep(img, trace[n]) && !Asked(trace[n])
    ensures m < n && Starts(img, trace[m], steps[m], trace[m + 1])
    ensures trace[n].device.area.GrownFrom(trace[m + 1].device.area) && trace[n].device.area.Sound()
  {
    hide *;
    AskedAtFirst(img, trace, steps);
    if n == 0 {
    } else {
      LockStepBefore(img, trace, steps, n);
      StartStep(img, trace[n - 1], steps[n - 1]);
      if Asked(trace[n - 1]) {
        m := n - 1;
        F.GrownInSteps(trace[n].device.area, trace[n].device.area, trace[n].device.area);
      } else {
        m := FindStart(img, trace, steps, n - 1);
        F.GrownInSteps(trace[m + 1].device.area, trace[n - 1].device.area, trace[n].device.area);
      }
    }
  }

  lemma {:induction false} FindConfirm(img: Image, trace: seq<World>, steps: seq<Step>, n: nat) returns (k: nat)
    requires IsRun(img, trace, steps) && n <= |steps| && LockStep(img, trace[n]) && Confirmed(trace[n])
    ensures k < n && Confirms(img, trace[k], steps[k], trace[k + 1])
    ensures trace[n].device.area == trace[k + 1].device.area
    ensures LockStep(img, trace[k]) && !Asked(trace[k])
  {
    hide *;
    AskedAtFirst(img, trace, steps);
    if n == 0 {
    } else {
      LockStepBefore(img, trace, steps, n);
      ConfirmStep(img, trace[n - 1], steps[n - 1]);
      if Confirmed(trace[n - 1]) {
        k := FindConfirm(img, trace, steps, n - 1);
      } else {
        k := n - 1;
        ConfirmsAsked(img, trace[k], steps[k], trace[k + 1]);
      }
    }
  }

  lemma AskedAtFirst(img: Image, trace: seq<World>, steps: seq<Step>)
    requires IsRun(img, trace, steps)
    ensures |trace| == |steps| + 1 && Asked(trace[0]) && !Confirmed(trace[0])
  {
  }

  lemma ConfirmsAsked(img: Image, w: World, s: Step, v: World)
    requires Confirms(img, w, s, v)
    ensures !Asked(w)
  {
  }

  /**
    What a host that reported success left in the flash, exactly: its START was handled at step m and its
    CONFIRM at step k, and the flash holds the image if and only if the flush of the CONFIRM, whose result
    nobody looks at, reached the image's end, and, unless the firmware's writes erase, the bytes written over
    data that was not erased read back right. The latter holds whenever the erase of the START succeeded.
   */
  lemma FlashHoldsTheImageIff(img: Image, trace: seq<World>, steps: seq<Step>, i: nat) returns (m: nat, k: nat)
    requires IsRun(img, trace, steps) && i <= |steps| && trace[i].host.phase.Success?
    ensures m < k < i && Starts(img, trace[m], steps[m], trace[m + 1])
    ensures Confirms(img, trace[k], steps[k], trace[k + 1])
    ensures var area := trace[i].device.area;
      && (area.programmed == img <==>
            (steps[k].io.flash.flushOk || steps[k].io.flash.flushed >= |img|)
            && (area.erases || F.ReadsRight(area, img)))
      && (steps[m].io.flash.eraseOk && |img| <= TWO_32 - F.SECTOR ==> F.ReadsRight(area, img))
  {
    hide *;
    AskedAtFirst(img, trace, steps);
    Reachable(img, trace, steps, i);
    SuccessIsLockStep(img, trace[i]);
    k := FindConfirm(img, trace, steps, i);
    m := FindStart(img, trace, steps, k);
    Concluding(img, trace[m], steps[m], trace[m + 1], trace[k], steps[k], trace[k + 1]);
  }

  lemma SuccessIsLockStep(img: Image, w: World)
    requires (LockStep(img, w) || Doomed(img, w)) && w.host.phase.Success?
    ensures LockStep(img, w) && Confirmed(w)
  {
  }

  lemma Concluding(img: Image, w0: World, s0: Step, w1: World, w2: World, s2: Step, w3: World)
    requires Starts(img, w0, s0, w1) && Confirms(img, w2, s2, w3)
    requires w2.device.area.GrownFrom(w1.device.area) && w2.device.area.Sound()
    ensures var area := w3.device.area;
      && (area.programmed == img <==>
            (s2.io.flash.flushOk || s2.io.flash.flushed >= |img|) && (area.erases || F.ReadsRight(area, img)))
      && (s0.io.flash.eraseOk && |img| <= TWO_32 - F.SECTOR ==> F.ReadsRight(area, img))
  {
    F.FlashHoldsIff(w2.device.area, s2.io.flash);
    F.EraseLenCovers(|img|);
  }

  lemma HealthyFlash(img: Image, trace: seq<World>, steps: seq<Step>)
    requires IsRun(img, trace, steps) && NoErrors(steps) && trace[|steps|].host.phase.Success?
    ensures var area := trace[|steps|].device.area;
            |img| <= TWO_32 - F.SECTOR || area.erases ==> area.programmed == img
  {
    hide IsRun, Starts, Confirms, F.ReadsRight;
    AskedAtFirst(img, trace, steps);
    var m, k := FlashHoldsTheImageIff(img, trace, steps, |steps|);
    HealthySteps(img, trace, steps, m, k);
  }

  lemma HealthySteps(img: Image, trace: seq<World>, steps: seq<Step>, m: nat, k: nat)
    requires NoErrors(steps) && |trace| == |steps| + 1 && m < k < |steps|
    requires Starts(img, trace[m], steps[m], trace[m + 1]) && Confirms(img, trace[k], steps[k], trace[k + 1])
    ensures steps[m].io.flash.eraseOk && steps[k].io.flash.flushOk
  {
  }

  /**
    On a reliable bus with a healthy flash every run, for every image length and every interleaving, is
    over after at most 3 * |img| + 8 steps, and if nothing more can happen the host has succeeded.
   */
  lemma TransferCompletes(img: Image, trace: seq<World>, steps: seq<Step>)
    requires IsRun(img, trace, steps) && NoErrors(steps)
    ensures |steps| <= 3 * |img| + 8
    ensures var w := trace[|steps|];
            && |w.toHost| + Owed(w.device, w.toDevice) == (if Awaiting(w.host) then 1 else 0)
            && |w.toDevice| < MSGQ_DEPTH
            && (w.host.phase.Success? ==>
                  w.device.area.bytes == img
                  && (|img| <= TWO_32 - F.SECTOR || w.device.area.erases ==> w.device.area.programmed == img))
            && (!w.host.phase.Success? ==>
                  Possible(img, w, HostSends) || Possible(img, w, HostReceives)
                  || Possible(img, w, DeviceHandles(ALL_WELL)))
  {
    var w := trace[|steps|];
    if w.host.phase.Success? {
      HealthyFlash(img, trace, steps);
    }
    WorkBoundsTheRun(img, trace, steps, |steps|);
    RepliesMatchWaits(img, w);
    if !w.host.phase.Success? {
      NoDeadlock(img, w);
    }
  }
}
