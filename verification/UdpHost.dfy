/** The host's windowed go-back-N sender, udp_fw_data_v2_stream. */
module UdpHost {
  import opened Bytes
  import opened Wrappers
  import opened FirmwareImage

  const UDP_FW_WINDOW := 8
  const UDP_FW_V2_MAX_RETRIES := 8
  const UDP_FW_CMD_DATA_V2 := 6

  /** Sending up to the window's end, waiting for acknowledgements, or finished. */
  datatype Phase = Sending(w: nat) | Receiving(confirmed: nat) | Done | GaveUp

  datatype Host = Host(off: nat, retries: nat, phase: Phase)

  /** What the sender does and sees: the run of one transfer. */
  datatype Event = Sent(frame: seq<byte>) | Received(reply: seq<byte>) | WindowTimedOut

  function WinEnd(total: nat, chunk: nat, off: nat): nat {
    Min(off + UDP_FW_WINDOW * chunk, total)
  }

  function DataFrame(img: Image, w: nat, n: nat): seq<byte>
    requires w + n <= |img|
  {
    [UDP_FW_CMD_DATA_V2] + Le32(w) + img[w..w + n]
  }

  function OpenWindow(total: nat, off: nat, retries: nat): Host {
    Host(off, retries, if off < total then Sending(off) else Done)
  }

  /** The acknowledged offset a datagram carries, if it is a DATA_V2 reply. */
  function Acked(reply: seq<byte>): (r: int)
    ensures -1 <= r < TWO_32
  {
    if |reply| >= 5 && reply[0] == UDP_FW_CMD_DATA_V2 then FromLe32(reply[1..5]) else -1
  }

  function FrameSize(total: nat, chunk: nat, h: Host): nat
    requires h.phase.Sending? && h.phase.w <= WinEnd(total, chunk, h.off)
  {
    Min(WinEnd(total, chunk, h.off) - h.phase.w, chunk)
  }

  predicate Valid(total: nat, chunk: nat, h: Host) {
    && 0 < chunk
    && h.off <= total
    && h.retries <= UDP_FW_V2_MAX_RETRIES + 1
    && match h.phase
       case Sending(w) => h.off <= w < WinEnd(total, chunk, h.off) && h.retries <= UDP_FW_V2_MAX_RETRIES
       case Receiving(c) => h.off <= c < WinEnd(total, chunk, h.off) && h.retries <= UDP_FW_V2_MAX_RETRIES
       case Done => h.off == total
       case GaveUp => h.off < total
  }

  function SendOne(img: Image, chunk: nat, h: Host): (r: (Host, seq<byte>))
    requires Valid(|img|, chunk, h) && h.phase.Sending?
    ensures Valid(|img|, chunk, r.0)
  {
    var n := FrameSize(|img|, chunk, h);
    var w := h.phase.w + n;
    (h.(phase := if w < WinEnd(|img|, chunk, h.off) then Sending(w) else Receiving(h.off)),
     DataFrame(img, h.phase.w, n))
  }

  function ReceiveOne(total: nat, chunk: nat, h: Host, reply: seq<byte>): (r: Host)
    requires Valid(total, chunk, h) && h.phase.Receiving?
    ensures Valid(total, chunk, r)
  {
    if Acked(reply) <= h.phase.confirmed then h
    else
      var confirmed := Min(Acked(reply), total);
      if confirmed >= WinEnd(total, chunk, h.off) then OpenWindow(total, confirmed, 0)
      else Host(h.off, 0, Receiving(confirmed))
  }

  function TimeOut(total: nat, chunk: nat, h: Host): (r: Host)
    requires Valid(total, chunk, h) && h.phase.Receiving?
    ensures Valid(total, chunk, r)
  {
    if h.retries + 1 > UDP_FW_V2_MAX_RETRIES then Host(h.off, h.retries + 1, GaveUp)
    else OpenWindow(total, h.phase.confirmed, h.retries + 1)
  }

  predicate Enabled(img: Image, chunk: nat, h: Host, e: Event)
    requires Valid(|img|, chunk, h)
  {
    match e
    case Sent(frame) => h.phase.Sending? && frame == SendOne(img, chunk, h).1
    case Received(_) => h.phase.Receiving?
    case WindowTimedOut => h.phase.Receiving?
  }

  function Step(img: Image, chunk: nat, h: Host, e: Event): (r: Host)
    requires Valid(|img|, chunk, h) && Enabled(img, chunk, h, e)
    ensures Valid(|img|, chunk, r)
  {
    match e
    case Sent(_) => SendOne(img, chunk, h).0
    case Received(reply) => ReceiveOne(|img|, chunk, h, reply)
    case WindowTimedOut => TimeOut(|img|, chunk, h)
  }

  /** The state a run ends in, if every event of it was possible when it happened. */
  function Exec(img: Image, chunk: nat, trace: seq<Event>): (r: Option<Host>)
    requires 0 < chunk
    ensures r.Some? ==> Valid(|img|, chunk, r.value)
  {
    if trace == [] then Some(OpenWindow(|img|, 0, 0))
    else
      var before := Exec(img, chunk, trace[..|trace| - 1]);
      var e := trace[|trace| - 1];
      if before.Some? && Enabled(img, chunk, before.value, e)
      then Some(Step(img, chunk, before.value, e))
      else None
  }

  lemma ExecStep(img: Image, chunk: nat, trace: seq<Event>, h: Host, e: Event)
    requires 0 < chunk && Exec(img, chunk, trace) == Some(h) && Enabled(img, chunk, h, e)
    ensures Exec(img, chunk, trace + [e]) == Some(Step(img, chunk, h, e))
  {
    assert (trace + [e])[..|trace + [e]| - 1] == trace;
  }

  // What each event of the loops below does to the run so far.

  lemma SendEvent(img: Image, chunk: nat, trace: seq<Event>, off: nat, retries: nat, w: nat, n: nat)
    requires 0 < chunk && w < WinEnd(|img|, chunk, off) <= |img|
    requires n == Min(WinEnd(|img|, chunk, off) - w, chunk)
    requires Exec(img, chunk, trace) == Some(Host(off, retries, Sending(w)))
    ensures Exec(img, chunk, trace + [Sent(DataFrame(img, w, n))]) ==
            Some(Host(off, retries, if w + n < WinEnd(|img|, chunk, off) then Sending(w + n) else Receiving(off)))
  {
    ExecStep(img, chunk, trace, Host(off, retries, Sending(w)), Sent(DataFrame(img, w, n)));
  }

  lemma ReplyEvent(img: Image, chunk: nat, trace: seq<Event>, off: nat, retries: nat, confirmed: nat, reply: seq<byte>)
    requires 0 < chunk
    requires Exec(img, chunk, trace) == Some(Host(off, retries, Receiving(confirmed)))
    ensures Exec(img, chunk, trace + [Received(reply)]) ==
            Some(ReceiveOne(|img|, chunk, Host(off, retries, Receiving(confirmed)), reply))
  {
    ExecStep(img, chunk, trace, Host(off, retries, Receiving(confirmed)), Received(reply));
  }

  lemma TimeOutEvent(img: Image, chunk: nat, trace: seq<Event>, off: nat, retries: nat, confirmed: nat)
    requires 0 < chunk
    requires Exec(img, chunk, trace) == Some(Host(off, retries, Receiving(confirmed)))
    ensures Exec(img, chunk, trace + [WindowTimedOut]) ==
            Some(if retries >= UDP_FW_V2_MAX_RETRIES then Host(off, retries + 1, GaveUp)
                 else OpenWindow(|img|, confirmed, retries + 1))
  {
    ExecStep(img, chunk, trace, Host(off, retries, Receiving(confirmed)), WindowTimedOut);
  }

  /** First inner loop: one window goes out, eight frames or as many as are left. */
  method SendWindow(img: Image, chunk: nat, off: nat, retries: nat, before: seq<Event>)
    returns (trace: seq<Event>)
    requires 0 < chunk && off < |img|
    requires Exec(img, chunk, before) == Some(Host(off, retries, Sending(off)))
    ensures Exec(img, chunk, trace) == Some(Host(off, retries, Receiving(off)))
    ensures before <= trace && forall k | |before| <= k < |trace| :: trace[k].Sent?
    ensures var n := |trace| - |before|;
      1 <= n <= 8 && (n < 8 ==> off + n * chunk >= |img|) && off + (n - 1) * chunk < |img|
  {
    hide Exec;
    hide Valid;
    trace := before;
    var winEnd := WinEnd(|img|, chunk, off);
    var w := off;
    ghost var sent := 0;
    while w < winEnd
      invariant off <= w <= winEnd && 0 <= sent <= 8 && w == Min(off + sent * chunk, winEnd)
      invariant before <= trace && |trace| == |before| + sent && forall k | |before| <= k < |trace| :: trace[k].Sent?
      invariant if sent == 0 then w == off else off + (sent - 1) * chunk < winEnd
      invariant Exec(img, chunk, trace) ==
                Some(Host(off, retries, if w < winEnd then Sending(w) else Receiving(off)))
    {
      var n := if winEnd - w > chunk then chunk else winEnd - w;
      SendEvent(img, chunk, trace, off, retries, w, n);
      trace := trace + [Sent([UDP_FW_CMD_DATA_V2] + Le32(w) + img[w..w + n])];
      w := w + n;
      assert (sent + 1) * chunk == sent * chunk + chunk;
      sent := sent + 1;
    }
  }

  /** Second inner loop: the replies that arrive before the deadline. */
  method CollectReplies(img: Image, chunk: nat, off: nat, stalled: nat, arrived: seq<seq<byte>>, before: seq<Event>)
    returns (confirmed: nat, retries: nat, trace: seq<Event>)
    requires 0 < chunk && off < |img| && stalled <= UDP_FW_V2_MAX_RETRIES
    requires Exec(img, chunk, before) == Some(Host(off, stalled, Receiving(off)))
    ensures off <= confirmed <= |img|
    ensures retries == if confirmed > off then 0 else stalled
    ensures Exec(img, chunk, trace) ==
            Some(if confirmed < WinEnd(|img|, chunk, off) then Host(off, retries, Receiving(confirmed))
                 else OpenWindow(|img|, confirmed, retries))
  {
    hide Exec;
    hide Valid;
    hide Acked;
    trace, confirmed, retries := before, off, stalled;
    var winEnd, i := WinEnd(|img|, chunk, off), 0;
    while confirmed < winEnd && i < |arrived|
      invariant off <= confirmed <= |img|
      invariant retries == if confirmed > off then 0 else stalled
      invariant Exec(img, chunk, trace) ==
                Some(if confirmed < winEnd then Host(off, retries, Receiving(confirmed))
                     else OpenWindow(|img|, confirmed, retries))
      decreases |arrived| - i
    {
      ReplyEvent(img, chunk, trace, off, retries, confirmed, arrived[i]);
      trace := trace + [Received(arrived[i])];
      var roff := Acked(arrived[i]);
      if roff > confirmed {
        confirmed := if roff > |img| then |img| else roff;
        retries := 0;
      }
      i := i + 1;
    }
  }

  /**
    The sender against an arbitrary device: `arrivals(k)` are the datagrams that reach the socket
    before the deadline of window k. It always ends, and what it did is a run of the machine above.
   */
  method UdpFwDataV2Stream(img: Image, chunk: nat, arrivals: nat -> seq<seq<byte>>)
    returns (ok: bool, trace: seq<Event>, windows: nat)
    requires 0 < chunk
    ensures Exec(img, chunk, trace).Some?
    ensures if ok then Exec(img, chunk, trace).value.phase.Done?
            else Exec(img, chunk, trace).value.phase.GaveUp?
    ensures windows <= (UDP_FW_V2_MAX_RETRIES + 1) * (|img| + 1)
  {
    var total := |img|;
    var off := 0;
    var retries := 0;
    trace, windows := [], 0;
    assert Exec(img, chunk, trace) == Some(OpenWindow(total, off, retries));
    hide Exec;
    hide Valid;
    while off < total
      invariant off <= total && retries <= UDP_FW_V2_MAX_RETRIES
      invariant Exec(img, chunk, trace) == Some(OpenWindow(total, off, retries))
      invariant windows <= 9 * off + retries
      decreases total - off, UDP_FW_V2_MAX_RETRIES + 1 - retries
    {
      trace := SendWindow(img, chunk, off, retries, trace);
      var confirmed;
      confirmed, retries, trace := CollectReplies(img, chunk, off, retries, arrivals(windows), trace);
      windows := windows + 1;
      if confirmed < WinEnd(total, chunk, off) {
        TimeOutEvent(img, chunk, trace, off, retries, confirmed);
        trace := trace + [WindowTimedOut];
        retries := retries + 1;
        if retries > UDP_FW_V2_MAX_RETRIES {
          return false, trace, windows;
        }
      }
      off := confirmed;
    }
    return true, trace, windows;
  }

  // ----- what a run says -----

  /** A frame of the image that this sender may put on the wire. */
  predicate Carries(img: Image, frame: seq<byte>) {
    && |frame| > 5 && frame[0] == UDP_FW_CMD_DATA_V2
    && FromLe32(frame[1..5]) + (|frame| - 5) <= |img|
    && frame[5..] == img[FromLe32(frame[1..5])..FromLe32(frame[1..5]) + (|frame| - 5)]
  }

  lemma SendsTheImage(img: Image, chunk: nat, h: Host)
    requires Valid(|img|, chunk, h) && h.phase.Sending?
    ensures Carries(img, SendOne(img, chunk, h).1)
    ensures |SendOne(img, chunk, h).1| <= 5 + chunk
  {
    var frame := SendOne(img, chunk, h).1;
    Le32RoundTrip(h.phase.w);
    assert frame[1..5] == Le32(h.phase.w);
  }

  /** Everything sent is a slice of the image labelled with its own offset. */
  lemma {:induction false} RunSendsTheImage(img: Image, chunk: nat, trace: seq<Event>, i: nat)
    requires 0 < chunk && Exec(img, chunk, trace).Some?
    requires i < |trace| && trace[i].Sent?
    ensures Carries(img, trace[i].frame)
  {
    var last := |trace| - 1;
    if i == last {
      SendsTheImage(img, chunk, Exec(img, chunk, trace[..last]).value);
    } else {
      RunSendsTheImage(img, chunk, trace[..last], i);
    }
  }

  /** The greatest offset the sender takes the device to have. */
  function Confirmed(h: Host): nat {
    if h.phase.Receiving? then h.phase.confirmed else h.off
  }

  /** The sender believes only what a reply told it: it finishes only on an acknowledgement of the whole image. */
  lemma {:induction false} ConfirmationsWereReceived(img: Image, chunk: nat, trace: seq<Event>)
    requires 0 < chunk && Exec(img, chunk, trace).Some?
    ensures var c := Confirmed(Exec(img, chunk, trace).value);
            c == 0 || exists e :: e in trace && e.Received? && c <= Acked(e.reply)
  {
    if trace == [] {
    } else {
      var last := |trace| - 1;
      ConfirmationsWereReceived(img, chunk, trace[..last]);
      var before := Exec(img, chunk, trace[..last]).value;
      var c := Confirmed(Exec(img, chunk, trace).value);
      if c != 0 && c == Confirmed(before) {
        var e :| e in trace[..last] && e.Received? && c <= Acked(e.reply);
        assert e in trace;
      } else if c != 0 {
        assert trace[last] in trace;
      }
    }
  }

  /** The windows that timed out since a reply last raised the confirmed offset. */
  function Stalls(img: Image, chunk: nat, trace: seq<Event>): nat
    requires 0 < chunk && Exec(img, chunk, trace).Some?
  {
    if trace == [] then 0
    else
      var last := |trace| - 1;
      match trace[last]
      case WindowTimedOut => Stalls(img, chunk, trace[..last]) + 1
      case Received(reply) =>
        if Acked(reply) > Confirmed(Exec(img, chunk, trace[..last]).value) then 0
        else Stalls(img, chunk, trace[..last])
      case Sent(_) => Stalls(img, chunk, trace[..last])
  }

  /** The sender gives up exactly when nine windows in a row time out without any progress. */
  lemma {:induction false} GivesUpIff(img: Image, chunk: nat, trace: seq<Event>)
    requires 0 < chunk && Exec(img, chunk, trace).Some?
    ensures var h := Exec(img, chunk, trace).value;
      h.phase.GaveUp? <==> Stalls(img, chunk, trace) >= 9
    ensures Exec(img, chunk, trace).value.retries == Stalls(img, chunk, trace)
  {
    if trace == [] {
    } else {
      var last := |trace| - 1;
      GivesUpIff(img, chunk, trace[..last]);
      StepCounts(img, chunk, Exec(img, chunk, trace[..last]).value, trace[last]);
      hide Step, Enabled, Acked, Valid;
    }
  }

  lemma StepCounts(img: Image, chunk: nat, h: Host, e: Event)
    requires 0 < chunk && Valid(|img|, chunk, h) && Enabled(img, chunk, h, e)
    requires h.phase.GaveUp? <==> h.retries >= 9
    ensures var g := Step(img, chunk, h, e);
      && (g.phase.GaveUp? <==> g.retries >= 9)
      && g.retries == match e
                      case WindowTimedOut => h.retries + 1
                      case Received(reply) => if Acked(reply) > Confirmed(h) then 0 else h.retries
                      case Sent(_) => h.retries
  {
    hide Acked;
  }
}
