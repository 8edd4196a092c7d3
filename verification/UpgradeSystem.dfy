/**
  Three upgrade channels running side by side over one lock and one slot1. Every step of the
  machine is the stretch of one thread between two preemption points.
 */
module UpgradeSystem {
  import opened Bytes
  import opened UpgradeLock
  import opened Crc16
  import opened Flash
  import opened Wrappers
  import U = UdpFirmware
  import S = SdoDownload

  /** A client of the lock that touches slot1 only between locking and unlocking. */
  datatype WsPc = Outside | Holding | Writing | Leaving
  datatype WsClient = WsClient(pc: WsPc, session: nat)

  datatype Device = Device(lock: Lock, slot1: Slot1, udp: U.Udp, sdo: S.Sdo, ws: WsClient)

  datatype Action =
    | UdpCommand(cmd: byte, data: seq<byte>, io: Io)
    | UdpContinue(io: Io)
    | SdoControl(count: nat, val: uint32, io: Io)
    | SdoContinue(io: Io)
    | SdoWrite(buf: seq<byte>, offset: nat, length: nat, io: Io)
    | WsLock
    | WsErase
    | WsWrite(buf: seq<byte>)
    | WsClose
    | WsUnlock

  function Actor(a: Action): Channel {
    match a
    case UdpCommand(_, _, _) => UDP
    case UdpContinue(_) => UDP
    case SdoControl(_, _, _) => SDO
    case SdoContinue(_) => SDO
    case SdoWrite(_, _, _, _) => SDO
    case _ => WS
  }

  /** Power-up of a build whose writes erase or not; `stale` is where slot1 still holds data of earlier upgrades. */
  function PowerOn(erases: bool, stale: set<nat>): Device {
    Device(Lock(UDP, false), AtPowerUp(erases, stale), U.UDP_INIT, S.SDO_INIT, WsClient(Outside, 0))
  }

  function UdpView(d: Device): U.View {
    U.View(d.lock, d.slot1, d.udp)
  }

  function SdoView(d: Device): S.View {
    S.View(d.lock, d.slot1, d.sdo)
  }

  /** A thread inside a command, or rebooting, does nothing else; the WebSocket client locks before it writes. */
  predicate Enabled(d: Device, a: Action) {
    match a
    case UdpCommand(_, _, _) => d.udp.pc.Idle?
    case UdpContinue(_) => !U.Resting(d.udp.pc)
    case SdoControl(_, _, _) => d.sdo.pc.Idle?
    case SdoContinue(_) => !d.sdo.pc.Idle?
    case SdoWrite(_, _, _, _) => d.sdo.pc.Idle?
    case WsLock => d.ws.pc.Outside?
    case WsErase => d.ws.pc.Holding? || d.ws.pc.Writing?
    case WsWrite(_) => d.ws.pc.Writing?
    case WsClose => !d.ws.pc.Leaving?
    case WsUnlock => d.ws.pc.Leaving?
  }

  ghost function UdpStep(cfg: U.Config, d: Device, a: Action): (U.View, U.Reply)
    requires Enabled(d, a) && Actor(a) == UDP
  {
    match a
    case UdpCommand(cmd, data, io) => U.Begin(cfg, UdpView(d), cmd, data, io)
    case UdpContinue(io) => U.Continue(cfg, UdpView(d), io)
  }

  function SdoStep(d: Device, a: Action): (S.View, S.Code)
    requires Enabled(d, a) && Actor(a) == SDO
  {
    match a
    case SdoControl(count, val, io) => S.CtrlBegin(SdoView(d), count, val, io)
    case SdoContinue(io) => S.Continue(SdoView(d), io)
    case SdoWrite(buf, offset, length, io) => S.DataWrite(SdoView(d), buf, offset, length, io)
  }

  function WsStep(d: Device, a: Action): Device
    requires Enabled(d, a) && Actor(a) == WS
  {
    match a
    case WsLock =>
      if d.lock.active then d
      else d.(lock := d.lock.Locked(WS), ws := d.ws.(pc := Holding))
    case WsErase =>
      var slot1 := d.slot1.Wiped(WS);
      d.(slot1 := slot1, ws := WsClient(Writing, slot1.current.session))
    case WsWrite(buf) => d.(slot1 := d.slot1.Appended(WS, d.ws.session, buf))
    case WsClose => d.(ws := d.ws.(pc := Leaving))
    case WsUnlock => d.(lock := d.lock.Unlocked(WS), ws := d.ws.(pc := Outside))
  }

  /** One step, and the UDP reply it sends, if any. */
  ghost function Next(cfg: U.Config, d: Device, a: Action): (Device, U.Reply)
    requires Enabled(d, a)
  {
    if Actor(a) == UDP then
      var (v, r) := UdpStep(cfg, d, a);
      (d.(lock := v.lock, slot1 := v.slot1, udp := v.udp), r)
    else if Actor(a) == SDO then
      var v := SdoStep(d, a).0;
      (d.(lock := v.lock, slot1 := v.slot1, sdo := v.sdo), None)
    else (WsStep(d, a), None)
  }

  // ----- the invariant -----

  /** UDP owns the lock exactly while a session runs, starts or fails, or a verified image waits. */
  predicate UdpOwns(d: Device) {
    d.udp.started || d.udp.verified || !U.Resting(d.udp.pc)
  }

  /** SDO owns the lock while it remembers holding it, except between unlocking and forgetting. */
  predicate SdoOwns(d: Device) {
    d.sdo.lockHeld && !d.sdo.pc.Releasing?
  }

  predicate WsOwns(d: Device) {
    d.ws.pc.Holding? || d.ws.pc.Writing?
  }

  /** slot1 was set up by the UDP session that runs or was verified. */
  predicate UdpSlot(d: Device) {
    d.udp.started || d.udp.verified || d.udp.pc.Erased?
  }

  /** slot1 was set up by the SDO download that runs or was confirmed. */
  predicate SdoSlot(d: Device) {
    (d.sdo.pc.Idle? && d.sdo.state in {S.READY, S.STREAMING, S.CONFIRMED}) || d.sdo.pc.Opening?
  }

  /** What `fw_received` and `fw_written` say is what slot1 has accepted for that channel. */
  predicate CountsOk(d: Device) {
    && (d.udp.pc.Erased? || d.sdo.pc.Opening? ==> d.slot1.area.bytes == [])
    && (d.udp.started ==> d.udp.received == |d.slot1.area.bytes| % TWO_32)
    && (d.sdo.pc.Idle? && SdoSlot(d) ==> d.sdo.written == |d.slot1.area.bytes|)
  }

  ghost predicate Inv(d: Device) {
    && (d.lock.HeldBy(UDP) <==> UdpOwns(d))
    && (d.lock.HeldBy(SDO) <==> SdoOwns(d))
    && (WsOwns(d) ==> d.lock.HeldBy(WS))
    && (d.lock.HeldBy(WS) ==> !d.ws.pc.Outside?)
    && (d.udp.verified ==> U.Resting(d.udp.pc) && !d.udp.started)
    && (!U.Resting(d.udp.pc) ==> !d.udp.started)
    && (d.udp.pc.Failing? ==> d.udp.pc.reply != U.EndReply(1))
    && (!d.sdo.pc.Idle? ==> d.sdo.lockHeld)
    && (d.sdo.state in {S.READY, S.STREAMING, S.CONFIRMED} ==>
          d.sdo.lockHeld && !d.sdo.pc.Releasing? && !d.sdo.pc.Unlocking?)
    && (UdpSlot(d) ==> d.slot1.current == Tag(UDP, d.udp.session))
    && (SdoSlot(d) ==> d.slot1.current == Tag(SDO, d.sdo.session))
    && (d.ws.pc.Writing? ==> d.slot1.current == Tag(WS, d.ws.session))
    && (d.slot1.current.session == 0 ==>
          d.slot1.area.bytes == [] && !UdpSlot(d) && !SdoSlot(d) && !d.ws.pc.Writing?)
    && d.slot1.OneUpgrade() && d.slot1.area.Sound() && CountsOk(d)
  }

  /** Counting modulo 2^32 and writing go together. */
  lemma WroteCounts(v: U.View, data: seq<byte>)
    requires v.udp.received == |v.slot1.area.bytes| % TWO_32
    ensures var w := U.Wrote(v, data);
      && w.udp.received == |w.slot1.area.bytes| % TWO_32
      && w.udp == v.udp.(received := w.udp.received) && w.lock == v.lock
  {
  }

  lemma UdpStepKeepsCounts(cfg: U.Config, d: Device, a: Action)
    requires Inv(d) && Enabled(d, a) && Actor(a) == UDP
    ensures CountsOk(Next(cfg, d, a).0)
  {
    hide Crc, U.Wrote, U.OffsetReply, U.StartReply, Le16, Le32, FromLe16, FromLe32, U.KeyhashRefused;
    var v := UdpView(d);
    if a.UdpCommand? && d.udp.started {
      WroteCounts(v, a.data);
      if |a.data| > 4 {
        WroteCounts(v, a.data[4..]);
      }
    }
  }

  lemma UdpStepKeepsInv(cfg: U.Config, d: Device, a: Action)
    requires Inv(d) && Enabled(d, a) && Actor(a) == UDP
    ensures Inv(Next(cfg, d, a).0)
    ensures Next(cfg, d, a).0.slot1 != d.slot1 ==> d.lock.HeldBy(UDP)
    ensures Next(cfg, d, a).0.slot1.area.erases == d.slot1.area.erases
  {
    UdpStepKeepsCounts(cfg, d, a);
    hide CountsOk;
  }

  lemma SdoStepKeepsInv(cfg: U.Config, d: Device, a: Action)
    requires Inv(d) && Enabled(d, a) && Actor(a) == SDO
    ensures Inv(Next(cfg, d, a).0)
    ensures Next(cfg, d, a).0.slot1 != d.slot1 ==> d.lock.HeldBy(SDO)
    ensures Next(cfg, d, a).0.slot1.area.erases == d.slot1.area.erases
  {
  }

  lemma WsStepKeepsInv(cfg: U.Config, d: Device, a: Action)
    requires Inv(d) && Enabled(d, a) && Actor(a) == WS
    ensures Inv(Next(cfg, d, a).0)
    ensures Next(cfg, d, a).0.slot1 != d.slot1 ==> d.lock.HeldBy(WS)
    ensures Next(cfg, d, a).0.slot1.area.erases == d.slot1.area.erases
  {
  }

  /** Every step keeps the ownership rules, and touches slot1 only for the holder of the lock. */
  lemma StepKeepsInv(cfg: U.Config, d: Device, a: Action)
    requires Inv(d) && Enabled(d, a)
    ensures Inv(Next(cfg, d, a).0)
    ensures Next(cfg, d, a).0.slot1 != d.slot1 ==> d.lock.HeldBy(Actor(a))
    ensures Next(cfg, d, a).0.slot1.area.erases == d.slot1.area.erases
  {
    hide *;
    if Actor(a) == UDP {
      UdpStepKeepsInv(cfg, d, a);
    } else if Actor(a) == SDO {
      SdoStepKeepsInv(cfg, d, a);
    } else {
      WsStepKeepsInv(cfg, d, a);
    }
  }

  // ----- runs -----

  ghost predicate IsRun(cfg: U.Config, trace: seq<Device>, acts: seq<Action>) {
    && |trace| == |acts| + 1
    && trace[0] == PowerOn(trace[0].slot1.area.erases, trace[0].slot1.area.stale)
    && forall i | 0 <= i < |acts| :: Enabled(trace[i], acts[i]) && trace[i + 1] == Next(cfg, trace[i], acts[i]).0
  }

  lemma {:induction false} RunKeepsInv(cfg: U.Config, trace: seq<Device>, acts: seq<Action>, n: nat)
    requires IsRun(cfg, trace, acts) && n <= |acts|
    ensures Inv(trace[n]) && trace[n].slot1.area.erases == trace[0].slot1.area.erases
  {
    hide Next;
    hide Enabled;
    if n == 0 {
    } else {
      RunKeepsInv(cfg, trace, acts, n - 1);
      StepKeepsInv(cfg, trace[n - 1], acts[n - 1]);
    }
  }

  /**
    In every interleaving each change of slot1 is made by the owner of the lock, and the bytes accepted
    since its set-up were all written by the upgrade that set it up.
   */
  lemma OwnerAloneWrites(cfg: U.Config, trace: seq<Device>, acts: seq<Action>)
    requires IsRun(cfg, trace, acts)
    ensures forall i | 0 <= i < |acts| && trace[i + 1].slot1 != trace[i].slot1 ::
              trace[i].lock.HeldBy(Actor(acts[i]))
    ensures forall i | 0 <= i <= |acts| :: trace[i].slot1.OneUpgrade()
  {
    hide Next;
    hide Enabled;
    forall i | 0 <= i <= |acts|
      ensures Inv(trace[i])
    {
      RunKeepsInv(cfg, trace, acts, i);
    }
    forall i | 0 <= i < |acts| && trace[i + 1].slot1 != trace[i].slot1
      ensures trace[i].lock.HeldBy(Actor(acts[i]))
    {
      StepKeepsInv(cfg, trace[i], acts[i]);
    }
  }

  // ----- what the set-ups of slot1 leave behind -----

  /** This step sets slot1 up for a new upgrade. */
  predicate SetsUp(d: Device, a: Action) {
    || (a.UdpContinue? && d.udp.pc.Locked? && a.io.openOk)
    || (a.SdoContinue? && d.sdo.pc.Resetting? && a.io.openOk)
    || a.WsErase?
  }

  /**
    Where slot1 still holds older data afterwards: a FW_START clears the length it announced, if the erase
    that nobody looks at succeeds, 0x1F51 clears only the trailer, and the WebSocket everything.
   */
  function LeftBy(d: Device, a: Action): set<nat>
    requires SetsUp(d, a)
  {
    if a.UdpContinue? then d.slot1.area.Left(Cleared(d.udp.size, a.io))
    else if a.SdoContinue? then d.slot1.area.Left(0)
    else {}
  }

  /** The erase of a FW_START succeeded over all there was, or there was nothing. */
  predicate EraseReaches(d: Device, io: Io) {
    d.slot1.area.Occupied() == {}
    || (io.eraseOk && d.slot1.area.Occupied() <= Below(EraseLen(d.udp.size)))
  }

  /** A set-up leaves no old data iff, over UDP, its erase reached all there was, or, over SDO, there was none. */
  lemma SessionStartsFreshIff(d: Device, a: Action)
    requires SetsUp(d, a)
    ensures LeftBy(d, a) == {} <==>
            match Actor(a)
            case UDP => EraseReaches(d, a.io)
            case SDO => d.slot1.area.Occupied() == {}
            case WS => true
  {
    SetUpIsFreshIff(d.slot1.area, 0);
    if a.UdpContinue? {
      SetUpIsFreshIff(d.slot1.area, Cleared(d.udp.size, a.io));
    }
    assert Below(0) == {};
  }

  lemma SetUpStep(cfg: U.Config, d: Device, a: Action)
    requires Inv(d) && Enabled(d, a)
    ensures var v := Next(cfg, d, a).0.slot1;
      if SetsUp(d, a) then
        v.area.bytes == [] && v.area.stale == LeftBy(d, a) && v.current.session == d.slot1.current.session + 1
      else v.current == d.slot1.current && v.area.GrownFrom(d.slot1.area)
  {
    hide Crc;
  }

  lemma {:induction false} LastSetUp(cfg: U.Config, trace: seq<Device>, acts: seq<Action>, i: nat) returns (m: nat)
    requires IsRun(cfg, trace, acts) && i <= |acts| && trace[i].slot1.current.session > 0
    ensures m < i && SetsUp(trace[m], acts[m])
    ensures trace[i].slot1.current == trace[m + 1].slot1.current
    ensures trace[m + 1].slot1.area.stale == LeftBy(trace[m], acts[m])
    ensures trace[i].slot1.area.GrownFrom(trace[m + 1].slot1.area)
  {
    hide Next, Enabled, Inv, SetsUp, LeftBy;
    if i == 0 {
    } else {
      RunKeepsInv(cfg, trace, acts, i - 1);
      SetUpStep(cfg, trace[i - 1], acts[i - 1]);
      if SetsUp(trace[i - 1], acts[i - 1]) {
        m := i - 1;
      } else {
        m := LastSetUp(cfg, trace, acts, i - 1);
      }
    }
  }

  /**
    Exactly when two upgrades share cells of slot1. In every run, a slot with bytes in it was set up at some
    step m, and no byte written since lies on older data if and only if the firmware's writes erase, or
    nothing that the set-up left behind lies below the end of what was written.
   */
  lemma UnmixedIff(cfg: U.Config, trace: seq<Device>, acts: seq<Action>, i: nat) returns (m: nat)
    requires IsRun(cfg, trace, acts) && i <= |acts|
    ensures trace[i].slot1.area.bytes == [] ==> trace[i].slot1.Unmixed()
    ensures trace[i].slot1.area.bytes != [] ==>
      && m < i && SetsUp(trace[m], acts[m]) && trace[m + 1].slot1.current == trace[i].slot1.current
      && (trace[i].slot1.Unmixed() <==>
            trace[0].slot1.area.erases || Below(|trace[i].slot1.area.bytes|) !! LeftBy(trace[m], acts[m]))
  {
    hide Next, Enabled, SetsUp, LeftBy;
    RunKeepsInv(cfg, trace, acts, i);
    if trace[i].slot1.area.bytes == [] {
      m := 0;
    } else {
      m := LastSetUp(cfg, trace, acts, i);
    }
  }

  /**
    In every interleaving each change of slot1 is made by the owner of the lock; and no two upgrades' bytes
    ever share the slot's cells if writes erase, or if no set-up leaves old data behind.
   */
  lemma ChannelsNeverMix(cfg: U.Config, trace: seq<Device>, acts: seq<Action>)
    requires IsRun(cfg, trace, acts)
    ensures forall i | 0 <= i < |acts| && trace[i + 1].slot1 != trace[i].slot1 ::
              trace[i].lock.HeldBy(Actor(acts[i]))
    ensures trace[0].slot1.area.erases ==> forall i | 0 <= i <= |acts| :: trace[i].slot1.Unmixed()
    ensures (forall i | 0 <= i < |acts| && SetsUp(trace[i], acts[i]) :: LeftBy(trace[i], acts[i]) == {}) ==>
            forall i | 0 <= i <= |acts| :: trace[i].slot1.Unmixed()
  {
    hide Next, Enabled, SetsUp, LeftBy;
    OwnerAloneWrites(cfg, trace, acts);
    forall i | 0 <= i <= |acts|
      ensures trace[0].slot1.area.erases ==> trace[i].slot1.Unmixed()
      ensures (forall i | 0 <= i < |acts| && SetsUp(trace[i], acts[i]) :: LeftBy(trace[i], acts[i]) == {}) ==>
              trace[i].slot1.Unmixed()
    {
      var m := UnmixedIff(cfg, trace, acts, i);
    }
  }

  /** A frame written over UDP mixes two upgrades unless writes erase or no old data lies up to its end. */
  lemma WritingOverOldDataMixes(cfg: U.Config, d: Device, data: seq<byte>, io: Io)
    requires Inv(d) && d.udp.pc.Idle? && d.udp.started && io.writeOk && data != []
    ensures var p := d.slot1.area;
      Next(cfg, d, UdpCommand(U.FW_CMD_DATA, data, io)).0.slot1.Unmixed() <==>
      p.erases || p.stale !! Below(|p.bytes| + |data|)
  {
    hide Crc;
    var a := UdpCommand(U.FW_CMD_DATA, data, io);
    StepKeepsInv(cfg, d, a);
    assert |d.slot1.area.bytes + data| == |d.slot1.area.bytes| + |data|;
  }

  lemma VerifiedStep(cfg: U.Config, d: Device, a: Action)
    requires Inv(d) && Enabled(d, a) && d.udp.verified
    ensures Next(cfg, d, a).0.udp.verified
    ensures Next(cfg, d, a).0.slot1 == d.slot1
    ensures Next(cfg, d, a).1 != Some(U.EndReply(1))
  {
  }

  /** The reply "1" to FW_END is sent in exactly the step that makes the image a verified one. */
  lemma EndReplyVerifies(cfg: U.Config, d: Device, a: Action)
    requires Inv(d) && Enabled(d, a)
    ensures Next(cfg, d, a).1 == Some(U.EndReply(1)) <==> !d.udp.verified && Next(cfg, d, a).0.udp.verified
  {
  }

  /** Once FW_END answered 1, no command on any channel changes slot1 until the reboot. */
  lemma {:induction false} VerifiedImageIsFrozen(
      cfg: U.Config, trace: seq<Device>, acts: seq<Action>, i: nat, j: nat)
    requires IsRun(cfg, trace, acts) && i <= j <= |acts|
    requires trace[i].udp.verified
    ensures trace[j].udp.verified && trace[j].lock.HeldBy(UDP)
    ensures trace[j].slot1 == trace[i].slot1
    decreases j
  {
    hide Next;
    hide Enabled;
    RunKeepsInv(cfg, trace, acts, j);
    if i == j {
    } else {
      VerifiedImageIsFrozen(cfg, trace, acts, i, j - 1);
      RunKeepsInv(cfg, trace, acts, j - 1);
      VerifiedStep(cfg, trace[j - 1], acts[j - 1]);
    }
  }

  /** What FW_DATA does to any device: the reply counts what slot1 has accepted in this session. */
  lemma DataCommandEffect(cfg: U.Config, d: Device, data: seq<byte>, io: Io)
    requires Inv(d) && d.udp.pc.Idle?
    ensures var (v, r) := Next(cfg, d, UdpCommand(U.FW_CMD_DATA, data, io));
      if !d.udp.started || data == [] then v == d && r == Some(U.OffsetReply(U.FW_CMD_DATA, 0))
      else if !io.writeOk then
        r == None && v == d.(udp := d.udp.(started := false, pc := U.Failing(U.OffsetReply(U.FW_CMD_DATA, 0))))
      else
        && v.slot1.area.bytes == d.slot1.area.bytes + data && v.lock == d.lock && v.udp.started
        && r == Some(U.OffsetReply(U.FW_CMD_DATA, |v.slot1.area.bytes| % TWO_32))
  {
    hide Crc, U.Wrote, U.OffsetReply;
    if d.udp.started {
      WroteCounts(UdpView(d), data);
      WroteAppends(UdpView(d), data);
    }
  }

  lemma WroteAppends(v: U.View, data: seq<byte>)
    ensures U.Wrote(v, data).slot1.area.bytes == v.slot1.area.bytes + data
  {
  }

  // ----- the SDO channel after its own confirmation -----

  predicate Confirmed(d: Device) {
    d.sdo.state == S.CONFIRMED && d.sdo.pc.Idle?
  }

  /** A control write that fw_ctrl_write acts on. */
  predicate ActsOnControl(a: Action) {
    a.SdoControl? && a.count == 4 && a.val <= 1
  }

  lemma ConfirmedStep(cfg: U.Config, d: Device, a: Action)
    requires Inv(d) && Enabled(d, a) && Confirmed(d) && !ActsOnControl(a)
    ensures Confirmed(Next(cfg, d, a).0) && Next(cfg, d, a).0.slot1 == d.slot1
  {
  }

  /** A control write of 1 that confirms: a download under way, a final flush and a boot request that succeed. */
  predicate Confirms(d: Device, a: Action) {
    && a.SdoControl? && a.count == 4 && a.val == 1 && d.sdo.state == S.STREAMING
    && a.io.flushOk && a.io.bootOk
  }

  lemma ConfirmingStep(cfg: U.Config, d: Device, a: Action)
    requires Inv(d) && Enabled(d, a) && Confirmed(Next(cfg, d, a).0)
    ensures if Confirmed(d) then Next(cfg, d, a).0.slot1 == d.slot1
            else Confirms(d, a) && Next(cfg, d, a).0.slot1 == d.slot1.Flushed(a.io)
  {
  }

  lemma FlushedToTheEnd(p: Partition, io: Io)
    requires io.flushOk
    ensures var q := p.Flushed(io);
      && q.bytes == p.bytes && q.stale == p.stale && |q.programmed| == |q.bytes|
      && forall k | 0 <= k < |q.bytes| && k !in q.stale :: q.programmed[k] == q.bytes[k]
  {
  }

  /**
    A confirmed SDO image is in the flash. In every state of every run in which 0x1F51 stands at CONFIRMED, some
    control write confirmed it with a successful flush and boot request; what was accepted is what its
    session wrote, as many bytes as `fw_written` says, and it was flushed to the end; and it reads back
    right wherever it lies on no older data, so everywhere if writes erase.
   */
  lemma {:induction false} ConfirmedImageIsComplete(cfg: U.Config, trace: seq<Device>, acts: seq<Action>, n: nat)
    returns (k: nat)
    requires IsRun(cfg, trace, acts) && n <= |acts| && Confirmed(trace[n])
    ensures k < n && Confirms(trace[k], acts[k]) && trace[n].slot1 == trace[k].slot1.Flushed(acts[k].io)
    ensures trace[n].slot1.OneUpgrade() && trace[n].slot1.current == Tag(SDO, trace[n].sdo.session)
    ensures var area := trace[n].slot1.area;
      && |area.bytes| == trace[n].sdo.written && |area.programmed| == |area.bytes|
      && (forall p | 0 <= p < |area.bytes| && p !in area.stale :: area.programmed[p] == area.bytes[p])
      && (area.erases ==> area.programmed == area.bytes)
  {
    hide Next, Enabled;
    RunKeepsInv(cfg, trace, acts, n);
    if n == 0 {
    } else {
      RunKeepsInv(cfg, trace, acts, n - 1);
      ConfirmingStep(cfg, trace[n - 1], acts[n - 1]);
      if Confirmed(trace[n - 1]) {
        k := ConfirmedImageIsComplete(cfg, trace, acts, n - 1);
      } else {
        k := n - 1;
        FlushedToTheEnd(trace[k].slot1.area, acts[k].io);
      }
    }
  }

  /**
    A control write of 1 returns ODR_OK if and only if a download is under way and both the final flush and the
    boot request succeed; then the image is confirmed under the lock. Otherwise the state is ERROR and the
    lock is not held any more.
   */
  lemma ControlWriteConfirmsIff(v: S.View, io: Io)
    requires v.sdo.pc.Idle? && (v.lock.HeldBy(SDO) <==> v.sdo.lockHeld)
    ensures var (w, code) := S.CtrlWrite(v, 4, 1, io);
      && (code == S.Returned(S.OK) <==>
            v.sdo.state == S.STREAMING && v.sdo.written > 0 && io.flushOk && io.bootOk)
      && code.Returned? && w.sdo.pc.Idle? && w.sdo.written == v.sdo.written
      && if code == S.Returned(S.OK) then
           w.sdo.state == S.CONFIRMED && w.lock == v.lock && w.sdo.lockHeld == v.sdo.lockHeld
         else w.sdo.state == S.ERROR && !w.sdo.lockHeld && !w.lock.HeldBy(SDO)
  {
  }

  /** A confirmed SDO image stays put until 0x1F51 is written with 0 or 1 once more. */
  lemma {:induction false} ConfirmedImageIsFrozen(
      cfg: U.Config, trace: seq<Device>, acts: seq<Action>, i: nat, j: nat)
    requires IsRun(cfg, trace, acts) && i <= j <= |acts|
    requires Confirmed(trace[i])
    requires forall k | i <= k < j :: !ActsOnControl(acts[k])
    ensures Confirmed(trace[j]) && trace[j].lock.HeldBy(SDO)
    ensures trace[j].slot1 == trace[i].slot1
    decreases j
  {
    hide Next;
    hide Enabled;
    RunKeepsInv(cfg, trace, acts, j);
    if i == j {
    } else {
      ConfirmedImageIsFrozen(cfg, trace, acts, i, j - 1);
      RunKeepsInv(cfg, trace, acts, j - 1);
      ConfirmedStep(cfg, trace[j - 1], acts[j - 1]);
    }
  }

  /** One control write after a confirmation keeps both the image and the lock iff its value is not 0 or 1. */
  lemma ControlWriteAfterConfirmation(v: S.View, count: nat, val: uint32, io: Io)
    requires v.sdo.state == S.CONFIRMED && v.sdo.pc.Idle? && v.sdo.lockHeld && v.lock.HeldBy(SDO)
    ensures var w := S.CtrlWrite(v, count, val, io).0;
            (w.slot1 == v.slot1 && w.lock.HeldBy(SDO)) <==> !(count == 4 && val <= 1)
  {
  }

  const ALL_WELL := Io(true, true, true, true, true, 0, [], {}, true)

  function SdoOnly(lock: Lock, slot1: Slot1, sdo: S.Sdo): Device {
    Device(lock, slot1, U.UDP_INIT, sdo, WsClient(Outside, 0))
  }

  function OneByte(erases: bool, programmed: seq<byte>): Slot1 {
    Slot1(Partition(erases, [7], {}, programmed), [Tag(SDO, 1)], Tag(SDO, 1))
  }

  lemma DownloadOneByte(cfg: U.Config, erases: bool) returns (d: seq<Device>, acts: seq<Action>)
    ensures |d| == 6 && |acts| == 5 && IsRun(cfg, d, acts)
    ensures d[5] == SdoOnly(Lock(SDO, true), OneByte(erases, [7]), S.Sdo(S.Idle, S.CONFIRMED, 1, true, 1))
  {
    acts := [SdoControl(4, 0, ALL_WELL), SdoContinue(ALL_WELL), SdoContinue(ALL_WELL),
             SdoWrite([7], 0, 1, ALL_WELL), SdoControl(4, 1, ALL_WELL)];
    var held, factory := Lock(SDO, true), AtPowerUp(erases, {});
    var empty := factory.SetUp(SDO, 0);
    d := [PowerOn(erases, {}),
          SdoOnly(held, factory, S.Sdo(S.Resetting, S.IDLE, 0, true, 0)),
          SdoOnly(held, empty, S.Sdo(S.Opening, S.IDLE, 0, true, 1)),
          SdoOnly(held, empty, S.Sdo(S.Idle, S.READY, 0, true, 1)),
          SdoOnly(held, OneByte(erases, []), S.Sdo(S.Idle, S.STREAMING, 1, true, 1)),
          SdoOnly(held, OneByte(erases, [7]), S.Sdo(S.Idle, S.CONFIRMED, 1, true, 1))];
    assert empty.area == Partition(erases, [], {}, []) by {
      assert factory.area.Occupied() == {};
    }
    assert seq(1, _ => Tag(SDO, 1)) == [Tag(SDO, 1)];
    assert empty.Appended(SDO, 1, [7]) == OneByte(erases, []);
    assert OneByte(erases, []).Flushed(ALL_WELL) == OneByte(erases, [7]);
  }

  lemma Extend(cfg: U.Config, trace: seq<Device>, acts: seq<Action>, a: Action)
    returns (trace': seq<Device>, acts': seq<Action>)
    requires IsRun(cfg, trace, acts) && |trace| == |acts| + 1 && Enabled(trace[|acts|], a)
    ensures trace' == trace + [Next(cfg, trace[|acts|], a).0] && acts' == acts + [a]
    ensures IsRun(cfg, trace', acts')
  {
    hide Next, Enabled;
    trace', acts' := trace + [Next(cfg, trace[|acts|], a).0], acts + [a];
  }

  /** Confirming twice over SDO lets a UDP session erase the confirmed image before the reboot. */
  lemma ConfirmedImageCanBeLost(cfg: U.Config, erases: bool) returns (trace: seq<Device>, acts: seq<Action>)
    ensures IsRun(cfg, trace, acts) && |acts| == 10
    ensures Confirmed(trace[5]) && trace[5].slot1.area.bytes == [7]
    ensures trace[10].slot1.area.bytes == []
  {
    hide IsRun;
    trace, acts := DownloadOneByte(cfg, erases);
    trace, acts := Extend(cfg, trace, acts, SdoControl(4, 1, ALL_WELL));
    trace, acts := Extend(cfg, trace, acts, SdoContinue(ALL_WELL));
    trace, acts := Extend(cfg, trace, acts, SdoContinue(ALL_WELL));
    trace, acts := Extend(cfg, trace, acts, START_ONE);
    trace, acts := Extend(cfg, trace, acts, UdpContinue(ALL_WELL));
  }

  // ----- runs that mix two upgrades, when writes do not erase -----

  lemma PowerUpRun(cfg: U.Config, stale: set<nat>) returns (trace: seq<Device>, acts: seq<Action>)
    ensures trace == [PowerOn(false, stale)] && acts == [] && IsRun(cfg, trace, acts)
  {
    trace, acts := [PowerOn(false, stale)], [];
  }

  const ERASE_FAILS := ALL_WELL.(eraseOk := false)
  const START_ONE := UdpCommand(U.FW_CMD_START, [1, 0, 0, 0], ALL_WELL)

  /** slot1 set up without an erase, for the upgrade that is about to write. */
  predicate ReadyOver(slot1: Slot1, stale: set<nat>) {
    slot1.area.bytes == [] && slot1.area.stale == stale && !slot1.area.erases
  }

  lemma StartWithoutErase(cfg: U.Config, stale: set<nat>)
    ensures var d := PowerOn(false, stale);
      Enabled(d, START_ONE) &&
      var d1 := Next(cfg, d, START_ONE).0;
      Enabled(d1, UdpContinue(ERASE_FAILS)) &&
      var d2 := Next(cfg, d1, UdpContinue(ERASE_FAILS)).0;
      Enabled(d2, UdpContinue(ALL_WELL)) &&
      var d3 := Next(cfg, d2, UdpContinue(ALL_WELL)).0;
      d3.udp.started && d3.udp.pc.Idle? && ReadyOver(d3.slot1, stale)
  {
    assert PowerOn(false, stale).slot1.area.Left(0) == stale;
  }

  /** A FW_START whose erase fails, and one data frame over a byte that was there at power-up. */
  lemma UdpMixes(cfg: U.Config, stale: set<nat>, data: seq<byte>) returns (trace: seq<Device>, acts: seq<Action>)
    requires data != [] && stale * Below(|data|) != {}
    ensures IsRun(cfg, trace, acts) && |acts| == 4 && trace[0] == PowerOn(false, stale)
    ensures trace[4].slot1.area.bytes == data && !trace[4].slot1.Unmixed()
  {
    hide IsRun, Next, Enabled, Inv;
    StartWithoutErase(cfg, stale);
    trace, acts := PowerUpRun(cfg, stale);
    trace, acts := Extend(cfg, trace, acts, START_ONE);
    trace, acts := Extend(cfg, trace, acts, UdpContinue(ERASE_FAILS));
    trace, acts := Extend(cfg, trace, acts, UdpContinue(ALL_WELL));
    DataOverOldData(cfg, trace[3], data);
    trace, acts := Extend(cfg, trace, acts, UdpCommand(U.FW_CMD_DATA, data, ALL_WELL));
  }

  lemma DataOverOldData(cfg: U.Config, d: Device, data: seq<byte>)
    requires d.udp.started && d.udp.pc.Idle? && data != []
    requires ReadyOver(d.slot1, d.slot1.area.stale) && d.slot1.area.stale * Below(|data|) != {}
    ensures var a := UdpCommand(U.FW_CMD_DATA, data, ALL_WELL);
      Enabled(d, a) && Next(cfg, d, a).0.slot1.area.bytes == data && !Next(cfg, d, a).0.slot1.Unmixed()
  {
    hide U.Start, U.DataV2, U.End, Crc;
  }

  lemma ControlErasesNothing(cfg: U.Config, stale: set<nat>)
    ensures var d := PowerOn(false, stale);
      Enabled(d, SdoControl(4, 0, ALL_WELL)) &&
      var d1 := Next(cfg, d, SdoControl(4, 0, ALL_WELL)).0;
      Enabled(d1, SdoContinue(ALL_WELL)) &&
      var d2 := Next(cfg, d1, SdoContinue(ALL_WELL)).0;
      Enabled(d2, SdoContinue(ALL_WELL)) &&
      var d3 := Next(cfg, d2, SdoContinue(ALL_WELL)).0;
      d3.sdo.state == S.READY && d3.sdo.pc.Idle? && ReadyOver(d3.slot1, stale)
  {
    assert PowerOn(false, stale).slot1.area.Left(0) == stale;
  }

  /** Over SDO nothing needs to fail: 0x1F51 erases the trailer only. */
  lemma SdoMixes(cfg: U.Config, stale: set<nat>, buf: seq<byte>) returns (trace: seq<Device>, acts: seq<Action>)
    requires buf != [] && stale * Below(|buf|) != {}
    ensures IsRun(cfg, trace, acts) && |acts| == 4 && trace[0] == PowerOn(false, stale)
    ensures trace[4].slot1.area.bytes == buf && !trace[4].slot1.Unmixed()
  {
    hide IsRun, Next, Enabled, Inv;
    ControlErasesNothing(cfg, stale);
    trace, acts := PowerUpRun(cfg, stale);
    trace, acts := Extend(cfg, trace, acts, SdoControl(4, 0, ALL_WELL));
    trace, acts := Extend(cfg, trace, acts, SdoContinue(ALL_WELL));
    trace, acts := Extend(cfg, trace, acts, SdoContinue(ALL_WELL));
    WriteOverOldData(cfg, trace[3], buf);
    trace, acts := Extend(cfg, trace, acts, SdoWrite(buf, 0, |buf|, ALL_WELL));
  }

  lemma WriteOverOldData(cfg: U.Config, d: Device, buf: seq<byte>)
    requires d.sdo.state == S.READY && d.sdo.pc.Idle? && buf != []
    requires ReadyOver(d.slot1, d.slot1.area.stale) && d.slot1.area.stale * Below(|buf|) != {}
    ensures var a := SdoWrite(buf, 0, |buf|, ALL_WELL);
      Enabled(d, a) && Next(cfg, d, a).0.slot1.area.bytes == buf && !Next(cfg, d, a).0.slot1.Unmixed()
  {
  }
}
