/**
  The UDP firmware library on the device. Each command is cut where another thread can run:
  after the upgrade lock is taken, after the erase, and before the fail hook gives the lock back.
 */
module UdpFirmware {
  import opened Bytes
  import opened UpgradeLock
  import opened Crc16
  import opened Flash
  import opened Wrappers

  type Reply = Option<seq<byte>>

  const FW_CMD_START := 1
  const FW_CMD_DATA := 2
  const FW_CMD_END := 3
  const FW_CMD_GET_VERSION := 4
  const FW_CMD_REBOOT := 5
  const FW_CMD_DATA_V2 := 6
  const FW_START_ERR_FAIL := 0
  const FW_START_OK := 1
  const FW_START_ERR_KEYHASH := 2
  const KEYHASH_LEN := 32
  const FW_CRC_CHUNK := 64
  const REPLY_MAX := 63

  /** Build-time configuration: the DATA_V2 frame size, the signing key hash, if any, and the version string. */
  datatype Config = Config(chunk: uint16, keyhash: Option<seq<byte>>, version: seq<byte>)

  /** Where the UDP thread stands inside a command. */
  datatype Pc = Idle | Locked | Erased | Failing(reply: seq<byte>) | Rebooting

  /** Between commands, or on the way to the reboot, which no command survives. */
  predicate Resting(pc: Pc) {
    pc.Idle? || pc.Rebooting?
  }

  /** The library's static state. `pc`, `session` and `verified` record history for the proofs. */
  datatype Udp = Udp(pc: Pc, started: bool, size: uint32, received: uint32,
                     session: nat, verified: bool)

  const UDP_INIT := Udp(Idle, false, 0, 0, 0, false)

  datatype View = View(lock: Lock, slot1: Slot1, udp: Udp)

  function StartReply(cfg: Config, status: byte): seq<byte> {
    [FW_CMD_START, status] + Le16(cfg.chunk)
  }

  function OffsetReply(cmd: byte, off: uint32): seq<byte> {
    [cmd] + Le32(off)
  }

  function EndReply(result: byte): seq<byte> {
    [FW_CMD_END, result]
  }

  /** udp_fw_reply leaves out data that does not fit its buffer. */
  function VersionReply(cfg: Config): (r: seq<byte>)
    ensures r != [] && r[0] == FW_CMD_GET_VERSION
  {
    [FW_CMD_GET_VERSION] + (if |cfg.version| <= REPLY_MAX then cfg.version else [])
  }

  // ----- the steps -----

  predicate KeyhashRefused(cfg: Config, data: seq<byte>) {
    cfg.keyhash.Some? && |data| == 4 + KEYHASH_LEN && data[4..] != cfg.keyhash.value
  }

  /** fw_session_fail up to, but not including, the fail hook. */
  function SessionFailing(v: View, reply: seq<byte>): View {
    v.(udp := v.udp.(started := false, pc := Failing(reply)))
  }

  function Start(cfg: Config, v: View, data: seq<byte>): (View, Reply) {
    if v.udp.started || |data| < 4 then (v, Some(StartReply(cfg, FW_START_ERR_FAIL)))
    else
      var v1 := v.(udp := v.udp.(size := FromLe32(data[..4])));
      if KeyhashRefused(cfg, data) then (v1, Some(StartReply(cfg, FW_START_ERR_KEYHASH)))
      else if v.lock.active then (v1, Some(StartReply(cfg, FW_START_ERR_FAIL)))
      else (v1.(lock := v.lock.Locked(UDP), udp := v1.udp.(pc := Locked)), None)
  }

  /** After the pre_start hook took the lock: open and erase slot1. */
  function StartErase(cfg: Config, v: View, io: Io): (View, Reply) {
    if !io.openOk then (SessionFailing(v, StartReply(cfg, FW_START_ERR_FAIL)), None)
    else
      var slot1 := v.slot1.SetUp(UDP, Cleared(v.udp.size, io));
      (v.(slot1 := slot1, udp := v.udp.(pc := Erased, session := slot1.current.session)), None)
  }

  function StartImage(cfg: Config, v: View, io: Io): (View, Reply) {
    if !io.initOk then (SessionFailing(v, StartReply(cfg, FW_START_ERR_FAIL)), None)
    else (v.(udp := v.udp.(pc := Idle, started := true, received := 0)),
          Some(StartReply(cfg, FW_START_OK)))
  }

  /** The fail hook gives the lock back; the reply leaves afterwards. */
  function FailHook(v: View): (View, Reply)
    requires v.udp.pc.Failing?
  {
    (v.(lock := v.lock.Unlocked(UDP), udp := v.udp.(pc := Idle)), Some(v.udp.pc.reply))
  }

  function Wrote(v: View, data: seq<byte>): View {
    v.(slot1 := v.slot1.Appended(UDP, v.udp.session, data),
       udp := v.udp.(received := (v.udp.received + |data|) % TWO_32))
  }

  function Data(v: View, data: seq<byte>, io: Io): (View, Reply) {
    if !v.udp.started || data == [] then (v, Some(OffsetReply(FW_CMD_DATA, 0)))
    else if !io.writeOk then (SessionFailing(v, OffsetReply(FW_CMD_DATA, 0)), None)
    else
      var v1 := Wrote(v, data);
      (v1, Some(OffsetReply(FW_CMD_DATA, v1.udp.received)))
  }

  function DataV2(v: View, data: seq<byte>, io: Io): (View, Reply) {
    if !v.udp.started || |data| <= 4 then (v, Some(OffsetReply(FW_CMD_DATA_V2, 0)))
    else if FromLe32(data[..4]) != v.udp.received then
      (v, Some(OffsetReply(FW_CMD_DATA_V2, v.udp.received)))
    else if !io.writeOk then
      (SessionFailing(v, OffsetReply(FW_CMD_DATA_V2, v.udp.received)), None)
    else
      var v1 := Wrote(v, data[4..]);
      (v1, Some(OffsetReply(FW_CMD_DATA_V2, v1.udp.received)))
  }

  ghost predicate Readable(written: nat, badReads: set<nat>) {
    forall k | k in badReads :: written <= k * FW_CRC_CHUNK
  }

  /** fw_verify_crc reads what is in the flash; the result of the flush before it is not looked at. */
  ghost predicate Verifies(programmed: seq<byte>, io: Io, crc: uint16) {
    io.openOk && Readable(|programmed|, io.badReads) && Crc(programmed) == crc
  }

  ghost function End(v: View, data: seq<byte>, io: Io): (View, Reply) {
    if !v.udp.started || |data| < 3 then (v, Some(EndReply(0)))
    else
      var v1 := v.(slot1 := v.slot1.Flushed(io));
      if Verifies(v1.slot1.area.programmed, io, FromLe16(data[1..3])) && io.bootOk then
        (v1.(udp := v.udp.(started := false, verified := true)), Some(EndReply(1)))
      else (SessionFailing(v1, EndReply(0)), None)
  }

  /** handle_fw_cmd up to its first preemption point. */
  ghost function Begin(cfg: Config, v: View, cmd: byte, data: seq<byte>, io: Io): (View, Reply) {
    if cmd == FW_CMD_START then Start(cfg, v, data)
    else if cmd == FW_CMD_DATA then Data(v, data, io)
    else if cmd == FW_CMD_DATA_V2 then DataV2(v, data, io)
    else if cmd == FW_CMD_END then End(v, data, io)
    else if cmd == FW_CMD_GET_VERSION then (v, Some(VersionReply(cfg)))
    else if cmd == FW_CMD_REBOOT then (v.(udp := v.udp.(pc := Rebooting)), Some([FW_CMD_REBOOT, 1]))
    else (v, None)
  }

  /** The step from the preemption point where the thread stands to the next one. */
  function Continue(cfg: Config, v: View, io: Io): (View, Reply)
    requires !Resting(v.udp.pc)
  {
    match v.udp.pc
    case Locked => StartErase(cfg, v, io)
    case Erased => StartImage(cfg, v, io)
    case Failing(_) => FailHook(v)
  }

  /** Takes one more step unless the command is over. */
  function Advance(cfg: Config, v: View, reply: Reply, io: Io): (View, Reply) {
    if Resting(v.udp.pc) then (v, reply) else Continue(cfg, v, io)
  }

  /** handle_fw_cmd when no other thread runs in between: at most three more steps. */
  function Finish(cfg: Config, v: View, reply: Reply, io: Io): (r: (View, Reply))
    ensures Resting(r.0.udp.pc)
  {
    var (v1, r1) := Advance(cfg, v, reply, io);
    var (v2, r2) := Advance(cfg, v1, r1, io);
    Advance(cfg, v2, r2, io)
  }

  ghost function HandleFwCmd(cfg: Config, v: View, cmd: byte, data: seq<byte>, io: Io): (View, Reply) {
    var (v1, r) := Begin(cfg, v, cmd, data, io);
    Finish(cfg, v1, r, io)
  }

  /** A datagram that answers this command and fits the reply buffer. */
  predicate AnswerTo(cmd: byte, reply: seq<byte>) {
    0 < |reply| <= 1 + REPLY_MAX && reply[0] == cmd
  }

  /** Where a known command stands: it was answered, or the answer is still to come. */
  predicate OnItsWay(cmd: byte, v: View, r: Reply) {
    match v.udp.pc
    case Idle => cmd != FW_CMD_REBOOT && r.Some? && AnswerTo(cmd, r.value)
    case Rebooting => cmd == FW_CMD_REBOOT && r.Some? && AnswerTo(cmd, r.value)
    case Failing(reply) => cmd != FW_CMD_REBOOT && AnswerTo(cmd, reply)
    case _ => cmd == FW_CMD_START
  }

  lemma BeginAnswers(cfg: Config, v: View, cmd: byte, data: seq<byte>, io: Io)
    requires v.udp.pc.Idle?
    ensures var (w, r) := Begin(cfg, v, cmd, data, io);
      if 1 <= cmd <= 6 then OnItsWay(cmd, w, r) else (w, r) == (v, None)
  {
    hide Crc, FromLe16, FromLe32, Le16, Le32, Cleared, KeyhashRefused, Verifies;
  }

  lemma AdvanceAnswers(cfg: Config, v: View, cmd: byte, r: Reply, io: Io)
    requires OnItsWay(cmd, v, r)
    ensures OnItsWay(cmd, Advance(cfg, v, r, io).0, Advance(cfg, v, r, io).1)
  {
    hide Le16, Cleared;
  }

  /**
    Every known command is answered with one datagram that begins with it and fits the reply buffer, whatever state
    the library is in and however the flash answers; anything else is ignored. Only FW_REBOOT reboots;
    FW_GET_VERSION answers the version.
   */
  lemma CommandsAreAnswered(cfg: Config, v: View, cmd: byte, data: seq<byte>, io: Io)
    requires v.udp.pc.Idle?
    ensures var (w, r) := HandleFwCmd(cfg, v, cmd, data, io);
      if 1 <= cmd <= 6 then
        r.Some? && 0 < |r.value| <= 64 && r.value[0] == cmd && (w.udp.pc.Rebooting? <==> cmd == 5)
      else (w, r) == (v, None)
    ensures cmd == 4 && |cfg.version| <= 63 ==> HandleFwCmd(cfg, v, cmd, data, io) == (v, Some([4] + cfg.version))
  {
    NothingToAdvance(cfg, v, Some(VersionReply(cfg)), io);
    if cmd == 4 {
      assert Begin(cfg, v, cmd, data, io) == (v, Some(VersionReply(cfg)));
    }
    BeginAnswers(cfg, v, cmd, data, io);
    hide Begin, Advance;
    if 1 <= cmd <= 6 {
      var (v1, r1) := Begin(cfg, v, cmd, data, io);
      AdvanceAnswers(cfg, v1, cmd, r1, io);
      var (v2, r2) := Advance(cfg, v1, r1, io);
      AdvanceAnswers(cfg, v2, cmd, r2, io);
      var (v3, r3) := Advance(cfg, v2, r2, io);
      AdvanceAnswers(cfg, v3, cmd, r3, io);
    } else {
      NothingToAdvance(cfg, v, None, io);
    }
  }

  lemma NothingToAdvance(cfg: Config, v: View, r: Reply, io: Io)
    requires v.udp.pc.Idle?
    ensures Advance(cfg, v, r, io) == (v, r)
  {
  }

  // ----- the code -----

  /** fw_verify_crc: reads the written bytes back in chunks, carrying the CRC from one to the next. */
  method FwVerifyCrc(openOk: bool, flash: seq<byte>, badReads: set<nat>, recvCrc: uint16) returns (ok: bool)
    ensures ok <==> openOk && Readable(|flash|, badReads) && Crc(flash) == recvCrc
  {
    hide Feed;
    if !openOk {
      return false;
    }
    var calcCrc: bv16 := 0;
    var chunk := 0;
    while chunk * FW_CRC_CHUNK < |flash|
      invariant 0 <= chunk
      invariant calcCrc == Register(0, flash[..Min(chunk * FW_CRC_CHUNK, |flash|)])
      invariant forall k | k in badReads && k < chunk :: |flash| <= k * FW_CRC_CHUNK
    {
      var off := chunk * FW_CRC_CHUNK;
      var len := Min(|flash| - off, FW_CRC_CHUNK);
      if chunk in badReads {
        return false;
      }
      calcCrc := Crc16Ccitt(calcCrc, flash[off..off + len]);
      RegisterConcat(0, flash[..off], flash[off..off + len]);
      assert flash[..off] + flash[off..off + len] == flash[..off + len];
      chunk := chunk + 1;
    }
    assert flash[..Min(chunk * FW_CRC_CHUNK, |flash|)] == flash;
    return (calcCrc as int) == recvCrc;
  }

  class UdpLibrary {
    const cfg: Config
    const upgrade: UpgradeState
    const flash: FlashArea
    var fwStarted: bool
    var fwSize: uint32
    var fwReceived: uint32
    var session: nat
    var verified: bool
    var rebooting: bool

    ghost function State(): View
      reads this, upgrade, flash
    {
      View(upgrade.State(), flash.slot1,
           Udp(if rebooting then Rebooting else Idle, fwStarted, fwSize, fwReceived, session, verified))
    }

    constructor (cfg: Config, upgrade: UpgradeState, flash: FlashArea)
      ensures this.cfg == cfg && this.upgrade == upgrade && this.flash == flash
      ensures State() == View(upgrade.State(), flash.slot1, UDP_INIT)
    {
      this.cfg, this.upgrade, this.flash := cfg, upgrade, flash;
      fwStarted, fwSize, fwReceived, session, verified, rebooting := false, 0, 0, 0, false, false;
    }

    method FwSessionFail()
      requires !rebooting
      modifies this, upgrade
      ensures State() == FailHook(SessionFailing(old(State()), [])).0
    {
      fwStarted := false;
      upgrade.Unlock(UDP);
    }

    method HandleStart(data: seq<byte>, io: Io) returns (reply: Reply)
      requires !rebooting
      modifies this, upgrade, flash
      ensures (State(), reply) == HandleFwCmd(cfg, old(State()), FW_CMD_START, data, io)
    {
      var status: byte := FW_START_ERR_FAIL;
      if !fwStarted && |data| >= 4 {
        fwSize := FromLe32(data[..4]);
        if cfg.keyhash.Some? && |data| == 4 + KEYHASH_LEN && data[4..] != cfg.keyhash.value {
          return Some(StartReply(cfg, FW_START_ERR_KEYHASH));
        }
        var granted := upgrade.TryLock(UDP);
        if !granted {
          return Some(StartReply(cfg, FW_START_ERR_FAIL));
        }
        if !io.openOk {
          FwSessionFail();
        } else {
          flash.SetUp(UDP, Cleared(fwSize, io));
          session := flash.slot1.current.session;
          if !io.initOk {
            FwSessionFail();
          } else {
            fwStarted := true;
            fwReceived := 0;
            status := FW_START_OK;
          }
        }
      }
      return Some(StartReply(cfg, status));
    }

    method HandleData(data: seq<byte>, io: Io) returns (reply: Reply)
      requires !rebooting
      modifies this, upgrade, flash
      ensures (State(), reply) == HandleFwCmd(cfg, old(State()), FW_CMD_DATA, data, io)
    {
      var off: uint32 := 0;
      if fwStarted && |data| > 0 {
        flash.BufferedWrite(UDP, session, data, io.writeOk);
        if io.writeOk {
          fwReceived := (fwReceived + |data|) % TWO_32;
          off := fwReceived;
        } else {
          FwSessionFail();
        }
      }
      return Some(OffsetReply(FW_CMD_DATA, off));
    }

    method HandleDataV2(data: seq<byte>, io: Io) returns (reply: Reply)
      requires !rebooting
      modifies this, upgrade, flash
      ensures (State(), reply) == HandleFwCmd(cfg, old(State()), FW_CMD_DATA_V2, data, io)
    {
      var off: uint32 := 0;
      if fwStarted && |data| > 4 {
        var expected := FromLe32(data[..4]);
        if expected == fwReceived {
          flash.BufferedWrite(UDP, session, data[4..], io.writeOk);
          if io.writeOk {
            fwReceived := (fwReceived + (|data| - 4)) % TWO_32;
          } else {
            FwSessionFail();
          }
        }
        off := fwReceived;
      }
      return Some(OffsetReply(FW_CMD_DATA_V2, off));
    }

    method HandleEnd(data: seq<byte>, io: Io) returns (reply: Reply)
      requires !rebooting
      modifies this, upgrade, flash
      ensures (State(), reply) == HandleFwCmd(cfg, old(State()), FW_CMD_END, data, io)
    {
      var result: byte := 0;
      if fwStarted && |data| >= 3 {
        var recvCrc := FromLe16(data[1..3]);
        flash.Flush(io);
        var ok := FwVerifyCrc(io.openOk, flash.slot1.area.programmed, io.badReads, recvCrc);
        if ok {
          if io.bootOk {
            result := 1;
            fwStarted := false;
            verified := true;
          } else {
            FwSessionFail();
          }
        } else {
          FwSessionFail();
        }
      }
      return Some(EndReply(result));
    }

    method Handle(cmd: byte, data: seq<byte>, io: Io) returns (reply: Reply)
      requires !rebooting
      modifies this, upgrade, flash
      ensures (State(), reply) == HandleFwCmd(cfg, old(State()), cmd, data, io)
    {
      if cmd == FW_CMD_START {
        reply := HandleStart(data, io);
      } else if cmd == FW_CMD_DATA {
        reply := HandleData(data, io);
      } else if cmd == FW_CMD_DATA_V2 {
        reply := HandleDataV2(data, io);
      } else if cmd == FW_CMD_END {
        reply := HandleEnd(data, io);
      } else if cmd == FW_CMD_GET_VERSION {
        reply := Some(VersionReply(cfg));
      } else if cmd == FW_CMD_REBOOT {
        reply := Some([FW_CMD_REBOOT, 1]);
        rebooting := true;
      } else {
        reply := None;
      }
    }
  }
}
