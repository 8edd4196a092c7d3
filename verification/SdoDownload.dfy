/**
  The CANopen firmware download: objects 0x1F50 (data) and 0x1F51 (control). A control write is
  cut where another thread can run: around the erase, and on both sides of giving the lock back.
 */
module SdoDownload {
  import opened Bytes
  import opened UpgradeLock
  import opened Flash

  datatype DlState = IDLE | READY | STREAMING | CONFIRMED | ERROR

  /** The SDO abort codes the object dictionary callbacks return. */
  datatype Odr = OK | PARTIAL | DATA_SHORT | DEV_INCOMPAT | DATA_TRANSF | HW | INVALID_VALUE

  /** Where the SDO thread stands inside a control write. */
  datatype Pc = Idle | Resetting | Opening | Unlocking(code: Odr) | Releasing(code: Odr)

  /** The module's static state; `pc` and `session` record history for the proofs. */
  datatype Sdo = Sdo(pc: Pc, state: DlState, written: nat, lockHeld: bool, session: nat)

  const SDO_INIT := Sdo(Idle, IDLE, 0, false, 0)

  datatype View = View(lock: Lock, slot1: Slot1, sdo: Sdo)

  /** A callback's return code; absent while the callback is still running. */
  datatype Code = Running | Returned(code: Odr)

  function Failed(v: View, code: Odr): (View, Code) {
    var v1 := v.(sdo := v.sdo.(state := ERROR));
    if v.sdo.lockHeld then (v1.(sdo := v1.sdo.(pc := Unlocking(code))), Running)
    else (v1, Returned(code))
  }

  /** fw_ctrl_write up to its first preemption point. */
  function CtrlBegin(v: View, count: nat, val: uint32, io: Io): (View, Code) {
    if count != 4 then (v, Returned(DATA_SHORT))
    else if val == 0 then
      if !v.sdo.lockHeld && v.lock.active then (v, Returned(DEV_INCOMPAT))
      else
        var lock := if v.sdo.lockHeld then v.lock else v.lock.Locked(SDO);
        (v.(lock := lock, sdo := v.sdo.(lockHeld := true, pc := Resetting)), Running)
    else if val == 1 then
      if v.sdo.state != STREAMING || v.sdo.written == 0 then Failed(v, DEV_INCOMPAT)
      else if !io.flushOk then Failed(v.(slot1 := v.slot1.Flushed(io)), DATA_TRANSF)
      else if !io.bootOk then Failed(v.(slot1 := v.slot1.Flushed(io)), HW)
      else (v.(slot1 := v.slot1.Flushed(io), sdo := v.sdo.(state := CONFIRMED)), Returned(OK))
    else (v, Returned(INVALID_VALUE))
  }

  /** Open slot1 and erase its trailer only. What was written before no longer counts. */
  function CtrlErase(v: View, io: Io): (View, Code) {
    if !io.openOk then (v.(sdo := v.sdo.(state := ERROR, pc := Unlocking(HW))), Running)
    else
      var slot1 := v.slot1.SetUp(SDO, 0);
      var v1 := v.(slot1 := slot1, sdo := v.sdo.(session := slot1.current.session));
      if !io.eraseOk then (v1.(sdo := v1.sdo.(state := ERROR, pc := Unlocking(HW))), Running)
      else (v1.(sdo := v1.sdo.(pc := Opening)), Running)
  }

  function CtrlImage(v: View, io: Io): (View, Code) {
    if !io.initOk then (v.(sdo := v.sdo.(state := ERROR, pc := Unlocking(HW))), Running)
    else (v.(sdo := v.sdo.(state := READY, written := 0, pc := Idle)), Returned(OK))
  }

  /** The step from the preemption point where the thread stands to the next one. */
  function Continue(v: View, io: Io): (View, Code)
    requires !v.sdo.pc.Idle?
  {
    match v.sdo.pc
    case Resetting => CtrlErase(v, io)
    case Opening => CtrlImage(v, io)
    case Unlocking(code) =>
      (v.(lock := v.lock.Unlocked(SDO), sdo := v.sdo.(pc := Releasing(code))), Running)
    case Releasing(code) =>
      (v.(sdo := v.sdo.(lockHeld := false, pc := Idle)), Returned(code))
  }

  function Advance(v: View, c: Code, io: Io): (View, Code) {
    if v.sdo.pc.Idle? then (v, c) else Continue(v, io)
  }

  /** fw_ctrl_write when no other thread runs in between. */
  function CtrlWrite(v: View, count: nat, val: uint32, io: Io): (View, Code) {
    var (v0, c0) := CtrlBegin(v, count, val, io);
    var (v1, c1) := Advance(v0, c0, io);
    var (v2, c2) := Advance(v1, c1, io);
    var (v3, c3) := Advance(v2, c2, io);
    Advance(v3, c3, io)
  }

  /** fw_data_write; `offset` and `length` are the stream's position and announced size. */
  function DataWrite(v: View, buf: seq<byte>, offset: nat, length: nat, io: Io): (View, Code) {
    if v.sdo.state != READY && v.sdo.state != STREAMING then (v, Returned(DEV_INCOMPAT))
    else if buf == [] then (v, Returned(OK))
    else if !io.writeOk then (v.(sdo := v.sdo.(state := ERROR)), Returned(DATA_TRANSF))
    else
      (v.(slot1 := v.slot1.Appended(SDO, v.sdo.session, buf),
          sdo := v.sdo.(written := v.sdo.written + |buf|, state := STREAMING)),
       Returned(if length != 0 && offset + |buf| >= length then OK else PARTIAL))
  }

  class FwDownload {
    const upgrade: UpgradeState
    const flash: FlashArea
    var fwState: DlState
    var fwWritten: nat
    var sdoLockHeld: bool
    var session: nat

    function State(): View
      reads this, upgrade, flash
    {
      View(upgrade.State(), flash.slot1, Sdo(Idle, fwState, fwWritten, sdoLockHeld, session))
    }

    constructor (upgrade: UpgradeState, flash: FlashArea)
      ensures this.upgrade == upgrade && this.flash == flash
      ensures State() == View(upgrade.State(), flash.slot1, SDO_INIT)
    {
      this.upgrade, this.flash := upgrade, flash;
      fwState, fwWritten, sdoLockHeld, session := IDLE, 0, false, 0;
    }

    method FwDataWrite(buf: seq<byte>, offset: nat, length: nat, io: Io) returns (code: Odr)
      modifies this, flash
      ensures (State(), Returned(code)) == DataWrite(old(State()), buf, offset, length, io)
    {
      if fwState != READY && fwState != STREAMING {
        return DEV_INCOMPAT;
      }
      if |buf| == 0 {
        return OK;
      }
      flash.BufferedWrite(SDO, session, buf, io.writeOk);
      if !io.writeOk {
        fwState := ERROR;
        return DATA_TRANSF;
      }
      fwWritten := fwWritten + |buf|;
      fwState := STREAMING;
      if length != 0 && offset + |buf| >= length {
        return OK;
      }
      return PARTIAL;
    }

    method GiveUp()
      modifies this, upgrade
      ensures fwState == ERROR && !sdoLockHeld
      ensures fwWritten == old(fwWritten) && session == old(session)
      ensures upgrade.State() == if old(sdoLockHeld) then old(upgrade.State()).Unlocked(SDO)
                                 else old(upgrade.State())
    {
      fwState := ERROR;
      if sdoLockHeld {
        upgrade.Unlock(SDO);
        sdoLockHeld := false;
      }
    }

    method FwCtrlWrite(count: nat, val: uint32, io: Io) returns (code: Odr)
      modifies this, upgrade, flash
      ensures (State(), Returned(code)) == CtrlWrite(old(State()), count, val, io)
    {
      if count != 4 {
        return DATA_SHORT;
      }
      if val == 0 {
        code := EnterDownload(io);
        return;
      }
      if val == 1 {
        if fwState != STREAMING || fwWritten == 0 {
          GiveUp();
          return DEV_INCOMPAT;
        }
        flash.Flush(io);
        if !io.flushOk {
          GiveUp();
          return DATA_TRANSF;
        }
        if !io.bootOk {
          GiveUp();
          return HW;
        }
        fwState := CONFIRMED;
        return OK;
      }
      return INVALID_VALUE;
    }

    method EnterDownload(io: Io) returns (code: Odr)
      modifies this, upgrade, flash
      ensures (State(), Returned(code)) == CtrlWrite(old(State()), 4, 0, io)
    {
      if !sdoLockHeld {
        var granted := upgrade.TryLock(SDO);
        if !granted {
          return DEV_INCOMPAT;
        }
        sdoLockHeld := true;
      }
      var ok := io.openOk;
      if ok {
        flash.SetUp(SDO, 0);
        session := flash.slot1.current.session;
        ok := io.eraseOk && io.initOk;
      }
      if !ok {
        GiveUp();
        return HW;
      }
      fwWritten := 0;
      fwState := READY;
      return OK;
    }
  }
}
