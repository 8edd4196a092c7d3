/** The device side of the CAN firmware protocol: control frames and data frames. */
module CanDevice {
  import opened Bytes
  import opened Wrappers
  import F = Flash

  const FW_CMD_START_UPDATE := 0
  const FW_CMD_CONFIRM := 1
  const CONFIRM_MAGIC: uint32 := 0x55AA55AA
  const REPLY_INTERVAL := 64

  datatype Code = OFFSET | UPDATE_SUCCESS | VERSION | CONFIRM | FLASH_ERROR | TRANSFER_ERROR | KEYHASH_ERROR

  /** A control frame on 0x101 or a data frame on 0x103; a data frame carries at most eight bytes. */
  datatype Frame = Control(cmd: uint32, arg: uint32, dlc: nat) | Data(payload: seq<byte>)

  /** A reply on 0x102. */
  datatype Reply = Reply(code: Code, arg: uint32)

  /** How the device's surroundings answer while it handles one frame. */
  datatype Io = Io(keyhashOk: bool, startAllowed: bool, flash: F.Io)

  const ALL_WELL := Io(true, true, F.Io(true, true, true, true, true, 0, [], {}, true))

  datatype State = State(initialized: bool, written: nat, total: uint32, area: F.Partition)

  /** handle_platform_rx; version queries and reboots are not modelled. */
  function HandlePlatformRx(d: State, f: Frame, io: Io): (State, Option<Reply>)
    requires f.Control?
  {
    if f.cmd == FW_CMD_START_UPDATE then
      if f.dlc != 8 then (d, Some(Reply(FLASH_ERROR, 0)))
      else if !io.keyhashOk then (d, Some(Reply(KEYHASH_ERROR, 0)))
      else if !io.startAllowed then (d, Some(Reply(TRANSFER_ERROR, 0)))
      else if !io.flash.openOk then (d.(total := f.arg), Some(Reply(FLASH_ERROR, 0)))
      else
        var area := d.area.SetUp(F.Cleared(f.arg, io.flash));
        if !io.flash.initOk then
          (d.(total := f.arg, initialized := false, area := area), Some(Reply(FLASH_ERROR, 0)))
        else (State(true, 0, f.arg, area), Some(Reply(OFFSET, 0)))
    else if f.cmd == FW_CMD_CONFIRM then
      if !d.initialized then (d, Some(Reply(TRANSFER_ERROR, 0)))
      else
        // the result of this flush is not looked at
        var d1 := d.(initialized := false, area := d.area.Flushed(io.flash));
        if d.written != d.total || !io.flash.bootOk then (d1, Some(Reply(TRANSFER_ERROR, 0)))
        else (d1, Some(Reply(CONFIRM, CONFIRM_MAGIC)))
    else (d, None)
  }

  /** handle_fw_data: a reply only at the end of the image and at every 64th byte. */
  function HandleFwData(d: State, f: Frame, io: Io): (State, Option<Reply>)
    requires f.Data?
  {
    if !d.initialized then (d, Some(Reply(TRANSFER_ERROR, 0)))
    else if !io.flash.writeOk then (d, Some(Reply(FLASH_ERROR, 0)))
    else
      var d1 := d.(written := d.written + |f.payload|, area := d.area.Appended(f.payload));
      (d1, if d1.written == d.total then Some(Reply(UPDATE_SUCCESS, d.total))
           else if d1.written % REPLY_INTERVAL == 0 then Some(Reply(OFFSET, d1.written % TWO_32))
           else None)
  }

  function Handle(d: State, f: Frame, io: Io): (State, Option<Reply>) {
    if f.Control? then HandlePlatformRx(d, f, io) else HandleFwData(d, f, io)
  }

  class CanFirmware {
    var fwImgInitialized: bool
    var fwWritten: nat
    var fwTotalSize: uint32
    var area: F.Partition

    function Current(): State
      reads this
    {
      State(fwImgInitialized, fwWritten, fwTotalSize, area)
    }

    constructor (area: F.Partition)
      ensures Current() == State(false, 0, 0, area)
    {
      fwImgInitialized, fwWritten, fwTotalSize, this.area := false, 0, 0, area;
    }

    method OnPlatformRx(f: Frame, io: Io) returns (reply: Option<Reply>)
      requires f.Control?
      modifies this
      ensures (Current(), reply) == HandlePlatformRx(old(Current()), f, io)
    {
      if f.cmd == FW_CMD_START_UPDATE {
        if f.dlc != 8 {
          return Some(Reply(FLASH_ERROR, 0));
        }
        if !io.keyhashOk {
          return Some(Reply(KEYHASH_ERROR, 0));
        }
        if !io.startAllowed {
          return Some(Reply(TRANSFER_ERROR, 0));
        }
        fwTotalSize := f.arg;
        if !io.flash.openOk {
          return Some(Reply(FLASH_ERROR, 0));
        }
        area := area.SetUp(F.Cleared(fwTotalSize, io.flash));
        if !io.flash.initOk {
          fwImgInitialized := false;
          return Some(Reply(FLASH_ERROR, 0));
        }
        fwImgInitialized := true;
        fwWritten := 0;
        return Some(Reply(OFFSET, 0));
      } else if f.cmd == FW_CMD_CONFIRM {
        if !fwImgInitialized {
          return Some(Reply(TRANSFER_ERROR, 0));
        }
        area := area.Flushed(io.flash);
        fwImgInitialized := false;
        if fwWritten != fwTotalSize {
          return Some(Reply(TRANSFER_ERROR, 0));
        }
        if io.flash.bootOk {
          return Some(Reply(CONFIRM, CONFIRM_MAGIC));
        }
        return Some(Reply(TRANSFER_ERROR, 0));
      }
      return None;
    }

    method OnFwData(f: Frame, io: Io) returns (reply: Option<Reply>)
      requires f.Data?
      modifies this
      ensures (Current(), reply) == HandleFwData(old(Current()), f, io)
    {
      if !fwImgInitialized {
        return Some(Reply(TRANSFER_ERROR, 0));
      }
      if !io.flash.writeOk {
        return Some(Reply(FLASH_ERROR, 0));
      }
      area := area.Appended(f.payload);
      fwWritten := fwWritten + |f.payload|;
      if fwWritten == fwTotalSize {
        return Some(Reply(UPDATE_SUCCESS, fwTotalSize));
      } else if fwWritten % REPLY_INTERVAL == 0 {
        return Some(Reply(OFFSET, fwWritten % TWO_32));
      }
      return None;
    }
  }
}
