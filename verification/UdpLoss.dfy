/** Transfers that succeed and leave nothing in the flash: the final flush fails, and nobody looks. */
module UdpLoss {
  import opened Bytes
  import opened Wrappers
  import opened Crc16
  import opened Flash
  import opened FirmwareImage
  import opened UdpTransfer
  import opened UdpDelivery
  import D = UpgradeSystem
  import U = UdpFirmware

  const FLUSH_FAILS := D.ALL_WELL.(flushOk := false, flushed := 0)

  lemma EndMayArrive(s: Setup, w: World)
    requires EndFrame(s) in w.toDevice && w.device.udp.pc.Idle?
    ensures Possible(s, w, DeviceReceives(EndFrame(s), FLUSH_FAILS)) && FlushesNothing(FLUSH_FAILS)
  {
  }

  lemma EndLeavesTheHost(s: Setup, w: World)
    requires Possible(s, w, DeviceReceives(EndFrame(s), FLUSH_FAILS))
    ensures After(s, w, DeviceReceives(EndFrame(s), FLUSH_FAILS)).host == w.host
  {
    hide D.Next;
  }

  lemma SuccessIsReported(s: Setup, w: World)
    requires w.host.Ending? && U.EndReply(1) in w.toHost
    ensures Possible(s, w, HostReceives(U.EndReply(1)))
    ensures After(s, w, HostReceives(U.EndReply(1))).host.Succeeded?
    ensures After(s, w, HostReceives(U.EndReply(1))).device == w.device
  {
  }

  lemma Extend(s: Setup, trace: seq<World>, steps: seq<Step>, step: Step)
    returns (trace': seq<World>, steps': seq<Step>)
    requires IsRun(s, trace, steps) && |trace| == |steps| + 1 && Possible(s, trace[|steps|], step)
    ensures trace' == trace + [After(s, trace[|steps|], step)] && steps' == steps + [step]
    ensures IsRun(s, trace', steps')
  {
    hide Possible, After;
    trace', steps' := trace + [After(s, trace[|steps|], step)], steps + [step];
  }

  /**
    Every image that the tool accepts and whose CRC is 0, of whatever size, can be lost like this: the whole
    of it arrives, the flush of FW_END writes nothing, and the host reports success.
   */
  lemma ImageIsLost(s: Setup) returns (trace: seq<World>, steps: seq<Step>)
    requires Welcome(s) && Crc(s.img) == 0
    ensures IsRun(s, trace, steps) && |trace| == |steps| + 1
    ensures var w := trace[|steps|];
      w.host.Succeeded? && w.device.slot1.area.bytes == s.img && w.device.slot1.area.programmed == []
  {
    hide *;
    trace, steps := WholeImageArrives(s);
    var w := trace[|steps|];
    WelcomeIsSensible(s);
    EndMayArrive(s, w);
    CrcZeroIsLost(s, w, FLUSH_FAILS);
    EndLeavesTheHost(s, w);
    trace, steps := Extend(s, trace, steps, DeviceReceives(EndFrame(s), FLUSH_FAILS));
    SuccessIsReported(s, trace[|steps|]);
    trace, steps := Extend(s, trace, steps, HostReceives(U.EndReply(1)));
  }

  /** There are such images: any accepted one followed by its own CRC, and one of 38 bytes. */
  lemma SomeImageIsLost(cfg: U.Config, testMode: byte, erases: bool, stale: set<nat>)
    returns (s: Setup, trace: seq<World>, steps: seq<Step>)
    requires MIN_V2_CHUNK <= cfg.chunk <= UDP_CHUNK_SIZE_V2_MAX
    ensures s.cfg == cfg && Sensible(s) && |s.img| == 38
    ensures IsRun(s, trace, steps) && |trace| == |steps| + 1
    ensures trace[|steps|].host.Succeeded? && trace[|steps|].device.slot1.area.programmed == []
  {
    hide Accepts, Crc, IsRun;
    var img := SmallestWithCrcZero();
    s := Setup(img, true, testMode, cfg, erases, stale);
    trace, steps := ImageIsLost(s);
  }
}
