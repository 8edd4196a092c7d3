/** CAN transfers that succeed and do not leave the image in the flash, for every image. */
module CanLoss {
  import opened Bytes
  import opened Wrappers
  import opened CanDevice
  import opened FirmwareImage
  import opened CanTransfer
  import F = Flash

  /** The START is taken with these answers of the flash: slot1 opens and is set up, whatever the erase does. */
  predicate Opens(start: F.Io) {
    start.openOk && start.initOk
  }

  /** The slot after the START. */
  function SetUpFor(img: Image, device: State, start: F.Io): F.Partition {
    device.area.SetUp(F.Cleared(|img|, start))
  }

  /** The CONFIRM is under way to the device, which has the whole image. */
  predicate Confirming(w: World) {
    w.host.phase.AwaitConfirm? && w.toDevice == [CONFIRM_FRAME] && w.toHost == []
  }

  /** Between the device's answer to START and its answer to CONFIRM. */
  predicate Underway(w: World) {
    !Asked(w) && !Confirmed(w)
  }

  lemma UnderwayIs()
    ensures forall w :: Underway(w) <==> !Asked(w) && !Confirmed(w)
  {
  }

  lemma StartIsTaken(img: Image, device: State, start: F.Io)
    requires Opens(start)
    ensures var w, s := Begin(img, device), DeviceHandles(Io(true, true, start));
      && Possible(img, w, s) && LockStep(img, After(img, w, s)) && Underway(After(img, w, s))
      && After(img, w, s).device.area == SetUpFor(img, device, start)
  {
  }

  lemma SomeStep(img: Image, w: World) returns (s: Step)
    requires LockStep(img, w) && Underway(w)
    ensures Possible(img, w, s) && (s.DeviceHandles? ==> s.io == ALL_WELL)
  {
    hide LockStep;
    NoDeadlock(img, w);
    s := if Possible(img, w, HostSends) then HostSends
         else if Possible(img, w, HostReceives) then HostReceives else DeviceHandles(ALL_WELL);
  }

  lemma NeverAskedAgain(img: Image, w: World, s: Step)
    requires LockStep(img, w) && Possible(img, w, s) && !Asked(w)
    ensures !Asked(After(img, w, s))
  {
    hide Handle, Send;
    if s.HostSends? {
      SendMovesOn(img, w.host);
    }
  }

  lemma SendMovesOn(img: Image, h: Host)
    requires CanSend(img, h)
    ensures !Send(img, h).0.phase.AwaitStart?
  {
  }

  lemma OnlyConfirmingConfirms(img: Image, w: World, s: Step)
    requires LockStep(img, w) && Possible(img, w, s) && LockStep(img, After(img, w, s)) && Underway(w)
    requires !Confirming(w)
    ensures !Confirmed(After(img, w, s))
  {
    hide Chunks, InBlock, After;
    if Confirmed(After(img, w, s)) {
      ConfirmStep(img, w, s);
    }
  }

  lemma Extend(img: Image, trace: seq<World>, steps: seq<Step>, s: Step)
    returns (trace': seq<World>, steps': seq<Step>)
    requires IsRun(img, trace, steps) && |trace| == |steps| + 1 && Possible(img, trace[|steps|], s)
    ensures trace' == trace + [After(img, trace[|steps|], s)] && steps' == steps + [s]
    ensures IsRun(img, trace', steps')
  {
    hide Possible, After;
    trace', steps' := trace + [After(img, trace[|steps|], s)], steps + [s];
  }

  /** From any point under way the two sides get to the CONFIRM without another error. */
  lemma {:induction false} LedToConfirm(img: Image, trace: seq<World>, steps: seq<Step>, base: F.Partition)
    returns (trace': seq<World>, steps': seq<Step>)
    requires IsRun(img, trace, steps) && |trace| == |steps| + 1
    requires LockStep(img, trace[|steps|]) && Underway(trace[|steps|])
    requires trace[|steps|].device.area.GrownFrom(base)
    ensures IsRun(img, trace', steps') && |trace'| == |steps'| + 1
    ensures trace'[0] == trace[0] && LockStep(img, trace'[|steps'|]) && Confirming(trace'[|steps'|])
    ensures trace'[|steps'|].device.area.GrownFrom(base)
    decreases Work(img, trace[|steps|])
  {
    hide *;
    UnderwayIs();
    var w := trace[|steps|];
    if Confirming(w) {
      trace', steps' := trace, steps;
    } else {
      var s := SomeStep(img, w);
      var v := After(img, w, s);
      StepKeeps(img, w, s);
      NeverAskedAgain(img, w, s);
      OnlyConfirmingConfirms(img, w, s);
      StartStep(img, w, s);
      F.GrownInSteps(base, w.device.area, v.device.area);
      WorkGoesDown(img, w, s);
      trace', steps' := Extend(img, trace, steps, s);
      trace', steps' := LedToConfirm(img, trace', steps', base);
    }
  }

  lemma ConfirmIsAnswered(img: Image, w: World, confirm: F.Io)
    requires LockStep(img, w) && Confirming(w) && confirm.bootOk
    ensures var s := DeviceHandles(Io(true, true, confirm));
      && Possible(img, w, s)
      && var v := After(img, w, s);
      && Possible(img, v, HostReceives) && After(img, v, HostReceives).host.phase.Success?
      && w.device.area.bytes == img && After(img, v, HostReceives).device.area == w.device.area.Flushed(confirm)
  {
  }

  lemma AtFirst(img: Image, device: State) returns (trace: seq<World>, steps: seq<Step>)
    ensures trace == [Begin(img, device)] && steps == [] && IsRun(img, trace, steps)
  {
    trace, steps := [Begin(img, device)], [];
  }

  /**
    For every image and every device, and whatever the erase of the START and the flush of the CONFIRM come
    to, there is a run in which the host reports success with the outcome of these two in the flash.
   */
  lemma SuccessAnyway(img: Image, device: State, start: F.Io, confirm: F.Io)
    returns (trace: seq<World>, steps: seq<Step>, accepted: F.Partition)
    requires Opens(start) && confirm.bootOk
    ensures IsRun(img, trace, steps) && |trace| == |steps| + 1 && trace[0] == Begin(img, device)
    ensures trace[|steps|].host.phase.Success?
    ensures accepted.GrownFrom(SetUpFor(img, device, start)) && accepted.bytes == img
    ensures trace[|steps|].device.area == accepted.Flushed(confirm)
  {
    hide *;
    var base := SetUpFor(img, device, start);
    trace, steps := AtFirst(img, device);
    StartIsTaken(img, device, start);
    trace, steps := Extend(img, trace, steps, DeviceHandles(Io(true, true, start)));
    F.GrownInSteps(base, base, base);
    trace, steps := LedToConfirm(img, trace, steps, base);
    accepted := trace[|steps|].device.area;
    ConfirmIsAnswered(img, trace[|steps|], confirm);
    trace, steps := Extend(img, trace, steps, DeviceHandles(Io(true, true, confirm)));
    trace, steps := Extend(img, trace, steps, HostReceives);
  }

  /** The final flush writes nothing: the host reports success for every image and the flash stays empty. */
  lemma SuccessOnAnEmptyFlash(img: Image, device: State, start: F.Io, confirm: F.Io)
    returns (trace: seq<World>, steps: seq<Step>)
    requires Opens(start) && confirm.bootOk && !confirm.flushOk && confirm.flushed == 0
    ensures IsRun(img, trace, steps) && |trace| == |steps| + 1 && trace[0] == Begin(img, device)
    ensures trace[|steps|].host.phase.Success?
    ensures trace[|steps|].device.area.bytes == img && trace[|steps|].device.area.programmed == []
  {
    hide IsRun, Begin;
    var accepted;
    trace, steps, accepted := SuccessAnyway(img, device, start, confirm);
  }

  /** What position k reads back as if it was written over older data. */
  function OverlaidAt(io: F.Io, k: nat): byte {
    if k < |io.overlay| then io.overlay[k] else 0
  }

  /**
    Writes do not erase, and the erase of the START fails over older data at position k: for every image that
    reaches so far the host reports success although the flash reads something else there.
   */
  lemma SuccessOnASpoiledFlash(img: Image, device: State, start: F.Io, confirm: F.Io, k: nat)
    returns (trace: seq<World>, steps: seq<Step>)
    requires Opens(start) && confirm.bootOk && confirm.flushOk
    requires !device.area.erases && !start.eraseOk && k in device.area.Occupied()
    requires k < |img| && OverlaidAt(confirm, k) != img[k]
    ensures IsRun(img, trace, steps) && |trace| == |steps| + 1 && trace[0] == Begin(img, device)
    ensures trace[|steps|].host.phase.Success?
    ensures var area := trace[|steps|].device.area;
      area.bytes == img && |area.programmed| == |img| && area.programmed[k] == OverlaidAt(confirm, k) != img[k]
  {
    hide IsRun, Begin;
    var accepted;
    trace, steps, accepted := SuccessAnyway(img, device, start, confirm);
    assert k in accepted.stale;
  }
}
