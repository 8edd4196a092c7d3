/** A device built with a signing key, and an image signed with another one: nothing of it gets in. */
module UdpKeyhash {
  import opened Bytes
  import opened Wrappers
  import opened UpgradeLock
  import opened Flash
  import opened FirmwareImage
  import D = UpgradeSystem
  import opened UdpTransfer
  import H = UdpHost
  import U = UdpFirmware

  /** The answer to FW_START that tells the host about the other key. */
  function Refusal(s: Setup): Datagram {
    U.StartReply(s.cfg, U.FW_START_ERR_KEYHASH)
  }

  /**
    An idle device refuses the FW_START of an image exactly if it knows a key, the frame carries a hash, and
    the two differ. The refusal touches neither the lock nor slot1.
   */
  lemma RefusedIff(s: Setup, d: D.Device, io: Io)
    requires d.udp.pc.Idle? && !d.udp.started
    ensures var f := StartFrame(s);
      var (d', r) := D.Next(s.cfg, d, D.UdpCommand(f[0], f[1..], io));
      && (r == Some(Refusal(s)) <==> Foreign(s))
      && (Foreign(s) ==> d' == d.(udp := d.udp.(size := |s.img|)))
      && (!Foreign(s) && !d.lock.active ==> r == None && d'.udp.pc.Locked? && d'.lock.HeldBy(UDP))
  {
    hide SentKeyhash;
    HashIsCarried(s);
    assert StartFrame(s)[1..][..4] == Le32(|s.img|);
    Le32RoundTrip(|s.img|);
    assert U.StartReply(s.cfg, U.FW_START_ERR_FAIL)[1] != Refusal(s)[1];
  }

  /** Nothing of the transfer has begun, and the host waits or has given up. */
  predicate Outside(s: Setup, w: World) {
    && w.sessions == 0 && w.device.udp.pc.Idle? && !w.device.udp.started && !w.device.udp.verified
    && w.toDevice == {StartFrame(s)} && w.toHost <= {Refusal(s)}
    && (w.host.Starting? || w.host.Stopped?)
  }

  predicate OfUdp(step: Step) {
    step.DeviceReceives? || (step.DeviceRuns? && D.Actor(step.action) == UDP)
  }

  lemma OthersLeaveUdpAlone(cfg: U.Config, d: D.Device, a: D.Action)
    requires D.Enabled(d, a) && D.Actor(a) != UDP
    ensures D.Next(cfg, d, a).0.udp == d.udp && D.Next(cfg, d, a).1 == None
  {
  }

  lemma StaysOutside(s: Setup, w: World, step: Step)
    requires Foreign(s) && Outside(s, w) && Possible(s, w, step)
    ensures Outside(s, After(s, w, step))
    ensures OfUdp(step) ==> After(s, w, step).device.slot1 == w.device.slot1
                            && After(s, w, step).device.lock == w.device.lock
    ensures step.DeviceReceives? ==> Refusal(s) in After(s, w, step).toHost
  {
    hide D.Next, StartFrame, Foreign;
    match step
    case DeviceReceives(f, io) =>
      StartCommand(s);
      RefusedIff(s, w.device, io);
    case DeviceRuns(a) =>
      if D.Actor(a) != UDP {
        OthersLeaveUdpAlone(s.cfg, w.device, a);
      }
    case _ =>
  }

  lemma StartCommand(s: Setup)
    ensures StartFrame(s) != [] && StartFrame(s)[0] == U.FW_CMD_START
  {
  }

  /**
    In every run with such an image, whatever the network and the other channels do: no session ever opens, no
    step of UDP changes slot1 or the lock, every FW_START that arrives is answered with status 2, nothing
    else is ever answered, and the host never succeeds.
   */
  lemma {:induction false} ForeignImageStaysOut(s: Setup, trace: seq<World>, steps: seq<Step>, n: nat)
    requires Foreign(s) && IsRun(s, trace, steps) && n <= |steps|
    ensures Outside(s, trace[n]) && !trace[n].host.Succeeded?
    ensures forall i | 0 <= i < n && OfUdp(steps[i]) ::
              trace[i + 1].device.slot1 == trace[i].device.slot1 && trace[i + 1].device.lock == trace[i].device.lock
    ensures forall i | 0 <= i < n && steps[i].DeviceReceives? :: Refusal(s) in trace[i + 1].toHost
  {
    hide Possible, After, Foreign, StartFrame, Refusal;
    StepOf(s, trace, steps, 0);
    if n == 0 {
      AtFirst(s, trace, steps);
    } else {
      ForeignImageStaysOut(s, trace, steps, n - 1);
      StepOf(s, trace, steps, n - 1);
      StaysOutside(s, trace[n - 1], steps[n - 1]);
    }
  }

  lemma AtFirst(s: Setup, trace: seq<World>, steps: seq<Step>)
    requires IsRun(s, trace, steps)
    ensures Outside(s, trace[0]) && trace[0].host.Starting?
  {
  }
}
