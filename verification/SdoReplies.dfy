/**
  What the answers of 0x1F50 and 0x1F51 mean, under any sequence of writes to them, with the other channels
  upgrading in between whenever they may.
 */
module SdoReplies {
  import opened Bytes
  import opened UpgradeLock
  import opened Flash
  import opened SdoDownload

  /** A command and its return code; or the other channels at work, which need the lock not to be SDO's. */
  datatype Heard =
    | Ctrl(count: nat, val: uint32, io: Io, code: Odr)
    | Write(buf: seq<byte>, offset: nat, length: nat, io: Io, code: Odr)
    | Others(lock: Lock, slot1: Slot1)

  ghost predicate StepIs(v: View, e: Heard, w: View) {
    match e
    case Ctrl(count, val, io, code) => CtrlWrite(v, count, val, io) == (w, Returned(code))
    case Write(buf, offset, length, io, code) => DataWrite(v, buf, offset, length, io) == (w, Returned(code))
    case Others(lock, slot1) =>
      !v.lock.HeldBy(SDO) && !lock.HeldBy(SDO) && w == v.(lock := lock, slot1 := slot1)
  }

  ghost predicate IsRun(views: seq<View>, h: seq<Heard>) {
    && |views| == |h| + 1 && views[0].sdo == SDO_INIT && !views[0].lock.HeldBy(SDO)
    && forall i | 0 <= i < |h| :: StepIs(views[i], h[i], views[i + 1])
  }

  /** A control write of 0 that was answered with OK. */
  predicate Opens(e: Heard) {
    e.Ctrl? && e.count == 4 && e.val == 0 && e.code == OK
  }

  /** A control write of 0 or 1, or data that could not be written. */
  predicate Ends(e: Heard) {
    (e.Ctrl? && e.count == 4 && e.val <= 1) || (e.Write? && e.code == DATA_TRANSF)
  }

  /** The download that command s opened is still open. */
  ghost predicate Open(h: seq<Heard>, s: nat) {
    s < |h| && Opens(h[s]) && forall k | s < k < |h| :: !Ends(h[k])
  }

  /** The data that was answered with OK or PARTIAL, in order. */
  function Taken(h: seq<Heard>): seq<byte> {
    if h == [] then []
    else
      var e := h[|h| - 1];
      Taken(h[..|h| - 1]) + if e.Write? && e.code in {OK, PARTIAL} then e.buf else []
  }

  /** Between commands SDO has the lock exactly when it says so, and always while a download is open or confirmed. */
  predicate Settled(v: View) {
    && v.sdo.pc.Idle? && (v.sdo.lockHeld <==> v.lock.HeldBy(SDO))
    && (v.sdo.state in {READY, STREAMING, CONFIRMED} ==> v.sdo.lockHeld)
  }

  /** The device's variables after h. */
  ghost predicate Matches(v: View, h: seq<Heard>) {
    && Settled(v)
    && (v.sdo.state in {READY, STREAMING} <==> exists s :: Open(h, s))
    && forall s | Open(h, s) ::
         && v.sdo.state == (if Taken(h[s + 1..]) == [] then READY else STREAMING)
         && v.sdo.written == |Taken(h[s + 1..])| && v.slot1.area.bytes == Taken(h[s + 1..])
  }

  lemma OpenMore(h: seq<Heard>, e: Heard, s: nat)
    ensures Open(h + [e], s) <==> if Opens(e) then s == |h| else Open(h, s) && !Ends(e)
  {
    var g := h + [e];
    assert g[|h|] == e;
    if Open(g, s) && s < |h| {
      assert !Ends(g[|h|]);
      forall k | s < k < |h|
        ensures !Ends(h[k])
      {
        assert !Ends(g[k]);
      }
    }
  }

  lemma SomeOpenMore(h: seq<Heard>, e: Heard)
    ensures (exists s :: Open(h + [e], s)) <==> Opens(e) || (!Ends(e) && exists s :: Open(h, s))
  {
    forall s: nat
      ensures Open(h + [e], s) <==> if Opens(e) then s == |h| else Open(h, s) && !Ends(e)
    {
      OpenMore(h, e, s);
    }
    hide Open;
    if Opens(e) {
      assert Open(h + [e], |h|);
    } else if s: nat :| Open(h, s) {
      assert Open(h + [e], s) <==> !Ends(e);
    }
  }

  lemma TakenMore(h: seq<Heard>, e: Heard, s: nat)
    requires s < |h|
    ensures Taken((h + [e])[s + 1..]) ==
            Taken(h[s + 1..]) + if e.Write? && e.code in {OK, PARTIAL} then e.buf else []
  {
    var g := (h + [e])[s + 1..];
    assert g == h[s + 1..] + [e];
    assert g[..|g| - 1] == h[s + 1..];
  }

  lemma OtherCtrlIs(v: View, count: nat, val: uint32, io: Io)
    requires Settled(v) && (count != 4 || val > 1)
    ensures CtrlWrite(v, count, val, io) == (v, Returned(if count != 4 then DATA_SHORT else INVALID_VALUE))
  {
  }

  lemma EnterIs(v: View, io: Io)
    requires Settled(v)
    ensures var (w, c) := CtrlWrite(v, 4, 0, io);
      var busy := v.lock.active && !v.lock.HeldBy(SDO);
      var ok := io.openOk && io.eraseOk && io.initOk;
      && Settled(w) && c == Returned(if busy then DEV_INCOMPAT else if ok then OK else HW)
      && (busy ==> w == v)
      && (!busy && ok ==> w.sdo.state == READY && w.sdo.written == 0 && w.slot1.area.bytes == [])
      && (!busy && !ok ==> w.sdo.state == ERROR && !w.lock.HeldBy(SDO))
  {
  }

  lemma ConfirmIs(v: View, io: Io)
    requires Settled(v)
    ensures var (w, c) := CtrlWrite(v, 4, 1, io);
      var ready := v.sdo.state == STREAMING && v.sdo.written > 0;
      && Settled(w)
      && c == Returned(if !ready then DEV_INCOMPAT else if !io.flushOk then DATA_TRANSF
                       else if !io.bootOk then HW else OK)
      && w.sdo.state == (if c == Returned(OK) then CONFIRMED else ERROR)
      && (c != Returned(OK) ==> !w.lock.HeldBy(SDO))
      && (ready ==> w.slot1 == v.slot1.Flushed(io))
  {
  }

  lemma CtrlMatches(v: View, h: seq<Heard>, e: Heard, w: View)
    requires Matches(v, h) && e.Ctrl? && StepIs(v, e, w)
    ensures Matches(w, h + [e])
  {
    hide CtrlWrite;
    if e.count != 4 || e.val > 1 {
      OtherCtrlIs(v, e.count, e.val, e.io);
    } else if e.val == 0 {
      EnterIs(v, e.io);
    } else {
      ConfirmIs(v, e.io);
    }
    SomeOpenMore(h, e);
    assert Ends(e) <==> e.count == 4 && e.val <= 1;
    forall s | Open(h + [e], s)
      ensures w.sdo.state == if Taken((h + [e])[s + 1..]) == [] then READY else STREAMING
      ensures w.sdo.written == |Taken((h + [e])[s + 1..])| && w.slot1.area.bytes == Taken((h + [e])[s + 1..])
    {
      OpenMore(h, e, s);
      if Opens(e) {
        assert (h + [e])[s + 1..] == [];
      } else {
        TakenMore(h, e, s);
      }
    }
  }

  lemma WriteMatches(v: View, h: seq<Heard>, e: Heard, w: View)
    requires Matches(v, h) && !e.Ctrl? && StepIs(v, e, w)
    ensures Matches(w, h + [e])
  {
    SomeOpenMore(h, e);
    forall s | Open(h + [e], s)
      ensures w.sdo.state == if Taken((h + [e])[s + 1..]) == [] then READY else STREAMING
      ensures w.sdo.written == |Taken((h + [e])[s + 1..])| && w.slot1.area.bytes == Taken((h + [e])[s + 1..])
    {
      OpenMore(h, e, s);
      TakenMore(h, e, s);
    }
  }

  /** In every run the device's variables say what was opened and taken since. */
  lemma {:induction false} StateIsTheDownload(views: seq<View>, h: seq<Heard>, n: nat)
    requires IsRun(views, h) && n <= |h|
    ensures Matches(views[n], h[..n])
  {
    hide StepIs, Open;
    if n == 0 {
      assert forall s :: !Open(h[..0], s) by {
        NothingOpen();
      }
    } else {
      StateIsTheDownload(views, h, n - 1);
      var v, e, w := views[n - 1], h[n - 1], views[n - 1 + 1];
      assert StepIs(v, e, w);
      if e.Ctrl? {
        CtrlMatches(v, h[..n - 1], e, w);
      } else {
        WriteMatches(v, h[..n - 1], e, w);
      }
      assert h[..n - 1] + [e] == h[..n];
    }
  }

  lemma NothingOpen()
    ensures forall h: seq<Heard>, s: nat :: h == [] ==> !Open(h, s)
  {
  }

  /**
    What a control write of 1 is answered, in every run: OK exactly when a download is open, data was taken since it
    was opened, none of it refused, and the final flush and the boot request work. The flash then reads back
    what was taken; every other answer gives the lock back.
   */
  lemma ConfirmedIff(views: seq<View>, h: seq<Heard>, io: Io)
    requires IsRun(views, h)
    ensures var v := views[|h|];
      var (w, c) := CtrlWrite(v, 4, 1, io);
      && (c == Returned(OK) <==> (exists s :: Open(h, s) && Taken(h[s + 1..]) != []) && io.flushOk && io.bootOk)
      && (c == Returned(OK) ==>
            && w.lock.HeldBy(SDO) && |w.slot1.area.programmed| == |w.slot1.area.bytes|
            && forall s | Open(h, s) :: w.slot1.area.bytes == Taken(h[s + 1..]))
      && (c != Returned(OK) ==> !w.lock.HeldBy(SDO) && w.sdo.state == ERROR)
  {
    StateIsTheDownload(views, h, |h|);
    assert h[..|h|] == h;
    ConfirmIs(views[|h|], io);
    hide CtrlWrite, Open, Taken, IsRun;
  }

  /**
    A data write is refused exactly when no download is open; otherwise it is answered by what became of it, with OK
    only for the last part of an announced length.
   */
  lemma DataAnswerIs(views: seq<View>, h: seq<Heard>, buf: seq<byte>, offset: nat, length: nat, io: Io)
    requires IsRun(views, h)
    ensures var c := DataWrite(views[|h|], buf, offset, length, io).1;
      && (c == Returned(DEV_INCOMPAT) <==> forall s :: !Open(h, s))
      && ((exists s :: Open(h, s)) ==>
            c == Returned(if buf == [] then OK else if !io.writeOk then DATA_TRANSF
                          else if length > 0 && offset + |buf| >= length then OK else PARTIAL))
  {
    StateIsTheDownload(views, h, |h|);
    assert h[..|h|] == h;
    hide Open, Taken, IsRun;
  }

  /**
    A control write of 0, in every run: it is refused exactly while another channel has the lock; else it opens a
    download exactly when the slot opens, its trailer can be erased and flash_img starts.
   */
  lemma OpenedIff(views: seq<View>, h: seq<Heard>, io: Io)
    requires IsRun(views, h)
    ensures var v := views[|h|];
      var (w, c) := CtrlWrite(v, 4, 0, io);
      && (c == Returned(DEV_INCOMPAT) <==> v.lock.HeldBy(UDP) || v.lock.HeldBy(WS))
      && (c == Returned(DEV_INCOMPAT) ==> w == v)
      && (c == Returned(OK) <==> !v.lock.HeldBy(UDP) && !v.lock.HeldBy(WS) && io.openOk && io.eraseOk && io.initOk)
      && (c == Returned(OK) ==> w.lock.HeldBy(SDO) && w.slot1.area.bytes == [])
      && (c !in {Returned(OK), Returned(DEV_INCOMPAT)} ==> c == Returned(HW) && !w.lock.active)
  {
    StateIsTheDownload(views, h, |h|);
    assert h[..|h|] == h;
    EnterIs(views[|h|], io);
    hide Open, Taken, IsRun;
  }
}
