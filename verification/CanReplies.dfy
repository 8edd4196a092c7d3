/** What the device's answers mean under any traffic: frames in any order, from any host, any answers of the flash. */
module CanReplies {
  import opened Bytes
  import opened Wrappers
  import opened CanDevice
  import F = Flash

  /** One frame the device handled, and how its surroundings answered meanwhile. */
  datatype Heard = Heard(frame: Frame, io: Io)

  /** The device after the frames of `h`, from power-up. */
  function Now(area: F.Partition, h: seq<Heard>): State {
    if h == [] then State(false, 0, 0, area)
    else Handle(Now(area, h[..|h| - 1]), h[|h| - 1].frame, h[|h| - 1].io).0
  }

  predicate IsStart(f: Frame) {
    f.Control? && f.cmd == FW_CMD_START_UPDATE
  }

  predicate IsConfirm(f: Frame) {
    f.Control? && f.cmd == FW_CMD_CONFIRM
  }

  /** A START that passes every check in front of the flash: its size is the one that counts from now on. */
  predicate Announces(e: Heard) {
    IsStart(e.frame) && e.frame.dlc == 8 && e.io.keyhashOk && e.io.startAllowed
  }

  /** A START that opens an upload. */
  predicate Opens(e: Heard) {
    Announces(e) && e.io.flash.openOk && e.io.flash.initOk
  }

  /** A frame after which an upload that was open is no longer. */
  predicate Ends(e: Heard) {
    (Announces(e) && e.io.flash.openOk) || IsConfirm(e.frame)
  }

  /** The upload opened by frame s is still open after all of h. */
  ghost predicate Open(h: seq<Heard>, s: nat) {
    s < |h| && Opens(h[s]) && forall k | s < k < |h| :: !Ends(h[k])
  }

  /** The data that was written, in order: a frame whose write fails adds nothing. */
  function Written(h: seq<Heard>): seq<byte> {
    if h == [] then []
    else
      var e := h[|h| - 1];
      Written(h[..|h| - 1]) + if e.frame.Data? && e.io.flash.writeOk then e.frame.payload else []
  }

  /** The size the last START announced. */
  function Size(h: seq<Heard>): uint32 {
    if h == [] then 0
    else if Announces(h[|h| - 1]) then h[|h| - 1].frame.arg
    else Size(h[..|h| - 1])
  }

  /** The device takes an upload to be open, with these bytes of it and that size, exactly when one is. */
  ghost predicate Matches(d: State, h: seq<Heard>) {
    && (d.initialized <==> exists s :: Open(h, s))
    && d.total == Size(h)
    && forall s | Open(h, s) ::
         d.written == |Written(h[s + 1..])| && d.area.bytes == Written(h[s + 1..])
  }

  lemma OpenMore(h: seq<Heard>, e: Heard, s: nat)
    ensures Open(h + [e], s) <==> if Opens(e) then s == |h| else Open(h, s) && !Ends(e)
  {
    var g := h + [e];
    assert g[|h|] == e;
    if Open(g, s) && s < |h| {
      assert !Ends(g[|h|]);
      forall k | s < k < |h|
        ensures !Ends(h[k])
      {
        assert !Ends(g[k]);
      }
    }
  }

  lemma WrittenMore(h: seq<Heard>, e: Heard, s: nat)
    requires s < |h|
    ensures Written((h + [e])[s + 1..]) ==
            Written(h[s + 1..]) + if e.frame.Data? && e.io.flash.writeOk then e.frame.payload else []
  {
    var g := (h + [e])[s + 1..];
    assert g == h[s + 1..] + [e];
    assert g[..|g| - 1] == h[s + 1..];
  }

  lemma SizeMore(h: seq<Heard>, e: Heard)
    ensures Size(h + [e]) == if Announces(e) then e.frame.arg else Size(h)
  {
    assert (h + [e])[..|h|] == h;
  }

  lemma OneMore(d: State, h: seq<Heard>, e: Heard)
    requires Matches(d, h)
    ensures Matches(Handle(d, e.frame, e.io).0, h + [e])
  {
    SizeMore(h, e);
    SomeOpenMore(h, e);
    var d' := Handle(d, e.frame, e.io).0;
    forall s | Open(h + [e], s)
      ensures d'.written == |Written((h + [e])[s + 1..])| && d'.area.bytes == Written((h + [e])[s + 1..])
    {
      OpenMore(h, e, s);
      if Opens(e) {
        assert (h + [e])[s + 1..] == [];
      } else {
        WrittenMore(h, e, s);
      }
    }
  }

  lemma SomeOpenMore(h: seq<Heard>, e: Heard)
    ensures (exists s :: Open(h + [e], s)) <==> Opens(e) || (!Ends(e) && exists s :: Open(h, s))
  {
    forall s: nat
      ensures Open(h + [e], s) <==> if Opens(e) then s == |h| else Open(h, s) && !Ends(e)
    {
      OpenMore(h, e, s);
    }
    hide Open;
    if Opens(e) {
      assert Open(h + [e], |h|);
    } else if s: nat :| Open(h, s) {
      assert Open(h + [e], s) <==> !Ends(e);
    }
  }

  /** In every run the device's variables say what was announced and written since the START that opened. */
  lemma {:induction false} StateIsTheUpload(area: F.Partition, h: seq<Heard>)
    ensures Matches(Now(area, h), h)
  {
    if h == [] {
    } else {
      hide Matches, Handle;
      StateIsTheUpload(area, h[..|h| - 1]);
      OneMore(Now(area, h[..|h| - 1]), h[..|h| - 1], h[|h| - 1]);
      assert h[..|h| - 1] + [h[|h| - 1]] == h;
    }
  }

  /**
    What each answer means, in every run. A CONFIRM is answered with the magic number exactly when an upload
    is open, the data written since its START is as long as the size announced last, and the boot request
    succeeds; its flush then leaves that data in the flash as far as the flush gets.
   */
  lemma ConfirmedIff(area: F.Partition, h: seq<Heard>, f: Frame, io: Io)
    ensures var (d, r) := Handle(Now(area, h), f, io);
      && (r == Some(Reply(CONFIRM, CONFIRM_MAGIC)) <==>
            IsConfirm(f) && io.flash.bootOk && exists s :: Open(h, s) && |Written(h[s + 1..])| == Size(h))
      && (r.Some? && r.value.code.CONFIRM? ==>
            && r.value.arg == CONFIRM_MAGIC
            && d.area.programmed == d.area.ReadBack(d.area.OnFlash(io.flash), io.flash.overlay)
            && forall s | Open(h, s) :: d.area.bytes == Written(h[s + 1..]))
  {
    StateIsTheUpload(area, h);
    hide Open, Written, Size, Now;
  }

  /**
    A data frame is refused exactly when no upload is open or its write fails; otherwise it is answered with
    success when the data is as long as announced, with the count at every 64th byte, and else not at all.
   */
  lemma DataAnswerIs(area: F.Partition, h: seq<Heard>, data: seq<byte>, io: Io)
    ensures var r := Handle(Now(area, h), Data(data), io).1;
      && (r == Some(Reply(TRANSFER_ERROR, 0)) <==> forall s :: !Open(h, s))
      && (r == Some(Reply(FLASH_ERROR, 0)) <==> (exists s :: Open(h, s)) && !io.flash.writeOk)
      && forall s | Open(h, s) && io.flash.writeOk ::
           var n := |Written(h[s + 1..])| + |data|;
           r == if n == Size(h) then Some(Reply(UPDATE_SUCCESS, n))
                else if n % 64 == 0 then Some(Reply(OFFSET, n % TWO_32)) else None
  {
    StateIsTheUpload(area, h);
    hide Open, Written, Size, Now;
  }

  /** A START that is refused for its key hash or by the hook leaves the slot and an open upload as they are. */
  lemma RefusedStartChangesNothing(area: F.Partition, h: seq<Heard>, f: Frame, io: Io)
    requires IsStart(f) && f.dlc == 8
    ensures var (d, r) := Handle(Now(area, h), f, io);
      && (r == Some(Reply(KEYHASH_ERROR, 0)) <==> !io.keyhashOk)
      && (r == Some(Reply(TRANSFER_ERROR, 0)) <==> io.keyhashOk && !io.startAllowed)
      && (r == Some(Reply(OFFSET, 0)) <==> Opens(Heard(f, io)))
      && (!io.keyhashOk || !io.startAllowed ==> d == Now(area, h))
  {
    hide Now;
  }
}
