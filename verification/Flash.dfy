/** The flash slot a firmware image is written to, and how the flash may answer. */
module Flash {
  import opened Bytes
  import opened UpgradeLock

  const SECTOR := 4096

  /** ROUND_UP(size, 4096) in 32-bit arithmetic: what FW_START erases. */
  function EraseLen(size: uint32): nat {
    (size + SECTOR - 1) % TWO_32 / SECTOR * SECTOR
  }

  lemma EraseLenCovers(size: uint32)
    ensures EraseLen(size) >= size <==> size <= TWO_32 - SECTOR
  {
    if size <= TWO_32 - SECTOR {
      assert size + SECTOR - 1 < TWO_32;
    } else {
      assert (size + SECTOR - 1) % TWO_32 == size + SECTOR - 1 - TWO_32 < SECTOR;
    }
  }

  /** The bytes FW_START and the CAN START clear; nobody looks at the result of their erase. */
  function Cleared(size: uint32, io: Io): nat {
    if io.eraseOk then EraseLen(size) else 0
  }

  /** The first n positions. */
  function Below(n: nat): (r: set<nat>)
    ensures forall p: nat :: p in r <==> p < n
  {
    if n == 0 then {} else Below(n - 1) + {n - 1}
  }

  /** The answers of the flash and the bootloader to one command. */
  datatype Io = Io(
    openOk: bool,          // flash_area_open
    eraseOk: bool,         // flash_area_erase
    initOk: bool,          // flash_img_init
    writeOk: bool,         // flash_img_buffered_write of data
    flushOk: bool,         // flash_img_buffered_write of the final flush
    flushed: nat,          // bytes in the flash after that flush, if it fails
    overlay: seq<byte>,    // what bytes written over others that were not erased read back as
    badReads: set<nat>,    // chunks for which flash_area_read fails
    bootOk: bool)          // boot_request_upgrade

  /**
    An upgrade partition: the bytes flash_img accepted since it was set up, the positions that hold
    older data not erased since, and what the flash reads back as after the last explicit flush.
    `erases` is how the firmware is built: whether flash_img erases each sector before it writes to it.
    A write whose erase fails is a failed write.
   */
  datatype Partition = Partition(erases: bool, bytes: seq<byte>, stale: set<nat>, programmed: seq<byte>) {
    /** Every position written since it was last erased. */
    function Occupied(): set<nat> {
      stale + Below(|bytes|)
    }

    /** Erase the first `cleared` bytes and start writing at the front again. */
    function SetUp(cleared: nat): Partition {
      Partition(erases, [], Left(cleared), [])
    }

    /** The positions that hold older data after an erase of the first `cleared` bytes. */
    function Left(cleared: nat): set<nat> {
      set p | p in Occupied() && p >= cleared
    }

    /** flash_img_buffered_write. */
    function Appended(data: seq<byte>): Partition {
      Partition(erases, bytes + data, if erases then stale - Below(|bytes| + |data|) else stale, programmed)
    }

    function OnFlash(io: Io): nat {
      if io.flushOk then |bytes| else Min(io.flushed, |bytes|)
    }

    /** The first n bytes of the partition once n bytes were programmed. */
    function ReadBack(n: nat, overlay: seq<byte>): (r: seq<byte>)
      requires n <= |bytes|
      ensures |r| == n
    {
      seq(n, p requires 0 <= p < n =>
        if p !in stale then bytes[p] else if p < |overlay| then overlay[p] else 0)
    }

    function Flushed(io: Io): Partition {
      this.(programmed := ReadBack(OnFlash(io), io.overlay))
    }

    /** Nothing accepted since the set-up lies on data that was not erased. */
    predicate Clean() {
      Below(|bytes|) !! stale
    }

    /** A later state of the same upgrade: more bytes, and old data only where it was. */
    predicate GrownFrom(p: Partition) {
      erases == p.erases && p.bytes <= bytes && stale <= p.stale && (!erases ==> stale == p.stale)
    }

    /** Writes that erase never lie on old data. */
    predicate Sound() {
      erases ==> Clean()
    }
  }

  lemma GrownInSteps(p: Partition, q: Partition, r: Partition)
    ensures p.GrownFrom(p)
    ensures q.GrownFrom(p) && r.GrownFrom(q) ==> r.GrownFrom(p)
  {
  }

  /** Every byte of the image that was programmed without an erase before it reads back right all the same. */
  predicate ReadsRight(p: Partition, img: seq<byte>) {
    forall k | k in p.stale && k < |img| && k < |p.programmed| :: p.programmed[k] == img[k]
  }

  /** After a flush the flash holds what was accepted iff it reached the end and what was not erased reads right. */
  lemma FlashHoldsIff(p: Partition, io: Io)
    ensures var q := p.Flushed(io);
      && (q.programmed == p.bytes <==> (io.flushOk || io.flushed >= |p.bytes|) && ReadsRight(q, p.bytes))
      && (p.Clean() ==> ReadsRight(q, p.bytes))
  {
    var q := p.Flushed(io);
    assert |q.programmed| == |p.bytes| <==> io.flushOk || io.flushed >= |p.bytes|;
    if |q.programmed| == |p.bytes| && ReadsRight(q, p.bytes) {
      forall k | 0 <= k < |p.bytes|
        ensures q.programmed[k] == p.bytes[k]
      {
      }
    }
  }

  /** Setting up leaves no old data iff the erase reaches over all there was. */
  lemma SetUpIsFreshIff(p: Partition, cleared: nat)
    ensures p.Left(cleared) == {} <==> p.Occupied() <= Below(cleared)
  {
    assert forall k :: k in p.Left(cleared) <==> k in p.Occupied() && k !in Below(cleared);
  }

  /** Which upgrade a byte of slot1 belongs to. Upgrades are numbered by the set-ups of slot1. */
  datatype Tag = Tag(channel: Channel, session: nat)

  /** slot1, and on whose behalf each byte accepted since its set-up was written. */
  datatype Slot1 = Slot1(area: Partition, writers: seq<Tag>, current: Tag) {
    function SetUp(c: Channel, cleared: nat): Slot1 {
      Slot1(area.SetUp(cleared), [], Tag(c, current.session + 1))
    }

    /** The same after an erase of the whole slot. */
    function Wiped(c: Channel): Slot1 {
      Slot1(Partition(area.erases, [], {}, []), [], Tag(c, current.session + 1))
    }

    /** A write by a channel that takes itself to be upgrade number `session`. */
    function Appended(c: Channel, session: nat, data: seq<byte>): Slot1 {
      Slot1(area.Appended(data), writers + seq(|data|, _ => Tag(c, session)), current)
    }

    function Flushed(io: Io): Slot1 {
      this.(area := area.Flushed(io))
    }

    /** Every byte accepted since the set-up was written by the upgrade that set the slot up. */
    ghost predicate OneUpgrade() {
      |writers| == |area.bytes| && forall t | t in writers :: t == current
    }

    /** And none of them shares its place with a byte of an earlier upgrade. */
    ghost predicate Unmixed() {
      OneUpgrade() && area.Clean()
    }
  }

  /** At power-up the slot may hold data of earlier upgrades anywhere. */
  function AtPowerUp(erases: bool, stale: set<nat>): Slot1 {
    Slot1(Partition(erases, [], stale, []), [], Tag(UDP, 0))
  }

  class FlashArea {
    var slot1: Slot1

    constructor (erases: bool, stale: set<nat>)
      ensures slot1 == AtPowerUp(erases, stale)
    {
      slot1 := AtPowerUp(erases, stale);
    }

    method SetUp(c: Channel, cleared: nat)
      modifies this
      ensures slot1 == old(slot1).SetUp(c, cleared)
    {
      slot1 := slot1.SetUp(c, cleared);
    }

    method BufferedWrite(c: Channel, session: nat, data: seq<byte>, ok: bool)
      modifies this
      ensures slot1 == if ok then old(slot1).Appended(c, session, data) else old(slot1)
    {
      if ok {
        slot1 := slot1.Appended(c, session, data);
      }
    }

    method Flush(io: Io)
      modifies this
      ensures slot1 == old(slot1).Flushed(io)
    {
      slot1 := slot1.Flushed(io);
    }
  }
}
