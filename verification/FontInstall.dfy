/**
  The font installer of the WebSocket thread: one sector erased per turn, then data programmed as it
  arrives. The partition is NOR flash: erasing sets a sector to 0xFF, programming can only clear bits.
 */
module FontInstall {
  import opened Bytes
  import opened BitBytes
  import opened Wrappers

  const SECTOR := 4096
  const FONT_MAX := 0x40_0000

  /** Bitwise and of two n-bit numbers, lowest bit first. */
  function AndBits(n: nat, a: nat, b: nat): (r: nat)
    ensures r < Pow2(n)
  {
    if n == 0 then 0 else (if a % 2 == 1 && b % 2 == 1 then 1 else 0) + 2 * AndBits(n - 1, a / 2, b / 2)
  }

  function And(a: byte, b: byte): byte {
    assert Pow2(8) == 2 * 2 * 2 * 2 * Pow2(4);
    AndBits(8, a, b)
  }

  lemma {:induction false} AndOnes(n: nat, b: nat)
    requires b < Pow2(n)
    ensures AndBits(n, Pow2(n) - 1, b) == b
  {
    if n == 0 {
    } else {
      assert (Pow2(n) - 1) / 2 == Pow2(n - 1) - 1 && (Pow2(n) - 1) % 2 == 1;
      AndOnes(n - 1, b / 2);
    }
  }

  /** Only an erased cell takes the byte that is programmed into it. */
  lemma AndErased(b: byte)
    ensures And(0xFF, b) == b
  {
    assert Pow2(8) == 2 * 2 * 2 * 2 * Pow2(4) == 0x100;
    AndOnes(8, b);
  }

  /** One byte of flash: its value, the install that erased it last, and how often it was programmed since. */
  datatype Cell = Cell(value: byte, erasedBy: nat, programs: nat)

  datatype Phase = Idle | Erase | Data

  /**
    `open` is `ft.fa != NULL`. `install` counts font_starts, `accepted` holds the payloads written in the
    current one (whole, also where the last was cut).
   */
  datatype FontFields = FontFields(open: bool, total: nat, off: nat, eraseOff: nat, eraseLen: nat, phase: Phase,
                                   failed: bool, rebooting: bool, cells: seq<Cell>, install: nat,
                                   accepted: seq<byte>)
  type Font = f: FontFields | |f.cells| == FONT_MAX
    witness FontFields(false, 0, 0, 0, 0, Idle, false, false, seq(FONT_MAX, i => Cell(0, 0, 0)), 0, [])

  function RoundUp(v: nat): (r: nat)
    ensures v <= r < v + SECTOR && r % SECTOR == 0
  {
    (v + SECTOR - 1) / SECTOR * SECTOR
  }

  // ---------------------------------------------------------------- the flash

  function Erased(cells: seq<Cell>, at: nat, install: nat): (r: seq<Cell>)
    ensures |r| == |cells|
    ensures forall i | 0 <= i < |r| :: r[i] == if at <= i < at + SECTOR then Cell(0xFF, install, 0) else cells[i]
  {
    seq(|cells|, i requires 0 <= i < |cells| => if at <= i < at + SECTOR then Cell(0xFF, install, 0) else cells[i])
  }

  function Burn(c: Cell, b: byte): Cell {
    Cell(And(c.value, b), c.erasedBy, c.programs + 1)
  }

  function Programmed(cells: seq<Cell>, at: nat, data: seq<byte>): (r: seq<Cell>)
    requires at + |data| <= |cells|
    ensures |r| == |cells|
    ensures forall i | 0 <= i < |r| :: r[i] == if at <= i < at + |data| then Burn(cells[i], data[i - at]) else cells[i]
  {
    seq(|cells|, i requires 0 <= i < |cells| =>
      if at <= i < at + |data| then Burn(cells[i], data[i - at]) else cells[i])
  }

  /** What flash_area_write does: all, or a part and an error. */
  datatype Write = Write(ok: bool, part: nat)

  // ---------------------------------------------------------------- messages

  /** What a received message is to the installer. */
  datatype Message =
    | Base64(decoded: Option<seq<byte>>)
    | Binary(payload: seq<byte>)
    | FontStart(size: int, opens: bool)
    | FontEnd
    | Irrelevant

  predicate TakesData(f: Font) {
    f.phase.Data? && !f.failed
  }

  /** flash_area_write at ft.off of what still fits; only success moves ft.off. */
  function Store(f: Font, data: seq<byte>, write: Write): Font
    requires Bounds(f)
  {
    var wlen := Min(|data|, f.total - f.off);
    if write.ok then
      f.(cells := Programmed(f.cells, f.off, data[..wlen]), off := f.off + wlen, accepted := f.accepted + data)
    else
      f.(cells := Programmed(f.cells, f.off, data[..Min(wlen, write.part)]), failed := true)
  }

  /** font_reset. */
  function Reset(f: Font): Font {
    f.(open := false, phase := Idle, failed := false, off := 0)
  }

  function Start(f: Font, size: int, opens: bool): Font {
    if size > 0 && size <= FONT_MAX && !f.open && opens then
      f.(open := true, total := size, off := 0, eraseOff := 0, eraseLen := RoundUp(size), phase := Erase,
         failed := false, install := f.install + 1, accepted := [])
    else f
  }

  /** The message half of a turn; the flag says that the turn ends here. */
  function Handle(f: Font, m: Message, write: Write): (Font, bool)
    requires Bounds(f)
  {
    match m
    case Base64(None) => if TakesData(f) then (f.(failed := true), true) else (f, false)
    case Base64(Some(data)) => (if TakesData(f) then Store(f, data, write) else f, false)
    case Binary(data) => (if TakesData(f) then Store(f, data, write) else f, false)
    case FontStart(size, opens) => (Start(f, size, opens), false)
    case FontEnd =>
      (if f.phase.Data? && f.off == f.total then Reset(f).(rebooting := true) else f, false)
    case Irrelevant => (f, false)
  }

  /** The erase half: one sector. A failed erase may have wiped the sector or not. */
  function Tick(f: Font, eraseOk: bool, wiped: bool): Font {
    if !f.phase.Erase? || !f.open then f
    else if !eraseOk then
      f.(failed := true, phase := Idle, open := false,
         cells := if wiped then Erased(f.cells, f.eraseOff, 0) else f.cells)
    else
      var off := f.eraseOff + SECTOR;
      var g := f.(cells := Erased(f.cells, f.eraseOff, f.install), eraseOff := off);
      if off >= f.eraseLen then g.(off := 0, phase := Data) else g
  }

  /** The end of a turn: when the status push fails, the thread ends without the reboot it owes. */
  function Push(f: Font, pushOk: bool): Font {
    if pushOk then f else Reset(f).(rebooting := false)
  }

  /** One turn of the thread (`pushOk` also where no push is due), or a connection that ends while it waits. */
  datatype Event =
    | Turn(m: Message, write: Write, eraseOk: bool, wiped: bool, pushOk: bool)
    | Disconnect

  function Next(f: Font, e: Event): Font
    requires Bounds(f)
  {
    match e
    case Turn(m, write, eraseOk, wiped, pushOk) =>
      var (g, skip) := Handle(f, m, write);
      if skip then g else Push(Tick(g, eraseOk, wiped), pushOk)
    case Disconnect => Reset(f)
  }

  // ---------------------------------------------------------------- the invariant

  /** Erased in this install and not programmed since. */
  predicate Clean(c: Cell, install: nat) {
    c == Cell(0xFF, install, 0)
  }

  /** Programmed exactly once since this install erased it, with byte b. */
  predicate Holds(c: Cell, install: nat, b: byte) {
    c == Cell(b, install, 1)
  }

  predicate Bounds(f: Font) {
    && f.off <= f.total <= f.eraseLen <= FONT_MAX
    && (f.open <==> !f.phase.Idle?)
    && (f.open ==> f.install > 0 && f.eraseLen == RoundUp(f.total))
    && (f.open ==> f.eraseOff <= f.eraseLen && f.eraseOff % SECTOR == 0)
    && (f.phase.Erase? ==> f.eraseOff < f.eraseLen && f.off == 0 && f.accepted == [] && !f.failed)
    && (f.phase.Data? ==> f.eraseOff == f.eraseLen && f.off == Min(f.total, |f.accepted|))
  }

  ghost predicate Contents(f: Font)
    requires Bounds(f)
  {
    && (f.phase.Erase? ==> forall p | 0 <= p < f.eraseOff :: Clean(f.cells[p], f.install))
    && (f.phase.Data? ==> forall p | 0 <= p < f.off :: Holds(f.cells[p], f.install, f.accepted[p]))
    && (f.phase.Data? && !f.failed ==> forall p | f.off <= p < f.eraseLen :: Clean(f.cells[p], f.install))
  }

  ghost predicate Inv(f: Font) {
    Bounds(f) && Contents(f)
  }

  lemma StoreKeeps(f: Font, data: seq<byte>, write: Write)
    requires Inv(f) && TakesData(f)
    ensures Inv(Store(f, data, write))
  {
    hide And, AndBits, RoundUp;
    var g := Store(f, data, write);
    if write.ok {
      forall p | 0 <= p < g.off
        ensures Holds(g.cells[p], g.install, g.accepted[p])
      {
        if p >= f.off {
          assert Clean(f.cells[p], f.install);
          assert p - f.off < |data| && |f.accepted| == f.off;
          AndErased(data[p - f.off]);
        } else {
          assert Holds(f.cells[p], f.install, f.accepted[p]);
        }
      }
    } else {
      assert forall p | 0 <= p < g.off :: g.cells[p] == f.cells[p];
    }
  }

  lemma TickKeeps(f: Font, eraseOk: bool, wiped: bool)
    requires Inv(f)
    ensures Inv(Tick(f, eraseOk, wiped))
  {
    hide RoundUp;
    var g := Tick(f, eraseOk, wiped);
    if f.phase.Erase? && eraseOk {
      SectorsFit(f.eraseOff, f.eraseLen);
      RoundUpIs(f.total);
      forall p | 0 <= p < g.eraseOff
        ensures Clean(g.cells[p], g.install)
      {
        assert p < f.eraseOff ==> Clean(f.cells[p], f.install);
      }
    }
  }

  lemma RoundUpIs(v: nat)
    ensures RoundUp(v) % SECTOR == 0
  {
  }

  lemma SectorsFit(off: nat, len: nat)
    requires off % SECTOR == 0 && len % SECTOR == 0 && off < len
    ensures off + SECTOR <= len && (off + SECTOR) % SECTOR == 0
  {
    assert off == SECTOR * (off / SECTOR) && len == SECTOR * (len / SECTOR);
  }

  lemma StartKeeps(f: Font, size: int, opens: bool)
    requires Inv(f)
    ensures Inv(Start(f, size, opens))
  {
    if 0 < size <= FONT_MAX {
      var r := RoundUp(size);
      assert FONT_MAX % SECTOR == 0;
      if r > FONT_MAX {
        SectorsFit(FONT_MAX, r);
      }
    }
  }

  lemma HandleKeeps(f: Font, m: Message, write: Write)
    requires Inv(f)
    ensures Inv(Handle(f, m, write).0)
  {
    hide Store, Start, RoundUp;
    match m {
      case Base64(None) =>
      case Base64(Some(data)) => if TakesData(f) { StoreKeeps(f, data, write); }
      case Binary(data) => if TakesData(f) { StoreKeeps(f, data, write); }
      case FontStart(size, opens) => StartKeeps(f, size, opens);
      case FontEnd =>
      case Irrelevant =>
    }
  }

  lemma NextKeeps(f: Font, e: Event)
    requires Inv(f)
    ensures Inv(Next(f, e))
  {
    hide Handle, Tick, Contents, RoundUp;
    match e {
      case Turn(m, write, eraseOk, wiped, pushOk) =>
        HandleKeeps(f, m, write);
        var g := Handle(f, m, write).0;
        TickKeeps(g, eraseOk, wiped);
        ResetKeeps(Tick(g, eraseOk, wiped));
        RebootingIsFree(Reset(Tick(g, eraseOk, wiped)));
      case Disconnect => ResetKeeps(f);
    }
  }

  lemma ResetKeeps(f: Font)
    requires Inv(f)
    ensures Inv(Reset(f))
  {
  }

  lemma RebootingIsFree(f: Font)
    requires Inv(f)
    ensures Inv(f.(rebooting := false))
  {
  }

  // ---------------------------------------------------------------- runs

  /** A run of events; nothing happens any more once a finished install asked for the reboot. */
  ghost function After(f: Font, events: seq<Event>): (g: Font)
    requires Inv(f)
    ensures Inv(g)
    decreases |events|
  {
    if events == [] || f.rebooting then f
    else
      NextKeeps(f, events[0]);
      After(Next(f, events[0]), events[1..])
  }

  /** Power-up: all of `ft` is zero; the flash may hold anything, none of it from a numbered install. */
  ghost predicate PowerUp(f: Font): (up: bool)
    ensures up ==> Inv(f)
  {
    && f == FontFields(false, 0, 0, 0, 0, Idle, false, false, f.cells, 0, [])
    && forall p | 0 <= p < FONT_MAX :: f.cells[p].erasedBy == 0
  }

  lemma StoreBurnsOnlyClean(f: Font, data: seq<byte>, write: Write, p: nat)
    requires Inv(f) && TakesData(f) && p < FONT_MAX
    ensures var g := Store(f, data, write);
      g.cells[p] != f.cells[p] ==>
        f.off <= p < f.total && Clean(f.cells[p], f.install) && g.cells[p].programs == 1
  {
    hide And;
    assert f.off <= p < f.total ==> Clean(f.cells[p], f.install);
  }

  lemma HandleBurnsOnlyClean(f: Font, m: Message, write: Write, p: nat)
    requires Inv(f) && p < FONT_MAX
    ensures var g := Handle(f, m, write).0;
      && (g.cells[p] != f.cells[p] ==>
            f.open && f.off <= p < f.total && Clean(f.cells[p], f.install) && g.cells[p].programs == 1)
      && (g.cells[p] == f.cells[p] || !g.phase.Erase?)
  {
    hide Store, RoundUp;
    match m {
      case Base64(Some(data)) =>
        if TakesData(f) {
          StoreBurnsOnlyClean(f, data, write, p);
          StoreStays(f, data, write);
        }
      case Binary(data) =>
        if TakesData(f) {
          StoreBurnsOnlyClean(f, data, write, p);
          StoreStays(f, data, write);
        }
      case Base64(None) =>
      case FontStart(_, _) =>
      case FontEnd =>
      case Irrelevant =>
    }
  }

  lemma StoreStays(f: Font, data: seq<byte>, write: Write)
    requires Bounds(f)
    ensures Store(f, data, write).phase == f.phase
  {
  }

  /**
    In every run, a byte of the partition is programmed only while it is clean: inside the announced
    length, erased by this very install, and not programmed since. After it, it is programmed once.
   */
  lemma BytesAreProgrammedOncePerErase(f0: Font, events: seq<Event>, e: Event, p: nat)
    requires PowerUp(f0) && p < FONT_MAX
    requires !After(f0, events).rebooting
    ensures var f := After(f0, events);
      var g := Next(f, e);
      g.cells[p].programs > f.cells[p].programs ==>
        && f.open && f.install > 0 && p < f.total
        && f.cells[p] == Cell(0xFF, f.install, 0) && g.cells[p].programs == 1
  {
    hide After, Handle, RoundUp;
    var f := After(f0, events);
    match e {
      case Turn(m, write, _, _, _) => HandleBurnsOnlyClean(f, m, write, p);
      case Disconnect =>
    }
  }

  /** In every run, off <= total <= erase_len, and a failed install keeps what it wrote before. */
  lemma LengthsStayOrdered(f0: Font, events: seq<Event>)
    requires PowerUp(f0)
    ensures var f := After(f0, events);
      && f.off <= f.total <= f.eraseLen <= FONT_MAX
      && (f.phase.Data? ==> forall p | 0 <= p < f.off :: f.cells[p].value == f.accepted[p])
  {
    hide After, RoundUp;
    var f := After(f0, events);
    assert Inv(f);
    if f.phase.Data? {
      assert forall p | 0 <= p < f.off :: Holds(f.cells[p], f.install, f.accepted[p]);
    }
  }

  /**
    font_end leads to the reboot exactly when `total` bytes were written and the status push of its turn does
    not fail. Whenever they were, the font in flash is what was accepted, cut at the announced length.
    That `failed` is not looked at does no harm.
   */
  lemma FinishedInstallIsComplete(f0: Font, events: seq<Event>, write: Write, eraseOk: bool, wiped: bool, pushOk: bool)
    requires PowerUp(f0)
    requires !After(f0, events).rebooting
    ensures var f := After(f0, events);
      var g := Next(f, Turn(FontEnd, write, eraseOk, wiped, pushOk));
      && (g.rebooting <==> f.phase.Data? && |f.accepted| >= f.total && pushOk)
      && (f.phase.Data? && |f.accepted| >= f.total ==>
            !g.open && forall p | 0 <= p < f.total :: g.cells[p] == Cell(f.accepted[p], f.install, 1))
  {
    hide After, RoundUp, Store, Start;
    var f := After(f0, events);
    assert Inv(f);
    if f.phase.Data? && f.off == f.total {
      assert forall p | 0 <= p < f.off :: Holds(f.cells[p], f.install, f.accepted[p]);
    }
  }

  // ---------------------------------------------------------------- a whole install

  lemma {:induction false} AfterConcat(f: Font, a: seq<Event>, b: seq<Event>)
    requires Inv(f)
    ensures After(f, a + b) == After(After(f, a), b)
    decreases |a|
  {
    hide Bounds, Contents, Next;
    if a == [] {
      assert a + b == b;
    } else if !f.rebooting {
      assert (a + b)[1..] == a[1..] + b;
      NextKeeps(f, a[0]);
      AfterConcat(Next(f, a[0]), a[1..], b);
    }
  }

  /** A turn without a message whose erase, if any, succeeds. */
  const QUIET := Turn(Irrelevant, Write(true, 0), true, false, true)

  function QuietTurns(n: nat): seq<Event> {
    if n == 0 then [] else [QUIET] + QuietTurns(n - 1)
  }

  lemma QuietTick(f: Font)
    requires Inv(f) && f.phase.Erase? && !f.rebooting
    ensures var g := Next(f, QUIET);
      && !g.rebooting && g.open && g.total == f.total && g.eraseLen == f.eraseLen
      && g.eraseOff == f.eraseOff + SECTOR && g.accepted == []
      && (if g.eraseOff >= f.eraseLen then TakesData(g) else g.phase.Erase?)
  {
  }

  /** The erase phase ends after one turn per sector. */
  lemma {:induction false} EraseEnds(f: Font, n: nat)
    requires Inv(f) && f.phase.Erase? && !f.rebooting && f.eraseOff + n * SECTOR == f.eraseLen
    ensures var g := After(f, QuietTurns(n));
      TakesData(g) && !g.rebooting && g.total == f.total && g.accepted == []
    decreases n
  {
    hide Next, Bounds, Contents;
    if n == 0 {
      EraseIsNotDone(f);
    } else {
      NextKeeps(f, QUIET);
      QuietTick(f);
      var g := Next(f, QUIET);
      assert QuietTurns(n)[0] == QUIET && QuietTurns(n)[1..] == QuietTurns(n - 1);
      if n > 1 {
        EraseEnds(g, n - 1);
      } else {
        assert QuietTurns(0) == [];
      }
    }
  }

  lemma EraseIsNotDone(f: Font)
    requires Inv(f) && f.phase.Erase?
    ensures f.eraseOff < f.eraseLen
  {
  }

  /** A frame of font data comes as it is, or in base64 inside a text message. */
  datatype Payload = Payload(bytes: seq<byte>, base64: bool)

  function DataTurn(p: Payload): Event {
    Turn(if p.base64 then Base64(Some(p.bytes)) else Binary(p.bytes), Write(true, 0), true, false, true)
  }

  function DataTurns(payloads: seq<Payload>): seq<Event> {
    if payloads == [] then [] else [DataTurn(payloads[0])] + DataTurns(payloads[1..])
  }

  function Joined(payloads: seq<Payload>): seq<byte> {
    if payloads == [] then [] else payloads[0].bytes + Joined(payloads[1..])
  }

  lemma DataIsAccepted(f: Font, payload: Payload)
    requires Inv(f) && TakesData(f) && !f.rebooting
    ensures var g := Next(f, DataTurn(payload));
      TakesData(g) && !g.rebooting && g.total == f.total && g.accepted == f.accepted + payload.bytes
  {
  }

  lemma {:induction false} DataPhase(f: Font, payloads: seq<Payload>)
    requires Inv(f) && TakesData(f) && !f.rebooting
    ensures var g := After(f, DataTurns(payloads));
      TakesData(g) && !g.rebooting && g.total == f.total && g.accepted == f.accepted + Joined(payloads)
    decreases |payloads|
  {
    hide Next, Bounds, Contents, TakesData, DataTurn;
    if payloads == [] {
    } else {
      NextKeeps(f, DataTurn(payloads[0]));
      DataIsAccepted(f, payloads[0]);
      var g := Next(f, DataTurn(payloads[0]));
      var turns := DataTurns(payloads);
      assert turns[0] == DataTurn(payloads[0]) && turns[1..] == DataTurns(payloads[1..]);
      DataPhase(g, payloads[1..]);
      assert After(f, turns) == After(g, DataTurns(payloads[1..]));
      assert f.accepted + payloads[0].bytes + Joined(payloads[1..]) == f.accepted + Joined(payloads);
    }
  }

  /** The announcing turn, which also erases the first sector. */
  function FirstTurn(size: nat): Event {
    Turn(FontStart(size, true), Write(true, 0), true, false, true)
  }

  /** One install from start to end: announce, erase the remaining sectors, send, finish. */
  function Install(size: nat, payloads: seq<Payload>): seq<Event>
    requires size > 0
  {
    [FirstTurn(size)] + QuietTurns((RoundUp(size) - 1) / SECTOR) + DataTurns(payloads)
    + [Turn(FontEnd, Write(true, 0), true, false, true)]
  }

  lemma SectorCount(size: nat)
    requires size > 0
    ensures SECTOR + (RoundUp(size) - 1) / SECTOR * SECTOR == RoundUp(size)
  {
    var k := (size + SECTOR - 1) / SECTOR;
    assert k >= 1 && RoundUp(size) == k * SECTOR;
    assert (k * SECTOR - 1) / SECTOR == k - 1;
  }

  lemma Announced(f: Font, size: nat)
    requires Inv(f) && !f.open && !f.rebooting && 0 < size <= FONT_MAX
    ensures var g := Next(f, FirstTurn(size));
      && !g.rebooting && g.total == size && g.eraseLen == RoundUp(size) && g.accepted == []
      && (if RoundUp(size) == SECTOR then TakesData(g) else g.phase.Erase? && g.eraseOff == SECTOR)
  {
    StartKeeps(f, size, true);
  }

  lemma Prepared(f: Font, size: nat)
    requires Inv(f) && !f.open && !f.rebooting && 0 < size <= FONT_MAX
    ensures var g := After(f, [FirstTurn(size)] + QuietTurns((RoundUp(size) - 1) / SECTOR));
      TakesData(g) && !g.rebooting && g.total == size && g.accepted == []
  {
    hide Next, Bounds, Contents, TakesData, FirstTurn, RoundUp;
    Announced(f, size);
    SectorCount(size);
    NextKeeps(f, FirstTurn(size));
    var g := Next(f, FirstTurn(size));
    var n := (RoundUp(size) - 1) / SECTOR;
    var turns := [FirstTurn(size)] + QuietTurns(n);
    assert turns[0] == FirstTurn(size) && turns[1..] == QuietTurns(n);
    if n > 0 {
      EraseEnds(g, n);
    }
  }

  /**
    An install that is announced on an idle installer, erased turn by turn, and sent in any payloads of
    at least `size` bytes together, ends in a reboot with exactly the sent bytes in flash.
   */
  lemma WholeInstall(f: Font, size: nat, payloads: seq<Payload>)
    requires Inv(f) && !f.open && !f.rebooting && 0 < size <= FONT_MAX
    requires |Joined(payloads)| >= size
    ensures var g := After(f, Install(size, payloads));
      g.rebooting && forall p | 0 <= p < size :: g.cells[p].value == Joined(payloads)[p]
  {
    hide Next, Bounds, Contents, RoundUp, FirstTurn, After;
    var a := [FirstTurn(size)] + QuietTurns((RoundUp(size) - 1) / SECTOR);
    var last := Turn(FontEnd, Write(true, 0), true, false, true);
    Prepared(f, size);
    var f1 := After(f, a);
    DataPhase(f1, payloads);
    var f2 := After(f1, DataTurns(payloads));
    AfterConcat(f, a, DataTurns(payloads));
    AfterConcat(f, a + DataTurns(payloads), [last]);
    Finishing(f2, last);
    assert [] + Joined(payloads) == Joined(payloads);
  }

  lemma Finishing(f: Font, last: Event)
    requires Inv(f) && TakesData(f) && !f.rebooting && |f.accepted| >= f.total
    requires last == Turn(FontEnd, Write(true, 0), true, false, true)
    ensures var g := After(f, [last]);
      g.rebooting && forall p | 0 <= p < f.total :: g.cells[p].value == f.accepted[p]
  {
    hide RoundUp, Store, Start;
    assert forall p | 0 <= p < f.off :: Holds(f.cells[p], f.install, f.accepted[p]);
    assert [last][1..] == [];
  }

  // ---------------------------------------------------------------- what goes wrong, and what follows

  /** A font_start opens an install exactly when none is open, its size fits and the partition opens. */
  lemma StartIsTakenIff(f: Font, size: int, opens: bool)
    requires Inv(f)
    ensures var (g, skip) := Handle(f, FontStart(size, opens), Write(true, 0));
      && !skip && (g.install > f.install <==> !f.open && 0 < size <= 0x40_0000 && opens)
      && (g.install > f.install ==> g.phase.Erase? && g.total == size && g.off == 0 && !g.failed && g.accepted == [])
      && (g.install <= f.install ==> g == f)
  {
    hide RoundUp;
  }

  /** In the data phase an install fails exactly on base64 that does not decode and on a write that fails. */
  lemma FailsIff(f: Font, m: Message, write: Write)
    requires Inv(f) && TakesData(f) && f.off < f.total
    ensures var g := Handle(f, m, write).0;
      g.failed <==> m == Base64(None) || ((m.Binary? || m.Base64?) && !write.ok)
  {
    hide RoundUp, Programmed;
  }

  /** A failed install that is short of data stays so, whatever is sent, until the connection ends. */
  lemma {:induction false} FailureIsForGood(f: Font, events: seq<Event>)
    requires Inv(f) && f.phase.Data? && f.failed && f.off < f.total && !f.rebooting
    requires forall e | e in events :: e.Turn? && e.pushOk
    ensures After(f, events) == f
    decreases |events|
  {
    if events == [] {
    } else {
      NextKeeps(f, events[0]);
      assert events[0] in events;
      FailedTurn(f, events[0]);
      hide Next, Bounds, Contents;
      FailureIsForGood(f, events[1..]);
    }
  }

  lemma FailedTurn(f: Font, e: Event)
    requires Inv(f) && f.phase.Data? && f.failed && f.off < f.total && e.Turn? && e.pushOk
    ensures Next(f, e) == f
  {
    hide RoundUp;
  }

  /** The connection ends, or the thread does because it cannot push the status. */
  predicate Abandons(e: Event) {
    e.Disconnect? || (e.Turn? && !e.pushOk && e.m != Base64(None))
  }

  lemma AbandonedIsIdle(f: Font, e: Event)
    requires Inv(f) && !f.rebooting && Abandons(e)
    ensures Inv(Next(f, e)) && !Next(f, e).open && !Next(f, e).rebooting
  {
    NextKeeps(f, e);
    hide Store, Start, Erased, RoundUp, Contents;
  }

  /**
    However an install was going when its connection ended, the next one can be done whole: after any run and
    one abandoning event it ends in a reboot with exactly its bytes in flash.
   */
  lemma InstallAfterAnything(f0: Font, events: seq<Event>, e: Event, size: nat, payloads: seq<Payload>)
    requires PowerUp(f0) && !After(f0, events).rebooting && Abandons(e)
    requires 0 < size <= FONT_MAX && |Joined(payloads)| >= size
    ensures var f := Next(After(f0, events), e);
      && Inv(f)
      && var g := After(f, Install(size, payloads));
      g.rebooting && forall p | 0 <= p < size :: g.cells[p].value == Joined(payloads)[p]
  {
    hide After, Next, Bounds, Contents, Install, Abandons;
    AbandonedIsIdle(After(f0, events), e);
    WholeInstall(Next(After(f0, events), e), size, payloads);
  }

  // ---------------------------------------------------------------- the thread's own form

  /** The installer as the WebSocket thread keeps it: `ft`, and the partition rewritten in place. */
  class Installer {
    const cells: array<Cell>
    var open: bool
    var total: nat
    var off: nat
    var eraseOff: nat
    var eraseLen: nat
    var phase: Phase
    var failed: bool
    var rebooting: bool
    var install: nat
    ghost var accepted: seq<byte>

    ghost predicate Valid()
      reads this, cells
    {
      cells.Length == FONT_MAX && Bounds(F())
    }

    ghost function F(): Font
      requires cells.Length == FONT_MAX
      reads this, cells
    {
      FontFields(open, total, off, eraseOff, eraseLen, phase, failed, rebooting, cells[..], install, accepted)
    }

    /** flash_area_erase of one sector. */
    method EraseSector(at: nat, stamp: nat)
      requires at + SECTOR <= cells.Length
      modifies cells
      ensures cells[..] == Erased(old(cells[..]), at, stamp)
    {
      var i := 0;
      while i < SECTOR
        invariant 0 <= i <= SECTOR
        invariant forall p | 0 <= p < cells.Length ::
          cells[p] == if at <= p < at + i then Cell(0xFF, stamp, 0) else old(cells[p])
      {
        cells[at + i] := Cell(0xFF, stamp, 0);
        i := i + 1;
      }
    }

    /** flash_area_write, as far as it gets. */
    method Program(at: nat, data: seq<byte>)
      requires at + |data| <= cells.Length
      modifies cells
      ensures cells[..] == Programmed(old(cells[..]), at, data)
    {
      hide Burn;
      var i := 0;
      while i < |data|
        invariant 0 <= i <= |data|
        invariant forall p | 0 <= p < cells.Length ::
          cells[p] == if at <= p < at + i then Burn(old(cells[p]), data[p - at]) else old(cells[p])
      {
        cells[at + i] := Burn(cells[at + i], data[i]);
        i := i + 1;
      }
    }

    /** The data branches of the message handling. */
    method StoreData(data: seq<byte>, write: Write)
      requires Valid()
      modifies this, cells
      ensures cells.Length == FONT_MAX && F() == Store(old(F()), data, write)
    {
      hide Programmed;
      var wlen := Min(|data|, total - off);
      if write.ok {
        Program(off, data[..wlen]);
        off := off + wlen;
        accepted := accepted + data;
      } else {
        Program(off, data[..Min(wlen, write.part)]);
        failed := true;
      }
    }

    /** font_reset. */
    method ResetFont()
      requires cells.Length == FONT_MAX
      modifies this
      ensures cells.Length == FONT_MAX && F() == Reset(old(F()))
    {
      open, phase, failed, off := false, Idle, false, 0;
    }

    /** The message half of a turn of ws_thread. */
    method HandleMessage(m: Message, write: Write) returns (skip: bool)
      requires Valid()
      modifies this, cells
      ensures cells.Length == FONT_MAX && (F(), skip) == Handle(old(F()), m, write)
    {
      hide Store, RoundUp, Bounds;
      skip := false;
      match m {
        case Base64(None) =>
          if phase.Data? && !failed {
            failed, skip := true, true;
          }
        case Base64(Some(data)) =>
          if phase.Data? && !failed {
            StoreData(data, write);
          }
        case Binary(data) =>
          if phase.Data? && !failed {
            StoreData(data, write);
          }
        case FontStart(size, opens) =>
          if size > 0 && size <= FONT_MAX && !open && opens {
            open, total, off, eraseOff, eraseLen := true, size, 0, 0, RoundUp(size);
            phase, failed, install, accepted := Erase, false, install + 1, [];
          }
        case FontEnd =>
          if phase.Data? && off == total {
            ResetFont();
            rebooting := true;
          }
        case Irrelevant =>
      }
    }

    /** The erase half: one sector per turn. */
    method EraseTick(eraseOk: bool, wiped: bool)
      requires Valid()
      modifies this, cells
      ensures cells.Length == FONT_MAX && F() == Tick(old(F()), eraseOk, wiped)
    {
      hide Erased, RoundUp;
      if !phase.Erase? || !open {
        return;
      }
      SectorFits(F());
      if !eraseOk {
        if wiped {
          EraseSector(eraseOff, 0);
        }
        failed, phase, open := true, Idle, false;
        return;
      }
      EraseSector(eraseOff, install);
      eraseOff := eraseOff + SECTOR;
      if eraseOff >= eraseLen {
        off, phase := 0, Data;
      }
    }

    /** The status push, and the end of the thread when it fails. */
    method PushStatus(pushOk: bool) returns (ended: bool)
      requires cells.Length == FONT_MAX
      modifies this
      ensures cells.Length == FONT_MAX && F() == Push(old(F()), pushOk) && ended == !pushOk
    {
      ended := !pushOk;
      if ended {
        ResetFont();
        rebooting := false;
      }
    }
  }

  lemma SectorFits(f: Font)
    requires Bounds(f) && f.phase.Erase? && f.open
    ensures f.eraseOff + SECTOR <= FONT_MAX
  {
    RoundUpIs(f.total);
    SectorsFit(f.eraseOff, f.eraseLen);
  }
}
