/**
  The socket table of the W5500 driver: what each mutex-held piece of code does to it. What the chip
  answers while the mutex is held (status registers, command results) are parameters.
 */
module W5500Table {
  import opened W5500Fifo

  /** One struct w5500_sock. `gen` counts how often the slot was handed out. */
  datatype Sock = Sock(
    inUse: bool, hw: HwRef, stream: bool, port: nat, listening: bool, pool: Pool,
    hasFd: bool, users: nat, zombie: bool, pend: Ring, gen: nat)

  /** The table, the black-list of dead hardware sockets, and the CLOSE commands issued so far. */
  datatype TableFields = TableFields(socks: seq<Sock>, broken: set<Hw>, fail: seq<nat>, shut: seq<Hw>)
  type Table = t: TableFields | |t.socks| == NUM_SOCKETS && |t.fail| == NUM_SOCKETS
    witness EMPTY_TABLE

  const FREE_SOCK := Sock(false, -1, false, 0, false, EMPTY_POOL, false, 0, false, EMPTY_RING, 0)
  const EMPTY_TABLE := TableFields(
    [FREE_SOCK, FREE_SOCK, FREE_SOCK, FREE_SOCK, FREE_SOCK, FREE_SOCK, FREE_SOCK, FREE_SOCK],
    {}, [0, 0, 0, 0, 0, 0, 0, 0], [])

  /** The readings of a status register the driver tells apart. */
  datatype Status = Closed | Init | Listening | SynReceived | Established | CloseWait | Other

  function Set(t: Table, i: Slot, s: Sock): (r: Table)
    ensures forall j: Slot :: r.socks[j] == if j == i then s else t.socks[j]
    ensures r == t.(socks := r.socks)
  {
    t.(socks := t.socks[i := s])
  }

  // ---------------------------------------------------------------- allocation

  /** sock_slot_alloc: the first free slot, wiped. */
  function FirstFree(t: Table, i: nat): (r: int)
    requires i <= NUM_SOCKETS
    ensures -1 <= r < NUM_SOCKETS
    decreases NUM_SOCKETS - i
  {
    if i == NUM_SOCKETS then -1 else if !t.socks[i].inUse then i else FirstFree(t, i + 1)
  }

  function Fresh(gen: nat): Sock {
    FREE_SOCK.(inUse := true, gen := gen + 1)
  }

  predicate Taken(t: Table, h: Hw) {
    exists i: Slot :: t.socks[i].inUse && t.socks[i].hw == h
  }

  /** hw_alloc, from candidate h on; `closed` are the hardware sockets whose SR reads SOCK_CLOSED. */
  function FirstHw(t: Table, closed: set<Hw>, h: nat): (r: HwRef)
    requires h <= NUM_SOCKETS
    decreases NUM_SOCKETS - h
  {
    if h == NUM_SOCKETS then -1
    else if !Taken(t, h) && h !in t.broken && h in closed then h
    else FirstHw(t, closed, h + 1)
  }

  function HwAlloc(t: Table, closed: set<Hw>): HwRef {
    FirstHw(t, closed, 0)
  }

  // ---------------------------------------------------------------- lifetime

  predicate Held(s: Sock) {
    s.inUse && !s.zombie
  }

  /** sock_hold, when it succeeds. */
  function Hold(s: Sock): Sock {
    s.(users := s.users + 1)
  }

  /** sock_release. */
  function Release(s: Sock): Sock
    requires s.users > 0
  {
    s.(users := s.users - 1, inUse := s.inUse && !(s.zombie && s.users == 1))
  }

  // ---------------------------------------------------------------- the listener's pool

  /** What the chip does in one attempt to arm a listener: SR readings of the scan, LISTEN reached or not. */
  datatype Try = Try(closed: set<Hw>, opens: bool)

  function FillOnce(t: Table, l: Slot, h: Hw, opens: bool): Table
    requires t.socks[l].pool.count < LISTEN_KEEP
  {
    if !opens then
      var n := t.fail[h] + 1;
      t.(fail := t.fail[h := n], broken := if n >= 3 then t.broken + {h} else t.broken)
    else
      Set(t.(fail := t.fail[h := 0]), l, t.socks[l].(pool := Join(t.socks[l].pool, h)))
  }

  /** listener_fill. */
  function Fill(t: Table, l: Slot, tries: nat -> Try, k: nat): (r: Table)
    decreases NUM_SOCKETS - k
  {
    if t.socks[l].pool.count >= LISTEN_KEEP || k >= NUM_SOCKETS then t
    else
      var h := HwAlloc(t, tries(k).closed);
      if h < 0 then t else Fill(FillOnce(t, l, h, tries(k).opens), l, tries, k + 1)
  }

  function DropFromPool(t: Table, l: Slot, idx: nat): Table
    requires idx < t.socks[l].pool.count
  {
    Set(t, l, t.socks[l].(pool := Removed(t.socks[l].pool, idx)))
  }

  predicate PromotionRefused(t: Table, l: Slot) {
    t.socks[l].pend.count >= NUM_SOCKETS || FirstFree(t, 0) < 0
  }

  /** The slot a promoted connection starts in: it inherits the listener's type and its hardware socket. */
  function Child(t: Table, l: Slot, c: Slot, h: Hw): Sock {
    Fresh(t.socks[c].gen).(hw := h, stream := t.socks[l].stream)
  }

  function Queue(t: Table, l: Slot, c: Slot): Table {
    if t.socks[l].pend.count < NUM_SOCKETS then
      Set(t, l, t.socks[l].(pend := Push(t.socks[l].pend, c)))
    else t
  }

  /** The table between sock_slot_alloc and the refill in listener_promote. */
  function Detached(t: Table, l: Slot, idx: nat): Table
    requires idx < t.socks[l].pool.count && FirstFree(t, 0) >= 0
  {
    var c := FirstFree(t, 0);
    var t1 := Set(t, c, Child(t, l, c, t.socks[l].pool.cells[idx]));
    if idx < t1.socks[l].pool.count then DropFromPool(t1, l, idx) else t1
  }

  /** listener_promote. */
  function Promote(t: Table, l: Slot, idx: nat, tries: nat -> Try): Table
    requires idx < t.socks[l].pool.count
  {
    if PromotionRefused(t, l) then t
    else Queue(Fill(Detached(t, l, idx), l, tries, 0), l, FirstFree(t, 0))
  }

  /** One turn of the pool scan in w5500_service; the second result is the next index. */
  function ScanTurn(t: Table, l: Slot, idx: nat, sr: Status, tries: nat -> Try): (Table, nat)
    requires idx < t.socks[l].pool.count
  {
    if sr.Established? then (Promote(t, l, idx, tries), idx)
    else if !sr.Listening? && !sr.Init? && !sr.SynReceived? then
      (DropFromPool(t, l, idx).(shut := t.shut + [t.socks[l].pool.cells[idx]]), idx)
    else (t, idx + 1)
  }

  // ---------------------------------------------------------------- accept()

  function Freed(s: Sock): Sock {
    s.(inUse := false)
  }

  /** accept()'s reaping loop: the oldest pending connection that is not closed, or -1. */
  function Reap(t: Table, l: Slot, closed: set<Hw>): (Table, int)
    decreases t.socks[l].pend.count
  {
    var ring := t.socks[l].pend;
    if ring.count == 0 then (t, -1)
    else
      var c := ring.cells[ring.head];
      var t1 := Set(t, l, t.socks[l].(pend := Pop(ring)));
      var hw := t1.socks[c].hw;
      if hw >= 0 && hw !in closed then (t1, c)
      else
        Reap(Set(t1, c, Freed(t1.socks[c])).(shut := if hw >= 0 then t.shut + [hw] else t.shut), l, closed)
  }

  /** The first pool entry reading SOCK_ESTABLISHED, from idx on. */
  function FirstEstablished(p: Pool, established: set<Hw>, idx: nat): (r: int)
    ensures -1 <= r < p.count
    decreases p.count - idx
  {
    if idx >= p.count then -1
    else if p.cells[idx] in established then idx
    else FirstEstablished(p, established, idx + 1)
  }

  /** What one turn of accept()'s loop meets on the chip and in the descriptor table. */
  datatype Turn = Turn(closed: set<Hw>, established: set<Hw>, promoting: nat -> Try, filling: nat -> Try,
                       fdAvailable: bool, nonblock: bool)

  /** The inline promotion: at most one pool entry per turn. */
  function PromoteInline(t: Table, l: Slot, turn: Turn): Table {
    var idx := FirstEstablished(t.socks[l].pool, turn.established, 0);
    if idx >= 0 then Promote(t, l, idx, turn.promoting) else t
  }

  /** The pool is re-armed when there was nothing to accept, before the zombie test. */
  function Rearm(t: Table, l: Slot, c: int, turn: Turn): Table {
    if c < 0 then Fill(t, l, turn.filling, 0) else t
  }

  /** The connection gets its descriptor, or is closed when there is none. */
  function Deliver(t: Table, c: Slot, fdAvailable: bool): Table {
    var cs := t.socks[c];
    if fdAvailable then Set(t, c, cs.(hasFd := true))
    else Set(t, c, cs.(hw := -1, inUse := false)).(shut := if cs.hw >= 0 then t.shut + [cs.hw] else t.shut)
  }

  /** One turn: the table, the accepted slot or -1, and whether accept() is done. */
  function AcceptTurn(t: Table, l: Slot, turn: Turn): (Table, int, bool) {
    var (t1, c) := Reap(t, l, turn.closed);
    var t3 := Rearm(PromoteInline(t1, l, turn), l, c, turn);
    if t3.socks[l].zombie then (t3, -1, true)
    else if 0 <= c < NUM_SOCKETS then
      (Deliver(t3, c, turn.fdAvailable), if turn.fdAvailable then c else -1, true)
    else (t3, -1, turn.nonblock)
  }

  // ---------------------------------------------------------------- bind(), connect(), listen()

  /** Bind a UDP hardware socket; `port` is the bound or the ephemeral one. */
  function UdpOpen(t: Table, i: Slot, closed: set<Hw>, opens: bool, port: nat): Table {
    var h := HwAlloc(t, closed);
    if h < 0 || !opens then Set(t, i, t.socks[i].(hw := -1))
    else Set(t, i, t.socks[i].(hw := h, port := port))
  }

  function DropHw(t: Table, i: Slot): Table {
    var hw := t.socks[i].hw;
    Set(t, i, t.socks[i].(hw := -1)).(shut := if hw >= 0 then t.shut + [hw] else t.shut)
  }

  /** w5500_bind; port 0 leaves the choice to the driver (`ephemeral`). */
  function Bind(t: Table, i: Slot, port: nat, closed: set<Hw>, opens: bool, ephemeral: nat): Table {
    var s := t.socks[i];
    if s.stream then Set(t, i, s.(port := port))
    else
      var t1 := if s.hw >= 0 && port != s.port then DropHw(t, i) else t;
      if t1.socks[i].hw >= 0 then t1
      else if HwAlloc(t1, closed) < 0 then t1
      else
        UdpOpen(Set(t1, i, t1.socks[i].(port := port)), i, closed, opens, if port != 0 then port else ephemeral)
  }

  /** The part of connect() before its wait, for a stream; the flag says that the wait is entered. */
  function Connect(t: Table, i: Slot, closed: set<Hw>, opens: bool, connects: bool): (Table, bool) {
    if t.socks[i].hw >= 0 then (t, false)
    else
      var h := HwAlloc(t, closed);
      if h < 0 then (t, false)
      else if !opens then (t, false)
      else if !connects then (t.(shut := t.shut + [h]), false)
      else (Set(t, i, t.socks[i].(hw := h)), true)
  }

  /** How a look of connect() ends: it sleeps on, or returns 0 or -1. */
  datatype Looked = Sleeps | Returns(ok: bool)

  /** One look of connect() at the chip, in its loop or after its timeout. */
  function ConnectLook(t: Table, i: Slot, sr: Status, timedOut: bool, nonblock: bool): (Table, Looked) {
    var s := t.socks[i];
    if !timedOut && (s.zombie || s.hw < 0) then (t, Returns(false))
    else if sr.Established? then (t, Returns(true))
    else if sr.Closed? then (Set(t, i, s.(hw := -1)), Returns(false))
    else (t, if timedOut || nonblock then Returns(false) else Sleeps)
  }

  function Listen(t: Table, i: Slot, tries: nat -> Try): Table {
    if !t.socks[i].stream || t.socks[i].hw >= 0 then t
    else Fill(Set(t, i, t.socks[i].(listening := true)), i, tries, 0)
  }

  // ---------------------------------------------------------------- close(), shutdown()

  /** close() takes the connections nobody accepted with it. */
  function DrainBacklog(t: Table, i: Slot): Table
    decreases t.socks[i].pend.count
  {
    var ring := t.socks[i].pend;
    if ring.count == 0 then t
    else
      var c := ring.cells[ring.head];
      var t1 := Set(t, i, t.socks[i].(pend := Pop(ring)));
      var pc := t1.socks[c];
      DrainBacklog(
        Set(t1, c, pc.(hw := -1, inUse := false)).(shut := if pc.hw >= 0 then t.shut + [pc.hw] else t.shut), i)
  }

  /** close() up to the drain: the socket is a zombie without transport. */
  function Buried(t: Table, i: Slot): Table {
    var s := t.socks[i];
    Set(t, i, s.(zombie := true, listening := false, pool := s.pool.(count := 0), hw := -1))
    .(shut := t.shut + Members(s.pool) + (if s.hw >= 0 then [s.hw] else []))
  }

  /** w5500_close. */
  function Close(t: Table, i: Slot): Table {
    if t.socks[i].zombie then t
    else
      var t1 := DrainBacklog(Buried(t, i), i);
      if t1.socks[i].users == 0 then Set(t1, i, Freed(t1.socks[i])) else t1
  }

  /** w5500_shutdown, of a direction that includes writing. */
  function Shutdown(t: Table, i: Slot): Table {
    if t.socks[i].hw >= 0 then DropHw(t, i) else t
  }
}
