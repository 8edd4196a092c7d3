/** The two fixed-size buffers of a listening socket: its hardware pool and its backlog ring. */
module W5500Fifo {
  const NUM_SOCKETS := 8
  const LISTEN_KEEP := 2

  /** A slot of the socket table, and a hardware socket of the chip. */
  type Slot = x: int | 0 <= x < 8
  type Hw = x: int | 0 <= x < 8
  /** The int8_t that names a hardware socket, or -1. */
  type HwRef = x: int | -1 <= x < 8 witness -1

  /** lsn_hw and lsn_count. */
  datatype PoolFields = PoolFields(cells: seq<Hw>, count: nat)
  type Pool = p: PoolFields | |p.cells| == LISTEN_KEEP && p.count <= LISTEN_KEEP
    witness PoolFields([0, 0], 0)

  function Members(p: Pool): (r: seq<Hw>)
    ensures |r| == p.count
  {
    p.cells[..p.count]
  }

  function Join(p: Pool, h: Hw): Pool
    requires p.count < LISTEN_KEEP
  {
    PoolFields(p.cells[p.count := h], p.count + 1)
  }

  /** listener_pool_remove. */
  method PoolRemove(p: Pool, idx: nat) returns (q: Pool)
    requires idx < p.count
    ensures Members(q) == Members(p)[..idx] + Members(p)[idx + 1..]
    ensures q == Removed(p, idx)
  {
    var cells := p.cells;
    var i := idx;
    while i + 1 < p.count
      invariant idx <= i < p.count && |cells| == LISTEN_KEEP
      invariant cells[..i] == p.cells[..idx] + p.cells[idx + 1..i + 1]
      invariant cells[i..] == p.cells[i..]
    {
      cells := cells[i := cells[i + 1]];
      i := i + 1;
    }
    q := PoolFields(cells, p.count - 1);
    RemovedMembers(p, idx);
  }

  /** The compaction moves the entries behind `idx` one place down and leaves the last cell as it was. */
  function Removed(p: Pool, idx: nat): Pool
    requires idx < p.count
  {
    PoolFields(p.cells[..idx] + p.cells[idx + 1..p.count] + p.cells[p.count - 1..], p.count - 1)
  }

  lemma RemovedMembers(p: Pool, idx: nat)
    requires idx < p.count
    ensures Members(Removed(p, idx)) == Members(p)[..idx] + Members(p)[idx + 1..]
  {
  }

  lemma JoinMembers(p: Pool, h: Hw)
    requires p.count < LISTEN_KEEP
    ensures Members(Join(p, h)) == Members(p) + [h]
  {
  }

  /** pend, pend_head and pend_count. */
  datatype RingFields = RingFields(cells: seq<Slot>, head: nat, count: nat)
  type Ring = r: RingFields | |r.cells| == NUM_SOCKETS && r.head < NUM_SOCKETS && r.count <= NUM_SOCKETS
    witness RingFields([0, 0, 0, 0, 0, 0, 0, 0], 0, 0)

  const EMPTY_POOL: Pool := PoolFields([0, 0], 0)
  const EMPTY_RING: Ring := RingFields([0, 0, 0, 0, 0, 0, 0, 0], 0, 0)

  /** Where the i-th entry of the backlog lies. */
  function Cell(r: Ring, i: nat): Slot {
    (r.head + i) % NUM_SOCKETS
  }

  /** The backlog, oldest first. */
  function Backlog(r: Ring): (s: seq<Slot>)
    ensures |s| == r.count
  {
    seq(r.count, i requires 0 <= i < r.count => r.cells[Cell(r, i)])
  }

  function Push(r: Ring, c: Slot): Ring
    requires r.count < NUM_SOCKETS
  {
    RingFields(r.cells[Cell(r, r.count) := c], r.head, r.count + 1)
  }

  function Pop(r: Ring): (q: Ring)
    requires r.count > 0
    ensures q.count == r.count - 1
  {
    RingFields(r.cells, (r.head + 1) % NUM_SOCKETS, r.count - 1)
  }

  lemma CellsDiffer(r: Ring, i: nat, j: nat)
    requires i < j < NUM_SOCKETS
    ensures Cell(r, i) != Cell(r, j)
  {
  }

  /** The ring is a queue: pushing appends, and never overwrites a waiting entry. */
  lemma PushAppends(r: Ring, c: Slot)
    requires r.count < NUM_SOCKETS
    ensures Backlog(Push(r, c)) == Backlog(r) + [c]
  {
    var q := Push(r, c);
    forall i | 0 <= i < q.count
      ensures Backlog(q)[i] == if i < r.count then Backlog(r)[i] else c
    {
      assert Cell(q, i) == Cell(r, i);
      if i < r.count {
        CellsDiffer(r, i, r.count);
      }
    }
  }

  /** Popping takes the oldest entry, across the end of the buffer too. */
  lemma PopTakesOldest(r: Ring)
    requires r.count > 0
    ensures [r.cells[r.head]] + Backlog(Pop(r)) == Backlog(r)
  {
    assert Cell(r, 0) == r.head;
    forall i | 0 <= i < r.count - 1
      ensures Cell(Pop(r), i) == Cell(r, i + 1)
    {
    }
  }
}
