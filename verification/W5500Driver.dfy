/**
  The driver's own form: the socket table as an array rewritten in place under the mutex, loops included.
  Each method is proved to do to the table what its function in W5500Table says.
 */
module W5500Driver {
  import opened W5500Fifo
  import opened W5500Table
  import opened W5500Invariant
  import opened W5500Calls

  /** The pool scan over a script of status readings, one per turn: the table and the index reached. */
  function ScanPool(t: Table, l: Slot, idx: nat, readings: seq<Status>, tries: nat -> nat -> Try): (Table, nat)
    decreases |readings|
  {
    if idx >= t.socks[l].pool.count || readings == [] then (t, idx)
    else
      var (t1, next) := ScanTurn(t, l, idx, readings[0], tries(|readings|));
      ScanPool(t1, l, next, readings[1..], tries)
  }

  /**
    An established entry that cannot be promoted holds the scan for as long as it stays established: the
    worker reads the same register again and again, with the mutex held.
   */
  lemma {:induction false} ScanIsHeldUp(t: Table, l: Slot, idx: nat, readings: seq<Status>, tries: nat -> nat -> Try)
    requires t.socks[l].inUse && idx < t.socks[l].pool.count && PromotionRefused(t, l)
    requires forall k | 0 <= k < |readings| :: readings[k].Established?
    ensures ScanPool(t, l, idx, readings, tries) == (t, idx)
    decreases |readings|
  {
    if readings == [] {
    } else {
      ScanIsHeldUp(t, l, idx, readings[1..], tries);
    }
  }

  /** The slots a promotion could still take. */
  function FreeSlots(t: Table): set<Slot> {
    set i: Slot | !t.socks[i].inUse
  }

  /** The turns that a scan at this point still needs at most. */
  function ScanWork(t: Table, l: Slot, idx: nat): int {
    2 * |FreeSlots(t)| + t.socks[l].pool.count - idx
  }

  /** This turn meets an established entry that cannot be promoted. */
  predicate HeldUp(t: Table, l: Slot, sr: Status) {
    sr.Established? && PromotionRefused(t, l)
  }

  /** How many turns of the script do. */
  function HeldUpTurns(t: Table, l: Slot, idx: nat, readings: seq<Status>, tries: nat -> nat -> Try): nat
    decreases |readings|
  {
    if idx >= t.socks[l].pool.count || readings == [] then 0
    else
      var (t1, next) := ScanTurn(t, l, idx, readings[0], tries(|readings|));
      (if HeldUp(t, l, readings[0]) then 1 else 0) + HeldUpTurns(t1, l, next, readings[1..], tries)
  }

  /** A turn that is not held up brings the scan nearer to its end, refilled pool or not. */
  lemma TurnUsesWork(t: Table, l: Slot, idx: nat, sr: Status, tries: nat -> Try)
    requires t.socks[l].inUse && idx < t.socks[l].pool.count
    ensures var (t1, next) := ScanTurn(t, l, idx, sr, tries);
      && t1.socks[l].inUse
      && if HeldUp(t, l, sr) then t1 == t && next == idx else ScanWork(t1, l, next) < ScanWork(t, l, idx)
  {
    hide Fill;
    if sr.Established? && !PromotionRefused(t, l) {
      DetachedIs(t, l, idx);
      var c: Slot := FirstFree(t, 0);
      var d := Detached(t, l, idx);
      FillFrame(d, l, tries, 0);
      var r := Promote(t, l, idx, tries);
      assert FreeSlots(r) == FreeSlots(t) - {c};
    } else {
      assert FreeSlots(ScanTurn(t, l, idx, sr, tries).0) == FreeSlots(t);
    }
  }

  /**
    The scan ends: every script with at least ScanWork readings besides the held-up turns takes it past the
    last pool entry, although each promotion refills the pool.
   */
  lemma {:induction false} ScanEnds(t: Table, l: Slot, idx: nat, readings: seq<Status>, tries: nat -> nat -> Try)
    requires t.socks[l].inUse
    requires |readings| >= ScanWork(t, l, idx) + HeldUpTurns(t, l, idx, readings, tries)
    ensures var (r, k) := ScanPool(t, l, idx, readings, tries); k >= r.socks[l].pool.count
    decreases |readings|
  {
    hide ScanTurn;
    if idx >= t.socks[l].pool.count || readings == [] {
    } else {
      var (t1, next) := ScanTurn(t, l, idx, readings[0], tries(|readings|));
      TurnUsesWork(t, l, idx, readings[0], tries(|readings|));
      ScanEnds(t1, l, next, readings[1..], tries);
    }
  }

  class Driver {
    const socks: array<Sock>
    const fail: array<nat>
    var broken: set<Hw>
    /** The CLOSE commands issued, for the specification only. */
    ghost var shut: seq<Hw>

    ghost predicate Valid()
      reads this
    {
      socks.Length == NUM_SOCKETS && fail.Length == NUM_SOCKETS && (socks as object) != (fail as object)
    }

    ghost function T(): Table
      requires Valid()
      reads this, socks, fail
    {
      TableFields(socks[..], broken, fail[..], shut)
    }

    constructor ()
      ensures Valid() && T() == EMPTY_TABLE && fresh(socks) && fresh(fail)
    {
      socks := new Sock[NUM_SOCKETS](_ => FREE_SOCK);
      fail := new nat[NUM_SOCKETS](_ => 0);
      broken, shut := {}, [];
      new;
      assert socks[..] == EMPTY_TABLE.socks;
      assert fail[..] == EMPTY_TABLE.fail;
    }

    /** Rewriting one struct w5500_sock in place. */
    method Put(i: Slot, s: Sock)
      requires Valid()
      modifies socks
      ensures Valid() && T() == Set(old(T()), i, s)
    {
      socks[i] := s;
      assert socks[..] == old(socks[..])[i := s];
    }

    /** hw_close, as far as the driver's own state goes. */
    method HwClose(h: HwRef)
      requires Valid()
      modifies this
      ensures Valid() && T() == old(T()).(shut := if h >= 0 then old(T()).shut + [h] else old(T()).shut)
    {
      if h >= 0 {
        shut := shut + [h];
      }
    }

    /** sock_slot_alloc. */
    method SockSlotAlloc() returns (c: int)
      requires Valid()
      modifies socks
      ensures Valid() && c == FirstFree(old(T()), 0)
      ensures T() == if c < 0 then old(T()) else Set(old(T()), c, Fresh(old(T()).socks[c].gen))
    {
      var i := 0;
      while i < NUM_SOCKETS
        invariant 0 <= i <= NUM_SOCKETS && Valid() && T() == old(T())
        invariant FirstFree(T(), 0) == FirstFree(T(), i)
      {
        if !socks[i].inUse {
          Put(i, Fresh(socks[i].gen));
          return i;
        }
        i := i + 1;
      }
      return -1;
    }

    /** hw_alloc: mark what the sockets in use have, then take the first candidate that reads closed. */
    method HwAllocate(closed: set<Hw>) returns (h: HwRef)
      requires Valid()
      ensures h == HwAlloc(T(), closed)
    {
      var taken := MarkTaken();
      var k := 0;
      while k < NUM_SOCKETS
        invariant 0 <= k <= NUM_SOCKETS && FirstHw(T(), closed, 0) == FirstHw(T(), closed, k)
      {
        if !taken[k] && k !in broken && k in closed {
          return k;
        }
        k := k + 1;
      }
      return -1;
    }

    method MarkTaken() returns (taken: seq<bool>)
      requires Valid()
      ensures |taken| == NUM_SOCKETS && forall h: Hw :: taken[h] <==> Taken(T(), h)
    {
      taken := seq(NUM_SOCKETS, _ => false);
      var i := 0;
      while i < NUM_SOCKETS
        invariant 0 <= i <= NUM_SOCKETS && |taken| == NUM_SOCKETS
        invariant forall h: Hw :: taken[h] <==> exists j: Slot :: j < i && socks[j].inUse && socks[j].hw == h
      {
        var hw := socks[i].hw;
        if socks[i].inUse && hw >= 0 {
          taken := taken[hw := true];
        }
        i := i + 1;
      }
      assert forall j: Slot :: T().socks[j] == socks[j];
    }

    /** sock_hold. */
    method SockHold(i: Slot) returns (held: bool)
      requires Valid()
      modifies socks
      ensures Valid() && held == Held(old(T()).socks[i])
      ensures T() == if held then Set(old(T()), i, Hold(old(T()).socks[i])) else old(T())
    {
      held := socks[i].inUse && !socks[i].zombie;
      if held {
        Put(i, socks[i].(users := socks[i].users + 1));
      }
    }

    /** sock_release. */
    method SockRelease(i: Slot)
      requires Valid() && T().socks[i].users > 0
      modifies socks
      ensures Valid() && T() == Set(old(T()), i, Release(old(T()).socks[i]))
    {
      var s := socks[i].(users := socks[i].users - 1);
      if s.zombie && s.users == 0 {
        s := s.(inUse := false);
      }
      Put(i, s);
    }

    /** The failure count of a hardware socket, and the black-list behind it. */
    method CountFailure(l: Slot, h: Hw)
      requires Valid() && T().socks[l].pool.count < LISTEN_KEEP
      modifies this, fail
      ensures Valid() && T() == FillOnce(old(T()), l, h, false)
    {
      fail[h] := fail[h] + 1;
      if fail[h] >= 3 {
        broken := broken + {h};
      }
      assert fail[..] == old(fail[..])[h := fail[h]];
    }

    method JoinListener(l: Slot, h: Hw)
      requires Valid() && T().socks[l].pool.count < LISTEN_KEEP
      modifies socks, fail
      ensures Valid() && T() == FillOnce(old(T()), l, h, true)
    {
      fail[h] := 0;
      assert fail[..] == old(fail[..])[h := 0];
      Put(l, socks[l].(pool := Join(socks[l].pool, h)));
    }

    /** listener_fill. */
    method ListenerFill(l: Slot, tries: nat -> Try)
      requires Valid()
      modifies this, socks, fail
      ensures Valid() && T() == Fill(old(T()), l, tries, 0)
    {
      hide HwAlloc, FillOnce;
      var k := 0;
      while socks[l].pool.count < LISTEN_KEEP && k < NUM_SOCKETS
        invariant 0 <= k <= NUM_SOCKETS && Valid()
        invariant Fill(old(T()), l, tries, 0) == Fill(T(), l, tries, k)
        decreases NUM_SOCKETS - k
      {
        var h := HwAllocate(tries(k).closed);
        if h < 0 {
          break;
        }
        if tries(k).opens {
          JoinListener(l, h);
        } else {
          CountFailure(l, h);
        }
        k := k + 1;
      }
    }

    /** listener_pool_remove. */
    method ListenerPoolRemove(l: Slot, idx: nat)
      requires Valid() && idx < T().socks[l].pool.count
      modifies socks
      ensures Valid() && T() == DropFromPool(old(T()), l, idx)
    {
      var pool := PoolRemove(socks[l].pool, idx);
      Put(l, socks[l].(pool := pool));
    }

    /** listener_promote. */
    method ListenerPromote(l: Slot, idx: nat, tries: nat -> Try)
      requires Valid() && T().socks[l].inUse && idx < T().socks[l].pool.count
      modifies this, socks, fail
      ensures Valid() && T() == Promote(old(T()), l, idx, tries)
    {
      hide Fill, Removed, FirstFree;
      var hw := socks[l].pool.cells[idx];
      if socks[l].pend.count >= NUM_SOCKETS {
        return;
      }
      FirstFreeIs(T(), 0);
      var c := SockSlotAlloc();
      if c < 0 {
        return;
      }
      Put(c, socks[c].(hw := hw, stream := socks[l].stream));
      ghost var t0 := old(T());
      SetTwice(t0, c, Fresh(t0.socks[c].gen), Child(t0, l, c, hw));
      ListenerPoolRemove(l, idx);
      FillFrame(T(), l, tries, 0);
      ListenerFill(l, tries);
      assert T() == Fill(Detached(t0, l, idx), l, tries, 0);
      Put(l, socks[l].(pend := Push(socks[l].pend, c)));
    }

    /**
      One listener's turn in w5500_service, over a script of status readings: the pool scan and the
      refill. `finished` tells whether the scan came to its end within the script.
     */
    method ServiceListener(l: Slot, readings: seq<Status>, tries: nat -> nat -> Try, refill: nat -> Try)
      returns (finished: bool)
      requires Valid() && T().socks[l].inUse
      modifies this, socks, fail
      ensures Valid()
      ensures var (t, idx) := ScanPool(old(T()), l, 0, readings, tries);
        && (finished <==> idx >= t.socks[l].pool.count)
        && T() == if finished then Fill(t, l, refill, 0) else t
      ensures |readings| >= ScanWork(old(T()), l, 0) + HeldUpTurns(old(T()), l, 0, readings, tries) ==> finished
    {
      hide ScanTurn, Fill, ScanWork, HeldUpTurns;
      if |readings| >= ScanWork(T(), l, 0) + HeldUpTurns(T(), l, 0, readings, tries) {
        ScanEnds(T(), l, 0, readings, tries);
      }
      var i: nat, k: nat := 0, 0;
      assert readings[0..] == readings;
      while i < socks[l].pool.count && k < |readings|
        invariant Valid() && 0 <= k <= |readings| && T().socks[l].inUse
        invariant ScanPool(old(T()), l, 0, readings, tries) == ScanPool(T(), l, i, readings[k..], tries)
        decreases |readings| - k
      {
        ScanKeepsInUse(T(), l, i, readings[k], tries(|readings[k..]|));
        assert readings[k..][1..] == readings[k + 1..];
        i := ServiceEntry(l, i, readings[k], tries(|readings[k..]|));
        k := k + 1;
      }
      finished := i >= socks[l].pool.count;
      if finished {
        ListenerFill(l, refill);
      }
    }

    /** The body of the pool scan. */
    method ServiceEntry(l: Slot, idx: nat, sr: Status, tries: nat -> Try) returns (next: nat)
      requires Valid() && T().socks[l].inUse && idx < T().socks[l].pool.count
      modifies this, socks, fail
      ensures Valid() && (T(), next) == ScanTurn(old(T()), l, idx, sr, tries)
    {
      hide Promote, DropFromPool;
      next := idx;
      if sr.Established? {
        ListenerPromote(l, idx, tries);
      } else if !sr.Listening? && !sr.Init? && !sr.SynReceived? {
        HwClose(socks[l].pool.cells[idx]);
        ghost var t := T();
        ListenerPoolRemove(l, idx);
        DropKeepsLog(old(T()), t, l, idx);
      } else {
        next := idx + 1;
      }
    }

    /** Marking a pending connection free. */
    method Discard(c: Slot, detach: bool)
      requires Valid()
      modifies this, socks
      ensures Valid()
      ensures var s := old(T()).socks[c];
        T() == Set(old(T()), c, if detach then s.(hw := -1, inUse := false) else Freed(s))
               .(shut := if s.hw >= 0 then old(T()).shut + [s.hw] else old(T()).shut)
    {
      HwClose(socks[c].hw);
      Put(c, socks[c].(inUse := false, hw := if detach then -1 else socks[c].hw));
    }

    /** The reaping loop of w5500_accept. */
    method ReapPending(l: Slot, closed: set<Hw>) returns (c: int)
      requires Valid()
      modifies this, socks
      ensures Valid() && (T(), c) == Reap(old(T()), l, closed)
    {
      hide Pop;
      while socks[l].pend.count > 0
        invariant Valid() && Reap(old(T()), l, closed) == Reap(T(), l, closed)
        decreases socks[l].pend.count
      {
        var ring := socks[l].pend;
        var pc := ring.cells[ring.head];
        Put(l, socks[l].(pend := Pop(ring)));
        if socks[pc].hw >= 0 && socks[pc].hw !in closed {
          return pc;
        }
        Discard(pc, false);
      }
      return -1;
    }

    /** The drain at the end of w5500_close. */
    method DrainPending(i: Slot)
      requires Valid()
      modifies this, socks
      ensures Valid() && T() == DrainBacklog(old(T()), i)
    {
      hide Pop;
      while socks[i].pend.count > 0
        invariant Valid() && DrainBacklog(old(T()), i) == DrainBacklog(T(), i)
        decreases socks[i].pend.count
      {
        var ring := socks[i].pend;
        var pc := ring.cells[ring.head];
        Put(i, socks[i].(pend := Pop(ring)));
        Discard(pc, true);
      }
    }

    /** The CLOSE commands for a listener's pool. */
    method ClosePool(i: Slot)
      requires Valid()
      modifies this
      ensures Valid() && T() == old(T()).(shut := old(T()).shut + Members(old(T()).socks[i].pool))
    {
      var k := 0;
      while k < socks[i].pool.count
        invariant 0 <= k <= socks[i].pool.count && Valid()
        invariant broken == old(broken) && shut == old(shut) + Members(socks[i].pool)[..k]
      {
        HwClose(socks[i].pool.cells[k]);
        k := k + 1;
      }
    }

    /** w5500_close. */
    method CloseSocket(i: Slot)
      requires Valid()
      modifies this, socks
      ensures Valid() && T() == Close(old(T()), i)
    {
      hide DrainBacklog, Members;
      if socks[i].zombie {
        return;
      }
      ClosePool(i);
      HwClose(socks[i].hw);
      Put(i, socks[i].(zombie := true, listening := false, pool := socks[i].pool.(count := 0), hw := -1));
      BuriedIs(old(T()), T(), i);
      DrainPending(i);
      if socks[i].users == 0 {
        Put(i, socks[i].(inUse := false));
      }
    }

    /** accept()'s search of the pool for a completed handshake. */
    method FindEstablished(l: Slot, established: set<Hw>) returns (idx: int)
      requires Valid()
      ensures idx == FirstEstablished(T().socks[l].pool, established, 0)
    {
      var k := 0;
      while k < socks[l].pool.count
        invariant 0 <= k <= socks[l].pool.count
        invariant FirstEstablished(T().socks[l].pool, established, 0)
                  == FirstEstablished(T().socks[l].pool, established, k)
      {
        if socks[l].pool.cells[k] in established {
          return k;
        }
        k := k + 1;
      }
      return -1;
    }

    /** The body of accept()'s loop and its exits: the accepted slot or -1, and whether it is done. */
    method AcceptOnce(l: Slot, turn: Turn) returns (accepted: int, done: bool)
      requires Valid() && TableOk(T()) && Open(T(), l)
      modifies this, socks, fail
      ensures Valid() && (T(), accepted, done) == AcceptTurn(old(T()), l, turn)
    {
      hide TableOk, Reap, Promote, Fill, FirstEstablished, Claimed, Fine;
      ReapFine(T(), l, turn.closed);
      var c := ReapPending(l, turn.closed);
      var idx := FindEstablished(l, turn.established);
      if idx >= 0 {
        ListenerPromote(l, idx, turn.promoting);
      }
      if c < 0 {
        ListenerFill(l, turn.filling);
      }
      accepted, done := -1, true;
      if socks[l].zombie {
        return;
      }
      if c >= 0 {
        if turn.fdAvailable {
          Put(c, socks[c].(hasFd := true));
          accepted := c;
        } else {
          HwClose(socks[c].hw);
          Put(c, socks[c].(hw := -1, inUse := false));
        }
        return;
      }
      done := turn.nonblock;
    }

    method DetachHw(i: Slot)
      requires Valid()
      modifies this, socks
      ensures Valid() && T() == DropHw(old(T()), i)
    {
      HwClose(socks[i].hw);
      Put(i, socks[i].(hw := -1));
    }

    /** hw_alloc and udp_open, as bind() and sendto() run them. */
    method OpenUdp(i: Slot, closed: set<Hw>, opens: bool, port: nat)
      requires Valid()
      modifies socks
      ensures Valid() && T() == UdpOpen(old(T()), i, closed, opens, port)
    {
      hide HwAlloc;
      var h := HwAllocate(closed);
      if h < 0 || !opens {
        Put(i, socks[i].(hw := -1));
      } else {
        Put(i, socks[i].(hw := h, port := port));
      }
    }

    /** w5500_bind. */
    method BindSocket(i: Slot, port: nat, closed: set<Hw>, opens: bool, ephemeral: nat)
      requires Valid()
      modifies this, socks
      ensures Valid() && T() == Bind(old(T()), i, port, closed, opens, ephemeral)
    {
      hide HwAlloc;
      if socks[i].stream {
        Put(i, socks[i].(port := port));
        return;
      }
      if socks[i].hw >= 0 && port != socks[i].port {
        DetachHw(i);
      }
      if socks[i].hw < 0 {
        var h := HwAllocate(closed);
        if h >= 0 {
          Put(i, socks[i].(port := port));
          OpenUdp(i, closed, opens, if port != 0 then port else ephemeral);
        }
      }
    }

    /** w5500_connect up to its wait. */
    method ConnectSocket(i: Slot, closed: set<Hw>, opens: bool, connects: bool) returns (waits: bool)
      requires Valid()
      modifies this, socks
      ensures Valid() && (T(), waits) == Connect(old(T()), i, closed, opens, connects)
    {
      hide HwAlloc;
      waits := false;
      if socks[i].hw >= 0 {
        return;
      }
      var h := HwAllocate(closed);
      if h < 0 || !opens {
        return;
      }
      if !connects {
        HwClose(h);
        return;
      }
      Put(i, socks[i].(hw := h));
      waits := true;
    }

    /** socket(): a slot with a descriptor, or -1 when the table is full. */
    method CreateSocket(stream: bool) returns (c: int)
      requires Valid()
      modifies socks
      ensures Valid() && T() == Create(old(T()), stream)
      ensures c >= 0 <==> exists i: Slot :: !old(T()).socks[i].inUse
    {
      FirstFreeIs(T(), 0);
      c := SockSlotAlloc();
      if c >= 0 {
        Put(c, socks[c].(stream := stream, hasFd := true));
        SetTwice(old(T()), c, Fresh(old(T()).socks[c].gen), socks[c]);
      }
    }

    /** One look of connect() at the chip: in its loop, or after the wait timed out. */
    method LookAtChip(i: Slot, sr: Status, timedOut: bool, nonblock: bool) returns (looked: Looked)
      requires Valid()
      modifies socks
      ensures Valid() && (T(), looked) == ConnectLook(old(T()), i, sr, timedOut, nonblock)
    {
      if !timedOut && (socks[i].zombie || socks[i].hw < 0) {
        return Returns(false);
      }
      if sr.Established? {
        return Returns(true);
      }
      if sr.Closed? {
        Put(i, socks[i].(hw := -1));
        return Returns(false);
      }
      looked := if timedOut || nonblock then Returns(false) else Sleeps;
    }

    /** w5500_shutdown of a direction that includes writing. */
    method ShutdownSocket(i: Slot)
      requires Valid()
      modifies this, socks
      ensures Valid() && T() == Shutdown(old(T()), i) && T().socks[i].hw == -1
    {
      if socks[i].hw >= 0 {
        DetachHw(i);
      }
    }

    /** w5500_listen, once the socket is held. */
    method ListenSocket(i: Slot, tries: nat -> Try)
      requires Valid()
      modifies this, socks, fail
      ensures Valid() && T() == Listen(old(T()), i, tries)
    {
      hide Fill;
      if !socks[i].stream || socks[i].hw >= 0 {
        return;
      }
      Put(i, socks[i].(listening := true));
      ListenerFill(i, tries);
    }
  }

  lemma ScanKeepsInUse(t: Table, l: Slot, idx: nat, sr: Status, tries: nat -> Try)
    requires t.socks[l].inUse && idx < t.socks[l].pool.count
    ensures ScanTurn(t, l, idx, sr, tries).0.socks[l].inUse
  {
    hide Fill;
    if sr.Established? && !PromotionRefused(t, l) {
      DetachedIs(t, l, idx);
      FillFrame(Detached(t, l, idx), l, tries, 0);
    }
  }

  lemma SetTwice(t: Table, i: Slot, a: Sock, b: Sock)
    ensures Set(Set(t, i, a), i, b) == Set(t, i, b)
  {
    assert t.socks[i := a][i := b] == t.socks[i := b];
  }

  lemma DropKeepsLog(t: Table, u: Table, l: Slot, idx: nat)
    requires idx < t.socks[l].pool.count && u == t.(shut := u.shut)
    ensures DropFromPool(u, l, idx) == DropFromPool(t, l, idx).(shut := u.shut)
  {
  }

  lemma BuriedIs(t: Table, u: Table, i: Slot)
    requires var s := t.socks[i];
      && u.socks == Set(t, i, s.(zombie := true, listening := false, pool := s.pool.(count := 0), hw := -1)).socks
      && u.broken == t.broken && u.fail == t.fail
      && u.shut == (if s.hw >= 0 then (t.shut + Members(s.pool)) + [s.hw] else t.shut + Members(s.pool))
    ensures u == Buried(t, i)
  {
  }
}
