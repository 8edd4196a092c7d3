/**
  What every mutex-held piece of the W5500 driver keeps: no hardware socket has two holders, and a
  connection waiting in a backlog is in use, has no descriptor, and waits in that backlog only.
 */
module W5500Invariant {
  import opened W5500Fifo
  import opened W5500Table

  predicate NoDup<T(==)>(s: seq<T>) {
    forall i, j | 0 <= i < j < |s| :: s[i] != s[j]
  }

  predicate Holds(s: Sock, h: Hw) {
    s.inUse && (s.hw == h || h in Members(s.pool))
  }

  predicate Waits(s: Sock, c: Slot) {
    s.inUse && c in Backlog(s.pend)
  }

  /** In use, but not yet (or never) known to the application. */
  predicate Awaiting(s: Sock) {
    s.inUse && !s.hasFd
  }

  predicate LocalOk(s: Sock) {
    && (!s.inUse ==> s.users == 0)
    && (s.inUse ==>
          && NoDup(Members(s.pool))
          && (forall h: Hw | h == s.hw :: h !in Members(s.pool))
          && NoDup(Backlog(s.pend)))
    && (Awaiting(s) ==> !s.zombie && s.users == 0 && !s.listening && s.pend.count == 0 && s.pool.count == 0)
  }

  ghost predicate Exclusive(t: Table) {
    forall i: Slot, j: Slot, h: Hw :: Holds(t.socks[i], h) && Holds(t.socks[j], h) ==> i == j
  }

  ghost predicate BacklogsOk(t: Table) {
    && (forall i: Slot, c: Slot :: Waits(t.socks[i], c) ==> Awaiting(t.socks[c]))
    && (forall i: Slot, j: Slot, c: Slot :: Waits(t.socks[i], c) && Waits(t.socks[j], c) ==> i == j)
  }

  ghost predicate TableOk(t: Table) {
    (forall i: Slot :: LocalOk(t.socks[i])) && Exclusive(t) && BacklogsOk(t)
  }

  ghost predicate Unheld(t: Table, h: Hw) {
    forall j: Slot :: !Holds(t.socks[j], h)
  }

  ghost predicate Unclaimed(t: Table, c: Slot) {
    forall j: Slot :: !Waits(t.socks[j], c)
  }

  /** A connection taken out of its backlog and not yet delivered. */
  ghost predicate Claimed(t: Table, c: Slot) {
    Awaiting(t.socks[c]) && Unclaimed(t, c)
  }

  /** Rewriting one slot keeps the invariant if it takes only what nobody holds. */
  lemma SetKeeps(t: Table, i: Slot, s: Sock)
    requires TableOk(t) && LocalOk(s)
    requires forall h: Hw :: Holds(s, h) ==> Holds(t.socks[i], h) || Unheld(t, h)
    requires forall c: Slot :: Waits(s, c) ==> Waits(t.socks[i], c) || (Claimed(t, c) && c != i)
    requires Unclaimed(t, i) || Awaiting(s)
    ensures TableOk(Set(t, i, s))
  {
    hide LocalOk, Holds, Waits, Awaiting;
  }

  /** A slot with a descriptor waits in no backlog. */
  lemma FdIsUnclaimed(t: Table, i: Slot)
    requires TableOk(t) && (!t.socks[i].inUse || t.socks[i].hasFd)
    ensures Unclaimed(t, i)
  {
  }

  // ---------------------------------------------------------------- allocation

  lemma FirstFreeIs(t: Table, i: nat)
    requires i <= NUM_SOCKETS
    ensures var r := FirstFree(t, i);
      && (r >= 0 ==> i <= r && !t.socks[r].inUse && forall j | i <= j < r :: t.socks[j].inUse)
      && (r < 0 ==> forall j | i <= j < NUM_SOCKETS :: t.socks[j].inUse)
    decreases NUM_SOCKETS - i
  {
  }

  /** What hw_alloc looks for. */
  predicate Allocatable(t: Table, closed: set<Hw>, h: Hw) {
    !Taken(t, h) && h !in t.broken && h in closed
  }

  lemma {:induction false} FirstHwIs(t: Table, closed: set<Hw>, k: nat)
    requires k <= NUM_SOCKETS
    ensures var r := FirstHw(t, closed, k);
      && (r >= 0 ==> k <= r && Allocatable(t, closed, r) && forall j: Hw | k <= j < r :: !Allocatable(t, closed, j))
      && (r < 0 ==> forall j: Hw | k <= j :: !Allocatable(t, closed, j))
    decreases NUM_SOCKETS - k
  {
    if k == NUM_SOCKETS {
    } else {
      FirstHwIs(t, closed, k + 1);
    }
  }

  /** hw_alloc hands out the lowest hardware socket that no slot has, works and reads SOCK_CLOSED. */
  lemma HwAllocIs(t: Table, closed: set<Hw>)
    ensures var r := HwAlloc(t, closed);
      && (r >= 0 ==> Allocatable(t, closed, r) && forall j: Hw | j < r :: !Allocatable(t, closed, j))
      && (r < 0 ==> forall j: Hw :: !Allocatable(t, closed, j))
  {
    FirstHwIs(t, closed, 0);
  }

  /** No hardware socket in a listener's pool reads SOCK_CLOSED in this scan. */
  ghost predicate Honest(t: Table, closed: set<Hw>) {
    forall i: Slot, h: Hw :: t.socks[i].inUse && h in Members(t.socks[i].pool) ==> h !in closed
  }

  /**
    What hw_alloc returns already has a holder if and only if it lies in a listener's pool: the scan
    looks at `hw` only, so a pooled socket whose listener was reset would be handed out twice.
   */
  lemma AllocatedTwiceIffPooled(t: Table, closed: set<Hw>)
    requires HwAlloc(t, closed) >= 0
    ensures !Unheld(t, HwAlloc(t, closed)) <==>
            exists i: Slot :: t.socks[i].inUse && HwAlloc(t, closed) in Members(t.socks[i].pool)
  {
    var h: Hw := HwAlloc(t, closed);
    HwAllocIs(t, closed);
    if i: Slot :| t.socks[i].inUse && h in Members(t.socks[i].pool) {
      assert Holds(t.socks[i], h);
    }
  }

  lemma HonestAllocIsUnheld(t: Table, closed: set<Hw>)
    requires Honest(t, closed) && HwAlloc(t, closed) >= 0
    ensures Unheld(t, HwAlloc(t, closed))
  {
    var h: Hw := HwAlloc(t, closed);
    HwAllocIs(t, closed);
    AllocatedTwiceIffPooled(t, closed);
  }

  /** Giving slot i the hardware socket hw_alloc found. */
  lemma TakeHwKeeps(t: Table, i: Slot, h: Hw, port: nat)
    requires TableOk(t) && Unheld(t, h) && t.socks[i].hw < 0 && t.socks[i].inUse && t.socks[i].hasFd
    ensures TableOk(Set(t, i, t.socks[i].(hw := h, port := port)))
  {
    FdIsUnclaimed(t, i);
    assert !Holds(t.socks[i], h);
    SetKeeps(t, i, t.socks[i].(hw := h, port := port));
  }

  // ---------------------------------------------------------------- the listener's pool

  ghost predicate FillHonest(t: Table, l: Slot, tries: nat -> Try, k: nat)
    decreases NUM_SOCKETS - k
  {
    t.socks[l].pool.count >= LISTEN_KEEP || k >= NUM_SOCKETS ||
    (&& Honest(t, tries(k).closed)
     && var h := HwAlloc(t, tries(k).closed);
        (h >= 0 ==> FillHonest(FillOnce(t, l, h, tries(k).opens), l, tries, k + 1)))
  }

  lemma JoinKeeps(t: Table, l: Slot, h: Hw)
    requires TableOk(t) && Unheld(t, h) && t.socks[l].inUse && t.socks[l].hasFd
    requires t.socks[l].pool.count < LISTEN_KEEP
    ensures TableOk(Set(t, l, t.socks[l].(pool := Join(t.socks[l].pool, h))))
  {
    FdIsUnclaimed(t, l);
    JoinMembers(t.socks[l].pool, h);
    assert !Holds(t.socks[l], h);
    SetKeeps(t, l, t.socks[l].(pool := Join(t.socks[l].pool, h)));
  }

  lemma FillOnceKeeps(t: Table, l: Slot, h: Hw, opens: bool)
    requires TableOk(t) && Unheld(t, h) && t.socks[l].inUse && t.socks[l].hasFd
    requires t.socks[l].pool.count < LISTEN_KEEP
    ensures TableOk(FillOnce(t, l, h, opens))
  {
    if opens {
      JoinKeeps(t.(fail := t.fail[h := 0]), l, h);
    }
  }

  /** The two tables differ in the pool of slot l only. */
  ghost predicate OnlyPool(t: Table, r: Table, l: Slot) {
    && r.shut == t.shut
    && r.socks[l] == t.socks[l].(pool := r.socks[l].pool)
    && forall j: Slot :: j != l ==> r.socks[j] == t.socks[j]
  }

  lemma FillOnceFrame(t: Table, l: Slot, h: Hw, opens: bool)
    requires t.socks[l].pool.count < LISTEN_KEEP
    ensures OnlyPool(t, FillOnce(t, l, h, opens), l)
  {
  }

  lemma OnlyPoolComposes(t: Table, u: Table, r: Table, l: Slot)
    requires OnlyPool(t, u, l) && OnlyPool(u, r, l)
    ensures OnlyPool(t, r, l)
  {
  }

  /** Arming a listener changes nothing but its pool (and the failure counts). */
  lemma {:induction false} FillFrame(t: Table, l: Slot, tries: nat -> Try, k: nat)
    ensures OnlyPool(t, Fill(t, l, tries, k), l)
    decreases NUM_SOCKETS - k
  {
    hide FillOnce, HwAlloc, OnlyPool;
    if t.socks[l].pool.count >= LISTEN_KEEP || k >= NUM_SOCKETS {
      OnlyPoolReflexive(t, l);
    } else {
      var h := HwAlloc(t, tries(k).closed);
      if h >= 0 {
        FillOnceFrame(t, l, h, tries(k).opens);
        FillFrame(FillOnce(t, l, h, tries(k).opens), l, tries, k + 1);
        OnlyPoolComposes(t, FillOnce(t, l, h, tries(k).opens), Fill(t, l, tries, k), l);
      } else {
        OnlyPoolReflexive(t, l);
      }
    }
  }

  lemma OnlyPoolReflexive(t: Table, l: Slot)
    ensures OnlyPool(t, t, l)
  {
  }

  lemma {:induction false} FillKeeps(t: Table, l: Slot, tries: nat -> Try, k: nat)
    requires TableOk(t) && t.socks[l].inUse && t.socks[l].hasFd && FillHonest(t, l, tries, k)
    ensures TableOk(Fill(t, l, tries, k))
    decreases NUM_SOCKETS - k
  {
    hide TableOk, Honest, HwAlloc, Unheld;
    if t.socks[l].pool.count >= LISTEN_KEEP || k >= NUM_SOCKETS {
    } else {
      var h := HwAlloc(t, tries(k).closed);
      if h >= 0 {
        HonestAllocIsUnheld(t, tries(k).closed);
        FillOnceKeeps(t, l, h, tries(k).opens);
        FillKeeps(FillOnce(t, l, h, tries(k).opens), l, tries, k + 1);
      }
    }
  }

  lemma RemovedIsAllOthers(p: Pool, idx: nat)
    requires idx < p.count && NoDup(Members(p))
    ensures NoDup(Members(Removed(p, idx)))
    ensures forall h: Hw :: h in Members(Removed(p, idx)) <==> h in Members(p) && h != p.cells[idx]
  {
    RemovedMembers(p, idx);
    var m, r := Members(p), Members(Removed(p, idx));
    forall h: Hw | h in m && h != m[idx]
      ensures h in r
    {
      var k :| 0 <= k < |m| && m[k] == h;
      assert r[if k < idx then k else k - 1] == h;
    }
  }

  lemma DropKeeps(t: Table, l: Slot, idx: nat)
    requires TableOk(t) && t.socks[l].inUse && t.socks[l].hasFd && idx < t.socks[l].pool.count
    ensures TableOk(DropFromPool(t, l, idx))
    ensures Unheld(DropFromPool(t, l, idx), t.socks[l].pool.cells[idx])
  {
    hide Removed;
    var h := t.socks[l].pool.cells[idx];
    var s := t.socks[l].(pool := Removed(t.socks[l].pool, idx));
    RemovedIsAllOthers(t.socks[l].pool, idx);
    FdIsUnclaimed(t, l);
    assert Members(t.socks[l].pool)[idx] == h;
    assert LocalOk(t.socks[l]);
    assert h in Members(t.socks[l].pool);
    assert t.socks[l].hw != h;
    assert h !in Members(s.pool);
    assert Holds(t.socks[l], h) && !Holds(s, h);
    SetKeeps(t, l, s);
  }

  // ---------------------------------------------------------------- frames

  /** What concerns the lifetime of an open socket is untouched; anything else is not in use by an operation. */
  predicate Quiet(a: Sock, b: Sock) {
    if a.inUse && a.hasFd then
      b.inUse && b.hasFd && b.users == a.users && b.zombie == a.zombie && b.gen == a.gen
    else
      b.users == 0 && (b.inUse ==> !b.zombie)
  }

  /** The piece of code keeps the invariant, every open socket's lifetime and every claimed connection. */
  ghost predicate Fine(t: Table, r: Table) {
    && TableOk(r)
    && (forall i: Slot :: Quiet(t.socks[i], r.socks[i]))
    && (forall c: Slot :: Claimed(t, c) ==> Claimed(r, c))
  }

  lemma FineReflexive(t: Table)
    requires TableOk(t)
    ensures Fine(t, t)
  {
    forall i: Slot
      ensures Quiet(t.socks[i], t.socks[i])
    {
      assert LocalOk(t.socks[i]);
    }
  }

  lemma FineComposes(t: Table, u: Table, r: Table)
    requires Fine(t, u) && Fine(u, r)
    ensures Fine(t, r)
  {
    hide TableOk, Claimed;
    forall i: Slot
      ensures Quiet(t.socks[i], r.socks[i])
    {
      assert Quiet(t.socks[i], u.socks[i]) && Quiet(u.socks[i], r.socks[i]);
    }
  }

  /** Rewriting an open slot, lifetime and backlog apart, is fine if the invariant is kept. */
  lemma FineSet(t: Table, i: Slot, s: Sock)
    requires TableOk(t) && TableOk(Set(t, i, s))
    requires t.socks[i].inUse && t.socks[i].hasFd && Quiet(t.socks[i], s)
    requires s.pend == t.socks[i].pend
    ensures Fine(t, Set(t, i, s))
  {
    FineReflexive(t);
    forall c: Slot | Claimed(t, c)
      ensures Claimed(Set(t, i, s), c)
    {
      forall j: Slot
        ensures !Waits(Set(t, i, s).socks[j], c)
      {
        assert !Waits(t.socks[j], c);
      }
    }
  }

  /** CLOSE commands are no part of the invariant. */
  lemma ShutIsFine(t: Table, r: Table, shut: seq<Hw>)
    requires Fine(t, r)
    ensures Fine(t, r.(shut := shut))
  {
    var u: Table := r.(shut := shut);
    assert u.socks == r.socks;
    forall c: Slot | Claimed(r, c)
      ensures Claimed(u, c)
    {
    }
  }

  ghost predicate Open(t: Table, i: Slot) {
    t.socks[i].inUse && t.socks[i].hasFd
  }

  lemma FillFine(t: Table, l: Slot, tries: nat -> Try, k: nat)
    requires TableOk(t) && Open(t, l) && FillHonest(t, l, tries, k)
    ensures Fine(t, Fill(t, l, tries, k)) && Open(Fill(t, l, tries, k), l)
  {
    hide Fill, FillHonest;
    var r := Fill(t, l, tries, k);
    FillKeeps(t, l, tries, k);
    FillFrame(t, l, tries, k);
    assert r.socks == Set(t, l, r.socks[l]).socks;
    SameSocks(r, Set(t, l, r.socks[l]));
    FineSet(t, l, r.socks[l]);
    FineSame(t, Set(t, l, r.socks[l]), r);
  }

  lemma SameSocks(t: Table, r: Table)
    requires TableOk(t) && t.socks == r.socks
    ensures TableOk(r)
  {
  }

  lemma FineSame(t: Table, u: Table, r: Table)
    requires Fine(t, u) && u.socks == r.socks
    ensures Fine(t, r)
  {
    assert forall c: Slot :: Claimed(u, c) ==> Claimed(r, c);
  }

  // ---------------------------------------------------------------- promotion

  lemma DetachedIs(t: Table, l: Slot, idx: nat)
    requires idx < t.socks[l].pool.count && FirstFree(t, 0) >= 0 && t.socks[l].inUse
    ensures var c: Slot := FirstFree(t, 0);
      && c != l && !t.socks[c].inUse
      && Detached(t, l, idx) ==
         Set(DropFromPool(t, l, idx), c, Child(t, l, c, t.socks[l].pool.cells[idx]))
  {
    FirstFreeIs(t, 0);
    hide Child, Removed;
    var c: Slot := FirstFree(t, 0);
    var s := Child(t, l, c, t.socks[l].pool.cells[idx]);
    assert Detached(t, l, idx).socks == Set(DropFromPool(t, l, idx), c, s).socks;
  }

  /** A freshly handed-out slot holding one unheld hardware socket. */
  lemma ChildKeeps(t: Table, c: Slot, s: Sock, h: Hw)
    requires TableOk(t) && !t.socks[c].inUse && Unheld(t, h)
    requires s.inUse && s.hw == h && s.pool == EMPTY_POOL && s.pend == EMPTY_RING
    requires !s.hasFd && !s.zombie && s.users == 0 && !s.listening
    ensures TableOk(Set(t, c, s)) && Claimed(Set(t, c, s), c)
    ensures Fine(t, Set(t, c, s))
  {
    FdIsUnclaimed(t, c);
    assert Backlog(s.pend) == [];
    assert Members(s.pool) == [];
    SetKeeps(t, c, s);
    FineReflexive(t);
    forall x: Slot | Claimed(t, x)
      ensures Claimed(Set(t, c, s), x)
    {
      assert forall j: Slot :: !Waits(t.socks[j], x);
    }
  }

  lemma DetachedFine(t: Table, l: Slot, idx: nat)
    requires TableOk(t) && Open(t, l) && idx < t.socks[l].pool.count && FirstFree(t, 0) >= 0
    ensures var r := Detached(t, l, idx);
      Fine(t, r) && Claimed(r, FirstFree(t, 0)) && Open(r, l) && r.socks[l].pend == t.socks[l].pend
  {
    var h := t.socks[l].pool.cells[idx];
    var c: Slot := FirstFree(t, 0);
    DetachedIs(t, l, idx);
    DropKeeps(t, l, idx);
    var d := DropFromPool(t, l, idx);
    FineSet(t, l, d.socks[l]);
    ChildKeeps(d, c, Child(t, l, c, h), h);
    FineComposes(t, d, Detached(t, l, idx));
  }

  /** Queueing a claimed connection. */
  lemma QueueFine(t: Table, l: Slot, c: Slot)
    requires TableOk(t) && Open(t, l) && Claimed(t, c) && t.socks[l].pend.count < NUM_SOCKETS
    ensures TableOk(Queue(t, l, c))
    ensures forall i: Slot :: Quiet(t.socks[i], Queue(t, l, c).socks[i])
    ensures forall x: Slot :: x != c && Claimed(t, x) ==> Claimed(Queue(t, l, c), x)
  {
    hide Push;
    var s := t.socks[l].(pend := Push(t.socks[l].pend, c));
    PushAppends(t.socks[l].pend, c);
    FdIsUnclaimed(t, l);
    FineReflexive(t);
    assert !Waits(t.socks[l], c);
    SetKeeps(t, l, s);
    forall x: Slot | x != c && Claimed(t, x)
      ensures Claimed(Queue(t, l, c), x)
    {
      assert forall j: Slot :: !Waits(t.socks[j], x);
    }
  }

  ghost predicate PromoteHonest(t: Table, l: Slot, idx: nat, tries: nat -> Try)
    requires idx < t.socks[l].pool.count
  {
    !PromotionRefused(t, l) ==> FillHonest(Detached(t, l, idx), l, tries, 0)
  }

  lemma PromoteFine(t: Table, l: Slot, idx: nat, tries: nat -> Try)
    requires TableOk(t) && Open(t, l) && idx < t.socks[l].pool.count && PromoteHonest(t, l, idx, tries)
    ensures Fine(t, Promote(t, l, idx, tries)) && Open(Promote(t, l, idx, tries), l)
  {
    hide TableOk, Detached, Fill, FillHonest, Queue, Claimed;
    FineReflexive(t);
    if !PromotionRefused(t, l) {
      var c: Slot := FirstFree(t, 0);
      var d := Detached(t, l, idx);
      DetachedFine(t, l, idx);
      FillFine(d, l, tries, 0);
      FillFrame(d, l, tries, 0);
      var f := Fill(d, l, tries, 0);
      FineComposes(t, d, f);
      QueueFine(f, l, c);
      FirstFreeIs(t, 0);
      PromotedFine(t, f, Promote(t, l, idx, tries), c);
    }
  }

  lemma PromotedFine(t: Table, f: Table, r: Table, c: Slot)
    requires Fine(t, f) && TableOk(r) && !t.socks[c].inUse
    requires forall i: Slot :: Quiet(f.socks[i], r.socks[i])
    requires forall x: Slot :: x != c && Claimed(f, x) ==> Claimed(r, x)
    ensures Fine(t, r)
  {
    hide TableOk, Unclaimed;
    forall i: Slot
      ensures Quiet(t.socks[i], r.socks[i])
    {
      assert Quiet(t.socks[i], f.socks[i]) && Quiet(f.socks[i], r.socks[i]);
    }
  }

  /**
    What promotion does when it is not refused: the first free slot becomes a connection without
    descriptor that has the hardware socket, the listener has it no longer, and the connection is the
    last of the backlog.
   */
  lemma PromotionIs(t: Table, l: Slot, idx: nat, tries: nat -> Try)
    requires TableOk(t) && Open(t, l) && idx < t.socks[l].pool.count && PromoteHonest(t, l, idx, tries)
    requires !PromotionRefused(t, l)
    ensures var r := Promote(t, l, idx, tries);
      var c: Slot := FirstFree(t, 0);
      var h := t.socks[l].pool.cells[idx];
      && !t.socks[c].inUse
      && r.socks[c] == Sock(true, h, t.socks[l].stream, 0, false, EMPTY_POOL, false, 0, false, EMPTY_RING,
                            t.socks[c].gen + 1)
      && Holds(r.socks[c], h) && !Holds(r.socks[l], h)
      && Backlog(r.socks[l].pend) == Backlog(t.socks[l].pend) + [c]
      && forall j: Slot :: j != l && j != c ==> r.socks[j] == t.socks[j]
  {
    hide TableOk, Fill, FillHonest, Push, Backlog, Removed, Fine;
    var c: Slot := FirstFree(t, 0);
    var d := Detached(t, l, idx);
    DetachedIs(t, l, idx);
    FillFrame(d, l, tries, 0);
    PushAppends(t.socks[l].pend, c);
    PromoteFine(t, l, idx, tries);
    FineIsExclusive(t, Promote(t, l, idx, tries), c, l, t.socks[l].pool.cells[idx]);
  }

  lemma FineIsExclusive(t: Table, r: Table, c: Slot, l: Slot, h: Hw)
    requires Fine(t, r) && c != l && Holds(r.socks[c], h)
    ensures !Holds(r.socks[l], h)
  {
  }
}
