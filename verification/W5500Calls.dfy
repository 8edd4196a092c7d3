/** The invariant of the W5500 socket table across accept(), bind(), connect(), listen(), shutdown(), close(). */
module W5500Calls {
  import opened W5500Fifo
  import opened W5500Table
  import opened W5500Invariant

  // ---------------------------------------------------------------- the pool scan

  ghost predicate ScanHonest(t: Table, l: Slot, idx: nat, sr: Status, tries: nat -> Try)
    requires idx < t.socks[l].pool.count
  {
    sr.Established? ==> PromoteHonest(t, l, idx, tries)
  }

  lemma ScanFine(t: Table, l: Slot, idx: nat, sr: Status, tries: nat -> Try)
    requires TableOk(t) && Open(t, l) && idx < t.socks[l].pool.count && ScanHonest(t, l, idx, sr, tries)
    ensures Fine(t, ScanTurn(t, l, idx, sr, tries).0) && Open(ScanTurn(t, l, idx, sr, tries).0, l)
  {
    hide TableOk, Fine, Promote, DropFromPool, PromoteHonest, Removed;
    if sr.Established? {
      PromoteFine(t, l, idx, tries);
    } else if !sr.Listening? && !sr.Init? && !sr.SynReceived? {
      DropFine(t, l, idx);
      ShutIsFine(t, DropFromPool(t, l, idx), t.shut + [t.socks[l].pool.cells[idx]]);
    } else {
      FineReflexive(t);
    }
  }

  lemma DropFine(t: Table, l: Slot, idx: nat)
    requires TableOk(t) && Open(t, l) && idx < t.socks[l].pool.count
    ensures Fine(t, DropFromPool(t, l, idx)) && Open(DropFromPool(t, l, idx), l)
  {
    hide TableOk;
    DropKeeps(t, l, idx);
    FineSet(t, l, DropFromPool(t, l, idx).socks[l]);
  }

  /**
    A turn of the scan makes no progress (same table, same index) if and only if the entry reads
    SOCK_ESTABLISHED and its promotion is refused because the backlog or the socket table is full:
    the scan then repeats for as long as the chip answers the same.
   */
  lemma ScanStandsStillIff(t: Table, l: Slot, idx: nat, sr: Status, tries: nat -> Try)
    requires t.socks[l].inUse && idx < t.socks[l].pool.count
    ensures ScanTurn(t, l, idx, sr, tries) == (t, idx) <==> sr.Established? && PromotionRefused(t, l)
  {
    if sr.Established? && !PromotionRefused(t, l) {
      DetachedIs(t, l, idx);
      FillFrame(Detached(t, l, idx), l, tries, 0);
      var c: Slot := FirstFree(t, 0);
      assert Promote(t, l, idx, tries).socks[c].inUse && !t.socks[c].inUse;
    }
  }

  // ---------------------------------------------------------------- accept()

  lemma PopFine(t: Table, l: Slot)
    requires TableOk(t) && Open(t, l) && t.socks[l].pend.count > 0
    ensures var ring := t.socks[l].pend;
      var r := Set(t, l, t.socks[l].(pend := Pop(ring)));
      Fine(t, r) && Claimed(r, ring.cells[ring.head]) && !Claimed(t, ring.cells[ring.head]) && Open(r, l)
  {
    hide Pop;
    var ring := t.socks[l].pend;
    var c := ring.cells[ring.head];
    var s := t.socks[l].(pend := Pop(ring));
    PopTakesOldest(ring);
    assert Backlog(ring)[0] == c && Backlog(ring)[1..] == Backlog(s.pend);
    assert Waits(t.socks[l], c) && !Waits(s, c);
    FdIsUnclaimed(t, l);
    PopLocalOk(t.socks[l], s);
    SetKeeps(t, l, s);
    FineReflexive(t);
    PopClaims(t, l, s);
  }

  lemma PopLocalOk(a: Sock, b: Sock)
    requires LocalOk(a) && a.inUse && a.hasFd && b == a.(pend := b.pend)
    requires a.pend.count > 0 && Backlog(b.pend) == Backlog(a.pend)[1..]
    ensures LocalOk(b)
  {
  }

  lemma PopClaims(t: Table, l: Slot, s: Sock)
    requires forall c: Slot :: Waits(s, c) ==> Waits(t.socks[l], c)
    ensures forall c: Slot :: Claimed(t, c) && c != l ==> Claimed(Set(t, l, s), c)
  {
    hide Waits, Awaiting;
    forall c: Slot | Claimed(t, c) && c != l
      ensures Claimed(Set(t, l, s), c)
    {
      forall j: Slot
        ensures !Waits(Set(t, l, s).socks[j], c)
      {
        assert !Waits(t.socks[j], c);
      }
    }
  }

  /** Giving a claimed connection up. */
  lemma FreeFine(t: Table, c: Slot, s: Sock)
    requires TableOk(t) && Claimed(t, c) && !s.inUse && s.users == t.socks[c].users
    ensures TableOk(Set(t, c, s))
    ensures forall i: Slot :: Quiet(t.socks[i], Set(t, c, s).socks[i])
    ensures forall x: Slot :: x != c && Claimed(t, x) ==> Claimed(Set(t, c, s), x)
  {
    assert LocalOk(t.socks[c]);
    SetKeeps(t, c, s);
    FineReflexive(t);
    PopClaims(t, c, s);
  }

  /** From t to r nothing changed but connections that waited in t. */
  lemma FineAfterFree(t: Table, u: Table, r: Table, c: Slot)
    requires Fine(t, u) && TableOk(r) && !Claimed(t, c)
    requires forall i: Slot :: Quiet(u.socks[i], r.socks[i])
    requires forall x: Slot :: x != c && Claimed(u, x) ==> Claimed(r, x)
    ensures Fine(t, r)
  {
    hide TableOk, Claimed;
    forall i: Slot
      ensures Quiet(t.socks[i], r.socks[i])
    {
      assert Quiet(t.socks[i], u.socks[i]) && Quiet(u.socks[i], r.socks[i]);
    }
  }

  /** Taking the oldest connection out of the backlog and freeing its slot. */
  lemma DiscardFine(t: Table, l: Slot, s: Sock, shut: seq<Hw>)
    requires TableOk(t) && Open(t, l) && t.socks[l].pend.count > 0
    requires !s.inUse && s.users == t.socks[t.socks[l].pend.cells[t.socks[l].pend.head]].users
    ensures var ring := t.socks[l].pend;
      var r := Set(Set(t, l, t.socks[l].(pend := Pop(ring))), ring.cells[ring.head], s).(shut := shut);
      Fine(t, r) && Open(r, l)
  {
    hide TableOk, Claimed, Pop;
    var ring := t.socks[l].pend;
    var c := ring.cells[ring.head];
    var u := Set(t, l, t.socks[l].(pend := Pop(ring)));
    PopFine(t, l);
    ClaimedIsNotOpen(u, c);
    assert c != l;
    FreeFine(u, c, s);
    FineAfterFree(t, u, Set(u, c, s), c);
    ShutIsFine(t, Set(u, c, s), shut);
  }

  lemma ClaimedIsNotOpen(t: Table, c: Slot)
    requires Claimed(t, c)
    ensures t.socks[c].inUse && !t.socks[c].hasFd
  {
  }

  lemma {:induction false} ReapFine(t: Table, l: Slot, closed: set<Hw>)
    requires TableOk(t) && Open(t, l)
    ensures var (r, c) := Reap(t, l, closed);
      Fine(t, r) && Open(r, l) && -1 <= c < NUM_SOCKETS && (c >= 0 ==> Claimed(r, c))
    decreases t.socks[l].pend.count
  {
    hide TableOk, Claimed, Fine, Pop;
    var ring := t.socks[l].pend;
    if ring.count == 0 {
      FineReflexive(t);
    } else {
      var c := ring.cells[ring.head];
      var t1 := Set(t, l, t.socks[l].(pend := Pop(ring)));
      var hw := t1.socks[c].hw;
      PopFine(t, l);
      if hw >= 0 && hw !in closed {
      } else {
        ClaimedIsNotOpen(t1, c);
        assert c != l;
        var r := Set(t1, c, Freed(t1.socks[c])).(shut := if hw >= 0 then t.shut + [hw] else t.shut);
        DiscardFine(t, l, Freed(t1.socks[c]), r.shut);
        FineIsOk(t, r);
        ReapFine(r, l, closed);
        FineComposes(t, r, Reap(r, l, closed).0);
      }
    }
  }

  lemma FineIsOk(t: Table, r: Table)
    requires Fine(t, r)
    ensures TableOk(r)
  {
  }

  /** The live connections: those whose hardware socket does not read SOCK_CLOSED. */
  predicate Live(t: Table, closed: set<Hw>, c: Slot) {
    t.socks[c].hw >= 0 && t.socks[c].hw !in closed
  }

  /** The position of the first live entry of a backlog, or its length. */
  function FirstLive(t: Table, closed: set<Hw>, q: seq<Slot>): (k: nat)
    ensures k <= |q|
    ensures k < |q| ==> Live(t, closed, q[k])
    ensures forall i | 0 <= i < k :: !Live(t, closed, q[i])
  {
    if q == [] then 0 else if Live(t, closed, q[0]) then 0 else 1 + FirstLive(t, closed, q[1..])
  }

  lemma FirstLiveSame(t: Table, u: Table, closed: set<Hw>, q: seq<Slot>)
    requires forall c: Slot :: t.socks[c].hw == u.socks[c].hw
    ensures FirstLive(t, closed, q) == FirstLive(u, closed, q)
  {
  }

  /** The first connection of the backlog: taken when live, else freed before the rest is looked at. */
  lemma ReapHead(t: Table, l: Slot, closed: set<Hw>) returns (r: Table)
    requires TableOk(t) && Open(t, l) && t.socks[l].pend.count > 0
    ensures TableOk(r) && Open(r, l)
    ensures var q := Backlog(t.socks[l].pend);
      && |q| > 0 && Backlog(r.socks[l].pend) == q[1..] && r.socks[l].pend.count < t.socks[l].pend.count
      && (Live(t, closed, q[0]) ==> Reap(t, l, closed) == (r, q[0]))
      && (!Live(t, closed, q[0]) ==> Reap(t, l, closed) == Reap(r, l, closed))
      && (forall j: Slot :: r.socks[j].hw == t.socks[j].hw)
      && (forall j: Slot ::
            r.socks[j].inUse == if j == q[0] && !Live(t, closed, q[0]) then false else t.socks[j].inUse)
  {
    hide TableOk, Claimed, Fine, Pop, Backlog;
    var ring := t.socks[l].pend;
    PopTakesOldest(ring);
    var c := ring.cells[ring.head];
    assert Backlog(ring)[0] == c && Backlog(ring)[1..] == Backlog(Pop(ring));
    PopFine(t, l);
    r := Set(t, l, t.socks[l].(pend := Pop(ring)));
    FineIsOk(t, r);
    ClaimedIsNotOpen(r, c);
    if !Live(t, closed, c) {
      var s := Freed(r.socks[c]);
      var shut := if r.socks[c].hw >= 0 then t.shut + [r.socks[c].hw] else t.shut;
      DiscardFine(t, l, s, shut);
      r := Set(r, c, s).(shut := shut);
      FineIsOk(t, r);
    }
  }

  /**
    accept() takes connections first come, first served: it returns the oldest live one, frees the dead
    ones before it, and leaves the later ones in order.
   */
  lemma {:induction false} ReapIsFifo(t: Table, l: Slot, closed: set<Hw>)
    requires TableOk(t) && Open(t, l)
    ensures var q := Backlog(t.socks[l].pend);
      var k := FirstLive(t, closed, q);
      var (r, c) := Reap(t, l, closed);
      && (k == |q| ==> c == -1 && Backlog(r.socks[l].pend) == [])
      && (k < |q| ==> c == q[k] && Backlog(r.socks[l].pend) == q[k + 1..])
      && (forall i | 0 <= i < k :: !r.socks[q[i]].inUse)
      && (forall j: Slot :: (forall i | 0 <= i < k :: q[i] != j) ==> r.socks[j].inUse == t.socks[j].inUse)
    decreases t.socks[l].pend.count
  {
    hide TableOk, Live, Backlog, Reap;
    var q := Backlog(t.socks[l].pend);
    if t.socks[l].pend.count == 0 {
      ReapNone(t, l, closed);
    } else {
      var r := ReapHead(t, l, closed);
      if !Live(t, closed, q[0]) {
        ReapIsFifo(r, l, closed);
        FirstLiveSame(t, r, closed, q[1..]);
        BacklogDistinct(t, l);
        ReapShift(q, q[0], FirstLive(t, closed, q[1..]), t, r, Reap(r, l, closed).0);
      }
    }
  }

  lemma ReapNone(t: Table, l: Slot, closed: set<Hw>)
    requires t.socks[l].pend.count == 0
    ensures Reap(t, l, closed) == (t, -1)
  {
  }

  lemma BacklogDistinct(t: Table, l: Slot)
    requires TableOk(t) && Open(t, l)
    ensures NoDup(Backlog(t.socks[l].pend))
  {
    assert LocalOk(t.socks[l]);
  }

  lemma ReapShift(q: seq<Slot>, c: Slot, k: nat, t: Table, u: Table, r: Table)
    requires |q| > 0 && q[0] == c && k <= |q| - 1 && NoDup(q)
    requires !u.socks[c].inUse && forall j: Slot :: j != c ==> u.socks[j].inUse == t.socks[j].inUse
    requires forall i | 0 <= i < k :: !r.socks[q[1..][i]].inUse
    requires forall j: Slot :: (forall i | 0 <= i < k :: q[1..][i] != j) ==> r.socks[j].inUse == u.socks[j].inUse
    ensures forall i | 0 <= i < k + 1 :: !r.socks[q[i]].inUse
    ensures forall j: Slot :: (forall i | 0 <= i < k + 1 :: q[i] != j) ==> r.socks[j].inUse == t.socks[j].inUse
  {
    forall i | 0 <= i < k + 1
      ensures !r.socks[q[i]].inUse
    {
      if i > 0 {
        assert q[1..][i - 1] == q[i];
      } else {
        assert forall m | 0 <= m < k :: q[1..][m] == q[m + 1] != c;
      }
    }
    forall j: Slot | forall i | 0 <= i < k + 1 :: q[i] != j
      ensures r.socks[j].inUse == t.socks[j].inUse
    {
      assert q[0] != j;
      assert forall m | 0 <= m < k :: q[1..][m] == q[m + 1] != j;
    }
  }

  lemma DeliverFine(t: Table, c: Slot, fdAvailable: bool)
    requires TableOk(t) && Claimed(t, c)
    ensures TableOk(Deliver(t, c, fdAvailable))
    ensures forall i: Slot :: Quiet(t.socks[i], Deliver(t, c, fdAvailable).socks[i])
  {
    var cs := t.socks[c];
    if fdAvailable {
      assert LocalOk(cs);
      SetKeeps(t, c, cs.(hasFd := true));
      FineReflexive(t);
    } else {
      var s := cs.(hw := -1, inUse := false);
      FreeFine(t, c, s);
      SameSocks(Set(t, c, s), Deliver(t, c, fdAvailable));
    }
  }

  ghost predicate TurnHonest(t: Table, l: Slot, turn: Turn) {
    var (t1, c) := Reap(t, l, turn.closed);
    var idx := FirstEstablished(t1.socks[l].pool, turn.established, 0);
    && (idx >= 0 ==> PromoteHonest(t1, l, idx, turn.promoting))
    && (c < 0 ==> FillHonest(PromoteInline(t1, l, turn), l, turn.filling, 0))
  }

  lemma PromoteInlineFine(t: Table, l: Slot, turn: Turn)
    requires TableOk(t) && Open(t, l)
    requires var idx := FirstEstablished(t.socks[l].pool, turn.established, 0);
      idx >= 0 ==> PromoteHonest(t, l, idx, turn.promoting)
    ensures Fine(t, PromoteInline(t, l, turn)) && Open(PromoteInline(t, l, turn), l)
  {
    hide TableOk, Fine, Promote, PromoteHonest;
    var idx := FirstEstablished(t.socks[l].pool, turn.established, 0);
    if idx >= 0 {
      PromoteFine(t, l, idx, turn.promoting);
    } else {
      FineReflexive(t);
    }
  }

  lemma RearmFine(t: Table, l: Slot, c: int, turn: Turn)
    requires TableOk(t) && Open(t, l) && (c < 0 ==> FillHonest(t, l, turn.filling, 0))
    ensures Fine(t, Rearm(t, l, c, turn)) && Open(Rearm(t, l, c, turn), l)
  {
    hide TableOk, Fine, Fill, FillHonest;
    if c < 0 {
      FillFine(t, l, turn.filling, 0);
    } else {
      FineReflexive(t);
    }
  }

  /** Three steps that keep everything, and the delivery of a connection claimed before them. */
  lemma AcceptTurnKeeps(t: Table, l: Slot, turn: Turn)
    requires TableOk(t) && Open(t, l) && TurnHonest(t, l, turn)
    ensures TableOk(AcceptTurn(t, l, turn).0)
    ensures forall i: Slot :: Quiet(t.socks[i], AcceptTurn(t, l, turn).0.socks[i])
  {
    hide TableOk, Fine, Claimed, Reap, PromoteInline, Rearm, Deliver, FillHonest, PromoteHonest;
    var (t1, c) := Reap(t, l, turn.closed);
    ReapFine(t, l, turn.closed);
    FineIsOk(t, t1);
    var t2 := PromoteInline(t1, l, turn);
    PromoteInlineFine(t1, l, turn);
    FineIsOk(t1, t2);
    var t3 := Rearm(t2, l, c, turn);
    RearmFine(t2, l, c, turn);
    FineComposes(t1, t2, t3);
    FineComposes(t, t1, t3);
    FineUnfold(t, t3);
    if !t3.socks[l].zombie && c >= 0 {
      FineClaims(t1, t3, c);
      DeliverFine(t3, c, turn.fdAvailable);
      QuietComposes(t, t3, AcceptTurn(t, l, turn).0);
    }
  }

  lemma FineUnfold(t: Table, r: Table)
    requires Fine(t, r)
    ensures TableOk(r) && forall i: Slot :: Quiet(t.socks[i], r.socks[i])
  {
  }

  lemma FineClaims(t: Table, r: Table, c: Slot)
    requires Fine(t, r) && Claimed(t, c)
    ensures Claimed(r, c)
  {
  }

  lemma QuietComposes(t: Table, u: Table, r: Table)
    requires forall i: Slot :: Quiet(t.socks[i], u.socks[i])
    requires forall i: Slot :: Quiet(u.socks[i], r.socks[i])
    ensures forall i: Slot :: Quiet(t.socks[i], r.socks[i])
  {
    forall i: Slot
      ensures Quiet(t.socks[i], r.socks[i])
    {
      assert Quiet(t.socks[i], u.socks[i]) && Quiet(u.socks[i], r.socks[i]);
    }
  }

  // ---------------------------------------------------------------- socket(), bind(), connect(), listen()

  /** socket(): the new slot, or the table as it was when there is none. */
  function Create(t: Table, stream: bool): Table {
    var c := FirstFree(t, 0);
    if c < 0 then t else Set(t, c, Fresh(t.socks[c].gen).(stream := stream, hasFd := true))
  }

  lemma CreateFine(t: Table, stream: bool)
    requires TableOk(t)
    ensures Fine(t, Create(t, stream))
  {
    FineReflexive(t);
    var c := FirstFree(t, 0);
    if c >= 0 {
      FirstFreeIs(t, 0);
      FdIsUnclaimed(t, c);
      var s := Fresh(t.socks[c].gen).(stream := stream, hasFd := true);
      assert Backlog(s.pend) == [];
      assert Members(s.pool) == [];
      SetKeeps(t, c, s);
      PopClaims(t, c, s);
    }
  }

  /** Rewriting fields of an open socket that take nothing. */
  lemma ShrinkFine(t: Table, i: Slot, s: Sock)
    requires TableOk(t) && Open(t, i)
    requires Quiet(t.socks[i], s) && s.pend == t.socks[i].pend && s.pool == t.socks[i].pool
    requires s.hw == t.socks[i].hw || s.hw == -1
    ensures Fine(t, Set(t, i, s))
  {
    assert LocalOk(t.socks[i]);
    FdIsUnclaimed(t, i);
    SetKeeps(t, i, s);
    FineSet(t, i, s);
  }

  lemma DropHwFine(t: Table, i: Slot)
    requires TableOk(t) && Open(t, i)
    ensures Fine(t, DropHw(t, i)) && Open(DropHw(t, i), i)
  {
    ShrinkFine(t, i, t.socks[i].(hw := -1));
    ShutIsFine(t, Set(t, i, t.socks[i].(hw := -1)), DropHw(t, i).shut);
  }

  lemma TakeHwFine(t: Table, i: Slot, closed: set<Hw>, port: nat)
    requires TableOk(t) && Open(t, i) && Honest(t, closed) && t.socks[i].hw < 0 && HwAlloc(t, closed) >= 0
    ensures Fine(t, Set(t, i, t.socks[i].(hw := HwAlloc(t, closed), port := port)))
  {
    hide TableOk;
    HonestAllocIsUnheld(t, closed);
    TakeHwKeeps(t, i, HwAlloc(t, closed), port);
    FineSet(t, i, t.socks[i].(hw := HwAlloc(t, closed), port := port));
  }

  lemma UdpOpenFine(t: Table, i: Slot, closed: set<Hw>, opens: bool, port: nat)
    requires TableOk(t) && Open(t, i) && Honest(t, closed) && t.socks[i].hw < 0
    ensures Fine(t, UdpOpen(t, i, closed, opens, port))
  {
    hide TableOk, Fine, HwAlloc, Honest;
    if HwAlloc(t, closed) < 0 || !opens {
      ShrinkFine(t, i, t.socks[i].(hw := -1));
    } else {
      TakeHwFine(t, i, closed, port);
    }
  }

  /** The pools are the same, so a scan that was honest still is. */
  lemma HonestSamePools(t: Table, u: Table, closed: set<Hw>)
    requires Honest(t, closed)
    requires forall i: Slot :: u.socks[i].inUse == t.socks[i].inUse && u.socks[i].pool == t.socks[i].pool
    ensures Honest(u, closed)
  {
  }

  lemma BindFine(t: Table, i: Slot, port: nat, closed: set<Hw>, opens: bool, ephemeral: nat)
    requires TableOk(t) && Open(t, i) && Honest(t, closed)
    ensures Fine(t, Bind(t, i, port, closed, opens, ephemeral))
  {
    hide TableOk, Fine, HwAlloc, Honest, UdpOpen;
    var s := t.socks[i];
    if s.stream {
      ShrinkFine(t, i, s.(port := port));
    } else {
      var t1 := if s.hw >= 0 && port != s.port then DropHw(t, i) else t;
      FineReflexive(t);
      DropHwFine(t, i);
      HonestSamePools(t, t1, closed);
      FineIsOk(t, t1);
      if t1.socks[i].hw < 0 && HwAlloc(t1, closed) >= 0 {
        var t2 := Set(t1, i, t1.socks[i].(port := port));
        ShrinkFine(t1, i, t1.socks[i].(port := port));
        FineIsOk(t1, t2);
        FineComposes(t, t1, t2);
        HonestSamePools(t1, t2, closed);
        UdpOpenFine(t2, i, closed, opens, if port != 0 then port else ephemeral);
        FineComposes(t, t2, Bind(t, i, port, closed, opens, ephemeral));
      }
    }
  }

  lemma ConnectFine(t: Table, i: Slot, closed: set<Hw>, opens: bool, connects: bool)
    requires TableOk(t) && Open(t, i) && Honest(t, closed)
    ensures Fine(t, Connect(t, i, closed, opens, connects).0)
  {
    hide TableOk, Fine, HwAlloc, Honest;
    FineReflexive(t);
    var h := HwAlloc(t, closed);
    if t.socks[i].hw < 0 && h >= 0 && opens {
      if connects {
        TakeHwFine(t, i, closed, t.socks[i].port);
        assert t.socks[i].(hw := h) == t.socks[i].(hw := h, port := t.socks[i].port);
      } else {
        ShutIsFine(t, t, t.shut + [h]);
      }
    }
  }

  lemma ConnectLookFine(t: Table, i: Slot, sr: Status, timedOut: bool, nonblock: bool)
    requires TableOk(t) && Open(t, i)
    ensures Fine(t, ConnectLook(t, i, sr, timedOut, nonblock).0)
  {
    hide TableOk, Fine;
    FineReflexive(t);
    ShrinkFine(t, i, t.socks[i].(hw := -1));
  }

  ghost predicate ListenHonest(t: Table, i: Slot, tries: nat -> Try) {
    t.socks[i].stream && t.socks[i].hw < 0 ==>
      FillHonest(Set(t, i, t.socks[i].(listening := true)), i, tries, 0)
  }

  lemma ListenFine(t: Table, i: Slot, tries: nat -> Try)
    requires TableOk(t) && Open(t, i) && ListenHonest(t, i, tries)
    ensures Fine(t, Listen(t, i, tries))
  {
    hide TableOk, Fine, Fill, FillHonest;
    FineReflexive(t);
    if t.socks[i].stream && t.socks[i].hw < 0 {
      var t1 := Set(t, i, t.socks[i].(listening := true));
      ShrinkFine(t, i, t.socks[i].(listening := true));
      FineIsOk(t, t1);
      FillFine(t1, i, tries, 0);
      FineComposes(t, t1, Listen(t, i, tries));
    }
  }

  // ---------------------------------------------------------------- close(), shutdown()

  lemma ShutdownFine(t: Table, i: Slot)
    requires TableOk(t) && Open(t, i)
    ensures Fine(t, Shutdown(t, i))
  {
    hide TableOk, Fine;
    FineReflexive(t);
    DropHwFine(t, i);
  }

  /** A backlog's hardware sockets, in order. */
  function HwsOf(t: Table, q: seq<Slot>): seq<Hw> {
    if q == [] then []
    else (if t.socks[q[0]].hw >= 0 then [t.socks[q[0]].hw as Hw] else []) + HwsOf(t, q[1..])
  }

  lemma DrainHead(t: Table, i: Slot) returns (r: Table)
    requires TableOk(t) && Open(t, i) && t.socks[i].pend.count > 0
    ensures TableOk(r) && Open(r, i) && Fine(t, r) && DrainBacklog(t, i) == DrainBacklog(r, i)
    ensures var q := Backlog(t.socks[i].pend);
      && |q| > 0 && q[0] != i && r.socks[i] == t.socks[i].(pend := r.socks[i].pend)
      && Backlog(r.socks[i].pend) == q[1..] && r.socks[i].pend.count < t.socks[i].pend.count
      && r.socks[q[0]] == t.socks[q[0]].(hw := -1, inUse := false)
      && (forall j: Slot :: j != i && j != q[0] ==> r.socks[j] == t.socks[j])
      && r.shut == t.shut + (if t.socks[q[0]].hw >= 0 then [t.socks[q[0]].hw as Hw] else [])
  {
    hide TableOk, Claimed, Fine, Pop, Backlog;
    var ring := t.socks[i].pend;
    PopTakesOldest(ring);
    var c := ring.cells[ring.head];
    assert Backlog(ring)[0] == c && Backlog(ring)[1..] == Backlog(Pop(ring));
    PopFine(t, i);
    var t1 := Set(t, i, t.socks[i].(pend := Pop(ring)));
    FineIsOk(t, t1);
    ClaimedIsNotOpen(t1, c);
    var s := t1.socks[c].(hw := -1, inUse := false);
    var shut := if t1.socks[c].hw >= 0 then t.shut + [t1.socks[c].hw] else t.shut;
    DiscardFine(t, i, s, shut);
    r := Set(t1, c, s).(shut := shut);
    FineIsOk(t, r);
  }

  lemma HwsOfSame(t: Table, u: Table, q: seq<Slot>)
    requires forall k | 0 <= k < |q| :: u.socks[q[k]].hw == t.socks[q[k]].hw
    ensures HwsOf(t, q) == HwsOf(u, q)
  {
  }

  /** What draining does: every waiting connection is freed and its hardware socket closed, in order. */
  ghost predicate Drained(t: Table, r: Table, i: Slot, q: seq<Slot>) {
    && r.socks[i] == t.socks[i].(pend := r.socks[i].pend)
    && r.socks[i].pend.count == 0
    && (forall k | 0 <= k < |q| :: r.socks[q[k]] == t.socks[q[k]].(hw := -1, inUse := false))
    && (forall j: Slot :: j != i && j !in q ==> r.socks[j] == t.socks[j])
    && r.shut == t.shut + HwsOf(t, q)
  }

  lemma DrainedCons(t: Table, u: Table, r: Table, i: Slot, q: seq<Slot>)
    requires |q| > 0 && NoDup(q) && i !in q && Drained(u, r, i, q[1..])
    requires u.socks[i] == t.socks[i].(pend := u.socks[i].pend)
    requires u.socks[q[0]] == t.socks[q[0]].(hw := -1, inUse := false)
    requires forall j: Slot :: j != i && j != q[0] ==> u.socks[j] == t.socks[j]
    requires u.shut == t.shut + (if t.socks[q[0]].hw >= 0 then [t.socks[q[0]].hw as Hw] else [])
    ensures Drained(t, r, i, q)
  {
    forall k | 0 <= k < |q| - 1
      ensures q[1..][k] == q[k + 1] != q[0] && q[k + 1] != i
    {
    }
    HwsOfSame(t, u, q[1..]);
    forall k | 0 <= k < |q|
      ensures r.socks[q[k]] == t.socks[q[k]].(hw := -1, inUse := false)
    {
      if k > 0 {
        assert q[1..][k - 1] == q[k];
      } else {
        assert q[0] !in q[1..];
      }
    }
    forall j: Slot | j != i && j !in q
      ensures r.socks[j] == t.socks[j]
    {
      assert j !in q[1..];
    }
  }

  lemma BacklogIsOthers(t: Table, i: Slot)
    requires TableOk(t) && Open(t, i)
    ensures NoDup(Backlog(t.socks[i].pend)) && i !in Backlog(t.socks[i].pend)
  {
    FdIsUnclaimed(t, i);
    assert LocalOk(t.socks[i]) && !Waits(t.socks[i], i);
  }

  lemma {:induction false} DrainIs(t: Table, i: Slot)
    requires TableOk(t) && Open(t, i)
    ensures TableOk(DrainBacklog(t, i)) && Open(DrainBacklog(t, i), i) && Fine(t, DrainBacklog(t, i))
    ensures Drained(t, DrainBacklog(t, i), i, Backlog(t.socks[i].pend))
    decreases t.socks[i].pend.count
  {
    hide TableOk, Fine, Backlog, DrainBacklog, NoDup;
    var q := Backlog(t.socks[i].pend);
    if t.socks[i].pend.count == 0 {
      DrainNone(t, i);
    } else {
      hide Drained, HwsOf;
      var r := DrainHead(t, i);
      DrainIs(r, i);
      BacklogIsOthers(t, i);
      DrainedCons(t, r, DrainBacklog(t, i), i, q);
      FineComposes(t, r, DrainBacklog(t, i));
    }
  }

  lemma DrainNone(t: Table, i: Slot)
    requires TableOk(t) && t.socks[i].pend.count == 0
    ensures DrainBacklog(t, i) == t && Fine(t, t)
  {
    FineReflexive(t);
  }

  lemma BuriedKeeps(t: Table, i: Slot)
    requires TableOk(t) && Open(t, i)
    ensures TableOk(Buried(t, i))
    ensures forall h: Hw :: !Holds(Buried(t, i).socks[i], h)
    ensures forall h: Hw :: Holds(t.socks[i], h) ==> Unheld(Buried(t, i), h)
  {
    var s := t.socks[i].(zombie := true, listening := false, pool := t.socks[i].pool.(count := 0), hw := -1);
    assert LocalOk(t.socks[i]);
    assert Members(s.pool) == [];
    FdIsUnclaimed(t, i);
    SetKeeps(t, i, s);
    SameSocks(Set(t, i, s), Buried(t, i));
  }

  /**
    close(): the socket is a zombie, its slot stays in use exactly while operations are in flight, and
    every connection nobody accepted goes with it.
   */
  lemma CloseIs(t: Table, i: Slot)
    requires TableOk(t) && Open(t, i) && !t.socks[i].zombie
    ensures var r := Close(t, i);
      var q := Backlog(t.socks[i].pend);
      var s := t.socks[i];
      && TableOk(r)
      && r.socks[i].zombie && r.socks[i].hasFd && r.socks[i].users == s.users && r.socks[i].gen == s.gen
      && r.socks[i].inUse == (s.users > 0)
      && (forall h: Hw :: !Holds(r.socks[i], h))
      && r.socks[i].pend.count == 0
      && i !in q && (forall c | c in q :: r.socks[c] == t.socks[c].(hw := -1, inUse := false))
      && (forall j: Slot :: j != i && j !in q ==> r.socks[j] == t.socks[j])
      && r.shut == t.shut + Members(s.pool) + (if s.hw >= 0 then [s.hw as Hw] else []) + HwsOf(t, q)
  {
    hide TableOk, Fine, DrainBacklog, Backlog, HwsOf, Members, NoDup;
    var b := Buried(t, i);
    var q := Backlog(t.socks[i].pend);
    BacklogIsOthers(t, i);
    BuriedKeeps(t, i);
    DrainIs(b, i);
    HwsOfSame(t, b, q);
    var d := DrainBacklog(b, i);
    assert Holds(d.socks[i], 0) == Holds(b.socks[i], 0);
    forall h: Hw
      ensures !Holds(d.socks[i], h)
    {
      assert !Holds(b.socks[i], h);
    }
    if d.socks[i].users == 0 {
      FreeOpen(d, i);
    }
  }

  lemma FreeOpen(t: Table, i: Slot)
    requires TableOk(t) && Open(t, i) && t.socks[i].users == 0
    ensures TableOk(Set(t, i, Freed(t.socks[i])))
  {
    FdIsUnclaimed(t, i);
    SetKeeps(t, i, Freed(t.socks[i]));
  }

  /** close() leaves everyone else's lifetime alone. */
  lemma CloseIsQuietElsewhere(t: Table, i: Slot, j: Slot)
    requires TableOk(t) && Open(t, i) && !t.socks[i].zombie && j != i
    ensures Quiet(t.socks[j], Close(t, i).socks[j])
  {
    hide Close, Backlog;
    CloseIs(t, i);
    FineReflexive(t);
    var q := Backlog(t.socks[i].pend);
    if j in q {
      assert Waits(t.socks[i], j);
      assert LocalOk(t.socks[j]);
    }
  }

  /**
    Nothing a closed listener or connection held is held by anybody afterwards: neither its own hardware
    sockets nor those of the connections in its backlog.
   */
  lemma CloseReturnsHardware(t: Table, i: Slot, h: Hw)
    requires TableOk(t) && Open(t, i) && !t.socks[i].zombie
    requires Holds(t.socks[i], h) || exists c: Slot :: Waits(t.socks[i], c) && Holds(t.socks[c], h)
    ensures Unheld(Close(t, i), h)
  {
    hide Close, Backlog, LocalOk;
    CloseIs(t, i);
    var r := Close(t, i);
    var q := Backlog(t.socks[i].pend);
    var k: Slot := if Holds(t.socks[i], h) then i else
      var c: Slot :| Waits(t.socks[i], c) && Holds(t.socks[c], h);
      c;
    assert Exclusive(t);
    forall j: Slot
      ensures !Holds(r.socks[j], h)
    {
      assert j != k ==> !Holds(t.socks[j], h);
      assert k == i || k in q;
    }
  }
}
