/**
  Connections without a descriptor. Each waits in the backlog of a listener that is still open, except when
  accept() promotes one onto a listener that is closed already: nobody ever frees that connection.
 */
module W5500Orphans {
  import opened W5500Fifo
  import opened W5500Table
  import opened W5500Invariant
  import opened W5500Calls
  import opened W5500Runs
  import opened W5500Close

  /** Connection c waits in the backlog of slot l, which is open. */
  predicate Adopts(t: Table, l: Slot, c: Slot) {
    Waits(t.socks[l], c) && !t.socks[l].zombie
  }

  ghost predicate HasParent(t: Table, c: Slot) {
    exists l: Slot :: Adopts(t, l, c)
  }

  predicate QuietZombie(s: Sock) {
    s.inUse && s.zombie ==> !s.listening
  }

  /** Every connection without descriptor, `but` one, has a listener to wait for; no closed socket listens. */
  ghost predicate AdoptedBut(t: Table, but: int) {
    && (forall c: Slot :: Awaiting(t.socks[c]) && c != but ==> HasParent(t, c))
    && (forall i: Slot :: QuietZombie(t.socks[i]))
  }

  ghost predicate Adopted(t: Table) {
    AdoptedBut(t, -1)
  }

  lemma OnlyOpenOnesHaveABacklog(t: Table, i: Slot)
    requires TableOk(t) && Adopted(t)
    ensures t.socks[i].inUse && t.socks[i].pend.count > 0 ==> !t.socks[i].zombie
  {
    hide LocalOk, Exclusive;
    if t.socks[i].inUse && t.socks[i].pend.count > 0 {
      var c := Backlog(t.socks[i].pend)[0];
      assert Waits(t.socks[i], c);
      assert Awaiting(t.socks[c]) && HasParent(t, c);
      var l: Slot :| Adopts(t, l, c);
      assert Waits(t.socks[l], c);
    }
  }

  /** Nothing that matters here differs. */
  predicate SameFamily(a: Sock, b: Sock) {
    b.inUse == a.inUse && b.hasFd == a.hasFd && b.pend == a.pend && b.zombie == a.zombie
    && (b.listening ==> a.listening || !a.zombie)
  }

  /** Only slot i changed, and nothing that matters here. */
  predicate Rewrites(t: Table, r: Table, i: Slot) {
    (forall j: Slot :: j != i ==> r.socks[j] == t.socks[j]) && SameFamily(t.socks[i], r.socks[i])
  }

  lemma SameKeeps(t: Table, r: Table, l: Slot, but: int)
    requires AdoptedBut(t, but) && Rewrites(t, r, l)
    ensures AdoptedBut(r, but)
  {
    assert forall i: Slot :: SameFamily(t.socks[i], r.socks[i]);
    forall c: Slot | Awaiting(r.socks[c]) && c != but
      ensures HasParent(r, c)
    {
      assert SameFamily(t.socks[c], r.socks[c]);
      var l: Slot :| Adopts(t, l, c);
      assert SameFamily(t.socks[l], r.socks[l]);
      assert Adopts(r, l, c);
    }
    forall i: Slot
      ensures QuietZombie(r.socks[i])
    {
      assert SameFamily(t.socks[i], r.socks[i]) && QuietZombie(t.socks[i]);
    }
  }

  // ---------------------------------------------------------------- what each piece of code does to the families

  lemma FillIsSame(t: Table, l: Slot, tries: nat -> Try)
    ensures Rewrites(t, Fill(t, l, tries, 0), l)
  {
    FillFrame(t, l, tries, 0);
  }

  lemma UdpOpenIsSame(t: Table, i: Slot, closed: set<Hw>, opens: bool, port: nat)
    ensures Rewrites(t, UdpOpen(t, i, closed, opens, port), i)
  {
    hide HwAlloc;
  }

  lemma BindIsSame(t: Table, i: Slot, port: nat, closed: set<Hw>, opens: bool, ephemeral: nat)
    ensures Rewrites(t, Bind(t, i, port, closed, opens, ephemeral), i)
  {
    hide HwAlloc, UdpOpen;
    var t1 := if t.socks[i].hw >= 0 && port != t.socks[i].port then DropHw(t, i) else t;
    var t2 := Set(t1, i, t1.socks[i].(port := port));
    assert Rewrites(t, t2, i);
    UdpOpenIsSame(t2, i, closed, opens, if port != 0 then port else ephemeral);
  }

  lemma ConnectIsSame(t: Table, i: Slot, closed: set<Hw>, opens: bool, connects: bool)
    ensures Rewrites(t, Connect(t, i, closed, opens, connects).0, i)
  {
    hide HwAlloc;
  }

  lemma LookIsSame(t: Table, i: Slot, sr: Status, timedOut: bool, nonblock: bool)
    ensures Rewrites(t, ConnectLook(t, i, sr, timedOut, nonblock).0, i)
  {
  }

  lemma ListenIsSame(t: Table, i: Slot, tries: nat -> Try)
    requires !t.socks[i].zombie
    ensures Rewrites(t, Listen(t, i, tries), i)
  {
    hide Fill;
    FillFrame(Set(t, i, t.socks[i].(listening := true)), i, tries, 0);
  }

  lemma UdpIsSame(w: World, i: Slot, opensUdp: bool, closed: set<Hw>, opens: bool, ephemeral: nat)
    ensures Rewrites(w.t, SendOpens(w, i, opensUdp, closed, opens, ephemeral).t, i)
  {
    hide HwAlloc;
  }

  /** Promotion: the first free slot becomes a connection at the end of the listener's backlog. */
  lemma PromoteShape(t: Table, l: Slot, idx: nat, tries: nat -> Try)
    requires t.socks[l].inUse && idx < t.socks[l].pool.count && !PromotionRefused(t, l)
    ensures var r := Promote(t, l, idx, tries);
      var c: Slot := FirstFree(t, 0);
      && c != l && !t.socks[c].inUse
      && r.socks[c] == Child(t, l, c, t.socks[l].pool.cells[idx])
      && r.socks[l] == t.socks[l].(pool := r.socks[l].pool, pend := Push(t.socks[l].pend, c))
      && Backlog(r.socks[l].pend) == Backlog(t.socks[l].pend) + [c]
      && forall j: Slot :: j != l && j != c ==> r.socks[j] == t.socks[j]
  {
    hide Fill, Removed, Push, Child, Backlog;
    var d := Detached(t, l, idx);
    DetachedIs(t, l, idx);
    FillFrame(d, l, tries, 0);
    PushAppends(t.socks[l].pend, FirstFree(t, 0));
  }

  lemma PromoteKeeps(t: Table, l: Slot, idx: nat, tries: nat -> Try, but: int)
    requires AdoptedBut(t, but) && t.socks[l].inUse && !t.socks[l].zombie && idx < t.socks[l].pool.count
    ensures AdoptedBut(Promote(t, l, idx, tries), but)
  {
    hide Promote, Backlog;
    if PromotionRefused(t, l) {
      RefusedIsNothing(t, l, idx, tries);
    } else {
      PromoteShape(t, l, idx, tries);
      var r := Promote(t, l, idx, tries);
      var c: Slot := FirstFree(t, 0);
      forall x: Slot | Awaiting(r.socks[x]) && x != but
        ensures HasParent(r, x)
      {
        if x == c {
          assert Adopts(r, l, c);
        } else {
          var p: Slot :| Adopts(t, p, x);
          assert Adopts(r, p, x);
        }
      }
      forall i: Slot
        ensures QuietZombie(r.socks[i])
      {
        assert QuietZombie(t.socks[i]);
      }
    }
  }

  lemma RefusedIsNothing(t: Table, l: Slot, idx: nat, tries: nat -> Try)
    requires idx < t.socks[l].pool.count && PromotionRefused(t, l)
    ensures Promote(t, l, idx, tries) == t
  {
  }

  /** A child of a closed listener has no parent. */
  lemma PromoteOrphans(t: Table, l: Slot, idx: nat, tries: nat -> Try)
    requires t.socks[l].inUse && t.socks[l].zombie
    requires idx < t.socks[l].pool.count && !PromotionRefused(t, l)
    ensures var r := Promote(t, l, idx, tries);
      Awaiting(r.socks[FirstFree(t, 0)]) && Waits(r.socks[l], FirstFree(t, 0)) && r.socks[l].zombie
  {
    hide Promote, Backlog;
    PromoteShape(t, l, idx, tries);
  }

  /** Reaping frees connections of the backlog, and changes the listener's backlog only. */
  lemma {:induction false} ReapShape(t: Table, l: Slot, closed: set<Hw>)
    requires TableOk(t) && Open(t, l)
    ensures var r := Reap(t, l, closed).0;
      && r.socks[l] == t.socks[l].(pend := r.socks[l].pend)
      && forall j: Slot :: j != l ==>
           r.socks[j] == t.socks[j] || (Awaiting(t.socks[j]) && r.socks[j] == Freed(t.socks[j]))
    decreases t.socks[l].pend.count
  {
    hide TableOk, Claimed, Fine, Pop;
    var ring := t.socks[l].pend;
    if ring.count == 0 {
    } else {
      var c := ring.cells[ring.head];
      var t1 := Set(t, l, t.socks[l].(pend := Pop(ring)));
      var hw := t1.socks[c].hw;
      PopFine(t, l);
      ClaimedIsNotOpen(t1, c);
      if hw >= 0 && hw !in closed {
      } else {
        var r := Set(t1, c, Freed(t1.socks[c])).(shut := if hw >= 0 then t.shut + [hw] else t.shut);
        DiscardFine(t, l, Freed(t1.socks[c]), r.shut);
        FineIsOk(t, r);
        ReapShape(r, l, closed);
      }
    }
  }

  lemma StillWaits(q: seq<Slot>, k: nat, x: Slot)
    requires k <= |q| && x in q && (forall i | 0 <= i < k :: q[i] != x) && (k < |q| ==> q[k] != x)
    ensures k < |q| && x in q[k + 1..]
  {
    var m :| 0 <= m < |q| && q[m] == x;
    assert m != k && m >= k;
    assert q[k + 1..][m - k - 1] == x;
  }

  lemma ParentsAreKnown(t: Table, p: Slot, x: Slot)
    requires TableOk(t) && Waits(t.socks[p], x)
    ensures !Awaiting(t.socks[p])
  {
    assert LocalOk(t.socks[p]);
  }

  lemma ReapKeeps(t: Table, l: Slot, closed: set<Hw>)
    requires TableOk(t) && Open(t, l) && Adopted(t)
    ensures AdoptedBut(Reap(t, l, closed).0, Reap(t, l, closed).1)
  {
    hide TableOk, Reap, Backlog, Live;
    var (r, c) := Reap(t, l, closed);
    ReapShape(t, l, closed);
    forall x: Slot | Awaiting(r.socks[x]) && x != c
      ensures HasParent(r, x)
    {
      assert r.socks[x] == t.socks[x];
      var p: Slot :| Adopts(t, p, x);
      ParentsAreKnown(t, p, x);
      if p == l {
        NotReapedWaits(t, l, closed, x);
        assert Adopts(r, l, x);
      } else {
        assert Adopts(r, p, x);
      }
    }
    forall i: Slot
      ensures QuietZombie(r.socks[i])
    {
      assert QuietZombie(t.socks[i]);
    }
  }

  /** A connection of the backlog that is neither taken nor freed still waits there. */
  lemma NotReapedWaits(t: Table, l: Slot, closed: set<Hw>, x: Slot)
    requires TableOk(t) && Open(t, l) && x in Backlog(t.socks[l].pend)
    requires Reap(t, l, closed).0.socks[x].inUse && Reap(t, l, closed).1 != x
    ensures x in Backlog(Reap(t, l, closed).0.socks[l].pend)
  {
    hide TableOk, Reap, Backlog, Live;
    var q := Backlog(t.socks[l].pend);
    ReapIsFifo(t, l, closed);
    StillWaits(q, FirstLive(t, closed, q), x);
  }

  lemma InlineKeeps(t: Table, l: Slot, turn: Turn, but: int)
    requires AdoptedBut(t, but) && Open(t, l) && !t.socks[l].zombie
    ensures AdoptedBut(PromoteInline(t, l, turn), but)
  {
    hide Promote;
    var idx := FirstEstablished(t.socks[l].pool, turn.established, 0);
    if idx >= 0 {
      PromoteKeeps(t, l, idx, turn.promoting, but);
    }
  }

  lemma RearmKeeps(t: Table, l: Slot, c: int, turn: Turn, but: int)
    requires AdoptedBut(t, but)
    ensures AdoptedBut(Rearm(t, l, c, turn), but)
  {
    hide Fill;
    FillIsSame(t, l, turn.filling);
    if c < 0 {
      SameKeeps(t, Fill(t, l, turn.filling, 0), l, but);
    }
  }

  lemma DeliverKeeps(t: Table, c: Slot, fdAvailable: bool)
    requires TableOk(t) && Claimed(t, c) && AdoptedBut(t, c)
    ensures Adopted(Deliver(t, c, fdAvailable))
  {
    var r := Deliver(t, c, fdAvailable);
    assert LocalOk(t.socks[c]);
    hide TableOk, Backlog;
    forall x: Slot | Awaiting(r.socks[x])
      ensures HasParent(r, x)
    {
      assert x != c && r.socks[x] == t.socks[x];
      var p: Slot :| Adopts(t, p, x);
      ParentsAreKnown(t, p, x);
      assert Adopts(r, p, x);
    }
    forall i: Slot
      ensures QuietZombie(r.socks[i])
    {
      assert QuietZombie(t.socks[i]);
    }
  }

  /** One look of accept() at an open listener. */
  lemma OpenTurnKeeps(t: Table, l: Slot, turn: Turn)
    requires TableOk(t) && Open(t, l) && !t.socks[l].zombie && TurnHonest(t, l, turn) && Adopted(t)
    ensures Adopted(AcceptTurn(t, l, turn).0)
  {
    hide TableOk, Fine, Claimed, Reap, PromoteInline, Rearm, Deliver, FillHonest, PromoteHonest, AdoptedBut;
    var (t1, c) := Reap(t, l, turn.closed);
    ReapFine(t, l, turn.closed);
    ReapKeeps(t, l, turn.closed);
    StaysOpen(t, t1, l);
    FineIsOk(t, t1);
    var t2 := PromoteInline(t1, l, turn);
    PromoteInlineFine(t1, l, turn);
    InlineKeeps(t1, l, turn, c);
    StaysOpen(t1, t2, l);
    FineIsOk(t1, t2);
    var t3 := Rearm(t2, l, c, turn);
    RearmFine(t2, l, c, turn);
    RearmKeeps(t2, l, c, turn, c);
    StaysOpen(t2, t3, l);
    FineIsOk(t2, t3);
    if c >= 0 {
      FineComposes(t1, t2, t3);
      FineClaims(t1, t3, c);
      DeliverKeeps(t3, c, turn.fdAvailable);
    }
  }

  lemma StaysOpen(t: Table, r: Table, l: Slot)
    requires Fine(t, r) && Open(t, l)
    ensures Open(r, l) && r.socks[l].zombie == t.socks[l].zombie
  {
    assert Quiet(t.socks[l], r.socks[l]);
  }

  /** The look finds an established hardware socket in the pool and a slot for it. */
  predicate Promotes(t: Table, l: Slot, turn: Turn) {
    FirstEstablished(t.socks[l].pool, turn.established, 0) >= 0 && !PromotionRefused(t, l)
  }

  /** One look of accept() at a closed listener leaves an orphan exactly if it promotes. */
  lemma ClosedTurnOrphans(t: Table, l: Slot, turn: Turn)
    requires TableOk(t) && Open(t, l) && t.socks[l].zombie && TurnHonest(t, l, turn) && Adopted(t)
    ensures var r := AcceptTurn(t, l, turn).0;
      if Promotes(t, l, turn) then
        var c: Slot := FirstFree(t, 0);
        Awaiting(r.socks[c]) && Waits(r.socks[l], c) && r.socks[l].zombie
      else Adopted(r)
  {
    hide TableOk, Promote, AdoptedBut, Fill, TurnHonest, FirstFree, Backlog;
    OnlyOpenOnesHaveABacklog(t, l);
    assert Reap(t, l, turn.closed) == (t, -1);
    var t2 := PromoteInline(t, l, turn);
    var idx := FirstEstablished(t.socks[l].pool, turn.established, 0);
    if Promotes(t, l, turn) {
      PromoteOrphans(t, l, idx, turn.promoting);
    } else if idx >= 0 {
      RefusedIsNothing(t, l, idx, turn.promoting);
    }
    FillIsSame(t2, l, turn.filling);
    RearmKeepsIf(t2, l, turn);
  }

  lemma RearmKeepsIf(t: Table, l: Slot, turn: Turn)
    ensures Adopted(t) ==> Adopted(Rearm(t, l, -1, turn))
  {
    if Adopted(t) {
      RearmKeeps(t, l, -1, turn, -1);
    }
  }

  // ---------------------------------------------------------------- the other steps

  /** A call comes or goes: only a closed listener's slot can be freed by it. */
  lemma BooksKeep(w: World, i: Slot, kind: Kind)
    requires Open(w.t, i) && Adopted(w.t)
    ensures Adopted(Enter(w, i, kind).t) && Adopted(Leave(w, i, kind).t)
  {
    hide Backlog;
    var e, r := Enter(w, i, kind).t, Leave(w, i, kind).t;
    SameKeeps(w.t, e, i, -1);
    forall x: Slot | Awaiting(r.socks[x])
      ensures HasParent(r, x)
    {
      assert r.socks[x] == w.t.socks[x];
      var p: Slot :| Adopts(w.t, p, x);
      assert Adopts(r, p, x);
    }
    forall j: Slot
      ensures QuietZombie(r.socks[j])
    {
      assert QuietZombie(w.t.socks[j]);
    }
  }

  lemma CreateKeepsFamilies(t: Table, stream: bool)
    requires Adopted(t)
    ensures Adopted(Create(t, stream))
  {
    var r := Create(t, stream);
    FirstFreeIs(t, 0);
    forall x: Slot | Awaiting(r.socks[x])
      ensures HasParent(r, x)
    {
      var p: Slot :| Adopts(t, p, x);
      assert Adopts(r, p, x);
    }
    forall j: Slot
      ensures QuietZombie(r.socks[j])
    {
      assert QuietZombie(t.socks[j]);
    }
  }

  lemma ShutdownKeepsFamilies(t: Table, i: Slot)
    requires Adopted(t)
    ensures Adopted(Shutdown(t, i))
  {
    SameKeeps(t, Shutdown(t, i), i, -1);
  }

  lemma CloseKeepsFamilies(t: Table, i: Slot)
    requires TableOk(t) && Open(t, i) && Adopted(t)
    ensures Adopted(Close(t, i))
  {
    if t.socks[i].zombie {
      ZombieCloseIsNothing(t, i);
    } else {
      var r := Close(t, i);
      CloseIs(t, i);
      CloseLeavesNothing(t, i);
      hide TableOk, Close, Backlog, Members, HwsOf, Holds;
      forall x: Slot | Awaiting(r.socks[x])
        ensures HasParent(r, x)
      {
        assert r.socks[x] == t.socks[x];
        var p: Slot :| Adopts(t, p, x);
        ParentsAreKnown(t, p, x);
        BacklogAwaits(t, i, p);
        assert Adopts(r, p, x);
      }
      forall j: Slot
        ensures QuietZombie(r.socks[j])
      {
        assert QuietZombie(t.socks[j]);
      }
    }
  }

  lemma BacklogAwaits(t: Table, i: Slot, c: Slot)
    requires TableOk(t) && t.socks[i].inUse
    ensures c in Backlog(t.socks[i].pend) ==> Awaiting(t.socks[c])
  {
    assert c in Backlog(t.socks[i].pend) ==> Waits(t.socks[i], c);
  }

  lemma ScanKeepsFamilies(t: Table, l: Slot, idx: nat, sr: Status, tries: nat -> Try)
    requires Adopted(t) && t.socks[l].inUse && t.socks[l].listening && idx < t.socks[l].pool.count
    ensures Adopted(ScanTurn(t, l, idx, sr, tries).0)
  {
    hide Promote, Removed;
    assert QuietZombie(t.socks[l]);
    if sr.Established? {
      PromoteKeeps(t, l, idx, tries, -1);
    } else {
      SameKeeps(t, ScanTurn(t, l, idx, sr, tries).0, l, -1);
    }
  }

  /** The call returns or sleeps after a change of the table that keeps the families. */
  lemma SettleAdopts(w: World, t: Table, i: Slot, kind: Kind, done: bool)
    requires Adopted(t) && Open(t, i)
    ensures Adopted(Settle(w.(t := t), i, kind, done).t)
  {
    hide AdoptedBut;
    BooksKeep(w.(t := t), i, kind);
  }

  lemma TableStepAdopts(w: World, step: Step)
    requires Inv(w) && Enabled(w, step) && HonestStep(w, step) && Adopted(w.t)
    requires step.Socket? || step.BindCall? || step.ListenCall? || step.ShutdownCall? || step.CloseCall?
             || step.ServiceScan? || step.ServiceRefill?
    ensures Adopted(Next(w, step).t)
  {
    hide TableOk, OpsOk, AdoptedBut, Create, Bind, Listen, Shutdown, Close, ScanTurn, Fill, HonestStep;
    match step {
      case Socket(stream) => CreateKeepsFamilies(w.t, stream);
      case BindCall(i, port, closed, opens, ephemeral) =>
        BindIsSame(w.t, i, port, closed, opens, ephemeral);
        SameKeeps(w.t, Bind(w.t, i, port, closed, opens, ephemeral), i, -1);
      case ListenCall(i, tries) =>
        if Held(w.t.socks[i]) {
          ListenIsSame(w.t, i, tries);
          SameKeeps(w.t, Listen(w.t, i, tries), i, -1);
        }
      case ShutdownCall(i) => ShutdownKeepsFamilies(w.t, i);
      case CloseCall(i) => CloseKeepsFamilies(w.t, i);
      case ServiceScan(i, idx, sr, tries) => ScanKeepsFamilies(w.t, i, idx, sr, tries);
      case ServiceRefill(i, tries) =>
        FillIsSame(w.t, i, tries);
        SameKeeps(w.t, Fill(w.t, i, tries, 0), i, -1);
    }
  }

  lemma LookAdopts(w: World, i: Slot, sr: Status, timedOut: bool, nonblock: bool)
    requires Adopted(w.t) && Open(w.t, i)
    ensures Adopted(Look(w, i, sr, timedOut, nonblock).t)
  {
    hide AdoptedBut, ConnectLook, Settle;
    var (t1, looked) := ConnectLook(w.t, i, sr, timedOut, nonblock);
    LookIsSame(w.t, i, sr, timedOut, nonblock);
    SameKeeps(w.t, t1, i, -1);
    assert SameFamily(w.t.socks[i], t1.socks[i]);
    SettleAdopts(w, t1, i, Connecting, looked.Returns?);
  }

  lemma ConnectAdopts(w: World, i: Slot, closed: set<Hw>, opens: bool, connects: bool, sr: Status, nonblock: bool)
    requires Adopted(w.t) && Open(w.t, i)
    ensures Adopted(AfterConnect(w, i, closed, opens, connects, sr, nonblock).t)
  {
    hide AdoptedBut, Connect, Look, Leave;
    var (t1, waits) := Connect(w.t, i, closed, opens, connects);
    ConnectIsSame(w.t, i, closed, opens, connects);
    SameKeeps(w.t, t1, i, -1);
    assert SameFamily(w.t.socks[i], t1.socks[i]);
    if waits {
      LookAdopts(w.(t := t1), i, sr, false, nonblock);
    } else {
      BooksKeep(w.(t := t1), i, Connecting);
    }
  }

  lemma OpenAcceptAdopts(w: World, i: Slot, turn: Turn)
    requires Inv(w) && Open(w.t, i) && !w.t.socks[i].zombie && TurnHonest(w.t, i, turn) && Adopted(w.t)
    ensures Adopted(TurnOf(w, i, turn).t)
  {
    hide AdoptedBut, AcceptTurn, TurnHonest, Settle, TableOk, OpsOk;
    var (t1, c, done) := AcceptTurn(w.t, i, turn);
    OpenTurnKeeps(w.t, i, turn);
    AcceptTurnKeeps(w.t, i, turn);
    assert Quiet(w.t.socks[i], t1.socks[i]);
    SettleAdopts(w, t1, i, Accepting, done);
  }

  lemma SendAdopts(w: World, i: Slot, opensUdp: bool, closed: set<Hw>, opens: bool, ephemeral: nat, done: bool)
    requires Adopted(w.t) && Open(w.t, i)
    ensures Adopted(Settle(SendOpens(w, i, opensUdp, closed, opens, ephemeral), i, Sending, done).t)
  {
    hide AdoptedBut, SendOpens, Settle;
    var u := SendOpens(w, i, opensUdp, closed, opens, ephemeral);
    UdpIsSame(w, i, opensUdp, closed, opens, ephemeral);
    SameKeeps(w.t, u.t, i, -1);
    assert SameFamily(w.t.socks[i], u.t.socks[i]);
    AwayUdp(w, i, opensUdp, closed, opens, ephemeral);
    SettleAdopts(w, u.t, i, Sending, done);
  }

  lemma CallAdopts(w: World, step: Step)
    requires Inv(w) && Enabled(w, step) && HonestStep(w, step) && Adopted(w.t)
    requires step.ConnectCall? || step.AcceptCall? || step.SendCall? || step.ReceiveCall?
    requires Held(w.t.socks[step.i])
    ensures Adopted(Next(w, step).t)
  {
    hide Inv, AdoptedBut, Enter, Leave, AfterConnect, TurnOf, TurnHonest, SendOpens, Settle, Honest;
    var i := step.i;
    var kind := match step
      case ConnectCall(_, _, _, _, _, _) => Connecting
      case AcceptCall(_, _) => Accepting
      case SendCall(_, _, _, _, _, _) => Sending
      case ReceiveCall(_, _) => Receiving;
    var u := Enter(w, i, kind);
    EnterKeeps(w, i, kind);
    EnterIs(w, i, kind);
    BooksKeep(w, i, kind);
    BooksKeep(u, i, kind);
    match step {
      case ConnectCall(_, closed, opens, connects, sr, nonblock) =>
        ConnectAdopts(u, i, closed, opens, connects, sr, nonblock);
      case AcceptCall(_, turn) =>
        if w.t.socks[i].stream {
          OpenAcceptAdopts(u, i, turn);
        }
      case SendCall(_, opensUdp, closed, opens, ephemeral, done) =>
        SendAdopts(u, i, opensUdp, closed, opens, ephemeral, done);
      case ReceiveCall(_, done) => SettleAdopts(u, u.t, i, Receiving, done);
    }
  }

  /** accept() wakes on a listener that was closed meanwhile, and promotes a connection onto it. */
  predicate PromotesOntoClosed(w: World, step: Step) {
    && step.AcceptWake? && w.t.socks[step.i].zombie && Promotes(w.t, step.i, step.turn)
    && !(step.timedOut && NoneEstablished(w.t.socks[step.i].pool, step.established))
  }

  /** After its parent the connection has none, whether the parent's slot is freed or not. */
  lemma StrayAfterLeave(w: World, l: Slot, kind: Kind, c: Slot)
    requires TableOk(w.t) && Awaiting(w.t.socks[c]) && Waits(w.t.socks[l], c) && w.t.socks[l].zombie && c != l
    ensures Awaiting(Leave(w, l, kind).t.socks[c]) && !HasParent(Leave(w, l, kind).t, c)
    ensures !HasParent(w.t, c)
  {
    hide LocalOk, Exclusive, Backlog;
    var r := Leave(w, l, kind).t;
    forall p: Slot
      ensures !Adopts(r, p, c) && !Adopts(w.t, p, c)
    {
      if Waits(w.t.socks[p], c) {
        assert p == l;
      }
    }
  }

  lemma ClosedAcceptOrphans(w: World, i: Slot, turn: Turn)
    requires Inv(w) && Open(w.t, i) && w.t.socks[i].zombie && TurnHonest(w.t, i, turn) && Adopted(w.t)
    ensures Adopted(TurnOf(w, i, turn).t) <==> !Promotes(w.t, i, turn)
  {
    hide AcceptTurn, TurnHonest, TableOk, OpsOk, Backlog, Leave, Promotes;
    var (t1, c, done) := AcceptTurn(w.t, i, turn);
    ClosedTurnOrphans(w.t, i, turn);
    AcceptTurnKeeps(w.t, i, turn);
    assert Quiet(w.t.socks[i], t1.socks[i]);
    if Promotes(w.t, i, turn) {
      PromotesIs(w.t, i, turn);
      StrayAfterLeave(w.(t := t1), i, Accepting, FirstFree(w.t, 0));
    } else {
      SettleAdopts(w, t1, i, Accepting, done);
    }
  }

  lemma PromotesIs(t: Table, i: Slot, turn: Turn)
    requires Promotes(t, i, turn) && t.socks[i].inUse
    ensures FirstFree(t, 0) >= 0 && FirstFree(t, 0) != i
  {
    FirstFreeIs(t, 0);
  }

  lemma WakeAdopts(w: World, step: Step)
    requires Inv(w) && Enabled(w, step) && HonestStep(w, step) && Adopted(w.t)
    requires step.ConnectWake? || step.AcceptWake? || step.SendEnd? || step.ReceiveEnd?
    ensures Adopted(Next(w, step).t) <==> !PromotesOntoClosed(w, step)
  {
    hide TableOk, AdoptedBut, Leave, Look, TurnOf, TurnHonest, Promotes;
    var i := step.i;
    assert Open(w.t, i);
    match step {
      case ConnectWake(_, timedOut, sr, nonblock) => LookAdopts(w, i, sr, timedOut, nonblock);
      case AcceptWake(_, timedOut, established, turn) =>
        BooksKeep(w, i, Accepting);
        if w.t.socks[i].zombie {
          OnlyOpenOnesHaveABacklog(w.t, i);
          ClosedAcceptOrphans(w, i, turn);
        } else {
          OpenAcceptAdopts(w, i, turn);
        }
      case SendEnd(_) => BooksKeep(w, i, Sending);
      case ReceiveEnd(_) => BooksKeep(w, i, Receiving);
    }
  }

  /**
    While every connection without descriptor waits for an open listener, a step keeps that so if and only if
    it does not promote one onto a closed listener.
   */
  lemma StepOrphansIff(w: World, step: Step)
    requires Inv(w) && Enabled(w, step) && HonestStep(w, step) && Adopted(w.t)
    ensures Adopted(Next(w, step).t) <==> !PromotesOntoClosed(w, step)
  {
    hide Inv, Enabled, HonestStep, AdoptedBut, Next;
    if step.ConnectCall? || step.AcceptCall? || step.SendCall? || step.ReceiveCall? {
      if Held(w.t.socks[step.i]) {
        CallAdopts(w, step);
      } else {
        RefusedIsSame(w, step);
      }
    } else if step.ConnectWake? || step.AcceptWake? || step.SendEnd? || step.ReceiveEnd? {
      WakeAdopts(w, step);
    } else {
      TableStepAdopts(w, step);
    }
  }

  lemma RefusedIsSame(w: World, step: Step)
    requires step.ConnectCall? || step.AcceptCall? || step.SendCall? || step.ReceiveCall?
    requires !Held(w.t.socks[step.i])
    ensures Next(w, step) == w
  {
  }

  /** No step of the run promotes onto a closed listener. */
  predicate NeverOntoClosed(w: World, steps: seq<Step>)
    decreases |steps|
  {
    steps == [] || (!PromotesOntoClosed(w, steps[0]) && NeverOntoClosed(Next(w, steps[0]), steps[1..]))
  }

  lemma {:induction false} RunAdopts(w: World, steps: seq<Step>)
    requires Inv(w) && ValidRun(w, steps) && NeverOntoClosed(w, steps) && Adopted(w.t)
    ensures Adopted(After(w, steps).t)
    decreases |steps|
  {
    hide Inv, AllLive, Next, Enabled, HonestStep, AdoptedBut, PromotesOntoClosed;
    if steps == [] {
    } else {
      StepKeeps(w, steps[0]);
      StepOrphansIff(w, steps[0]);
      RunAdopts(Next(w, steps[0]), steps[1..]);
    }
  }

  /** Then every connection without descriptor waits, once, in the backlog of exactly one listener, and that is open. */
  lemma EveryConnectionIsAwaited(steps: seq<Step>, c: Slot)
    requires ValidRun(START, steps) && NeverOntoClosed(START, steps)
    ensures var t := After(START, steps).t;
      Awaiting(t.socks[c]) ==>
        exists l: Slot :: Waits(t.socks[l], c) && !t.socks[l].zombie
                          && forall k: Slot :: Waits(t.socks[k], c) ==> k == l
  {
    hide Next, Enabled, HonestStep, After, ValidRun, NeverOntoClosed;
    StartIsOk();
    assert forall i: Slot :: START.t.socks[i] == FREE_SOCK;
    RunAdopts(START, steps);
    RunKeepsInv(START, steps);
    var t := After(START, steps).t;
    if Awaiting(t.socks[c]) {
      var l: Slot :| Adopts(t, l, c);
      assert Waits(t.socks[l], c);
    }
  }

  // ---------------------------------------------------------------- an orphan stays

  /** A connection that nobody can accept, and no close() of a listener frees, is left alone. */
  ghost predicate Spares(t: Table, r: Table, c: Slot) {
    Claimed(t, c) ==> r.socks[c] == t.socks[c] && Claimed(r, c)
  }

  /** Only slot i changed, its backlog did not grow, and it was not handed out. */
  predicate OneSlot(t: Table, r: Table, i: Slot) {
    && (forall j: Slot :: j != i ==> r.socks[j] == t.socks[j])
    && r.socks[i].pend == t.socks[i].pend && (r.socks[i].inUse ==> t.socks[i].inUse)
  }

  lemma OneSlotSpares(t: Table, r: Table, i: Slot, c: Slot)
    requires OneSlot(t, r, i) && Open(t, i)
    ensures Spares(t, r, c)
  {
    hide Backlog;
    if Claimed(t, c) {
      forall j: Slot
        ensures !Waits(r.socks[j], c)
      {
        assert !Waits(t.socks[j], c);
      }
    }
  }

  lemma RewriteSpares(t: Table, r: Table, i: Slot, c: Slot)
    requires Rewrites(t, r, i) && Open(t, i)
    ensures Spares(t, r, c)
  {
    hide Claimed;
    OneSlotSpares(t, r, i, c);
  }

  lemma BooksAreOneSlot(w: World, i: Slot, kind: Kind)
    ensures OneSlot(w.t, Enter(w, i, kind).t, i) && OneSlot(w.t, Leave(w, i, kind).t, i)
  {
  }

  lemma SparesComposes(t: Table, u: Table, r: Table, c: Slot)
    requires Spares(t, u, c) && Spares(u, r, c)
    ensures Spares(t, r, c)
  {
  }

  lemma SettleSpares(w: World, t: Table, i: Slot, kind: Kind, done: bool, c: Slot)
    requires Spares(w.t, t, c) && Open(t, i)
    ensures Spares(w.t, Settle(w.(t := t), i, kind, done).t, c)
  {
    hide Claimed, Leave;
    BooksAreOneSlot(w.(t := t), i, kind);
    OneSlotSpares(t, Leave(w.(t := t), i, kind).t, i, c);
  }

  lemma PromoteSpares(t: Table, l: Slot, idx: nat, tries: nat -> Try, c: Slot)
    requires Open(t, l) && idx < t.socks[l].pool.count
    ensures Spares(t, Promote(t, l, idx, tries), c)
  {
    hide Promote, Backlog;
    if PromotionRefused(t, l) {
      RefusedIsNothing(t, l, idx, tries);
    } else {
      PromoteShape(t, l, idx, tries);
      var r := Promote(t, l, idx, tries);
      assert Backlog(EMPTY_RING) == [];
      if Claimed(t, c) {
        forall j: Slot
          ensures !Waits(r.socks[j], c)
        {
          assert !Waits(t.socks[j], c);
        }
      }
    }
  }

  lemma ReapSpares(t: Table, l: Slot, closed: set<Hw>, c: Slot)
    requires TableOk(t) && Open(t, l)
    ensures Spares(t, Reap(t, l, closed).0, c) && (Claimed(t, c) ==> Reap(t, l, closed).1 != c)
  {
    hide TableOk, Reap, Backlog, Live;
    var (r, taken) := Reap(t, l, closed);
    var q := Backlog(t.socks[l].pend);
    ReapIsFifo(t, l, closed);
    ReapShape(t, l, closed);
    if Claimed(t, c) {
      assert !Waits(t.socks[l], c);
      assert r.socks[c] == t.socks[c];
      forall j: Slot
        ensures !Waits(r.socks[j], c)
      {
        assert !Waits(t.socks[j], c);
      }
    }
  }

  lemma DeliverSpares(t: Table, taken: Slot, fdAvailable: bool, c: Slot)
    requires taken != c && t.socks[taken].inUse
    ensures Spares(t, Deliver(t, taken, fdAvailable), c)
  {
    hide Backlog;
    var r := Deliver(t, taken, fdAvailable);
    if Claimed(t, c) {
      forall j: Slot
        ensures !Waits(r.socks[j], c)
      {
        assert !Waits(t.socks[j], c);
      }
    }
  }

  lemma AcceptSpares(t: Table, l: Slot, turn: Turn, c: Slot)
    requires TableOk(t) && Open(t, l) && TurnHonest(t, l, turn)
    ensures Spares(t, AcceptTurn(t, l, turn).0, c)
  {
    hide TableOk, Fine, Claimed, Reap, PromoteInline, Rearm, Deliver, FillHonest, PromoteHonest;
    var (t1, taken) := Reap(t, l, turn.closed);
    ReapFine(t, l, turn.closed);
    ReapSpares(t, l, turn.closed, c);
    FineIsOk(t, t1);
    var t2 := PromoteInline(t1, l, turn);
    PromoteInlineFine(t1, l, turn);
    InlineSpares(t1, l, turn, c);
    FineIsOk(t1, t2);
    var t3 := Rearm(t2, l, taken, turn);
    RearmFine(t2, l, taken, turn);
    RearmSpares(t2, l, taken, turn, c);
    FineComposes(t1, t2, t3);
    SparesComposes(t, t1, t2, c);
    SparesComposes(t, t2, t3, c);
    if taken >= 0 {
      FineClaims(t1, t3, taken);
      ClaimedIsNotOpen(t3, taken);
      if Claimed(t, c) {
        DeliverSpares(t3, taken, turn.fdAvailable, c);
      }
    }
  }

  lemma InlineSpares(t: Table, l: Slot, turn: Turn, c: Slot)
    requires Open(t, l)
    ensures Spares(t, PromoteInline(t, l, turn), c)
  {
    hide Promote;
    var idx := FirstEstablished(t.socks[l].pool, turn.established, 0);
    if idx >= 0 {
      PromoteSpares(t, l, idx, turn.promoting, c);
    }
  }

  lemma RearmSpares(t: Table, l: Slot, taken: int, turn: Turn, c: Slot)
    requires Open(t, l)
    ensures Spares(t, Rearm(t, l, taken, turn), c)
  {
    hide Fill;
    FillIsSame(t, l, turn.filling);
    if taken < 0 {
      RewriteSpares(t, Fill(t, l, turn.filling, 0), l, c);
    }
  }

  lemma CloseSpares(t: Table, i: Slot, c: Slot)
    requires TableOk(t) && Open(t, i)
    ensures Spares(t, Close(t, i), c)
  {
    if t.socks[i].zombie {
      ZombieCloseIsNothing(t, i);
    } else {
      CloseIs(t, i);
      hide TableOk, Close, Backlog, HwsOf, Members, Holds;
      assert Backlog(Close(t, i).socks[i].pend) == [];
      if Claimed(t, c) {
        assert !Waits(t.socks[i], c);
        forall j: Slot
          ensures !Waits(Close(t, i).socks[j], c)
        {
          assert !Waits(t.socks[j], c);
        }
      }
    }
  }

  lemma CreateSpares(t: Table, stream: bool, c: Slot)
    ensures Spares(t, Create(t, stream), c)
  {
    FirstFreeIs(t, 0);
    assert Backlog(EMPTY_RING) == [];
    hide Backlog;
    if Claimed(t, c) {
      forall j: Slot
        ensures !Waits(Create(t, stream).socks[j], c)
      {
        assert !Waits(t.socks[j], c);
      }
    }
  }

  lemma TableStepSpares(w: World, step: Step, c: Slot)
    requires Inv(w) && Enabled(w, step)
    requires step.Socket? || step.BindCall? || step.ListenCall? || step.ShutdownCall? || step.CloseCall?
             || step.ServiceScan? || step.ServiceRefill?
    ensures Spares(w.t, Next(w, step).t, c)
  {
    hide TableOk, OpsOk, Claimed, Create, Bind, Listen, Close, Fill, Rewrites, ScanTurn;
    match step {
      case Socket(stream) => CreateSpares(w.t, stream, c);
      case BindCall(i, port, closed, opens, ephemeral) =>
        BindIsSame(w.t, i, port, closed, opens, ephemeral);
        RewriteSpares(w.t, Next(w, step).t, i, c);
      case ListenCall(i, tries) =>
        if Held(w.t.socks[i]) {
          ListenIsSame(w.t, i, tries);
          RewriteSpares(w.t, Listen(w.t, i, tries), i, c);
        }
      case ShutdownCall(i) => ShutdownSpares(w.t, i, c);
      case CloseCall(i) => CloseSpares(w.t, i, c);
      case ServiceScan(i, idx, sr, tries) =>
        ListenerIsOpen(w.t, i);
        ScanSpares(w.t, i, idx, sr, tries, c);
      case ServiceRefill(i, tries) =>
        ListenerIsOpen(w.t, i);
        FillIsSame(w.t, i, tries);
        RewriteSpares(w.t, Fill(w.t, i, tries, 0), i, c);
    }
  }

  lemma ShutdownSpares(t: Table, i: Slot, c: Slot)
    requires Open(t, i)
    ensures Spares(t, Shutdown(t, i), c)
  {
    RewriteSpares(t, Shutdown(t, i), i, c);
  }

  lemma ScanSpares(t: Table, l: Slot, idx: nat, sr: Status, tries: nat -> Try, c: Slot)
    requires Open(t, l) && idx < t.socks[l].pool.count
    ensures Spares(t, ScanTurn(t, l, idx, sr, tries).0, c)
  {
    hide Promote, Removed, Claimed;
    if sr.Established? {
      PromoteSpares(t, l, idx, tries, c);
    } else {
      RewriteSpares(t, ScanTurn(t, l, idx, sr, tries).0, l, c);
    }
  }

  lemma LookSpares(w: World, i: Slot, sr: Status, timedOut: bool, nonblock: bool, c: Slot)
    requires Open(w.t, i)
    ensures Spares(w.t, Look(w, i, sr, timedOut, nonblock).t, c)
  {
    hide Claimed, ConnectLook, Settle;
    var (t1, looked) := ConnectLook(w.t, i, sr, timedOut, nonblock);
    LookIsSame(w.t, i, sr, timedOut, nonblock);
    RewriteSpares(w.t, t1, i, c);
    SettleSpares(w, t1, i, Connecting, looked.Returns?, c);
  }

  lemma ConnectSpares(w: World, i: Slot, closed: set<Hw>, opens: bool, connects: bool, sr: Status, nonblock: bool,
                      c: Slot)
    requires Open(w.t, i)
    ensures Spares(w.t, AfterConnect(w, i, closed, opens, connects, sr, nonblock).t, c)
  {
    hide Claimed, Connect, Look, Leave;
    var (t1, waits) := Connect(w.t, i, closed, opens, connects);
    ConnectIsSame(w.t, i, closed, opens, connects);
    RewriteSpares(w.t, t1, i, c);
    if waits {
      LookSpares(w.(t := t1), i, sr, false, nonblock, c);
    } else {
      SettleSpares(w, t1, i, Connecting, true, c);
    }
  }

  lemma TurnSpares(w: World, i: Slot, turn: Turn, c: Slot)
    requires Inv(w) && Open(w.t, i) && TurnHonest(w.t, i, turn)
    ensures Spares(w.t, TurnOf(w, i, turn).t, c)
  {
    hide AcceptTurn, TurnHonest, Settle, TableOk, OpsOk, Claimed;
    var (t1, taken, done) := AcceptTurn(w.t, i, turn);
    AcceptSpares(w.t, i, turn, c);
    AcceptTurnKeeps(w.t, i, turn);
    assert Quiet(w.t.socks[i], t1.socks[i]);
    SettleSpares(w, t1, i, Accepting, done, c);
  }

  lemma SendSpares(w: World, i: Slot, opensUdp: bool, closed: set<Hw>, opens: bool, ephemeral: nat, done: bool, c: Slot)
    requires Open(w.t, i)
    ensures Spares(w.t, Settle(SendOpens(w, i, opensUdp, closed, opens, ephemeral), i, Sending, done).t, c)
  {
    hide Claimed, SendOpens, Settle;
    var u := SendOpens(w, i, opensUdp, closed, opens, ephemeral);
    UdpIsSame(w, i, opensUdp, closed, opens, ephemeral);
    RewriteSpares(w.t, u.t, i, c);
    AwayUdp(w, i, opensUdp, closed, opens, ephemeral);
    SettleSpares(w, u.t, i, Sending, done, c);
  }

  lemma CallSpares(w: World, step: Step, c: Slot)
    requires Inv(w) && Enabled(w, step) && HonestStep(w, step)
    requires step.ConnectCall? || step.AcceptCall? || step.SendCall? || step.ReceiveCall?
    requires Held(w.t.socks[step.i])
    ensures Spares(w.t, Next(w, step).t, c)
  {
    hide Inv, Claimed, Enter, Leave, AfterConnect, TurnOf, TurnHonest, SendOpens, Settle, Honest, Spares;
    var i := step.i;
    var kind := match step
      case ConnectCall(_, _, _, _, _, _) => Connecting
      case AcceptCall(_, _) => Accepting
      case SendCall(_, _, _, _, _, _) => Sending
      case ReceiveCall(_, _) => Receiving;
    var u := Enter(w, i, kind);
    EnterKeeps(w, i, kind);
    EnterIs(w, i, kind);
    BooksAreOneSlot(w, i, kind);
    OneSlotSpares(w.t, u.t, i, c);
    BooksAreOneSlot(u, i, kind);
    OneSlotSpares(u.t, Leave(u, i, kind).t, i, c);
    match step {
      case ConnectCall(_, closed, opens, connects, sr, nonblock) =>
        ConnectSpares(u, i, closed, opens, connects, sr, nonblock, c);
      case AcceptCall(_, turn) =>
        if w.t.socks[i].stream {
          TurnSpares(u, i, turn, c);
        }
      case SendCall(_, opensUdp, closed, opens, ephemeral, done) =>
        SendSpares(u, i, opensUdp, closed, opens, ephemeral, done, c);
      case ReceiveCall(_, done) =>
        SparesItself(u.t, c);
        SettleSpares(u, u.t, i, Receiving, done, c);
    }
    SparesComposes(w.t, u.t, Next(w, step).t, c);
  }

  lemma SparesItself(t: Table, c: Slot)
    ensures Spares(t, t, c)
  {
  }

  /** No step touches a connection that waits for nobody. */
  lemma StepSpares(w: World, step: Step, c: Slot)
    requires Inv(w) && Enabled(w, step) && HonestStep(w, step)
    ensures Spares(w.t, Next(w, step).t, c)
  {
    hide TableOk, HonestStep, Spares, Leave, Look, TurnOf, TurnHonest;
    SparesItself(w.t, c);
    if step.ConnectCall? || step.AcceptCall? || step.SendCall? || step.ReceiveCall? {
      if Held(w.t.socks[step.i]) {
        CallSpares(w, step, c);
      }
    } else if step.ConnectWake? {
      LookSpares(w, step.i, step.sr, step.timedOut, step.nonblock, c);
    } else if step.AcceptWake? {
      WakeIsHonest(w, step);
      BooksAreOneSlot(w, step.i, Accepting);
      OneSlotSpares(w.t, Leave(w, step.i, Accepting).t, step.i, c);
      TurnSpares(w, step.i, step.turn, c);
    } else if step.SendEnd? || step.ReceiveEnd? {
      var kind := if step.SendEnd? then Sending else Receiving;
      BooksAreOneSlot(w, step.i, kind);
      OneSlotSpares(w.t, Leave(w, step.i, kind).t, step.i, c);
    } else {
      TableStepSpares(w, step, c);
    }
  }

  lemma WakeIsHonest(w: World, step: Step)
    requires step.AcceptWake? && HonestStep(w, step)
    ensures TurnHonest(w.t, step.i, step.turn)
  {
  }

  /** An orphan's slot and hardware socket are lost: in every run from there it stays just as it is. */
  lemma {:induction false} OrphanIsForGood(w: World, steps: seq<Step>, c: Slot)
    requires Inv(w) && ValidRun(w, steps) && Claimed(w.t, c)
    ensures Claimed(After(w, steps).t, c) && After(w, steps).t.socks[c] == w.t.socks[c]
    decreases |steps|
  {
    hide Inv, AllLive, Next, Enabled, HonestStep, Claimed;
    if steps == [] {
    } else {
      StepKeeps(w, steps[0]);
      StepSpares(w, steps[0], c);
      OrphanIsForGood(Next(w, steps[0]), steps[1..], c);
    }
  }

  lemma FreedWithItsBacklog(w: World, l: Slot, c: Slot)
    requires TableOk(w.t) && Awaiting(w.t.socks[c]) && Waits(w.t.socks[l], c) && c != l
    requires w.t.socks[l].zombie && w.t.socks[l].users == 1
    ensures Claimed(Leave(w, l, Accepting).t, c) && !Leave(w, l, Accepting).t.socks[l].inUse
    ensures Leave(w, l, Accepting).t.socks[c] == w.t.socks[c]
  {
    hide LocalOk, Exclusive, Backlog;
    var r := Leave(w, l, Accepting).t;
    forall p: Slot
      ensures !Waits(r.socks[p], c)
    {
      if Waits(w.t.socks[p], c) {
        assert p == l;
      }
    }
  }

  /** What a promotion onto a closed listener leaves in the table: the connection waits for that listener only. */
  lemma StrayChild(t: Table, i: Slot, turn: Turn)
    requires TableOk(t) && Open(t, i) && t.socks[i].zombie && TurnHonest(t, i, turn) && Adopted(t)
    requires Promotes(t, i, turn)
    ensures var (r, taken, done) := AcceptTurn(t, i, turn);
      && FirstFree(t, 0) >= 0 && FirstFree(t, 0) != i
      && var c: Slot := FirstFree(t, 0);
      && done && TableOk(r) && Awaiting(r.socks[c]) && Waits(r.socks[i], c) && r.socks[c].hw >= 0
      && r.socks[i].zombie && r.socks[i].users == t.socks[i].users
  {
    hide AcceptTurn, TurnHonest, TableOk, Promotes, AdoptedBut, Waits;
    PromotesIs(t, i, turn);
    ClosedTurnOrphans(t, i, turn);
    AcceptTurnKeeps(t, i, turn);
    assert Quiet(t.socks[i], AcceptTurn(t, i, turn).0.socks[i]);
    ClosedTurnIsDone(t, i, turn);
  }

  /** The last accept() of a closed listener that promotes leaves an orphan behind, which holds that hardware socket. */
  lemma LastAcceptOrphans(w: World, i: Slot, turn: Turn)
    requires Inv(w) && Call(w, i, Accepting) in w.ops && w.t.socks[i].zombie && w.t.socks[i].users == 1
    requires TurnHonest(w.t, i, turn) && Adopted(w.t) && Promotes(w.t, i, turn)
    ensures var r := Next(w, AcceptWake(i, false, {}, turn)).t;
      var c: Slot := FirstFree(w.t, 0);
      Claimed(r, c) && r.socks[c].hw >= 0 && !r.socks[i].inUse
  {
    hide AcceptTurn, TurnHonest, TableOk, Claimed, Leave, Promotes, AdoptedBut, Waits;
    assert Open(w.t, i);
    StrayChild(w.t, i, turn);
    FreedWithItsBacklog(w.(t := AcceptTurn(w.t, i, turn).0), i, FirstFree(w.t, 0));
  }

  lemma ClosedTurnIsDone(t: Table, i: Slot, turn: Turn)
    requires TableOk(t) && Open(t, i) && t.socks[i].zombie && TurnHonest(t, i, turn) && Adopted(t)
    requires Promotes(t, i, turn)
    ensures var (r, taken, done) := AcceptTurn(t, i, turn);
      done && r.socks[FirstFree(t, 0)].hw >= 0
  {
    hide TableOk, Promote, AdoptedBut, Fill, TurnHonest, FirstFree, Backlog;
    OnlyOpenOnesHaveABacklog(t, i);
    assert Reap(t, i, turn.closed) == (t, -1);
    var idx := FirstEstablished(t.socks[i].pool, turn.established, 0);
    PromoteShape(t, i, idx, turn.promoting);
    var t2 := Promote(t, i, idx, turn.promoting);
    FillIsSame(t2, i, turn.filling);
  }
}
