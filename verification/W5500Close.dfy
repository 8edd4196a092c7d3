/**
  When close() returns a listener's hardware for good: the pool and the backlog of a closed socket stay empty
  until its slot is handed out again, exactly if no accept() of it was in flight.
 */
module W5500Close {
  import opened W5500Fifo
  import opened W5500Table
  import opened W5500Invariant
  import opened W5500Calls
  import opened W5500Runs

  // ---------------------------------------------------------------- who touches which slot

  /** From t to r only slot l, connections nobody knows yet, and slots handed out anew have changed. */
  ghost predicate Away(t: Table, r: Table, l: Slot) {
    forall i: Slot ::
      && r.socks[i].gen >= t.socks[i].gen
      && (i != l && !Awaiting(t.socks[i]) ==> r.socks[i] == t.socks[i] || r.socks[i].gen > t.socks[i].gen)
  }

  lemma AwayComposes(t: Table, u: Table, r: Table, l: Slot)
    requires Away(t, u, l) && Away(u, r, l)
    ensures Away(t, r, l)
  {
  }

  lemma AwaySet(t: Table, l: Slot, s: Sock, r: Table)
    requires r.socks == Set(t, l, s).socks && s.gen == t.socks[l].gen
    ensures Away(t, r, l)
  {
  }

  lemma AwayFill(t: Table, l: Slot, tries: nat -> Try)
    ensures Away(t, Fill(t, l, tries, 0), l)
  {
    FillFrame(t, l, tries, 0);
  }

  lemma AwayPromote(t: Table, l: Slot, idx: nat, tries: nat -> Try)
    requires t.socks[l].inUse && idx < t.socks[l].pool.count
    ensures Away(t, Promote(t, l, idx, tries), l)
  {
    hide Fill, Removed;
    if !PromotionRefused(t, l) {
      DetachedIs(t, l, idx);
      FillFrame(Detached(t, l, idx), l, tries, 0);
    }
  }

  lemma AwayScan(t: Table, l: Slot, idx: nat, sr: Status, tries: nat -> Try)
    requires t.socks[l].inUse && idx < t.socks[l].pool.count
    ensures Away(t, ScanTurn(t, l, idx, sr, tries).0, l)
  {
    hide Promote, Removed;
    AwayPromote(t, l, idx, tries);
  }

  /** Reaping changes the listener and connections of its backlog only. */
  lemma {:induction false} AwayReap(t: Table, l: Slot, closed: set<Hw>)
    requires TableOk(t) && Open(t, l)
    ensures Away(t, Reap(t, l, closed).0, l)
    decreases t.socks[l].pend.count
  {
    hide TableOk, Claimed, Fine, Pop;
    var ring := t.socks[l].pend;
    if ring.count == 0 {
    } else {
      var c := ring.cells[ring.head];
      var t1 := Set(t, l, t.socks[l].(pend := Pop(ring)));
      var hw := t1.socks[c].hw;
      PopFine(t, l);
      if hw >= 0 && hw !in closed {
      } else {
        ClaimedIsNotOpen(t1, c);
        var r := Set(t1, c, Freed(t1.socks[c])).(shut := if hw >= 0 then t.shut + [hw] else t.shut);
        DiscardFine(t, l, Freed(t1.socks[c]), r.shut);
        FineIsOk(t, r);
        AwayReap(r, l, closed);
        AwayComposes(t, r, Reap(r, l, closed).0, l);
      }
    }
  }

  lemma AwayDeliver(t: Table, c: Slot, fdAvailable: bool, l: Slot)
    requires Claimed(t, c)
    ensures Away(t, Deliver(t, c, fdAvailable), l)
  {
  }

  lemma AwayAccept(t: Table, l: Slot, turn: Turn)
    requires TableOk(t) && Open(t, l) && TurnHonest(t, l, turn)
    ensures Away(t, AcceptTurn(t, l, turn).0, l)
  {
    hide TableOk, Fine, Claimed, Reap, PromoteInline, Rearm, Deliver, FillHonest, PromoteHonest, Away;
    var (t1, c) := Reap(t, l, turn.closed);
    ReapFine(t, l, turn.closed);
    AwayReap(t, l, turn.closed);
    FineIsOk(t, t1);
    var t2 := PromoteInline(t1, l, turn);
    PromoteInlineFine(t1, l, turn);
    AwayInline(t1, l, turn);
    FineIsOk(t1, t2);
    var t3 := Rearm(t2, l, c, turn);
    RearmFine(t2, l, c, turn);
    AwayRearm(t2, l, c, turn);
    AwayComposes(t, t1, t2, l);
    AwayComposes(t, t2, t3, l);
    if !t3.socks[l].zombie && c >= 0 {
      FineComposes(t1, t2, t3);
      FineClaims(t1, t3, c);
      AwayDeliver(t3, c, turn.fdAvailable, l);
      AwayComposes(t, t3, AcceptTurn(t, l, turn).0, l);
    }
  }

  lemma AwayInline(t: Table, l: Slot, turn: Turn)
    requires Open(t, l)
    ensures Away(t, PromoteInline(t, l, turn), l)
  {
    hide Promote;
    var idx := FirstEstablished(t.socks[l].pool, turn.established, 0);
    if idx >= 0 {
      AwayPromote(t, l, idx, turn.promoting);
    }
  }

  lemma AwayRearm(t: Table, l: Slot, c: int, turn: Turn)
    ensures Away(t, Rearm(t, l, c, turn), l)
  {
    hide Fill;
    AwayFill(t, l, turn.filling);
  }

  lemma AwayListen(t: Table, l: Slot, tries: nat -> Try)
    ensures Away(t, Listen(t, l, tries), l)
  {
    hide Fill;
    var t1 := Set(t, l, t.socks[l].(listening := true));
    AwayFill(t1, l, tries);
    AwaySet(t, l, t1.socks[l], t1);
    AwayComposes(t, t1, Fill(t1, l, tries, 0), l);
  }

  lemma AwayClose(t: Table, l: Slot)
    requires TableOk(t) && Open(t, l)
    ensures Away(t, Close(t, l), l)
  {
    hide Close, Backlog, Holds;
    if t.socks[l].zombie {
      ZombieCloseIsNothing(t, l);
    } else {
      CloseIs(t, l);
      forall i: Slot | i in Backlog(t.socks[l].pend)
        ensures Awaiting(t.socks[i])
      {
        assert Waits(t.socks[l], i);
      }
    }
  }

  lemma ZombieCloseIsNothing(t: Table, l: Slot)
    requires t.socks[l].zombie
    ensures Close(t, l) == t
  {
  }

  // ---------------------------------------------------------------- a closed socket

  /** Slot i holds closed socket number gen, with nothing armed or pending, and no accept() of it is in flight. */
  predicate Settled(w: World, i: Slot, gen: nat) {
    var s := w.t.socks[i];
    && s.gen == gen && s.zombie && s.hasFd && !s.listening && s.pool.count == 0 && s.pend.count == 0
    && (s.stream ==> s.hw == -1)
    && Flight(i, Accepting, gen) !in w.ops
  }

  lemma LeaveSettled(w: World, i: Slot, gen: nat, kind: Kind)
    requires Settled(w, i, gen)
    ensures Settled(Leave(w, i, kind), i, gen)
  {
  }

  lemma RefusedCall(w: World, step: Step, i: Slot)
    requires w.t.socks[i].zombie && !step.Socket? && step.i == i
    requires step.ConnectCall? || step.ListenCall? || step.AcceptCall? || step.SendCall? || step.ReceiveCall?
    ensures Next(w, step) == w
  {
  }

  lemma LookAtZombie(w: World, i: Slot, gen: nat, sr: Status, timedOut: bool, nonblock: bool)
    requires Settled(w, i, gen)
    ensures Settled(Look(w, i, sr, timedOut, nonblock), i, gen)
  {
    hide Leave;
    var t1 := ConnectLook(w.t, i, sr, timedOut, nonblock).0;
    LeaveSettled(w.(t := t1), i, gen, Connecting);
  }

  lemma BindZombie(w: World, i: Slot, gen: nat, step: Step)
    requires Settled(w, i, gen) && (step.BindCall? || step.ShutdownCall?) && step.i == i
    ensures Settled(Next(w, step), i, gen)
  {
    hide HwAlloc;
  }

  /** A step of slot i itself: only calls that were in flight, shutdown() and bind() still do anything. */
  lemma OwnStep(w: World, step: Step, i: Slot, gen: nat)
    requires Inv(w) && Enabled(w, step) && Settled(w, i, gen) && !step.Socket? && step.i == i
    ensures Settled(Next(w, step), i, gen)
  {
    hide Inv, Leave, Look, Bind, Close, Shutdown, ScanTurn, Fill;
    match step {
      case ConnectWake(_, timedOut, sr, nonblock) => LookAtZombie(w, i, gen, sr, timedOut, nonblock);
      case SendEnd(_) => LeaveSettled(w, i, gen, Sending);
      case ReceiveEnd(_) => LeaveSettled(w, i, gen, Receiving);
      case CloseCall(_) => ZombieCloseIsNothing(w.t, i);
      case BindCall(_, _, _, _, _) => BindZombie(w, i, gen, step);
      case ShutdownCall(_) => BindZombie(w, i, gen, step);
      case ServiceScan(_, _, _, _) =>
      case ServiceRefill(_, _) =>
      case AcceptWake(_, _, _, _) =>
      case ConnectCall(_, _, _, _, _, _) => RefusedCall(w, step, i);
      case ListenCall(_, _) => RefusedCall(w, step, i);
      case AcceptCall(_, _) => RefusedCall(w, step, i);
      case SendCall(_, _, _, _, _, _) => RefusedCall(w, step, i);
      case ReceiveCall(_, _) => RefusedCall(w, step, i);
    }
  }

  /** From w to r only slot l, connections nobody knows yet and slots handed out anew have changed, and calls on l. */
  ghost predicate AwayAll(w: World, r: World, l: Slot) {
    Away(w.t, r.t, l) && forall f: Flight :: f in r.ops && f.slot != l ==> f in w.ops
  }

  lemma AwayAllComposes(w: World, u: World, r: World, l: Slot)
    requires AwayAll(w, u, l) && AwayAll(u, r, l)
    ensures AwayAll(w, r, l)
  {
    AwayComposes(w.t, u.t, r.t, l);
  }

  lemma AwayBooks(w: World, l: Slot, kind: Kind)
    ensures AwayAll(w, Enter(w, l, kind), l) && AwayAll(w, Leave(w, l, kind), l)
  {
    AwaySet(w.t, l, Hold(w.t.socks[l]), Enter(w, l, kind).t);
    if w.t.socks[l].users > 0 {
      AwaySet(w.t, l, Release(w.t.socks[l]), Leave(w, l, kind).t);
    }
  }

  lemma AwaySettle(w: World, t: Table, l: Slot, kind: Kind, done: bool)
    requires Away(w.t, t, l)
    ensures AwayAll(w, Settle(w.(t := t), l, kind, done), l)
  {
    hide Away, Leave;
    AwayBooks(w.(t := t), l, kind);
    if done {
      AwayAllComposes(w, w.(t := t), Leave(w.(t := t), l, kind), l);
    }
  }

  lemma AwayTable(w: World, step: Step, l: Slot)
    requires Inv(w) && Enabled(w, step) && HonestStep(w, step) && !step.Socket? && step.i == l
    requires step.BindCall? || step.ListenCall? || step.CloseCall? || step.ShutdownCall? || step.ServiceScan?
             || step.ServiceRefill?
    ensures AwayAll(w, Next(w, step), l)
  {
    hide TableOk, OpsOk, Fill, ScanTurn, Close, Listen, Bind, Shutdown, HonestStep, Away;
    match step {
      case BindCall(_, port, closed, opens, ephemeral) => AwayBind(w.t, l, port, closed, opens, ephemeral);
      case ShutdownCall(_) => AwayShutdown(w.t, l);
      case ListenCall(_, tries) =>
        AwayNothing(w.t, l);
        AwayListen(w.t, l, tries);
      case CloseCall(_) => AwayClose(w.t, l);
      case ServiceScan(_, idx, sr, tries) => AwayScan(w.t, l, idx, sr, tries);
      case ServiceRefill(_, tries) => AwayFill(w.t, l, tries);
    }
  }

  lemma AwayNothing(t: Table, l: Slot)
    ensures Away(t, t, l)
  {
  }

  lemma AwayUdpOpen(t: Table, l: Slot, closed: set<Hw>, opens: bool, port: nat)
    ensures Away(t, UdpOpen(t, l, closed, opens, port), l)
  {
    hide HwAlloc;
  }

  lemma AwayDropHw(t: Table, l: Slot)
    ensures Away(t, DropHw(t, l), l)
  {
  }

  lemma AwayBind(t: Table, l: Slot, port: nat, closed: set<Hw>, opens: bool, ephemeral: nat)
    ensures Away(t, Bind(t, l, port, closed, opens, ephemeral), l)
  {
    hide HwAlloc, UdpOpen, Away, DropHw;
    var s := t.socks[l];
    AwayNothing(t, l);
    if s.stream {
      AwaySet(t, l, s.(port := port), Set(t, l, s.(port := port)));
    } else {
      var t1 := if s.hw >= 0 && port != s.port then DropHw(t, l) else t;
      AwayDropHw(t, l);
      var t2 := Set(t1, l, t1.socks[l].(port := port));
      AwaySet(t1, l, t1.socks[l].(port := port), t2);
      AwayUdpOpen(t2, l, closed, opens, if port != 0 then port else ephemeral);
      AwayComposes(t, t1, t2, l);
      AwayComposes(t, t2, UdpOpen(t2, l, closed, opens, if port != 0 then port else ephemeral), l);
    }
  }

  lemma AwayShutdown(t: Table, l: Slot)
    ensures Away(t, Shutdown(t, l), l)
  {
  }

  lemma AwayConnect(t: Table, l: Slot, closed: set<Hw>, opens: bool, connects: bool)
    ensures Away(t, Connect(t, l, closed, opens, connects).0, l)
  {
    hide HwAlloc;
  }

  lemma AwayLook(t: Table, l: Slot, sr: Status, timedOut: bool, nonblock: bool)
    ensures Away(t, ConnectLook(t, l, sr, timedOut, nonblock).0, l)
  {
  }

  lemma AwayWaits(w: World, step: Step, l: Slot)
    requires Inv(w) && Enabled(w, step) && HonestStep(w, step) && !step.Socket? && step.i == l
    requires step.ConnectWake? || step.AcceptWake? || step.SendEnd? || step.ReceiveEnd?
    ensures AwayAll(w, Next(w, step), l)
  {
    hide TableOk, Away, AwayAll, Leave, Settle, AcceptTurn, ConnectLook, TurnHonest;
    assert Open(w.t, l);
    if step.ConnectWake? {
      AwayLook(w.t, l, step.sr, step.timedOut, step.nonblock);
      var (t1, looked) := ConnectLook(w.t, l, step.sr, step.timedOut, step.nonblock);
      AwaySettle(w, t1, l, Connecting, looked.Returns?);
    } else if step.AcceptWake? {
      AwayAccept(w.t, l, step.turn);
      var (t1, c, done) := AcceptTurn(w.t, l, step.turn);
      AwaySettle(w, t1, l, Accepting, done);
      AwayBooks(w, l, Accepting);
    } else {
      AwayBooks(w, l, if step.SendEnd? then Sending else Receiving);
    }
  }

  lemma AwayAfterConnect(w: World, l: Slot, closed: set<Hw>, opens: bool, connects: bool, sr: Status, nonblock: bool)
    ensures AwayAll(w, AfterConnect(w, l, closed, opens, connects, sr, nonblock), l)
  {
    hide Away, Leave, Connect, ConnectLook, Settle;
    AwayConnect(w.t, l, closed, opens, connects);
    var (t1, waits) := Connect(w.t, l, closed, opens, connects);
    var u := w.(t := t1);
    AwayBooks(u, l, Connecting);
    AwayLook(t1, l, sr, false, nonblock);
    var (t2, looked) := ConnectLook(t1, l, sr, false, nonblock);
    AwaySettle(u, t2, l, Connecting, looked.Returns?);
    AwayAllComposes(w, u, AfterConnect(w, l, closed, opens, connects, sr, nonblock), l);
  }

  lemma AwayUdp(w: World, l: Slot, opensUdp: bool, closed: set<Hw>, opens: bool, ephemeral: nat)
    ensures SendOpens(w, l, opensUdp, closed, opens, ephemeral).ops == w.ops
    ensures Away(w.t, SendOpens(w, l, opensUdp, closed, opens, ephemeral).t, l)
  {
    hide HwAlloc;
  }

  lemma AwayCall(w: World, step: Step, l: Slot)
    requires Inv(w) && Enabled(w, step) && HonestStep(w, step) && !step.Socket? && step.i == l
    requires step.ConnectCall? || step.AcceptCall? || step.SendCall? || step.ReceiveCall?
    requires Held(w.t.socks[l])
    ensures AwayAll(w, Next(w, step), l)
  {
    hide TableOk, OpsOk, Away, AwayAll, Enter, Leave, Settle, AcceptTurn, TurnHonest, AfterConnect, SendOpens, Honest;
    var kind := match step
      case ConnectCall(_, _, _, _, _, _) => Connecting
      case AcceptCall(_, _) => Accepting
      case SendCall(_, _, _, _, _, _) => Sending
      case ReceiveCall(_, _) => Receiving;
    var u := Enter(w, l, kind);
    AwayBooks(w, l, kind);
    AwayBooks(u, l, kind);
    EnterKeeps(w, l, kind);
    EnterIs(w, l, kind);
    match step {
      case ConnectCall(_, closed, opens, connects, sr, nonblock) =>
        AwayAfterConnect(u, l, closed, opens, connects, sr, nonblock);
      case AcceptCall(_, turn) =>
        if w.t.socks[l].stream {
          TableOfInv(u);
          AwayAccept(u.t, l, turn);
          var (t1, c, done) := AcceptTurn(u.t, l, turn);
          AwaySettle(u, t1, l, Accepting, done);
        }
      case SendCall(_, opensUdp, closed, opens, ephemeral, done) =>
        AwayUdp(u, l, opensUdp, closed, opens, ephemeral);
        AwaySettle(u, SendOpens(u, l, opensUdp, closed, opens, ephemeral).t, l, Sending, done);
      case ReceiveCall(_, done) =>
        AwayNothing(u.t, l);
        AwaySettle(u, u.t, l, Receiving, done);
    }
    AwayAllComposes(w, u, Next(w, step), l);
  }

  lemma OtherStep(w: World, step: Step, l: Slot)
    requires Inv(w) && Enabled(w, step) && HonestStep(w, step) && !step.Socket? && step.i == l
    ensures AwayAll(w, Next(w, step), l)
  {
    hide Inv, Enabled, HonestStep, AwayAll;
    if step.ConnectCall? || step.AcceptCall? || step.SendCall? || step.ReceiveCall? {
      if Held(w.t.socks[l]) {
        AwayCall(w, step, l);
      } else {
        RefusedStays(w, step, l);
      }
    } else if step.ConnectWake? || step.AcceptWake? || step.SendEnd? || step.ReceiveEnd? {
      AwayWaits(w, step, l);
    } else {
      AwayTable(w, step, l);
    }
  }

  lemma RefusedStays(w: World, step: Step, l: Slot)
    requires !Held(w.t.socks[l]) && !step.Socket? && step.i == l
    requires step.ConnectCall? || step.AcceptCall? || step.SendCall? || step.ReceiveCall?
    ensures AwayAll(w, Next(w, step), l)
  {
  }

  /** No step makes a slot's number smaller, and a closed socket stays settled until its slot gets a new number. */
  lemma SettledStays(w: World, step: Step, i: Slot, gen: nat)
    requires Inv(w) && Enabled(w, step) && HonestStep(w, step)
    ensures Next(w, step).t.socks[i].gen >= w.t.socks[i].gen
    ensures Settled(w, i, gen) && Next(w, step).t.socks[i].gen == gen ==> Settled(Next(w, step), i, gen)
  {
    hide Enabled, HonestStep, TableOk, OpsOk;
    if step.Socket? {
      CreateIsElsewhere(w.t, step.stream, i);
    } else {
      OtherStep(w, step, step.i);
      if Settled(w, i, gen) {
        if step.i == i {
          OwnStep(w, step, i, gen);
        } else {
          SettledIsNotAwaiting(w, i, gen);
        }
      }
    }
  }

  lemma CreateIsElsewhere(t: Table, stream: bool, i: Slot)
    ensures Create(t, stream).socks[i] == t.socks[i] || Create(t, stream).socks[i].gen > t.socks[i].gen
  {
  }

  lemma SettledIsNotAwaiting(w: World, i: Slot, gen: nat)
    requires Settled(w, i, gen)
    ensures !Awaiting(w.t.socks[i])
  {
  }

  // ---------------------------------------------------------------- whole runs

  lemma {:induction false} NumbersGrow(w: World, steps: seq<Step>, i: Slot)
    requires Inv(w) && ValidRun(w, steps)
    ensures After(w, steps).t.socks[i].gen >= w.t.socks[i].gen
    decreases |steps|
  {
    hide Inv, AllLive, Next, Enabled, HonestStep;
    if steps == [] {
    } else {
      StepKeeps(w, steps[0]);
      SettledStays(w, steps[0], i, 0);
      NumbersGrow(Next(w, steps[0]), steps[1..], i);
    }
  }

  lemma {:induction false} SettledForGood(w: World, steps: seq<Step>, i: Slot, gen: nat)
    requires Inv(w) && ValidRun(w, steps) && Settled(w, i, gen)
    requires After(w, steps).t.socks[i].gen == gen
    ensures Settled(After(w, steps), i, gen)
    decreases |steps|
  {
    hide Inv, AllLive, Next, Enabled, HonestStep, Settled;
    if steps == [] {
    } else {
      var r := Next(w, steps[0]);
      StepKeeps(w, steps[0]);
      SettledStays(w, steps[0], i, gen);
      NumbersGrow(r, steps[1..], i);
      SettledHasNumber(w, i, gen);
      SettledForGood(r, steps[1..], i, gen);
    }
  }

  lemma SettledHasNumber(w: World, i: Slot, gen: nat)
    requires Settled(w, i, gen)
    ensures w.t.socks[i].gen == gen
  {
  }

  lemma CloseSettles(w: World, i: Slot)
    requires Inv(w) && Open(w.t, i) && !w.t.socks[i].zombie && Call(w, i, Accepting) !in w.ops
    ensures Settled(w.(t := Close(w.t, i)), i, w.t.socks[i].gen)
  {
    hide TableOk, OpsOk, Backlog;
    CloseIs(w.t, i);
    CloseLeavesNothing(w.t, i);
  }

  lemma CloseLeavesNothing(t: Table, i: Slot)
    requires TableOk(t) && Open(t, i) && !t.socks[i].zombie
    ensures var s := Close(t, i).socks[i];
      s.pool.count == 0 && s.hw == -1 && !s.listening && s.stream == t.socks[i].stream
  {
    hide TableOk, DrainBacklog;
    BuriedKeeps(t, i);
    DrainIs(Buried(t, i), i);
  }

  /**
    If no accept() of a socket is in flight when it is closed, then in every run from there, until its slot
    is handed out again, it has no armed hardware socket and no pending connection, and no hardware socket
    of its own if it is a stream socket. W5500Datagram.DatagramCloseIsForGoodIff is about the others.
   */
  lemma ClosedForGoodWithoutAccept(w: World, i: Slot, steps: seq<Step>)
    requires Inv(w) && Open(w.t, i) && !w.t.socks[i].zombie && Call(w, i, Accepting) !in w.ops
    requires ValidRun(Next(w, CloseCall(i)), steps)
    requires After(Next(w, CloseCall(i)), steps).t.socks[i].gen == w.t.socks[i].gen
    ensures var s := After(Next(w, CloseCall(i)), steps).t.socks[i];
      && s.zombie && Members(s.pool) == [] && Backlog(s.pend) == [] && (s.stream ==> s.hw == -1)
  {
    hide Inv, AllLive, Close;
    CloseSettles(w, i);
    StepKeeps(w, CloseCall(i));
    SettledForGood(w.(t := Close(w.t, i)), steps, i, w.t.socks[i].gen);
  }

  // ---------------------------------------------------------------- and with an accept() in flight

  /** One hardware socket reads SOCK_CLOSED in the first scan, none later; OPEN and LISTEN work. */
  function ArmOne(h: Hw): nat -> Try {
    k => Try(if k == 0 then {h} else {}, true)
  }

  /** A look of accept() that finds nothing but hardware socket h free. */
  function Finding(h: Hw): Turn {
    Turn({}, {}, ArmOne(h), ArmOne(h), false, false)
  }

  /** hw_alloc could hand out h, and nobody has it. */
  ghost predicate FreeHardware(t: Table, h: Hw) {
    Unheld(t, h) && h !in t.broken
  }

  lemma OnlyCandidate(t: Table, h: Hw)
    requires FreeHardware(t, h)
    ensures HwAlloc(t, {h}) == h && Honest(t, {h})
  {
    HwAllocIs(t, {h});
    forall i: Slot
      ensures !(t.socks[i].inUse && t.socks[i].hw == h)
      ensures t.socks[i].inUse ==> h !in Members(t.socks[i].pool)
    {
      assert !Holds(t.socks[i], h);
    }
    assert Allocatable(t, {h}, h);
  }

  lemma NoCandidate(t: Table)
    ensures HwAlloc(t, {}) == -1 && Honest(t, {})
  {
    HwAllocIs(t, {});
  }

  lemma FindingIsHonest(t: Table, i: Slot, h: Hw)
    requires FreeHardware(t, h) && t.socks[i].pool.count == 0 && t.socks[i].pend.count == 0
    ensures TurnHonest(t, i, Finding(h))
  {
    hide HwAlloc, Honest;
    OnlyCandidate(t, h);
    var t1 := FillOnce(t, i, h, true);
    NoCandidate(t1);
    assert FillHonest(t1, i, ArmOne(h), 1);
    assert FillHonest(t, i, ArmOne(h), 0);
    assert Reap(t, i, {}) == (t, -1);
    assert FirstEstablished(t.socks[i].pool, {}, 0) == -1;
    assert PromoteInline(t, i, Finding(h)) == t;
  }

  /** The step by which some other call on a closed socket returns without touching the pool. */
  function Returning(w: World, i: Slot, h: Hw): (Step, Kind) {
    if Call(w, i, Connecting) in w.ops then (ConnectWake(i, false, Other, false), Connecting)
    else if Call(w, i, Sending) in w.ops then (SendEnd(i), Sending)
    else if Call(w, i, Receiving) in w.ops then (ReceiveEnd(i), Receiving)
    else (AcceptWake(i, true, {}, Finding(h)), Accepting)
  }

  lemma ReturningLeaves(w: World, i: Slot, h: Hw)
    requires w.t.socks[i].zombie && w.t.socks[i].pool.count == 0 && w.t.socks[i].pend.count == 0
    ensures var (step, kind) := Returning(w, i, h);
      Next(w, step) == Leave(w, i, kind)
  {
    hide Leave, TurnOf;
    assert FirstEstablished(w.t.socks[i].pool, {}, 0) == -1;
  }

  lemma ReturningIsPossible(w: World, i: Slot, h: Hw)
    requires w.t.socks[i].pool.count == 0 && w.t.socks[i].pend.count == 0
    requires Call(w, i, Accepting) in w.ops && FreeHardware(w.t, h)
    ensures var (step, kind) := Returning(w, i, h);
      Enabled(w, step) && HonestStep(w, step) && Call(w, i, kind) in w.ops
  {
    hide TurnHonest, FreeHardware;
    FindingIsHonest(w.t, i, h);
  }

  lemma LeaveKeepsFree(w: World, i: Slot, kind: Kind, h: Hw)
    requires FreeHardware(w.t, h)
    ensures FreeHardware(Leave(w, i, kind).t, h)
  {
    var r := Leave(w, i, kind);
    forall j: Slot
      ensures !Holds(r.t.socks[j], h)
    {
      assert !Holds(w.t.socks[j], h);
    }
  }

  lemma TheAcceptRemains(w: World, i: Slot, h: Hw)
    requires Inv(w) && w.t.socks[i].inUse && w.t.socks[i].zombie && w.t.socks[i].users > 1
    requires Call(w, i, Accepting) in w.ops
    ensures Call(w, i, Accepting) in Leave(w, i, Returning(w, i, h).1).ops
  {
    hide TableOk;
    ZombieIsOpen(w, i);
  }

  lemma OthersReturn(w: World, i: Slot, h: Hw)
    requires Inv(w) && w.t.socks[i].inUse && w.t.socks[i].zombie && w.t.socks[i].users > 1
    requires w.t.socks[i].pool.count == 0 && w.t.socks[i].pend.count == 0
    requires Call(w, i, Accepting) in w.ops && FreeHardware(w.t, h)
    ensures var (step, kind) := Returning(w, i, h);
      && Enabled(w, step) && HonestStep(w, step) && Next(w, step) == Leave(w, i, kind)
      && Call(w, i, Accepting) in Leave(w, i, kind).ops && FreeHardware(Leave(w, i, kind).t, h)
  {
    hide Inv, Enabled, HonestStep, Next, Leave, FreeHardware;
    ReturningIsPossible(w, i, h);
    ReturningLeaves(w, i, h);
    TheAcceptRemains(w, i, h);
    LeaveKeepsFree(w, i, Returning(w, i, h).1, h);
  }

  /**
    With an accept() in flight on a closed listener, and a hardware socket that hw_alloc could hand out, some
    continuation ends with the slot free and that hardware socket listening for nobody: never closed, and
    held by no socket in use.
   */
  lemma {:induction false} AcceptCanLeaveItArmed(w: World, i: Slot, h: Hw) returns (steps: seq<Step>)
    requires Inv(w) && w.t.socks[i].inUse && w.t.socks[i].zombie
    requires w.t.socks[i].pool.count == 0 && w.t.socks[i].pend.count == 0
    requires Call(w, i, Accepting) in w.ops && FreeHardware(w.t, h)
    ensures ValidRun(w, steps)
    ensures var r := After(w, steps).t;
      && !r.socks[i].inUse && r.socks[i].gen == w.t.socks[i].gen && h in Members(r.socks[i].pool)
      && Unheld(r, h) && r.shut == w.t.shut
    decreases w.t.socks[i].users
  {
    hide Inv, Next, Enabled, HonestStep, AllLive, Leave, FreeHardware, Lives;
    UsersIsPositive(w, i);
    if w.t.socks[i].users == 1 {
      steps := [AcceptWake(i, false, {}, Finding(h))];
      LastAccept(w, i, h);
    } else {
      OthersReturn(w, i, h);
      var (step, kind) := Returning(w, i, h);
      StepKeeps(w, step);
      LeaveIs(w, i, kind);
      var rest := AcceptCanLeaveItArmed(Leave(w, i, kind), i, h);
      steps := [step] + rest;
      assert steps[1..] == rest;
    }
  }

  lemma UsersIsPositive(w: World, i: Slot)
    requires Inv(w) && w.t.socks[i].inUse && w.t.socks[i].zombie
    ensures w.t.socks[i].users > 0
  {
  }

  lemma LeaveIs(w: World, i: Slot, kind: Kind)
    requires w.t.socks[i].users > 1
    ensures var r := Leave(w, i, kind);
      r.t.socks[i] == w.t.socks[i].(users := w.t.socks[i].users - 1) && r.t.shut == w.t.shut
  {
  }

  lemma LastAccept(w: World, i: Slot, h: Hw)
    requires Inv(w) && w.t.socks[i].inUse && w.t.socks[i].zombie && w.t.socks[i].users == 1
    requires w.t.socks[i].pool.count == 0 && w.t.socks[i].pend.count == 0
    requires Call(w, i, Accepting) in w.ops && FreeHardware(w.t, h)
    ensures var step := AcceptWake(i, false, {}, Finding(h));
      var r := Next(w, step).t;
      && Enabled(w, step) && HonestStep(w, step)
      && !r.socks[i].inUse && r.socks[i].gen == w.t.socks[i].gen && h in Members(r.socks[i].pool)
      && Unheld(r, h) && r.shut == w.t.shut
  {
    hide TableOk, OpsOk, Next, TurnHonest, AllLive;
    FindingIsHonest(w.t, i, h);
    OnlyCandidate(w.t, h);
    var step := AcceptWake(i, false, {}, Finding(h));
    AcceptOnClosedListenerLeavesItArmed(w, i, Finding(h));
    ZombieIsOpen(w, i);
    StepKeeps(w, step);
    OccupantStays(w, Next(w, step), i);
  }

  lemma OccupantStays(w: World, r: World, i: Slot)
    requires AllLive(w, r) && Open(w.t, i)
    ensures r.t.socks[i].gen == w.t.socks[i].gen
  {
    assert Lives(w.t.socks[i], r.t.socks[i]);
  }

  /** This run from w leaves the occupant's slot with an armed pool. */
  ghost predicate Rearms(w: World, steps: seq<Step>, i: Slot, gen: nat) {
    ValidRun(w, steps) && After(w, steps).t.socks[i].gen == gen && Members(After(w, steps).t.socks[i].pool) != []
  }

  /**
    close() returns a listener's hardware for good if and only if no accept() of it is in flight, provided
    hw_alloc could hand out anything after it.
   */
  lemma CloseIsForGoodIff(w: World, i: Slot, h: Hw)
    requires Inv(w) && Open(w.t, i) && !w.t.socks[i].zombie && FreeHardware(Next(w, CloseCall(i)).t, h)
    ensures (exists steps :: Rearms(Next(w, CloseCall(i)), steps, i, w.t.socks[i].gen)) <==>
            Call(w, i, Accepting) in w.ops
  {
    hide Inv, ValidRun, After, FreeHardware, AllLive;
    var r := Next(w, CloseCall(i));
    var gen := w.t.socks[i].gen;
    StepKeeps(w, CloseCall(i));
    if Call(w, i, Accepting) in w.ops {
      ClosedWithAccept(w, i);
      var steps := AcceptCanLeaveItArmed(r, i, h);
      assert Rearms(r, steps, i, gen);
    } else {
      forall steps | Rearms(r, steps, i, gen)
        ensures false
      {
        ClosedForGoodWithoutAccept(w, i, steps);
      }
    }
  }

  lemma ClosedWithAccept(w: World, i: Slot)
    requires Inv(w) && Open(w.t, i) && !w.t.socks[i].zombie && Call(w, i, Accepting) in w.ops
    ensures var r := Next(w, CloseCall(i));
      && r.t.socks[i].inUse && r.t.socks[i].zombie && r.t.socks[i].gen == w.t.socks[i].gen
      && r.t.socks[i].pool.count == 0 && r.t.socks[i].pend.count == 0 && Call(r, i, Accepting) in r.ops
  {
    hide TableOk, Close;
    CloseIs(w.t, i);
    CloseLeavesNothing(w.t, i);
    FlightCounts(w.ops, Call(w, i, Accepting));
  }
}
