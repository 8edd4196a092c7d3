/**
  What connect(), accept(), bind() and sendto() give a socket. The hardware socket a connect() took stays the
  socket's own until shutdown(), close(), or a reading of SOCK_CLOSED in connect()'s own wait.
 */
module W5500Connect {
  import opened W5500Fifo
  import opened W5500Table
  import opened W5500Invariant
  import opened W5500Calls
  import opened W5500Runs
  import opened W5500Close
  import opened W5500Orphans

  /** The open occupant number gen of slot i, a stream socket, has hardware socket h. */
  ghost predicate Has(w: World, i: Slot, gen: nat, h: Hw) {
    var s := w.t.socks[i];
    Open(w.t, i) && s.gen == gen && !s.zombie && s.stream && s.hw == h
  }

  /** The steps that take it away. */
  predicate GivesUp(step: Step, i: Slot) {
    || ((step.ShutdownCall? || step.CloseCall?) && step.i == i)
    || (step.ConnectWake? && step.i == i && step.sr.Closed?)
  }

  /**
    One look of connect() at the chip. It returns 0 exactly on SOCK_ESTABLISHED, with the socket as it was; a
    socket with hardware loses it exactly on SOCK_CLOSED; it sleeps on exactly if the chip says neither, and
    there is still something to wait for. Without hardware it returns -1, unless its wait is over:
    then it goes by what the register of no socket reads.
   */
  lemma LookIs(t: Table, i: Slot, sr: Status, timedOut: bool, nonblock: bool)
    ensures var (r, looked) := ConnectLook(t, i, sr, timedOut, nonblock);
      var s := t.socks[i];
      var asks := timedOut || (!s.zombie && s.hw >= 0);
      && (looked == Returns(true) <==> asks && sr.Established?)
      && (looked == Returns(true) ==> r == t)
      && (s.hw >= 0 ==> (r.socks[i].hw == s.hw <==> !(asks && sr.Closed?)))
      && (looked.Sleeps? <==> asks && !timedOut && !nonblock && !sr.Established? && !sr.Closed?)
      && r.shut == t.shut && forall j: Slot :: j != i ==> r.socks[j] == t.socks[j]
  {
  }

  /** Hardware and type of slot i are as before, and whether it is closed. */
  predicate SameHw(t: Table, r: Table, i: Slot) {
    var a, b := t.socks[i], r.socks[i];
    b.hw == a.hw && b.stream == a.stream && b.zombie == a.zombie
  }

  lemma AcceptKeepsHw(t: Table, l: Slot, turn: Turn)
    requires TableOk(t) && Open(t, l) && TurnHonest(t, l, turn)
    ensures SameHw(t, AcceptTurn(t, l, turn).0, l)
  {
    hide TableOk, Fine, Claimed, Reap, Promote, Fill, Deliver, FillHonest, PromoteHonest;
    var (t1, c) := Reap(t, l, turn.closed);
    ReapFine(t, l, turn.closed);
    ReapShape(t, l, turn.closed);
    FineIsOk(t, t1);
    var t2 := PromoteInline(t1, l, turn);
    PromoteInlineFine(t1, l, turn);
    InlineKeepsHw(t1, l, turn);
    FineIsOk(t1, t2);
    var t3 := Rearm(t2, l, c, turn);
    RearmFine(t2, l, c, turn);
    FillFrame(t2, l, turn.filling, 0);
    if !t3.socks[l].zombie && c >= 0 {
      FineComposes(t1, t2, t3);
      FineClaims(t1, t3, c);
      DeliverElsewhere(t3, c, turn.fdAvailable, l);
    }
  }

  /**
    What accept() returns: the oldest live connection of the backlog, as it was and with a descriptor, if the
    listener is not closed and a descriptor is left. Without a descriptor that connection is closed and its
    slot freed; on a closed listener it stays as it was. The call sleeps on exactly when nothing was waiting,
    the listener is open and the call may block.
   */
  lemma AcceptReturns(t: Table, l: Slot, turn: Turn)
    requires TableOk(t) && Open(t, l) && TurnHonest(t, l, turn)
    ensures var q := Backlog(t.socks[l].pend);
      var k := FirstLive(t, turn.closed, q);
      var (r, c, done) := AcceptTurn(t, l, turn);
      && (c >= 0 <==> k < |q| && !t.socks[l].zombie && turn.fdAvailable)
      && (done <==> k < |q| || t.socks[l].zombie || turn.nonblock)
      && (c >= 0 ==> c == q[k] && r.socks[c] == t.socks[c].(hasFd := true) && t.socks[c].hw >= 0)
      && (k < |q| && !t.socks[l].zombie && !turn.fdAvailable ==>
            r.socks[q[k]] == t.socks[q[k]].(hw := -1, inUse := false) && t.socks[q[k]].hw in r.shut)
      && (k < |q| && t.socks[l].zombie ==> r.socks[q[k]] == t.socks[q[k]])
  {
    hide TableOk, TurnHonest, AcceptTurn, ReadyToDeliver, Backlog, Live;
    var t3, c := UpToDelivery(t, l, turn);
    var q := Backlog(t.socks[l].pend);
    var k := FirstLive(t, turn.closed, q);
    if k < |q| {
      LiveHasHw(t, turn.closed, q[k]);
    }
    TurnEnds(t, l, turn, t3, c);
  }

  lemma LiveHasHw(t: Table, closed: set<Hw>, c: Slot)
    requires Live(t, closed, c)
    ensures t.socks[c].hw >= 0
  {
  }

  /** The table when a turn of accept() looks at its listener again, and the connection it reaped. */
  lemma UpToDelivery(t: Table, l: Slot, turn: Turn) returns (t3: Table, c: int)
    requires TableOk(t) && Open(t, l) && TurnHonest(t, l, turn)
    ensures (t3, c) == ReadyToDeliver(t, l, turn) && -1 <= c < NUM_SOCKETS && t3.socks[l].zombie == t.socks[l].zombie
    ensures var q := Backlog(t.socks[l].pend);
      var k := FirstLive(t, turn.closed, q);
      if k == |q| then c == -1 else c == q[k] && t3.socks[c] == t.socks[c]
  {
    hide TableOk, Fine, Claimed, Reap, PromoteInline, Rearm, FillHonest, PromoteHonest, Backlog, Live, FirstLive;
    var (t1, taken) := Reap(t, l, turn.closed);
    ReapFine(t, l, turn.closed);
    ReapShape(t, l, turn.closed);
    ReapIsFifo(t, l, turn.closed);
    FineIsOk(t, t1);
    var t2 := PromoteInline(t1, l, turn);
    PromoteInlineFine(t1, l, turn);
    InlineKeepsHw(t1, l, turn);
    RearmKeepsHw(t2, l, taken, turn);
    t3, c := Rearm(t2, l, taken, turn), taken;
    if c >= 0 {
      ClaimedIsNotOpen(t1, c);
      InlineSpares(t1, l, turn, c);
      RearmSpares(t2, l, c, turn, c);
    }
  }

  /** Reaping, the inline promotion and the re-arming of one turn. */
  function ReadyToDeliver(t: Table, l: Slot, turn: Turn): (Table, int) {
    var (t1, c) := Reap(t, l, turn.closed);
    (Rearm(PromoteInline(t1, l, turn), l, c, turn), c)
  }

  lemma RearmKeepsHw(t: Table, l: Slot, c: int, turn: Turn)
    ensures SameHw(t, Rearm(t, l, c, turn), l)
  {
    FillFrame(t, l, turn.filling, 0);
    hide Fill;
  }

  lemma TurnEnds(t: Table, l: Slot, turn: Turn, t3: Table, c: int)
    requires (t3, c) == ReadyToDeliver(t, l, turn) && -1 <= c < NUM_SOCKETS
    ensures var (r, accepted, done) := AcceptTurn(t, l, turn);
      if t3.socks[l].zombie then r == t3 && accepted == -1 && done
      else if c < 0 then r == t3 && accepted == -1 && done == turn.nonblock
      else if turn.fdAvailable then accepted == c && done && r.socks[c] == t3.socks[c].(hasFd := true)
      else
        && accepted == -1 && done && r.socks[c] == t3.socks[c].(hw := -1, inUse := false)
        && (t3.socks[c].hw >= 0 ==> t3.socks[c].hw in r.shut)
  {
    hide Reap, PromoteInline, Rearm;
  }

  /**
    A sleeping accept() that wakes: it is over if a live connection waits, the listener was closed, the call may
    not block, or its time is up with nothing pending and nothing established in the pool; otherwise
    it is in flight as before. An open listener hands a waiting live connection over even when the time is up.
   */
  lemma AcceptWakes(w: World, i: Slot, timedOut: bool, established: set<Hw>, turn: Turn)
    requires Inv(w) && Call(w, i, Accepting) in w.ops && TurnHonest(w.t, i, turn)
    ensures var r := Next(w, AcceptWake(i, timedOut, established, turn));
      var q := Backlog(w.t.socks[i].pend);
      var k := FirstLive(w.t, turn.closed, q);
      var late := timedOut && q == [] && forall h | h in Members(w.t.socks[i].pool) :: h !in established;
      && r.ops == (if late || k < |q| || w.t.socks[i].zombie || turn.nonblock then
                     w.ops - multiset{Call(w, i, Accepting)} else w.ops)
      && (k < |q| && !w.t.socks[i].zombie && turn.fdAvailable ==>
            r.t.socks[q[k]] == w.t.socks[q[k]].(hasFd := true) && w.t.socks[q[k]].hw >= 0)
  {
    hide TableOk, TurnHonest, AcceptTurn, Live, FirstLive;
    var wake := AcceptWake(i, timedOut, established, turn);
    assert Open(w.t, i);
    AcceptReturns(w.t, i, turn);
    AcceptTurnKeeps(w.t, i, turn);
    NoneEstablishedIff(w.t.socks[i].pool, established, 0);
    FlightCounts(w.ops, Call(w, i, Accepting));
    var t1 := AcceptTurn(w.t, i, turn).0;
    assert Quiet(w.t.socks[i], t1.socks[i]);
    var q := Backlog(w.t.socks[i].pend);
    var k := FirstLive(w.t, turn.closed, q);
    if k < |q| {
      BacklogIsOthers(w.t, i);
      assert q[k] != i;
    }
  }

  lemma {:induction false} NoneEstablishedIff(p: Pool, established: set<Hw>, from: nat)
    requires from <= p.count
    ensures FirstEstablished(p, established, from) < 0 <==>
            forall k | from <= k < p.count :: p.cells[k] !in established
    ensures from == 0 ==>
      (FirstEstablished(p, established, 0) < 0 <==> forall h | h in Members(p) :: h !in established)
    decreases p.count - from
  {
    if from == p.count {
    } else {
      NoneEstablishedIff(p, established, from + 1);
    }
    assert forall k | 0 <= k < p.count :: p.cells[k] == Members(p)[k];
  }

  lemma InlineKeepsHw(t: Table, l: Slot, turn: Turn)
    requires Open(t, l)
    ensures SameHw(t, PromoteInline(t, l, turn), l)
  {
    hide Promote;
    var idx := FirstEstablished(t.socks[l].pool, turn.established, 0);
    if idx >= 0 {
      PromoteKeepsHw(t, l, idx, turn.promoting);
    }
  }

  lemma PromoteKeepsHw(t: Table, l: Slot, idx: nat, tries: nat -> Try)
    requires t.socks[l].inUse && idx < t.socks[l].pool.count
    ensures SameHw(t, Promote(t, l, idx, tries), l)
  {
    hide Promote;
    if PromotionRefused(t, l) {
      RefusedIsNothing(t, l, idx, tries);
    } else {
      PromoteShape(t, l, idx, tries);
    }
  }

  lemma DeliverElsewhere(t: Table, c: Slot, fdAvailable: bool, l: Slot)
    requires Claimed(t, c) && Open(t, l)
    ensures Deliver(t, c, fdAvailable).socks[l] == t.socks[l]
  {
  }

  lemma BooksKeepHw(w: World, i: Slot, kind: Kind)
    ensures SameHw(w.t, Enter(w, i, kind).t, i) && SameHw(w.t, Leave(w, i, kind).t, i)
    ensures Enter(w, i, kind).t.shut == w.t.shut == Leave(w, i, kind).t.shut
  {
  }

  lemma TurnKeepsHw(w: World, i: Slot, turn: Turn)
    requires TableOk(w.t) && Open(w.t, i) && TurnHonest(w.t, i, turn)
    ensures SameHw(w.t, TurnOf(w, i, turn).t, i)
  {
    hide AcceptTurn, TurnHonest, TableOk, Leave;
    AcceptKeepsHw(w.t, i, turn);
    BooksKeepHw(w.(t := AcceptTurn(w.t, i, turn).0), i, Accepting);
  }

  /** A step of the slot itself. */
  lemma OwnStepKeepsHw(w: World, step: Step, i: Slot, gen: nat, h: Hw)
    requires Inv(w) && Enabled(w, step) && HonestStep(w, step) && Has(w, i, gen, h)
    requires !step.Socket? && step.i == i && !GivesUp(step, i)
    ensures SameHw(w.t, Next(w, step).t, i)
  {
    hide TableOk, OpsOk, TurnOf, TurnHonest, Promote, Fill, Enter, Leave, Removed;
    match step {
      case BindCall(_, _, _, _, _) =>
      case ConnectCall(_, _, _, _, _, _) =>
        BooksKeepHw(w, i, Connecting);
        BooksKeepHw(Enter(w, i, Connecting), i, Connecting);
      case ConnectWake(_, timedOut, sr, nonblock) => BooksKeepHw(w, i, Connecting);
      case ListenCall(_, _) =>
      case AcceptCall(_, turn) =>
        BooksKeepHw(w, i, Accepting);
        EnterKeeps(w, i, Accepting);
        EnterIs(w, i, Accepting);
        TableOfInv(Enter(w, i, Accepting));
        TurnKeepsHw(Enter(w, i, Accepting), i, turn);
      case AcceptWake(_, _, _, turn) =>
        BooksKeepHw(w, i, Accepting);
        TurnKeepsHw(w, i, turn);
      case SendCall(_, _, _, _, _, _) =>
        BooksKeepHw(w, i, Sending);
        BooksKeepHw(Enter(w, i, Sending), i, Sending);
      case ReceiveCall(_, _) =>
        BooksKeepHw(w, i, Receiving);
        BooksKeepHw(Enter(w, i, Receiving), i, Receiving);
      case SendEnd(_) => BooksKeepHw(w, i, Sending);
      case ReceiveEnd(_) => BooksKeepHw(w, i, Receiving);
      case CloseCall(_) =>
      case ShutdownCall(_) =>
      case ServiceScan(_, idx, sr, tries) =>
        if sr.Established? {
          PromoteKeepsHw(w.t, i, idx, tries);
        }
      case ServiceRefill(_, tries) => FillFrame(w.t, i, tries, 0);
    }
  }

  lemma StepKeepsHas(w: World, step: Step, i: Slot, gen: nat, h: Hw)
    requires Inv(w) && Enabled(w, step) && HonestStep(w, step) && Has(w, i, gen, h) && !GivesUp(step, i)
    ensures Has(Next(w, step), i, gen, h)
  {
    hide Inv, Enabled, HonestStep, Next;
    var r := Next(w, step);
    StepKeeps(w, step);
    OccupantLives(w, r, i);
    if step.Socket? {
      CreateIsCreate(w, step);
      CreateIsElsewhere(w.t, step.stream, i);
    } else if step.i == i {
      OwnStepKeepsHw(w, step, i, gen, h);
    } else {
      OtherStep(w, step, step.i);
    }
  }

  lemma CreateIsCreate(w: World, step: Step)
    requires step.Socket?
    ensures Next(w, step).t == Create(w.t, step.stream)
  {
  }

  lemma OccupantLives(w: World, r: World, i: Slot)
    requires AllLive(w, r) && Open(w.t, i)
    ensures var s := r.t.socks[i];
      s.gen == w.t.socks[i].gen && s.hasFd && (!s.zombie ==> s.inUse)
  {
    assert Lives(w.t.socks[i], r.t.socks[i]);
  }

  // ---------------------------------------------------------------- whole runs

  /** A connected socket keeps its hardware socket in every run without a step that gives it up. */
  lemma {:induction false} ConnectionIsKept(w: World, steps: seq<Step>, i: Slot, gen: nat, h: Hw)
    requires Inv(w) && ValidRun(w, steps) && Has(w, i, gen, h)
    requires forall k | 0 <= k < |steps| :: !GivesUp(steps[k], i)
    ensures Inv(After(w, steps)) && Has(After(w, steps), i, gen, h)
    decreases |steps|
  {
    hide Inv, AllLive, Next, Enabled, HonestStep, Has, GivesUp;
    if steps == [] {
    } else {
      StepKeeps(w, steps[0]);
      StepKeepsHas(w, steps[0], i, gen, h);
      ConnectionIsKept(Next(w, steps[0]), steps[1..], i, gen, h);
    }
  }

  /**
    connect() of a socket without hardware takes what hw_alloc finds if and only if OPEN and CONNECT work and its
    first look does not read SOCK_CLOSED; otherwise it ends without hardware. One that was opened and
    refuses to CONNECT is closed again.
   */
  lemma ConnectTakesIff(w: World, step: Step)
    requires Inv(w) && Enabled(w, step) && HonestStep(w, step)
    requires step.ConnectCall? && Held(w.t.socks[step.i]) && w.t.socks[step.i].stream && w.t.socks[step.i].hw == -1
    ensures var i := step.i; var h := HwAlloc(w.t, step.closed);
      var taken := h >= 0 && step.opens && step.connects && !step.sr.Closed?;
      && (taken ==> Has(Next(w, step), i, w.t.socks[i].gen, h))
      && (!taken ==> Next(w, step).t.socks[i].hw == -1)
      && Next(w, step).t.shut == w.t.shut + (if h >= 0 && step.opens && !step.connects then [h as Hw] else [])
  {
    hide TableOk, OpsOk, HwAlloc, Honest, AllLive;
    var i := step.i;
    var u := Enter(w, i, Connecting);
    SameAlloc(w.t, u.t, step.closed);
    StepKeeps(w, step);
    OccupantLives(w, Next(w, step), i);
    ConnectIs(u, step);
  }

  /** hw_alloc looks at `inUse` and `hw` only. */
  lemma SameAlloc(t: Table, u: Table, closed: set<Hw>)
    requires u.broken == t.broken
    requires forall j: Slot :: u.socks[j].inUse == t.socks[j].inUse && u.socks[j].hw == t.socks[j].hw
    ensures HwAlloc(u, closed) == HwAlloc(t, closed)
  {
    forall h: Hw
      ensures Allocatable(t, closed, h) <==> Allocatable(u, closed, h)
    {
      if Taken(t, h) {
        var j: Slot :| t.socks[j].inUse && t.socks[j].hw == h;
        assert u.socks[j].inUse && u.socks[j].hw == h;
      }
      if Taken(u, h) {
        var j: Slot :| u.socks[j].inUse && u.socks[j].hw == h;
        assert t.socks[j].inUse && t.socks[j].hw == h;
      }
    }
    HwAllocIs(t, closed);
    HwAllocIs(u, closed);
  }

  lemma ConnectIs(u: World, step: Step)
    requires step.ConnectCall? && u.t.socks[step.i].inUse && !u.t.socks[step.i].zombie && u.t.socks[step.i].hw == -1
    ensures var i := step.i; var h := HwAlloc(u.t, step.closed);
      var r := AfterConnect(u, i, step.closed, step.opens, step.connects, step.sr, step.nonblock).t;
      var s := r.socks[i];
      && r.shut == u.t.shut + (if h >= 0 && step.opens && !step.connects then [h as Hw] else [])
      && s.hw == (if h >= 0 && step.opens && step.connects && !step.sr.Closed? then h else -1)
      && !s.zombie && s.stream == u.t.socks[i].stream
  {
    hide HwAlloc, Enter, Leave, ConnectLook;
    var i := step.i;
    var (t1, waits) := Connect(u.t, i, step.closed, step.opens, step.connects);
    BooksKeepHw(u.(t := t1), i, Connecting);
    if waits {
      var t2 := ConnectLook(t1, i, step.sr, false, step.nonblock).0;
      LookKeepsType(t1, i, step.sr, false, step.nonblock);
      LookIs(t1, i, step.sr, false, step.nonblock);
      BooksKeepHw(u.(t := t2), i, Connecting);
    }
  }

  lemma LookKeepsType(t: Table, i: Slot, sr: Status, timedOut: bool, nonblock: bool)
    ensures var s := ConnectLook(t, i, sr, timedOut, nonblock).0.socks[i];
      && ConnectLook(t, i, sr, timedOut, nonblock).0.shut == t.shut
      && s.zombie == t.socks[i].zombie && s.stream == t.socks[i].stream && s.hw in {t.socks[i].hw, -1}
  {
  }

  /**
    A wait of connect() that ends on SOCK_ESTABLISHED: if connect() took hardware socket h in a step from w, and
    neither shutdown() nor close() of that socket nor SOCK_CLOSED in its wait came between, connect()
    returns 0, no longer counts as in flight, and its socket has h.
   */
  lemma EstablishedIsConnected(w: World, call: Step, steps: seq<Step>, timedOut: bool, nonblock: bool, h: Hw)
    requires Inv(w) && call.ConnectCall? && Enabled(w, call) && HonestStep(w, call)
    requires var i, gen := call.i, w.t.socks[call.i].gen;
      && Has(Next(w, call), i, gen, h) && ValidRun(Next(w, call), steps)
      && (forall k | 0 <= k < |steps| :: !GivesUp(steps[k], i))
      && Call(After(Next(w, call), steps), i, Connecting) in After(Next(w, call), steps).ops
    ensures var i, gen := call.i, w.t.socks[call.i].gen;
      var v := After(Next(w, call), steps);
      var wake := ConnectWake(i, timedOut, Established, nonblock);
      && Enabled(v, wake) && HonestStep(v, wake)
      && ConnectLook(v.t, i, Established, timedOut, nonblock) == (v.t, Returns(true))
      && Has(Next(v, wake), i, gen, h)
      && Next(v, wake).ops == v.ops - multiset{Flight(i, Connecting, gen)}
  {
    hide Inv, ValidRun, After, GivesUp, Enabled, HonestStep, Next, AllLive, ConnectLook, Look;
    var i, gen := call.i, w.t.socks[call.i].gen;
    StepKeeps(w, call);
    ConnectionIsKept(Next(w, call), steps, i, gen, h);
    var v := After(Next(w, call), steps);
    var wake := ConnectWake(i, timedOut, Established, nonblock);
    LookIs(v.t, i, Established, timedOut, nonblock);
    WakeIs(v, i, timedOut, nonblock);
    NoGivingUp(wake, i);
    StepKeepsHas(v, wake, i, gen, h);
  }

  lemma NoGivingUp(wake: Step, i: Slot)
    requires wake.ConnectWake? && !wake.sr.Closed?
    ensures !GivesUp(wake, i)
  {
  }

  lemma WakeIs(v: World, i: Slot, timedOut: bool, nonblock: bool)
    requires Inv(v) && Call(v, i, Connecting) in v.ops
    requires ConnectLook(v.t, i, Established, timedOut, nonblock) == (v.t, Returns(true))
    ensures var wake := ConnectWake(i, timedOut, Established, nonblock);
      && Enabled(v, wake) && HonestStep(v, wake)
      && Next(v, wake).ops == v.ops - multiset{Call(v, i, Connecting)}
  {
    hide ConnectLook, TableOk;
    FlightCounts(v.ops, Call(v, i, Connecting));
    assert Open(v.t, i);
  }

  // ---------------------------------------------------------------- datagram sockets

  /** The table bind() looks for hardware in: without what the socket had, if it had any on another port. */
  function Unbound(t: Table, i: Slot): Table {
    Set(t, i, t.socks[i].(hw := -1))
  }

  /**
    bind() of a datagram socket. Asked for the port it is open on it does nothing; otherwise what it had is closed,
    and it has hardware afterwards exactly if hw_alloc finds some and OPEN works: that one, on the port
    asked for, or on an ephemeral one for port 0.
   */
  lemma BindIs(t: Table, i: Slot, port: nat, closed: set<Hw>, opens: bool, ephemeral: nat)
    requires !t.socks[i].stream
    ensures var s, r := t.socks[i], Bind(t, i, port, closed, opens, ephemeral);
      var b, h := r.socks[i], HwAlloc(Unbound(t, i), closed);
      if s.hw >= 0 && s.port == port then r == t
      else
        && (b.hw == if h >= 0 && opens then h else -1)
        && (b.hw >= 0 ==> b.port == if port > 0 then port else ephemeral)
        && r.shut == t.shut + (if s.hw >= 0 then [s.hw as Hw] else [])
        && b == s.(hw := b.hw, port := b.port) && forall j: Slot :: j != i ==> r.socks[j] == t.socks[j]
  {
    hide HwAlloc, UdpOpen, DropHw;
    var s := t.socks[i];
    if !(s.hw >= 0 && s.port == port) {
      var t1 := if s.hw >= 0 then DropHw(t, i) else t;
      DropHwIs(t, i);
      var t2 := Set(t1, i, t1.socks[i].(port := port));
      var p := if port != 0 then port else ephemeral;
      assert Bind(t, i, port, closed, opens, ephemeral) ==
             if HwAlloc(t1, closed) < 0 then t1 else UdpOpen(t2, i, closed, opens, p);
      hide Bind;
      SameSearch(t, t1, t2, i, closed);
      UdpOpenIs(t2, i, closed, opens, p);
    }
  }

  /** hw_alloc finds the same before and after the socket's own hardware and port are set aside. */
  lemma SameSearch(t: Table, t1: Table, t2: Table, i: Slot, closed: set<Hw>)
    requires t1.socks[i].hw == t2.socks[i].hw == -1 && t1.broken == t2.broken == t.broken
    requires t1.socks[i].inUse == t2.socks[i].inUse == t.socks[i].inUse
    requires forall j: Slot :: j != i ==> t1.socks[j] == t.socks[j] && t2.socks[j] == t.socks[j]
    ensures HwAlloc(t1, closed) == HwAlloc(t2, closed) == HwAlloc(Unbound(t, i), closed)
  {
    SameAlloc(Unbound(t, i), t1, closed);
    SameAlloc(Unbound(t, i), t2, closed);
    hide HwAlloc;
  }

  lemma DropHwIs(t: Table, i: Slot)
    ensures var s, r := t.socks[i], DropHw(t, i);
      && r == t.(socks := r.socks, shut := r.shut) && r.socks[i] == s.(hw := -1)
      && r.shut == t.shut + (if s.hw >= 0 then [s.hw as Hw] else [])
      && forall j: Slot :: j != i ==> r.socks[j] == t.socks[j]
  {
  }

  lemma UdpOpenIs(t: Table, i: Slot, closed: set<Hw>, opens: bool, port: nat)
    ensures var s, r := t.socks[i], UdpOpen(t, i, closed, opens, port);
      var h := HwAlloc(t, closed);
      && r.socks[i] == (if h >= 0 && opens then s.(hw := h, port := port) else s.(hw := -1))
      && r.shut == t.shut && forall j: Slot :: j != i ==> r.socks[j] == t.socks[j]
  {
    hide HwAlloc;
  }

  /**
    sendto() on a datagram socket without hardware opens it, as bind() would on the port it has or an ephemeral
    one; a socket with hardware, and a stream, is left as it is.
   */
  lemma SendOpensIs(w: World, i: Slot, closed: set<Hw>, opens: bool, ephemeral: nat)
    ensures var s, r := w.t.socks[i], SendOpens(w, i, true, closed, opens, ephemeral);
      var b, h := r.t.socks[i], HwAlloc(w.t, closed);
      if s.stream || s.hw >= 0 then r == w
      else
        && (b.hw == if h >= 0 && opens then h else -1)
        && (b.hw >= 0 ==> b.port == if s.port > 0 then s.port else ephemeral)
        && r.t.shut == w.t.shut && r.ops == w.ops
        && b == s.(hw := b.hw, port := b.port) && forall j: Slot :: j != i ==> r.t.socks[j] == w.t.socks[j]
  {
    hide HwAlloc, UdpOpen;
    UdpOpenIs(w.t, i, closed, opens, if w.t.socks[i].port != 0 then w.t.socks[i].port else ephemeral);
  }

  /** listen() is refused for a datagram socket and for one with hardware; else the pool is armed and the flag set. */
  lemma ListenIs(t: Table, i: Slot, tries: nat -> Try)
    ensures var s, r := t.socks[i], Listen(t, i, tries);
      if !s.stream || s.hw >= 0 then r == t
      else r.socks[i] == s.(listening := true, pool := r.socks[i].pool) && Members(s.pool) <= Members(r.socks[i].pool)
  {
    FillFrame(Set(t, i, t.socks[i].(listening := true)), i, tries, 0);
    FillOnlyAdds(Set(t, i, t.socks[i].(listening := true)), i, tries, 0);
    hide Fill;
  }

  lemma {:induction false} FillOnlyAdds(t: Table, l: Slot, tries: nat -> Try, k: nat)
    ensures Members(t.socks[l].pool) <= Members(Fill(t, l, tries, k).socks[l].pool)
    decreases NUM_SOCKETS - k
  {
    hide HwAlloc;
    if t.socks[l].pool.count >= LISTEN_KEEP || k >= NUM_SOCKETS {
    } else {
      var h := HwAlloc(t, tries(k).closed);
      if h >= 0 {
        FillOnlyAdds(FillOnce(t, l, h, tries(k).opens), l, tries, k + 1);
      }
    }
  }

  /** shutdown() of a direction that includes writing closes what the socket has, and only that. */
  lemma ShutdownIs(t: Table, i: Slot)
    ensures var s, r := t.socks[i], Shutdown(t, i);
      && r.socks[i] == s.(hw := -1) && r.shut == t.shut + (if s.hw >= 0 then [s.hw as Hw] else [])
      && forall j: Slot :: j != i ==> r.socks[j] == t.socks[j]
  {
    DropHwIs(t, i);
  }
}
