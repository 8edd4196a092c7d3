/**
  When close() returns a datagram socket's hardware for good: bind() takes no reference and does not look at
  the zombie flag, so a socket that is closed under a call in flight can take hardware again.
 */
module W5500Datagram {
  import opened W5500Fifo
  import opened W5500Table
  import opened W5500Invariant
  import opened W5500Calls
  import opened W5500Runs
  import opened W5500Close
  import opened W5500Leaks

  // ---------------------------------------------------------------- closed with no call in flight

  /** Slot i is free since occupant number gen left it, and nothing is left behind. */
  predicate Gone(w: World, i: Slot, gen: nat) {
    var s := w.t.socks[i];
    s.gen == gen && !s.inUse && s.hw == -1 && s.pool.count == 0 && s.pend.count == 0
  }

  lemma NobodyCallsAFreeSlot(w: World, step: Step, i: Slot)
    requires Inv(w) && Enabled(w, step) && !w.t.socks[i].inUse && !step.Socket?
    ensures step.i != i
  {
    hide TableOk;
    if step.ConnectWake? {
      assert Open(w.t, step.i);
    }
  }

  lemma GoneStays(w: World, step: Step, i: Slot, gen: nat)
    requires Inv(w) && Enabled(w, step) && HonestStep(w, step) && Gone(w, i, gen)
    requires Next(w, step).t.socks[i].gen == gen
    ensures Gone(Next(w, step), i, gen)
  {
    hide Enabled, HonestStep, Inv, Next;
    if step.Socket? {
      CreateIsNext(w, step);
      CreateIsElsewhere(w.t, step.stream, i);
    } else {
      NobodyCallsAFreeSlot(w, step, i);
      OtherStep(w, step, step.i);
    }
  }

  lemma CreateIsNext(w: World, step: Step)
    requires step.Socket?
    ensures Next(w, step).t == Create(w.t, step.stream)
  {
  }

  lemma {:induction false} GoneForGood(w: World, steps: seq<Step>, i: Slot, gen: nat)
    requires Inv(w) && ValidRun(w, steps) && Gone(w, i, gen) && After(w, steps).t.socks[i].gen == gen
    ensures Gone(After(w, steps), i, gen)
    decreases |steps|
  {
    hide Inv, AllLive, Next, Enabled, HonestStep;
    if steps == [] {
    } else {
      var r := Next(w, steps[0]);
      StepKeeps(w, steps[0]);
      SettledStays(w, steps[0], i, gen);
      NumbersGrow(r, steps[1..], i);
      GoneStays(w, steps[0], i, gen);
      GoneForGood(r, steps[1..], i, gen);
    }
  }

  lemma CloseOfIdleIsGone(w: World, i: Slot)
    requires Inv(w) && Open(w.t, i) && !w.t.socks[i].zombie && w.t.socks[i].users == 0
    ensures Gone(Next(w, CloseCall(i)), i, w.t.socks[i].gen)
  {
    hide TableOk, Close;
    CloseIs(w.t, i);
    CloseLeavesNothing(w.t, i);
  }

  /**
    A socket of either type that is closed with no call in flight is gone: in every run from there, until its
    slot is handed out again, the slot is free and has no hardware socket, pooled or its own.
   */
  lemma ClosedForGoodWithoutCalls(w: World, i: Slot, steps: seq<Step>)
    requires Inv(w) && Open(w.t, i) && !w.t.socks[i].zombie && w.t.socks[i].users == 0
    requires ValidRun(Next(w, CloseCall(i)), steps)
    requires After(Next(w, CloseCall(i)), steps).t.socks[i].gen == w.t.socks[i].gen
    ensures var s := After(Next(w, CloseCall(i)), steps).t.socks[i];
      !s.inUse && s.hw == -1 && Members(s.pool) == []
  {
    hide Inv, AllLive, Next;
    StepKeeps(w, CloseCall(i));
    CloseOfIdleIsGone(w, i);
    GoneForGood(Next(w, CloseCall(i)), steps, i, w.t.socks[i].gen);
  }

  // ---------------------------------------------------------------- and with one

  /** bind() does not look at the zombie flag: a closed datagram socket with a call in flight takes hardware again. */
  lemma ClosedDatagramSocketIsBound(w: World, i: Slot, h: Hw, port: nat)
    requires Open(w.t, i) && w.t.socks[i].zombie && !w.t.socks[i].stream && w.t.socks[i].hw == -1
    requires FreeHardware(w.t, h)
    ensures var step := BindCall(i, port, {h}, true, 0);
      Enabled(w, step) && HonestStep(w, step) && Next(w, step).t.socks[i].hw == h
  {
    hide HwAlloc, Honest;
    OnlyCandidate(w.t, h);
    var t1 := Set(w.t, i, w.t.socks[i].(port := port));
    forall j: Slot
      ensures !Holds(t1.socks[j], h)
    {
      assert !Holds(w.t.socks[j], h);
    }
    OnlyCandidate(t1, h);
  }

  /** This run from w leaves the occupant's slot with a hardware socket. */
  ghost predicate TakesHardware(w: World, steps: seq<Step>, i: Slot, gen: nat) {
    ValidRun(w, steps) && After(w, steps).t.socks[i].gen == gen && After(w, steps).t.socks[i].hw >= 0
  }

  lemma ClosedUnderACall(w: World, i: Slot)
    requires Inv(w) && Open(w.t, i) && !w.t.socks[i].zombie && w.t.socks[i].users > 0
    ensures var s := Next(w, CloseCall(i)).t.socks[i];
      && s.inUse && s.hasFd && s.zombie && s.hw == -1 && s.gen == w.t.socks[i].gen && s.stream == w.t.socks[i].stream
  {
    hide TableOk, Close;
    CloseIs(w.t, i);
    CloseLeavesNothing(w.t, i);
  }

  /**
    close() returns a datagram socket's hardware for good if and only if no call of it is in flight, provided
    hw_alloc could hand out anything after it.
   */
  lemma DatagramCloseIsForGoodIff(w: World, i: Slot, h: Hw)
    requires Inv(w) && Open(w.t, i) && !w.t.socks[i].zombie && !w.t.socks[i].stream
    requires FreeHardware(Next(w, CloseCall(i)).t, h)
    ensures (exists steps :: TakesHardware(Next(w, CloseCall(i)), steps, i, w.t.socks[i].gen)) <==>
            w.t.socks[i].users > 0
  {
    hide Inv, ValidRun, After, FreeHardware, AllLive, Next, Enabled, HonestStep;
    var r := Next(w, CloseCall(i));
    var gen := w.t.socks[i].gen;
    if w.t.socks[i].users > 0 {
      var step := BindCall(i, 0, {h}, true, 0);
      CloseIsPossible(w, i);
      StepKeeps(w, CloseCall(i));
      ClosedUnderACall(w, i);
      ClosedDatagramSocketIsBound(r, i, h, 0);
      StepKeeps(r, step);
      OccupantStays(r, Next(r, step), i);
      OneStep(r, step);
      assert TakesHardware(r, [step], i, gen);
    } else {
      forall steps | TakesHardware(r, steps, i, gen)
        ensures false
      {
        ClosedForGoodWithoutCalls(w, i, steps);
      }
    }
  }

  lemma CloseIsPossible(w: World, i: Slot)
    requires Open(w.t, i)
    ensures Enabled(w, CloseCall(i)) && HonestStep(w, CloseCall(i))
  {
  }

  // ---------------------------------------------------------------- a run from the empty table

  const PLAIN := FREE_SOCK.(inUse := true, gen := 1, hasFd := true)
  const READY := PLAIN.(hw := 0, port := 5000)
  const WAITING := READY.(users := 1)
  const CLOSED := WAITING.(hw := -1, zombie := true)
  const REOPENED := CLOSED.(hw := 0)

  function Only(s: Sock, ops: multiset<Flight>, shut: seq<Hw>): World {
    World(Set(EMPTY_TABLE.(shut := shut), 0, s), ops)
  }

  const ASLEEP := multiset{Flight(0, Receiving, 1)}

  function BindIt(): Step {
    BindCall(0, 5000, {0}, true, 0)
  }

  lemma Rewritten(a: Sock, b: Sock, ops: multiset<Flight>, shut: seq<Hw>)
    ensures Set(Only(a, ops, shut).t, 0, b) == Only(b, ops, shut).t
    ensures forall j: Slot :: Only(a, ops, shut).t.socks[j] == if j == 0 then a else FREE_SOCK
  {
    assert EMPTY_TABLE.socks[0 := a][0 := b] == EMPTY_TABLE.socks[0 := b];
  }

  lemma SocketCreated()
    ensures Enabled(START, Socket(false)) && HonestStep(START, Socket(false))
    ensures Next(START, Socket(false)) == Only(PLAIN, multiset{}, [])
  {
    assert forall i: Slot :: START.t.socks[i] == FREE_SOCK;
    assert FirstFree(EMPTY_TABLE, 0) == 0;
  }

  lemma NothingIsHeld(s: Sock, ops: multiset<Flight>, shut: seq<Hw>)
    requires s.hw == -1 && s.pool.count == 0
    ensures FreeHardware(Only(s, ops, shut).t, 0)
  {
    Rewritten(s, s, ops, shut);
    assert Members(s.pool) == [];
  }

  /** bind() of the only socket takes hardware socket 0, closed or not. */
  lemma SocketIsBound(s: Sock, ops: multiset<Flight>, shut: seq<Hw>)
    requires s.inUse && s.hasFd && !s.stream && s.hw == -1 && s.pool.count == 0
    ensures var w := Only(s, ops, shut);
      && Enabled(w, BindIt()) && HonestStep(w, BindIt())
      && Next(w, BindIt()) == Only(s.(hw := 0, port := 5000), ops, shut)
  {
    hide HwAlloc, Honest;
    var t := Only(s, ops, shut).t;
    var p := s.(port := 5000);
    NothingIsHeld(s, ops, shut);
    NothingIsHeld(p, ops, shut);
    OnlyCandidate(t, 0);
    OnlyCandidate(Only(p, ops, shut).t, 0);
    Rewritten(s, p, ops, shut);
    Rewritten(p, p.(hw := 0), ops, shut);
  }

  lemma ReceiverSleeps()
    ensures var w := Only(READY, multiset{}, []);
      var step := ReceiveCall(0, false);
      && Enabled(w, step) && HonestStep(w, step) && Next(w, step) == Only(WAITING, ASLEEP, [])
  {
    Rewritten(READY, WAITING, multiset{}, []);
  }

  lemma SocketIsClosed()
    ensures var w := Only(WAITING, ASLEEP, []);
      && Enabled(w, CloseCall(0)) && HonestStep(w, CloseCall(0))
      && Next(w, CloseCall(0)) == Only(CLOSED, ASLEEP, [0])
  {
    var t := Only(WAITING, ASLEEP, []).t;
    Rewritten(WAITING, CLOSED, ASLEEP, []);
    assert Members(WAITING.pool) == [];
    assert Buried(t, 0) == Only(CLOSED, ASLEEP, [0]).t;
    assert DrainBacklog(Buried(t, 0), 0) == Buried(t, 0);
  }

  lemma ReceiverReturns()
    ensures var w := Only(REOPENED, ASLEEP, [0]);
      var s := REOPENED.(users := 0, inUse := false);
      && Enabled(w, ReceiveEnd(0)) && HonestStep(w, ReceiveEnd(0))
      && Next(w, ReceiveEnd(0)) == Only(s, multiset{}, [0])
  {
    Rewritten(REOPENED, REOPENED.(users := 0, inUse := false), ASLEEP, [0]);
    assert ASLEEP - multiset{Flight(0, Receiving, 1)} == multiset{};
  }

  /**
    Six calls: a datagram socket is created, bound to hardware socket 0, sleeps in recvfrom(), is closed and
    bound again; then recvfrom() returns. The slot is free, nobody has hardware socket 0, and the one CLOSE
    it got was that of close(), before the second bind().
   */
  lemma ClosedSocketKeepsItsPort() returns (steps: seq<Step>)
    ensures steps == [Socket(false), BindIt(), ReceiveCall(0, false), CloseCall(0), BindIt(), ReceiveEnd(0)]
    ensures ValidRun(START, steps)
    ensures var t := After(START, steps).t;
      !t.socks[0].inUse && t.socks[0].hw == 0 && Unheld(t, 0) && t.shut == [0]
  {
    hide ValidRun, After, Enabled, HonestStep, Next, Only, BindIt;
    SocketCreated();
    SocketIsBound(PLAIN, multiset{}, []);
    ReceiverSleeps();
    SocketIsClosed();
    SocketIsBound(CLOSED, ASLEEP, [0]);
    ReceiverReturns();
    OneStep(Only(REOPENED, ASLEEP, [0]), ReceiveEnd(0));
    steps := [ReceiveEnd(0)];
    steps := Before(Only(CLOSED, ASLEEP, [0]), BindIt(), steps);
    steps := Before(Only(WAITING, ASLEEP, []), CloseCall(0), steps);
    steps := Before(Only(READY, multiset{}, []), ReceiveCall(0, false), steps);
    steps := Before(Only(PLAIN, multiset{}, []), BindIt(), steps);
    steps := Before(START, Socket(false), steps);
    NobodyIsLeft();
  }

  lemma NobodyIsLeft()
    ensures var t := Only(REOPENED.(users := 0, inUse := false), multiset{}, [0]).t;
      !t.socks[0].inUse && t.socks[0].hw == 0 && Unheld(t, 0) && t.shut == [0]
  {
    var s := REOPENED.(users := 0, inUse := false);
    Rewritten(s, s, multiset{}, [0]);
  }
}
