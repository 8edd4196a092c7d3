/** Short runs of the W5500 driver that go wrong, from an empty table. */
module W5500Leaks {
  import opened W5500Fifo
  import opened W5500Table
  import opened W5500Invariant
  import opened W5500Calls
  import opened W5500Runs
  import opened W5500Close
  import W5500Driver
  import O = W5500Orphans

  /** No hardware socket reads SOCK_CLOSED. */
  function NoneClosed(k: nat): Try {
    Try({}, true)
  }

  function FindNone(): nat -> Try {
    NoneClosed
  }

  function Idle(): Turn {
    Turn({}, {}, FindNone(), FindNone(), false, false)
  }

  const ACCEPTING := multiset{Flight(0, Accepting, 1)}
  const SERVER := FREE_SOCK.(inUse := true, gen := 1, stream := true, hasFd := true)

  function With(s: Sock, ops: multiset<Flight>): World {
    World(Set(EMPTY_TABLE, 0, s), ops)
  }

  lemma Cons(w: World, step: Step, rest: seq<Step>)
    requires Enabled(w, step) && HonestStep(w, step) && ValidRun(Next(w, step), rest)
    ensures ValidRun(w, [step] + rest) && After(w, [step] + rest) == After(Next(w, step), rest)
  {
    assert ([step] + rest)[1..] == rest;
  }

  lemma Before(w: World, step: Step, rest: seq<Step>) returns (steps: seq<Step>)
    requires Enabled(w, step) && HonestStep(w, step) && ValidRun(Next(w, step), rest)
    ensures steps == [step] + rest
    ensures ValidRun(w, steps) && After(w, steps) == After(Next(w, step), rest)
  {
    hide ValidRun, After, Enabled, HonestStep, Next;
    Cons(w, step, rest);
    steps := [step] + rest;
  }

  lemma NoSteps(w: World)
    ensures ValidRun(w, []) && After(w, []) == w
  {
  }

  lemma OneStep(w: World, step: Step)
    requires Enabled(w, step) && HonestStep(w, step)
    ensures ValidRun(w, [step]) && After(w, [step]) == Next(w, step)
  {
    NoSteps(Next(w, step));
    Cons(w, step, []);
  }

  lemma FillFindsNone(t: Table, i: Slot)
    ensures Fill(t, i, FindNone(), 0) == t && FillHonest(t, i, FindNone(), 0)
  {
    NoCandidate(t);
  }

  lemma ServerCreated()
    ensures Next(START, Socket(true)) == With(SERVER, multiset{})
  {
    assert forall i: Slot :: START.t.socks[i] == FREE_SOCK;
    assert FirstFree(EMPTY_TABLE, 0) == 0;
  }

  lemma ServerListens()
    ensures var w := With(SERVER, multiset{});
      var step := ListenCall(0, FindNone());
      && Enabled(w, step) && HonestStep(w, step)
      && Next(w, step) == With(SERVER.(listening := true), multiset{})
  {
    hide Fill, FillHonest;
    var w := With(SERVER, multiset{});
    FillFindsNone(Set(w.t, 0, SERVER.(listening := true)), 0);
    assert EMPTY_TABLE.socks[0 := SERVER][0 := SERVER.(listening := true)]
           == EMPTY_TABLE.socks[0 := SERVER.(listening := true)];
  }

  function Server(users: nat): Sock {
    SERVER.(listening := true, users := users)
  }

  lemma Overwritten(a: Sock, b: Sock, ops: multiset<Flight>)
    ensures Set(With(a, ops).t, 0, b) == With(b, ops).t
    ensures forall j: Slot :: With(a, ops).t.socks[j] == if j == 0 then a else FREE_SOCK
  {
    assert EMPTY_TABLE.socks[0 := a][0 := b] == EMPTY_TABLE.socks[0 := b];
  }

  /** Another accept() goes to sleep. */
  lemma OneMoreAccept(users: nat, ops: multiset<Flight>)
    ensures var w := With(Server(users), ops);
      var step := AcceptCall(0, Idle());
      && Enabled(w, step) && HonestStep(w, step)
      && Next(w, step) == With(Server(users + 1), ops + ACCEPTING)
  {
    hide Fill, FillHonest;
    var w := With(Server(users), ops);
    var s := Server(users + 1);
    Overwritten(Server(users), s, ops);
    var u := Enter(w, 0, Accepting);
    assert u == With(s, ops + ACCEPTING);
    FillFindsNone(u.t, 0);
    assert Reap(u.t, 0, {}) == (u.t, -1);
    assert FirstEstablished(s.pool, {}, 0) == -1;
    assert PromoteInline(u.t, 0, Idle()) == u.t;
  }

  lemma ServerAccepts()
    ensures var w := With(SERVER.(listening := true), multiset{});
      var step := AcceptCall(0, Idle());
      && Enabled(w, step) && HonestStep(w, step)
      && Next(w, step) == With(SERVER.(listening := true, users := 1), ACCEPTING)
  {
    OneMoreAccept(0, multiset{});
    assert multiset{} + ACCEPTING == ACCEPTING;
  }

  lemma ServerIsClosed()
    ensures var w := With(SERVER.(listening := true, users := 1), ACCEPTING);
      && Enabled(w, CloseCall(0)) && HonestStep(w, CloseCall(0))
      && Next(w, CloseCall(0)) == With(SERVER.(users := 1, zombie := true), ACCEPTING)
  {
    var s := SERVER.(listening := true, users := 1);
    var t := Set(EMPTY_TABLE, 0, s);
    var z := SERVER.(users := 1, zombie := true);
    assert EMPTY_TABLE.socks[0 := s][0 := z] == EMPTY_TABLE.socks[0 := z];
    assert Buried(t, 0) == Set(EMPTY_TABLE, 0, z);
    assert DrainBacklog(Buried(t, 0), 0) == Buried(t, 0);
  }

  /**
    Five calls: a server is created, listens, blocks in accept() and is closed; then accept() wakes. Its
    slot is free, hardware socket 0 listens, and nothing ever closed it.
   */
  lemma ClosedServerStillListens() returns (steps: seq<Step>)
    ensures ValidRun(START, steps)
    ensures var t := After(START, steps).t;
      !t.socks[0].inUse && 0 in Members(t.socks[0].pool) && Unheld(t, 0) && t.shut == []
  {
    hide ValidRun, After, Enabled, HonestStep, Next, Inv, With;
    var w4 := With(SERVER.(users := 1, zombie := true), ACCEPTING);
    StartIsOk();
    ServerCreated();
    ServerListens();
    ServerAccepts();
    ServerIsClosed();
    ReachedOk(w4);
    Closed4(w4);
    var rest := AcceptCanLeaveItArmed(w4, 0, 0);
    Cons(With(SERVER.(listening := true, users := 1), ACCEPTING), CloseCall(0), rest);
    var r3 := [CloseCall(0)] + rest;
    Cons(With(SERVER.(listening := true), multiset{}), AcceptCall(0, Idle()), r3);
    var r2 := [AcceptCall(0, Idle())] + r3;
    Cons(With(SERVER, multiset{}), ListenCall(0, FindNone()), r2);
    var r1 := [ListenCall(0, FindNone())] + r2;
    SocketIsPossible();
    Cons(START, Socket(true), r1);
    steps := [Socket(true)] + r1;
  }

  lemma SocketIsPossible()
    ensures Enabled(START, Socket(true)) && HonestStep(START, Socket(true))
  {
  }

  lemma ReachedOk(w4: World)
    requires w4 == With(SERVER.(users := 1, zombie := true), ACCEPTING)
    ensures Inv(w4)
  {
    hide Inv, Next, AllLive, With;
    StartIsOk();
    SocketIsPossible();
    ServerCreated();
    StepKeeps(START, Socket(true));
    ServerListens();
    StepKeeps(With(SERVER, multiset{}), ListenCall(0, FindNone()));
    ServerAccepts();
    StepKeeps(With(SERVER.(listening := true), multiset{}), AcceptCall(0, Idle()));
    ServerIsClosed();
    StepKeeps(With(SERVER.(listening := true, users := 1), ACCEPTING), CloseCall(0));
  }

  lemma Closed4(w4: World)
    requires w4 == With(SERVER.(users := 1, zombie := true), ACCEPTING)
    ensures w4.t.socks[0].inUse && w4.t.socks[0].zombie && w4.t.socks[0].pool.count == 0
    ensures w4.t.socks[0].pend.count == 0 && w4.t.shut == []
    ensures Call(w4, 0, Accepting) in w4.ops && FreeHardware(w4.t, 0)
  {
    assert forall j: Slot :: j != 0 ==> w4.t.socks[j] == FREE_SOCK;
    assert Members(w4.t.socks[0].pool) == [];
  }

  // ---------------------------------------------------------------- one hardware socket, two holders

  const BOUND := SERVER.(port := 80)
  const ARMED := BOUND.(listening := true, pool := PoolFields([0, 0], 1))

  function Two(s: Sock, c: Sock): World {
    World(Set(Set(EMPTY_TABLE, 0, s), 1, c), multiset{})
  }

  lemma ServerBinds()
    ensures var w := With(SERVER, multiset{});
      var step := BindCall(0, 80, {}, true, 0);
      && Enabled(w, step) && HonestStep(w, step) && Next(w, step) == With(BOUND, multiset{})
  {
    assert EMPTY_TABLE.socks[0 := SERVER][0 := BOUND] == EMPTY_TABLE.socks[0 := BOUND];
  }

  lemma ServerArms()
    ensures var w := With(BOUND, multiset{});
      var step := ListenCall(0, ArmOne(0));
      && Enabled(w, step) && HonestStep(w, step) && Next(w, step) == With(ARMED, multiset{})
  {
    hide HwAlloc, Honest;
    var s := BOUND.(listening := true);
    var t := Set(EMPTY_TABLE, 0, s);
    assert EMPTY_TABLE.socks[0 := BOUND][0 := s] == EMPTY_TABLE.socks[0 := s];
    assert Set(With(BOUND, multiset{}).t, 0, s) == t;
    NobodyHolds(t, s);
    OnlyCandidate(t, 0);
    var t1 := FillOnce(t, 0, 0, true);
    assert EMPTY_TABLE.socks[0 := s][0 := ARMED] == EMPTY_TABLE.socks[0 := ARMED];
    assert EMPTY_TABLE.fail[0 := 0] == EMPTY_TABLE.fail;
    assert Join(EMPTY_POOL, 0) == ARMED.pool by {
      assert EMPTY_POOL.cells[0 := 0] == [0, 0];
    }
    assert t1 == Set(EMPTY_TABLE, 0, ARMED);
    NoCandidate(t1);
    assert Fill(t1, 0, ArmOne(0), 1) == t1 && FillHonest(t1, 0, ArmOne(0), 1);
  }

  lemma NobodyHolds(t: Table, s: Sock)
    requires t == Set(EMPTY_TABLE, 0, s) && s.hw == -1 && s.pool.count == 0
    ensures FreeHardware(t, 0)
  {
    assert forall j: Slot :: j != 0 ==> t.socks[j] == FREE_SOCK;
    assert Members(s.pool) == [];
  }

  lemma ClientCreated()
    ensures Next(With(ARMED, multiset{}), Socket(true)) == Two(ARMED, SERVER)
  {
    var t := With(ARMED, multiset{}).t;
    assert t.socks[1] == FREE_SOCK;
    assert FirstFree(t, 1) == 1 && FirstFree(t, 0) == 1;
  }

  lemma ClientConnects()
    ensures var w := Two(ARMED, SERVER);
      var step := ConnectCall(1, {0}, true, true, Other, false);
      Enabled(w, step) && Holds(Next(w, step).t.socks[0], 0) && Holds(Next(w, step).t.socks[1], 0)
  {
    hide HwAlloc;
    var w := Two(ARMED, SERVER);
    var u := Enter(w, 1, Connecting);
    assert u.t.socks[0] == ARMED && u.t.socks[1] == Hold(SERVER);
    assert forall j: Slot :: j > 1 ==> u.t.socks[j] == FREE_SOCK;
    HwAllocIs(u.t, {0});
    assert Allocatable(u.t, {0}, 0);
    assert HwAlloc(u.t, {0}) == 0;
    assert Members(ARMED.pool) == [0];
  }

  /**
    Five calls: a server is created, bound and listens on hardware socket 0; its handshake is reset, so that
    socket reads SOCK_CLOSED; a client is created, and its connect() takes hardware socket 0 too.
   */
  lemma TwoHoldersFromStart() returns (steps: seq<Step>, last: Step)
    ensures ValidRun(START, steps) && Enabled(After(START, steps), last)
    ensures var t := Next(After(START, steps), last).t; Holds(t.socks[0], 0) && Holds(t.socks[1], 0)
  {
    hide ValidRun, After, Enabled, HonestStep, Next, With, Two;
    var listen := ListenCall(0, ArmOne(0));
    var bind := BindCall(0, 80, {}, true, 0);
    last := ConnectCall(1, {0}, true, true, Other, false);
    SocketIsPossible();
    ServerCreated();
    ServerBinds();
    ServerArms();
    SecondSocketIsPossible();
    ClientCreated();
    ClientConnects();
    NoSteps(Two(ARMED, SERVER));
    Cons(With(ARMED, multiset{}), Socket(true), []);
    Cons(With(BOUND, multiset{}), listen, [Socket(true)] + []);
    Cons(With(SERVER, multiset{}), bind, [listen] + ([Socket(true)] + []));
    Cons(START, Socket(true), [bind] + ([listen] + ([Socket(true)] + [])));
    steps := [Socket(true)] + ([bind] + ([listen] + ([Socket(true)] + [])));
  }

  lemma SecondSocketIsPossible()
    ensures Enabled(With(ARMED, multiset{}), Socket(true)) && HonestStep(With(ARMED, multiset{}), Socket(true))
  {
  }

  // ---------------------------------------------------------------- a full table and an armed listener

  /** The armed server, and k sockets beside it. */
  function Crowd(k: nat): World
    requires k < NUM_SOCKETS
  {
    World(EMPTY_TABLE.(socks := [ARMED] + seq(k, _ => SERVER) + seq(NUM_SOCKETS - 1 - k, _ => FREE_SOCK)), multiset{})
  }

  lemma ServerAlone()
    ensures With(ARMED, multiset{}) == Crowd(0)
  {
    assert With(ARMED, multiset{}).t.socks == Crowd(0).t.socks;
  }

  lemma OneMoreSocket(k: nat)
    requires k + 1 < NUM_SOCKETS
    ensures Enabled(Crowd(k), Socket(true)) && HonestStep(Crowd(k), Socket(true))
    ensures Next(Crowd(k), Socket(true)) == Crowd(k + 1)
  {
    var t := Crowd(k).t;
    FirstFreeIs(t, 0);
    assert !t.socks[k + 1].inUse;
    assert FirstFree(t, 0) == k + 1;
    assert Create(t, true).socks == Crowd(k + 1).t.socks;
  }

  lemma {:induction false} CrowdGrows(k: nat) returns (steps: seq<Step>)
    requires k < NUM_SOCKETS
    ensures ValidRun(Crowd(k), steps) && After(Crowd(k), steps) == Crowd(NUM_SOCKETS - 1)
    decreases NUM_SOCKETS - k
  {
    hide Enabled, HonestStep, Next, Crowd;
    if k == NUM_SOCKETS - 1 {
      steps := [];
    } else {
      OneMoreSocket(k);
      var rest := CrowdGrows(k + 1);
      Cons(Crowd(k), Socket(true), rest);
      steps := [Socket(true)] + rest;
    }
  }

  lemma NoRoomLeft()
    ensures var t := Crowd(NUM_SOCKETS - 1).t;
      t.socks[0].inUse && t.socks[0].listening && t.socks[0].pool.count == 1 && PromotionRefused(t, 0)
  {
    FirstFreeIs(Crowd(NUM_SOCKETS - 1).t, 0);
  }

  /**
    Ten calls: a server is created, bound and listens on hardware socket 0, and seven more sockets are created.
    If a client connects now, the worker's scan stays where it is for as long as the client stays.
   */
  lemma WorkerIsHeldUpFromStart(readings: seq<Status>, tries: nat -> nat -> Try) returns (steps: seq<Step>)
    requires forall k | 0 <= k < |readings| :: readings[k].Established?
    ensures ValidRun(START, steps)
    ensures var t := After(START, steps).t;
      && t.socks[0].listening && Members(t.socks[0].pool) != []
      && W5500Driver.ScanPool(t, 0, 0, readings, tries) == (t, 0)
  {
    hide ValidRun, After, Enabled, HonestStep, Next, With, Crowd, W5500Driver.ScanPool;
    var listen := ListenCall(0, ArmOne(0));
    var bind := BindCall(0, 80, {}, true, 0);
    SocketIsPossible();
    ServerCreated();
    ServerBinds();
    ServerArms();
    ServerAlone();
    var rest := CrowdGrows(0);
    Cons(With(BOUND, multiset{}), listen, rest);
    Cons(With(SERVER, multiset{}), bind, [listen] + rest);
    Cons(START, Socket(true), [bind] + ([listen] + rest));
    steps := [Socket(true)] + ([bind] + ([listen] + rest));
    NoRoomLeft();
    W5500Driver.ScanIsHeldUp(Crowd(NUM_SOCKETS - 1).t, 0, 0, readings, tries);
  }

  // ---------------------------------------------------------------- a connection nobody will ever accept

  const CLOSED := SERVER.(zombie := true)

  lemma ClosedUnderTwo()
    ensures var ops := ACCEPTING + ACCEPTING;
      var w := With(Server(2), ops);
      && Enabled(w, CloseCall(0)) && HonestStep(w, CloseCall(0))
      && Next(w, CloseCall(0)) == With(CLOSED.(users := 2), ops)
  {
    var t := With(Server(2), multiset{}).t;
    Overwritten(Server(2), CLOSED.(users := 2), multiset{});
    assert Members(EMPTY_POOL) == [];
    assert Buried(t, 0) == With(CLOSED.(users := 2), multiset{}).t;
    assert DrainBacklog(Buried(t, 0), 0) == Buried(t, 0);
  }

  const REARMED := CLOSED.(users := 1, pool := PoolFields([0, 0], 1))

  /** The first accept() wakes on the closed listener, arms hardware socket 0 and returns. */
  lemma FirstAcceptArms()
    ensures var ops := ACCEPTING + ACCEPTING;
      var w := With(CLOSED.(users := 2), ops);
      var step := AcceptWake(0, false, {}, Finding(0));
      && Enabled(w, step) && HonestStep(w, step) && Next(w, step) == With(REARMED, ACCEPTING)
  {
    hide HwAlloc, Honest, TurnHonest;
    var s := CLOSED.(users := 2);
    var a := REARMED.(users := 2);
    var t := With(s, multiset{}).t;
    Overwritten(s, a, multiset{});
    Overwritten(a, REARMED, multiset{});
    assert Members(s.pool) == [];
    OnlyCandidate(t, 0);
    FindingIsHonest(t, 0, 0);
    var t1 := FillOnce(t, 0, 0, true);
    assert EMPTY_TABLE.fail[0 := 0] == EMPTY_TABLE.fail;
    assert Join(EMPTY_POOL, 0) == REARMED.pool by {
      assert EMPTY_POOL.cells[0 := 0] == [0, 0];
    }
    assert t1 == With(a, multiset{}).t;
    NoCandidate(t1);
    assert Fill(t1, 0, ArmOne(0), 1) == t1;
    assert Fill(t, 0, ArmOne(0), 0) == t1;
    assert Reap(t, 0, {}) == (t, -1);
    assert PromoteInline(t, 0, Finding(0)) == t;
    assert ACCEPTING + ACCEPTING - ACCEPTING == ACCEPTING;
  }

  /** A client has connected to hardware socket 0 by now, and no other one is free. */
  function Connected(): Turn {
    Turn({}, {0}, FindNone(), FindNone(), false, false)
  }

  lemma SecondAcceptPromotes()
    ensures var w := With(REARMED, ACCEPTING);
      && Enabled(w, AcceptWake(0, false, {}, Connected())) && HonestStep(w, AcceptWake(0, false, {}, Connected()))
      && O.Promotes(w.t, 0, Connected()) && O.Adopted(w.t) && FirstFree(w.t, 0) == 1
      && TurnHonest(w.t, 0, Connected()) && Call(w, 0, Accepting) in w.ops
  {
    hide Fill, FillHonest;
    var t := With(REARMED, ACCEPTING).t;
    Overwritten(REARMED, REARMED, ACCEPTING);
    FirstFreeIs(t, 0);
    assert !t.socks[1].inUse;
    assert Reap(t, 0, {}) == (t, -1);
    FillFindsNone(Detached(t, 0, 0), 0);
    FillFindsNone(PromoteInline(t, 0, Connected()), 0);
  }

  lemma LedToTheSecondAccept(rest: seq<Step>) returns (steps: seq<Step>)
    requires ValidRun(With(REARMED, ACCEPTING), rest)
    ensures |steps| == 6 + |rest| && ValidRun(START, steps)
    ensures After(START, steps) == After(With(REARMED, ACCEPTING), rest)
  {
    hide ValidRun, After, Enabled, HonestStep, Next, With, Idle, FindNone, Finding;
    var twice := ACCEPTING + ACCEPTING;
    SocketIsPossible();
    ServerCreated();
    ServerListens();
    OneMoreAccept(0, multiset{});
    OneMoreAccept(1, ACCEPTING);
    ClosedUnderTwo();
    FirstAcceptArms();
    assert multiset{} + ACCEPTING == ACCEPTING;
    steps := Before(With(CLOSED.(users := 2), twice), AcceptWake(0, false, {}, Finding(0)), rest);
    steps := Before(With(Server(2), twice), CloseCall(0), steps);
    steps := Before(With(Server(1), ACCEPTING), AcceptCall(0, Idle()), steps);
    steps := Before(With(Server(0), multiset{}), AcceptCall(0, Idle()), steps);
    steps := Before(With(SERVER, multiset{}), ListenCall(0, FindNone()), steps);
    steps := Before(START, Socket(true), steps);
  }

  /**
    Seven calls: a server is created and listens, two accept()s sleep in it, and it is closed. The first accept()
    wakes and arms hardware socket 0 before it sees that the server is closed; a client connects; the
    second accept() wakes, promotes that connection, sees that the server is closed, and returns. The
    connection is an orphan: in every run from there it keeps slot 1 and hardware socket 0.
   */
  lemma ConnectionIsOrphaned(more: seq<Step>) returns (steps: seq<Step>)
    ensures |steps| == 7 && ValidRun(START, steps)
    ensures var w := After(START, steps);
      && !w.t.socks[0].inUse && Claimed(w.t, 1) && w.t.socks[1].hw >= 0
      && (ValidRun(w, more) ==> Claimed(After(w, more).t, 1) && After(w, more).t.socks[1] == w.t.socks[1])
  {
    hide ValidRun, After, Enabled, HonestStep, Next, Inv, With, Connected, Claimed, O.Promotes, O.Adopted, TurnHonest;
    var w := With(REARMED, ACCEPTING);
    var last := AcceptWake(0, false, {}, Connected());
    StartIsOk();
    NoSteps(w);
    var front := LedToTheSecondAccept([]);
    RunKeepsInv(START, front);
    SecondAcceptPromotes();
    OneStep(w, last);
    steps := LedToTheSecondAccept([last]);
    RunKeepsInv(START, steps);
    RearmedIs();
    O.LastAcceptOrphans(w, 0, Connected());
    if ValidRun(After(START, steps), more) {
      O.OrphanIsForGood(After(START, steps), more, 1);
    }
  }

  lemma RearmedIs()
    ensures With(REARMED, ACCEPTING).t.socks[0] == REARMED
  {
  }
}
