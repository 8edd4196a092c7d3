/**
  Whole runs of the W5500 driver: application calls, the service worker and racing close()s, interleaved
  at the points where the driver gives up its mutex. `ops` are the calls between sock_hold and
  sock_release.
 */
module W5500Runs {
  import opened W5500Fifo
  import opened W5500Table
  import opened W5500Invariant
  import opened W5500Calls

  datatype Kind = Connecting | Accepting | Sending | Receiving
  /** A call in flight; `gen` is the occupant of the slot at the time of its sock_hold. */
  datatype Flight = Flight(slot: Slot, kind: Kind, gen: nat)
  datatype World = World(t: Table, ops: multiset<Flight>)

  function InFlight(ops: multiset<Flight>, i: Slot, gen: nat): nat {
    ops[Flight(i, Connecting, gen)] + ops[Flight(i, Accepting, gen)]
    + ops[Flight(i, Sending, gen)] + ops[Flight(i, Receiving, gen)]
  }

  function Call(w: World, i: Slot, kind: Kind): Flight {
    Flight(i, kind, w.t.socks[i].gen)
  }

  function Enter(w: World, i: Slot, kind: Kind): World {
    World(Set(w.t, i, Hold(w.t.socks[i])), w.ops + multiset{Call(w, i, kind)})
  }

  function Leave(w: World, i: Slot, kind: Kind): World {
    if w.t.socks[i].users == 0 then w
    else World(Set(w.t, i, Release(w.t.socks[i])), w.ops - multiset{Call(w, i, kind)})
  }

  /** The end of a mutex-held segment: the call returns, or goes to sleep. */
  function Settle(w: World, i: Slot, kind: Kind, done: bool): World {
    if done then Leave(w, i, kind) else w
  }

  datatype Step =
    | Socket(stream: bool)
    | BindCall(i: Slot, port: nat, closed: set<Hw>, opens: bool, ephemeral: nat)
    | ConnectCall(i: Slot, closed: set<Hw>, opens: bool, connects: bool, sr: Status, nonblock: bool)
    | ConnectWake(i: Slot, timedOut: bool, sr: Status, nonblock: bool)
    | ListenCall(i: Slot, tries: nat -> Try)
    | AcceptCall(i: Slot, turn: Turn)
    | AcceptWake(i: Slot, timedOut: bool, established: set<Hw>, turn: Turn)
    | SendCall(i: Slot, opensUdp: bool, closed: set<Hw>, opens: bool, ephemeral: nat, done: bool)
    | ReceiveCall(i: Slot, done: bool)
    | SendEnd(i: Slot)
    | ReceiveEnd(i: Slot)
    | CloseCall(i: Slot)
    | ShutdownCall(i: Slot)
    | ServiceScan(i: Slot, idx: nat, sr: Status, tries: nat -> Try)
    | ServiceRefill(i: Slot, tries: nat -> Try)

  /**
    Calls come through a descriptor of a socket in use; a sleeping call wakes while it is in flight; the
    worker services listening sockets.
   */
  ghost predicate Enabled(w: World, step: Step) {
    match step
    case Socket(_) => true
    case ConnectWake(i, _, _, _) => Call(w, i, Connecting) in w.ops
    case AcceptWake(i, _, _, _) => Call(w, i, Accepting) in w.ops
    case SendEnd(i) => Call(w, i, Sending) in w.ops
    case ReceiveEnd(i) => Call(w, i, Receiving) in w.ops
    case ServiceScan(i, idx, _, _) =>
      w.t.socks[i].inUse && w.t.socks[i].listening && idx < w.t.socks[i].pool.count
    case ServiceRefill(i, _) => w.t.socks[i].inUse && w.t.socks[i].listening
    case _ => Open(w.t, step.i)
  }

  function AfterConnect(w: World, i: Slot, closed: set<Hw>, opens: bool, connects: bool, sr: Status,
                        nonblock: bool): World {
    var (t1, waits) := Connect(w.t, i, closed, opens, connects);
    if !waits then Leave(w.(t := t1), i, Connecting)
    else Look(w.(t := t1), i, sr, false, nonblock)
  }

  function Look(w: World, i: Slot, sr: Status, timedOut: bool, nonblock: bool): World {
    var (t1, looked) := ConnectLook(w.t, i, sr, timedOut, nonblock);
    Settle(w.(t := t1), i, Connecting, looked.Returns?)
  }

  function TurnOf(w: World, i: Slot, turn: Turn): World {
    var (t1, _, done) := AcceptTurn(w.t, i, turn);
    Settle(w.(t := t1), i, Accepting, done)
  }

  predicate NoneEstablished(p: Pool, established: set<Hw>) {
    FirstEstablished(p, established, 0) < 0
  }

  /** The UDP hardware socket that sendto() opens on demand. */
  function SendOpens(w: World, i: Slot, opensUdp: bool, closed: set<Hw>, opens: bool, ephemeral: nat): World {
    var s := w.t.socks[i];
    if s.stream || s.hw >= 0 || !opensUdp then w
    else w.(t := UdpOpen(w.t, i, closed, opens, if s.port != 0 then s.port else ephemeral))
  }

  function Next(w: World, step: Step): World {
    match step
    case Socket(stream) => w.(t := Create(w.t, stream))
    case BindCall(i, port, closed, opens, ephemeral) => w.(t := Bind(w.t, i, port, closed, opens, ephemeral))
    case ConnectCall(i, closed, opens, connects, sr, nonblock) =>
      if !Held(w.t.socks[i]) then w
      else if !w.t.socks[i].stream then Leave(Enter(w, i, Connecting), i, Connecting)
      else AfterConnect(Enter(w, i, Connecting), i, closed, opens, connects, sr, nonblock)
    case ConnectWake(i, timedOut, sr, nonblock) => Look(w, i, sr, timedOut, nonblock)
    case ListenCall(i, tries) =>
      if !Held(w.t.socks[i]) then w else w.(t := Listen(w.t, i, tries))
    case AcceptCall(i, turn) =>
      if !Held(w.t.socks[i]) then w
      else if !w.t.socks[i].stream then Leave(Enter(w, i, Accepting), i, Accepting)
      else TurnOf(Enter(w, i, Accepting), i, turn)
    case AcceptWake(i, timedOut, established, turn) =>
      if timedOut && w.t.socks[i].pend.count == 0 && NoneEstablished(w.t.socks[i].pool, established) then
        Leave(w, i, Accepting)
      else TurnOf(w, i, turn)
    case SendCall(i, opensUdp, closed, opens, ephemeral, done) =>
      if !Held(w.t.socks[i]) then w
      else Settle(SendOpens(Enter(w, i, Sending), i, opensUdp, closed, opens, ephemeral), i, Sending, done)
    case ReceiveCall(i, done) =>
      if !Held(w.t.socks[i]) then w else Settle(Enter(w, i, Receiving), i, Receiving, done)
    case SendEnd(i) => Leave(w, i, Sending)
    case ReceiveEnd(i) => Leave(w, i, Receiving)
    case CloseCall(i) => w.(t := Close(w.t, i))
    case ShutdownCall(i) => w.(t := Shutdown(w.t, i))
    case ServiceScan(i, idx, sr, tries) =>
      if idx < w.t.socks[i].pool.count then w.(t := ScanTurn(w.t, i, idx, sr, tries).0) else w
    case ServiceRefill(i, tries) => w.(t := Fill(w.t, i, tries, 0))
  }

  /** Whenever hw_alloc scans in this step, no pooled hardware socket reads SOCK_CLOSED. */
  ghost predicate HonestStep(w: World, step: Step) {
    match step
    case BindCall(i, _, closed, _, _) => Honest(w.t, closed)
    case ConnectCall(i, closed, _, _, _, _) => Honest(w.t, closed)
    case SendCall(i, _, closed, _, _, _) => Honest(w.t, closed)
    case ListenCall(i, tries) => ListenHonest(w.t, i, tries)
    case AcceptCall(i, turn) => TurnHonest(Enter(w, i, Accepting).t, i, turn)
    case AcceptWake(i, _, _, turn) => TurnHonest(w.t, i, turn)
    case ServiceScan(i, idx, sr, tries) =>
      idx < w.t.socks[i].pool.count ==> ScanHonest(w.t, i, idx, sr, tries)
    case ServiceRefill(i, tries) => FillHonest(w.t, i, tries, 0)
    case _ => true
  }

  // ---------------------------------------------------------------- the invariant

  ghost predicate OpsOk(w: World) {
    && (forall f: Flight :: f in w.ops ==> Open(w.t, f.slot) && w.t.socks[f.slot].gen == f.gen)
    && (forall i: Slot :: Open(w.t, i) ==> w.t.socks[i].users == InFlight(w.ops, i, w.t.socks[i].gen))
    && (forall i: Slot :: w.t.socks[i].inUse && w.t.socks[i].zombie ==> w.t.socks[i].users > 0)
  }

  ghost predicate Inv(w: World) {
    TableOk(w.t) && OpsOk(w)
  }

  /**
    The occupant of an open slot stays: same generation, once closed always closed, and in use for as
    long as it is not closed or has users.
   */
  predicate Lives(a: Sock, b: Sock) {
    a.inUse && a.hasFd ==>
      && b.gen == a.gen && b.hasFd && (a.zombie ==> b.zombie)
      && (b.inUse <==> !b.zombie || b.users > 0)
  }

  ghost predicate AllLive(w: World, r: World) {
    forall i: Slot :: Lives(w.t.socks[i], r.t.socks[i])
  }

  /** One piece of a step: the invariant and the occupants are kept. */
  ghost predicate Good(w: World, r: World) {
    Inv(r) && AllLive(w, r)
  }

  lemma GoodReflexive(w: World)
    requires Inv(w)
    ensures Good(w, w)
  {
  }

  lemma GoodComposes(w: World, u: World, r: World)
    requires Good(w, u) && Good(u, r)
    requires forall j: Slot :: Open(w.t, j) ==> Open(u.t, j)
    ensures Good(w, r)
  {
    hide Inv;
    forall j: Slot
      ensures Lives(w.t.socks[j], r.t.socks[j])
    {
      assert Lives(w.t.socks[j], u.t.socks[j]) && Lives(u.t.socks[j], r.t.socks[j]);
      assert Open(w.t, j) ==> Open(u.t, j);
    }
  }

  lemma FlightCounts(ops: multiset<Flight>, f: Flight)
    ensures InFlight(ops, f.slot, f.gen) >= ops[f]
  {
    match f.kind
    case Connecting =>
    case Accepting =>
    case Sending =>
    case Receiving =>
  }

  lemma InFlightAfterEnter(ops: multiset<Flight>, f: Flight, i: Slot, g: nat)
    ensures InFlight(ops + multiset{f}, i, g) ==
            InFlight(ops, i, g) + (if f.slot == i && f.gen == g then 1 else 0)
  {
    match f.kind
    case Connecting =>
    case Accepting =>
    case Sending =>
    case Receiving =>
  }

  lemma InFlightAfterLeave(ops: multiset<Flight>, f: Flight, i: Slot, g: nat)
    requires f in ops
    ensures InFlight(ops - multiset{f}, i, g) ==
            InFlight(ops, i, g) - (if f.slot == i && f.gen == g then 1 else 0)
  {
    assert ops == (ops - multiset{f}) + multiset{f};
    InFlightAfterEnter(ops - multiset{f}, f, i, g);
  }

  /** A slot that is not open has no calls in flight. */
  lemma NoFlights(w: World, i: Slot, g: nat)
    requires OpsOk(w) && !Open(w.t, i)
    ensures InFlight(w.ops, i, g) == 0
  {
    assert forall k: Kind :: Flight(i, k, g) !in w.ops;
  }

  /** A change of the table that is quiet everywhere keeps the books of the calls in flight. */
  lemma EffectKeeps(w: World, t: Table)
    requires Inv(w) && TableOk(t)
    requires forall i: Slot :: Quiet(w.t.socks[i], t.socks[i])
    ensures Good(w, w.(t := t))
    ensures forall i: Slot :: Open(w.t, i) ==> Open(t, i) && t.socks[i].gen == w.t.socks[i].gen
  {
    hide TableOk;
    var r := w.(t := t);
    forall i: Slot
      ensures Open(w.t, i) ==> Open(t, i) && t.socks[i].gen == w.t.socks[i].gen
      ensures Open(t, i) ==> t.socks[i].users == InFlight(w.ops, i, t.socks[i].gen)
      ensures Lives(w.t.socks[i], t.socks[i])
      ensures t.socks[i].inUse && t.socks[i].zombie ==> t.socks[i].users > 0
    {
      assert Quiet(w.t.socks[i], t.socks[i]);
      if !Open(w.t, i) {
        NoFlights(w, i, t.socks[i].gen);
      }
    }
  }

  lemma FineKeeps(w: World, t: Table)
    requires Inv(w) && Fine(w.t, t)
    ensures Good(w, w.(t := t))
    ensures forall i: Slot :: Open(w.t, i) ==> Open(t, i) && t.socks[i].gen == w.t.socks[i].gen
  {
    FineUnfold(w.t, t);
    EffectKeeps(w, t);
  }

  /** Only the life-cycle fields of slot i change: the table invariant does not depend on them. */
  lemma UsersKeep(t: Table, i: Slot, s: Sock)
    requires TableOk(t) && Open(t, i) && s == t.socks[i].(users := s.users, inUse := s.inUse)
    requires !s.inUse ==> s.users == 0
    ensures TableOk(Set(t, i, s))
  {
    assert LocalOk(t.socks[i]);
    FdIsUnclaimed(t, i);
    SetKeeps(t, i, s);
  }

  lemma EnterKeeps(w: World, i: Slot, kind: Kind)
    requires Inv(w) && Open(w.t, i) && Held(w.t.socks[i])
    ensures Good(w, Enter(w, i, kind)) && Call(w, i, kind) in Enter(w, i, kind).ops
    ensures forall j: Slot :: Open(w.t, j) ==> Open(Enter(w, i, kind).t, j)
  {
    hide TableOk;
    UsersKeep(w.t, i, Hold(w.t.socks[i]));
    EnterBooks(w, i, kind);
  }

  lemma EnterBooks(w: World, i: Slot, kind: Kind)
    requires OpsOk(w) && Open(w.t, i) && Held(w.t.socks[i])
    ensures OpsOk(Enter(w, i, kind)) && AllLive(w, Enter(w, i, kind))
  {
    hide InFlight;
    var r := Enter(w, i, kind);
    forall j: Slot | Open(r.t, j)
      ensures r.t.socks[j].users == InFlight(r.ops, j, r.t.socks[j].gen)
    {
      assert Open(w.t, j);
      InFlightAfterEnter(w.ops, Call(w, i, kind), j, r.t.socks[j].gen);
    }
    forall f: Flight | f in r.ops
      ensures Open(r.t, f.slot) && r.t.socks[f.slot].gen == f.gen
    {
      assert f in w.ops || f == Call(w, i, kind);
    }
  }

  lemma LeaveKeeps(w: World, i: Slot, kind: Kind)
    requires Inv(w) && Call(w, i, kind) in w.ops
    ensures Good(w, Leave(w, i, kind))
  {
    hide TableOk;
    assert Open(w.t, i) && w.t.socks[i].users > 0;
    UsersKeep(w.t, i, Release(w.t.socks[i]));
    LeaveBooks(w, i, kind);
  }

  lemma LeaveBooks(w: World, i: Slot, kind: Kind)
    requires OpsOk(w) && Call(w, i, kind) in w.ops
    ensures OpsOk(Leave(w, i, kind)) && AllLive(w, Leave(w, i, kind))
  {
    hide InFlight;
    var r := Leave(w, i, kind);
    var c := Call(w, i, kind);
    FlightCounts(w.ops, c);
    assert Open(w.t, i) && w.t.socks[i].users > 0;
    forall j: Slot | Open(r.t, j)
      ensures r.t.socks[j].users == InFlight(r.ops, j, r.t.socks[j].gen)
    {
      assert Open(w.t, j);
      InFlightAfterLeave(w.ops, c, j, r.t.socks[j].gen);
    }
    forall f: Flight | f in r.ops
      ensures Open(r.t, f.slot) && r.t.socks[f.slot].gen == f.gen
    {
      assert f in w.ops;
      FlightCounts(r.ops, f);
      InFlightAfterLeave(w.ops, c, f.slot, f.gen);
    }
  }

  // ---------------------------------------------------------------- steps

  /** A change made by a call in flight, and then perhaps its return. */
  lemma SettleKeeps(w: World, t: Table, i: Slot, kind: Kind, done: bool)
    requires Inv(w) && Call(w, i, kind) in w.ops
    requires TableOk(t) && forall j: Slot :: Quiet(w.t.socks[j], t.socks[j])
    ensures Good(w, Settle(w.(t := t), i, kind, done))
  {
    hide TableOk, Leave, AllLive;
    EffectKeeps(w, t);
    assert Open(w.t, i);
    if done {
      LeaveKeeps(w.(t := t), i, kind);
      GoodComposes(w, w.(t := t), Leave(w.(t := t), i, kind));
    }
  }

  lemma LookKeeps(w: World, i: Slot, sr: Status, timedOut: bool, nonblock: bool)
    requires Inv(w) && Call(w, i, Connecting) in w.ops
    ensures Good(w, Look(w, i, sr, timedOut, nonblock))
  {
    hide TableOk, Fine, Settle, ConnectLook;
    assert Open(w.t, i);
    ConnectLookFine(w.t, i, sr, timedOut, nonblock);
    var (t1, looked) := ConnectLook(w.t, i, sr, timedOut, nonblock);
    FineUnfold(w.t, t1);
    SettleKeeps(w, t1, i, Connecting, looked.Returns?);
  }

  lemma AfterConnectKeeps(w: World, i: Slot, closed: set<Hw>, opens: bool, connects: bool, sr: Status,
                          nonblock: bool)
    requires Inv(w) && Call(w, i, Connecting) in w.ops && Honest(w.t, closed)
    ensures Good(w, AfterConnect(w, i, closed, opens, connects, sr, nonblock))
  {
    hide TableOk, Fine, Connect, Look, Honest, Leave, AllLive;
    assert Open(w.t, i);
    ConnectFine(w.t, i, closed, opens, connects);
    var (t1, waits) := Connect(w.t, i, closed, opens, connects);
    FineKeeps(w, t1);
    if waits {
      LookKeeps(w.(t := t1), i, sr, false, nonblock);
    } else {
      LeaveKeeps(w.(t := t1), i, Connecting);
    }
    GoodComposes(w, w.(t := t1), AfterConnect(w, i, closed, opens, connects, sr, nonblock));
  }

  lemma TurnKeeps(w: World, i: Slot, turn: Turn)
    requires Inv(w) && Call(w, i, Accepting) in w.ops && TurnHonest(w.t, i, turn)
    ensures Good(w, TurnOf(w, i, turn))
  {
    hide TableOk, AcceptTurn, TurnHonest, Settle;
    assert Open(w.t, i);
    AcceptTurnKeeps(w.t, i, turn);
    var (t1, c, done) := AcceptTurn(w.t, i, turn);
    SettleKeeps(w, t1, i, Accepting, done);
  }

  lemma SendKeeps(w: World, i: Slot, opensUdp: bool, closed: set<Hw>, opens: bool, ephemeral: nat, done: bool)
    requires Inv(w) && Call(w, i, Sending) in w.ops && Honest(w.t, closed)
    ensures Good(w, Settle(SendOpens(w, i, opensUdp, closed, opens, ephemeral), i, Sending, done))
  {
    hide TableOk, Fine, UdpOpen, Honest, Settle;
    assert Open(w.t, i);
    var s := w.t.socks[i];
    FineReflexive(w.t);
    var u := SendOpens(w, i, opensUdp, closed, opens, ephemeral);
    if !(s.stream || s.hw >= 0 || !opensUdp) {
      UdpOpenFine(w.t, i, closed, opens, if s.port != 0 then s.port else ephemeral);
    }
    FineUnfold(w.t, u.t);
    SettleKeeps(w, u.t, i, Sending, done);
  }

  lemma CloseKeeps(w: World, i: Slot)
    requires Inv(w) && Open(w.t, i)
    ensures Good(w, w.(t := Close(w.t, i)))
  {
    if w.t.socks[i].zombie {
      GoodReflexive(w);
    } else {
      hide TableOk, Close, Backlog, Holds, HwsOf, Members;
      CloseIs(w.t, i);
      CloseBooks(w, Close(w.t, i), i) by {
        forall j: Slot | j != i
          ensures Quiet(w.t.socks[j], Close(w.t, i).socks[j])
        {
          CloseIsQuietElsewhere(w.t, i, j);
        }
      }
    }
  }

  lemma CloseBooks(w: World, t: Table, i: Slot)
    requires OpsOk(w) && Open(w.t, i) && !w.t.socks[i].zombie
    requires t.socks[i].zombie && t.socks[i].hasFd && t.socks[i].gen == w.t.socks[i].gen
    requires t.socks[i].users == w.t.socks[i].users && t.socks[i].inUse == (w.t.socks[i].users > 0)
    requires forall j: Slot :: j != i ==> Quiet(w.t.socks[j], t.socks[j])
    ensures OpsOk(w.(t := t)) && AllLive(w, w.(t := t))
  {
    hide InFlight;
    var r := w.(t := t);
    forall j: Slot | Open(t, j)
      ensures t.socks[j].users == InFlight(w.ops, j, t.socks[j].gen)
    {
      if !Open(w.t, j) {
        NoFlights(w, j, t.socks[j].gen);
      }
    }
    forall f: Flight | f in w.ops
      ensures Open(t, f.slot) && t.socks[f.slot].gen == f.gen
    {
      assert Open(w.t, f.slot);
      FlightCounts(w.ops, f);
    }
  }

  /** Calls that enter, and may act and return, within one segment. */
  lemma CallKeeps(w: World, step: Step)
    requires Inv(w) && Enabled(w, step) && HonestStep(w, step)
    requires step.ConnectCall? || step.AcceptCall? || step.SendCall? || step.ReceiveCall?
    requires Held(w.t.socks[step.i])
    ensures Good(w, Next(w, step))
  {
    hide TableOk, Enter, Leave, Honest, AfterConnect, TurnOf, TurnHonest, SendOpens, OpsOk, AllLive;
    var i := step.i;
    var kind := match step
      case ConnectCall(_, _, _, _, _, _) => Connecting
      case AcceptCall(_, _) => Accepting
      case SendCall(_, _, _, _, _, _) => Sending
      case ReceiveCall(_, _) => Receiving;
    var u := Enter(w, i, kind);
    EnterKeeps(w, i, kind);
    EnterIs(w, i, kind);
    match step {
      case ConnectCall(_, closed, opens, connects, sr, nonblock) =>
        if w.t.socks[i].stream {
          HonestSamePools(w.t, u.t, closed);
          AfterConnectKeeps(u, i, closed, opens, connects, sr, nonblock);
        } else {
          LeaveKeeps(u, i, kind);
        }
      case AcceptCall(_, turn) =>
        if w.t.socks[i].stream {
          TurnKeeps(u, i, turn);
        } else {
          LeaveKeeps(u, i, kind);
        }
      case SendCall(_, opensUdp, closed, opens, ephemeral, done) =>
        HonestSamePools(w.t, u.t, closed);
        SendKeeps(u, i, opensUdp, closed, opens, ephemeral, done);
      case ReceiveCall(_, done) =>
        GoodReflexive(u);
        LeaveKeeps(u, i, kind);
    }
    GoodComposes(w, u, Next(w, step));
  }

  lemma EnterIs(w: World, i: Slot, kind: Kind)
    ensures var u := Enter(w, i, kind);
      && Call(u, i, kind) == Call(w, i, kind)
      && u.t.socks[i] == Hold(w.t.socks[i])
      && forall j: Slot :: u.t.socks[j].inUse == w.t.socks[j].inUse && u.t.socks[j].pool == w.t.socks[j].pool
  {
  }

  lemma ListenerIsOpen(t: Table, i: Slot)
    requires TableOk(t) && t.socks[i].inUse && t.socks[i].listening
    ensures Open(t, i)
  {
    assert LocalOk(t.socks[i]);
  }

  /** Steps that rewrite the table once and leave the calls in flight alone. */
  lemma TableStepKeeps(w: World, step: Step)
    requires Inv(w) && Enabled(w, step) && HonestStep(w, step)
    requires step.Socket? || step.BindCall? || step.ListenCall? || step.ShutdownCall?
             || step.ServiceScan? || step.ServiceRefill?
    ensures Good(w, Next(w, step))
  {
    hide TableOk, Fine, Inv, AllLive, Honest, FillHonest, ScanHonest, ListenHonest, Create, Bind,
         Fill, ScanTurn, Shutdown, Listen;
    assert TableOk(w.t) by {
      TableOfInv(w);
    }
    FineReflexive(w.t);
    match step {
      case Socket(stream) => CreateFine(w.t, stream);
      case BindCall(i, port, closed, opens, ephemeral) => BindFine(w.t, i, port, closed, opens, ephemeral);
      case ListenCall(i, tries) => ListenFine(w.t, i, tries);
      case ShutdownCall(i) => ShutdownFine(w.t, i);
      case ServiceScan(i, idx, sr, tries) =>
        ListenerIsOpen(w.t, i);
        ScanFine(w.t, i, idx, sr, tries);
      case ServiceRefill(i, tries) =>
        ListenerIsOpen(w.t, i);
        FillFine(w.t, i, tries, 0);
    }
    FineKeeps(w, Next(w, step).t);
  }

  lemma TableOfInv(w: World)
    requires Inv(w)
    ensures TableOk(w.t)
  {
  }

  /** Every step keeps the invariant and every occupant in place. */
  lemma StepKeeps(w: World, step: Step)
    requires Inv(w) && Enabled(w, step) && HonestStep(w, step)
    ensures Good(w, Next(w, step))
  {
    hide TableOk, Fine, AllLive, Inv, Honest, TurnHonest, FillHonest, ScanHonest, ListenHonest, Look, TurnOf,
         Leave, AfterConnect;
    if step.ConnectWake? {
      LookKeeps(w, step.i, step.sr, step.timedOut, step.nonblock);
    } else if step.AcceptWake? {
      LeaveKeeps(w, step.i, Accepting);
      TurnKeeps(w, step.i, step.turn);
    } else if step.SendEnd? {
      LeaveKeeps(w, step.i, Sending);
    } else if step.ReceiveEnd? {
      LeaveKeeps(w, step.i, Receiving);
    } else if step.CloseCall? {
      CloseKeeps(w, step.i);
    } else if step.ConnectCall? || step.AcceptCall? || step.SendCall? || step.ReceiveCall? {
      if Held(w.t.socks[step.i]) {
        CallKeeps(w, step);
      } else {
        GoodReflexive(w);
      }
    } else {
      TableStepKeeps(w, step);
    }
  }

  // ---------------------------------------------------------------- runs

  const START := World(EMPTY_TABLE, multiset{})

  ghost predicate ValidRun(w: World, steps: seq<Step>)
    decreases |steps|
  {
    steps == [] ||
    (Enabled(w, steps[0]) && HonestStep(w, steps[0]) && ValidRun(Next(w, steps[0]), steps[1..]))
  }

  function After(w: World, steps: seq<Step>): World
    decreases |steps|
  {
    if steps == [] then w else After(Next(w, steps[0]), steps[1..])
  }

  lemma StartIsOk()
    ensures Inv(START)
  {
    assert forall i: Slot :: START.t.socks[i] == FREE_SOCK;
  }

  lemma {:induction false} RunKeepsInv(w: World, steps: seq<Step>)
    requires Inv(w) && ValidRun(w, steps)
    ensures Inv(After(w, steps))
    decreases |steps|
  {
    hide Inv, AllLive, Next, Enabled, HonestStep;
    if steps == [] {
    } else {
      StepKeeps(w, steps[0]);
      RunKeepsInv(Next(w, steps[0]), steps[1..]);
    }
  }

  /**
    Over every run from an empty table, no hardware socket is held twice: not by two sockets in use, not
    by a listener's pool and a socket, not by two pools and not twice in one pool.
   */
  lemma NoHardwareSocketHeldTwice(steps: seq<Step>)
    requires ValidRun(START, steps)
    ensures var t := After(START, steps).t;
      && (forall i: Slot, j: Slot, h: Hw :: Holds(t.socks[i], h) && Holds(t.socks[j], h) ==> i == j)
      && (forall i: Slot :: t.socks[i].inUse ==>
            NoDup(Members(t.socks[i].pool)) && forall h: Hw | h == t.socks[i].hw :: h !in Members(t.socks[i].pool))
  {
    hide Next, Enabled, HonestStep, After, ValidRun;
    StartIsOk();
    RunKeepsInv(START, steps);
    var t := After(START, steps).t;
    assert forall i: Slot :: LocalOk(t.socks[i]);
  }

  /**
    Over every run, a call between sock_hold and sock_release finds its own socket in the slot, and the
    slot's reference count is the number of calls in flight.
   */
  lemma CallsKeepTheirSocket(steps: seq<Step>, i: Slot)
    requires ValidRun(START, steps)
    ensures var w := After(START, steps);
      && (forall f: Flight :: f in w.ops && f.slot == i ==>
            w.t.socks[i].inUse && w.t.socks[i].hasFd && w.t.socks[i].gen == f.gen)
      && (w.t.socks[i].inUse && w.t.socks[i].hasFd ==>
            w.t.socks[i].users == InFlight(w.ops, i, w.t.socks[i].gen))
  {
    hide Next, Enabled, HonestStep, After, ValidRun, InFlight;
    StartIsOk();
    RunKeepsInv(START, steps);
    var w := After(START, steps);
    forall f: Flight | f in w.ops
      ensures w.t.socks[f.slot].inUse && w.t.socks[f.slot].hasFd && w.t.socks[f.slot].gen == f.gen
    {
      assert Open(w.t, f.slot);
    }
    assert w.t.socks[i].inUse && w.t.socks[i].hasFd ==> Open(w.t, i);
  }

  /**
    A closed socket's slot becomes free exactly when the last call in flight leaves it: in every step its
    occupant stays, and the slot is in use afterwards if and only if some call is still in flight.
   */
  lemma ClosedSlotIsFreedByItsLastCall(w: World, step: Step, i: Slot)
    requires Inv(w) && Enabled(w, step) && HonestStep(w, step)
    requires w.t.socks[i].inUse && w.t.socks[i].zombie
    ensures var r := Next(w, step);
      && r.t.socks[i].gen == w.t.socks[i].gen && r.t.socks[i].zombie
      && (r.t.socks[i].inUse <==> InFlight(r.ops, i, w.t.socks[i].gen) > 0)
  {
    hide Next, Enabled, HonestStep, InFlight, TableOk;
    StepKeeps(w, step);
    ZombieIsOpen(w, i);
    var r := Next(w, step);
    assert Lives(w.t.socks[i], r.t.socks[i]);
    if r.t.socks[i].inUse {
      assert Open(r.t, i);
    } else {
      NoFlights(r, i, w.t.socks[i].gen);
    }
  }

  lemma ZombieIsOpen(w: World, i: Slot)
    requires Inv(w) && w.t.socks[i].inUse && w.t.socks[i].zombie
    ensures Open(w.t, i)
  {
    assert LocalOk(w.t.socks[i]);
  }

  /** A connection in a backlog is in use, unknown to the application, and waits in that backlog only, once. */
  lemma BacklogsAreDisjoint(steps: seq<Step>, i: Slot, j: Slot, c: Slot)
    requires ValidRun(START, steps)
    ensures var t := After(START, steps).t;
      && (Waits(t.socks[i], c) ==> t.socks[c].inUse && !t.socks[c].hasFd && NoDup(Backlog(t.socks[i].pend)))
      && (Waits(t.socks[i], c) && Waits(t.socks[j], c) ==> i == j)
  {
    hide Next, Enabled, HonestStep, After, ValidRun;
    StartIsOk();
    RunKeepsInv(START, steps);
    assert LocalOk(After(START, steps).t.socks[i]);
  }

  // ---------------------------------------------------------------- what the code does not guarantee

  /**
    Without the honest-scan hypothesis two holders are possible: if the lowest candidate reading
    SOCK_CLOSED lies in a listener's pool (its handshake was reset and the worker has not run yet),
    connect() takes it as well.
   */
  lemma ResetListenerGetsASecondHolder(t: Table, l: Slot, i: Slot, closed: set<Hw>)
    requires TableOk(t) && Open(t, l) && Open(t, i) && i != l && t.socks[i].hw < 0
    requires HwAlloc(t, closed) >= 0 && HwAlloc(t, closed) in Members(t.socks[l].pool)
    ensures !Exclusive(Connect(t, i, closed, true, true).0)
  {
    hide HwAlloc;
    var r := Connect(t, i, closed, true, true).0;
    var h: Hw := HwAlloc(t, closed);
    assert Holds(r.socks[i], h) && Holds(r.socks[l], h);
  }

  /**
    An accept() that wakes on a closed listener re-arms the pool before it looks at the zombie flag. If it
    is the last call in flight, the slot is freed with an armed hardware socket that nobody holds and
    no CLOSE command was issued for.
   */
  lemma AcceptOnClosedListenerLeavesItArmed(w: World, i: Slot, turn: Turn)
    requires Inv(w) && Enabled(w, AcceptWake(i, false, {}, turn))
    requires HonestStep(w, AcceptWake(i, false, {}, turn))
    requires w.t.socks[i].zombie && w.t.socks[i].users == 1
    requires w.t.socks[i].pend.count == 0 && w.t.socks[i].pool.count == 0
    requires HwAlloc(w.t, turn.filling(0).closed) >= 0 && turn.filling(0).opens
    ensures var r := Next(w, AcceptWake(i, false, {}, turn));
      var h: Hw := HwAlloc(w.t, turn.filling(0).closed);
      && !r.t.socks[i].inUse && h in Members(r.t.socks[i].pool)
      && Unheld(r.t, h) && r.t.shut == w.t.shut
  {
    hide TableOk, HwAlloc, FillHonest, AllLive;
    var h: Hw := HwAlloc(w.t, turn.filling(0).closed);
    var tries := turn.filling;
    var t1 := FillOnce(w.t, i, h, true);
    var t2 := Fill(w.t, i, tries, 0);
    assert t2 == Fill(t1, i, tries, 1);
    assert Open(w.t, i);
    assert Reap(w.t, i, turn.closed) == (w.t, -1);
    assert PromoteInline(w.t, i, turn) == w.t;
    FillFrame(w.t, i, tries, 0);
    FillFine(w.t, i, tries, 0);
    FineUnfold(w.t, t2);
    JoinMembers(w.t.socks[i].pool, h);
    assert h in Members(t1.socks[i].pool);
    FillGrows(t1, i, tries, 1, h);
    HeldByOne(t2, i, h);
    var r := Next(w, AcceptWake(i, false, {}, turn));
    assert r.t == Set(t2, i, Release(t2.socks[i]));
  }

  lemma HeldByOne(t: Table, i: Slot, h: Hw)
    requires TableOk(t) && t.socks[i].inUse && h in Members(t.socks[i].pool)
    ensures forall j: Slot :: j != i ==> !Holds(t.socks[j], h)
  {
    assert Holds(t.socks[i], h);
  }

  /** Filling only adds to the pool. */
  lemma {:induction false} FillGrows(t: Table, l: Slot, tries: nat -> Try, k: nat, h: Hw)
    requires h in Members(t.socks[l].pool)
    ensures h in Members(Fill(t, l, tries, k).socks[l].pool)
    decreases NUM_SOCKETS - k
  {
    hide HwAlloc;
    if t.socks[l].pool.count >= LISTEN_KEEP || k >= NUM_SOCKETS {
    } else {
      var g := HwAlloc(t, tries(k).closed);
      if g >= 0 {
        JoinMembers(t.socks[l].pool, g);
        FillGrows(FillOnce(t, l, g, tries(k).opens), l, tries, k + 1, h);
      }
    }
  }
}
