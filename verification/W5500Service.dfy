/** What arming a listener and scanning its pool do to the chip, step by step: the work of w5500_service. */
module W5500Service {
  import opened W5500Fifo
  import opened W5500Table
  import opened W5500Invariant
  import opened W5500Calls

  /** One attempt of listener_fill: the hardware socket it tried, and whether LISTEN was reached. */
  datatype Attempt = Attempt(h: Hw, listens: bool)

  /**
    From t to u one attempt was made: a socket that listens joins the pool and is forgiven its failures; one
    that does not counts one more, and the third in a row black-lists it.
   */
  ghost predicate Made(t: Table, u: Table, l: Slot, a: Attempt) {
    && u.fail == t.fail[a.h := if a.listens then 0 else t.fail[a.h] + 1]
    && u.broken == t.broken + (if !a.listens && t.fail[a.h] >= 2 then {a.h} else {})
    && Members(u.socks[l].pool) == Members(t.socks[l].pool) + (if a.listens then [a.h] else [])
    && OnlyPool(t, u, l)
  }

  /** The next thing to try, if listener_fill goes on at all: fewer than two armed, and a candidate. */
  predicate GoesOn(t: Table, l: Slot, tries: nat -> Try, made: nat) {
    t.socks[l].pool.count < 2 && made < 8 && HwAlloc(t, tries(made).closed) >= 0
  }

  /** A run of listener_fill: the tables between its attempts. */
  ghost predicate IsFilling(ts: seq<Table>, a: seq<Attempt>, l: Slot, tries: nat -> Try, from: nat) {
    && |ts| == |a| + 1
    && forall i | 0 <= i < |a| ::
         && GoesOn(ts[i], l, tries, from + i)
         && a[i] == Attempt(HwAlloc(ts[i], tries(from + i).closed), tries(from + i).opens)
         && Made(ts[i], ts[i + 1], l, a[i])
  }

  lemma MadeOnce(t: Table, l: Slot, h: Hw, opens: bool)
    requires t.socks[l].pool.count < LISTEN_KEEP
    ensures Made(t, FillOnce(t, l, h, opens), l, Attempt(h, opens))
  {
    FillOnceFrame(t, l, h, opens);
    var u := FillOnce(t, l, h, opens);
    if opens {
      assert Members(u.socks[l].pool) == Members(t.socks[l].pool) + [h];
    }
  }

  /**
    listener_fill makes attempts, each on what hw_alloc finds then, and stops exactly when two hardware sockets
    are armed, nothing is left to try, or it has tried eight times.
   */
  lemma {:induction false} FillIs(t: Table, l: Slot, tries: nat -> Try, from: nat)
    returns (ts: seq<Table>, a: seq<Attempt>)
    ensures IsFilling(ts, a, l, tries, from) && ts[0] == t && ts[|a|] == Fill(t, l, tries, from)
    ensures !GoesOn(ts[|a|], l, tries, from + |a|)
    decreases NUM_SOCKETS - from
  {
    hide FillOnce, HwAlloc, Made;
    if !GoesOn(t, l, tries, from) {
      ts, a := [t], [];
    } else {
      var h := HwAlloc(t, tries(from).closed);
      var u := FillOnce(t, l, h, tries(from).opens);
      MadeOnce(t, l, h, tries(from).opens);
      var us, b := FillIs(u, l, tries, from + 1);
      ts, a := [t] + us, [Attempt(h, tries(from).opens)] + b;
      Prepend(t, us, a[0], b, l, tries, from);
    }
  }

  lemma Prepend(t: Table, us: seq<Table>, first: Attempt, b: seq<Attempt>, l: Slot, tries: nat -> Try, from: nat)
    requires IsFilling(us, b, l, tries, from + 1)
    requires GoesOn(t, l, tries, from) && first == Attempt(HwAlloc(t, tries(from).closed), tries(from).opens)
    requires Made(t, us[0], l, first)
    ensures IsFilling([t] + us, [first] + b, l, tries, from)
  {
    hide HwAlloc, Made, GoesOn;
    var ts, a := [t] + us, [first] + b;
    forall i | 0 <= i < |a|
      ensures GoesOn(ts[i], l, tries, from + i)
      ensures a[i] == Attempt(HwAlloc(ts[i], tries(from + i).closed), tries(from + i).opens)
      ensures Made(ts[i], ts[i + 1], l, a[i])
    {
      if i > 0 {
        assert GoesOn(us[i - 1], l, tries, from + 1 + (i - 1));
      }
    }
  }

  /** How many of the last attempts on h in a row did not reach LISTEN, with n before them. */
  function Failures(n: nat, a: seq<Attempt>, h: Hw): nat {
    if a == [] then n
    else
      var last := a[|a| - 1];
      if last.h != h then Failures(n, a[..|a| - 1], h)
      else if last.listens then 0
      else Failures(n, a[..|a| - 1], h) + 1
  }

  /** Attempt number k on h fails, and it is at least the third in a row. */
  predicate ThirdFailure(n: nat, a: seq<Attempt>, k: nat, h: Hw) {
    0 < k <= |a| && a[k - 1] == Attempt(h, false) && Failures(n, a[..k], h) >= 3
  }

  lemma FailuresMore(n: nat, a: seq<Attempt>, k: nat, h: Hw)
    requires k < |a|
    ensures Failures(n, a[..k + 1], h) ==
            if a[k].h != h then Failures(n, a[..k], h) else if a[k].listens then 0 else Failures(n, a[..k], h) + 1
  {
    assert a[..k + 1][..k] == a[..k];
  }

  /**
    The black-list after listener_fill: what was on it, and the hardware sockets that failed three times in a row,
    counted across calls. Nothing is ever taken off it, and what is on it is not tried again.
   */
  lemma {:induction false} BlackListedIff(ts: seq<Table>, a: seq<Attempt>, l: Slot, tries: nat -> Try, n: nat, h: Hw)
    requires IsFilling(ts, a, l, tries, 0) && n <= |a|
    ensures ts[n].fail[h] == Failures(ts[0].fail[h], a[..n], h)
    ensures h in ts[n].broken <==>
            h in ts[0].broken || exists k: nat :: k <= n && ThirdFailure(ts[0].fail[h], a, k, h)
    ensures h in ts[0].broken ==> forall k | 0 <= k < n :: a[k].h != h
    decreases n
  {
    if n == 0 {
    } else {
      var m, n0 := n - 1, ts[0].fail[h];
      BlackListedIff(ts, a, l, tries, m, h);
      assert GoesOn(ts[m], l, tries, 0 + m) && Made(ts[m], ts[m + 1], l, a[m]);
      HwAllocIs(ts[m], tries(m).closed);
      NotBroken(ts[m], a[m].h, tries(m).closed);
      FailuresMore(n0, a, m, h);
      MadeIs(ts[m], ts[m + 1], l, a[m], h);
      assert ThirdFailure(n0, a, n, h) <==> a[m] == Attempt(h, false) && Failures(n0, a[..m], h) >= 2;
      hide *;
    }
  }

  lemma MadeIs(t: Table, u: Table, l: Slot, a: Attempt, h: Hw)
    requires Made(t, u, l, a)
    ensures u.fail[h] == if a.h != h then t.fail[h] else if a.listens then 0 else t.fail[h] + 1
    ensures h in u.broken <==> h in t.broken || (a == Attempt(h, false) && t.fail[h] >= 2)
  {
  }

  lemma NotBroken(t: Table, h: Hw, closed: set<Hw>)
    ensures Allocatable(t, closed, h) ==> h !in t.broken
  {
  }

  // ---------------------------------------------------------------- the pool scan

  /**
    One turn of the pool scan. An entry still on its way stays and the next one is looked at; an established one is
    promoted if it can be; every other reading has the hardware socket closed and taken out of the pool.
   */
  lemma ScanTurnIs(t: Table, l: Slot, idx: nat, sr: Status, tries: nat -> Try)
    requires t.socks[l].inUse && idx < t.socks[l].pool.count
    ensures var (r, next) := ScanTurn(t, l, idx, sr, tries);
      var pool := Members(t.socks[l].pool);
      match sr
      case Init => (r, next) == (t, idx + 1)
      case Listening => (r, next) == (t, idx + 1)
      case SynReceived => (r, next) == (t, idx + 1)
      case Established => (r, next) == (Promote(t, l, idx, tries), idx)
      case _ =>
        && next == idx && r.shut == t.shut + [pool[idx]]
        && Members(r.socks[l].pool) == pool[..idx] + pool[idx + 1..]
        && r.socks[l] == t.socks[l].(pool := r.socks[l].pool)
        && forall j: Slot :: j != l ==> r.socks[j] == t.socks[j]
  {
    hide Promote;
    RemovedMembers(t.socks[l].pool, idx);
  }

  /** An established entry is promoted exactly if the backlog has room for eight and some slot is free. */
  lemma PromotedIff(t: Table, l: Slot, idx: nat, tries: nat -> Try)
    requires t.socks[l].inUse && idx < t.socks[l].pool.count
    ensures Promote(t, l, idx, tries) != t <==>
            |Backlog(t.socks[l].pend)| < 8 && exists c: Slot :: !t.socks[c].inUse
  {
    FirstFreeIs(t, 0);
    ScanStandsStillIff(t, l, idx, Established, tries);
    hide Promote;
  }

  /** socket() takes the first free slot, and nothing if there is none. */
  lemma CreateIs(t: Table, stream: bool)
    ensures if c: Slot :| !t.socks[c].inUse && forall j: Slot :: j < c ==> t.socks[j].inUse then
              var r := Create(t, stream);
              && r.socks[c] == Sock(true, -1, stream, 0, false, EMPTY_POOL, true, 0, false, EMPTY_RING,
                                    t.socks[c].gen + 1)
              && r.shut == t.shut && forall j: Slot :: j != c ==> r.socks[j] == t.socks[j]
            else Create(t, stream) == t
  {
    FirstFreeIs(t, 0);
  }
}
