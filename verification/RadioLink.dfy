/** Whole runs of the radio link: what the receiver makes of the frames that reach it. */
module RadioLink {
  import opened Bytes
  import opened Xxtea
  import opened RadioCrypt
  import opened Wrappers

  // ----- one frame -----

  /** How far ctr is ahead of the receiver, modulo 2^32. */
  function Ahead(rx: Receiver, ctr: uint32): uint32 {
    (ctr - rx.counter) % TWO_32
  }

  lemma LowOfSum(a: uint32, d: uint32)
    ensures Low((a + d) % TWO_32) == (Low(a) + d) % 0x100
  {
    assert TWO_32 == 0x100 * 0x100_0000;
  }

  /** Only the low byte of a counter travels; its distance from the receiver's is what the window tests. */
  lemma WindowDistance(rx: Receiver, ctr: uint32)
    ensures (Low(ctr) - Low(rx.counter)) % 0x100 == Ahead(rx, ctr) % 0x100
  {
    var d := Ahead(rx, ctr);
    assert ctr == (rx.counter + d) % TWO_32;
    LowOfSum(rx.counter, d);
  }

  /** A receiver in use accepts exactly the low bytes 1 to 32 ahead of its own, and takes the nearest counter. */
  lemma InferredFromDistance(rx: Receiver, ctrByte: byte)
    requires rx.initialized
    ensures var diff := (ctrByte - Low(rx.counter)) % 0x100;
            Infer(rx, ctrByte) == if 1 <= diff <= RX_WINDOW then Some((rx.counter + diff) % TWO_32) else None
  {
    LowOfSum(rx.counter, 0);
  }

  /** It recovers a frame's full counter if and only if the frame is 1 to 32 ahead of it. */
  lemma InferredExactlyInWindow(rx: Receiver, ctr: uint32)
    requires rx.initialized
    ensures Infer(rx, Low(ctr)) == Some(ctr) <==> 1 <= Ahead(rx, ctr) <= RX_WINDOW
    ensures Infer(rx, Low(ctr)) == None <==> !(1 <= Ahead(rx, ctr) % 0x100 <= RX_WINDOW)
  {
    hide Infer;
    WindowDistance(rx, ctr);
    InferredFromDistance(rx, Low(ctr));
  }

  /** A fresh receiver takes the low byte for the whole counter. */
  lemma FirstFrameInferred(rx: Receiver, ctr: uint32)
    requires !rx.initialized
    ensures Infer(rx, Low(ctr)) == Some(ctr) <==> ctr < 0x100
  {
  }

  predicate Sealable(plain: seq<byte>) {
    MIN_PLAIN <= |plain| <= MAX_PLAIN
  }

  /** What open makes of a sealed frame is decided by the inferred counter alone. */
  lemma OpenSealed(key: Key, rx: Receiver, ctr: uint32, plain: seq<byte>)
    requires Sealable(plain)
    ensures Infer(rx, Low(ctr)) == None ==> Open(key, rx, Seal(key, ctr, plain)) == (rx, None)
    ensures Infer(rx, Low(ctr)) == Some(ctr) ==>
              Open(key, rx, Seal(key, ctr, plain)) == (Receiver(ctr, true), Some(plain))
  {
    hide Infer;
    hide CtrXor;
    CtrXorTwice(key, ctr, plain);
    var frame := Seal(key, ctr, plain);
    assert frame[1..] == CtrXor(key, ctr, plain);
  }

  // ----- runs -----

  /** The receive thread over a list of frames: the final window and the plaintexts passed on. */
  function Receive(key: Key, rx: Receiver, frames: seq<seq<byte>>): (Receiver, seq<seq<byte>>) {
    if frames == [] then (rx, [])
    else
      var (r, out) := Receive(key, rx, frames[..|frames| - 1]);
      var (r', plain) := Open(key, r, frames[|frames| - 1]);
      (r', if plain.Some? then out + [plain.value] else out)
  }

  lemma ReceiveMore(key: Key, rx: Receiver, frames: seq<seq<byte>>, frame: seq<byte>)
    ensures var (r, out) := Receive(key, rx, frames);
            var (r', plain) := Open(key, r, frame);
            Receive(key, rx, frames + [frame]) == (r', if plain.Some? then out + [plain.value] else out)
  {
    hide Open;
    assert (frames + [frame])[..|frames + [frame]| - 1] == frames;
  }

  datatype Message = Message(ctr: uint32, plain: seq<byte>)

  function SealAll(key: Key, ms: seq<Message>): (r: seq<seq<byte>>)
    ensures |r| == |ms|
  {
    seq(|ms|, i requires 0 <= i < |ms| => Seal(key, ms[i].ctr, ms[i].plain))
  }

  function Plains(ms: seq<Message>): seq<seq<byte>> {
    seq(|ms|, i requires 0 <= i < |ms| => ms[i].plain)
  }

  /** The first counter delivered is below 256 and consecutive ones differ by 1 to 32, modulo 2^32. */
  predicate InStep(ms: seq<Message>) {
    && (ms != [] ==> ms[0].ctr < 0x100)
    && (forall i | 0 <= i < |ms| :: Sealable(ms[i].plain))
    && (forall i | 0 < i < |ms| :: 1 <= (ms[i].ctr - ms[i - 1].ctr) % TWO_32 <= RX_WINDOW)
  }

  /** Then the receiver has every counter right, through all wrap-arounds, and passes on every plaintext. */
  lemma {:induction false} StaysInSync(key: Key, rx: Receiver, ms: seq<Message>)
    requires !rx.initialized && InStep(ms)
    ensures Receive(key, rx, SealAll(key, ms)) ==
            (if ms == [] then rx else Receiver(ms[|ms| - 1].ctr, true), Plains(ms))
  {
    hide *;
    if ms == [] {
      NothingSealed(key, rx);
    } else {
      var last := |ms| - 1;
      var front, m := ms[..last], ms[last];
      SealMore(key, ms);
      StaysInSync(key, rx, front);
      ReceiveMore(key, rx, SealAll(key, front), Seal(key, m.ctr, m.plain));
      OpenInStep(key, rx, ms);
    }
  }

  lemma NothingSealed(key: Key, rx: Receiver)
    ensures Receive(key, rx, SealAll(key, [])) == (rx, Plains([]))
  {
    assert SealAll(key, []) == [] && Plains([]) == [];
  }

  lemma SealMore(key: Key, ms: seq<Message>)
    requires ms != [] && InStep(ms)
    ensures var front, m := ms[..|ms| - 1], ms[|ms| - 1];
            && InStep(front)
            && SealAll(key, ms) == SealAll(key, front) + [Seal(key, m.ctr, m.plain)]
            && Plains(ms) == Plains(front) + [m.plain]
  {
    hide Seal;
  }

  lemma OpenInStep(key: Key, rx: Receiver, ms: seq<Message>)
    requires ms != [] && InStep(ms) && !rx.initialized
    ensures var last := |ms| - 1;
            var before := if last == 0 then rx else Receiver(ms[last - 1].ctr, true);
            Open(key, before, Seal(key, ms[last].ctr, ms[last].plain)) ==
            (Receiver(ms[last].ctr, true), Some(ms[last].plain))
  {
    hide Open;
    hide Infer;
    hide Seal;
    var last := |ms| - 1;
    var before := if last == 0 then rx else Receiver(ms[last - 1].ctr, true);
    if last == 0 {
      FirstFrameInferred(before, ms[last].ctr);
    } else {
      InferredExactlyInWindow(before, ms[last].ctr);
    }
    OpenSealed(key, before, ms[last].ctr, ms[last].plain);
  }

  // ----- retransmission -----

  /** The counter of the frame that carries plaintext number p when the first one had counter `first`. */
  function CounterOf(first: uint32, p: nat): uint32 {
    (first + p) % TWO_32
  }

  /** Whether the next delivery is passed on, given those accepted so far. */
  predicate Fresh(accepted: seq<nat>, d: nat) {
    accepted == [] || accepted[|accepted| - 1] < d <= accepted[|accepted| - 1] + RX_WINDOW
  }

  /** The deliveries that make it through: the first, and then each one that is 1 to 32 ahead of the last. */
  function Accepted(ds: seq<nat>): seq<nat> {
    if ds == [] then []
    else
      var a, d := Accepted(ds[..|ds| - 1]), ds[|ds| - 1];
      if Fresh(a, d) then a + [d] else a
  }

  /** Every delivery is at most 223 frames behind and 255 ahead of the last one accepted. */
  predicate NearTheWindow(ds: seq<nat>) {
    forall i | 0 < i < |ds| ::
      var a := Accepted(ds[..i]);
      a != [] ==> a[|a| - 1] <= ds[i] + 223 && ds[i] <= a[|a| - 1] + 255
  }

  /** Plaintexts `sent`, sealed once each; frame numbers `ds` reach the receiver, in any order, any number of times. */
  predicate Deliveries(sent: seq<seq<byte>>, ds: seq<nat>) {
    && (forall p | 0 <= p < |sent| :: Sealable(sent[p]))
    && (forall i | 0 <= i < |ds| :: ds[i] < |sent|)
  }

  function Delivered(key: Key, first: uint32, sent: seq<seq<byte>>, ds: seq<nat>): (r: seq<seq<byte>>)
    requires Deliveries(sent, ds)
    ensures |r| == |ds|
  {
    seq(|ds|, i requires 0 <= i < |ds| => Seal(key, CounterOf(first, ds[i]), sent[ds[i]]))
  }

  /** The texts numbered `a`, in that order. */
  function Chosen(sent: seq<seq<byte>>, a: seq<nat>): seq<seq<byte>>
    requires forall i | 0 <= i < |a| :: a[i] < |sent|
  {
    seq(|a|, i requires 0 <= i < |a| => sent[a[i]])
  }

  lemma ChosenMore(sent: seq<seq<byte>>, a: seq<nat>, d: nat)
    requires d < |sent| && forall i | 0 <= i < |a| :: a[i] < |sent|
    ensures Chosen(sent, a + [d]) == Chosen(sent, a) + [sent[d]]
  {
  }

  /** Numbers out of ds, each greater than the one before. */
  predicate IncreasingIn(a: seq<nat>, ds: seq<nat>) {
    && (forall i | 0 <= i < |a| :: a[i] in ds)
    && (forall i, j | 0 <= i < j < |a| :: a[i] < a[j])
  }

  lemma IncreasingMore(a: seq<nat>, ds: seq<nat>, d: nat)
    requires IncreasingIn(a, ds)
    ensures IncreasingIn(a, ds + [d])
    ensures Fresh(a, d) ==> IncreasingIn(a + [d], ds + [d])
  {
  }

  lemma {:induction false} AcceptedIncreases(ds: seq<nat>)
    ensures ds != [] ==> Accepted(ds) != []
    ensures IncreasingIn(Accepted(ds), ds)
  {
    hide IncreasingIn;
    if ds == [] {
      AcceptedNone();
    } else {
      var front := ds[..|ds| - 1];
      AcceptedIncreases(front);
      IncreasingMore(Accepted(front), front, ds[|ds| - 1]);
      assert front + [ds[|ds| - 1]] == ds;
    }
  }

  lemma AcceptedNone()
    ensures IncreasingIn(Accepted([]), [])
  {
  }

  /** The distance of two counters, from how far apart their frames are. */
  lemma AheadIs(first: uint32, r: nat, d: nat)
    requires r - 223 <= d <= r + 255
    ensures Ahead(Receiver(CounterOf(first, r), true), CounterOf(first, d)) ==
            if d >= r then d - r else d - r + TWO_32
  {
    var a: int, b: int := CounterOf(first, r), CounterOf(first, d);
    var i, j := (first + r) / TWO_32, (first + d) / TWO_32;
    assert first + r == TWO_32 * i + a && first + d == TWO_32 * j + b;
    assert b - a == (d - r) - TWO_32 * (j - i);
  }

  lemma WindowOf(n: int)
    requires -223 <= n <= 255
    ensures var ahead := if n >= 0 then n else n + TWO_32;
      && (1 <= ahead <= RX_WINDOW <==> 0 < n <= RX_WINDOW)
      && (1 <= ahead % 0x100 <= RX_WINDOW <==> 0 < n <= RX_WINDOW)
  {
  }

  lemma AheadByPosition(first: uint32, r: nat, d: nat)
    requires r - 223 <= d <= r + 255
    ensures var ahead := Ahead(Receiver(CounterOf(first, r), true), CounterOf(first, d));
            && (1 <= ahead <= RX_WINDOW <==> r < d <= r + RX_WINDOW)
            && (1 <= ahead % 0x100 <= RX_WINDOW <==> r < d <= r + RX_WINDOW)
  {
    hide Ahead, CounterOf;
    AheadIs(first, r, d);
    WindowOf(d - r);
  }

  /** A repeated or late frame, up to 223 behind, is dropped and leaves the receiver as it was. */
  lemma LateFrameIsDropped(key: Key, first: uint32, r: nat, d: nat, plain: seq<byte>)
    requires d <= r <= d + 223 && Sealable(plain)
    ensures var rx := Receiver(CounterOf(first, r), true);
            Open(key, rx, Seal(key, CounterOf(first, d), plain)) == (rx, None)
  {
    hide Open;
    hide Infer;
    AheadByPosition(first, r, d);
    InferredExactlyInWindow(Receiver(CounterOf(first, r), true), CounterOf(first, d));
    OpenSealed(key, Receiver(CounterOf(first, r), true), CounterOf(first, d), plain);
  }

  function Window(rx: Receiver, first: uint32, accepted: seq<nat>): Receiver {
    if accepted == [] then rx else Receiver(CounterOf(first, accepted[|accepted| - 1]), true)
  }

  lemma NextDelivery(key: Key, rx: Receiver, first: uint32, accepted: seq<nat>, d: nat, plain: seq<byte>)
    requires !rx.initialized && Sealable(plain)
    requires accepted == [] ==> CounterOf(first, d) < 0x100
    requires accepted != [] ==> accepted[|accepted| - 1] <= d + 223 && d <= accepted[|accepted| - 1] + 255
    ensures Open(key, Window(rx, first, accepted), Seal(key, CounterOf(first, d), plain)) ==
            if Fresh(accepted, d) then (Window(rx, first, accepted + [d]), Some(plain))
            else (Window(rx, first, accepted), None)
  {
    hide Open;
    hide Infer;
    hide Seal;
    var before := Window(rx, first, accepted);
    if accepted == [] {
      FirstFrameInferred(before, CounterOf(first, d));
    } else {
      AheadByPosition(first, accepted[|accepted| - 1], d);
      InferredExactlyInWindow(before, CounterOf(first, d));
    }
    OpenSealed(key, before, CounterOf(first, d), plain);
  }

  /** However often frames are repeated, what is passed on is a subsequence of what was sent, each text once. */
  lemma {:induction false} RepeatsArePassedOnOnce(
      key: Key, rx: Receiver, first: uint32, sent: seq<seq<byte>>, ds: seq<nat>)
    requires !rx.initialized && Deliveries(sent, ds) && NearTheWindow(ds)
    requires ds != [] ==> CounterOf(first, ds[0]) < 0x100
    ensures var a := Accepted(ds);
            && (forall i | 0 <= i < |a| :: a[i] < |sent|)
            && (forall i, j | 0 <= i < j < |a| :: a[i] < a[j])
            && Receive(key, rx, Delivered(key, first, sent, ds)) == (Window(rx, first, a), Chosen(sent, a))
  {
    hide Open;
    hide Seal;
    hide CounterOf;
    hide Receive;
    AcceptedIncreases(ds);
    if ds == [] {
      NothingDelivered(key, rx, first, sent);
    } else {
      var last := |ds| - 1;
      var front, d := ds[..last], ds[last];
      NearPrefix(ds);
      DeliverMore(key, first, sent, ds);
      hide Delivered;
      hide Chosen;
      hide NearTheWindow;
      RepeatsArePassedOnOnce(key, rx, first, sent, front);
      var a := Accepted(front);
      ReceiveMore(key, rx, Delivered(key, first, sent, front), Seal(key, CounterOf(first, d), sent[d]));
      NextDelivery(key, rx, first, a, d, sent[d]);
      hide Window;
      ChosenMore(sent, a, d);
    }
  }

  lemma NothingDelivered(key: Key, rx: Receiver, first: uint32, sent: seq<seq<byte>>)
    requires Deliveries(sent, [])
    ensures Receive(key, rx, Delivered(key, first, sent, [])) == (Window(rx, first, []), Chosen(sent, []))
  {
    assert Delivered(key, first, sent, []) == [] && Chosen(sent, []) == [];
  }

  lemma DeliverMore(key: Key, first: uint32, sent: seq<seq<byte>>, ds: seq<nat>)
    requires ds != [] && Deliveries(sent, ds)
    ensures var front, d := ds[..|ds| - 1], ds[|ds| - 1];
            && Deliveries(sent, front) && d < |sent| && Sealable(sent[d])
            && Delivered(key, first, sent, ds) ==
               Delivered(key, first, sent, front) + [Seal(key, CounterOf(first, d), sent[d])]
  {
    hide Seal;
    hide CounterOf;
  }

  /** What holds of the deliveries holds before the last of them, and of the last. */
  lemma NearPrefix(ds: seq<nat>)
    requires ds != [] && NearTheWindow(ds)
    ensures NearTheWindow(ds[..|ds| - 1])
    ensures var a, d := Accepted(ds[..|ds| - 1]), ds[|ds| - 1];
            a != [] ==> a[|a| - 1] <= d + 223 && d <= a[|a| - 1] + 255
  {
    var front := ds[..|ds| - 1];
    forall i | 0 < i < |front|
      ensures front[..i] == ds[..i]
    {
    }
  }
}
