/**
  The key hash on the CAN bus: five frames of up to seven bytes that nobody answers, put together on the
  device, and the check of FW_START. A frame is the bytes it carries, its first byte the number of the chunk.
 */
module CanKeyhash {
  import opened Bytes
  import opened Wrappers

  const KEY_LEN := 32
  const CHUNK := 7
  const CHUNKS := 5
  const FULL_MASK: set<nat> := {0, 1, 2, 3, 4}

  type Hash = s: seq<byte> | |s| == KEY_LEN witness seq(KEY_LEN, _ => 0)

  /** rx_keybuf and the bits of key_chunk_mask. */
  datatype Keys = Keys(buf: Hash, mask: set<nat>)

  /** How many bytes chunk i has. */
  function Len(i: nat): (n: nat)
    requires i < CHUNKS
    ensures CHUNK * i + n <= KEY_LEN
  {
    Min(KEY_LEN - CHUNK * i, CHUNK)
  }

  /** Chunk i of a key hash. */
  function Chunk(k: Hash, i: nat): seq<byte>
    requires i < CHUNKS
  {
    k[CHUNK * i..CHUNK * i + Len(i)]
  }

  predicate Carries(frame: seq<byte>, i: nat) {
    i < CHUNKS && |frame| >= 1 + Len(i) && frame[0] == i
  }

  /** handle_keyhash_frame. */
  function HandleKeyhashFrame(k: Keys, frame: seq<byte>): Keys {
    if frame == [] || frame[0] >= CHUNKS || |frame| < 1 + Len(frame[0]) then k
    else
      var at, n := CHUNK * frame[0], Len(frame[0]);
      Keys(k.buf[..at] + frame[1..1 + n] + k.buf[at + n..], k.mask + {frame[0] as nat})
  }

  /** The check of FW_START in a build with key `own`: the mask is cleared whenever something is compared. */
  function CheckStart(k: Keys, own: Hash): (r: (Keys, bool)) {
    if FULL_MASK <= k.mask then (k.(mask := {}), k.buf == own) else (k, true)
  }

  class KeyhashReceiver {
    const own: Hash
    const rxKeybuf: array<byte>
    var keyChunkMask: set<nat>

    ghost predicate Valid()
      reads this
    {
      rxKeybuf.Length == KEY_LEN
    }

    function Current(): Keys
      reads this, rxKeybuf
      requires Valid()
    {
      Keys(rxKeybuf[..], keyChunkMask)
    }

    constructor (own: Hash)
      ensures Valid() && fresh(rxKeybuf) && this.own == own && Current() == Keys(seq(KEY_LEN, _ => 0), {})
    {
      this.own := own;
      rxKeybuf := new byte[KEY_LEN](_ => 0);
      keyChunkMask := {};
      new;
      assert rxKeybuf[..] == seq(KEY_LEN, _ => 0);
    }

    method OnKeyhashFrame(frame: seq<byte>)
      requires Valid()
      modifies this, rxKeybuf
      ensures Valid() && Current() == HandleKeyhashFrame(old(Current()), frame)
    {
      if frame == [] || frame[0] >= CHUNKS || |frame| < 1 + Len(frame[0]) {
        return;
      }
      var at, n := CHUNK * frame[0], Len(frame[0]);
      forall i | 0 <= i < n {
        rxKeybuf[at + i] := frame[1 + i];
      }
      keyChunkMask := keyChunkMask + {frame[0] as nat};
      assert rxKeybuf[..] == old(rxKeybuf[..at]) + frame[1..1 + n] + old(rxKeybuf[at + n..]);
    }

    method StartIsWelcome() returns (ok: bool)
      requires Valid()
      modifies this`keyChunkMask
      ensures Valid() && (Current(), ok) == CheckStart(old(Current()), own)
    {
      if FULL_MASK <= keyChunkMask {
        keyChunkMask := {};
        return rxKeybuf[..] == own;
      }
      return true;
    }
  }

  // ----- every history of frames and STARTs -----

  datatype Event = KeyFrame(bytes: seq<byte>) | Start

  function Next(k: Keys, own: Hash, e: Event): Keys {
    match e
    case KeyFrame(bytes) => HandleKeyhashFrame(k, bytes)
    case Start => CheckStart(k, own).0
  }

  /** The receiver after the events of h, from power-up. */
  function Now(own: Hash, h: seq<Event>): Keys {
    if h == [] then Keys(seq(KEY_LEN, _ => 0), {})
    else Next(Now(own, h[..|h| - 1]), own, h[|h| - 1])
  }

  predicate Brings(e: Event, i: nat) {
    e.KeyFrame? && Carries(e.bytes, i)
  }

  /** Chunk i came in event m and not again since. */
  ghost predicate Last(h: seq<Event>, i: nat, m: nat) {
    m < |h| && Brings(h[m], i) && forall k | m < k < |h| :: !Brings(h[k], i)
  }

  /** A START behind h compares: every chunk has come since the last START that compared. */
  ghost predicate Compares(h: seq<Event>)
    decreases |h|, 1
  {
    forall i: nat | i < CHUNKS :: Waiting(h, i)
  }

  /** Chunk i has come, and no START compared anything since. */
  ghost predicate Waiting(h: seq<Event>, i: nat)
    decreases |h|, 0
  {
    exists m: nat :: m < |h| && Brings(h[m], i) && forall s: nat | m < s < |h| && h[s].Start? :: !Compares(h[..s])
  }

  /** The chunk of the frame that brought it. */
  function Brought(e: Event, i: nat): seq<byte>
    requires Brings(e, i)
  {
    e.bytes[1..1 + Len(i)]
  }

  ghost predicate Matches(k: Keys, h: seq<Event>) {
    && k.mask <= FULL_MASK
    && (forall i: nat | i < CHUNKS :: i in k.mask <==> Waiting(h, i))
    && forall i: nat, m: nat | i < CHUNKS && Last(h, i, m) :: Chunk(k.buf, i) == Brought(h[m], i)
  }

  lemma WaitingMore(h: seq<Event>, e: Event, i: nat)
    ensures Waiting(h + [e], i) <==> Brings(e, i) || (Waiting(h, i) && (e.Start? ==> !Compares(h)))
  {
    var g := h + [e];
    assert g[|h|] == e && forall s | 0 <= s <= |h| :: g[..s] == h[..s];
    assert h[..|h|] == h;
    if Waiting(g, i) && !Brings(e, i) {
      var m: nat :| m < |g| && Brings(g[m], i) && forall s: nat | m < s < |g| && g[s].Start? :: !Compares(g[..s]);
      assert forall s: nat | m < s < |h| && h[s].Start? :: g[s].Start? && !Compares(h[..s]);
    }
    if Waiting(h, i) && (e.Start? ==> !Compares(h)) {
      var m: nat :| m < |h| && Brings(h[m], i) && forall s: nat | m < s < |h| && h[s].Start? :: !Compares(h[..s]);
      assert Brings(g[m], i) && forall s: nat | m < s < |g| && g[s].Start? :: !Compares(g[..s]);
    }
    if Brings(e, i) {
      assert Brings(g[|h|], i);
    }
  }

  lemma LastMore(h: seq<Event>, e: Event, i: nat, m: nat)
    ensures Last(h + [e], i, m) <==> if Brings(e, i) then m == |h| else Last(h, i, m)
  {
    var g := h + [e];
    assert g[|h|] == e;
    if Last(h, i, m) {
      assert forall k | m < k < |g| && k != |h| :: g[k] == h[k];
    }
    if Last(g, i, m) && m < |h| {
      assert !Brings(g[|h|], i);
      assert forall k | m < k < |h| :: g[k] == h[k];
    }
  }

  lemma Splice(buf: seq<byte>, at: nat, data: seq<byte>, lo: nat, n: nat)
    requires at + |data| <= |buf| && lo + n <= |buf|
    requires (lo == at && n == |data|) || lo + n <= at || at + |data| <= lo
    ensures (buf[..at] + data + buf[at + |data|..])[lo..lo + n] ==
            if lo == at && n == |data| then data else buf[lo..lo + n]
  {
    var now := buf[..at] + data + buf[at + |data|..];
    assert forall p | 0 <= p < |buf| && !(at <= p < at + |data|) :: now[p] == buf[p];
  }

  /** A frame that carries chunk j replaces it and leaves the others. */
  lemma FrameReplaces(k: Keys, frame: seq<byte>, i: nat)
    requires i < CHUNKS
    ensures var k' := HandleKeyhashFrame(k, frame);
      && (i in k'.mask <==> Carries(frame, i) || i in k.mask)
      && Chunk(k'.buf, i) == if Carries(frame, i) then frame[1..1 + Len(i)] else Chunk(k.buf, i)
  {
    if frame != [] && frame[0] < CHUNKS && |frame| >= 1 + Len(frame[0]) {
      var j := frame[0];
      Splice(k.buf, CHUNK * j, frame[1..1 + Len(j)], CHUNK * i, Len(i));
    }
  }

  lemma OneMore(k: Keys, own: Hash, h: seq<Event>, e: Event)
    requires Matches(k, h)
    ensures Matches(Next(k, own, e), h + [e])
  {
    var k' := Next(k, own, e);
    hide Compares, Last, Brings;
    forall i: nat | i < CHUNKS
      ensures i in k'.mask <==> Waiting(h + [e], i)
    {
      WaitingMore(h, e, i);
      MaskIsFullIff(k, h);
      BringsIs(e, i);
      hide Waiting, HandleKeyhashFrame;
      if e.KeyFrame? {
        FrameReplaces(k, e.bytes, i);
      }
    }
    ChunksMore(k, own, h, e);
  }

  lemma ChunksMore(k: Keys, own: Hash, h: seq<Event>, e: Event)
    requires Matches(k, h)
    ensures forall i: nat, m: nat | i < CHUNKS && Last(h + [e], i, m) ::
              Chunk(Next(k, own, e).buf, i) == Brought((h + [e])[m], i)
  {
    var k' := Next(k, own, e);
    hide HandleKeyhashFrame, Compares, Waiting;
    forall i: nat, m: nat | i < CHUNKS && Last(h + [e], i, m)
      ensures Chunk(k'.buf, i) == Brought((h + [e])[m], i)
    {
      LastMore(h, e, i, m);
      if e.KeyFrame? {
        FrameReplaces(k, e.bytes, i);
      }
    }
  }

  lemma BringsIs(e: Event, i: nat)
    ensures Brings(e, i) <==> e.KeyFrame? && Carries(e.bytes, i)
  {
  }

  lemma MaskIsFullIff(k: Keys, h: seq<Event>)
    requires Matches(k, h)
    ensures FULL_MASK <= k.mask <==> Compares(h)
  {
    hide Waiting;
    if Compares(h) {
      forall i | i in FULL_MASK
        ensures i in k.mask
      {
      }
    }
  }

  lemma {:induction false} StateIsTheHistory(own: Hash, h: seq<Event>)
    ensures Matches(Now(own, h), h)
  {
    if h == [] {
    } else {
      hide Matches, Next;
      StateIsTheHistory(own, h[..|h| - 1]);
      OneMore(Now(own, h[..|h| - 1]), own, h[..|h| - 1], h[|h| - 1]);
      assert h[..|h| - 1] + [h[|h| - 1]] == h;
    }
  }

  // ----- the laws -----

  /** A chunk that has come came last in some event. */
  lemma {:induction false} SomeLast(h: seq<Event>, i: nat, m: nat) returns (last: nat)
    requires m < |h| && Brings(h[m], i)
    ensures Last(h, i, last)
    decreases |h| - m
  {
    if k :| m < k < |h| && Brings(h[k], i) {
      last := SomeLast(h, i, k);
    } else {
      last := m;
    }
  }

  /** Two hashes are the same when their chunks are. */
  lemma SameChunks(a: Hash, b: Hash)
    requires forall i: nat | i < CHUNKS :: Chunk(a, i) == Chunk(b, i)
    ensures a == b
  {
    forall p: nat | p < KEY_LEN
      ensures a[p] == b[p]
    {
      var i := p / CHUNK;
      assert Chunk(a, i)[p - CHUNK * i] == a[p] && Chunk(b, i)[p - CHUNK * i] == b[p];
    }
  }

  /**
    In every history a START is refused for its key hash exactly when every chunk has come since the last
    START that compared, and the chunks that came last are not those of the key the firmware was built with.
   */
  lemma RefusedIff(own: Hash, h: seq<Event>)
    ensures !CheckStart(Now(own, h), own).1 <==>
            Compares(h) && exists i: nat, m: nat :: i < CHUNKS && Last(h, i, m) && Brought(h[m], i) != Chunk(own, i)
  {
    var k := Now(own, h);
    StateIsTheHistory(own, h);
    MaskIsFullIff(k, h);
    hide Last, Now, Brings;
    if Compares(h) {
      if k.buf != own {
        var i := DifferentChunk(k.buf, own);
        var m := LastOf(h, i);
        assert Brought(h[m], i) != Chunk(own, i);
      }
    }
  }

  lemma DifferentChunk(a: Hash, b: Hash) returns (i: nat)
    requires a != b
    ensures i < CHUNKS && Chunk(a, i) != Chunk(b, i)
  {
    if forall i: nat | i < CHUNKS :: Chunk(a, i) == Chunk(b, i) {
      SameChunks(a, b);
    } else {
      i :| i < CHUNKS && Chunk(a, i) != Chunk(b, i);
    }
  }

  lemma LastOf(h: seq<Event>, i: nat) returns (last: nat)
    requires Compares(h) && i < CHUNKS
    ensures last < |h| && Brings(h[last], i) && Last(h, i, last)
  {
    assert Waiting(h, i);
    var m: nat :| m < |h| && Brings(h[m], i);
    last := SomeLast(h, i, m);
  }

  /** The frame the host tool sends for chunk i: its number, the chunk, and zeros up to eight bytes. */
  function HostFrame(k: Hash, i: nat): seq<byte>
    requires i < CHUNKS
  {
    [i] + Chunk(k, i) + seq(CHUNK - Len(i), _ => 0)
  }

  /** The frames of chunks 0 to n - 1. */
  function HostFrames(k: Hash, n: nat): seq<Event>
    requires n <= CHUNKS
  {
    if n == 0 then [] else HostFrames(k, n - 1) + [KeyFrame(HostFrame(k, n - 1))]
  }

  /** The first n chunks of k have come and lie in the buffer. */
  predicate Has(keys: Keys, k: Hash, n: nat)
    requires n <= CHUNKS
  {
    forall i: nat | i < n :: i in keys.mask && Chunk(keys.buf, i) == Chunk(k, i)
  }

  lemma OneMoreChunk(keys: Keys, k: Hash, n: nat)
    requires n < CHUNKS && Has(keys, k, n)
    ensures Has(HandleKeyhashFrame(keys, HostFrame(k, n)), k, n + 1)
  {
    hide HandleKeyhashFrame, HostFrame, Carries, Chunk;
    forall i: nat | i < n + 1
      ensures var keys' := HandleKeyhashFrame(keys, HostFrame(k, n));
        i in keys'.mask && Chunk(keys'.buf, i) == Chunk(k, i)
    {
      HostFrameIs(k, n, i);
      FrameReplaces(keys, HostFrame(k, n), i);
    }
  }

  lemma NowMore(own: Hash, h: seq<Event>, e: Event)
    ensures Now(own, h + [e]) == Next(Now(own, h), own, e)
  {
    assert (h + [e])[..|h|] == h;
  }

  lemma NextIs(keys: Keys, own: Hash, frame: seq<byte>)
    ensures Next(keys, own, KeyFrame(frame)) == HandleKeyhashFrame(keys, frame)
  {
  }

  lemma FramesMore(h: seq<Event>, k: Hash, n: nat)
    requires n < CHUNKS
    ensures h + HostFrames(k, n + 1) == h + HostFrames(k, n) + [KeyFrame(HostFrame(k, n))]
  {
    hide HostFrame;
  }

  lemma HasNone(keys: Keys, k: Hash)
    ensures Has(keys, k, 0)
  {
  }

  lemma {:induction false} FramesAreTaken(own: Hash, h: seq<Event>, k: Hash, n: nat)
    requires n <= CHUNKS
    ensures Has(Now(own, h + HostFrames(k, n)), k, n)
  {
    hide *;
    if n == 0 {
      HasNone(Now(own, h + HostFrames(k, 0)), k);
    } else {
      FramesAreTaken(own, h, k, n - 1);
      FramesMore(h, k, n - 1);
      var before, e := h + HostFrames(k, n - 1), KeyFrame(HostFrame(k, n - 1));
      OneMoreChunk(Now(own, before), k, n - 1);
      NowMore(own, before, e);
      NextIs(Now(own, before), own, HostFrame(k, n - 1));
    }
  }

  lemma HostFrameIs(k: Hash, n: nat, i: nat)
    requires n < CHUNKS && i < CHUNKS
    ensures Carries(HostFrame(k, n), i) <==> i == n
    ensures i == n ==> HostFrame(k, n)[1..1 + Len(i)] == Chunk(k, i)
  {
  }

  /** After all five frames of the host tool the START is refused if and only if the hash is a foreign one. */
  lemma SentHashIsChecked(own: Hash, h: seq<Event>, k: Hash)
    ensures CheckStart(Now(own, h + HostFrames(k, CHUNKS)), own).1 <==> k == own
  {
    FramesAreTaken(own, h, k, CHUNKS);
    hide HostFrames, Now, Chunk;
    SameChunks(Now(own, h + HostFrames(k, CHUNKS)).buf, k);
  }

  /** As long as one chunk is missing since the last comparison nothing is compared: the START is taken. */
  lemma MissingChunkSkipsTheCheck(own: Hash, h: seq<Event>, more: seq<Event>, j: nat)
    requires j < CHUNKS && !Waiting(h, j) && forall e | e in more :: !Brings(e, j)
    ensures CheckStart(Now(own, h + more), own).1
  {
    NothingWaits(h, more, j);
    RefusedIff(own, h + more);
  }

  lemma {:induction false} NothingWaits(h: seq<Event>, more: seq<Event>, j: nat)
    requires j < CHUNKS && !Waiting(h, j) && forall e | e in more :: !Brings(e, j)
    ensures !Waiting(h + more, j)
  {
    hide Waiting, Compares;
    if more == [] {
      assert h + more == h;
    } else {
      var e := more[|more| - 1];
      assert e in more;
      NothingWaits(h, more[..|more| - 1], j);
      assert h + more == (h + more[..|more| - 1]) + [e];
      WaitingMore(h + more[..|more| - 1], e, j);
    }
  }
}
