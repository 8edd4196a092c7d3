/** MCUboot images as the host tool checks them before it sends anything: parse_image. */
module FirmwareImage {
  import opened Bytes
  import opened Wrappers
  import opened Crc16

  const IMG_MAGIC: uint32 := 0x96F3B83D
  const IMG_TLV_INFO_MAGIC: uint16 := 0x6907
  const IMG_TLV_KEYHASH: uint16 := 1
  const IMG_KEYHASH_LEN := 32
  const HEADER_LEN := 32
  const TLV_HEAD := 4

  type Image = s: seq<byte> | |s| < TWO_32

  function U16(d: seq<byte>, off: nat): uint16
    requires off + 2 <= |d|
  {
    FromLe16(d[off..off + 2])
  }

  function U32(d: seq<byte>, off: nat): uint32
    requires off + 4 <= |d|
  {
    FromLe32(d[off..off + 4])
  }

  /** Where the TLV area starts, by the header. */
  function TlvStart(d: seq<byte>): nat
    requires |d| >= HEADER_LEN
  {
    U16(d, 8) + U32(d, 12)
  }

  predicate WellFormed(d: seq<byte>) {
    && |d| >= HEADER_LEN
    && U32(d, 0) == IMG_MAGIC
    && U16(d, 8) >= HEADER_LEN && U16(d, 8) % 4 == 0 && U32(d, 12) <= |d|
    && TlvStart(d) + TLV_HEAD <= |d| && U16(d, TlvStart(d)) == IMG_TLV_INFO_MAGIC
  }

  /** The value of the first KEYHASH entry from `off` on; the walk ends at the first entry that makes no sense. */
  function Keyhash(d: seq<byte>, off: nat): (r: Option<seq<byte>>)
    ensures r.Some? ==> |r.value| == IMG_KEYHASH_LEN
    decreases |d| - off
  {
    if off + TLV_HEAD > |d| then None
    else
      var kind, len := U16(d, off), U16(d, off + 2);
      if kind == 0 || len == 0 || off + TLV_HEAD + len > |d| then None
      else if kind == IMG_TLV_KEYHASH && len == IMG_KEYHASH_LEN then Some(d[off + TLV_HEAD..off + TLV_HEAD + len])
      else Keyhash(d, off + TLV_HEAD + len)
  }

  function KeyhashOf(d: seq<byte>): Option<seq<byte>> {
    if WellFormed(d) then Keyhash(d, TlvStart(d) + TLV_HEAD) else None
  }

  predicate Accepts(d: seq<byte>, requireKeyhash: bool) {
    WellFormed(d) && (requireKeyhash ==> KeyhashOf(d).Some?)
  }

  /** parse_image on the contents of a file. */
  method ParseImage(d: Image, requireKeyhash: bool) returns (ok: bool, keyhash: Option<seq<byte>>)
    ensures ok <==> Accepts(d, requireKeyhash)
    ensures ok ==> keyhash == KeyhashOf(d)
  {
    keyhash := None;
    if |d| < HEADER_LEN {
      return false, None;
    }
    if U32(d, 0) != IMG_MAGIC {
      return false, None;
    }
    var hdrSize, imgSize := U16(d, 8), U32(d, 12);
    if hdrSize < HEADER_LEN || hdrSize % 4 != 0 || imgSize > |d| {
      return false, None;
    }
    var tlvOff := hdrSize + imgSize;
    if tlvOff + TLV_HEAD > |d| || U16(d, tlvOff) != IMG_TLV_INFO_MAGIC {
      return false, None;
    }
    var off := tlvOff + TLV_HEAD;
    while off + TLV_HEAD <= |d|
      invariant 0 <= off
      invariant keyhash == None && KeyhashOf(d) == Keyhash(d, off)
      decreases |d| - off
    {
      var kind, len := U16(d, off), U16(d, off + 2);
      if kind == 0 || len == 0 || off + TLV_HEAD + len > |d| {
        break;
      }
      if kind == IMG_TLV_KEYHASH && len == IMG_KEYHASH_LEN {
        keyhash := Some(d[off + TLV_HEAD..off + TLV_HEAD + len]);
        break;
      }
      off := off + TLV_HEAD + len;
    }
    ok := !requireKeyhash || keyhash.Some?;
  }

  // ----- what is behind the last entry does not matter -----

  lemma SameNumbers(d: seq<byte>, tail: seq<byte>, off: nat)
    ensures off + 2 <= |d| ==> U16(d + tail, off) == U16(d, off)
    ensures off + 4 <= |d| ==> U32(d + tail, off) == U32(d, off)
  {
    if off + 2 <= |d| {
      assert (d + tail)[off..off + 2] == d[off..off + 2];
    }
    if off + 4 <= |d| {
      assert (d + tail)[off..off + 4] == d[off..off + 4];
    }
  }

  lemma {:induction false} SameKeyhash(d: seq<byte>, tail: seq<byte>, off: nat)
    requires Keyhash(d, off).Some?
    ensures Keyhash(d + tail, off) == Keyhash(d, off)
    decreases |d| - off
  {
    var len := U16(d, off + 2);
    SameNumbers(d, tail, off);
    SameNumbers(d, tail, off + 2);
    var end := off + TLV_HEAD + len;
    if U16(d, off) == IMG_TLV_KEYHASH && len == IMG_KEYHASH_LEN {
      assert (d + tail)[off + TLV_HEAD..end] == d[off + TLV_HEAD..end];
    } else {
      SameKeyhash(d, tail, end);
    }
  }

  lemma SameFields(d: seq<byte>, tail: seq<byte>)
    requires |d| >= HEADER_LEN
    ensures U32(d + tail, 0) == U32(d, 0) && U16(d + tail, 8) == U16(d, 8) && U32(d + tail, 12) == U32(d, 12)
  {
    hide U16, U32;
    SameNumbers(d, tail, 0);
    SameNumbers(d, tail, 8);
    SameNumbers(d, tail, 12);
  }

  /** An accepted image stays accepted, with the same key hash if it has one, whatever is appended to the file. */
  lemma TailIsIgnored(d: seq<byte>, tail: seq<byte>, requireKeyhash: bool)
    requires Accepts(d, requireKeyhash)
    ensures Accepts(d + tail, requireKeyhash)
    ensures KeyhashOf(d).Some? ==> KeyhashOf(d + tail) == KeyhashOf(d)
  {
    hide U16, U32, Keyhash;
    SameFields(d, tail);
    SameNumbers(d, tail, TlvStart(d));
    if KeyhashOf(d).Some? {
      SameKeyhash(d, tail, TlvStart(d) + TLV_HEAD);
    }
  }

  /** So every accepted image becomes one with CRC 0 by its own CRC, put at the end of the file. */
  lemma AcceptedWithCrcZero(d: seq<byte>, requireKeyhash: bool) returns (e: seq<byte>)
    requires Accepts(d, requireKeyhash)
    ensures e == d + Le16(Crc(d)) && Accepts(e, requireKeyhash) && Crc(e) == 0
  {
    hide *;
    e := d + Le16(Crc(d));
    TailIsIgnored(d, Le16(Crc(d)), requireKeyhash);
    OwnCrcDrains(d, Le16(Crc(d)));
  }

  // ----- images built part by part -----

  datatype Tlv = Tlv(kind: uint16, value: seq<byte>)

  /** An entry the walk does not stop at. */
  predicate Sound(t: Tlv) {
    t.kind != 0 && 0 < |t.value| < TWO_16
  }

  function Entry(t: Tlv): seq<byte>
    requires Sound(t)
  {
    Le16(t.kind) + Le16(|t.value|) + t.value
  }

  function Entries(ts: seq<Tlv>): seq<byte>
    requires forall t | t in ts :: Sound(t)
  {
    if ts == [] then [] else Entry(ts[0]) + Entries(ts[1..])
  }

  predicate IsKeyhash(t: Tlv) {
    t.kind == IMG_TLV_KEYHASH && |t.value| == IMG_KEYHASH_LEN
  }

  /** The reference: the first KEYHASH entry of the list. */
  function FirstKeyhash(ts: seq<Tlv>): Option<seq<byte>> {
    if ts == [] then None
    else if IsKeyhash(ts[0]) then Some(ts[0].value)
    else FirstKeyhash(ts[1..])
  }

  lemma {:induction false} SomeKeyhash(ts: seq<Tlv>)
    ensures FirstKeyhash(ts).Some? <==> exists t :: t in ts && IsKeyhash(t)
  {
    if ts == [] {
    } else {
      SomeKeyhash(ts[1..]);
      assert ts[0] in ts && forall t :: t in ts <==> t == ts[0] || t in ts[1..];
    }
  }

  lemma NothingBehind(d: seq<byte>)
    ensures Keyhash(d, |d|) == None
  {
  }

  lemma EntryIsRead(pre: seq<byte>, t: Tlv, post: seq<byte>)
    requires Sound(t)
    ensures var d := pre + Entry(t) + post;
      && |d| == |pre| + TLV_HEAD + |t.value| + |post|
      && U16(d, |pre|) == t.kind && U16(d, |pre| + 2) == |t.value|
      && d[|pre| + TLV_HEAD..|pre| + TLV_HEAD + |t.value|] == t.value
  {
    var d := pre + Entry(t) + post;
    assert d[|pre|..|pre| + 2] == Le16(t.kind);
    assert d[|pre| + 2..|pre| + 4] == Le16(|t.value|);
    Le16RoundTrip(t.kind);
    Le16RoundTrip(|t.value|);
  }

  lemma OneEntry(pre: seq<byte>, t: Tlv, post: seq<byte>)
    requires Sound(t)
    ensures Keyhash(pre + Entry(t) + post, |pre|) ==
            if IsKeyhash(t) then Some(t.value) else Keyhash(pre + Entry(t) + post, |pre + Entry(t)|)
  {
    hide U16;
    EntryIsRead(pre, t, post);
  }

  /** The walk finds the first KEYHASH entry, wherever the list lies and whatever follows it. */
  lemma {:induction false} WalkFindsTheFirst(pre: seq<byte>, ts: seq<Tlv>, post: seq<byte>)
    requires forall t | t in ts :: Sound(t)
    ensures Keyhash(pre + Entries(ts) + post, |pre|) ==
            if FirstKeyhash(ts).Some? then FirstKeyhash(ts)
            else Keyhash(pre + Entries(ts) + post, |pre + Entries(ts)|)
    decreases |ts|
  {
    hide Keyhash, Entry, IsKeyhash;
    if ts == [] {
      assert pre + Entries(ts) == pre;
    } else {
      var e, rest := Entry(ts[0]), Entries(ts[1..]);
      assert pre + Entries(ts) + post == pre + e + (rest + post);
      OneEntry(pre, ts[0], rest + post);
      if !IsKeyhash(ts[0]) {
        assert pre + Entries(ts) == (pre + e) + rest;
        WalkFindsTheFirst(pre + e, ts[1..], post);
      }
    }
  }

  lemma InfoIsRead(pre: seq<byte>, post: seq<byte>)
    ensures U16(pre + Le16(IMG_TLV_INFO_MAGIC) + post, |pre|) == IMG_TLV_INFO_MAGIC
  {
    assert (pre + Le16(IMG_TLV_INFO_MAGIC) + post)[|pre|..|pre| + 2] == Le16(IMG_TLV_INFO_MAGIC);
    Le16RoundTrip(IMG_TLV_INFO_MAGIC);
  }

  // ----- which files are accepted at all -----

  /** The parts of a file; `rest` is everything behind the magic number of the TLV area. */
  datatype Layout = Layout(load: uint32, protectedSize: uint16, version: seq<byte>, pad: seq<byte>, body: seq<byte>,
                           rest: seq<byte>)

  predicate Fits(l: Layout) {
    && |l.version| == 16 && |l.pad| % 4 == 0 && 32 + |l.pad| < TWO_16 && |l.body| < TWO_32
    && |l.rest| >= 2
  }

  function Front(l: Layout): seq<byte>
    requires Fits(l)
  {
    Le32(0x96F3B83D) + Le32(l.load) + Le16(32 + |l.pad|) + Le16(l.protectedSize) + Le32(|l.body|) + l.version + l.pad
    + l.body
  }

  function Laid(l: Layout): seq<byte>
    requires Fits(l)
  {
    Front(l) + [0x07, 0x69] + l.rest
  }

  lemma FrontIsRead(l: Layout)
    requires Fits(l)
    ensures var d := Front(l);
      && |d| == 32 + |l.pad| + |l.body| && U32(d, 0) == 0x96F3B83D
      && U16(d, 8) == 32 + |l.pad| && U32(d, 12) == |l.body|
  {
    var d := Front(l);
    assert d[0..4] == Le32(0x96F3B83D) && d[8..10] == Le16(32 + |l.pad|) && d[12..16] == Le32(|l.body|);
    Le32RoundTrip(0x96F3B83D);
    Le16RoundTrip(32 + |l.pad|);
    Le32RoundTrip(|l.body|);
    hide Le32, Le16;
  }

  lemma LaidIsWellFormed(l: Layout)
    requires Fits(l)
    ensures WellFormed(Laid(l)) && TlvStart(Laid(l)) == 32 + |l.pad| + |l.body|
  {
    hide U16, U32, Front;
    FrontIsRead(l);
    assert Laid(l) == Front(l) + ([0x07, 0x69] + l.rest);
    SameFields(Front(l), [0x07, 0x69] + l.rest);
    assert Le16(IMG_TLV_INFO_MAGIC) == [0x07, 0x69];
    InfoIsRead(Front(l), l.rest);
  }

  lemma AreaIsTheEnd(l: Layout)
    requires Fits(l)
    ensures var d := Laid(l);
      WellFormed(d) && TlvStart(d) + TLV_HEAD <= |d| && d[TlvStart(d) + TLV_HEAD..] == l.rest[2..]
  {
    LaidIsWellFormed(l);
    FrontIsRead(l);
    hide Front, U16, U32;
  }

  /**
    A file laid out like this with the list ts of entries has the key hash of its first KEYHASH entry, and is
    accepted unless a key hash is required and there is none.
   */
  lemma BuiltIsAccepted(l: Layout, total: uint16, ts: seq<Tlv>)
    requires Fits(l) && (forall t | t in ts :: Sound(t)) && l.rest == Le16(total) + Entries(ts)
    ensures KeyhashOf(Laid(l)) == FirstKeyhash(ts)
    ensures forall require: bool :: Accepts(Laid(l), require) <==> (require ==> exists t :: t in ts && IsKeyhash(t))
  {
    hide Entries, Keyhash, IsKeyhash, FirstKeyhash, Laid, TlvStart, U16, U32;
    AreaIsTheEnd(l);
    assert l.rest[2..] == Entries(ts);
    WalkOfTheRest(Laid(l), TlvStart(Laid(l)) + TLV_HEAD, ts);
    SomeKeyhash(ts);
  }

  lemma WalkOfTheRest(d: seq<byte>, off: nat, ts: seq<Tlv>)
    requires off <= |d| && (forall t | t in ts :: Sound(t)) && d[off..] == Entries(ts)
    ensures Keyhash(d, off) == FirstKeyhash(ts)
  {
    NothingBehind(d);
    hide *;
    assert d == d[..off] + Entries(ts) + [] && d == d[..off] + Entries(ts);
    WalkFindsTheFirst(d[..off], ts, []);
  }

  lemma HeaderParts(d: seq<byte>)
    requires |d| >= 32 && U32(d, 0) == IMG_MAGIC
    ensures d[..32] == Le32(0x96F3B83D) + Le32(U32(d, 4)) + Le16(U16(d, 8)) + Le16(U16(d, 10)) + Le32(U32(d, 12))
                       + d[16..32]
  {
    FromLe32RoundTrip(d[0..4]);
    FromLe32RoundTrip(d[4..8]);
    FromLe16RoundTrip(d[8..10]);
    FromLe16RoundTrip(d[10..12]);
    FromLe32RoundTrip(d[12..16]);
    hide Le32, Le16, FromLe32, FromLe16;
    assert d[..32] == d[0..4] + d[4..8] + d[8..10] + d[10..12] + d[12..16] + d[16..32];
  }

  lemma PartsOf(d: seq<byte>) returns (l: Layout)
    requires WellFormed(d)
    ensures Fits(l) && d == Laid(l)
  {
    hide WellFormed, TlvStart, U16, U32, Le16, Le32, Front, Laid;
    Bounds(d);
    var head, info := U16(d, 8), TlvStart(d);
    l := Layout(U32(d, 4), U16(d, 10), d[16..32], d[32..head], d[head..info], d[info + 2..]);
    HeaderParts(d);
    InfoBytes(d, info);
    InFiveParts(d, head, info);
    LaidIs(l, d[..32]);
  }

  lemma Bounds(d: seq<byte>)
    requires WellFormed(d)
    ensures |d| >= 32 && U32(d, 0) == IMG_MAGIC && U16(d, 8) % 4 == 0
    ensures 32 <= U16(d, 8) <= TlvStart(d) <= |d| - 4 && TlvStart(d) - U16(d, 8) == U32(d, 12)
    ensures U16(d, TlvStart(d)) == IMG_TLV_INFO_MAGIC
  {
  }

  lemma LaidIs(l: Layout, header: seq<byte>)
    requires Fits(l)
    requires header == Le32(0x96F3B83D) + Le32(l.load) + Le16(32 + |l.pad|) + Le16(l.protectedSize) + Le32(|l.body|)
                       + l.version
    ensures Laid(l) == header + l.pad + l.body + [0x07, 0x69] + l.rest
  {
    hide Le32, Le16;
  }

  lemma InFiveParts(d: seq<byte>, head: nat, info: nat)
    requires 32 <= head <= info <= info + 2 <= |d|
    ensures d == d[..32] + d[32..head] + d[head..info] + d[info..info + 2] + d[info + 2..]
  {
  }

  lemma InfoBytes(d: seq<byte>, off: nat)
    requires off + 2 <= |d| && U16(d, off) == IMG_TLV_INFO_MAGIC
    ensures d[off..off + 2] == [0x07, 0x69]
  {
    FromLe16RoundTrip(d[off..off + 2]);
  }

  /** A file is well-formed exactly when it is laid out like this. */
  lemma WellFormedIff(d: seq<byte>)
    ensures WellFormed(d) <==> exists l :: Fits(l) && d == Laid(l)
  {
    if WellFormed(d) {
      var l := PartsOf(d);
    }
    if l :| Fits(l) && d == Laid(l) {
      LaidIsWellFormed(l);
    }
  }

  /** The entries of a TLV area up to its first KEYHASH entry, which has value v. */
  ghost predicate Leads(area: seq<byte>, ts: seq<Tlv>, v: seq<byte>)
  {
    && |v| == 32 && (forall t | t in ts :: Sound(t) && !IsKeyhash(t))
    && Entries(ts) + Entry(Tlv(1, v)) <= area
  }

  lemma FirstEntryOf(d: seq<byte>, off: nat) returns (t: Tlv)
    requires Keyhash(d, off).Some?
    ensures Sound(t) && off + |Entry(t)| <= |d| && d[off..off + |Entry(t)|] == Entry(t)
    ensures if IsKeyhash(t) then Keyhash(d, off) == Some(t.value) else Keyhash(d, off) == Keyhash(d, off + |Entry(t)|)
  {
    var kind, len := U16(d, off), U16(d, off + 2);
    t := Tlv(kind, d[off + TLV_HEAD..off + TLV_HEAD + len]);
    FromLe16RoundTrip(d[off..off + 2]);
    FromLe16RoundTrip(d[off + 2..off + 4]);
    assert d[off..off + TLV_HEAD + len] == d[off..off + 2] + d[off + 2..off + 4] + t.value;
  }

  lemma EntryLength(t: Tlv)
    requires Sound(t)
    ensures |Entry(t)| == TLV_HEAD + |t.value|
  {
  }

  lemma {:induction false} LeadingEntries(d: seq<byte>, off: nat) returns (ts: seq<Tlv>)
    requires Keyhash(d, off).Some?
    ensures off <= |d| && Leads(d[off..], ts, Keyhash(d, off).value)
    decreases |d| - off
  {
    hide Keyhash, Entry, U16;
    var t := FirstEntryOf(d, off);
    EntryLength(t);
    if IsKeyhash(t) {
      ts := [];
      assert Entries(ts) + Entry(t) == Entry(t);
    } else {
      var rest := LeadingEntries(d, off + |Entry(t)|);
      ts := [t] + rest;
      assert ts[1..] == rest;
      assert d[off..] == Entry(t) + d[off + |Entry(t)|..];
    }
  }

  lemma LedTo(d: seq<byte>, off: nat, ts: seq<Tlv>, v: seq<byte>)
    requires off <= |d| && Leads(d[off..], ts, v)
    ensures Keyhash(d, off) == Some(v)
  {
    hide Keyhash, Entry;
    var all := ts + [Tlv(1, v)];
    EntriesMore(ts, Tlv(1, v));
    FirstOfAll(ts, Tlv(1, v));
    var post := d[off + |Entries(all)|..];
    assert d == d[..off] + Entries(all) + post;
    WalkFindsTheFirst(d[..off], all, post);
  }

  lemma {:induction false} EntriesMore(ts: seq<Tlv>, t: Tlv)
    requires (forall u | u in ts :: Sound(u)) && Sound(t)
    ensures Entries(ts + [t]) == Entries(ts) + Entry(t)
  {
    hide Entry;
    if ts == [] {
    } else {
      EntriesMore(ts[1..], t);
      assert (ts + [t])[1..] == ts[1..] + [t];
    }
  }

  lemma {:induction false} FirstOfAll(ts: seq<Tlv>, t: Tlv)
    requires (forall u | u in ts :: !IsKeyhash(u)) && IsKeyhash(t)
    ensures FirstKeyhash(ts + [t]) == Some(t.value)
  {
    if ts == [] {
    } else {
      FirstOfAll(ts[1..], t);
      assert (ts + [t])[1..] == ts[1..] + [t];
    }
  }

  /**
    Which files are accepted, exactly: those laid out as above and, if a key hash is required, whose TLV area
    has sound entries up to a KEYHASH entry. All others are refused.
   */
  lemma AcceptedIff(d: seq<byte>, requireKeyhash: bool)
    ensures Accepts(d, requireKeyhash) <==>
            exists l :: Fits(l) && d == Laid(l) && (requireKeyhash ==> exists ts, v :: Leads(l.rest[2..], ts, v))
    ensures forall l | Fits(l) && d == Laid(l) ::
              forall ts, v | Leads(l.rest[2..], ts, v) :: KeyhashOf(d) == Some(v)
  {
    hide Keyhash, Leads, Laid;
    if WellFormed(d) {
      var l := PartsOf(d);
      AreaIsTheEnd(l);
      if KeyhashOf(d).Some? {
        var ts := LeadingEntries(d, TlvStart(d) + TLV_HEAD);
      }
    }
    forall l | Fits(l) && d == Laid(l)
      ensures WellFormed(d)
      ensures forall ts, v | Leads(l.rest[2..], ts, v) :: KeyhashOf(d) == Some(v)
    {
      LaidIsWellFormed(l);
      AreaIsTheEnd(l);
      forall ts, v | Leads(l.rest[2..], ts, v)
        ensures KeyhashOf(d) == Some(v)
      {
        LedTo(d, TlvStart(d) + TLV_HEAD, ts, v);
      }
    }
  }

  /** An image of 38 bytes that the tool accepts with --no-keyhash and whose CRC is 0. */
  lemma SmallestWithCrcZero() returns (d: Image)
    ensures |d| == HEADER_LEN + TLV_HEAD + 2 && Accepts(d, false) && Crc(d) == 0
  {
    hide Crc;
    var rest: seq<byte> := seq(16, _ => 0);
    var l := Layout(0, 0, rest, [], [], Le16(TLV_HEAD));
    LaidIsWellFormed(l);
    d := AcceptedWithCrcZero(Laid(l), false);
  }
}
