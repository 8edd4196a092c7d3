/** The CBOR encoder and decoder of the SMP client (RFC 8949, sections 3.1 to 3.3). */
module Cbor {
  import opened Bytes
  import opened Wrappers

  const BREAK: byte := 0xFF

  /**
    A data item. `open` records that its sender framed a list or a map without announcing its
    length; Python's own values, and everything the decoder returns, have no open part.
    Text is held as its UTF-8 bytes. The last two are Python values that only the encoder meets: the
    negative integers, and objects of any other type.
   */
  datatype Item =
    | UInt(n: nat)
    | Blob(bytes: seq<byte>)
    | Text(utf8: seq<byte>)
    | List(items: seq<Item>, open: bool)
    | Dict(entries: seq<Entry>, open: bool)
    | Bool(b: bool)
    | Null
    | Negative(minusOneLess: nat)
    | Unsupported(id: nat)

  datatype Entry = Entry(key: Item, val: Item)

  // ----- Python dictionaries -----

  /** Lists and dictionaries are not hashable. */
  predicate Hashable(k: Item) {
    !k.List? && !k.Dict?
  }

  /** Key equality as Python has it: True and 1 are the same key. */
  predicate SameKey(a: Item, b: Item) {
    a == b
    || (a.Bool? && b.UInt? && b.n == if a.b then 1 else 0)
    || (b.Bool? && a.UInt? && a.n == if b.b then 1 else 0)
  }

  /** out[k] = v: an equal key keeps its place and its first spelling. */
  function Put(out: seq<Entry>, k: Item, v: Item): (r: seq<Entry>)
  {
    if out == [] then [Entry(k, v)]
    else if SameKey(out[0].key, k) then [Entry(out[0].key, v)] + out[1..]
    else [out[0]] + Put(out[1..], k, v)
  }

  predicate DistinctKeys(entries: seq<Entry>) {
    forall i, j | 0 <= i < j < |entries| :: !SameKey(entries[i].key, entries[j].key)
  }

  // ----- encoding -----

  function Be(width: nat, value: nat): (r: seq<byte>)
    ensures |r| == width
  {
    if width == 0 then [] else Be(width - 1, value / 0x100) + [value % 0x100]
  }

  /** int.from_bytes(..., "big"). */
  function FromBe(s: seq<byte>): nat {
    if s == [] then 0 else FromBe(s[..|s| - 1]) * 0x100 + s[|s| - 1]
  }

  /** cbor_uint. */
  function Head(major: nat, value: nat): (r: seq<byte>)
    requires major < 8 && value < TWO_32
    ensures |r| >= 1 && r[0] / 32 == major && r[0] % 32 <= 26
  {
    if value < 24 then [major * 32 + value]
    else if value < 0x100 then [major * 32 + 24, value]
    else if value < 0x1_0000 then [major * 32 + 25] + Be(2, value)
    else [major * 32 + 26] + Be(4, value)
  }

  /** What the encoder accepts: supported types, sizes and numbers that fit 32 bits, and real dictionaries. */
  predicate Encodable(v: Item)
    decreases v
  {
    match v
    case UInt(n) => n < TWO_32
    case Blob(s) => |s| < TWO_32
    case Text(s) => |s| < TWO_32
    case List(items, _) => |items| < TWO_32 && forall i | 0 <= i < |items| :: Encodable(items[i])
    case Dict(entries, _) =>
      && |entries| < TWO_32 && DistinctKeys(entries)
      && forall i | 0 <= i < |entries| ::
           Hashable(entries[i].key) && Encodable(entries[i].key) && Encodable(entries[i].val)
    case Negative(_) => false
    case Unsupported(_) => false
    case _ => true
  }

  /** The bytes of an item, each list and map in the form its `open` mark asks for. */
  function Wire(v: Item): (r: seq<byte>)
    requires Encodable(v)
    ensures |r| >= 1 && r[0] != BREAK
    decreases v, 1
  {
    match v
    case UInt(n) => Head(0, n)
    case Blob(s) => Head(2, |s|) + s
    case Text(s) => Head(3, |s|) + s
    case List(items, open) =>
      if open then [0x9F] + WireItems(items) + [BREAK] else Head(4, |items|) + WireItems(items)
    case Dict(entries, open) =>
      if open then [0xBF] + WireEntries(entries) + [BREAK] else Head(5, |entries|) + WireEntries(entries)
    case Bool(b) => [if b then 0xF5 else 0xF4]
    case Null => [0xF6]
  }

  function WireItems(items: seq<Item>): seq<byte>
    requires forall i | 0 <= i < |items| :: Encodable(items[i])
    decreases items, 0
  {
    if items == [] then [] else Wire(items[0]) + WireItems(items[1..])
  }

  function WireEntries(entries: seq<Entry>): seq<byte>
    requires forall i | 0 <= i < |entries| :: Encodable(entries[i].key) && Encodable(entries[i].val)
    decreases entries, 0
  {
    if entries == [] then [] else WireEntry(entries[0]) + WireEntries(entries[1..])
  }

  function WireEntry(e: Entry): (r: seq<byte>)
    requires Encodable(e.key) && Encodable(e.val)
    decreases e, 0
  {
    Wire(e.key) + Wire(e.val)
  }

  // ----- decoding -----

  datatype Error = IndexError | ValueError | TypeError

  datatype Decoded<T> = Ok(value: T, pos: nat) | Err(error: Error)

  /** buf[a:b], which Python cuts at the end of the buffer. */
  function Slice(buf: seq<byte>, a: nat, n: nat): seq<byte> {
    if a >= |buf| then [] else buf[a..Min(a + n, |buf|)]
  }

  function ReadLen(buf: seq<byte>, info: nat, pos: nat): (r: Decoded<nat>)
    ensures r.Ok? ==> r.pos >= pos
  {
    if info < 24 then Ok(info, pos)
    else if info == 24 then
      if pos < |buf| then Ok(buf[pos], pos + 1) else Err(IndexError)
    else if info == 25 then Ok(FromBe(Slice(buf, pos, 2)), pos + 2)
    else if info == 26 then Ok(FromBe(Slice(buf, pos, 4)), pos + 4)
    else if info == 27 then Ok(FromBe(Slice(buf, pos, 8)), pos + 8)
    else Err(ValueError)
  }

  function Left(buf: seq<byte>, pos: nat): nat {
    if pos < |buf| then |buf| - pos else 0
  }

  /** cbor_decode. */
  function Decode(buf: seq<byte>, pos: nat): (r: Decoded<Item>)
    ensures r.Ok? ==> pos < |buf| && r.pos > pos
    decreases Left(buf, pos), 0
  {
    if pos >= |buf| then Err(IndexError)
    else
      var major, info := buf[pos] / 32, buf[pos] % 32;
      var p := pos + 1;
      if major == 0 then
        (match ReadLen(buf, info, p)
         case Err(e) => Err(e)
         case Ok(n, p) => Ok(UInt(n), p))
      else if major == 2 || major == 3 then
        (match ReadLen(buf, info, p)
         case Err(e) => Err(e)
         case Ok(n, p) => Ok(if major == 2 then Blob(Slice(buf, p, n)) else Text(Slice(buf, p, n)), p + n))
      else if major == 4 then
        (match if info == 31 then DecodeOpenItems(buf, p, []) else
               (match ReadLen(buf, info, p) case Err(e) => Err(e) case Ok(n, p) => DecodeItems(buf, p, n, []))
         case Err(e) => Err(e)
         case Ok(items, p) => Ok(List(items, false), p))
      else if major == 5 then
        (match if info == 31 then DecodeOpenEntries(buf, p, []) else
               (match ReadLen(buf, info, p) case Err(e) => Err(e) case Ok(n, p) => DecodeEntries(buf, p, n, []))
         case Err(e) => Err(e)
         case Ok(entries, p) => Ok(Dict(entries, false), p))
      else if major == 7 && info == 20 then Ok(Bool(false), p)
      else if major == 7 && info == 21 then Ok(Bool(true), p)
      else if major == 7 && info == 22 then Ok(Null, p)
      else Err(ValueError)
  }

  /** `n` more items of a list. */
  function DecodeItems(buf: seq<byte>, pos: nat, n: nat, out: seq<Item>): (r: Decoded<seq<Item>>)
    ensures r.Ok? ==> r.pos >= pos
    decreases Left(buf, pos), 1
  {
    if n == 0 then Ok(out, pos)
    else
      match Decode(buf, pos)
      case Err(e) => Err(e)
      case Ok(v, p) => DecodeItems(buf, p, n - 1, out + [v])
  }

  function DecodeOpenItems(buf: seq<byte>, pos: nat, out: seq<Item>): (r: Decoded<seq<Item>>)
    ensures r.Ok? ==> r.pos >= pos
    decreases Left(buf, pos), 1
  {
    if pos >= |buf| then Err(IndexError)
    else if buf[pos] == BREAK then Ok(out, pos + 1)
    else
      match Decode(buf, pos)
      case Err(e) => Err(e)
      case Ok(v, p) => DecodeOpenItems(buf, p, out + [v])
  }

  /** One key and its value, put into the dictionary so far. */
  function DecodeEntry(buf: seq<byte>, pos: nat, out: seq<Entry>): (r: Decoded<seq<Entry>>)
    ensures r.Ok? ==> pos < |buf| && r.pos > pos
    decreases Left(buf, pos), 1
  {
    match Decode(buf, pos)
    case Err(e) => Err(e)
    case Ok(k, p) =>
      match Decode(buf, p)
      case Err(e) => Err(e)
      case Ok(v, p) => if Hashable(k) then Ok(Put(out, k, v), p) else Err(TypeError)
  }

  function DecodeEntries(buf: seq<byte>, pos: nat, n: nat, out: seq<Entry>): (r: Decoded<seq<Entry>>)
    ensures r.Ok? ==> r.pos >= pos
    decreases Left(buf, pos), 2
  {
    if n == 0 then Ok(out, pos)
    else
      match DecodeEntry(buf, pos, out)
      case Err(e) => Err(e)
      case Ok(out, p) => DecodeEntries(buf, p, n - 1, out)
  }

  function DecodeOpenEntries(buf: seq<byte>, pos: nat, out: seq<Entry>): (r: Decoded<seq<Entry>>)
    ensures r.Ok? ==> r.pos >= pos
    decreases Left(buf, pos), 2
  {
    if pos >= |buf| then Err(IndexError)
    else if buf[pos] == BREAK then Ok(out, pos + 1)
    else
      match DecodeEntry(buf, pos, out)
      case Err(e) => Err(e)
      case Ok(out, p) => DecodeOpenEntries(buf, p, out)
  }

  // ----- decoding undoes encoding -----

  /** The value an item stands for: the same item with no open lists or maps. */
  function Closed(v: Item): Item
    decreases v, 1
  {
    match v
    case List(items, _) => List(ClosedItems(items), false)
    case Dict(entries, _) => Dict(ClosedEntries(entries), false)
    case _ => v
  }

  function ClosedItems(items: seq<Item>): (r: seq<Item>)
    ensures |r| == |items|
    decreases items, 0
  {
    if items == [] then [] else [Closed(items[0])] + ClosedItems(items[1..])
  }

  function ClosedEntries(entries: seq<Entry>): (r: seq<Entry>)
    ensures |r| == |entries|
    decreases entries, 0
  {
    if entries == [] then [] else [ClosedEntry(entries[0])] + ClosedEntries(entries[1..])
  }

  function ClosedEntry(e: Entry): Entry
    decreases e, 0
  {
    Entry(Closed(e.key), Closed(e.val))
  }

  /** The bytes `w` stand in `buf` at `pos`. */
  predicate At(buf: seq<byte>, pos: nat, w: seq<byte>) {
    pos + |w| <= |buf| && buf[pos..pos + |w|] == w
  }

  lemma AtBoth(buf: seq<byte>, pos: nat, a: seq<byte>, b: seq<byte>)
    requires At(buf, pos, a + b)
    ensures At(buf, pos, a) && At(buf, pos + |a|, b)
  {
    assert buf[pos..pos + |a|] == (a + b)[..|a|];
    assert buf[pos + |a|..pos + |a| + |b|] == (a + b)[|a|..];
  }

  lemma StartsAt(buf: seq<byte>, pos: nat, w: seq<byte>)
    requires w != [] && At(buf, pos, w)
    ensures pos < |buf| && buf[pos] == w[0]
  {
    assert buf[pos] == buf[pos..pos + |w|][0];
  }

  lemma {:induction false} FromBeOfBe(width: nat, value: nat)
    requires width <= 4 && value < (if width == 4 then TWO_32 else if width == 3 then 0x100_0000 else
                                    if width == 2 then TWO_16 else if width == 1 then 0x100 else 1)
    ensures FromBe(Be(width, value)) == value
  {
    if width == 0 {
    } else {
      FromBeOfBe(width - 1, value / 0x100);
      assert Be(width, value)[..width - 1] == Be(width - 1, value / 0x100);
    }
  }

  /** A length or a number is read back from its head. */
  lemma ReadHead(buf: seq<byte>, pos: nat, major: nat, value: nat)
    requires major < 8 && value < TWO_32 && At(buf, pos, Head(major, value))
    ensures pos < |buf| && buf[pos] / 32 == major && buf[pos] % 32 <= 26
    ensures ReadLen(buf, buf[pos] % 32, pos + 1) == Ok(value, pos + |Head(major, value)|)
  {
    var h := Head(major, value);
    StartsAt(buf, pos, h);
    if value < 24 {
    } else if value < 0x100 {
      assert buf[pos + 1] == buf[pos..pos + |h|][1] == h[1];
    } else if value < 0x1_0000 {
      AtBoth(buf, pos, [major * 32 + 25], Be(2, value));
      FromBeOfBe(2, value);
    } else {
      AtBoth(buf, pos, [major * 32 + 26], Be(4, value));
      FromBeOfBe(4, value);
    }
  }

  lemma {:induction false} PutNewKey(out: seq<Entry>, k: Item, v: Item)
    requires forall i | 0 <= i < |out| :: !SameKey(out[i].key, k)
    ensures Put(out, k, v) == out + [Entry(k, v)]
  {
    if out == [] {
    } else {
      PutNewKey(out[1..], k, v);
      assert out == [out[0]] + out[1..];
    }
  }

  lemma DecodeLeaf(buf: seq<byte>, pos: nat, v: Item)
    requires Encodable(v) && At(buf, pos, Wire(v)) && !v.List? && !v.Dict?
    ensures Decode(buf, pos) == Ok(v, pos + |Wire(v)|)
  {
    hide Head;
    hide ReadLen;
    match v
    case UInt(n) => ReadHead(buf, pos, 0, n);
    case Blob(s) =>
      AtBoth(buf, pos, Head(2, |s|), s);
      ReadHead(buf, pos, 2, |s|);
    case Text(s) =>
      AtBoth(buf, pos, Head(3, |s|), s);
      ReadHead(buf, pos, 3, |s|);
    case Bool(_) => StartsAt(buf, pos, Wire(v));
    case Null => StartsAt(buf, pos, Wire(v));
  }

  lemma OpenFrame(buf: seq<byte>, pos: nat, first: byte, body: seq<byte>)
    requires At(buf, pos, [first] + body + [BREAK])
    ensures pos < |buf| && buf[pos] == first && At(buf, pos + 1, body)
    ensures pos + 1 + |body| < |buf| && buf[pos + 1 + |body|] == BREAK
  {
    AtBoth(buf, pos, [first] + body, [BREAK]);
    AtBoth(buf, pos, [first], body);
    StartsAt(buf, pos, [first]);
    StartsAt(buf, pos + 1 + |body|, [BREAK]);
  }

  lemma DecodeList(buf: seq<byte>, pos: nat, v: Item)
    requires v.List? && Encodable(v) && At(buf, pos, Wire(v))
    ensures Decode(buf, pos) == Ok(Closed(v), pos + |Wire(v)|)
    decreases v, 3
  {
    hide Head;
    hide ReadLen;
    var items := v.items;
    if v.open {
      OpenFrame(buf, pos, 0x9F, WireItems(items));
      DecodeWireOpenItems(buf, pos + 1, items, []);
      assert [] + ClosedItems(items) == ClosedItems(items);
    } else {
      AtBoth(buf, pos, Head(4, |items|), WireItems(items));
      ReadHead(buf, pos, 4, |items|);
      DecodeWireItems(buf, pos + |Head(4, |items|)|, items, []);
      assert [] + ClosedItems(items) == ClosedItems(items);
    }
  }

  lemma DecodeDict(buf: seq<byte>, pos: nat, v: Item)
    requires v.Dict? && Encodable(v) && At(buf, pos, Wire(v))
    ensures Decode(buf, pos) == Ok(Closed(v), pos + |Wire(v)|)
    decreases v, 3
  {
    hide Head;
    hide ReadLen;
    var entries := v.entries;
    if v.open {
      OpenFrame(buf, pos, 0xBF, WireEntries(entries));
      DecodeWireOpenEntries(buf, pos + 1, entries, []);
      assert [] + ClosedEntries(entries) == ClosedEntries(entries);
    } else {
      AtBoth(buf, pos, Head(5, |entries|), WireEntries(entries));
      ReadHead(buf, pos, 5, |entries|);
      DecodeWireEntries(buf, pos + |Head(5, |entries|)|, entries, []);
      assert [] + ClosedEntries(entries) == ClosedEntries(entries);
    }
  }

  /** Wherever an item's bytes stand, decoding there gives its value and the position just past them. */
  lemma {:induction false} DecodeWire(buf: seq<byte>, pos: nat, v: Item)
    requires Encodable(v) && At(buf, pos, Wire(v))
    ensures Decode(buf, pos) == Ok(Closed(v), pos + |Wire(v)|)
    decreases v, 4
  {
    hide Wire;
    hide Decode;
    match v
    case List(_, _) => DecodeList(buf, pos, v);
    case Dict(_, _) => DecodeDict(buf, pos, v);
    case _ => DecodeLeaf(buf, pos, v);
  }

  lemma Shift<T>(out: seq<T>, x: T, rest: seq<T>)
    ensures out + ([x] + rest) == out + [x] + rest
    ensures out + [] == out
  {
  }

  lemma NoItems(buf: seq<byte>, pos: nat, out: seq<Item>)
    ensures WireItems([]) == [] && out + ClosedItems([]) == out
    ensures DecodeItems(buf, pos, 0, out) == Ok(out, pos)
    ensures pos < |buf| && buf[pos] == BREAK ==> DecodeOpenItems(buf, pos, out) == Ok(out, pos + 1)
  {
  }

  lemma NoEntries(buf: seq<byte>, pos: nat, out: seq<Entry>)
    ensures WireEntries([]) == [] && out + ClosedEntries([]) == out
    ensures DecodeEntries(buf, pos, 0, out) == Ok(out, pos)
    ensures pos < |buf| && buf[pos] == BREAK ==> DecodeOpenEntries(buf, pos, out) == Ok(out, pos + 1)
  {
  }

  /** Decoding one item moves the rest of the list one place up. */
  lemma FirstItem(buf: seq<byte>, pos: nat, items: seq<Item>, out: seq<Item>)
    requires items != [] && forall i | 0 <= i < |items| :: Encodable(items[i])
    requires At(buf, pos, WireItems(items))
    ensures var w := Wire(items[0]);
            && At(buf, pos, w) && At(buf, pos + |w|, WireItems(items[1..]))
            && |WireItems(items)| == |w| + |WireItems(items[1..])|
            && out + ClosedItems(items) == out + [Closed(items[0])] + ClosedItems(items[1..])
            && pos < |buf| && buf[pos] != BREAK
  {
    hide Wire;
    hide Closed;
    hide Encodable;
    AtBoth(buf, pos, Wire(items[0]), WireItems(items[1..]));
    StartsAt(buf, pos, Wire(items[0]));
    Shift(out, Closed(items[0]), ClosedItems(items[1..]));
  }

  lemma FirstEntry(buf: seq<byte>, pos: nat, entries: seq<Entry>, out: seq<Entry>)
    requires entries != [] && Pairs(entries)
    requires At(buf, pos, WireEntries(entries))
    ensures var w := WireEntry(entries[0]);
            && At(buf, pos, w) && At(buf, pos + |w|, WireEntries(entries[1..]))
            && |WireEntries(entries)| == |w| + |WireEntries(entries[1..])|
            && out + ClosedEntries(entries) == out + [ClosedEntry(entries[0])] + ClosedEntries(entries[1..])
            && pos < |buf| && buf[pos] != BREAK
  {
    hide Encodable;
    hide Hashable;
    hide ClosedEntry;
    AtBoth(buf, pos, WireEntry(entries[0]), WireEntries(entries[1..]));
    WireEntryStart(entries[0]);
    hide WireEntry;
    StartsAt(buf, pos, WireEntry(entries[0]));
    Shift(out, ClosedEntry(entries[0]), ClosedEntries(entries[1..]));
  }

  lemma OneMoreItem(buf: seq<byte>, pos: nat, n: nat, out: seq<Item>, v: Item, p: nat)
    requires Decode(buf, pos) == Ok(v, p)
    ensures DecodeItems(buf, pos, n + 1, out) == DecodeItems(buf, p, n, out + [v])
    ensures pos < |buf| && buf[pos] != BREAK ==> DecodeOpenItems(buf, pos, out) == DecodeOpenItems(buf, p, out + [v])
  {
    hide Decode;
  }

  lemma {:induction false} DecodeWireItems(buf: seq<byte>, pos: nat, items: seq<Item>, out: seq<Item>)
    requires forall i | 0 <= i < |items| :: Encodable(items[i])
    requires At(buf, pos, WireItems(items))
    ensures DecodeItems(buf, pos, |items|, out) == Ok(out + ClosedItems(items), pos + |WireItems(items)|)
    decreases items, 2
  {
    hide *;
    if items == [] {
      NoItems(buf, pos, out);
    } else {
      FirstItem(buf, pos, items, out);
      DecodeWire(buf, pos, items[0]);
      var v, p := Closed(items[0]), pos + |Wire(items[0])|;
      OneMoreItem(buf, pos, |items| - 1, out, v, p);
      DecodeWireItems(buf, p, items[1..], out + [v]);
    }
  }

  lemma {:induction false} DecodeWireOpenItems(buf: seq<byte>, pos: nat, items: seq<Item>, out: seq<Item>)
    requires forall i | 0 <= i < |items| :: Encodable(items[i])
    requires At(buf, pos, WireItems(items))
    requires pos + |WireItems(items)| < |buf| && buf[pos + |WireItems(items)|] == BREAK
    ensures DecodeOpenItems(buf, pos, out) == Ok(out + ClosedItems(items), pos + |WireItems(items)| + 1)
    decreases items, 2
  {
    hide *;
    if items == [] {
      NoItems(buf, pos, out);
    } else {
      FirstItem(buf, pos, items, out);
      DecodeWire(buf, pos, items[0]);
      var v, p := Closed(items[0]), pos + |Wire(items[0])|;
      OneMoreItem(buf, pos, |items| - 1, out, v, p);
      DecodeWireOpenItems(buf, p, items[1..], out + [v]);
    }
  }

  /** The keys still to come are new to the dictionary so far. */
  predicate NewKeys(out: seq<Entry>, entries: seq<Entry>) {
    forall i, j | 0 <= i < |out| && 0 <= j < |entries| :: !SameKey(out[i].key, entries[j].key)
  }

  predicate Pairs(entries: seq<Entry>) {
    forall i | 0 <= i < |entries| ::
      Hashable(entries[i].key) && Encodable(entries[i].key) && Encodable(entries[i].val)
  }

  lemma {:induction false} DecodeWireEntry(buf: seq<byte>, pos: nat, e: Entry, out: seq<Entry>)
    requires Hashable(e.key) && Encodable(e.key) && Encodable(e.val)
    requires At(buf, pos, WireEntry(e))
    requires forall i | 0 <= i < |out| :: !SameKey(out[i].key, e.key)
    ensures DecodeEntry(buf, pos, out) == Ok(out + [ClosedEntry(e)], pos + |WireEntry(e)|)
    decreases e, 2
  {
    hide Decode;
    hide Wire;
    AtBoth(buf, pos, Wire(e.key), Wire(e.val));
    DecodeWire(buf, pos, e.key);
    DecodeWire(buf, pos + |Wire(e.key)|, e.val);
    PutNewKey(out, e.key, Closed(e.val));
  }

  /** Taking the first entry over into the dictionary leaves the rest in order. */
  lemma OneKeyLess(entries: seq<Entry>, out: seq<Entry>)
    requires entries != [] && Pairs(entries) && DistinctKeys(entries) && NewKeys(out, entries)
    ensures Pairs(entries[1..]) && DistinctKeys(entries[1..])
    ensures NewKeys(out + [ClosedEntry(entries[0])], entries[1..])
    ensures forall i | 0 <= i < |out| :: !SameKey(out[i].key, entries[0].key)
    ensures Hashable(entries[0].key) && Encodable(entries[0].key) && Encodable(entries[0].val)
  {
    ClosedKey(entries[0]);
    hide SameKey;
    hide Encodable;
    hide Hashable;
    hide ClosedEntry;
  }

  lemma ClosedKey(e: Entry)
    requires Hashable(e.key)
    ensures ClosedEntry(e).key == e.key
  {
  }

  lemma WireEntryStart(e: Entry)
    requires Encodable(e.key) && Encodable(e.val)
    ensures |WireEntry(e)| >= 1 && WireEntry(e)[0] != BREAK
  {
    hide Wire;
  }

  lemma OneMoreEntry(buf: seq<byte>, pos: nat, n: nat, out: seq<Entry>, more: seq<Entry>, p: nat)
    requires DecodeEntry(buf, pos, out) == Ok(more, p)
    ensures DecodeEntries(buf, pos, n + 1, out) == DecodeEntries(buf, p, n, more)
    ensures pos < |buf| && buf[pos] != BREAK ==> DecodeOpenEntries(buf, pos, out) == DecodeOpenEntries(buf, p, more)
  {
    hide DecodeEntry;
  }

  lemma {:induction false} DecodeWireEntries(buf: seq<byte>, pos: nat, entries: seq<Entry>, out: seq<Entry>)
    requires Pairs(entries) && DistinctKeys(entries) && NewKeys(out, entries)
    requires At(buf, pos, WireEntries(entries))
    ensures DecodeEntries(buf, pos, |entries|, out) ==
            Ok(out + ClosedEntries(entries), pos + |WireEntries(entries)|)
    decreases entries, 2
  {
    hide *;
    if entries == [] {
      NoEntries(buf, pos, out);
    } else {
      FirstEntry(buf, pos, entries, out);
      OneKeyLess(entries, out);
      var e, p := ClosedEntry(entries[0]), pos + |WireEntry(entries[0])|;
      DecodeWireEntry(buf, pos, entries[0], out);
      OneMoreEntry(buf, pos, |entries| - 1, out, out + [e], p);
      DecodeWireEntries(buf, p, entries[1..], out + [e]);
    }
  }

  lemma {:induction false} DecodeWireOpenEntries(buf: seq<byte>, pos: nat, entries: seq<Entry>, out: seq<Entry>)
    requires Pairs(entries) && DistinctKeys(entries) && NewKeys(out, entries)
    requires At(buf, pos, WireEntries(entries))
    requires pos + |WireEntries(entries)| < |buf| && buf[pos + |WireEntries(entries)|] == BREAK
    ensures DecodeOpenEntries(buf, pos, out) ==
            Ok(out + ClosedEntries(entries), pos + |WireEntries(entries)| + 1)
    decreases entries, 2
  {
    hide *;
    if entries == [] {
      NoEntries(buf, pos, out);
    } else {
      FirstEntry(buf, pos, entries, out);
      OneKeyLess(entries, out);
      var e, p := ClosedEntry(entries[0]), pos + |WireEntry(entries[0])|;
      DecodeWireEntry(buf, pos, entries[0], out);
      OneMoreEntry(buf, pos, |entries| - 1, out, out + [e], p);
      DecodeWireOpenEntries(buf, p, entries[1..], out + [e]);
    }
  }

  // ----- the laws -----

  /** A value as Python holds it: nothing marked open, and dictionaries that are dictionaries. */
  predicate PythonValue(v: Item)
    decreases v
  {
    match v
    case List(items, open) => !open && forall i | 0 <= i < |items| :: PythonValue(items[i])
    case Dict(entries, open) =>
      && !open && DistinctKeys(entries)
      && forall i | 0 <= i < |entries| ::
           Hashable(entries[i].key) && PythonValue(entries[i].key) && PythonValue(entries[i].val)
    case _ => true
  }

  lemma {:induction false} PythonValueIsClosed(v: Item)
    requires PythonValue(v)
    ensures Closed(v) == v
    decreases v, 1
  {
    match v
    case List(items, _) => ClosedItemsSame(items);
    case Dict(entries, _) => ClosedEntriesSame(entries);
    case _ =>
  }

  lemma {:induction false} ClosedItemsSame(items: seq<Item>)
    requires forall i | 0 <= i < |items| :: PythonValue(items[i])
    ensures ClosedItems(items) == items
    decreases items, 0
  {
    if items == [] {
    } else {
      PythonValueIsClosed(items[0]);
      ClosedItemsSame(items[1..]);
    }
  }

  lemma {:induction false} ClosedEntriesSame(entries: seq<Entry>)
    requires forall i | 0 <= i < |entries| :: PythonValue(entries[i].key) && PythonValue(entries[i].val)
    ensures ClosedEntries(entries) == entries
    decreases entries, 0
  {
    if entries == [] {
    } else {
      ClosedEntrySame(entries[0]);
      ClosedEntriesSame(entries[1..]);
    }
  }

  lemma {:induction false} ClosedEntrySame(e: Entry)
    requires PythonValue(e.key) && PythonValue(e.val)
    ensures ClosedEntry(e) == e
    decreases e, 0
  {
    PythonValueIsClosed(e.key);
    PythonValueIsClosed(e.val);
  }

  /** cbor_decode(prefix + bytes + suffix, len(prefix)), whichever lists and maps were sent open. */
  lemma RoundTrip(prefix: seq<byte>, v: Item, suffix: seq<byte>)
    requires Encodable(v)
    ensures Decode(prefix + Wire(v) + suffix, |prefix|) == Ok(Closed(v), |prefix| + |Wire(v)|)
    ensures PythonValue(v) ==> Decode(prefix + Wire(v) + suffix, |prefix|) == Ok(v, |prefix| + |Wire(v)|)
  {
    hide Decode;
    hide Wire;
    var buf := prefix + Wire(v) + suffix;
    assert buf[|prefix|..|prefix| + |Wire(v)|] == Wire(v);
    DecodeWire(buf, |prefix|, v);
    if PythonValue(v) {
      PythonValueIsClosed(v);
    }
  }

  /** No encoding is the beginning of another one, and different values have different encodings. */
  lemma EncodingsArePrefixFree(v: Item, w: Item, rest: seq<byte>)
    requires Encodable(v) && Encodable(w) && PythonValue(v) && PythonValue(w)
    requires Wire(v) + rest == Wire(w)
    ensures v == w && rest == []
  {
    hide Decode;
    hide Wire;
    RoundTrip([], v, rest);
    RoundTrip([], w, []);
    assert [] + Wire(v) + rest == [] + Wire(w) + [];
  }

  // ----- the code -----

  lemma {:induction false} WireItemsMore(items: seq<Item>, v: Item)
    requires forall i | 0 <= i < |items| :: Encodable(items[i])
    requires Encodable(v)
    ensures WireItems(items + [v]) == WireItems(items) + Wire(v)
  {
    hide Wire;
    hide Encodable;
    if items == [] {
      assert WireItems([v][1..]) == [];
    } else {
      WireItemsMore(items[1..], v);
      assert (items + [v])[1..] == items[1..] + [v];
    }
  }

  lemma {:induction false} WireEntriesMore(entries: seq<Entry>, e: Entry)
    requires forall i | 0 <= i < |entries| :: Encodable(entries[i].key) && Encodable(entries[i].val)
    requires Encodable(e.key) && Encodable(e.val)
    ensures WireEntries(entries + [e]) == WireEntries(entries) + WireEntry(e)
  {
    hide WireEntry;
    hide Encodable;
    if entries == [] {
      assert WireEntries([e][1..]) == [];
    } else {
      WireEntriesMore(entries[1..], e);
      assert (entries + [e])[1..] == entries[1..] + [e];
    }
  }

  /** cbor_encode; None where it raises. Lists and dictionaries are written with their length announced. */
  method CborEncode(obj: Item) returns (out: Option<seq<byte>>)
    requires PythonValue(obj)
    ensures out.Some? <==> Encodable(obj)
    ensures out.Some? ==> out.value == Wire(obj)
    decreases obj, 1
  {
    hide Head;
    match obj
    case Bool(b) => out := Some([if b then 0xF5 else 0xF4]);
    case Null => out := Some([0xF6]);
    case Negative(_) => out := None;
    case Unsupported(_) => out := None;
    case UInt(n) => out := if n < TWO_32 then Some(Head(0, n)) else None;
    case Blob(s) => out := if |s| < TWO_32 then Some(Head(2, |s|) + s) else None;
    case Text(s) => out := if |s| < TWO_32 then Some(Head(3, |s|) + s) else None;
    case List(items, _) =>
      if |items| >= TWO_32 {
        return None;
      }
      var body := EncodeItems(items);
      out := if body.Some? then Some(Head(4, |items|) + body.value) else None;
    case Dict(entries, _) =>
      if |entries| >= TWO_32 {
        return None;
      }
      var body := EncodeEntries(entries);
      out := if body.Some? then Some(Head(5, |entries|) + body.value) else None;
  }

  method EncodeItems(items: seq<Item>) returns (out: Option<seq<byte>>)
    requires forall i | 0 <= i < |items| :: PythonValue(items[i])
    ensures out.Some? <==> forall i | 0 <= i < |items| :: Encodable(items[i])
    ensures out.Some? ==> out.value == WireItems(items)
    decreases items, 0
  {
    hide Wire;
    hide Encodable;
    var bytes: seq<byte> := [];
    var i := 0;
    while i < |items|
      invariant 0 <= i <= |items|
      invariant forall k | 0 <= k < i :: Encodable(items[k])
      invariant bytes == WireItems(items[..i])
    {
      var one := CborEncode(items[i]);
      if one == None {
        return None;
      }
      WireItemsMore(items[..i], items[i]);
      assert items[..i + 1] == items[..i] + [items[i]];
      bytes := bytes + one.value;
      i := i + 1;
    }
    assert items[..i] == items;
    return Some(bytes);
  }

  method EncodeEntries(entries: seq<Entry>) returns (out: Option<seq<byte>>)
    requires forall i | 0 <= i < |entries| :: PythonValue(entries[i].key) && PythonValue(entries[i].val)
    ensures out.Some? <==>
              forall i | 0 <= i < |entries| :: Encodable(entries[i].key) && Encodable(entries[i].val)
    ensures out.Some? ==> out.value == WireEntries(entries)
    decreases entries, 0
  {
    hide Wire;
    hide Encodable;
    var bytes: seq<byte> := [];
    var i := 0;
    while i < |entries|
      invariant 0 <= i <= |entries|
      invariant forall k | 0 <= k < i :: Encodable(entries[k].key) && Encodable(entries[k].val)
      invariant bytes == WireEntries(entries[..i])
    {
      var pair := EncodePair(entries[i]);
      if pair == None {
        return None;
      }
      WireEntriesMore(entries[..i], entries[i]);
      assert entries[..i + 1] == entries[..i] + [entries[i]];
      bytes := bytes + pair.value;
      i := i + 1;
    }
    assert entries[..i] == entries;
    return Some(bytes);
  }

  method EncodePair(e: Entry) returns (out: Option<seq<byte>>)
    requires PythonValue(e.key) && PythonValue(e.val)
    ensures out.Some? <==> Encodable(e.key) && Encodable(e.val)
    ensures out.Some? ==> out.value == WireEntry(e)
    decreases e, 0
  {
    var k := CborEncode(e.key);
    var v := CborEncode(e.val);
    return if k.Some? && v.Some? then Some(k.value + v.value) else None;
  }

  /** cbor_decode: recursive, with one loop for lists and one for maps, announced or open. */
  method CborDecode(buf: seq<byte>, pos: nat) returns (r: Decoded<Item>)
    ensures r == Decode(buf, pos)
    decreases Left(buf, pos), 0
  {
    hide ReadLen;
    if pos >= |buf| {
      return Err(IndexError);
    }
    var major, info := buf[pos] / 32, buf[pos] % 32;
    var p := pos + 1;
    if major == 7 && 20 <= info <= 22 {
      return Ok(if info == 20 then Bool(false) else if info == 21 then Bool(true) else Null, p);
    }
    if major == 1 || major >= 6 {
      return Err(ValueError);
    }
    var n := 0;
    var open := info == 31 && major >= 4;
    if !open {
      match ReadLen(buf, info, p) {
        case Err(e) => return Err(e);
        case Ok(len, p') => n, p := len, p';
      }
    }
    if major == 0 {
      return Ok(UInt(n), p);
    } else if major == 2 {
      return Ok(Blob(Slice(buf, p, n)), p + n);
    } else if major == 3 {
      return Ok(Text(Slice(buf, p, n)), p + n);
    } else if major == 4 {
      var items := LoopItems(buf, p, n, open);
      return if items.Ok? then Ok(List(items.value, false), items.pos) else Err(items.error);
    } else {
      var entries := LoopEntries(buf, p, n, open);
      return if entries.Ok? then Ok(Dict(entries.value, false), entries.pos) else Err(entries.error);
    }
  }

  method LoopItems(buf: seq<byte>, start: nat, n: nat, open: bool) returns (r: Decoded<seq<Item>>)
    ensures r == if open then DecodeOpenItems(buf, start, []) else DecodeItems(buf, start, n, [])
    decreases Left(buf, start), 1
  {
    hide Decode;
    var pos, left, out := start, n, [];
    while if open then pos < |buf| && buf[pos] != BREAK else left > 0
      invariant pos >= start && left >= 0
      invariant if open then DecodeOpenItems(buf, pos, out) == DecodeOpenItems(buf, start, [])
                else DecodeItems(buf, pos, left, out) == DecodeItems(buf, start, n, [])
      decreases if open then Left(buf, pos) else left
    {
      var v := CborDecode(buf, pos);
      if v.Err? {
        return Err(v.error);
      }
      out, pos := out + [v.value], v.pos;
      if !open {
        left := left - 1;
      }
    }
    return if open && pos >= |buf| then Err(IndexError) else Ok(out, if open then pos + 1 else pos);
  }

  method LoopEntries(buf: seq<byte>, start: nat, n: nat, open: bool) returns (r: Decoded<seq<Entry>>)
    ensures r == if open then DecodeOpenEntries(buf, start, []) else DecodeEntries(buf, start, n, [])
    decreases Left(buf, start), 1
  {
    hide Decode;
    var pos, left, out := start, n, [];
    while if open then pos < |buf| && buf[pos] != BREAK else left > 0
      invariant pos >= start && left >= 0
      invariant if open then DecodeOpenEntries(buf, pos, out) == DecodeOpenEntries(buf, start, [])
                else DecodeEntries(buf, pos, left, out) == DecodeEntries(buf, start, n, [])
      decreases if open then Left(buf, pos) else left
    {
      var k := CborDecode(buf, pos);
      if k.Err? {
        return Err(k.error);
      }
      var v := CborDecode(buf, k.pos);
      if v.Err? {
        return Err(v.error);
      }
      if !Hashable(k.value) {
        return Err(TypeError);
      }
      out, pos := Put(out, k.value, v.value), v.pos;
      if !open {
        left := left - 1;
      }
    }
    return if open && pos >= |buf| then Err(IndexError) else Ok(out, if open then pos + 1 else pos);
  }
}
