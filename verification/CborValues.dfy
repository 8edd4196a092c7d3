/** Which values the encoder takes, and which bytes the decoder does. */
module CborValues {
  import opened Bytes
  import opened Wrappers
  import opened Cbor

  /** A value and everything in it, lists before their items and keys before their values. */
  function Parts(v: Item): seq<Item>
    decreases v, 1
  {
    match v
    case List(items, _) => [v] + PartsOfItems(items)
    case Dict(entries, _) => [v] + PartsOfEntries(entries)
    case _ => [v]
  }

  function PartsOfItems(items: seq<Item>): seq<Item>
    decreases items, 0
  {
    if items == [] then [] else Parts(items[0]) + PartsOfItems(items[1..])
  }

  function PartsOfEntries(entries: seq<Entry>): seq<Item>
    decreases entries, 0
  {
    if entries == [] then [] else PartsOfEntry(entries[0]) + PartsOfEntries(entries[1..])
  }

  function PartsOfEntry(e: Entry): seq<Item>
    decreases e, 0
  {
    Parts(e.key) + Parts(e.val)
  }

  /** What stands in the head of a part: a number, or how many bytes, items or pairs follow. */
  function Measure(v: Item): nat {
    match v
    case UInt(n) => n
    case Blob(s) => |s|
    case Text(s) => |s|
    case List(items, _) => |items|
    case Dict(entries, _) => |entries|
    case _ => 0
  }

  /** A part has a type that CBOR is written for here and fits a head of four bytes. */
  predicate Fine(v: Item) {
    !v.Negative? && !v.Unsupported? && Measure(v) < 0x1_0000_0000
  }

  predicate AllFine(parts: seq<Item>) {
    forall p | p in parts :: Fine(p)
  }

  lemma AllFineOfBoth(a: seq<Item>, b: seq<Item>)
    ensures AllFine(a + b) <==> AllFine(a) && AllFine(b)
  {
    if AllFine(a + b) {
      assert forall p :: p in a || p in b ==> p in a + b;
    }
  }

  /** A Python value is encoded exactly when every part of it is fine, however deep it lies. */
  lemma {:induction false} EncodableIff(v: Item)
    requires PythonValue(v)
    ensures Encodable(v) <==> AllFine(Parts(v))
    decreases v, 1
  {
    hide AllFine;
    AllFineOfOne(v);
    match v
    case List(items, _) =>
      AllFineOfBoth([v], PartsOfItems(items));
      ItemsEncodableIff(items);
    case Dict(entries, _) =>
      AllFineOfBoth([v], PartsOfEntries(entries));
      EntriesEncodableIff(entries);
    case _ =>
  }

  lemma AllFineOfOne(v: Item)
    ensures AllFine([v]) <==> Fine(v)
    ensures AllFine([])
  {
    assert v in [v];
  }

  lemma {:induction false} ItemsEncodableIff(items: seq<Item>)
    requires forall i | 0 <= i < |items| :: PythonValue(items[i])
    ensures (forall i | 0 <= i < |items| :: Encodable(items[i])) <==> AllFine(PartsOfItems(items))
    decreases items, 0
  {
    hide AllFine, Encodable, PythonValue;
    if items == [] {
      AllFineOfOne(Null);
    } else {
      EncodableIff(items[0]);
      ItemsEncodableIff(items[1..]);
      AllFineOfBoth(Parts(items[0]), PartsOfItems(items[1..]));
      assert items == [items[0]] + items[1..];
    }
  }

  lemma {:induction false} EntriesEncodableIff(entries: seq<Entry>)
    requires forall i | 0 <= i < |entries| :: PythonValue(entries[i].key) && PythonValue(entries[i].val)
    ensures (forall i | 0 <= i < |entries| :: Encodable(entries[i].key) && Encodable(entries[i].val)) <==>
            AllFine(PartsOfEntries(entries))
    decreases entries, 0
  {
    hide AllFine, Encodable, PythonValue;
    if entries == [] {
      AllFineOfOne(Null);
    } else {
      EntryEncodableIff(entries[0]);
      EntriesEncodableIff(entries[1..]);
      AllFineOfBoth(PartsOfEntry(entries[0]), PartsOfEntries(entries[1..]));
      assert entries == [entries[0]] + entries[1..];
    }
  }

  lemma {:induction false} EntryEncodableIff(e: Entry)
    requires PythonValue(e.key) && PythonValue(e.val)
    ensures Encodable(e.key) && Encodable(e.val) <==> AllFine(PartsOfEntry(e))
    decreases e, 0
  {
    EncodableIff(e.key);
    EncodableIff(e.val);
    AllFineOfBoth(Parts(e.key), Parts(e.val));
  }

  // ----- the encoder's heads are as short as can be -----

  function Power(width: nat): nat {
    if width == 0 then 1 else 0x100 * Power(width - 1)
  }

  lemma {:induction false} FromBeBound(s: seq<byte>)
    ensures FromBe(s) < Power(|s|)
  {
    if s == [] {
    } else {
      FromBeBound(s[..|s| - 1]);
    }
  }

  /** No head the decoder reads the same number from is shorter: RFC 8949's preferred serialization. */
  lemma HeadIsShortest(buf: seq<byte>, pos: nat, info: nat, major: nat, value: nat, next: nat)
    requires major < 8 && value < 0x1_0000_0000 && ReadLen(buf, info, pos) == Ok(value, next)
    ensures 1 + next - pos >= |Head(major, value)|
  {
    if info == 25 {
      var s := Slice(buf, pos, 2);
      FromBeBound(s);
      assert Power(0) == 1 && Power(1) == 0x100 && Power(2) == 0x1_0000;
      assert |s| <= 2;
    }
  }

  // ----- heads of every width, and messages cut short -----

  lemma {:induction false} FromBeOfBeWide(width: nat, value: nat)
    requires value < Power(width)
    ensures FromBe(Be(width, value)) == value
  {
    if width == 0 {
    } else {
      FromBeOfBeWide(width - 1, value / 0x100);
      assert Be(width, value)[..width - 1] == Be(width - 1, value / 0x100);
    }
  }

  /** A head of 1, 2, 4 or 8 bytes behind the first is read as its big-endian number, shortest or not. */
  lemma WideHeadIsRead(buf: seq<byte>, pos: nat, width: nat, value: nat)
    requires width in {1, 2, 4, 8} && value < Power(width) && At(buf, pos, Be(width, value))
    ensures var info := if width == 1 then 24 else if width == 2 then 25 else if width == 4 then 26 else 27;
      ReadLen(buf, info, pos) == Ok(value, pos + width)
  {
    FromBeOfBeWide(width, value);
    SliceAt(buf, pos, Be(width, value));
    if width == 1 {
      OneByte(buf, pos, value);
    }
    hide FromBe, Power, Be, At, Slice;
  }

  lemma SliceAt(buf: seq<byte>, pos: nat, w: seq<byte>)
    requires At(buf, pos, w)
    ensures Slice(buf, pos, |w|) == w
  {
  }

  lemma OneByte(buf: seq<byte>, pos: nat, value: nat)
    requires value < Power(1) && At(buf, pos, Be(1, value))
    ensures pos < |buf| && buf[pos] == value
  {
    SmallPowers();
    assert Be(0, value / 0x100) == [];
    assert buf[pos] == buf[pos..pos + 1][0] == Be(1, value)[0];
  }

  lemma SmallPowers()
    ensures Power(1) == 0x100
  {
    assert Power(0) == 1;
  }

  /**
    A message that ends inside a head or a string is not noticed: Python's slices give what is there, and
    the position goes on as if all of it had come. Only a head of one byte has to be there.
   */
  lemma CutShortIsAccepted(buf: seq<byte>, pos: nat, n: nat)
    requires pos <= |buf|
    ensures forall info | info in {25, 26, 27} && |buf| < pos + WidthOf(info) ::
              ReadLen(buf, info, pos) == Ok(FromBe(buf[pos..]), pos + WidthOf(info))
    ensures pos == |buf| ==> ReadLen(buf, 24, pos) == Err(IndexError)
    ensures |buf| <= pos + n ==> Slice(buf, pos, n) == buf[pos..]
  {
    CutSlice(buf, pos, n);
    CutSlice(buf, pos, 2);
    CutSlice(buf, pos, 4);
    CutSlice(buf, pos, 8);
    hide FromBe, Slice;
  }

  lemma CutSlice(buf: seq<byte>, pos: nat, n: nat)
    requires pos <= |buf|
    ensures |buf| <= pos + n ==> Slice(buf, pos, n) == buf[pos..]
  {
  }

  function WidthOf(info: nat): nat {
    if info == 25 then 2 else if info == 26 then 4 else 8
  }

  /** So a byte string that announces n bytes and brings fewer is decoded to those, behind the end of the buffer. */
  lemma CutBytesAreAccepted(n: nat, s: seq<byte>)
    requires n < 0x1_0000_0000 && |s| < n
    ensures var buf := Head(2, n) + s; Decode(buf, 0) == Ok(Blob(s), |buf| + n - |s|)
  {
    hide Head, ReadLen;
    var head := Head(2, n);
    var buf := head + s;
    assert At(buf, 0, head);
    ReadHead(buf, 0, 2, n);
    assert buf[|head|..] == s;
    CutShortIsAccepted(buf, |head|, n);
  }

  // ----- dictionaries -----

  /** out[k], if there is one. */
  function Get(out: seq<Entry>, k: Item): Option<Item> {
    if out == [] then None else if SameKey(out[0].key, k) then Some(out[0].val) else Get(out[1..], k)
  }

  lemma {:induction false} PutGets(out: seq<Entry>, k: Item, v: Item, o: Item)
    ensures Get(Put(out, k, v), o) == if SameKey(o, k) then Some(v) else Get(out, o)
  {
    if out == [] {
      assert Get([Entry(k, v)][1..], o) == None;
    } else {
      PutGets(out[1..], k, v, o);
      SameKeys(out[0].key, k);
      PutTail(out, k, v);
      hide SameKey, Put;
    }
  }

  lemma PutTail(out: seq<Entry>, k: Item, v: Item)
    requires out != []
    ensures var r := Put(out, k, v);
      && r != [] && r[0] == (if SameKey(out[0].key, k) then Entry(out[0].key, v) else out[0])
      && r[1..] == if SameKey(out[0].key, k) then out[1..] else Put(out[1..], k, v)
  {
    hide SameKey;
  }

  lemma {:induction false} PutPlaces(out: seq<Entry>, k: Item, v: Item)
    ensures |Put(out, k, v)| == |out| + if Get(out, k).Some? then 0 else 1
    ensures forall i | 0 <= i < |out| :: Put(out, k, v)[i].key == out[i].key
    ensures Get(out, k) == None ==> Put(out, k, v) == out + [Entry(k, v)]
  {
    hide SameKey;
    if out == [] {
    } else {
      PutPlaces(out[1..], k, v);
      assert out == [out[0]] + out[1..];
    }
  }

  /** out[k] = v as Python does it: the last value of a key counts, its first spelling and its place stay. */
  lemma PutIs(out: seq<Entry>, k: Item, v: Item)
    ensures forall o :: Get(Put(out, k, v), o) == if SameKey(o, k) then Some(v) else Get(out, o)
    ensures |Put(out, k, v)| == |out| + if Get(out, k).Some? then 0 else 1
    ensures forall i | 0 <= i < |out| :: Put(out, k, v)[i].key == out[i].key
    ensures Get(out, k) == None ==> Put(out, k, v) == out + [Entry(k, v)]
  {
    hide *;
    PutPlaces(out, k, v);
    forall o
      ensures Get(Put(out, k, v), o) == if SameKey(o, k) then Some(v) else Get(out, o)
    {
      PutGets(out, k, v, o);
    }
  }

  /** Python's equality of keys is an equivalence. */
  lemma SameKeys(a: Item, b: Item)
    ensures SameKey(a, a) && (SameKey(a, b) <==> SameKey(b, a))
    ensures SameKey(a, b) ==> forall o :: SameKey(a, o) <==> SameKey(o, b)
  {
  }

  // ----- what the decoder yields -----

  /** The type a first byte announces, if it announces any. */
  predicate Announces(b: byte, v: Item) {
    if b < 0x20 then v.UInt?
    else if 0x40 <= b < 0x60 then v.Blob?
    else if 0x60 <= b < 0x80 then v.Text?
    else if 0x80 <= b < 0xA0 then v.List?
    else if 0xA0 <= b < 0xC0 then v.Dict?
    else if b == 0xF4 then v == Bool(false)
    else if b == 0xF5 then v == Bool(true)
    else b == 0xF6 && v == Null
  }

  predicate Supported(parts: seq<Item>) {
    forall p | p in parts :: !p.Negative? && !p.Unsupported?
  }

  /** A value as Python holds it, without the parts that only the encoder meets. */
  predicate Built(v: Item) {
    PythonValue(v) && Supported(Parts(v))
  }

  predicate AllBuilt(items: seq<Item>) {
    forall i | 0 <= i < |items| :: Built(items[i])
  }

  predicate Dictionary(entries: seq<Entry>) {
    && DistinctKeys(entries)
    && forall i | 0 <= i < |entries| ::
         Hashable(entries[i].key) && Built(entries[i].key) && Built(entries[i].val)
  }

  lemma SupportedOfBoth(a: seq<Item>, b: seq<Item>)
    requires Supported(a) && Supported(b)
    ensures Supported(a + b)
  {
  }

  lemma {:induction false} ItemsSupported(items: seq<Item>)
    requires AllBuilt(items)
    ensures Supported(PartsOfItems(items))
  {
    hide Supported, PythonValue;
    if items == [] {
      NoneSupported();
    } else {
      assert Built(items[0]);
      ItemsSupported(items[1..]);
      SupportedOfBoth(Parts(items[0]), PartsOfItems(items[1..]));
    }
  }

  lemma NoneSupported()
    ensures Supported([])
  {
  }

  lemma {:induction false} EntriesSupported(entries: seq<Entry>)
    requires forall i | 0 <= i < |entries| :: Built(entries[i].key) && Built(entries[i].val)
    ensures Supported(PartsOfEntries(entries))
  {
    hide Supported, PythonValue;
    if entries == [] {
      NoneSupported();
    } else {
      var e := entries[0];
      assert Built(e.key) && Built(e.val);
      EntriesSupported(entries[1..]);
      SupportedOfBoth(Parts(e.key), Parts(e.val));
      SupportedOfBoth(PartsOfEntry(e), PartsOfEntries(entries[1..]));
    }
  }

  lemma BuiltList(items: seq<Item>)
    requires AllBuilt(items)
    ensures Built(List(items, false))
  {
    ItemsSupported(items);
    assert forall i | 0 <= i < |items| :: Built(items[i]);
    SupportedOfBoth([List(items, false)], PartsOfItems(items));
  }

  lemma BuiltDict(entries: seq<Entry>)
    requires Dictionary(entries)
    ensures Built(Dict(entries, false))
  {
    EntriesSupported(entries);
    assert forall i | 0 <= i < |entries| :: Built(entries[i].key) && Built(entries[i].val);
    SupportedOfBoth([Dict(entries, false)], PartsOfEntries(entries));
  }

  /** out[k] = v keeps a dictionary a dictionary: the keys stay distinct, by Python's equality. */
  lemma {:induction false} PutKeeps(out: seq<Entry>, k: Item, v: Item)
    requires Dictionary(out) && Hashable(k) && Built(k) && Built(v)
    ensures Dictionary(Put(out, k, v))
    ensures forall o: Item :: (forall i | 0 <= i < |out| :: !SameKey(o, out[i].key)) && !SameKey(o, k) ==>
              forall i | 0 <= i < |Put(out, k, v)| :: !SameKey(o, Put(out, k, v)[i].key)
  {
    hide Built;
    if out == [] {
    } else if SameKey(out[0].key, k) {
    } else {
      assert out == [out[0]] + out[1..];
      PutKeeps(out[1..], k, v);
      assert forall i | 0 <= i < |out[1..]| :: !SameKey(out[0].key, out[1..][i].key);
    }
  }

  /**
    Whatever the decoder accepts is a value as Python holds it, of the type that its first byte announces; every
    other first byte is refused. Such a value is encoded again unless it holds a number that takes more than
    four bytes.
   */
  lemma {:induction false} DecodedIsBuilt(buf: seq<byte>, pos: nat)
    ensures var r := Decode(buf, pos);
      r.Ok? ==> pos < |buf| && Announces(buf[pos], r.value) && Built(r.value)
    decreases Left(buf, pos), 0
  {
    hide ReadLen, Built;
    var r := Decode(buf, pos);
    if r.Ok? {
      var p := pos + 1;
      var n := ReadLen(buf, buf[pos] % 32, p);
      LeafIsBuilt(r.value);
      if r.value.List? {
        if buf[pos] % 32 == 31 {
          DecodedOpenItems(buf, p, []);
        } else {
          ReadOn(buf, buf[pos] % 32, p);
          DecodedItems(buf, n.pos, n.value, []);
        }
        BuiltList(r.value.items);
      } else if r.value.Dict? {
        if buf[pos] % 32 == 31 {
          DecodedOpenEntries(buf, p, []);
        } else {
          ReadOn(buf, buf[pos] % 32, p);
          DecodedEntries(buf, n.pos, n.value, []);
        }
        BuiltDict(r.value.entries);
      }
    }
  }

  lemma ReadOn(buf: seq<byte>, info: nat, pos: nat)
    ensures ReadLen(buf, info, pos).Ok? ==> ReadLen(buf, info, pos).pos >= pos
  {
  }

  lemma LeafIsBuilt(v: Item)
    ensures v.UInt? || v.Blob? || v.Text? || v.Bool? || v.Null? ==> Built(v)
  {
  }

  lemma {:induction false} DecodedItems(buf: seq<byte>, pos: nat, n: nat, out: seq<Item>)
    requires AllBuilt(out)
    ensures DecodeItems(buf, pos, n, out).Ok? ==> AllBuilt(DecodeItems(buf, pos, n, out).value)
    decreases Left(buf, pos), 1
  {
    hide Decode, Built;
    if n == 0 {
    } else {
      DecodedIsBuilt(buf, pos);
      if Decode(buf, pos).Ok? {
        DecodedItems(buf, Decode(buf, pos).pos, n - 1, out + [Decode(buf, pos).value]);
      }
    }
  }

  lemma {:induction false} DecodedOpenItems(buf: seq<byte>, pos: nat, out: seq<Item>)
    requires AllBuilt(out)
    ensures DecodeOpenItems(buf, pos, out).Ok? ==> AllBuilt(DecodeOpenItems(buf, pos, out).value)
    decreases Left(buf, pos), 1
  {
    hide Decode, Built;
    if pos >= |buf| || buf[pos] == BREAK {
    } else {
      DecodedIsBuilt(buf, pos);
      if Decode(buf, pos).Ok? {
        DecodedOpenItems(buf, Decode(buf, pos).pos, out + [Decode(buf, pos).value]);
      }
    }
  }

  lemma {:induction false} DecodedEntry(buf: seq<byte>, pos: nat, out: seq<Entry>)
    requires Dictionary(out)
    ensures DecodeEntry(buf, pos, out).Ok? ==> Dictionary(DecodeEntry(buf, pos, out).value)
    decreases Left(buf, pos), 1
  {
    hide Decode, Built, Dictionary;
    DecodedIsBuilt(buf, pos);
    var k := Decode(buf, pos);
    if k.Ok? {
      DecodedIsBuilt(buf, k.pos);
      if Decode(buf, k.pos).Ok? && Hashable(k.value) {
        PutKeeps(out, k.value, Decode(buf, k.pos).value);
      }
    }
  }

  lemma {:induction false} DecodedEntries(buf: seq<byte>, pos: nat, n: nat, out: seq<Entry>)
    requires Dictionary(out)
    ensures DecodeEntries(buf, pos, n, out).Ok? ==> Dictionary(DecodeEntries(buf, pos, n, out).value)
    decreases Left(buf, pos), 2
  {
    hide DecodeEntry, Dictionary;
    if n == 0 {
    } else {
      DecodedEntry(buf, pos, out);
      var e := DecodeEntry(buf, pos, out);
      if e.Ok? {
        DecodedEntries(buf, e.pos, n - 1, e.value);
      }
    }
  }

  lemma {:induction false} DecodedOpenEntries(buf: seq<byte>, pos: nat, out: seq<Entry>)
    requires Dictionary(out)
    ensures DecodeOpenEntries(buf, pos, out).Ok? ==> Dictionary(DecodeOpenEntries(buf, pos, out).value)
    decreases Left(buf, pos), 2
  {
    hide DecodeEntry, Dictionary;
    if pos >= |buf| || buf[pos] == BREAK {
    } else {
      DecodedEntry(buf, pos, out);
      var e := DecodeEntry(buf, pos, out);
      if e.Ok? {
        DecodedOpenEntries(buf, e.pos, e.value);
      }
    }
  }

  /**
    Decoding, encoding and decoding again: what was decoded is encoded exactly when all its numbers and lengths
    fit four bytes, and then the encoding is decoded to the same value.
   */
  lemma DecodedComesBack(buf: seq<byte>, pos: nat)
    requires Decode(buf, pos).Ok?
    ensures var v := Decode(buf, pos).value;
      && (Encodable(v) <==> forall p | p in Parts(v) :: Measure(p) < 0x1_0000_0000)
      && (Encodable(v) ==> Decode(Wire(v), 0) == Ok(v, |Wire(v)|))
  {
    var v := Decode(buf, pos).value;
    DecodedIsBuilt(buf, pos);
    EncodableIff(v);
    hide Decode, Wire, Encodable, PythonValue;
    if Encodable(v) {
      RoundTrip([], v, []);
      assert [] + Wire(v) + [] == Wire(v);
    }
  }
}
