/** What writing a `Value` and reading it back gives (src/value.rs,
    `impl Serialize for Value` against `ValueVisitor`).

    Every value within the serializer's limits comes back as it was
    written, with one exception the wire format forces: an `Int(0)` is
    written with the Zero type and so comes back as `Zero`.

    The proofs keep what the serializer writes and what the visitor reads
    in separate lemmas (`Encode…` and `Read…`): each round-trip lemma only
    calls them and itself. */
module ValueLaws {
  import opened Errors
  import opened BigEndian
  import opened Utf8
  import opened Parser
  import opened Builder
  import opened Decimal
  import opened Values
  import opened ValueCodec
  import Types
  import D = Deserialization
  import S = Serialization
  import L = SerdeLaws
  import WireLaws

  // ------------------------------------------------------ what comes back

  /** No `Int(0)` anywhere inside. */
  predicate NoIntZero(v: Value)
    decreases v
  {
    match v
    case Int(x) => x != 0
    case List(xs) => forall i :: 0 <= i < |xs| ==> NoIntZero(xs[i])
    case Map(ps) => forall i :: 0 <= i < |ps| ==> NoIntZeroPair(ps[i])
    case Object(fs) => forall i :: 0 <= i < |fs| ==> NoIntZeroSlot(fs[i])
    case _ => true
  }

  predicate NoIntZeroPair(p: Pair)
    decreases p
  {
    NoIntZero(p.key) && NoIntZero(p.value)
  }

  predicate NoIntZeroSlot(f: Slot)
    decreases f
  {
    NoIntZero(f.value)
  }

  /** A value that comes back as it was written: well formed, within the
      serializer's limits and without a zero integer. */
  predicate Plain(v: Value)
  {
    Valid(v) && Writable(v) && NoIntZero(v)
  }

  predicate PlainPair(p: Pair)
  {
    Plain(p.key) && Plain(p.value)
  }

  predicate PlainSlot(f: Slot)
  {
    Plain(f.value)
  }

  /** A plain list has at most `i32::MAX` plain items. */
  lemma PlainList(xs: seq<Value>)
    requires Plain(List(xs))
    ensures |xs| <= I32_MAX && forall i :: 0 <= i < |xs| ==> Plain(xs[i])
  {
    assert ValidItems(xs);
    forall i | 0 <= i < |xs| ensures Plain(xs[i]) {
      assert Valid(xs[i]) && Writable(xs[i]) && NoIntZero(xs[i]);
    }
  }

  /** A plain map has at most `i32::MAX` plain entries in ascending key
      order. */
  lemma PlainMap(ps: seq<Pair>)
    requires Plain(Map(ps))
    ensures |ps| <= I32_MAX && KeysAscending(ps) && forall i :: 0 <= i < |ps| ==> PlainPair(ps[i])
  {
    assert ValidPairs(ps);
    forall i | 0 <= i < |ps| ensures PlainPair(ps[i]) {
      assert ValidPair(ps[i]) && WritablePair(ps[i]) && NoIntZeroPair(ps[i]);
    }
  }

  /** A plain object has plain fields in ascending tag order. */
  lemma PlainObject(fs: seq<Slot>)
    requires Plain(Object(fs))
    ensures S.Serializable(ToData(Object(fs)))
    ensures TagsAscending(fs) && forall i :: 0 <= i < |fs| ==> PlainSlot(fs[i])
  {
    WritableIff(Object(fs));
    assert ValidSlots(fs);
    forall i | 0 <= i < |fs| ensures PlainSlot(fs[i]) {
      assert ValidSlot(fs[i]) && WritableSlot(fs[i]) && NoIntZeroSlot(fs[i]);
    }
  }

  lemma PlainItemsTail(xs: seq<Value>)
    requires xs != [] && forall i :: 0 <= i < |xs| ==> Plain(xs[i])
    ensures Plain(xs[0]) && forall i :: 0 <= i < |xs[1..]| ==> Plain(xs[1..][i])
  {
    forall i | 0 <= i < |xs[1..]| ensures Plain(xs[1..][i]) {
      assert xs[1..][i] == xs[i + 1];
    }
  }

  lemma PlainEntriesTail(ps: seq<Pair>, acc: seq<Pair>)
    requires ps != [] && forall i :: 0 <= i < |ps| ==> PlainPair(ps[i])
    requires KeysAscending(acc + ps)
    ensures PlainPair(ps[0]) && forall i :: 0 <= i < |ps[1..]| ==> PlainPair(ps[1..][i])
    ensures KeysAscending(acc + [ps[0]] + ps[1..])
    ensures Insert(acc, ps[0].key, ps[0].value) == acc + [ps[0]]
  {
    assert acc + [ps[0]] + ps[1..] == acc + ps;
    forall i | 0 <= i < |ps[1..]| ensures PlainPair(ps[1..][i]) {
      assert ps[1..][i] == ps[i + 1];
    }
    forall i | 0 <= i < |acc| ensures Cmp(acc[i].key, ps[0].key) == Less {
      assert (acc + ps)[i] == acc[i] && (acc + ps)[|acc|] == ps[0];
    }
    InsertLast(acc, ps[0].key, ps[0].value);
  }

  lemma PlainSlotsTail(fs: seq<Slot>, seen: set<Byte>, acc: seq<Slot>)
    requires fs != [] && forall i :: 0 <= i < |fs| ==> PlainSlot(fs[i]) && fs[i].tag !in seen
    requires TagsAscending(acc + fs)
    ensures PlainSlot(fs[0]) && fs[0].tag !in seen
    ensures forall i :: 0 <= i < |fs[1..]| ==>
      PlainSlot(fs[1..][i]) && fs[1..][i].tag !in seen + {fs[0].tag}
    ensures TagsAscending(acc + [fs[0]] + fs[1..])
    ensures InsertSlot(acc, fs[0].tag, fs[0].value) == acc + [fs[0]]
  {
    assert acc + [fs[0]] + fs[1..] == acc + fs;
    forall i | 0 <= i < |fs[1..]| ensures PlainSlot(fs[1..][i]) && fs[1..][i].tag !in seen + {fs[0].tag} {
      assert fs[1..][i] == fs[i + 1];
      assert (acc + fs)[|acc|] == fs[0] && (acc + fs)[|acc| + 1 + i] == fs[i + 1];
    }
    forall i | 0 <= i < |acc| ensures acc[i].tag < fs[0].tag {
      assert (acc + fs)[i] == acc[i] && (acc + fs)[|acc|] == fs[0];
    }
    InsertSlotLast(acc, fs[0].tag, fs[0].value);
  }

  // ------------------------------------------------------ what is written

  /** A scalar is written by its own primitive. */
  lemma EncodeScalar(tag: Byte, v: Value)
    requires !v.List? && !v.Map? && !v.Object?
    ensures ToData(v).Prim?
    ensures S.Encode(tag, ToData(v)) == S.EncodePrimitive(tag, ToData(v).p)
  {
  }

  /** A list is its header and count, then its items at tag 0. */
  lemma EncodeList(tag: Byte, xs: seq<Value>)
    requires |xs| <= I32_MAX && S.EncodeElems(ItemsData(xs)).Ok?
    ensures S.Encode(tag, ToData(List(xs))) == Ok(EncListBegin(tag, |xs|) + S.EncodeElems(ItemsData(xs)).value)
  {
  }

  lemma EncodeItems(x: Value, tail: seq<Value>)
    requires S.Encode(0, ToData(x)).Ok? && S.EncodeElems(ItemsData(tail)).Ok?
    ensures S.EncodeElems(ItemsData([x] + tail)) == Ok(S.Encode(0, ToData(x)).value + S.EncodeElems(ItemsData(tail)).value)
  {
    var xs := [x] + tail;
    assert xs[0] == x;
    assert ItemsData(xs)[1..] == ItemsData(tail);
  }

  /** A map is its header and count, then each key at tag 0 followed by
      its value at tag 1. */
  lemma EncodeMapValue(tag: Byte, ps: seq<Pair>)
    requires |ps| <= I32_MAX && S.EncodeEntries(EntriesData(ps)).Ok?
    ensures S.Encode(tag, ToData(Map(ps))) == Ok(EncMapBegin(tag, |ps|) + S.EncodeEntries(EntriesData(ps)).value)
  {
  }

  lemma EncodePairs(p: Pair, tail: seq<Pair>)
    requires S.EncodeEntry(EntryData(p)).Ok? && S.EncodeEntries(EntriesData(tail)).Ok?
    ensures S.EncodeEntries(EntriesData([p] + tail)) == Ok(S.EncodeEntry(EntryData(p)).value + S.EncodeEntries(EntriesData(tail)).value)
  {
    var ps := [p] + tail;
    assert ps[0] == p;
    assert EntriesData(ps)[1..] == EntriesData(tail);
  }

  lemma EncodePair(p: Pair)
    requires S.Encode(0, ToData(p.key)).Ok? && S.Encode(1, ToData(p.value)).Ok?
    ensures S.EncodeEntry(EntryData(p)) == Ok(S.Encode(0, ToData(p.key)).value + S.Encode(1, ToData(p.value)).value)
  {
  }

  /** An object's fields are each value at its own tag. */
  lemma EncodeSlots(f: Slot, tail: seq<Slot>, seen: set<Byte>)
    requires f.tag !in seen
    requires S.Encode(f.tag, ToData(f.value)).Ok?
    requires S.EncodeFields(FieldsData(tail), seen + {f.tag}).Ok?
    ensures S.EncodeFields(FieldsData([f] + tail), seen)
         == Ok(S.Encode(f.tag, ToData(f.value)).value + S.EncodeFields(FieldsData(tail), seen + {f.tag}).value)
  {
    var fs := [f] + tail;
    assert fs[0] == f;
    ParseDecimalName(f.tag);
    assert FieldsData(fs)[1..] == FieldsData(tail);
  }

  // ---------------------------------------------------------- what is read

  /** The Zero type is read as Zero. */
  lemma ReadZero(tag: Byte, rest: seq<Byte>)
    ensures DecodeValue(EncZero(tag) + rest) == Ok(Parsed(Zero, rest))
  {
    L.AnyZero(tag, rest);
    Visited(EncZero(tag) + rest, D.Nothing, Zero, rest);
  }

  /** An integer is read back as itself, except zero, which is written
      with the Zero type and read as Zero. */
  lemma ReadInt(tag: Byte, x: Int64, rest: seq<Byte>)
    ensures DecodeValue(EncI64(tag, x) + rest) == Ok(Parsed(if x == 0 then Zero else Int(x), rest))
  {
    L.AnyInt(tag, x, rest);
    if x == 0 {
      Visited(EncI64(tag, x) + rest, D.Nothing, Zero, rest);
    } else {
      Visited(EncI64(tag, x) + rest, D.Integer(x), Int(x), rest);
    }
  }

  lemma ReadFloat(tag: Byte, x: Uint32, rest: seq<Byte>)
    ensures DecodeValue(EncF32(tag, x) + rest) == Ok(Parsed(Float(x), rest))
  {
    L.AnyFloat(tag, x, 0, rest);
    Visited(EncF32(tag, x) + rest, D.Float32(x), Float(x), rest);
  }

  lemma ReadDouble(tag: Byte, x: Uint64, rest: seq<Byte>)
    ensures DecodeValue(EncF64(tag, x) + rest) == Ok(Parsed(Value.Double(x), rest))
  {
    L.AnyFloat(tag, 0, x, rest);
    Visited(EncF64(tag, x) + rest, D.Float64(Bits64(x)), Value.Double(x), rest);
  }

  lemma ReadString(tag: Byte, x: seq<Byte>, rest: seq<Byte>)
    requires ValidUtf8(x) && |x| <= STRING_MAX_LENGTH
    ensures DecodeValue(EncStr(tag, x) + rest) == Ok(Parsed(String(x), rest))
  {
    L.AnyStr(tag, x, rest);
    Visited(EncStr(tag, x) + rest, D.Text(x), String(x), rest);
  }

  lemma ReadBytes(tag: Byte, x: seq<Byte>, rest: seq<Byte>)
    requires |x| <= BYTES_MAX_LENGTH
    ensures DecodeValue(EncBytes(tag, x) + rest) == Ok(Parsed(Bytes(x), rest))
  {
    L.AnyBytes(tag, x, rest);
    Visited(EncBytes(tag, x) + rest, D.Blob(x), Bytes(x), rest);
  }

  /** What the visitor makes of a scalar, a sequence and a map announced
      by `deserialize_any`. */
  lemma Visited(s: seq<Byte>, h: D.Visit, v: Value, rest: seq<Byte>)
    requires D.ReadAny(s) == Ok(Parsed(h, rest))
    requires match h
      case Nothing => v == Zero
      case Integer(x) => -0x8000_0000_0000_0000 <= x < 0x8000_0000_0000_0000 && v == Int(x)
      case Float32(x) => v == Float(x)
      case Float64(x) => x.Bits64? && v == Value.Double(x.bits)
      case Text(x) => v == String(x)
      case Blob(x) => v == Bytes(x)
      case _ => false
    ensures DecodeValue(s) == Ok(Parsed(v, rest))
  {
    ValueOfVisit(s, h, rest);
  }

  lemma VisitedSeq(s: seq<Byte>, n: nat, rest: seq<Byte>)
    requires D.ReadAny(s) == Ok(Parsed(D.SeqOf(n), rest))
    ensures DecodeValue(s) == DecodeList(rest, n, [])
  {
    ValueOfVisit(s, D.SeqOf(n), rest);
  }

  lemma VisitedMap(s: seq<Byte>, n: nat, rest: seq<Byte>)
    requires D.ReadAny(s) == Ok(Parsed(D.MapOf(n), rest))
    ensures DecodeValue(s) == DecodeMap(rest, n, [])
  {
    ValueOfVisit(s, D.MapOf(n), rest);
  }

  /** A list header announces its count and the visitor reads that many
      items. */
  lemma ReadList(tag: Byte, xs: seq<Value>, body: seq<Byte>, rest: seq<Byte>)
    requires |xs| <= I32_MAX
    requires DecodeList(body + rest, |xs|, []) == Ok(Parsed(List([] + xs), rest))
    ensures DecodeValue(EncListBegin(tag, |xs|) + body + rest) == Ok(Parsed(List(xs), rest))
  {
    L.ListHeader(tag, |xs|, body, rest);
    VisitedSeq(EncListBegin(tag, |xs|) + body + rest, |xs|, body + rest);
    assert [] + xs == xs;
  }

  lemma ReadItems(x: Value, tail: seq<Value>, acc: seq<Value>, rest: seq<Byte>, hb: seq<Byte>, tb: seq<Byte>)
    requires DecodeList(tb + rest, |tail|, acc + [x]) == Ok(Parsed(List(acc + [x] + tail), rest))
    requires DecodeValue(hb + (tb + rest)) == Ok(Parsed(x, tb + rest))
    ensures DecodeList(hb + tb + rest, |[x] + tail|, acc) == Ok(Parsed(List(acc + ([x] + tail)), rest))
  {
    ListCons(hb + (tb + rest), x, tb + rest, |tail| + 1, acc, Ok(Parsed(List(acc + [x] + tail), rest)));
    WireLaws.Regroup(hb, tb, rest);
    WireLaws.Regroup(acc, [x], tail);
  }

  /** An element read from `s` is pushed and the list goes on after it. */
  lemma ListCons(s: seq<Byte>, x: Value, mid: seq<Byte>, n: nat, acc: seq<Value>, r: Result<Parsed<Value>>)
    requires n > 0 && DecodeValue(s) == Ok(Parsed(x, mid))
    requires DecodeList(mid, n - 1, acc + [x]) == r
    ensures DecodeList(s, n, acc) == r
  {
  }

  /** A map header announces its count and the visitor reads that many
      entries. */
  lemma ReadMap(tag: Byte, ps: seq<Pair>, body: seq<Byte>, rest: seq<Byte>)
    requires |ps| <= I32_MAX
    requires DecodeMap(body + rest, |ps|, []) == Ok(Parsed(Map([] + ps), rest))
    ensures DecodeValue(EncMapBegin(tag, |ps|) + body + rest) == Ok(Parsed(Map(ps), rest))
  {
    L.MapBeginHeader(tag, |ps|, body, rest);
    VisitedMap(EncMapBegin(tag, |ps|) + body + rest, |ps|, body + rest);
    assert [] + ps == ps;
  }

  /** An entry inserted after the entries read so far. */
  lemma ReadEntries(p: Pair, tail: seq<Pair>, acc: seq<Pair>, rest: seq<Byte>, hb: seq<Byte>, tb: seq<Byte>)
    requires Insert(acc, p.key, p.value) == acc + [p]
    requires DecodeMap(tb + rest, |tail|, acc + [p]) == Ok(Parsed(Map(acc + [p] + tail), rest))
    requires DecodeEntry(hb + (tb + rest)) == Ok(Parsed(p, tb + rest))
    ensures DecodeMap(hb + tb + rest, |[p] + tail|, acc) == Ok(Parsed(Map(acc + ([p] + tail)), rest))
  {
    MapCons(hb + (tb + rest), p, tb + rest, |tail| + 1, acc, acc + [p], Ok(Parsed(Map(acc + [p] + tail), rest)));
    WireLaws.Regroup(hb, tb, rest);
    WireLaws.Regroup(acc, [p], tail);
  }

  lemma ReadEntry(p: Pair, rest: seq<Byte>, kb: seq<Byte>, vb: seq<Byte>)
    requires DecodeValue(vb + rest) == Ok(Parsed(p.value, rest))
    requires DecodeValue(kb + (vb + rest)) == Ok(Parsed(p.key, vb + rest))
    ensures DecodeEntry(kb + vb + rest) == Ok(Parsed(p, rest))
  {
    assert kb + vb + rest == kb + (vb + rest);
  }

  /** A struct header is followed by the fields up to the StructEnd. */
  lemma ReadObject(tag: Byte, fs: seq<Slot>, rest: seq<Byte>)
    requires S.Serializable(ToData(Object(fs))) && S.EncodeFields(FieldsData(fs), {}).Ok?
    requires DecodeObject(S.EncodeFields(FieldsData(fs), {}).value + EncStructEnd() + rest, {}, [])
          == Ok(Parsed(Object([] + fs), rest))
    ensures S.Encode(tag, ToData(Object(fs))).Ok?
    ensures DecodeValue(S.Encode(tag, ToData(Object(fs))).value + rest) == Ok(Parsed(Object(fs), rest))
  {
    ObjectHeader(tag, fs, rest);
    ReadFields(S.Encode(tag, ToData(Object(fs))).value + rest,
               S.EncodeFields(FieldsData(fs), {}).value + EncStructEnd() + rest);
    assert [] + fs == fs;
  }

  lemma ObjectHeader(tag: Byte, fs: seq<Slot>, rest: seq<Byte>)
    requires S.Serializable(ToData(Object(fs)))
    ensures S.Encode(tag, ToData(Object(fs))).Ok? && S.EncodeFields(FieldsData(fs), {}).Ok?
    ensures D.ReadAny(S.Encode(tag, ToData(Object(fs))).value + rest)
         == Ok(Parsed(D.Fields(None), S.EncodeFields(FieldsData(fs), {}).value + EncStructEnd() + rest))
  {
    L.StructHeader(tag, FieldsData(fs), rest);
  }

  lemma ReadFields(s: seq<Byte>, after: seq<Byte>)
    requires D.ReadAny(s) == Ok(Parsed(D.Fields(None), after))
    ensures DecodeValue(s) == DecodeObject(after, {}, [])
  {
    ValueOfVisit(s, D.Fields(None), after);
  }

  /** At the StructEnd the object read so far is complete. */
  lemma ReadObjectEnd(seen: set<Byte>, acc: seq<Slot>, rest: seq<Byte>)
    ensures S.EncodeFields(FieldsData([]), seen) == Ok([])
    ensures DecodeObject([] + EncStructEnd() + rest, seen, acc) == Ok(Parsed(Object(acc + []), rest))
  {
    assert FieldsData([]) == [];
    assert [] + EncStructEnd() + rest == EncStructEnd() + rest;
    assert acc + [] == acc;
    L.EndKey(seen, rest, None);
  }

  /** An entry read from `s` is inserted and the map goes on after it. */
  lemma MapCons(s: seq<Byte>, p: Pair, mid: seq<Byte>, n: nat, acc: seq<Pair>, next: seq<Pair>, r: Result<Parsed<Value>>)
    requires n > 0 && DecodeEntry(s) == Ok(Parsed(p, mid))
    requires Insert(acc, p.key, p.value) == next && DecodeMap(mid, n - 1, next) == r
    ensures DecodeMap(s, n, acc) == r
  {
  }

  /** A field inserted after the fields read so far. */
  lemma ReadSlots(f: Slot, tail: seq<Slot>, seen: set<Byte>, acc: seq<Slot>, rest: seq<Byte>, hb: seq<Byte>, tb: seq<Byte>)
    requires InsertSlot(acc, f.tag, f.value) == acc + [f]
    requires D.TagStep(hb + (tb + EncStructEnd() + rest), seen)
          == Ok(D.KeyStep(Some(f.tag), hb + (tb + EncStructEnd() + rest), seen + {f.tag}))
    requires DecodeValue(hb + (tb + EncStructEnd() + rest)) == Ok(Parsed(f.value, tb + EncStructEnd() + rest))
    requires DecodeObject(tb + EncStructEnd() + rest, seen + {f.tag}, acc + [f]) == Ok(Parsed(Object(acc + [f] + tail), rest))
    ensures DecodeObject(hb + tb + EncStructEnd() + rest, seen, acc) == Ok(Parsed(Object(acc + ([f] + tail)), rest))
  {
    var after := tb + EncStructEnd() + rest;
    ObjectCons(hb + after, seen, acc, f.tag, hb + after, f.value, after, acc + [f]);
    WireLaws.Regroup(hb, tb, EncStructEnd());
    WireLaws.Regroup(hb, tb + EncStructEnd(), rest);
    WireLaws.Regroup(acc, [f], tail);
  }

  lemma ObjectCons(s: seq<Byte>, seen: set<Byte>, acc: seq<Slot>, t: Byte, mid: seq<Byte>, v: Value, rest: seq<Byte>, next: seq<Slot>)
    requires D.TagStep(s, seen) == Ok(D.KeyStep(Some(t), mid, seen + {t}))
    requires DecodeValue(mid) == Ok(Parsed(v, rest)) && InsertSlot(acc, t, v) == next
    ensures DecodeObject(s, seen, acc) == DecodeObject(rest, seen + {t}, next)
  {
  }

  /** A field written at its tag is announced by `get_tag` as that tag. */
  lemma ReadTag(f: Slot, seen: set<Byte>, rest: seq<Byte>)
    requires PlainSlot(f) && f.tag !in seen
    ensures S.Encode(f.tag, ToData(f.value)).Ok?
    ensures var s := S.Encode(f.tag, ToData(f.value)).value + rest;
      D.TagStep(s, seen) == Ok(D.KeyStep(Some(f.tag), s, seen + {f.tag}))
  {
    WritableIff(f.value);
    L.FirstHeader(f.tag, ToData(f.value), rest);
    assert L.WireType(ToData(f.value)) != Types.StructEnd;
  }

  // ------------------------------------------------------------ round trip

  /** A zero integer is written as the Zero type and read back as Zero. */
  lemma IntZeroReadsAsZero(tag: Byte, rest: seq<Byte>)
    ensures S.Encode(tag, ToData(Int(0))).Ok?
    ensures DecodeValue(S.Encode(tag, ToData(Int(0))).value + rest) == Ok(Parsed(Zero, rest))
  {
    EncodeScalar(tag, Int(0));
    assert S.EncodePrimitive(tag, S.I64(0)) == Ok(EncI64(tag, 0));
    ReadInt(tag, 0, rest);
  }

  /** Every plain value is written, and reading the bytes written back
      gives the same value and leaves what follows. */
  lemma {:induction false} RoundTrip(tag: Byte, v: Value, rest: seq<Byte>)
    requires Plain(v)
    ensures S.Encode(tag, ToData(v)).Ok?
    ensures DecodeValue(S.Encode(tag, ToData(v)).value + rest) == Ok(Parsed(v, rest))
    decreases v, 2
  {
    match v
    case List(xs) => ListRoundTrip(tag, xs, rest);
    case Map(ps) => MapRoundTrip(tag, ps, rest);
    case Object(fs) => ObjectRoundTrip(tag, fs, rest);
    case _ => ScalarRoundTrip(tag, v, rest);
  }

  lemma ScalarRoundTrip(tag: Byte, v: Value, rest: seq<Byte>)
    requires Plain(v) && !v.List? && !v.Map? && !v.Object?
    ensures S.Encode(tag, ToData(v)).Ok?
    ensures DecodeValue(S.Encode(tag, ToData(v)).value + rest) == Ok(Parsed(v, rest))
  {
    ScalarBytes(tag, v);
    match v
    case Zero =>
      ReadZero(tag, rest);
      WrittenAs(tag, v, EncZero(tag), rest);
    case Int(x) =>
      ReadInt(tag, x, rest);
      WrittenAs(tag, v, EncI64(tag, x), rest);
    case Float(x) =>
      ReadFloat(tag, x, rest);
      WrittenAs(tag, v, EncF32(tag, x), rest);
    case Double(x) =>
      ReadDouble(tag, x, rest);
      WrittenAs(tag, v, EncF64(tag, x), rest);
    case String(x) =>
      ReadString(tag, x, rest);
      WrittenAs(tag, v, EncStr(tag, x), rest);
    case Bytes(x) =>
      ReadBytes(tag, x, rest);
      WrittenAs(tag, v, EncBytes(tag, x), rest);
  }

  /** The bytes of each scalar. */
  lemma ScalarBytes(tag: Byte, v: Value)
    requires Plain(v) && !v.List? && !v.Map? && !v.Object?
    ensures v.Zero? ==> S.Encode(tag, ToData(v)) == Ok(EncZero(tag))
    ensures v.Int? ==> S.Encode(tag, ToData(v)) == Ok(EncI64(tag, v.i))
    ensures v.Float? ==> S.Encode(tag, ToData(v)) == Ok(EncF32(tag, v.f))
    ensures v.Double? ==> S.Encode(tag, ToData(v)) == Ok(EncF64(tag, v.d))
    ensures v.String? ==> S.Encode(tag, ToData(v)) == Ok(EncStr(tag, v.s))
    ensures v.Bytes? ==> S.Encode(tag, ToData(v)) == Ok(EncBytes(tag, v.b))
  {
    EncodeScalar(tag, v);
    match v
    case Zero => assert S.EncodePrimitive(tag, S.NoneValue) == Ok(EncZero(tag));
    case Int(x) => assert S.EncodePrimitive(tag, S.I64(x)) == Ok(EncI64(tag, x));
    case Float(x) => assert S.EncodePrimitive(tag, S.F32(x)) == Ok(EncF32(tag, x));
    case Double(x) => assert S.EncodePrimitive(tag, S.F64(x)) == Ok(EncF64(tag, x));
    case String(x) => assert S.EncodePrimitive(tag, S.Str(x)) == Ok(EncStr(tag, x));
    case Bytes(x) => assert S.EncodePrimitive(tag, S.Bytes(x)) == Ok(EncBytes(tag, x));
  }

  /** A value written as `b` and read back from `b` completes the round trip. */
  lemma WrittenAs(tag: Byte, v: Value, b: seq<Byte>, rest: seq<Byte>)
    requires S.Encode(tag, ToData(v)) == Ok(b) && DecodeValue(b + rest) == Ok(Parsed(v, rest))
    ensures DecodeValue(S.Encode(tag, ToData(v)).value + rest) == Ok(Parsed(v, rest))
  {
  }

  lemma {:induction false} ListRoundTrip(tag: Byte, xs: seq<Value>, rest: seq<Byte>)
    requires Plain(List(xs))
    ensures S.Encode(tag, ToData(List(xs))).Ok?
    ensures DecodeValue(S.Encode(tag, ToData(List(xs))).value + rest) == Ok(Parsed(List(xs), rest))
    decreases xs, 1
  {
    PlainList(xs);
    ItemsRoundTrip(xs, [], rest);
    EncodeList(tag, xs);
    ReadList(tag, xs, S.EncodeElems(ItemsData(xs)).value, rest);
  }

  lemma {:induction false} ItemsRoundTrip(xs: seq<Value>, acc: seq<Value>, rest: seq<Byte>)
    requires forall i :: 0 <= i < |xs| ==> Plain(xs[i])
    ensures S.EncodeElems(ItemsData(xs)).Ok?
    ensures DecodeList(S.EncodeElems(ItemsData(xs)).value + rest, |xs|, acc) == Ok(Parsed(List(acc + xs), rest))
    decreases xs, 0
  {
    if xs == [] {
      assert ItemsData(xs) == [];
      assert [] + rest == rest && acc + [] == acc;
    } else {
      var x, tail := xs[0], xs[1..];
      assert xs == [x] + tail;
      PlainItemsTail(xs);
      ItemsRoundTrip(tail, acc + [x], rest);
      var tb := S.EncodeElems(ItemsData(tail)).value;
      RoundTrip(0, x, tb + rest);
      EncodeItems(x, tail);
      ReadItems(x, tail, acc, rest, S.Encode(0, ToData(x)).value, tb);
    }
  }

  lemma {:induction false} MapRoundTrip(tag: Byte, ps: seq<Pair>, rest: seq<Byte>)
    requires Plain(Map(ps))
    ensures S.Encode(tag, ToData(Map(ps))).Ok?
    ensures DecodeValue(S.Encode(tag, ToData(Map(ps))).value + rest) == Ok(Parsed(Map(ps), rest))
    decreases ps, 1
  {
    PlainMap(ps);
    assert [] + ps == ps;
    EntriesRoundTrip(ps, [], rest);
    EncodeMapValue(tag, ps);
    ReadMap(tag, ps, S.EncodeEntries(EntriesData(ps)).value, rest);
  }

  lemma {:induction false} EntriesRoundTrip(ps: seq<Pair>, acc: seq<Pair>, rest: seq<Byte>)
    requires forall i :: 0 <= i < |ps| ==> PlainPair(ps[i])
    requires KeysAscending(acc + ps)
    ensures S.EncodeEntries(EntriesData(ps)).Ok?
    ensures DecodeMap(S.EncodeEntries(EntriesData(ps)).value + rest, |ps|, acc) == Ok(Parsed(Map(acc + ps), rest))
    decreases ps, 0
  {
    if ps == [] {
      assert EntriesData(ps) == [];
      assert [] + rest == rest && acc + [] == acc;
    } else {
      var p, tail := ps[0], ps[1..];
      assert ps == [p] + tail;
      PlainEntriesTail(ps, acc);
      EntriesRoundTrip(tail, acc + [p], rest);
      var tb := S.EncodeEntries(EntriesData(tail)).value;
      EntryRoundTrip(p, tb + rest);
      EncodePairs(p, tail);
      ReadEntries(p, tail, acc, rest, S.EncodeEntry(EntryData(p)).value, tb);
    }
  }

  lemma {:induction false} EntryRoundTrip(p: Pair, rest: seq<Byte>)
    requires PlainPair(p)
    ensures S.EncodeEntry(EntryData(p)).Ok?
    ensures DecodeEntry(S.EncodeEntry(EntryData(p)).value + rest) == Ok(Parsed(p, rest))
    decreases p, 1
  {
    RoundTrip(1, p.value, rest);
    var vb := S.Encode(1, ToData(p.value)).value;
    RoundTrip(0, p.key, vb + rest);
    EncodePair(p);
    ReadEntry(p, rest, S.Encode(0, ToData(p.key)).value, vb);
  }

  lemma {:induction false} ObjectRoundTrip(tag: Byte, fs: seq<Slot>, rest: seq<Byte>)
    requires Plain(Object(fs))
    ensures S.Encode(tag, ToData(Object(fs))).Ok?
    ensures DecodeValue(S.Encode(tag, ToData(Object(fs))).value + rest) == Ok(Parsed(Object(fs), rest))
    decreases fs, 1
  {
    PlainObject(fs);
    assert [] + fs == fs;
    SlotsRoundTrip(fs, {}, [], rest);
    ReadObject(tag, fs, rest);
  }

  lemma {:induction false} SlotsRoundTrip(fs: seq<Slot>, seen: set<Byte>, acc: seq<Slot>, rest: seq<Byte>)
    requires forall i :: 0 <= i < |fs| ==> PlainSlot(fs[i]) && fs[i].tag !in seen
    requires TagsAscending(acc + fs)
    ensures S.EncodeFields(FieldsData(fs), seen).Ok?
    ensures DecodeObject(S.EncodeFields(FieldsData(fs), seen).value + EncStructEnd() + rest, seen, acc)
            == Ok(Parsed(Object(acc + fs), rest))
    decreases fs, 0
  {
    if fs == [] {
      ReadObjectEnd(seen, acc, rest);
    } else {
      var f, tail := fs[0], fs[1..];
      assert fs == [f] + tail;
      PlainSlotsTail(fs, seen, acc);
      SlotsRoundTrip(tail, seen + {f.tag}, acc + [f], rest);
      var tb := S.EncodeFields(FieldsData(tail), seen + {f.tag}).value;
      SlotRoundTrip(f, seen, tb + EncStructEnd() + rest);
      EncodeSlots(f, tail, seen);
      ReadSlots(f, tail, seen, acc, rest, S.Encode(f.tag, ToData(f.value)).value, tb);
    }
  }

  /** A field is announced by its tag and read back as its value. */
  lemma {:induction false} SlotRoundTrip(f: Slot, seen: set<Byte>, rest: seq<Byte>)
    requires PlainSlot(f) && f.tag !in seen
    ensures S.Encode(f.tag, ToData(f.value)).Ok?
    ensures var s := S.Encode(f.tag, ToData(f.value)).value + rest;
      D.TagStep(s, seen) == Ok(D.KeyStep(Some(f.tag), s, seen + {f.tag})) &&
      DecodeValue(s) == Ok(Parsed(f.value, rest))
    decreases f, 1
  {
    ReadTag(f, seen, rest);
    RoundTrip(f.tag, f.value, rest);
  }

  /** `from_bytes::<Value>(&to_bytes(&v)?)` gives back `v` for every plain
      value. */
  method WriteThenRead(v: Value) returns (r: Result<Value>)
    requires Plain(v)
    ensures r == Ok(v)
  {
    var bytes := S.ToBytes(ToData(v));
    RoundTrip(0, v, []);
    assert bytes.value + [] == bytes.value;
    r := FromBytes(bytes.value);
  }
}
