/** How a `Value` is written and read (src/value.rs, `impl Serialize` and
    `ValueVisitor`).

    `ToData` is the serde call tree `Value::serialize` makes, so writing a
    value is the serializer's `Encode` of it. `DecodeValue` is what
    `deserialize_any` hands the visitor, followed through the nested
    sequence, map and struct accesses; `DeserializeValue` does the same on
    a `Deserializer`, with the visitor's loops. */
module ValueCodec {
  import opened Errors
  import opened BigEndian
  import opened Utf8
  import opened Parser
  import opened Builder
  import opened Decimal
  import opened Values
  import Types
  import D = Deserialization
  import S = Serialization
  import L = SerdeLaws

  // -------------------------------------------------------------- serialize

  /** `Value::serialize`: Zero is the none value, the scalars their own
      `serialize_*`, a list a sequence of known length, a map a map of known
      length, and an object a struct whose field names are the decimal
      names of its tags. */
  function ToData(v: Value): S.Data
    decreases v
  {
    match v
    case Zero => S.Prim(S.NoneValue)
    case Int(x) => S.Prim(S.I64(x))
    case Float(x) => S.Prim(S.F32(x))
    case Double(x) => S.Prim(S.F64(x))
    case String(x) => S.Prim(S.Str(x))
    case Bytes(x) => S.Prim(S.Bytes(x))
    case List(xs) => S.Seq(Some(|xs|), ItemsData(xs))
    case Map(ps) => S.Map(Some(|ps|), EntriesData(ps))
    case Object(fs) => S.Struct(FieldsData(fs))
  }

  function ItemsData(xs: seq<Value>): seq<S.Data>
    decreases xs
  {
    seq(|xs|, i requires 0 <= i < |xs| => ToData(xs[i]))
  }

  function EntryData(p: Pair): S.Entry
    decreases p
  {
    S.Entry(ToData(p.key), ToData(p.value))
  }

  function EntriesData(ps: seq<Pair>): seq<S.Entry>
    decreases ps
  {
    seq(|ps|, i requires 0 <= i < |ps| => EntryData(ps[i]))
  }

  function FieldData(f: Slot): S.Field
    decreases f
  {
    S.Field(DecimalName(f.tag), ToData(f.value))
  }

  function FieldsData(fs: seq<Slot>): seq<S.Field>
    decreases fs
  {
    seq(|fs|, i requires 0 <= i < |fs| => FieldData(fs[i]))
  }

  /** The limits the serializer puts on a value: strings and byte strings
      within their maximum lengths, lists and maps of at most `i32::MAX`
      entries. */
  predicate Writable(v: Value)
    decreases v
  {
    match v
    case String(x) => |x| <= STRING_MAX_LENGTH
    case Bytes(x) => |x| <= BYTES_MAX_LENGTH
    case List(xs) => |xs| <= I32_MAX && forall i :: 0 <= i < |xs| ==> Writable(xs[i])
    case Map(ps) => |ps| <= I32_MAX && forall i :: 0 <= i < |ps| ==> WritablePair(ps[i])
    case Object(fs) => forall i :: 0 <= i < |fs| ==> WritableSlot(fs[i])
    case _ => true
  }

  predicate WritablePair(p: Pair)
    decreases p
  {
    Writable(p.key) && Writable(p.value)
  }

  predicate WritableSlot(f: Slot)
    decreases f
  {
    Writable(f.value)
  }

  /** A valid value is written exactly when it is within the limits; in
      particular the decimal names of an object's tags always parse back to
      distinct tags. */
  lemma {:induction false} WritableIff(v: Value)
    requires Valid(v)
    ensures S.Serializable(ToData(v)) <==> Writable(v)
    decreases v
  {
    match v
    case List(xs) =>
      forall i | 0 <= i < |xs| ensures S.Serializable(ItemsData(xs)[i]) <==> Writable(xs[i]) {
        WritableIff(xs[i]);
      }
    case Map(ps) =>
      forall i | 0 <= i < |ps| ensures S.SerializableEntry(EntriesData(ps)[i]) <==> WritablePair(ps[i]) {
        WritablePairIff(ps[i]);
      }
    case Object(fs) =>
      FieldNamesDistinct(fs);
      forall i | 0 <= i < |fs| ensures S.SerializableField(FieldsData(fs)[i]) <==> WritableSlot(fs[i]) {
        WritableSlotIff(fs[i]);
      }
    case _ =>
  }

  lemma {:induction false} WritablePairIff(p: Pair)
    requires ValidPair(p)
    ensures S.SerializableEntry(EntryData(p)) <==> WritablePair(p)
    decreases p
  {
    WritableIff(p.key);
    WritableIff(p.value);
  }

  lemma {:induction false} WritableSlotIff(f: Slot)
    requires ValidSlot(f)
    ensures S.SerializableField(FieldData(f)) <==> WritableSlot(f)
    decreases f
  {
    WritableIff(f.value);
  }

  /** The field names of an object with ascending tags name distinct tags,
      each its own. */
  lemma FieldNamesDistinct(fs: seq<Slot>)
    requires TagsAscending(fs)
    ensures DistinctTagNames(S.Names(FieldsData(fs)))
    ensures forall i :: 0 <= i < |fs| ==> ParseU8(S.Names(FieldsData(fs))[i]) == Some(fs[i].tag)
  {
    forall i | 0 <= i < |fs| ensures ParseU8(S.Names(FieldsData(fs))[i]) == Some(fs[i].tag) {
      ParseDecimalName(fs[i].tag);
    }
  }

  /** Writing a valid value at any tag succeeds exactly within the limits. */
  lemma WriteOk(tag: Byte, v: Value)
    requires Valid(v)
    ensures S.Encode(tag, ToData(v)).Ok? <==> Writable(v)
  {
    WritableIff(v);
    L.EncodeOk(tag, ToData(v));
  }

  // ------------------------------------------------------------ deserialize

  /** What `deserialize_any` can hand over: an integer of at most 64 bits,
      a double read from an F64 header (an F32 header is handed over as an
      f32), and none of the visits that only typed entry points make. */
  lemma AnyShapes(s: seq<Byte>)
    ensures D.ReadAny(s).Ok? ==>
      var x := D.ReadAny(s).value.value;
      (x.Integer? ==> -0x8000_0000_0000_0000 <= x.i < 0x8000_0000_0000_0000) &&
      (x.Float64? ==> x.d.Bits64?) &&
      !x.Boolean? && !x.Character? && !x.Something? && !x.UnitValue?
  {
    Pow256Values();
    if PickHead(s).Ok? {
      match PickHead(s).value.tp
      case I8 => HalfMonotone(1, 8);
      case I16 => HalfMonotone(2, 8);
      case I32 => HalfMonotone(4, 8);
      case _ =>
    }
  }

  /** The value `ValueVisitor` builds from the next bytes: `visit_none` is
      Zero, every integer width is Int, `visit_f32` Float, `visit_f64`
      Double, `visit_str` String, `visit_bytes` Bytes; a sequence access is
      a List, a map access with a size hint a Map, and one without (a struct
      body) an Object. The visits it has no method for are serde's defaults:
      a char is handed on as a string, anything else is an invalid type. */
  function DecodeValue(s: seq<Byte>): (r: Result<Parsed<Value>>)
    ensures Consumed(s, r)
    decreases |s|, 0
  {
    var h :- D.ReadAny(s);
    AnyShapes(s);
    match h.value
    case Nothing => Ok(Parsed(Zero, h.rest))
    case Integer(x) => Ok(Parsed(Int(x), h.rest))
    case Float32(x) => Ok(Parsed(Float(x), h.rest))
    case Float64(x) => Ok(Parsed(Value.Double(x.bits), h.rest))
    case Text(x) => Ok(Parsed(String(x), h.rest))
    case Character(x) => Ok(Parsed(String(x), h.rest))
    case Blob(x) => Ok(Parsed(Bytes(x), h.rest))
    case SeqOf(n) => DecodeList(h.rest, n, [])
    case MapOf(n) => DecodeMap(h.rest, n, [])
    case Fields(_) => DecodeObject(h.rest, {}, [])
    case _ => Err(Message("invalid type"))
  }

  /** `next_element_seed` of the `Sequence` access with `left` elements
      still announced, for the value seed: nothing once the count is
      reached, otherwise the next value. */
  function DecodeElement(s: seq<Byte>, left: nat): (r: Result<Parsed<Option<Value>>>)
    ensures r.Ok? ==> (r.value.value.None? <==> left == 0)
    ensures r.Ok? && r.value.value.None? ==> r.value.rest == s
    ensures r.Ok? && r.value.value.Some? ==> |r.value.rest| < |s|
    decreases |s|, 1
  {
    if left == 0 then Ok(Parsed(None, s))
    else
      var x :- DecodeValue(s);
      Ok(Parsed(Some(x.value), x.rest))
  }

  /** `visit_seq`: the elements of an access with `n` more announced, each
      pushed after `acc`. */
  function DecodeList(s: seq<Byte>, n: nat, acc: seq<Value>): (r: Result<Parsed<Value>>)
    ensures r.Ok? ==> |r.value.rest| <= |s|
    decreases |s|, 2, n
  {
    var e :- DecodeElement(s, n);
    match e.value
    case None => Ok(Parsed(List(acc), e.rest))
    case Some(x) => DecodeList(e.rest, n - 1, acc + [x])
  }

  /** `next_entry`: a key and then its value, each a value. */
  function DecodeEntry(s: seq<Byte>): (r: Result<Parsed<Pair>>)
    ensures Consumed(s, r)
    decreases |s|, 1
  {
    var k :- DecodeValue(s);
    var v :- DecodeValue(k.rest);
    Ok(Parsed(Pair(k.value, v.value), v.rest))
  }

  /** `visit_map` with a size hint: `n` more entries, each inserted into
      `acc`. */
  function DecodeMap(s: seq<Byte>, n: nat, acc: seq<Pair>): (r: Result<Parsed<Value>>)
    ensures r.Ok? ==> |r.value.rest| <= |s|
    decreases |s|, 3, n
  {
    if n == 0 then Ok(Parsed(Map(acc), s))
    else
      var e :- DecodeEntry(s);
      DecodeMap(e.rest, n - 1, Insert(acc, e.value.key, e.value.value))
  }

  /** `visit_map` without a size hint: the tags of a struct body up to its
      StructEnd, each value inserted into `acc` under its tag. */
  function DecodeObject(s: seq<Byte>, seen: set<Byte>, acc: seq<Slot>): (r: Result<Parsed<Value>>)
    ensures r.Ok? ==> |r.value.rest| < |s|
    decreases |s|, 1
  {
    var st :- D.TagStep(s, seen);
    match st.key
    case None => Ok(Parsed(Object(acc), st.rest))
    case Some(t) =>
      var v :- DecodeValue(st.rest);
      DecodeObject(v.rest, st.seen, InsertSlot(acc, t, v.value))
  }

  /** One step of a map with `left` entries still announced: none ends
      it, the entry read from `s` is inserted and the map goes on after it,
      and an entry that cannot be read ends the map with its error. */
  lemma MapNext(s: seq<Byte>, left: nat, acc: seq<Pair>, e: Result<Option<Pair>>, mid: seq<Byte>)
    requires left == 0 ==> e == Ok(None) && mid == s
    requires left != 0 ==> D.SomeAgrees(e, mid, DecodeEntry(s))
    ensures e.Err? ==> DecodeMap(s, left, acc) == Err(e.error)
    ensures e == Ok(None) ==> DecodeMap(s, left, acc) == Ok(Parsed(Map(acc), mid))
    ensures e.Ok? && e.value.Some? ==>
      left > 0 && DecodeMap(s, left, acc) == DecodeMap(mid, left - 1, Insert(acc, e.value.value.key, e.value.value.value))
  {
  }

  /** The key step of an object: none ends it at its StructEnd, a tag is
      the one `TagStep` yields, and a key that cannot be read ends the
      object with its error. */
  lemma ObjectKey(b: seq<Byte>, seen: set<Byte>, fields: seq<Slot>, key: Result<Option<D.Key>>,
                  mid: seq<Byte>, seenAfter: set<Byte>)
    requires D.KeyAgrees(key, t => D.KeyOf(t, None), mid, seenAfter, D.NextKeySpec(b, seen, None))
    ensures key.Err? ==> DecodeObject(b, seen, fields) == Err(key.error)
    ensures key == Ok(None) ==> DecodeObject(b, seen, fields) == Ok(Parsed(Object(fields), mid))
    ensures key.Ok? && key.value.Some? ==>
      key.value.value.Tag? && D.TagStep(b, seen) == Ok(D.KeyStep(Some(key.value.value.tag), mid, seenAfter))
  {
  }

  /** The value step of an object: the value read after tag `t` is
      inserted under it and the object goes on, or its error ends it. */
  lemma ObjectValue(b: seq<Byte>, seen: set<Byte>, fields: seq<Slot>, t: Byte, mid: seq<Byte>,
                    seenAfter: set<Byte>, v: Result<Value>, after: seq<Byte>)
    requires D.TagStep(b, seen) == Ok(D.KeyStep(Some(t), mid, seenAfter))
    requires Agrees(v, after, DecodeValue(mid))
    ensures v.Err? ==> DecodeObject(b, seen, fields) == Err(v.error)
    ensures v.Ok? ==> DecodeObject(b, seen, fields) == DecodeObject(after, seenAfter, InsertSlot(fields, t, v.value))
  {
  }

  /** The `n` elements that follow in `s`, read one after the other. */
  ghost function ItemsRead(s: seq<Byte>, n: nat): (r: Result<Parsed<seq<Value>>>)
    ensures r.Ok? ==> |r.value.value| == n
    decreases n
  {
    if n == 0 then Ok(Parsed([], s))
    else
      var e :- DecodeElement(s, n);
      var xs :- ItemsRead(e.rest, n - 1);
      Ok(Parsed([e.value.value] + xs.value, xs.rest))
  }

  /** `visit_seq` over an access announcing `n` elements reads exactly `n`
      values and pushes them, in order, after `acc`. */
  lemma {:induction false} ListCount(s: seq<Byte>, n: nat, acc: seq<Value>)
    ensures ItemsRead(s, n).Err? ==> DecodeList(s, n, acc) == Err(ItemsRead(s, n).error)
    ensures ItemsRead(s, n).Ok? ==>
      DecodeList(s, n, acc) == Ok(Parsed(List(acc + ItemsRead(s, n).value.value), ItemsRead(s, n).value.rest))
    decreases n
  {
    if n == 0 {
      assert acc + [] == acc;
    } else {
      var e := DecodeElement(s, n);
      if e.Ok? {
        var x := e.value.value.value;
        ListCount(e.value.rest, n - 1, acc + [x]);
        var r := ItemsRead(e.value.rest, n - 1);
        if r.Ok? {
          assert acc + [x] + r.value.value == acc + ([x] + r.value.value);
        }
      }
    }
  }

  /** The `n` entries that follow in `s`, read one after the other. */
  ghost function EntriesRead(s: seq<Byte>, n: nat): (r: Result<Parsed<seq<Pair>>>)
    ensures r.Ok? ==> |r.value.value| == n
    decreases n
  {
    if n == 0 then Ok(Parsed([], s))
    else
      var e :- DecodeEntry(s);
      var es :- EntriesRead(e.rest, n - 1);
      Ok(Parsed([e.value] + es.value, es.rest))
  }

  /** The entries `es` inserted into `acc` in the order they were read. */
  function InsertAll(acc: seq<Pair>, es: seq<Pair>): seq<Pair>
    decreases |es|
  {
    if es == [] then acc else InsertAll(Insert(acc, es[0].key, es[0].value), es[1..])
  }

  /** `visit_map` over an access announcing `n` entries reads exactly `n`
      entries and inserts each, in order, into the map it returns. */
  lemma {:induction false} MapCount(s: seq<Byte>, n: nat, acc: seq<Pair>)
    ensures EntriesRead(s, n).Err? ==> DecodeMap(s, n, acc) == Err(EntriesRead(s, n).error)
    ensures EntriesRead(s, n).Ok? ==>
      DecodeMap(s, n, acc) == Ok(Parsed(Map(InsertAll(acc, EntriesRead(s, n).value.value)), EntriesRead(s, n).value.rest))
    decreases n
  {
    if n > 0 {
      match DecodeEntry(s)
      case Err(_) =>
      case Ok(e) =>
        var acc' := Insert(acc, e.value.key, e.value.value);
        MapCount(e.rest, n - 1, acc');
        match EntriesRead(e.rest, n - 1)
        case Err(_) =>
        case Ok(es) =>
          assert ([e.value] + es.value)[1..] == es.value;
    }
  }

  /** `DecodeValue` once `deserialize_any` has handed over its visit. */
  lemma ValueOfVisit(s: seq<Byte>, h: D.Visit, rest: seq<Byte>)
    requires D.ReadAny(s) == Ok(Parsed(h, rest))
    ensures !h.Boolean? && !h.Character? && !h.Something? && !h.UnitValue?
    ensures h.Integer? ==> -0x8000_0000_0000_0000 <= h.i < 0x8000_0000_0000_0000
    ensures h.Float64? ==> h.d.Bits64?
    ensures h.Nothing? ==> DecodeValue(s) == Ok(Parsed(Zero, rest))
    ensures h.Integer? ==> DecodeValue(s) == Ok(Parsed(Int(h.i), rest))
    ensures h.Float32? ==> DecodeValue(s) == Ok(Parsed(Float(h.f), rest))
    ensures h.Float64? ==> DecodeValue(s) == Ok(Parsed(Value.Double(h.d.bits), rest))
    ensures h.Text? ==> DecodeValue(s) == Ok(Parsed(String(h.text), rest))
    ensures h.Blob? ==> DecodeValue(s) == Ok(Parsed(Bytes(h.blob), rest))
    ensures h.SeqOf? ==> DecodeValue(s) == DecodeList(rest, h.len, [])
    ensures h.MapOf? ==> DecodeValue(s) == DecodeMap(rest, h.len, [])
    ensures h.Fields? ==> DecodeValue(s) == DecodeObject(rest, {}, [])
  {
    AnyShapes(s);
  }

  /** `Value::deserialize`: `deserialize_any` with `ValueVisitor`. */
  method DeserializeValue(de: D.Deserializer) returns (r: Result<Value>)
    modifies de.parser
    ensures Agrees(r, de.parser.bytes, DecodeValue(old(de.parser.bytes)))
    decreases |de.parser.bytes|, 0
  {
    ghost var s := de.parser.bytes;
    var x :- de.DeserializeAny();
    ValueOfVisit(s, x, de.parser.bytes);
    match x {
      case Nothing => return Ok(Zero);
      case Integer(i) => return Ok(Int(i));
      case Float32(f) => return Ok(Float(f));
      case Float64(d) => return Ok(Value.Double(d.bits));
      case Text(t) => return Ok(String(t));
      case Character(c) => return Ok(String(c));
      case Blob(b) => return Ok(Bytes(b));
      case SeqOf(n) => r := VisitSeq(de, n);
      case MapOf(n) => r := VisitMap(de, n);
      case Fields(_) => r := VisitObject(de);
      case _ => return Err(Message("invalid type"));
    }
  }

  /** `next_element_seed` of the `Sequence` access with the value seed:
      nothing once `size` elements were read, otherwise the count is
      advanced and the element is read with this same visitor. */
  method NextElement(access: D.Sequence) returns (r: Result<Option<Value>>)
    requires access.Valid()
    modifies access, access.de.parser
    ensures access.Valid()
    ensures Agrees(r, access.de.parser.bytes, DecodeElement(old(access.de.parser.bytes), access.size - old(access.cur)))
    ensures r.Ok? && r.value.Some? ==> access.cur == old(access.cur) + 1
    decreases |access.de.parser.bytes|, 1
  {
    if access.cur == access.size {
      return Ok(None);
    }
    access.cur := access.cur + 1;
    var x :- DeserializeValue(access.de);
    return Ok(Some(x));
  }

  /** `visit_seq` over the `Sequence` access of `n` elements. */
  method VisitSeq(de: D.Deserializer, n: nat) returns (r: Result<Value>)
    modifies de.parser
    ensures Agrees(r, de.parser.bytes, DecodeList(old(de.parser.bytes), n, []))
    decreases |de.parser.bytes|, 2
  {
    ghost var s := de.parser.bytes;
    var access := new D.Sequence(de, n);
    var items: seq<Value> := [];
    while true
      invariant access.de == de && access.size == n && access.Valid() && |de.parser.bytes| <= |s|
      invariant DecodeList(de.parser.bytes, n - access.cur, items) == DecodeList(s, n, [])
      decreases n - access.cur
    {
      var x :- NextElement(access);
      if x.None? {
        return Ok(List(items));
      }
      items := items + [x.value];
    }
  }

  /** `next_key_seed` of the `Sequence` access with the value seed:
      nothing once `size` values were read, otherwise the next key; the
      count is left to the value. */
  method NextKey(access: D.Sequence) returns (r: Result<Option<Value>>)
    requires access.Valid()
    modifies access.de.parser
    ensures Agrees(r, access.de.parser.bytes, DecodeElement(old(access.de.parser.bytes), access.size - access.cur))
    decreases |access.de.parser.bytes|, 1
  {
    if access.cur == access.size {
      return Ok(None);
    }
    var x :- DeserializeValue(access.de);
    return Ok(Some(x));
  }

  /** `next_value_seed` of the `Sequence` access with the value seed:
      called only after a key, it counts one more and reads the value. */
  method NextValue(access: D.Sequence) returns (r: Result<Value>)
    requires access.Valid() && access.cur < access.size
    modifies access, access.de.parser
    ensures access.Valid() && access.cur == old(access.cur) + 1
    ensures Agrees(r, access.de.parser.bytes, DecodeValue(old(access.de.parser.bytes)))
    decreases |access.de.parser.bytes|, 1
  {
    access.cur := access.cur + 1;
    r := DeserializeValue(access.de);
  }

  /** serde's `next_entry` on the `Sequence` access: `next_key` and, when
      it yields a key, `next_value`. */
  method NextEntry(access: D.Sequence) returns (r: Result<Option<Pair>>)
    requires access.Valid()
    modifies access, access.de.parser
    ensures access.Valid()
    ensures old(access.cur) == access.size ==>
      r == Ok(None) && access.de.parser.bytes == old(access.de.parser.bytes)
    ensures old(access.cur) != access.size ==>
      D.SomeAgrees(r, access.de.parser.bytes, DecodeEntry(old(access.de.parser.bytes)))
    ensures r.Ok? && r.value.Some? ==> access.cur == old(access.cur) + 1
    decreases |access.de.parser.bytes|, 2
  {
    var key :- NextKey(access);
    if key.None? {
      return Ok(None);
    }
    var value :- NextValue(access);
    return Ok(Some(Pair(key.value, value)));
  }

  /** `visit_map` over the `Sequence` access of `n` entries: `next_key`
      checks the count and `next_value` advances it. */
  method VisitMap(de: D.Deserializer, n: nat) returns (r: Result<Value>)
    modifies de.parser
    ensures Agrees(r, de.parser.bytes, DecodeMap(old(de.parser.bytes), n, []))
    decreases |de.parser.bytes|, 3
  {
    ghost var s := de.parser.bytes;
    var access := new D.Sequence(de, n);
    var entries: seq<Pair> := [];
    while true
      invariant access.de == de && access.size == n && access.Valid() && |de.parser.bytes| <= |s|
      invariant DecodeMap(de.parser.bytes, n - access.cur, entries) == DecodeMap(s, n, [])
      decreases n - access.cur
    {
      ghost var b, left := de.parser.bytes, n - access.cur;
      var e := NextEntry(access);
      MapNext(b, left, entries, e, de.parser.bytes);
      if e.Err? {
        return Err(e.error);
      }
      if e.value.None? {
        return Ok(Map(entries));
      }
      entries := Insert(entries, e.value.value.key, e.value.value.value);
    }
  }

  /** `visit_map` over a `TagsAccess` that accepts any tag: `next_key` gives
      the tag, the value is read with this same visitor. */
  method VisitObject(de: D.Deserializer) returns (r: Result<Value>)
    modifies de.parser
    ensures Agrees(r, de.parser.bytes, DecodeObject(old(de.parser.bytes), {}, []))
    decreases |de.parser.bytes|, 1
  {
    ghost var s := de.parser.bytes;
    var access := new D.TagsAccess(de);
    var fields: seq<Slot> := [];
    while true
      invariant access.de == de && access.fields == None && |de.parser.bytes| <= |s|
      invariant DecodeObject(de.parser.bytes, access.tags, fields) == DecodeObject(s, {}, [])
      decreases |de.parser.bytes|
    {
      ghost var b, seen := de.parser.bytes, access.tags;
      var key := access.NextKey();
      ObjectKey(b, seen, fields, key, de.parser.bytes, access.tags);
      if key.Err? {
        return Err(key.error);
      }
      if key.value.None? {
        return Ok(Object(fields));
      }
      ghost var mid := de.parser.bytes;
      var value := DeserializeValue(de);
      ObjectValue(b, seen, fields, key.value.value.tag, mid, access.tags, value, de.parser.bytes);
      if value.Err? {
        return Err(value.error);
      }
      fields := InsertSlot(fields, key.value.value.tag, value.value);
    }
  }

  /** `from_bytes::<Value>`: one value and nothing after it. */
  method FromBytes(bytes: seq<Byte>) returns (r: Result<Value>)
    ensures DecodeValue(bytes).Err? ==> r == Err(DecodeValue(bytes).error)
    ensures DecodeValue(bytes).Ok? && DecodeValue(bytes).value.rest == [] ==>
      r == Ok(DecodeValue(bytes).value.value)
    ensures DecodeValue(bytes).Ok? && DecodeValue(bytes).value.rest != [] ==> r == Err(TrailingBytes)
  {
    var de := new D.Deserializer.FromBytes(bytes);
    var v :- DeserializeValue(de);
    if de.Done() {
      return Ok(v);
    }
    return Err(TrailingBytes);
  }
}
