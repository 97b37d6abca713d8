/** The serde back end over the builder (src/ser/serializer.rs).

    A value to serialize is given as a tree of the serde data model
    (`Data`), one constructor per `serialize_*` call a `Serialize`
    implementation can make. `Encode` says what bytes the serializer appends
    for it, or which error it stops with; the `Serializer` and
    `StructSerializer` classes do it step by step on a `Jcebuilder`, saving
    and restoring the current tag around nested values the way the source
    does. */
module Serialization {
  import opened Errors
  import opened BigEndian
  import Types
  import opened Builder
  import opened Decimal

  type Uint16 = x: int | 0 <= x < 0x1_0000
  type Int128 = x: int | -0x8000_0000_0000_0000_0000_0000_0000_0000 <= x < 0x8000_0000_0000_0000_0000_0000_0000_0000
  type Uint128 = x: int | 0 <= x < 0x1_0000_0000_0000_0000_0000_0000_0000_0000

  /** A serde data-model call that writes one value and nests none.
      Strings, chars and variant names are their UTF-8 bytes. */
  datatype Primitive =
    | Bool(b: bool)
    | I8(i8: Int8)
    | I16(i16: Int16)
    | I32(i32: Int32)
    | I64(i64: Int64)
    | I128(i128: Int128)
    | U8(u8: Byte)
    | U16(u16: Uint16)
    | U32(u32: Uint32)
    | U64(u64: Uint64)
    | U128(u128: Uint128)
    | F32(f32: Uint32)
    | F64(f64: Uint64)
    | Char(utf8: seq<Byte>)
    | Str(str: seq<Byte>)
    | Bytes(bytes: seq<Byte>)
    | NoneValue
    | Unit
    | UnitStruct
    | UnitVariant(variant: seq<Byte>)

  /** The serde calls a `Serialize` implementation makes for one value.
      `Tuple` stands for tuples, tuple structs and tuple variants (their
      length is the number of elements); `Seq` and `Map` carry the length
      their `Serialize` implementation announces, if any. `Struct` stands
      for structs and struct variants. */
  datatype Data =
    | Prim(p: Primitive)
    | SomeValue(some: Data)
    | NewtypeStruct(inner: Data)
    | NewtypeVariant(inner: Data)
    | Seq(len: Option<nat>, elems: seq<Data>)
    | Tuple(elems: seq<Data>)
    | Map(len: Option<nat>, entries: seq<Entry>)
    | Struct(fields: seq<Field>)

  datatype Entry = Entry(key: Data, value: Data)

  datatype Field = Field(name: string, value: Data)

  /** `v as i64` on an i128: the low 64 bits, read as two's complement. */
  function Wrap64(v: int): (r: Int64)
    ensures -0x8000_0000_0000_0000 <= v <= I64_MAX ==> r == v
    ensures (r - v) % 0x1_0000_0000_0000_0000 == 0
  {
    (v + 0x8000_0000_0000_0000) % 0x1_0000_0000_0000_0000 - 0x8000_0000_0000_0000
  }

  /** `serialize_str`: refused above `STRING_MAX_LENGTH` bytes. */
  function EncodeStr(tag: Byte, v: seq<Byte>): (r: Result<seq<Byte>>)
    ensures r.Ok? <==> |v| <= STRING_MAX_LENGTH
    ensures r.Err? ==> r.error == StringTooLong
  {
    if |v| <= STRING_MAX_LENGTH then Ok(EncStr(tag, v)) else Err(StringTooLong)
  }

  /** `serialize_i64` after the check of the wider types: refused above
      `i64::MAX`. */
  function EncodeUpTo64(tag: Byte, v: int): (r: Result<seq<Byte>>)
    requires -0x8000_0000_0000_0000 <= v
    ensures r.Ok? <==> v <= I64_MAX
    ensures r.Err? ==> r.error == IntTooBig
  {
    if v <= I64_MAX then Ok(EncI64(tag, v)) else Err(IntTooBig)
  }

  /** The errors the serializer can stop with. */
  predicate SerError(e: Error)
  {
    e in {IntTooBig, StringTooLong, BytesTooLong, NeedLength, SeqTooLong, MapTooLong,
          ErrorFieldTag, DuplicateFieldTag}
  }

  /** The bytes the serializer appends for `d` written at `tag`: `Some` and
      the newtypes are written as what they wrap, tuples as sequences of
      their own length. */
  function Encode(tag: Byte, d: Data): (r: Result<seq<Byte>>)
    ensures r.Err? ==> SerError(r.error)
    decreases d, 2
  {
    match d
    case SomeValue(x) => Encode(tag, x)
    case NewtypeStruct(x) => Encode(tag, x)
    case NewtypeVariant(x) => Encode(tag, x)
    case Seq(len, elems) => EncodeSeq(tag, len, elems)
    case Tuple(elems) => EncodeSeq(tag, Some(|elems|), elems)
    case Map(len, entries) => EncodeMap(tag, len, entries)
    case Struct(fields) => EncodeStruct(tag, fields)
    case Prim(p) => EncodePrimitive(tag, p)
  }

  /** The writers of single values: bool as i8, each unsigned type as the
      next wider signed type, the none value and the unit types as Zero, a
      char and a unit variant's name as strings. */
  function EncodePrimitive(tag: Byte, p: Primitive): (r: Result<seq<Byte>>)
    ensures r.Err? ==> SerError(r.error)
  {
    match p
    case Bool(b) => Ok(EncI8(tag, if b then 1 else 0))
    case I8(v) => Ok(EncI8(tag, v))
    case I16(v) => Ok(EncI16(tag, v))
    case I32(v) => Ok(EncI32(tag, v))
    case I64(v) => Ok(EncI64(tag, v))
    case I128(v) => if v <= I64_MAX then Ok(EncI64(tag, Wrap64(v))) else Err(IntTooBig)
    case U8(v) => Ok(EncI16(tag, v))
    case U16(v) => Ok(EncI32(tag, v))
    case U32(v) => Ok(EncI64(tag, v))
    case U64(v) => EncodeUpTo64(tag, v)
    case U128(v) => EncodeUpTo64(tag, v)
    case F32(bits) => Ok(EncF32(tag, bits))
    case F64(bits) => Ok(EncF64(tag, bits))
    case Char(c) => EncodeStr(tag, c)
    case Str(v) => EncodeStr(tag, v)
    case Bytes(v) => if |v| <= BYTES_MAX_LENGTH then Ok(EncBytes(tag, v)) else Err(BytesTooLong)
    case NoneValue => Ok(EncZero(tag))
    case Unit => Ok(EncZero(tag))
    case UnitStruct => Ok(EncZero(tag))
    case UnitVariant(name) => EncodeStr(tag, name)
  }

  /** `serialize_seq`: the length must be known and fit an i32; then the
      List header and count, then each element at tag 0. */
  function EncodeSeq(tag: Byte, len: Option<nat>, elems: seq<Data>): (r: Result<seq<Byte>>)
    ensures r.Err? ==> SerError(r.error)
    decreases elems, 1
  {
    if len.None? then Err(NeedLength)
    else if len.value > I32_MAX then Err(SeqTooLong)
    else
      var body :- EncodeElems(elems);
      Ok(EncListBegin(tag, len.value) + body)
  }

  function EncodeElems(elems: seq<Data>): (r: Result<seq<Byte>>)
    ensures r.Err? ==> SerError(r.error)
    decreases elems, 0
  {
    if elems == [] then Ok([])
    else
      var head :- Encode(0, elems[0]);
      var tail :- EncodeElems(elems[1..]);
      Ok(head + tail)
  }

  /** `serialize_map`: as `serialize_seq` with the Map header; each key is
      written at tag 0 and each value at tag 1. */
  function EncodeMap(tag: Byte, len: Option<nat>, entries: seq<Entry>): (r: Result<seq<Byte>>)
    ensures r.Err? ==> SerError(r.error)
    decreases entries, 1
  {
    if len.None? then Err(NeedLength)
    else if len.value > I32_MAX then Err(MapTooLong)
    else
      var body :- EncodeEntries(entries);
      Ok(EncMapBegin(tag, len.value) + body)
  }

  function EncodeEntries(entries: seq<Entry>): (r: Result<seq<Byte>>)
    ensures r.Err? ==> SerError(r.error)
    decreases entries, 0
  {
    if entries == [] then Ok([])
    else
      var head :- EncodeEntry(entries[0]);
      var tail :- EncodeEntries(entries[1..]);
      Ok(head + tail)
  }

  function EncodeEntry(e: Entry): (r: Result<seq<Byte>>)
    ensures r.Err? ==> SerError(r.error)
    decreases e, 3
  {
    var key :- Encode(0, e.key);
    var value :- Encode(1, e.value);
    Ok(key + value)
  }

  /** `serialize_struct`: StructBegin, the fields, StructEnd. */
  function EncodeStruct(tag: Byte, fields: seq<Field>): (r: Result<seq<Byte>>)
    ensures r.Err? ==> SerError(r.error)
    decreases fields, 1
  {
    var body :- EncodeFields(fields, {});
    Ok(EncStructBegin(tag) + body + EncStructEnd())
  }

  /** The fields of a struct; `seen` holds the tags of the earlier fields. */
  function EncodeFields(fields: seq<Field>, seen: set<Byte>): (r: Result<seq<Byte>>)
    ensures r.Err? ==> SerError(r.error)
    decreases fields, 0
  {
    if fields == [] then Ok([])
    else
      var head :- EncodeField(fields[0], seen);
      var tail :- EncodeFields(fields[1..], seen + {ParseU8(fields[0].name).value});
      Ok(head + tail)
  }

  /** `serialize_field`: a name that is not a u8 is `ErrorFieldTag` and a
      tag already written `DuplicateFieldTag`, both found before the value
      is written; the value is written at the tag its name denotes. */
  function EncodeField(f: Field, seen: set<Byte>): (r: Result<seq<Byte>>)
    ensures r.Err? ==> SerError(r.error)
    ensures r.Ok? ==> ParseU8(f.name).Some? && ParseU8(f.name).value !in seen
    ensures ParseU8(f.name).None? ==> r == Err(ErrorFieldTag)
    ensures ParseU8(f.name).Some? && ParseU8(f.name).value in seen ==> r == Err(DuplicateFieldTag)
    decreases f, 3
  {
    match ParseU8(f.name)
    case None => Err(ErrorFieldTag)
    case Some(t) =>
      if t in seen then Err(DuplicateFieldTag) else Encode(t, f.value)
  }

  // --------------------------------------------------- what can be written

  /** The field names in order, as `#[derive(Serialize)]` lists them. */
  function Names(fields: seq<Field>): seq<string>
  {
    seq(|fields|, i requires 0 <= i < |fields| => fields[i].name)
  }

  /** The data the serializer accepts, stated without reference to how it
      is written: integers up to `i64::MAX`, strings and byte strings within
      their maximum lengths, sequences and maps whose length is announced
      and fits an i32, and structs whose field names are distinct tags. */
  predicate Serializable(d: Data)
    decreases d, 1
  {
    match d
    case Prim(p) => SerializablePrimitive(p)
    case SomeValue(x) => Serializable(x)
    case NewtypeStruct(x) => Serializable(x)
    case NewtypeVariant(x) => Serializable(x)
    case Seq(len, elems) =>
      len.Some? && len.value <= I32_MAX && forall i :: 0 <= i < |elems| ==> Serializable(elems[i])
    case Tuple(elems) =>
      |elems| <= I32_MAX && forall i :: 0 <= i < |elems| ==> Serializable(elems[i])
    case Map(len, entries) =>
      len.Some? && len.value <= I32_MAX && forall i :: 0 <= i < |entries| ==> SerializableEntry(entries[i])
    case Struct(fields) =>
      DistinctTagNames(Names(fields)) && forall i :: 0 <= i < |fields| ==> SerializableField(fields[i])
  }

  predicate SerializablePrimitive(p: Primitive)
  {
    match p
    case I128(v) => v <= I64_MAX
    case U64(v) => v <= I64_MAX
    case U128(v) => v <= I64_MAX
    case Char(c) => |c| <= STRING_MAX_LENGTH
    case Str(v) => |v| <= STRING_MAX_LENGTH
    case Bytes(v) => |v| <= BYTES_MAX_LENGTH
    case UnitVariant(name) => |name| <= STRING_MAX_LENGTH
    case _ => true
  }

  predicate SerializableEntry(e: Entry)
    decreases e, 2
  {
    Serializable(e.key) && Serializable(e.value)
  }

  predicate SerializableField(f: Field)
    decreases f, 2
  {
    Serializable(f.value)
  }

  // ------------------------------------------------------------ the writer

  /** The method result and the bytes after it are what `spec` computed:
      `before` extended by the encoding, or the encoding's error. */
  ghost predicate Wrote(r: Result<()>, before: seq<Byte>, after: seq<Byte>, spec: Result<seq<Byte>>)
  {
    match spec
    case Ok(b) => r == Ok(()) && after == before + b
    case Err(e) => r == Err(e)
  }

  class Serializer {
    var tag: Byte
    const builder: Jcebuilder

    /** `new`: tag 0 and an empty builder. */
    constructor ()
      ensures tag == 0 && fresh(builder) && builder.bytes == []
    {
      tag := 0;
      builder := new Jcebuilder();
    }

    /** `done`. */
    function Done(): seq<Byte>
      reads this, builder
    {
      builder.bytes
    }

    /** `value.serialize(&mut serializer)` for the value whose serde calls
        are `d`. After an error the bytes written are not described: the
        source discards them. */
    method Serialize(d: Data) returns (r: Result<()>)
      modifies this, builder
      ensures Wrote(r, old(builder.bytes), builder.bytes, Encode(old(tag), d))
      ensures r.Ok? ==> tag == old(tag)
      decreases d, 2
    {
      match d {
        case SomeValue(x) =>
          r := Serialize(x);
        case NewtypeStruct(x) =>
          r := Serialize(x);
        case NewtypeVariant(x) =>
          r := Serialize(x);
        case Seq(len, elems) =>
          r := SerializeSeq(len, elems);
        case Tuple(elems) =>
          r := SerializeSeq(Some(|elems|), elems);
        case Map(len, entries) =>
          r := SerializeMap(len, entries);
        case Struct(fields) =>
          r := SerializeStruct(fields);
        case Prim(p) =>
          r := SerializePrimitive(p);
      }
    }

    /** The `serialize_*` methods of the primitive types. */
    method SerializePrimitive(p: Primitive) returns (r: Result<()>)
      modifies builder
      ensures Wrote(r, old(builder.bytes), builder.bytes, EncodePrimitive(tag, p))
    {
      match p {
        case Bool(b) =>
          builder.I8(tag, if b then 1 else 0);
        case F32(bits) =>
          builder.F32(tag, bits);
        case F64(bits) =>
          builder.F64(tag, bits);
        case Char(c) =>
          r := SerializeStr(c);
          return;
        case Str(v) =>
          r := SerializeStr(v);
          return;
        case Bytes(v) =>
          if |v| > BYTES_MAX_LENGTH {
            return Err(BytesTooLong);
          }
          builder.Bytes(tag, v);
        case NoneValue =>
          builder.Zero(tag);
        case Unit =>
          builder.Zero(tag);
        case UnitStruct =>
          builder.Zero(tag);
        case UnitVariant(name) =>
          r := SerializeStr(name);
          return;
        case _ =>
          r := SerializeInteger(p);
          return;
      }
      r := Ok(());
    }

    /** `serialize_i8` to `serialize_u128`: each written with the builder
        method of its width, the 128-bit and unsigned 64-bit ones refused
        above `i64::MAX`. */
    method SerializeInteger(p: Primitive) returns (r: Result<()>)
      requires p.I8? || p.I16? || p.I32? || p.I64? || p.I128? || p.U8? || p.U16? || p.U32? || p.U64? || p.U128?
      modifies builder
      ensures Wrote(r, old(builder.bytes), builder.bytes, EncodePrimitive(tag, p))
    {
      match p {
        case I8(v) =>
          builder.I8(tag, v);
        case I16(v) =>
          builder.I16(tag, v);
        case I32(v) =>
          builder.I32(tag, v);
        case I64(v) =>
          builder.I64(tag, v);
        case I128(v) =>
          if v > I64_MAX {
            return Err(IntTooBig);
          }
          builder.I64(tag, Wrap64(v));
        case U8(v) =>
          builder.I16(tag, v);
        case U16(v) =>
          builder.I32(tag, v);
        case U32(v) =>
          builder.I64(tag, v);
        case U64(v) =>
          if v > I64_MAX {
            return Err(IntTooBig);
          }
          builder.I64(tag, v);
        case U128(v) =>
          if v > I64_MAX {
            return Err(IntTooBig);
          }
          builder.I64(tag, v);
      }
      r := Ok(());
    }

    /** `serialize_str`: refused above `STRING_MAX_LENGTH` bytes. */
    method SerializeStr(v: seq<Byte>) returns (r: Result<()>)
      modifies builder
      ensures Wrote(r, old(builder.bytes), builder.bytes, EncodeStr(tag, v))
    {
      if |v| > STRING_MAX_LENGTH {
        return Err(StringTooLong);
      }
      builder.Str(tag, v);
      return Ok(());
    }

    /** `serialize_seq` and the elements written after it. */
    method SerializeSeq(len: Option<nat>, elems: seq<Data>) returns (r: Result<()>)
      modifies this, builder
      ensures Wrote(r, old(builder.bytes), builder.bytes, EncodeSeq(old(tag), len, elems))
      ensures r.Ok? ==> tag == old(tag)
      decreases elems, 1
    {
      if len.None? {
        return Err(NeedLength);
      }
      if len.value > I32_MAX {
        return Err(SeqTooLong);
      }
      builder.ListBegin(tag, len.value);
      r := SerializeElements(elems);
    }

    method SerializeElements(elems: seq<Data>) returns (r: Result<()>)
      modifies this, builder
      ensures Wrote(r, old(builder.bytes), builder.bytes, EncodeElems(elems))
      ensures r.Ok? ==> tag == old(tag)
      decreases elems, 0
    {
      if elems == [] {
        return Ok(());
      }
      var u :- SerializeAt(0, elems[0]);
      r := SerializeElements(elems[1..]);
    }

    /** `serialize_map` and the entries written after it. */
    method SerializeMap(len: Option<nat>, entries: seq<Entry>) returns (r: Result<()>)
      modifies this, builder
      ensures Wrote(r, old(builder.bytes), builder.bytes, EncodeMap(old(tag), len, entries))
      ensures r.Ok? ==> tag == old(tag)
      decreases entries, 1
    {
      if len.None? {
        return Err(NeedLength);
      }
      if len.value > I32_MAX {
        return Err(MapTooLong);
      }
      builder.MapBegin(tag, len.value);
      r := SerializeEntries(entries);
    }

    method SerializeEntries(entries: seq<Entry>) returns (r: Result<()>)
      modifies this, builder
      ensures Wrote(r, old(builder.bytes), builder.bytes, EncodeEntries(entries))
      ensures r.Ok? ==> tag == old(tag)
      decreases entries, 0
    {
      if entries == [] {
        return Ok(());
      }
      var u :- SerializeEntry(entries[0]);
      r := SerializeEntries(entries[1..]);
    }

    /** `serialize_key` then `serialize_value`. */
    method SerializeEntry(e: Entry) returns (r: Result<()>)
      modifies this, builder
      ensures Wrote(r, old(builder.bytes), builder.bytes, EncodeEntry(e))
      ensures r.Ok? ==> tag == old(tag)
      decreases e, 4
    {
      var k :- SerializeAt(0, e.key);
      r := SerializeAt(1, e.value);
    }

    /** `serialize_element` (at tag 0), `serialize_key` (at tag 0) and
        `serialize_value` (at tag 1): write a nested value at `at` and
        restore the current tag. */
    method SerializeAt(at: Byte, d: Data) returns (r: Result<()>)
      modifies this, builder
      ensures Wrote(r, old(builder.bytes), builder.bytes, Encode(at, d))
      ensures r.Ok? ==> tag == old(tag)
      decreases d, 3
    {
      var cur := tag;
      tag := at;
      var u :- Serialize(d);
      tag := cur;
      return Ok(());
    }

    /** `serialize_struct`, the fields and `end`. */
    method SerializeStruct(fields: seq<Field>) returns (r: Result<()>)
      modifies this, builder
      ensures Wrote(r, old(builder.bytes), builder.bytes, EncodeStruct(old(tag), fields))
      ensures r.Ok? ==> tag == old(tag)
      decreases fields, 1
    {
      builder.StructBegin(tag);
      var st := new StructSerializer(this);
      var u :- st.SerializeFields(fields);
      st.End();
      return Ok(());
    }
  }

  /** The state of a struct being written: the tags of its fields so far. */
  class StructSerializer {
    const ser: Serializer
    var tags: set<Byte>

    constructor (ser: Serializer)
      ensures this.ser == ser && tags == {}
    {
      this.ser := ser;
      tags := {};
    }

    /** `serialize_field` for the field's name and value: the name must be a
        new tag, which is recorded; the value is written at that tag and the
        serializer's tag is restored. */
    method SerializeField(f: Field) returns (r: Result<()>)
      modifies this, ser, ser.builder
      ensures Wrote(r, old(ser.builder.bytes), ser.builder.bytes, EncodeField(f, old(tags)))
      ensures r.Ok? ==> ser.tag == old(ser.tag) && tags == old(tags) + {ParseU8(f.name).value}
      decreases f, 4
    {
      match ParseU8(f.name) {
        case None =>
          return Err(ErrorFieldTag);
        case Some(t) =>
          if t in tags {
            return Err(DuplicateFieldTag);
          }
          tags := tags + {t};
          var cur := ser.tag;
          ser.tag := t;
          var u :- ser.Serialize(f.value);
          ser.tag := cur;
          return Ok(());
      }
    }

    /** The `serialize_field` calls a derived `Serialize` makes, in order. */
    method SerializeFields(fields: seq<Field>) returns (r: Result<()>)
      modifies this, ser, ser.builder
      ensures Wrote(r, old(ser.builder.bytes), ser.builder.bytes, EncodeFields(fields, old(tags)))
      ensures r.Ok? ==> ser.tag == old(ser.tag)
      decreases fields, 0
    {
      if fields == [] {
        return Ok(());
      }
      var u :- SerializeField(fields[0]);
      r := SerializeFields(fields[1..]);
    }

    /** `end`. */
    method End()
      modifies ser.builder
      ensures ser.builder.bytes == old(ser.builder.bytes) + EncStructEnd()
    {
      ser.builder.StructEnd();
    }
  }

  /** `to_bytes_with_tag`. */
  method ToBytesWithTag(tag: Byte, d: Data) returns (r: Result<seq<Byte>>)
    ensures r == Encode(tag, d)
  {
    var s := new Serializer();
    s.tag := tag;
    var u :- s.Serialize(d);
    assert Encode(tag, d).Ok?;
    assert [] + Encode(tag, d).value == Encode(tag, d).value;
    return Ok(s.Done());
  }

  /** `to_bytes`: the top-level value is written at tag 0. */
  method ToBytes(d: Data) returns (r: Result<seq<Byte>>)
    ensures r == Encode(0, d)
  {
    r := ToBytesWithTag(0, d);
  }
}
