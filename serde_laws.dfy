/** What the serializer and the deserializer promise each other: which data
    the serializer accepts, what the deserializer reads back from what was
    written, and how `ignore` and the struct key walk step over written
    values. */
module SerdeLaws {
  import opened Errors
  import opened BigEndian
  import Types
  import opened Utf8
  import opened Parser
  import opened Builder
  import opened Decimal
  import opened WireLaws
  import S = Serialization
  import opened Deserialization

  // ------------------------------------------------- what is accepted

  /** The serializer stops with an error exactly on the data that is not
      `Serializable`. */
  lemma {:induction false} EncodeOk(tag: Byte, d: S.Data)
    ensures S.Encode(tag, d).Ok? <==> S.Serializable(d)
    decreases d, 2
  {
    match d
    case Prim(p) =>
    case SomeValue(x) => EncodeOk(tag, x);
    case NewtypeStruct(x) => EncodeOk(tag, x);
    case NewtypeVariant(x) => EncodeOk(tag, x);
    case Seq(len, elems) => ElemsOk(elems);
    case Tuple(elems) => ElemsOk(elems);
    case Map(len, entries) => EntriesOk(entries);
    case Struct(fields) =>
      FieldsOk(fields, {});
      FieldTagsSpec(S.Names(fields));
  }

  lemma {:induction false} ElemsOk(elems: seq<S.Data>)
    ensures S.EncodeElems(elems).Ok? <==> forall i :: 0 <= i < |elems| ==> S.Serializable(elems[i])
    decreases elems, 0
  {
    if elems != [] {
      EncodeOk(0, elems[0]);
      ElemsOk(elems[1..]);
      assert forall i :: 1 <= i < |elems| ==> elems[i] == elems[1..][i - 1];
    }
  }

  lemma {:induction false} EntriesOk(entries: seq<S.Entry>)
    ensures S.EncodeEntries(entries).Ok? <==> forall i :: 0 <= i < |entries| ==> S.SerializableEntry(entries[i])
    decreases entries, 0
  {
    if entries != [] {
      EntryOk(entries[0]);
      EntriesOk(entries[1..]);
      assert forall i :: 1 <= i < |entries| ==> entries[i] == entries[1..][i - 1];
    }
  }

  lemma {:induction false} EntryOk(e: S.Entry)
    ensures S.EncodeEntry(e).Ok? <==> S.SerializableEntry(e)
    decreases e, 1
  {
    EncodeOk(0, e.key);
    EncodeOk(1, e.value);
  }

  /** The serializer accepts a struct's field names exactly when the
      deserializer's `new_with_fields` accepts them (each a u8, none
      repeated, none among the tags already `seen`), and its values when
      each is serializable. */
  lemma {:induction false} FieldsOk(fields: seq<S.Field>, seen: set<Byte>)
    ensures S.EncodeFields(fields, seen).Ok? <==>
      FieldTagsFrom(S.Names(fields), seen).Ok? &&
      forall i :: 0 <= i < |fields| ==> S.SerializableField(fields[i])
    decreases fields, 0
  {
    if fields != [] {
      var tail := fields[1..];
      assert S.Names(fields)[1..] == S.Names(tail);
      assert forall i :: 1 <= i < |fields| ==> fields[i] == tail[i - 1];
      match ParseU8(fields[0].name)
      case None =>
      case Some(t) =>
        if t !in seen {
          EncodeOk(t, fields[0].value);
          FieldsOk(tail, seen + {t});
        }
    }
  }

  // --------------------------------------------- the first header written

  /** The wire type of an integer written by the narrowing chain. */
  function IntWireType(v: Int64): (tp: Types.JceType)
    ensures tp in {Types.Zero, Types.I8, Types.I16, Types.I32, Types.I64}
    ensures tp == Types.Zero <==> v == 0
  {
    if v == 0 then Types.Zero else IntType(MinWidth(v))
  }

  /** The wire type of the header a primitive is written with. */
  function PrimitiveType(p: S.Primitive): (tp: Types.JceType)
    requires S.SerializablePrimitive(p)
  {
    match p
    case Bool(b) => if b then Types.I8 else Types.Zero
    case I8(v) => IntWireType(v)
    case I16(v) => IntWireType(v)
    case I32(v) => IntWireType(v)
    case I64(v) => IntWireType(v)
    case I128(v) => IntWireType(S.Wrap64(v))
    case U8(v) => IntWireType(v)
    case U16(v) => IntWireType(v)
    case U32(v) => IntWireType(v)
    case U64(v) => IntWireType(v)
    case U128(v) => IntWireType(v)
    case F32(_) => Types.F32
    case F64(_) => Types.F64
    case Char(c) => if |c| <= 255 then Types.String1 else Types.String4
    case Str(v) => if |v| <= 255 then Types.String1 else Types.String4
    case UnitVariant(v) => if |v| <= 255 then Types.String1 else Types.String4
    case Bytes(_) => Types.Bytes
    case NoneValue => Types.Zero
    case Unit => Types.Zero
    case UnitStruct => Types.Zero
  }

  /** The wire type of the first header written for `d`: never a
      StructEnd, so a written value can never be taken for the end of the
      struct around it. */
  function WireType(d: S.Data): (tp: Types.JceType)
    requires S.Serializable(d)
    ensures tp != Types.StructEnd
  {
    match d
    case Prim(p) => PrimitiveType(p)
    case SomeValue(x) => WireType(x)
    case NewtypeStruct(x) => WireType(x)
    case NewtypeVariant(x) => WireType(x)
    case Seq(_, _) => Types.List
    case Tuple(_) => Types.List
    case Map(_, _) => Types.Map
    case Struct(_) => Types.StructBegin
  }

  lemma HeadThen(tag: Byte, tp: Types.JceType, x: seq<Byte>, rest: seq<Byte>)
    ensures PickHead(EncHead(tag, tp) + x + rest) == Ok(Header(tag, tp))
  {
    assert EncHead(tag, tp) + x + rest == EncHead(tag, tp) + (x + rest);
    HeadRoundTrip(tag, tp, x + rest);
  }

  lemma IntHead(tag: Byte, v: Int64, rest: seq<Byte>)
    ensures PickHead(EncI64(tag, v) + rest) == Ok(Header(tag, IntWireType(v)))
  {
    NarrowestWidth(tag, v);
    if v == 0 {
      HeadRoundTrip(tag, Types.Zero, rest);
    } else {
      HeadThen(tag, IntType(MinWidth(v)), TwosBE(v, MinWidth(v)), rest);
    }
  }

  lemma StrHead(tag: Byte, v: seq<Byte>, rest: seq<Byte>)
    ensures PickHead(EncStr(tag, v) + rest)
         == Ok(Header(tag, if |v| <= 255 then Types.String1 else Types.String4))
  {
    if |v| <= 255 {
      assert EncStr(tag, v) + rest == EncHead(tag, Types.String1) + ([|v|] + v) + rest;
      HeadThen(tag, Types.String1, [|v|] + v, rest);
    } else {
      var n := Min(|v|, STRING_MAX_LENGTH);
      assert EncStr(tag, v) + rest == EncHead(tag, Types.String4) + (ToBE(n, 4) + v[..n]) + rest;
      HeadThen(tag, Types.String4, ToBE(n, 4) + v[..n], rest);
    }
  }

  lemma PrimitiveHead(tag: Byte, p: S.Primitive, rest: seq<Byte>)
    requires S.SerializablePrimitive(p)
    ensures S.EncodePrimitive(tag, p).Ok?
    ensures PickHead(S.EncodePrimitive(tag, p).value + rest) == Ok(Header(tag, PrimitiveType(p)))
  {
    if p.Bool? || p.I8? || p.I16? || p.I32? || p.I64? || p.I128? {
      SignedHead(tag, p, rest);
    } else if p.U8? || p.U16? || p.U32? || p.U64? || p.U128? {
      UnsignedHead(tag, p, rest);
    } else {
      OtherHead(tag, p, rest);
    }
  }

  lemma SignedHead(tag: Byte, p: S.Primitive, rest: seq<Byte>)
    requires S.SerializablePrimitive(p) && (p.Bool? || p.I8? || p.I16? || p.I32? || p.I64? || p.I128?)
    ensures S.EncodePrimitive(tag, p).Ok?
    ensures PickHead(S.EncodePrimitive(tag, p).value + rest) == Ok(Header(tag, PrimitiveType(p)))
  {
    Pow256Values();
    match p
    case Bool(b) => NarrowestWidth(tag, if b then 1 else 0); IntHead(tag, if b then 1 else 0, rest);
    case I8(v) => NarrowestWidth(tag, v); IntHead(tag, v, rest);
    case I16(v) => NarrowestWidth(tag, v); IntHead(tag, v, rest);
    case I32(v) => NarrowestWidth(tag, v); IntHead(tag, v, rest);
    case I64(v) => IntHead(tag, v, rest);
    case I128(v) => IntHead(tag, S.Wrap64(v), rest);
  }

  lemma UnsignedHead(tag: Byte, p: S.Primitive, rest: seq<Byte>)
    requires S.SerializablePrimitive(p) && (p.U8? || p.U16? || p.U32? || p.U64? || p.U128?)
    ensures S.EncodePrimitive(tag, p).Ok?
    ensures PickHead(S.EncodePrimitive(tag, p).value + rest) == Ok(Header(tag, PrimitiveType(p)))
  {
    Pow256Values();
    match p
    case U8(v) => NarrowestWidth(tag, v); IntHead(tag, v, rest);
    case U16(v) => NarrowestWidth(tag, v); IntHead(tag, v, rest);
    case U32(v) => IntHead(tag, v, rest);
    case U64(v) => IntHead(tag, v, rest);
    case U128(v) => IntHead(tag, v, rest);
  }

  lemma OtherHead(tag: Byte, p: S.Primitive, rest: seq<Byte>)
    requires S.SerializablePrimitive(p)
    requires !(p.Bool? || p.I8? || p.I16? || p.I32? || p.I64? || p.I128?)
    requires !(p.U8? || p.U16? || p.U32? || p.U64? || p.U128?)
    ensures S.EncodePrimitive(tag, p).Ok?
    ensures PickHead(S.EncodePrimitive(tag, p).value + rest) == Ok(Header(tag, PrimitiveType(p)))
  {
    match p
    case F32(b) => HeadThen(tag, Types.F32, ToBE(b, 4), rest);
    case F64(b) => HeadThen(tag, Types.F64, ToBE(b, 8), rest);
    case Char(c) => StrHead(tag, c, rest);
    case Str(v) => StrHead(tag, v, rest);
    case UnitVariant(v) => StrHead(tag, v, rest);
    case Bytes(v) =>
      var n := Min(|v|, BYTES_MAX_LENGTH);
      assert EncBytes(tag, v) + rest
          == EncHead(tag, Types.Bytes) + (EncHead(0, Types.I8) + EncI32(0, n) + v[..n]) + rest;
      HeadThen(tag, Types.Bytes, EncHead(0, Types.I8) + EncI32(0, n) + v[..n], rest);
    case NoneValue => HeadRoundTrip(tag, Types.Zero, rest);
    case Unit => HeadRoundTrip(tag, Types.Zero, rest);
    case UnitStruct => HeadRoundTrip(tag, Types.Zero, rest);
  }

  /** Whatever is written for serializable data starts with a header
      carrying the tag it was written at and its `WireType`. */
  lemma {:induction false} FirstHeader(tag: Byte, d: S.Data, rest: seq<Byte>)
    requires S.Serializable(d)
    ensures S.Encode(tag, d).Ok?
    ensures PickHead(S.Encode(tag, d).value + rest) == Ok(Header(tag, WireType(d)))
    decreases d
  {
    EncodeOk(tag, d);
    match d
    case Prim(p) => PrimitiveHead(tag, p, rest);
    case SomeValue(x) => FirstHeader(tag, x, rest);
    case NewtypeStruct(x) => FirstHeader(tag, x, rest);
    case NewtypeVariant(x) => FirstHeader(tag, x, rest);
    case Seq(len, elems) =>
      HeadThen(tag, Types.List, EncI32(0, len.value) + S.EncodeElems(elems).value, rest);
    case Tuple(elems) =>
      HeadThen(tag, Types.List, EncI32(0, |elems|) + S.EncodeElems(elems).value, rest);
    case Map(len, entries) =>
      HeadThen(tag, Types.Map, EncI32(0, len.value) + S.EncodeEntries(entries).value, rest);
    case Struct(fields) =>
      HeadThen(tag, Types.StructBegin, S.EncodeFields(fields, {}).value + EncStructEnd(), rest);
  }

  // ----------------------------------------------- reading primitives back

  /** The entry point a primitive is read back with: the one of its own
      type, the option entry point for the none value, the unit entry point
      for the unit types, and `deserialize_any` for a unit variant (serde
      reads a variant name as an identifier). */
  function HintFor(p: S.Primitive): Hint
  {
    match p
    case Bool(_) => Bool
    case I8(_) => I8
    case I16(_) => I16
    case I32(_) => I32
    case I64(_) => I64
    case I128(_) => I128
    case U8(_) => U8
    case U16(_) => U16
    case U32(_) => U32
    case U64(_) => U64
    case U128(_) => U128
    case F32(_) => F32
    case F64(_) => F64
    case Char(_) => Char
    case Str(_) => Str
    case Bytes(_) => Bytes
    case NoneValue => OptionOf
    case Unit => Unit
    case UnitStruct => Unit
    case UnitVariant(_) => Any
  }

  /** What the visitor is given back. An i128 comes back as the i64 it was
      cast to. */
  function VisitFor(p: S.Primitive): Visit
  {
    match p
    case Bool(b) => Boolean(b)
    case I8(v) => Integer(v)
    case I16(v) => Integer(v)
    case I32(v) => Integer(v)
    case I64(v) => Integer(v)
    case I128(v) => Integer(S.Wrap64(v))
    case U8(v) => Integer(v)
    case U16(v) => Integer(v)
    case U32(v) => Integer(v)
    case U64(v) => Integer(v)
    case U128(v) => Integer(v)
    case F32(b) => Float32(b)
    case F64(b) => Float64(Bits64(b))
    case Char(c) => Character(c)
    case Str(v) => Text(v)
    case Bytes(v) => Blob(v)
    case NoneValue => Nothing
    case Unit => UnitValue
    case UnitStruct => UnitValue
    case UnitVariant(v) => Text(v)
  }

  /** Text is well-formed UTF-8 (a Rust `str` always is) and a char is a
      single character. */
  predicate TextOk(p: S.Primitive)
  {
    match p
    case Char(c) => c != [] && CharLen(c) == |c| && ValidUtf8(c)
    case Str(v) => ValidUtf8(v)
    case UnitVariant(v) => ValidUtf8(v)
    case _ => true
  }

  /** The payload width an integer entry point reads with. */
  function ReadWidth(hint: Hint): (w: nat)
    ensures w in {1, 2, 4, 8}
  {
    match hint
    case I8 => 1
    case I16 => 2
    case U8 => 2
    case I32 => 4
    case U16 => 4
    case _ => 8
  }

  predicate IntHint(hint: Hint)
  {
    hint in {Hint.I8, Hint.I16, Hint.I32, Hint.I64, Hint.I128, Hint.U8, Hint.U16, Hint.U32, Hint.U64, Hint.U128}
  }

  // Each entry point on an input whose reader result is already known.

  lemma IntRead(s: seq<Byte>, width: nat, x: int, rest: seq<Byte>)
    requires width in {1, 2, 4, 8} && ParseInt(s, width) == Ok(Parsed(x, rest))
    ensures ReadInt(s, width) == Ok(Parsed(Integer(x), rest))
  {
  }

  lemma IntEntry(s: seq<Byte>, hint: Hint, v: Visit, rest: seq<Byte>)
    requires IntHint(hint) && ReadInt(s, ReadWidth(hint)) == Ok(Parsed(v, rest))
    ensures Read(s, hint) == Ok(Parsed(v, rest))
  {
    if hint.I8? || hint.I16? || hint.I32? {
      NarrowSignedEntry(s, hint, v, rest);
    } else if hint.I64? || hint.I128? {
      WideSignedEntry(s, hint, v, rest);
    } else if hint.U8? || hint.U16? || hint.U32? {
      NarrowUnsignedEntry(s, hint, v, rest);
    } else {
      WideUnsignedEntry(s, hint, v, rest);
    }
  }

  lemma NarrowSignedEntry(s: seq<Byte>, hint: Hint, v: Visit, rest: seq<Byte>)
    requires (hint.I8? || hint.I16? || hint.I32?) && ReadInt(s, ReadWidth(hint)) == Ok(Parsed(v, rest))
    ensures Read(s, hint) == Ok(Parsed(v, rest))
  {
    match hint
    case I8 => assert Read(s, hint) == ReadInt(s, 1);
    case I16 => assert Read(s, hint) == ReadInt(s, 2);
    case I32 => assert Read(s, hint) == ReadInt(s, 4);
  }

  lemma WideSignedEntry(s: seq<Byte>, hint: Hint, v: Visit, rest: seq<Byte>)
    requires (hint.I64? || hint.I128?) && ReadInt(s, ReadWidth(hint)) == Ok(Parsed(v, rest))
    ensures Read(s, hint) == Ok(Parsed(v, rest))
  {
    match hint
    case I64 => assert Read(s, hint) == ReadInt(s, 8);
    case I128 => assert Read(s, hint) == ReadInt(s, 8);
  }

  lemma NarrowUnsignedEntry(s: seq<Byte>, hint: Hint, v: Visit, rest: seq<Byte>)
    requires (hint.U8? || hint.U16? || hint.U32?) && ReadInt(s, ReadWidth(hint)) == Ok(Parsed(v, rest))
    ensures Read(s, hint) == Ok(Parsed(v, rest))
  {
    match hint
    case U8 => assert Read(s, hint) == ReadInt(s, 2);
    case U16 => assert Read(s, hint) == ReadInt(s, 4);
    case U32 => assert Read(s, hint) == ReadInt(s, 8);
  }

  lemma WideUnsignedEntry(s: seq<Byte>, hint: Hint, v: Visit, rest: seq<Byte>)
    requires (hint.U64? || hint.U128?) && ReadInt(s, ReadWidth(hint)) == Ok(Parsed(v, rest))
    ensures Read(s, hint) == Ok(Parsed(v, rest))
  {
    match hint
    case U64 => assert Read(s, hint) == ReadInt(s, 8);
    case U128 => assert Read(s, hint) == ReadInt(s, 8);
  }

  lemma F32Entry(s: seq<Byte>, b: Uint32, rest: seq<Byte>)
    requires ParseF32(s) == Ok(Parsed(b, rest))
    ensures Read(s, Hint.F32) == Ok(Parsed(Float32(b), rest))
  {
  }

  lemma F64Entry(s: seq<Byte>, d: Double, rest: seq<Byte>)
    requires ParseF64(s) == Ok(Parsed(d, rest))
    ensures Read(s, Hint.F64) == Ok(Parsed(Float64(d), rest))
  {
  }

  lemma BytesEntry(s: seq<Byte>, v: seq<Byte>, rest: seq<Byte>)
    requires ParseBytes(s) == Ok(Parsed(v, rest))
    ensures Read(s, Hint.Bytes) == Ok(Parsed(Blob(v), rest))
  {
  }

  lemma StrEntry(s: seq<Byte>, v: seq<Byte>, rest: seq<Byte>)
    requires ParseStr(s, true, true) == Ok(Parsed(v, rest))
    ensures Read(s, Hint.Str) == Ok(Parsed(Text(v), rest))
  {
  }

  /** `deserialize_any` on a String1 or String4 head reads with the reader
      of that width. */
  lemma AnyText(s: seq<Byte>, long: bool, v: seq<Byte>, rest: seq<Byte>)
    requires PickHead(s).Ok? && PickHead(s).value.tp == (if long then Types.String4 else Types.String1)
    requires ParseStr(s, !long, long) == Ok(Parsed(v, rest))
    ensures ReadAny(s) == Ok(Parsed(Text(v), rest))
  {
  }

  /** `deserialize_any` and the typed entry point on a List or Map head
      both read its count. */
  lemma AnyCount(s: seq<Byte>, marker: Types.JceType, n: nat, rest: seq<Byte>)
    requires marker == Types.List || marker == Types.Map
    requires PickHead(s).Ok? && PickHead(s).value.tp == marker
    requires ParseCount(s, marker) == Ok(Parsed(n, rest))
    ensures marker == Types.List ==>
      ReadSeqOf(s) == Ok(Parsed(SeqOf(n), rest)) && ReadAny(s) == Ok(Parsed(SeqOf(n), rest))
    ensures marker == Types.Map ==>
      ReadMapOf(s) == Ok(Parsed(MapOf(n), rest)) && ReadAny(s) == Ok(Parsed(MapOf(n), rest))
  {
  }

  /** An integer written in its narrowest form is read back by any integer
      entry point whose width holds it. */
  lemma IntBack(tag: Byte, v: Int64, hint: Hint, rest: seq<Byte>)
    requires IntHint(hint) && -Half(ReadWidth(hint)) <= v < Half(ReadWidth(hint))
    ensures Read(EncI64(tag, v) + rest, hint) == Ok(Parsed(Integer(v), rest))
  {
    IntRoundTrip(tag, v, ReadWidth(hint), rest);
    IntRead(EncI64(tag, v) + rest, ReadWidth(hint), v, rest);
    IntEntry(EncI64(tag, v) + rest, hint, Integer(v), rest);
  }

  /** A serializable primitive is read back by its own entry point as what
      was written, and exactly its bytes are consumed. */
  lemma PrimitiveRoundTrip(tag: Byte, p: S.Primitive, rest: seq<Byte>)
    requires S.SerializablePrimitive(p) && TextOk(p)
    ensures S.EncodePrimitive(tag, p).Ok?
    ensures Read(S.EncodePrimitive(tag, p).value + rest, HintFor(p)) == Ok(Parsed(VisitFor(p), rest))
  {
    if p.Char? || p.Str? || p.UnitVariant? {
      TextRoundTrip(tag, p, rest);
    } else if p.Bytes? || p.F32? || p.F64? {
      BlobRoundTrip(tag, p, rest);
    } else if p.Bool? {
      BoolRoundTrip(tag, p.b, rest);
    } else if p.NoneValue? || p.Unit? || p.UnitStruct? {
      ZeroRoundTrip(tag, p, rest);
    } else if p.I8? || p.I16? || p.I32? || p.I64? || p.I128? {
      SignedRoundTrip(tag, p, rest);
    } else {
      UnsignedRoundTrip(tag, p, rest);
    }
  }

  lemma SignedRoundTrip(tag: Byte, p: S.Primitive, rest: seq<Byte>)
    requires S.SerializablePrimitive(p)
    requires p.I8? || p.I16? || p.I32? || p.I64? || p.I128?
    ensures S.EncodePrimitive(tag, p).Ok?
    ensures Read(S.EncodePrimitive(tag, p).value + rest, HintFor(p)) == Ok(Parsed(VisitFor(p), rest))
  {
    HalfValues();
    match p
    case I8(v) =>
      NarrowestWidth(tag, v);
      IntBack(tag, v, Hint.I8, rest);
    case I16(v) =>
      NarrowestWidth(tag, v);
      IntBack(tag, v, Hint.I16, rest);
    case I32(v) =>
      NarrowestWidth(tag, v);
      IntBack(tag, v, Hint.I32, rest);
    case I64(v) =>
      IntBack(tag, v, Hint.I64, rest);
    case I128(v) =>
      IntBack(tag, S.Wrap64(v), Hint.I128, rest);
  }


  lemma UnsignedRoundTrip(tag: Byte, p: S.Primitive, rest: seq<Byte>)
    requires S.SerializablePrimitive(p)
    requires p.U8? || p.U16? || p.U32? || p.U64? || p.U128?
    ensures S.EncodePrimitive(tag, p).Ok?
    ensures Read(S.EncodePrimitive(tag, p).value + rest, HintFor(p)) == Ok(Parsed(VisitFor(p), rest))
  {
    HalfValues();
    match p
    case U8(v) =>
      NarrowestWidth(tag, v);
      IntBack(tag, v, Hint.U8, rest);
    case U16(v) =>
      NarrowestWidth(tag, v);
      IntBack(tag, v, Hint.U16, rest);
    case U32(v) =>
      IntBack(tag, v, Hint.U32, rest);
    case U64(v) =>
      assert S.EncodePrimitive(tag, p) == Ok(EncI64(tag, v));
      IntBack(tag, v, Hint.U64, rest);
    case U128(v) =>
      assert S.EncodePrimitive(tag, p) == Ok(EncI64(tag, v));
      IntBack(tag, v, Hint.U128, rest);
  }


  lemma ZeroRoundTrip(tag: Byte, p: S.Primitive, rest: seq<Byte>)
    requires p.NoneValue? || p.Unit? || p.UnitStruct?
    ensures S.EncodePrimitive(tag, p).Ok?
    ensures Read(S.EncodePrimitive(tag, p).value + rest, HintFor(p)) == Ok(Parsed(VisitFor(p), rest))
  {
    if p.NoneValue? {
      NoneBack(tag, rest);
    } else {
      UnitBack(tag, rest);
    }
  }

  lemma NoneBack(tag: Byte, rest: seq<Byte>)
    ensures Read(EncZero(tag) + rest, OptionOf) == Ok(Parsed(Nothing, rest))
  {
    HeadRoundTrip(tag, Types.Zero, rest);
    MarkerRoundTrip(tag, Types.Zero, Types.Zero, rest);
  }

  lemma UnitBack(tag: Byte, rest: seq<Byte>)
    ensures Read(EncZero(tag) + rest, Hint.Unit) == Ok(Parsed(UnitValue, rest))
  {
    MarkerRoundTrip(tag, Types.Zero, Types.Zero, rest);
  }

  lemma BoolRoundTrip(tag: Byte, b: bool, rest: seq<Byte>)
    ensures Read(EncI8(tag, if b then 1 else 0) + rest, Hint.Bool) == Ok(Parsed(Boolean(b), rest))
  {
    var x: Int64 := if b then 1 else 0;
    NarrowestWidth(tag, x);
    IntRoundTrip(tag, x, 1, rest);
    assert ParseInt(EncI8(tag, x) + rest, 1) == Ok(Parsed(x as int, rest));
  }

  lemma TextRoundTrip(tag: Byte, p: S.Primitive, rest: seq<Byte>)
    requires S.SerializablePrimitive(p) && TextOk(p)
    requires p.Char? || p.Str? || p.UnitVariant?
    ensures S.EncodePrimitive(tag, p).Ok?
    ensures Read(S.EncodePrimitive(tag, p).value + rest, HintFor(p)) == Ok(Parsed(VisitFor(p), rest))
  {
    if p.Char? {
      CharText(tag, p.utf8, rest);
    } else if p.Str? {
      StrRoundTrip(tag, p.str, rest);
      StrEntry(EncStr(tag, p.str) + rest, p.str, rest);
    } else {
      AnyStr(tag, p.variant, rest);
    }
  }

  /** A char goes out as a string and comes back whole: it is one code point. */
  lemma CharText(tag: Byte, c: seq<Byte>, rest: seq<Byte>)
    requires S.SerializablePrimitive(S.Char(c)) && TextOk(S.Char(c))
    ensures S.EncodePrimitive(tag, S.Char(c)) == Ok(EncStr(tag, c))
    ensures Read(EncStr(tag, c) + rest, Hint.Char) == Ok(Parsed(Character(c), rest))
  {
    StrRoundTrip(tag, c, rest);
    assert c[..|c|] == c;
  }

  lemma BlobRoundTrip(tag: Byte, p: S.Primitive, rest: seq<Byte>)
    requires S.SerializablePrimitive(p)
    requires p.Bytes? || p.F32? || p.F64?
    ensures S.EncodePrimitive(tag, p).Ok?
    ensures Read(S.EncodePrimitive(tag, p).value + rest, HintFor(p)) == Ok(Parsed(VisitFor(p), rest))
  {
    match p
    case F32(b) => F32Back(tag, b, rest);
    case F64(b) => F64Back(tag, b, rest);
    case Bytes(v) => BytesBack(tag, v, rest);
  }

  lemma F32Back(tag: Byte, b: Uint32, rest: seq<Byte>)
    ensures Read(EncF32(tag, b) + rest, Hint.F32) == Ok(Parsed(Float32(b), rest))
  {
    FloatRoundTrip(tag, b, 0, rest);
    F32Entry(EncF32(tag, b) + rest, b, rest);
  }

  lemma F64Back(tag: Byte, b: Uint64, rest: seq<Byte>)
    ensures Read(EncF64(tag, b) + rest, Hint.F64) == Ok(Parsed(Float64(Bits64(b)), rest))
  {
    FloatRoundTrip(tag, 0, b, rest);
    F64Entry(EncF64(tag, b) + rest, Bits64(b), rest);
  }

  lemma BytesBack(tag: Byte, v: seq<Byte>, rest: seq<Byte>)
    requires |v| <= BYTES_MAX_LENGTH
    ensures Read(EncBytes(tag, v) + rest, Hint.Bytes) == Ok(Parsed(Blob(v), rest))
  {
    BytesRoundTrip(tag, v, rest);
    BytesEntry(EncBytes(tag, v) + rest, v, rest);
  }

  /** `deserialize_any` on an integer written by the narrowing chain: the
      value, except that zero, written as a bare Zero header, comes back as
      the none value. */
  lemma AnyInt(tag: Byte, v: Int64, rest: seq<Byte>)
    ensures ReadAny(EncI64(tag, v) + rest) == Ok(Parsed(if v == 0 then Nothing else Integer(v), rest))
  {
    var s := EncI64(tag, v) + rest;
    IntHead(tag, v, rest);
    NarrowestWidth(tag, v);
    if v == 0 {
      MarkerRoundTrip(tag, Types.Zero, Types.Zero, rest);
    } else {
      var w := MinWidth(v);
      IntRoundTrip(tag, v, w, rest);
      IntRead(s, w, v, rest);
      AnyIntOf(s, w, Integer(v), rest);
    }
  }

  /** `deserialize_any` on an integer head reads with the reader of that
      head's own width. */
  lemma AnyIntOf(s: seq<Byte>, w: nat, x: Visit, rest: seq<Byte>)
    requires w in {1, 2, 4, 8}
    requires PickHead(s).Ok? && PickHead(s).value.tp == IntType(w)
    requires ReadInt(s, w) == Ok(Parsed(x, rest))
    ensures ReadAny(s) == Ok(Parsed(x, rest))
  {
  }

  /** `deserialize_any` on a string: String1 and String4 are each read by
      the reader of their own width. */
  lemma AnyStr(tag: Byte, v: seq<Byte>, rest: seq<Byte>)
    requires ValidUtf8(v) && |v| <= STRING_MAX_LENGTH
    ensures ReadAny(EncStr(tag, v) + rest) == Ok(Parsed(Text(v), rest))
  {
    StrHead(tag, v, rest);
    StrRoundTrip(tag, v, rest);
    AnyText(EncStr(tag, v) + rest, |v| > 255, v, rest);
  }

  lemma AnyFloat(tag: Byte, b32: Uint32, b64: Uint64, rest: seq<Byte>)
    ensures ReadAny(EncF32(tag, b32) + rest) == Ok(Parsed(Float32(b32), rest))
    ensures ReadAny(EncF64(tag, b64) + rest) == Ok(Parsed(Float64(Bits64(b64)), rest))
  {
    HeadThen(tag, Types.F32, ToBE(b32, 4), rest);
    HeadThen(tag, Types.F64, ToBE(b64, 8), rest);
    FloatRoundTrip(tag, b32, b64, rest);
  }

  lemma AnyBytes(tag: Byte, v: seq<Byte>, rest: seq<Byte>)
    requires |v| <= BYTES_MAX_LENGTH
    ensures ReadAny(EncBytes(tag, v) + rest) == Ok(Parsed(Blob(v), rest))
  {
    var n := Min(|v|, BYTES_MAX_LENGTH);
    assert EncBytes(tag, v) + rest
        == EncHead(tag, Types.Bytes) + (EncHead(0, Types.I8) + EncI32(0, n) + v[..n]) + rest;
    HeadThen(tag, Types.Bytes, EncHead(0, Types.I8) + EncI32(0, n) + v[..n], rest);
    BytesRoundTrip(tag, v, rest);
  }

  lemma AnyZero(tag: Byte, rest: seq<Byte>)
    ensures ReadAny(EncZero(tag) + rest) == Ok(Parsed(Nothing, rest))
  {
    HeadRoundTrip(tag, Types.Zero, rest);
    MarkerRoundTrip(tag, Types.Zero, Types.Zero, rest);
  }

  // ------------------------------------------------------------- options

  /** `Some(x)` is written as `x` alone, so the option entry point sees
      `None` exactly when `x` is itself written as a bare Zero header (a
      zero integer, `false`, a unit or a nested `None`); otherwise it hands
      over `Some` and consumes nothing. */
  lemma OptionRoundTrip(tag: Byte, x: S.Data, rest: seq<Byte>)
    requires S.Serializable(x)
    ensures S.Encode(tag, S.SomeValue(x)).Ok?
    ensures Read(S.Encode(tag, S.SomeValue(x)).value + rest, OptionOf)
         == if WireType(x) == Types.Zero then Ok(Parsed(Nothing, rest))
            else Ok(Parsed(Something, S.Encode(tag, x).value + rest))
  {
    FirstHeader(tag, x, rest);
    if WireType(x) == Types.Zero {
      ZeroWritten(tag, x);
      MarkerRoundTrip(tag, Types.Zero, Types.Zero, rest);
    }
  }

  /** Data whose first header is Zero is that header and nothing more. */
  lemma {:induction false} ZeroWritten(tag: Byte, x: S.Data)
    requires S.Serializable(x) && WireType(x) == Types.Zero
    ensures S.Encode(tag, x) == Ok(EncZero(tag))
    decreases x
  {
    match x
    case Prim(p) => ZeroPrimitive(tag, p);
    case SomeValue(y) => ZeroWritten(tag, y);
    case NewtypeStruct(y) => ZeroWritten(tag, y);
    case NewtypeVariant(y) => ZeroWritten(tag, y);
  }

  lemma ZeroPrimitive(tag: Byte, p: S.Primitive)
    requires S.SerializablePrimitive(p) && PrimitiveType(p) == Types.Zero
    ensures S.EncodePrimitive(tag, p) == Ok(EncZero(tag))
  {
    if p.I128? {
      assert S.Wrap64(p.i128) == 0;
    }
  }

  /** `Some(0i32)` is written as `0c` and read back as `None`. */
  lemma SomeZeroIsNone()
    ensures S.Encode(0, S.SomeValue(S.Prim(S.I32(0)))) == Ok([0x0C])
    ensures Read([0x0C], OptionOf) == Ok(Parsed(Nothing, []))
  {
    OptionRoundTrip(0, S.Prim(S.I32(0)), []);
    ZeroWritten(0, S.Prim(S.I32(0)));
  }

  // ------------------------------------------------------------ containers

  /** A sequence (or tuple) is read back by the sequence entry point and by
      `deserialize_any` as its announced count, leaving its elements. */
  lemma SeqHeader(tag: Byte, d: S.Data, rest: seq<Byte>)
    requires S.Serializable(d) && (d.Seq? || d.Tuple?)
    ensures S.Encode(tag, d).Ok? && S.EncodeElems(d.elems).Ok?
    ensures var n := if d.Seq? then d.len.value else |d.elems|;
      var after := S.EncodeElems(d.elems).value + rest;
      Read(S.Encode(tag, d).value + rest, Hint.Seq) == Ok(Parsed(SeqOf(n), after)) &&
      ReadAny(S.Encode(tag, d).value + rest) == Ok(Parsed(SeqOf(n), after))
  {
    EncodeOk(tag, d);
    var n := if d.Seq? then d.len.value else |d.elems|;
    var body := S.EncodeElems(d.elems).value;
    assert S.Encode(tag, d).value == EncListBegin(tag, n) + body;
    ListHeader(tag, n, body, rest);
  }

  lemma ListHeader(tag: Byte, n: nat, body: seq<Byte>, rest: seq<Byte>)
    requires n <= I32_MAX
    ensures var s := EncListBegin(tag, n) + body + rest;
      ReadSeqOf(s) == Ok(Parsed(SeqOf(n), body + rest)) &&
      ReadAny(s) == Ok(Parsed(SeqOf(n), body + rest))
  {
    var s := EncListBegin(tag, n) + body + rest;
    HeadThen(tag, Types.List, EncI32(0, n) + body, rest);
    assert s == EncHead(tag, Types.List) + (EncI32(0, n) + body) + rest;
    assert s == EncListBegin(tag, n) + (body + rest);
    CountRoundTrip(tag, n, body + rest);
    AnyCount(s, Types.List, n, body + rest);
  }

  /** A map is read back by the map entry point and by `deserialize_any` as
      its announced count, leaving its entries. */
  lemma MapHeader(tag: Byte, len: nat, entries: seq<S.Entry>, rest: seq<Byte>)
    requires S.Serializable(S.Map(Some(len), entries))
    ensures S.Encode(tag, S.Map(Some(len), entries)).Ok? && S.EncodeEntries(entries).Ok?
    ensures var s := S.Encode(tag, S.Map(Some(len), entries)).value + rest;
      var after := S.EncodeEntries(entries).value + rest;
      Read(s, Hint.Map) == Ok(Parsed(MapOf(len), after)) &&
      ReadAny(s) == Ok(Parsed(MapOf(len), after))
  {
    MapEncoded(tag, len, entries);
    MapBeginHeader(tag, len, S.EncodeEntries(entries).value, rest);
  }

  /** A serializable map is written as its map head and count followed by
      its entries. */
  lemma MapEncoded(tag: Byte, len: nat, entries: seq<S.Entry>)
    requires S.Serializable(S.Map(Some(len), entries))
    ensures len <= I32_MAX && S.EncodeEntries(entries).Ok?
    ensures S.Encode(tag, S.Map(Some(len), entries)) == Ok(EncMapBegin(tag, len) + S.EncodeEntries(entries).value)
  {
    EncodeOk(tag, S.Map(Some(len), entries));
  }

  lemma MapBeginHeader(tag: Byte, n: nat, body: seq<Byte>, rest: seq<Byte>)
    requires n <= I32_MAX
    ensures var s := EncMapBegin(tag, n) + body + rest;
      ReadMapOf(s) == Ok(Parsed(MapOf(n), body + rest)) &&
      Read(s, Hint.Map) == Ok(Parsed(MapOf(n), body + rest)) &&
      ReadAny(s) == Ok(Parsed(MapOf(n), body + rest))
  {
    var s := EncMapBegin(tag, n) + body + rest;
    HeadThen(tag, Types.Map, EncI32(0, n) + body, rest);
    assert s == EncHead(tag, Types.Map) + (EncI32(0, n) + body) + rest;
    assert s == EncMapBegin(tag, n) + (body + rest);
    CountRoundTrip(tag, n, body + rest);
    AnyCount(s, Types.Map, n, body + rest);
    MapEntryPoint(s);
  }

  /** The map entry point reads a map head and its count. */
  lemma MapEntryPoint(s: seq<Byte>)
    ensures Read(s, Hint.Map) == ReadMapOf(s)
  {
  }

  /** A struct is opened by the struct entry point with its own field names,
      which expects exactly the tags of those names, and by
      `deserialize_any`, which accepts any tag; both leave the fields and
      the StructEnd. */
  lemma StructHeader(tag: Byte, fields: seq<S.Field>, rest: seq<Byte>)
    requires S.Serializable(S.Struct(fields))
    ensures S.Encode(tag, S.Struct(fields)).Ok? && S.EncodeFields(fields, {}).Ok?
    ensures forall i :: 0 <= i < |fields| ==> ParseU8(S.Names(fields)[i]).Some?
    ensures var s := S.Encode(tag, S.Struct(fields)).value + rest;
      var after := S.EncodeFields(fields, {}).value + EncStructEnd() + rest;
      Read(s, Hint.Struct(S.Names(fields))) == Ok(Parsed(Fields(Some(TagsOf(S.Names(fields)))), after)) &&
      ReadAny(s) == Ok(Parsed(Fields(None), after))
  {
    var d := S.Struct(fields);
    EncodeOk(tag, d);
    FieldTagsSpec(S.Names(fields));
    var body := S.EncodeFields(fields, {}).value;
    var after := body + EncStructEnd() + rest;
    var s := S.Encode(tag, d).value + rest;
    assert s == EncStructBegin(tag) + after;
    HeadRoundTrip(tag, Types.StructBegin, after);
    MarkerRoundTrip(tag, Types.StructBegin, Types.StructBegin, after);
    OpenStruct(s, S.Names(fields), after);
    OpenAny(s, after);
  }

  /** The struct entry point on a StructBegin head: the tags of the field
      names, and the input after the head. */
  lemma OpenStruct(s: seq<Byte>, names: seq<string>, after: seq<Byte>)
    requires ParseMarker(s, Types.StructBegin) == Ok(Parsed((), after))
    requires FieldTags(names).Ok?
    ensures Read(s, Hint.Struct(names)) == Ok(Parsed(Fields(Some(FieldTags(names).value)), after))
  {
  }

  /** `deserialize_any` on a StructBegin head opens a struct that expects
      any tag, leaving the input after the head. */
  lemma OpenAny(s: seq<Byte>, after: seq<Byte>)
    requires PickHead(s).Ok? && PickHead(s).value.tp == Types.StructBegin
    requires ParseMarker(s, Types.StructBegin) == Ok(Parsed((), after))
    ensures ReadAny(s) == Ok(Parsed(Fields(None), after))
  {
  }

  // -------------------------------------------------------------- ignoring

  /** What the reader needs beyond what the serializer checks: text is
      well-formed UTF-8 (a char one character), and a sequence or map
      announces as many members as it has. */
  predicate Honest(d: S.Data)
    decreases d, 1
  {
    match d
    case Prim(p) => TextOk(p)
    case SomeValue(x) => Honest(x)
    case NewtypeStruct(x) => Honest(x)
    case NewtypeVariant(x) => Honest(x)
    case Seq(len, elems) => len == Some(|elems|) && forall i :: 0 <= i < |elems| ==> Honest(elems[i])
    case Tuple(elems) => forall i :: 0 <= i < |elems| ==> Honest(elems[i])
    case Map(len, entries) => len == Some(|entries|) && forall i :: 0 <= i < |entries| ==> HonestEntry(entries[i])
    case Struct(fields) => forall i :: 0 <= i < |fields| ==> HonestField(fields[i])
  }

  predicate HonestEntry(e: S.Entry)
    decreases e, 2
  {
    Honest(e.key) && Honest(e.value)
  }

  predicate HonestField(f: S.Field)
    decreases f, 2
  {
    Honest(f.value)
  }

  lemma SkipPrimitive(tag: Byte, p: S.Primitive, rest: seq<Byte>)
    requires S.SerializablePrimitive(p) && TextOk(p)
    ensures S.EncodePrimitive(tag, p).Ok?
    ensures SkipValue(S.EncodePrimitive(tag, p).value + rest) == Ok(Parsed((), rest))
  {
    Pow256Values();
    match p
    case Bool(b) => NarrowestWidth(tag, if b then 1 else 0); SkipInt(tag, if b then 1 else 0, rest);
    case I8(v) => NarrowestWidth(tag, v); SkipInt(tag, v, rest);
    case I16(v) => NarrowestWidth(tag, v); SkipInt(tag, v, rest);
    case I32(v) => NarrowestWidth(tag, v); SkipInt(tag, v, rest);
    case I64(v) => SkipInt(tag, v, rest);
    case I128(v) => SkipInt(tag, S.Wrap64(v), rest);
    case U8(v) => NarrowestWidth(tag, v); SkipInt(tag, v, rest);
    case U16(v) => NarrowestWidth(tag, v); SkipInt(tag, v, rest);
    case U32(v) => SkipInt(tag, v, rest);
    case U64(v) => SkipInt(tag, v, rest);
    case U128(v) => SkipInt(tag, v, rest);
    case F32(b) => SkipFloat(tag, b, 0, rest);
    case F64(b) => SkipFloat(tag, 0, b, rest);
    case Char(c) => SkipStr(tag, c, rest);
    case Str(v) => SkipStr(tag, v, rest);
    case UnitVariant(v) => SkipStr(tag, v, rest);
    case Bytes(v) => SkipBytes(tag, v, rest);
    case NoneValue => SkipMarker(tag, Types.Zero, rest);
    case Unit => SkipMarker(tag, Types.Zero, rest);
    case UnitStruct => SkipMarker(tag, Types.Zero, rest);
  }

  /** `ignore` consumes exactly one written value, however deeply nested,
      so that whatever follows it is read next. */
  lemma {:induction false} SkipEncoded(tag: Byte, d: S.Data, rest: seq<Byte>)
    requires S.Serializable(d) && Honest(d)
    ensures S.Encode(tag, d).Ok?
    ensures SkipValue(S.Encode(tag, d).value + rest) == Ok(Parsed((), rest))
    decreases d, 2
  {
    EncodeOk(tag, d);
    match d
    case Prim(p) => SkipPrimitive(tag, p, rest);
    case SomeValue(x) => SkipEncoded(tag, x, rest);
    case NewtypeStruct(x) => SkipEncoded(tag, x, rest);
    case NewtypeVariant(x) => SkipEncoded(tag, x, rest);
    case Seq(_, elems) => SkipSeq(tag, d, rest);
    case Tuple(elems) => SkipSeq(tag, d, rest);
    case Map(len, entries) => SkipMap(tag, d, rest);
    case Struct(fields) => SkipStruct(tag, fields, rest);
  }

  lemma {:induction false} SkipSeq(tag: Byte, d: S.Data, rest: seq<Byte>)
    requires S.Serializable(d) && Honest(d) && (d.Seq? || d.Tuple?)
    ensures S.Encode(tag, d).Ok?
    ensures SkipValue(S.Encode(tag, d).value + rest) == Ok(Parsed((), rest))
    decreases d, 1
  {
    EncodeOk(tag, d);
    var body := S.EncodeElems(d.elems).value;
    assert S.Encode(tag, d).value + rest == EncListBegin(tag, |d.elems|) + body + rest;
    SkipList(tag, |d.elems|, body, rest);
    SkipElems(d.elems, rest);
  }

  lemma {:induction false} SkipMap(tag: Byte, d: S.Data, rest: seq<Byte>)
    requires S.Serializable(d) && Honest(d) && d.Map?
    ensures S.Encode(tag, d).Ok?
    ensures SkipValue(S.Encode(tag, d).value + rest) == Ok(Parsed((), rest))
    decreases d, 1
  {
    EncodeOk(tag, d);
    var body := S.EncodeEntries(d.entries).value;
    assert S.Encode(tag, d).value + rest == EncMapBegin(tag, |d.entries|) + body + rest;
    SkipMapHeader(tag, |d.entries|, body, rest);
    SkipEntries(d.entries, rest);
  }

  /** `ignore` of a list header goes on to skip its n elements. */
  lemma SkipList(tag: Byte, n: nat, body: seq<Byte>, rest: seq<Byte>)
    requires n <= I32_MAX
    ensures SkipValue(EncListBegin(tag, n) + body + rest) == SkipMany(body + rest, n)
  {
    var s := EncListBegin(tag, n) + body + rest;
    assert s == EncHead(tag, Types.List) + (EncI32(0, n) + body + rest);
    HeadRoundTrip(tag, Types.List, EncI32(0, n) + body + rest);
    assert s == EncListBegin(tag, n) + (body + rest);
    CountRoundTrip(tag, n, body + rest);
    SkipCountedStep(s, Types.List);
  }

  /** `ignore` of a map header goes on to skip its 2 x n keys and values. */
  lemma SkipMapHeader(tag: Byte, n: nat, body: seq<Byte>, rest: seq<Byte>)
    requires n <= I32_MAX
    ensures SkipValue(EncMapBegin(tag, n) + body + rest) == SkipMany(body + rest, 2 * n)
  {
    var s := EncMapBegin(tag, n) + body + rest;
    assert s == EncHead(tag, Types.Map) + (EncI32(0, n) + body + rest);
    HeadRoundTrip(tag, Types.Map, EncI32(0, n) + body + rest);
    assert s == EncMapBegin(tag, n) + (body + rest);
    CountRoundTrip(tag, n, body + rest);
    SkipCountedStep(s, Types.Map);
  }

  /** One unfolding of `ignore` at a list or map header. */
  lemma SkipCountedStep(s: seq<Byte>, marker: Types.JceType)
    requires marker == Types.List || marker == Types.Map
    requires PickType(s) == Ok(marker) && ParseCount(s, marker).Ok?
    ensures var c := ParseCount(s, marker).value;
      SkipValue(s) == SkipMany(c.rest, if marker == Types.List then c.value else 2 * c.value)
  {
  }

  /** `ignore` of a StructBegin header goes on to skip the fields. */
  lemma SkipStructHeader(tag: Byte, body: seq<Byte>)
    ensures SkipValue(EncStructBegin(tag) + body) == SkipFields(body)
  {
    HeadRoundTrip(tag, Types.StructBegin, body);
    MarkerRoundTrip(tag, Types.StructBegin, Types.StructBegin, body);
    SkipStructStep(EncStructBegin(tag) + body);
  }

  /** One unfolding of `ignore` at a StructBegin header. */
  lemma SkipStructStep(s: seq<Byte>)
    requires PickType(s) == Ok(Types.StructBegin) && ParseMarker(s, Types.StructBegin).Ok?
    ensures SkipValue(s) == SkipFields(ParseMarker(s, Types.StructBegin).value.rest)
  {
  }

  lemma {:induction false} SkipStruct(tag: Byte, fields: seq<S.Field>, rest: seq<Byte>)
    requires S.Serializable(S.Struct(fields)) && Honest(S.Struct(fields))
    ensures S.Encode(tag, S.Struct(fields)).Ok?
    ensures SkipValue(S.Encode(tag, S.Struct(fields)).value + rest) == Ok(Parsed((), rest))
    decreases S.Struct(fields), 1
  {
    EncodeOk(tag, S.Struct(fields));
    var body := S.EncodeFields(fields, {}).value;
    assert S.Encode(tag, S.Struct(fields)).value + rest == EncStructBegin(tag) + (body + EncStructEnd() + rest);
    SkipStructHeader(tag, body + EncStructEnd() + rest);
    SkipFieldsEncoded(fields, {}, rest);
  }

  lemma {:induction false} SkipElems(elems: seq<S.Data>, rest: seq<Byte>)
    requires forall i :: 0 <= i < |elems| ==> S.Serializable(elems[i]) && Honest(elems[i])
    ensures S.EncodeElems(elems).Ok?
    ensures SkipMany(S.EncodeElems(elems).value + rest, |elems|) == Ok(Parsed((), rest))
    decreases elems, 0
  {
    if elems == [] {
      SkipNoElems(elems, rest);
    } else {
      ElemsTail(elems);
      SkipElems(elems[1..], rest);
      SkipEncoded(0, elems[0], S.EncodeElems(elems[1..]).value + rest);
      SkipElemsCons(elems, rest);
    }
  }

  lemma SkipNoElems(elems: seq<S.Data>, rest: seq<Byte>)
    requires elems == []
    ensures S.EncodeElems(elems) == Ok([])
    ensures SkipMany(S.EncodeElems(elems).value + rest, |elems|) == Ok(Parsed((), rest))
  {
    assert [] + rest == rest;
  }

  lemma ElemsTail(elems: seq<S.Data>)
    requires elems != [] && forall i :: 0 <= i < |elems| ==> S.Serializable(elems[i]) && Honest(elems[i])
    ensures S.Serializable(elems[0]) && Honest(elems[0])
    ensures forall i :: 0 <= i < |elems[1..]| ==> S.Serializable(elems[1..][i]) && Honest(elems[1..][i])
  {
    assert forall i :: 0 <= i < |elems[1..]| ==> elems[1..][i] == elems[i + 1];
  }

  /** The first element is skipped, then the rest of them. */
  lemma SkipElemsCons(elems: seq<S.Data>, rest: seq<Byte>)
    requires elems != [] && S.Encode(0, elems[0]).Ok? && S.EncodeElems(elems[1..]).Ok?
    requires var tail := S.EncodeElems(elems[1..]).value + rest;
      SkipValue(S.Encode(0, elems[0]).value + tail) == Ok(Parsed((), tail))
    requires SkipMany(S.EncodeElems(elems[1..]).value + rest, |elems[1..]|) == Ok(Parsed((), rest))
    ensures S.EncodeElems(elems).Ok?
    ensures SkipMany(S.EncodeElems(elems).value + rest, |elems|) == Ok(Parsed((), rest))
  {
    var a, b := S.Encode(0, elems[0]).value, S.EncodeElems(elems[1..]).value;
    assert S.EncodeElems(elems) == Ok(a + b);
    Regroup(a, b, rest);
    SkipManyCons(a, b + rest, |elems|);
  }

  /** `SkipMany` past a first value that `ignore` skips. */
  lemma SkipManyCons(a: seq<Byte>, t: seq<Byte>, k: nat)
    requires k > 0 && SkipValue(a + t) == Ok(Parsed((), t))
    ensures SkipMany(a + t, k) == SkipMany(t, k - 1)
  {
  }

  lemma {:induction false} SkipEntries(entries: seq<S.Entry>, rest: seq<Byte>)
    requires forall i :: 0 <= i < |entries| ==> S.SerializableEntry(entries[i]) && HonestEntry(entries[i])
    ensures S.EncodeEntries(entries).Ok?
    ensures SkipMany(S.EncodeEntries(entries).value + rest, 2 * |entries|) == Ok(Parsed((), rest))
    decreases entries, 0
  {
    if entries == [] {
      SkipNoEntries(entries, rest);
    } else {
      EntriesTail(entries);
      SkipEntries(entries[1..], rest);
      SkipEntry(entries[0], S.EncodeEntries(entries[1..]).value + rest, 2 * |entries[1..]|);
      EncodeEntriesCons(entries);
      SkipJoin(S.EncodeEntry(entries[0]).value, S.EncodeEntries(entries[1..]).value, rest, 2 * |entries[1..]|, 2 * |entries|);
    }
  }

  lemma SkipNoEntries(entries: seq<S.Entry>, rest: seq<Byte>)
    requires entries == []
    ensures S.EncodeEntries(entries) == Ok([])
    ensures SkipMany(S.EncodeEntries(entries).value + rest, 2 * |entries|) == Ok(Parsed((), rest))
  {
    assert [] + rest == rest;
  }

  lemma EntriesTail(entries: seq<S.Entry>)
    requires entries != [] && forall i :: 0 <= i < |entries| ==> S.SerializableEntry(entries[i]) && HonestEntry(entries[i])
    ensures S.SerializableEntry(entries[0]) && HonestEntry(entries[0])
    ensures forall i :: 0 <= i < |entries[1..]| ==>
      S.SerializableEntry(entries[1..][i]) && HonestEntry(entries[1..][i])
  {
    assert forall i :: 0 <= i < |entries[1..]| ==> entries[1..][i] == entries[i + 1];
  }

  lemma EncodeEntriesCons(entries: seq<S.Entry>)
    requires entries != [] && S.EncodeEntry(entries[0]).Ok? && S.EncodeEntries(entries[1..]).Ok?
    ensures S.EncodeEntries(entries) == Ok(S.EncodeEntry(entries[0]).value + S.EncodeEntries(entries[1..]).value)
  {
  }

  /** Skipping two values from `a` and then `k` from `b` is skipping
      `k + 2` values from `a + b`. */
  lemma SkipJoin(a: seq<Byte>, b: seq<Byte>, rest: seq<Byte>, k: nat, m: nat)
    requires m == k + 2
    requires SkipMany(a + (b + rest), k + 2) == SkipMany(b + rest, k)
    requires SkipMany(b + rest, k) == Ok(Parsed((), rest))
    ensures SkipMany(a + b + rest, m) == Ok(Parsed((), rest))
  {
    Regroup(a, b, rest);
  }

  lemma {:induction false} SkipEntry(e: S.Entry, after: seq<Byte>, k: nat)
    requires S.SerializableEntry(e) && HonestEntry(e)
    ensures S.EncodeEntry(e).Ok?
    ensures SkipMany(S.EncodeEntry(e).value + after, k + 2) == SkipMany(after, k)
    decreases e, 1
  {
    EntryOk(e);
    SkipEncoded(1, e.value, after);
    SkipEncoded(0, e.key, S.Encode(1, e.value).value + after);
    SkipEntryJoin(e, after, k);
  }

  /** A key and its value are two values for `SkipMany`. */
  lemma SkipEntryJoin(e: S.Entry, after: seq<Byte>, k: nat)
    requires S.Encode(0, e.key).Ok? && S.Encode(1, e.value).Ok?
    requires SkipValue(S.Encode(1, e.value).value + after) == Ok(Parsed((), after))
    requires var tail := S.Encode(1, e.value).value + after;
      SkipValue(S.Encode(0, e.key).value + tail) == Ok(Parsed((), tail))
    ensures S.EncodeEntry(e).Ok?
    ensures SkipMany(S.EncodeEntry(e).value + after, k + 2) == SkipMany(after, k)
  {
    var key, value := S.Encode(0, e.key).value, S.Encode(1, e.value).value;
    assert S.EncodeEntry(e) == Ok(key + value);
    Regroup(key, value, after);
    SkipManyCons(key, value + after, k + 2);
    SkipManyCons(value, after, k + 1);
  }

  /** `ignore` of a struct body: the written fields and the StructEnd. */
  lemma {:induction false} SkipFieldsEncoded(fields: seq<S.Field>, seen: set<Byte>, rest: seq<Byte>)
    requires S.EncodeFields(fields, seen).Ok?
    requires forall i :: 0 <= i < |fields| ==> HonestField(fields[i])
    ensures SkipFields(S.EncodeFields(fields, seen).value + EncStructEnd() + rest) == Ok(Parsed((), rest))
    decreases fields, 0
  {
    if fields == [] {
      SkipNoFields(fields, seen, rest);
    } else {
      FieldsTail(fields, seen);
      var t := ParseU8(fields[0].name).value;
      SkipFieldsEncoded(fields[1..], seen + {t}, rest);
      SkipField(fields[0], seen, S.EncodeFields(fields[1..], seen + {t}).value + EncStructEnd() + rest);
      SkipFieldsCons(fields, seen, rest);
    }
  }

  lemma SkipNoFields(fields: seq<S.Field>, seen: set<Byte>, rest: seq<Byte>)
    requires fields == []
    ensures S.EncodeFields(fields, seen) == Ok([])
    ensures SkipFields(S.EncodeFields(fields, seen).value + EncStructEnd() + rest) == Ok(Parsed((), rest))
  {
    assert [] + EncStructEnd() + rest == EncStructEnd() + rest;
    MarkerRoundTrip(0, Types.StructEnd, Types.StructEnd, rest);
  }

  lemma FieldsTail(fields: seq<S.Field>, seen: set<Byte>)
    requires fields != [] && S.EncodeFields(fields, seen).Ok?
    requires forall i :: 0 <= i < |fields| ==> HonestField(fields[i])
    ensures S.EncodeField(fields[0], seen).Ok? && HonestField(fields[0])
    ensures S.EncodeFields(fields[1..], seen + {ParseU8(fields[0].name).value}).Ok?
    ensures forall i :: 0 <= i < |fields[1..]| ==> HonestField(fields[1..][i])
  {
    assert forall i :: 0 <= i < |fields[1..]| ==> fields[1..][i] == fields[i + 1];
  }

  /** The first field is skipped, then the rest of the body. */
  lemma SkipFieldsCons(fields: seq<S.Field>, seen: set<Byte>, rest: seq<Byte>)
    requires fields != [] && S.EncodeField(fields[0], seen).Ok?
    requires S.EncodeFields(fields[1..], seen + {ParseU8(fields[0].name).value}).Ok?
    requires var after := S.EncodeFields(fields[1..], seen + {ParseU8(fields[0].name).value}).value + EncStructEnd() + rest;
      SkipFields(S.EncodeField(fields[0], seen).value + after) == SkipFields(after) &&
      SkipFields(after) == Ok(Parsed((), rest))
    ensures S.EncodeFields(fields, seen).Ok?
    ensures SkipFields(S.EncodeFields(fields, seen).value + EncStructEnd() + rest) == Ok(Parsed((), rest))
  {
    var a := S.EncodeField(fields[0], seen).value;
    var b := S.EncodeFields(fields[1..], seen + {ParseU8(fields[0].name).value}).value;
    assert S.EncodeFields(fields, seen) == Ok(a + b);
    Regroup(a, b, EncStructEnd());
    Regroup(a, b + EncStructEnd(), rest);
  }

  lemma {:induction false} SkipField(f: S.Field, seen: set<Byte>, after: seq<Byte>)
    requires S.EncodeField(f, seen).Ok? && HonestField(f)
    ensures SkipFields(S.EncodeField(f, seen).value + after) == SkipFields(after)
    decreases f, 1
  {
    var t := ParseU8(f.name).value;
    EncodeOk(t, f.value);
    FirstHeader(t, f.value, after);
    SkipEncoded(t, f.value, after);
  }

  // ------------------------------------------------------- struct keys

  /** A value written at tag `t` is announced by `get_tag` as key `t`
      (nothing consumed, `t` now seen); `next_key_seed` returns it when
      any tag or `t` itself is expected, and otherwise skips the whole value
      and goes on with what follows. */
  lemma TagKey(t: Byte, x: S.Data, seen: set<Byte>, rest: seq<Byte>, fields: Option<set<Byte>>)
    requires t !in seen && S.Serializable(x) && Honest(x)
    ensures S.Encode(t, x).Ok?
    ensures var s := S.Encode(t, x).value + rest;
      TagStep(s, seen) == Ok(KeyStep(Some(t), s, seen + {t}))
    ensures var s := S.Encode(t, x).value + rest;
      fields.None? || t in fields.value ==>
        NextKeySpec(s, seen, fields) == Ok(KeyStep(Some(t), s, seen + {t}))
    ensures var s := S.Encode(t, x).value + rest;
      fields.Some? && t !in fields.value ==>
        NextKeySpec(s, seen, fields) == NextKeySpec(rest, seen + {t}, fields)
  {
    FirstHeader(t, x, rest);
    SkipEncoded(t, x, rest);
  }

  /** At the StructEnd the walk consumes it and reports the end. */
  lemma EndKey(seen: set<Byte>, rest: seq<Byte>, fields: Option<set<Byte>>)
    ensures NextKeySpec(EncStructEnd() + rest, seen, fields) == Ok(KeyStep(None, rest, seen))
  {
    HeadRoundTrip(0, Types.StructEnd, rest);
    MarkerRoundTrip(0, Types.StructEnd, Types.StructEnd, rest);
  }

  /** Written fields none of whose tags is expected are all skipped by
      `next_key_seed`, and their tags are all recorded as seen. */
  lemma {:induction false} SkipUnexpected(fs: seq<S.Field>, seen: set<Byte>, after: seq<Byte>, expected: set<Byte>)
    requires S.EncodeFields(fs, seen).Ok?
    requires forall i :: 0 <= i < |fs| ==>
      HonestField(fs[i]) && ParseU8(fs[i].name).Some? && ParseU8(fs[i].name).value !in expected
    ensures NextKeySpec(S.EncodeFields(fs, seen).value + after, seen, Some(expected))
         == NextKeySpec(after, seen + TagsOf(S.Names(fs)), Some(expected))
    decreases fs
  {
    if fs == [] {
      SkipNothing(seen, after, expected);
    } else {
      var t := ParseU8(fs[0].name).value;
      SkipOne(fs, seen, after, expected);
      SkipUnexpected(fs[1..], seen + {t}, after, expected);
      SeenTags(fs, seen);
    }
  }

  lemma SkipNothing(seen: set<Byte>, after: seq<Byte>, expected: set<Byte>)
    ensures S.EncodeFields([], seen) == Ok([])
    ensures NextKeySpec(S.EncodeFields([], seen).value + after, seen, Some(expected))
         == NextKeySpec(after, seen + TagsOf(S.Names([])), Some(expected))
  {
    assert TagsOf(S.Names([])) == {};
    assert seen + {} == seen;
    assert [] + after == after;
  }

  /** The first written field is skipped when its tag is not expected. */
  lemma SkipOne(fs: seq<S.Field>, seen: set<Byte>, after: seq<Byte>, expected: set<Byte>)
    requires fs != [] && S.EncodeFields(fs, seen).Ok?
    requires forall i :: 0 <= i < |fs| ==>
      HonestField(fs[i]) && ParseU8(fs[i].name).Some? && ParseU8(fs[i].name).value !in expected
    ensures var t := ParseU8(fs[0].name).value;
      S.EncodeFields(fs[1..], seen + {t}).Ok? &&
      (forall i :: 0 <= i < |fs[1..]| ==>
         HonestField(fs[1..][i]) && ParseU8(fs[1..][i].name).Some? && ParseU8(fs[1..][i].name).value !in expected) &&
      NextKeySpec(S.EncodeFields(fs, seen).value + after, seen, Some(expected))
        == NextKeySpec(S.EncodeFields(fs[1..], seen + {t}).value + after, seen + {t}, Some(expected))
  {
    var tail := fs[1..];
    assert forall i :: 0 <= i < |tail| ==> tail[i] == fs[i + 1];
    FieldsCons(fs, seen);
    var t := ParseU8(fs[0].name).value;
    EncodeOk(t, fs[0].value);
    var tailEnc := S.EncodeFields(tail, seen + {t}).value;
    TagKey(t, fs[0].value, seen, tailEnc + after, Some(expected));
    Regroup(S.Encode(t, fs[0].value).value, tailEnc, after);
  }

  /** A written struct body is its first field at the tag its name
      denotes, then the rest of the fields with that tag seen. */
  lemma FieldsCons(fields: seq<S.Field>, seen: set<Byte>)
    requires fields != [] && S.EncodeFields(fields, seen).Ok?
    ensures ParseU8(fields[0].name).Some? && ParseU8(fields[0].name).value !in seen
    ensures var t := ParseU8(fields[0].name).value;
      S.Encode(t, fields[0].value).Ok? && S.EncodeFields(fields[1..], seen + {t}).Ok? &&
      S.EncodeFields(fields, seen).value == S.Encode(t, fields[0].value).value + S.EncodeFields(fields[1..], seen + {t}).value
  {
  }

  /** The tags of the fields: the first one and those of the rest. */
  lemma SeenTags(fs: seq<S.Field>, seen: set<Byte>)
    requires fs != [] && forall i :: 0 <= i < |fs| ==> ParseU8(fs[i].name).Some?
    ensures seen + {ParseU8(fs[0].name).value} + TagsOf(S.Names(fs[1..])) == seen + TagsOf(S.Names(fs))
  {
    var names := S.Names(fs);
    assert names[1..] == S.Names(fs[1..]);
    TagsOfCons(names);
  }

  /** A tag that repeats is `DuplicateFieldTag` even when the field it
      names is not expected and was skipped. */
  lemma RepeatedTag(t: Byte, x: S.Data, y: S.Data, seen: set<Byte>, rest: seq<Byte>, expected: set<Byte>)
    requires t !in seen && t !in expected
    requires S.Serializable(x) && Honest(x) && S.Serializable(y)
    ensures S.Encode(t, x).Ok? && S.Encode(t, y).Ok?
    ensures NextKeySpec(S.Encode(t, x).value + S.Encode(t, y).value + rest, seen, Some(expected))
         == Err(DuplicateFieldTag)
  {
    FirstHeader(t, y, rest);
    TagKey(t, x, seen, S.Encode(t, y).value + rest, Some(expected));
    assert S.Encode(t, x).value + S.Encode(t, y).value + rest
        == S.Encode(t, x).value + (S.Encode(t, y).value + rest);
  }

  /** `new_with_fields` on a few name lists. */
  lemma FieldTagsExamples()
    ensures FieldTags(["1", "2", "3"]) == Ok({1, 2, 3})
    ensures FieldTags(["0", "0"]) == Err(DuplicateFieldTagName)
    ensures FieldTags(["1", "x"]) == Err(ErrorFieldTag)
    ensures FieldTags(["256"]) == Err(ErrorFieldTag)
  {
    assert ParseU8("0") == Some(0) by { assert "0"[..0] == []; }
    assert ParseU8("1") == Some(1) by { assert "1"[..0] == []; }
    assert ParseU8("2") == Some(2) by { assert "2"[..0] == []; }
    assert ParseU8("3") == Some(3) by { assert "3"[..0] == []; }
    assert ParseU8("x") == None by { assert !IsDigit('x'); }
    assert ParseU8("256") == None by {
      assert "256"[..2] == "25" && "25"[..1] == "2" && "2"[..0] == [];
    }
    assert FieldTagsFrom(["3"], {1, 2}) == Ok({1, 2, 3}) by {
      assert ["3"][1..] == [];
      assert {1, 2} + {3} == {1, 2, 3};
    }
    assert FieldTagsFrom(["2", "3"], {1}) == Ok({1, 2, 3}) by {
      assert ["2", "3"][1..] == ["3"];
      assert {1} + {2} == {1, 2};
    }
    assert FieldTagsFrom(["1", "2", "3"], {}) == Ok({1, 2, 3}) by {
      assert ["1", "2", "3"][1..] == ["2", "3"];
      assert {} + {1} == {1};
    }
    assert ["2", "3"][1..] == ["3"];
    assert ["0", "0"][1..] == ["0"];
    assert ["1", "x"][1..] == ["x"];
  }
}
