/** The append-only writer (src/ser/builder.rs).

    Each writer is given as a function from its arguments to the bytes it
    appends, and as a method of the `Jcebuilder` class that appends them to
    its `bytes` field, delegating down the chain the way the source does. */
module Builder {
  import Types
  import opened BigEndian

  /** `Jcebuilder::STRING_MAX_LENGTH`: longer strings are cut to this. */
  const STRING_MAX_LENGTH: nat := U32_MAX

  /** `Jcebuilder::BYTES_MAX_LENGTH`: longer byte strings are cut to this. */
  const BYTES_MAX_LENGTH: nat := I32_MAX

  function Min(a: nat, b: nat): nat
  {
    if a <= b then a else b
  }

  /** `push_head`: one byte `tag << 4 | type` for tags below 15, otherwise
      `0xF0 | type` and then the tag byte. */
  function EncHead(tag: Byte, tp: Types.JceType): (r: seq<Byte>)
    ensures |r| == (if tag < 15 then 1 else 2)
    ensures r[0] % 16 == Types.Code(tp)
    ensures tag < 15 ==> r[0] / 16 == tag
    ensures tag >= 15 ==> r[0] / 16 == 15 && r[1] == tag
  {
    if tag < 15 then [tag * 16 + Types.Code(tp)] else [0xF0 + Types.Code(tp), tag]
  }

  /** `zero`: a lone Zero header. */
  function EncZero(tag: Byte): seq<Byte>
  {
    EncHead(tag, Types.Zero)
  }

  function EncI8(tag: Byte, v: Int8): seq<Byte>
  {
    Pow256Values();
    if v == 0 then EncZero(tag) else EncHead(tag, Types.I8) + TwosBE(v, 1)
  }

  function EncI16(tag: Byte, v: Int16): seq<Byte>
  {
    Pow256Values();
    if -0x80 <= v < 0x80 then EncI8(tag, v) else EncHead(tag, Types.I16) + TwosBE(v, 2)
  }

  function EncI32(tag: Byte, v: Int32): seq<Byte>
  {
    Pow256Values();
    if -0x8000 <= v < 0x8000 then EncI16(tag, v) else EncHead(tag, Types.I32) + TwosBE(v, 4)
  }

  function EncI64(tag: Byte, v: Int64): seq<Byte>
  {
    Pow256Values();
    if -0x8000_0000 <= v < 0x8000_0000 then EncI32(tag, v)
    else EncHead(tag, Types.I64) + TwosBE(v, 8)
  }

  /** `f32` / `f64`: always a header and the raw big-endian bits. */
  function EncF32(tag: Byte, bits: Uint32): seq<Byte>
  {
    EncHead(tag, Types.F32) + ToBE(bits, 4)
  }

  function EncF64(tag: Byte, bits: Uint64): seq<Byte>
  {
    EncHead(tag, Types.F64) + ToBE(bits, 8)
  }

  /** `str`: String1 with a 1-byte length up to 255 bytes, otherwise
      String4 with a 4-byte length and at most STRING_MAX_LENGTH bytes. */
  function EncStr(tag: Byte, v: seq<Byte>): seq<Byte>
  {
    if |v| <= 255 then EncHead(tag, Types.String1) + [|v|] + v
    else
      var n := Min(|v|, STRING_MAX_LENGTH);
      EncHead(tag, Types.String4) + ToBE(n, 4) + v[..n]
  }

  /** `map_begin` / `list_begin`: the marker header and the count written
      by `i32(0, len)`. */
  function EncMapBegin(tag: Byte, len: Int32): seq<Byte>
  {
    EncHead(tag, Types.Map) + EncI32(0, len)
  }

  function EncListBegin(tag: Byte, len: Int32): seq<Byte>
  {
    EncHead(tag, Types.List) + EncI32(0, len)
  }

  function EncStructBegin(tag: Byte): seq<Byte>
  {
    EncHead(tag, Types.StructBegin)
  }

  /** `struct_end` always writes the single byte 0x0B. */
  function EncStructEnd(): (r: seq<Byte>)
    ensures r == [0x0B]
  {
    EncHead(0, Types.StructEnd)
  }

  /** `bytes`: the Bytes header, a fixed `(0, I8)` header, the length as
      `i32(0, n)` and the first n bytes, n at most BYTES_MAX_LENGTH. */
  function EncBytes(tag: Byte, v: seq<Byte>): seq<Byte>
  {
    var n := Min(|v|, BYTES_MAX_LENGTH);
    EncHead(tag, Types.Bytes) + EncHead(0, Types.I8) + EncI32(0, n) + v[..n]
  }

  // ------------------------------------------------ the width that is chosen

  /** The fewest payload bytes that hold v in two's complement: 0 for zero
      (written as a Zero header), otherwise 1, 2, 4 or 8. */
  function MinWidth(v: Int64): (w: nat)
    ensures w in {0, 1, 2, 4, 8}
    ensures w == 0 <==> v == 0
    ensures w > 0 ==> -Half(w) <= v < Half(w)
    ensures w > 1 ==> !(-Half(w / 2) <= v < Half(w / 2))
  {
    Pow256Values();
    if v == 0 then 0
    else if -Half(1) <= v < Half(1) then 1
    else if -Half(2) <= v < Half(2) then 2
    else if -Half(4) <= v < Half(4) then 4
    else 8
  }

  function IntType(w: nat): Types.JceType
  {
    if w == 1 then Types.I8 else if w == 2 then Types.I16
    else if w == 4 then Types.I32 else Types.I64
  }

  /** The narrowing chain writes zero as a Zero header and any other value
      with the narrowest integer type that holds it; starting the chain at a
      narrower writer gives the same bytes. */
  lemma NarrowestWidth(tag: Byte, v: Int64)
    ensures MinWidth(v) == 0 ==> EncI64(tag, v) == EncZero(tag)
    ensures MinWidth(v) > 0 ==>
      EncI64(tag, v) == EncHead(tag, IntType(MinWidth(v))) + TwosBE(v, MinWidth(v))
    ensures -0x8000_0000 <= v < 0x8000_0000 ==> EncI64(tag, v) == EncI32(tag, v)
    ensures -0x8000 <= v < 0x8000 ==> EncI64(tag, v) == EncI16(tag, v)
    ensures -0x80 <= v < 0x80 ==> EncI64(tag, v) == EncI8(tag, v)
  {
    Pow256Values();
  }

  lemma Append3(x: seq<Byte>, a: seq<Byte>, b: seq<Byte>, c: seq<Byte>)
    ensures x + a + b + c == x + (a + b + c)
  {
  }

  lemma Append4(x: seq<Byte>, a: seq<Byte>, b: seq<Byte>, c: seq<Byte>, d: seq<Byte>)
    ensures x + a + b + c + d == x + (a + b + c + d)
  {
  }

  // ---------------------------------------------------------------- the writer

  class Jcebuilder {
    var bytes: seq<Byte>

    constructor ()
      ensures bytes == []
    {
      bytes := [];
    }

    /** `done`: everything written so far. */
    function Done(): seq<Byte>
      reads this
    {
      bytes
    }

    method PushHead(tag: Byte, tp: Types.JceType)
      modifies this
      ensures bytes == old(bytes) + EncHead(tag, tp)
    {
      if tag < 15 {
        PushByte(tag * 16 + Types.Code(tp));
      } else {
        PushByte(0xF0 + Types.Code(tp));
        PushByte(tag);
      }
    }

    method PushByte(b: Byte)
      modifies this
      ensures bytes == old(bytes) + [b]
    {
      bytes := bytes + [b];
    }

    method PushBytes(b: seq<Byte>)
      modifies this
      ensures bytes == old(bytes) + b
    {
      bytes := bytes + b;
    }

    method I8(tag: Byte, v: Int8)
      modifies this
      ensures bytes == old(bytes) + EncI8(tag, v)
    {
      Pow256Values();
      if v == 0 {
        Zero(tag);
      } else {
        PushHead(tag, Types.I8);
        PushBytes(TwosBE(v, 1));
      }
    }

    method I16(tag: Byte, v: Int16)
      modifies this
      ensures bytes == old(bytes) + EncI16(tag, v)
    {
      Pow256Values();
      if -0x80 <= v < 0x80 {
        I8(tag, v);
      } else {
        PushHead(tag, Types.I16);
        PushBytes(TwosBE(v, 2));
      }
    }

    method I32(tag: Byte, v: Int32)
      modifies this
      ensures bytes == old(bytes) + EncI32(tag, v)
    {
      Pow256Values();
      if -0x8000 <= v < 0x8000 {
        I16(tag, v);
      } else {
        PushHead(tag, Types.I32);
        PushBytes(TwosBE(v, 4));
      }
    }

    method I64(tag: Byte, v: Int64)
      modifies this
      ensures bytes == old(bytes) + EncI64(tag, v)
    {
      Pow256Values();
      if -0x8000_0000 <= v < 0x8000_0000 {
        I32(tag, v);
      } else {
        PushHead(tag, Types.I64);
        PushBytes(TwosBE(v, 8));
      }
    }

    method F32(tag: Byte, bits: Uint32)
      modifies this
      ensures bytes == old(bytes) + EncF32(tag, bits)
    {
      PushHead(tag, Types.F32);
      PushBytes(ToBE(bits, 4));
    }

    method F64(tag: Byte, bits: Uint64)
      modifies this
      ensures bytes == old(bytes) + EncF64(tag, bits)
    {
      PushHead(tag, Types.F64);
      PushBytes(ToBE(bits, 8));
    }

    method Str(tag: Byte, v: seq<Byte>)
      modifies this
      ensures bytes == old(bytes) + EncStr(tag, v)
    {
      ghost var start := bytes;
      if |v| <= 255 {
        PushHead(tag, Types.String1);
        PushByte(|v|);
        PushBytes(v);
        Append3(start, EncHead(tag, Types.String1), [|v|], v);
      } else {
        var n := Min(|v|, STRING_MAX_LENGTH);
        PushHead(tag, Types.String4);
        PushBytes(ToBE(n, 4));
        PushBytes(v[..n]);
        Append3(start, EncHead(tag, Types.String4), ToBE(n, 4), v[..n]);
      }
    }

    method MapBegin(tag: Byte, len: Int32)
      modifies this
      ensures bytes == old(bytes) + EncMapBegin(tag, len)
    {
      PushHead(tag, Types.Map);
      I32(0, len);
    }

    method ListBegin(tag: Byte, len: Int32)
      modifies this
      ensures bytes == old(bytes) + EncListBegin(tag, len)
    {
      PushHead(tag, Types.List);
      I32(0, len);
    }

    method StructBegin(tag: Byte)
      modifies this
      ensures bytes == old(bytes) + EncStructBegin(tag)
    {
      PushHead(tag, Types.StructBegin);
    }

    method StructEnd()
      modifies this
      ensures bytes == old(bytes) + EncStructEnd()
    {
      PushHead(0, Types.StructEnd);
    }

    method Zero(tag: Byte)
      modifies this
      ensures bytes == old(bytes) + EncZero(tag)
    {
      PushHead(tag, Types.Zero);
    }

    method Bytes(tag: Byte, v: seq<Byte>)
      modifies this
      ensures bytes == old(bytes) + EncBytes(tag, v)
    {
      ghost var start := bytes;
      var n := Min(|v|, BYTES_MAX_LENGTH);
      Pow256Values();
      PushHead(tag, Types.Bytes);
      PushHead(0, Types.I8);
      I32(0, n);
      PushBytes(v[..n]);
      Append4(start, EncHead(tag, Types.Bytes), EncHead(0, Types.I8), EncI32(0, n), v[..n]);
    }
  }
}
