/** What the writer and the reader promise each other: every writer of
    src/ser/builder.rs is read back by the matching reader of
    src/de/parser.rs, and the reader's widening and rejection rules hold on
    what the writer produces. */
module WireLaws {
  import opened Errors
  import opened BigEndian
  import opened Types
  import opened Utf8
  import opened Parser
  import opened Builder

  /** A header written by `push_head` is decoded by `pick_head` to the same
      tag and type, and `get_head` consumes exactly its bytes. */
  lemma HeadRoundTrip(tag: Byte, tp: JceType, rest: seq<Byte>)
    ensures PickHead(EncHead(tag, tp) + rest) == Ok(Header(tag, tp))
    ensures ParseHead(EncHead(tag, tp) + rest) == Ok(Parsed(Header(tag, tp), rest))
  {
    var h := EncHead(tag, tp);
    var s := h + rest;
    assert s[0] == h[0];
    if tag < 15 {
      assert s[1..] == rest;
    } else {
      assert s[1] == tag;
      assert s[2..] == rest;
    }
  }

  /** The header quirk: a long-form header (high nibble 15) whose tag byte is
      below 15 is peeked as two bytes, but `get_head` decides from the
      decoded tag and consumes only the first, so the tag byte is left to be
      read as payload. */
  lemma LongFormSmallTag(s: seq<Byte>)
    requires |s| >= 2 && s[0] / 16 == 15 && s[0] % 16 <= 13 && s[1] < 15
    ensures PickHead(s) == Ok(Header(s[1], TryFrom(s[0] % 16).value))
    ensures ParseHead(s) == Ok(Parsed(Header(s[1], TryFrom(s[0] % 16).value), s[1..]))
  {
  }

  /** The quirk on a concrete input: `f0 05 12` peeks as tag 5 type I8, but
      `i8` returns the tag byte 5 and leaves 0x12 behind; the well-formed
      long form `f0 0f 12` reads as 0x12 with nothing left. */
  lemma LongFormExamples()
    ensures PickHead([0xF0, 0x05, 0x12]) == Ok(Header(5, I8))
    ensures ParseInt([0xF0, 0x05, 0x12], 1) == Ok(Parsed(5, [0x12]))
    ensures PickTag([0xF0, 0x0F, 0x12]) == Ok(0x0F)
    ensures ParseInt([0xF0, 0x0F, 0x12], 1) == Ok(Parsed(0x12, []))
  {
    var s := [0xF0, 0x05, 0x12];
    assert ParseHead(s) == Ok(Parsed(Header(5, I8), [0x05, 0x12]));
    assert [0x05, 0x12][..1] == [0x05];
    var t := [0xF0, 0x0F, 0x12];
    assert ParseHead(t) == Ok(Parsed(Header(15, I8), [0x12]));
  }

  /** Reading an integer field whose header and payload are known. */
  lemma IntField(tag: Byte, w: nat, p: seq<Byte>, width: nat, rest: seq<Byte>)
    requires w in {1, 2, 4, 8} && width in {1, 2, 4, 8} && |p| == w
    ensures ParseInt(EncHead(tag, IntType(w)) + p + rest, width)
         == if w <= width then Ok(Parsed(SignedBE(p), rest)) else Err(WrongType)
  {
    Regroup(EncHead(tag, IntType(w)), p, rest);
    HeadRoundTrip(tag, IntType(w), p + rest);
    assert IntWidth(IntType(w)) == w;
    TakeAppend(p, rest);
  }

  /** The chain of integer writers starting at `i64` picks a width that
      `iN` reads back exactly when the value fits N bytes; a value too wide
      for the reader is `WrongType`. */
  lemma IntRoundTrip(tag: Byte, v: Int64, width: nat, rest: seq<Byte>)
    requires width in {1, 2, 4, 8}
    ensures ParseInt(EncI64(tag, v) + rest, width)
         == if -Half(width) <= v < Half(width) then Ok(Parsed(v, rest)) else Err(WrongType)
  {
    NarrowestWidth(tag, v);
    var w := MinWidth(v);
    if w == 0 {
      HeadRoundTrip(tag, Zero, rest);
    } else {
      var p := TwosBE(v, w);
      IntField(tag, w, p, width, rest);
      SignedTwosBE(v, w);
      Pow256Values();
      assert w <= width <==> -Half(width) <= v < Half(width);
    }
  }

  /** `iN` rejects every header that is neither Zero nor an integer of at
      most N bytes, before reading any payload. */
  lemma IntRejects(tag: Byte, tp: JceType, width: nat, rest: seq<Byte>)
    requires width in {1, 2, 4, 8}
    requires tp != Zero && !(1 <= IntWidth(tp) <= width)
    ensures ParseInt(EncHead(tag, tp) + rest, width) == Err(WrongType)
  {
    HeadRoundTrip(tag, tp, rest);
  }

  /** Integer reads from tests/parser.rs: a stored I8 widens to i16, an
      I64 cannot be read as i16, and a truncated I64 payload is missing
      bytes; a Zero head reads as 0 and takes no payload. */
  lemma IntExamples()
    ensures ParseInt([0x00, 0x12], 2) == Ok(Parsed(0x12, []))
    ensures ParseInt([0x0C, 0x12], 2) == Ok(Parsed(0, [0x12]))
    ensures ParseInt([0x03, 0x01, 0x23, 0x45, 0x67, 0x89, 0xAB, 0xCD, 0xEF], 2) == Err(WrongType)
    ensures ParseInt([0x03, 0x12, 0x34], 8) == Err(NotEnoughtBytes)
  {
    assert ParseHead([0x00, 0x12]) == Ok(Parsed(Header(0, I8), [0x12]));
    assert ParseHead([0x0C, 0x12]) == Ok(Parsed(Header(0, Zero), [0x12]));
    assert ParseHead([0x03, 0x12, 0x34]) == Ok(Parsed(Header(0, I64), [0x12, 0x34]));
  }

  /** Concatenation regrouped to the right, to split off a head. */
  lemma Regroup<T>(a: seq<T>, b: seq<T>, c: seq<T>)
    ensures a + b + c == a + (b + c)
  {
  }

  lemma TakeAppend(p: seq<Byte>, rest: seq<Byte>)
    ensures Take(p + rest, |p|) == Ok(Parsed(p, rest))
  {
    assert (p + rest)[..|p|] == p && (p + rest)[|p|..] == rest;
  }

  /** Floats are written and read as raw bits; `f64` widens a stored F32. */
  lemma FloatRoundTrip(tag: Byte, b32: Uint32, b64: Uint64, rest: seq<Byte>)
    ensures ParseF32(EncF32(tag, b32) + rest) == Ok(Parsed(b32, rest))
    ensures ParseF64(EncF32(tag, b32) + rest) == Ok(Parsed(WidenedF32(b32), rest))
    ensures ParseF64(EncF64(tag, b64) + rest) == Ok(Parsed(Bits64(b64), rest))
  {
    Pow256Values();
    var p4 := ToBE(b32, 4);
    var p8 := ToBE(b64, 8);
    HeadRoundTrip(tag, F32, p4 + rest);
    HeadRoundTrip(tag, F64, p8 + rest);
    Regroup(EncHead(tag, F32), p4, rest);
    Regroup(EncHead(tag, F64), p8, rest);
    TakeAppend(p4, rest);
    TakeAppend(p8, rest);
    FromToBE(b32, 4);
    FromToBE(b64, 8);
  }

  /** Reading a string field whose header is known. */
  lemma StrHeader(tag: Byte, tp: JceType, body: seq<Byte>, short: bool, long: bool)
    ensures ParseStr(EncHead(tag, tp) + body, short, long)
         == if tp == Zero then Ok(Parsed([], body))
            else if tp == String1 && short then ParseStrPayload(body, 1)
            else if tp == String4 && long then ParseStrPayload(body, 4)
            else Err(WrongType)
  {
    HeadRoundTrip(tag, tp, body);
  }

  /** A length prefix that denotes |v|, then v: the payload reads as v. */
  lemma StrPayload(len: seq<Byte>, v: seq<Byte>, rest: seq<Byte>)
    requires FromBE(len) == |v| && ValidUtf8(v)
    ensures ParseStrPayload(len + v + rest, |len|) == Ok(Parsed(v, rest))
  {
    Regroup(len, v, rest);
    TakeAppend(len, v + rest);
    TakeAppend(v, rest);
  }

  /** A string written by `str` is read back by `str`, by `str_small` only
      when it took the 1-byte length form, and by `str_big` only when it
      took the 4-byte form. */
  lemma StrRoundTrip(tag: Byte, v: seq<Byte>, rest: seq<Byte>)
    requires ValidUtf8(v) && |v| <= STRING_MAX_LENGTH
    ensures ParseStr(EncStr(tag, v) + rest, true, true) == Ok(Parsed(v, rest))
    ensures ParseStr(EncStr(tag, v) + rest, true, false)
         == if |v| <= 255 then Ok(Parsed(v, rest)) else Err(WrongType)
    ensures ParseStr(EncStr(tag, v) + rest, false, true)
         == if |v| <= 255 then Err(WrongType) else Ok(Parsed(v, rest))
  {
    var tp, len := StrForm(tag, v);
    var body := len + v + rest;
    Regroup(EncHead(tag, tp), len, v);
    Regroup(EncHead(tag, tp), len + v, rest);
    assert EncStr(tag, v) + rest == EncHead(tag, tp) + body;
    StrPayload(len, v, rest);
    StrHeader(tag, tp, body, true, true);
    StrHeader(tag, tp, body, true, false);
    StrHeader(tag, tp, body, false, true);
  }

  /** The header and length prefix `str` writes before the bytes. */
  lemma StrForm(tag: Byte, v: seq<Byte>) returns (tp: JceType, len: seq<Byte>)
    requires |v| <= STRING_MAX_LENGTH
    ensures tp == (if |v| <= 255 then String1 else String4)
    ensures |len| == (if |v| <= 255 then 1 else 4) && FromBE(len) == |v|
    ensures EncStr(tag, v) == EncHead(tag, tp) + len + v
  {
    if |v| <= 255 {
      tp, len := String1, [|v|];
      assert FromBE(len) == |v| by {
        assert len[..0] == [];
      }
    } else {
      tp, len := String4, ToBE(|v|, 4);
      assert v[..|v|] == v;
      Pow256Values();
      FromToBE(|v|, 4);
    }
  }

  /** Reading a count whose marker header is known. */
  lemma CountHeader(tag: Byte, tp: JceType, marker: JceType, body: seq<Byte>)
    requires marker == Map || marker == List
    ensures ParseCount(EncHead(tag, tp) + body, marker)
         == if tp == Zero then Ok(Parsed(0, body))
            else if tp == marker then
              match ParseInt(body, 4)
              case Err(e) => Err(e)
              case Ok(n) => if n.value < 0 then Err(WrongLength) else Ok(Parsed(n.value as nat, n.rest))
            else Err(WrongType)
  {
    HeadRoundTrip(tag, tp, body);
  }

  /** `map_begin` / `list_begin` are read back by `map` / `list`, which
      reject the negative counts the writer accepts. */
  lemma CountRoundTrip(tag: Byte, len: Int32, rest: seq<Byte>)
    ensures ParseCount(EncMapBegin(tag, len) + rest, Map)
         == if len < 0 then Err(WrongLength) else Ok(Parsed(len as nat, rest))
    ensures ParseCount(EncListBegin(tag, len) + rest, List)
         == if len < 0 then Err(WrongLength) else Ok(Parsed(len as nat, rest))
  {
    var c := EncI32(0, len);
    NarrowestWidth(0, len);
    IntRoundTrip(0, len, 4, rest);
    Pow256Values();
    assert ParseInt(c + rest, 4) == Ok(Parsed(len as int, rest));
    CountHeader(tag, Map, Map, c + rest);
    CountHeader(tag, List, List, c + rest);
    Regroup(EncHead(tag, Map), c, rest);
    Regroup(EncHead(tag, List), c, rest);
  }

  /** The three marker writers are read back by the reader of the same
      marker and rejected by the others. */
  lemma MarkerRoundTrip(tag: Byte, tp: JceType, marker: JceType, rest: seq<Byte>)
    ensures ParseMarker(EncHead(tag, tp) + rest, marker)
         == if tp == marker then Ok(Parsed((), rest)) else Err(WrongType)
  {
    HeadRoundTrip(tag, tp, rest);
  }

  /** Reading a byte string from its length field on. */
  lemma BytesBody(v: seq<Byte>, rest: seq<Byte>)
    requires |v| <= I32_MAX
    ensures ParseInt(EncI32(0, |v|) + v + rest, 4) == Ok(Parsed(|v|, v + rest))
  {
    Pow256Values();
    NarrowestWidth(0, |v|);
    Regroup(EncI32(0, |v|), v, rest);
    IntRoundTrip(0, |v|, 4, v + rest);
  }

  /** A byte string written by `bytes` is read back by `bytes`. */
  lemma BytesRoundTrip(tag: Byte, v: seq<Byte>, rest: seq<Byte>)
    requires |v| <= BYTES_MAX_LENGTH
    ensures ParseBytes(EncBytes(tag, v) + rest) == Ok(Parsed(v, rest))
  {
    assert v[..|v|] == v;
    var c := EncI32(0, |v|);
    var inner := EncHead(0, I8);
    assert EncBytes(tag, v) == EncHead(tag, Bytes) + inner + c + v;
    var h := EncHead(tag, Bytes);
    Regroup(h + inner, c, v);
    Regroup(h + inner, c + v, rest);
    Regroup(h, inner, c + v + rest);
    HeadRoundTrip(tag, Bytes, inner + (c + v + rest));
    HeadRoundTrip(0, I8, c + v + rest);
    BytesBody(v, rest);
    TakeAppend(v, rest);
  }

  // ------------------------------------------------------------- skipping

  /** `ignore` on what one scalar writer produced consumes exactly that. */
  lemma SkipInt(tag: Byte, v: Int64, rest: seq<Byte>)
    ensures SkipValue(EncI64(tag, v) + rest) == Ok(Parsed((), rest))
  {
    NarrowestWidth(tag, v);
    var w := MinWidth(v);
    if w == 0 {
      HeadRoundTrip(tag, Zero, rest);
      MarkerRoundTrip(tag, Zero, Zero, rest);
    } else {
      var p := TwosBE(v, w);
      Regroup(EncHead(tag, IntType(w)), p, rest);
      HeadRoundTrip(tag, IntType(w), p + rest);
      IntRoundTrip(tag, v, w, rest);
      assert IntWidth(IntType(w)) == w;
    }
  }

  lemma SkipFloat(tag: Byte, b32: Uint32, b64: Uint64, rest: seq<Byte>)
    ensures SkipValue(EncF32(tag, b32) + rest) == Ok(Parsed((), rest))
    ensures SkipValue(EncF64(tag, b64) + rest) == Ok(Parsed((), rest))
  {
    FloatRoundTrip(tag, b32, b64, rest);
    Regroup(EncHead(tag, F32), ToBE(b32, 4), rest);
    Regroup(EncHead(tag, F64), ToBE(b64, 8), rest);
    HeadRoundTrip(tag, F32, ToBE(b32, 4) + rest);
    HeadRoundTrip(tag, F64, ToBE(b64, 8) + rest);
  }

  lemma SkipStr(tag: Byte, v: seq<Byte>, rest: seq<Byte>)
    requires ValidUtf8(v) && |v| <= STRING_MAX_LENGTH
    ensures SkipValue(EncStr(tag, v) + rest) == Ok(Parsed((), rest))
  {
    StrRoundTrip(tag, v, rest);
    var tp := if |v| <= 255 then String1 else String4;
    var len: seq<Byte> := if |v| <= 255 then [|v|] else ToBE(|v|, 4);
    assert v[..|v|] == v;
    assert EncStr(tag, v) == EncHead(tag, tp) + len + v;
    Regroup(EncHead(tag, tp), len, v);
    Regroup(EncHead(tag, tp), len + v, rest);
    HeadRoundTrip(tag, tp, len + v + rest);
  }

  lemma SkipBytes(tag: Byte, v: seq<Byte>, rest: seq<Byte>)
    requires |v| <= BYTES_MAX_LENGTH
    ensures SkipValue(EncBytes(tag, v) + rest) == Ok(Parsed((), rest))
  {
    BytesRoundTrip(tag, v, rest);
    assert v[..|v|] == v;
    var inner, c := EncHead(0, I8), EncI32(0, |v|);
    assert EncBytes(tag, v) == EncHead(tag, Bytes) + inner + c + v;
    var h := EncHead(tag, Bytes);
    Regroup(h + inner, c, v);
    Regroup(h + inner, c + v, rest);
    Regroup(h, inner, c + v + rest);
    HeadRoundTrip(tag, Bytes, inner + (c + v + rest));
  }

  lemma SkipMarker(tag: Byte, tp: JceType, rest: seq<Byte>)
    requires tp == Zero || tp == StructEnd
    ensures SkipValue(EncHead(tag, tp) + rest) == Ok(Parsed((), rest))
  {
    HeadRoundTrip(tag, tp, rest);
    MarkerRoundTrip(tag, tp, tp, rest);
  }
}
