/** The cursor over an immutable byte slice (src/de/parser.rs).

    Each consuming reader is given twice: as a function from the remaining
    bytes to a `Parsed` result (value and remaining bytes), and as a method of
    the `JceParser` class that reassigns its `bytes` field step by step, proved
    to agree with the function. After an error the class says nothing about
    `bytes`: the source documents its readers as non-atomic. */
module Parser {
  import opened Errors
  import opened BigEndian
  import opened Types
  import opened Utf8

  /** A decoded header: the field tag and the wire type. */
  datatype Header = Header(tag: Byte, tp: JceType)

  /** A successful read: what it returns and what remains after it. */
  datatype Parsed<+T> = Parsed(value: T, rest: seq<Byte>)

  /** `f64()` widens a stored F32 by value. Float semantics are not modelled,
      so the widened value is kept as the f32 bit pattern it came from. */
  datatype Double = Bits64(bits: Uint64) | WidenedF32(bits32: Uint32)

  /** A successful read consumed at least one byte. */
  ghost predicate Consumed<T>(s: seq<Byte>, r: Result<Parsed<T>>)
  {
    r.Ok? ==> |r.value.rest| < |s|
  }

  /** The method result `r` with `after` left in the cursor is what the
      specification function computed (nothing is said about the cursor on
      an error). */
  ghost predicate Agrees<T>(r: Result<T>, after: seq<Byte>, spec: Result<Parsed<T>>)
  {
    match spec
    case Ok(p) => r == Ok(p.value) && after == p.rest
    case Err(e) => r == Err(e)
  }

  // ---------------------------------------------------------------- peeking

  /** `pick_type`: the type nibble of the first byte. */
  function PickType(s: seq<Byte>): (r: Result<JceType>)
    ensures r.Ok? ==> s != [] && Code(r.value) == s[0] % 16
  {
    if s == [] then Err(NotEnoughtBytes) else TryFrom(s[0] % 16)
  }

  /** `pick_head`: the tag comes from the high nibble, or from the second
      byte when the high nibble is 15. The type nibble is checked before the
      second byte is looked for. */
  function PickHead(s: seq<Byte>): (r: Result<Header>)
    ensures r.Ok? ==> PickType(s) == Ok(r.value.tp)
    ensures r.Ok? && r.value.tag >= 15 ==> |s| >= 2 && s[0] / 16 == 15
  {
    if s == [] then Err(NotEnoughtBytes)
    else
      var tp :- TryFrom(s[0] % 16);
      if s[0] / 16 != 15 then Ok(Header(s[0] / 16, tp))
      else if |s| >= 2 then Ok(Header(s[1], tp))
      else Err(NotEnoughtBytes)
  }

  /** `pick_tag`. */
  function PickTag(s: seq<Byte>): Result<Byte>
  {
    var h :- PickHead(s);
    Ok(h.tag)
  }

  // ------------------------------------------------------------- consuming

  /** `get_head`: consumes one byte when the decoded tag is below 15 and two
      otherwise, whatever form the header was written in. */
  function ParseHead(s: seq<Byte>): (r: Result<Parsed<Header>>)
    ensures Consumed(s, r)
    ensures r.Ok? ==> PickHead(s) == Ok(r.value.value)
    ensures r.Ok? ==> r.value.rest == s[|s| - |r.value.rest|..]
  {
    var h :- PickHead(s);
    Ok(Parsed(h, if h.tag < 15 then s[1..] else s[2..]))
  }

  /** `get_bytes` / `get_bytes_fixed`: split off the first n bytes. */
  function Take(s: seq<Byte>, n: nat): (r: Result<Parsed<seq<Byte>>>)
    ensures r.Ok? <==> n <= |s|
    ensures r.Ok? ==> |r.value.value| == n && r.value.value + r.value.rest == s
    ensures r.Err? ==> r.error == NotEnoughtBytes
  {
    if n <= |s| then Ok(Parsed(s[..n], s[n..])) else Err(NotEnoughtBytes)
  }

  /** The payload width in bytes of an integer type, 0 for the others. */
  function IntWidth(tp: JceType): nat
  {
    match tp
    case I8 => 1
    case I16 => 2
    case I32 => 4
    case I64 => 8
    case _ => 0
  }

  /** `i8` / `i16` / `i32` / `i64` (width 1, 2, 4, 8): Zero reads as 0, a
      stored integer no wider than the target is sign-extended, anything else
      is `WrongType`. */
  function ParseInt(s: seq<Byte>, width: nat): (r: Result<Parsed<int>>)
    requires width in {1, 2, 4, 8}
    ensures Consumed(s, r)
    ensures r.Ok? ==> -Half(width) <= r.value.value < Half(width)
  {
    var h :- ParseHead(s);
    var w := IntWidth(h.value.tp);
    if h.value.tp == Zero then Ok(Parsed(0, h.rest))
    else if 1 <= w <= width then
      var buf :- Take(h.rest, w);
      HalfMonotone(w, width);
      Ok(Parsed(SignedBE(buf.value), buf.rest))
    else Err(WrongType)
  }

  lemma HalfMonotone(w: nat, width: nat)
    requires w in {1, 2, 4, 8} && width in {1, 2, 4, 8} && w <= width
    ensures Half(w) <= Half(width)
  {
    Pow256Values();
  }

  /** `f32`: Zero reads as the bits of 0.0, F32 as its four payload bytes. */
  function ParseF32(s: seq<Byte>): (r: Result<Parsed<Uint32>>)
    ensures Consumed(s, r)
  {
    var h :- ParseHead(s);
    match h.value.tp
    case Zero => Ok(Parsed(0, h.rest))
    case F32 =>
      var buf :- Take(h.rest, 4);
      Bits(buf.value);
      Ok(Parsed(FromBE(buf.value), buf.rest))
    case _ => Err(WrongType)
  }

  /** `f64`: Zero reads as 0.0, F32 is widened, F64 is read as it is. */
  function ParseF64(s: seq<Byte>): (r: Result<Parsed<Double>>)
    ensures Consumed(s, r)
  {
    var h :- ParseHead(s);
    match h.value.tp
    case Zero => Ok(Parsed(Bits64(0), h.rest))
    case F32 =>
      var buf :- Take(h.rest, 4);
      Bits(buf.value);
      Ok(Parsed(WidenedF32(FromBE(buf.value)), buf.rest))
    case F64 =>
      var buf :- Take(h.rest, 8);
      Bits(buf.value);
      Ok(Parsed(Bits64(FromBE(buf.value)), buf.rest))
    case _ => Err(WrongType)
  }

  lemma Bits(b: seq<Byte>)
    ensures |b| == 4 ==> FromBE(b) < 0x1_0000_0000
    ensures |b| == 8 ==> FromBE(b) < 0x1_0000_0000_0000_0000
  {
    FromBEBound(b);
    Pow256Values();
  }

  /** A string payload after its header: a big-endian unsigned length of
      `lenWidth` bytes, that many bytes, and the UTF-8 check. */
  function ParseStrPayload(s: seq<Byte>, lenWidth: nat): (r: Result<Parsed<seq<Byte>>>)
    ensures r.Ok? ==> |r.value.rest| <= |s|
    ensures r.Ok? ==> ValidUtf8(r.value.value)
  {
    var len :- Take(s, lenWidth);
    var buf :- Take(len.rest, FromBE(len.value));
    if ValidUtf8(buf.value) then Ok(buf) else Err(StringIsNotUtf8)
  }

  /** `str_small` (short only), `str_big` (long only) and `str` (both):
      Zero reads as the empty string, String1 has a 1-byte length, String4 a
      4-byte length; the other width is `WrongType`. */
  function ParseStr(s: seq<Byte>, short: bool, long: bool): (r: Result<Parsed<seq<Byte>>>)
    ensures Consumed(s, r)
    ensures r.Ok? ==> ValidUtf8(r.value.value)
  {
    var h :- ParseHead(s);
    match h.value.tp
    case Zero => Ok(Parsed([], h.rest))
    case String1 => if short then ParseStrPayload(h.rest, 1) else Err(WrongType)
    case String4 => if long then ParseStrPayload(h.rest, 4) else Err(WrongType)
    case _ => Err(WrongType)
  }

  /** `map` (marker Map) and `list` (marker List): Zero reads as 0, the
      marker is followed by an `i32` count, and a negative count is
      `WrongLength`. */
  function ParseCount(s: seq<Byte>, marker: JceType): (r: Result<Parsed<nat>>)
    requires marker == Map || marker == List
    ensures Consumed(s, r)
    ensures r.Ok? ==> r.value.value <= I32_MAX
  {
    var h :- ParseHead(s);
    if h.value.tp == Zero then Ok(Parsed(0, h.rest))
    else if h.value.tp == marker then
      var n :- ParseInt(h.rest, 4);
      Pow256Values();
      if n.value < 0 then Err(WrongLength) else Ok(Parsed(n.value, n.rest))
    else Err(WrongType)
  }

  /** `struct_begin`, `struct_end` and `zero`: consume a header of exactly
      that type and nothing else. */
  function ParseMarker(s: seq<Byte>, marker: JceType): (r: Result<Parsed<()>>)
    ensures Consumed(s, r)
    ensures r.Ok? ==> PickType(s) == Ok(marker)
  {
    var h :- ParseHead(s);
    if h.value.tp == marker then Ok(Parsed((), h.rest)) else Err(WrongType)
  }

  /** `bytes`: Zero reads as empty; otherwise a Bytes header, an inner
      header that must be typed I8, a non-negative `i32` length and that
      many raw bytes. */
  function ParseBytes(s: seq<Byte>): (r: Result<Parsed<seq<Byte>>>)
    ensures Consumed(s, r)
  {
    var h :- ParseHead(s);
    match h.value.tp
    case Zero => Ok(Parsed([], h.rest))
    case Bytes =>
      var inner :- ParseHead(h.rest);
      if inner.value.tp == I8 then
        var n :- ParseInt(inner.rest, 4);
        if n.value < 0 then Err(WrongLength) else Take(n.rest, n.value)
      else Err(WrongType)
    case _ => Err(WrongType)
  }

  // ------------------------------------------------------------- skipping

  /** `ignore`: consume one complete value of any type, recursing into the
      2 x n members of a map, the n elements of a list and the fields of a
      struct up to and including its StructEnd. */
  function SkipValue(s: seq<Byte>): (r: Result<Parsed<()>>)
    ensures Consumed(s, r)
    decreases |s|, 0
  {
    var tp :- PickType(s);
    match tp
    case I8 => NoValue(ParseInt(s, 1))
    case I16 => NoValue(ParseInt(s, 2))
    case I32 => NoValue(ParseInt(s, 4))
    case I64 => NoValue(ParseInt(s, 8))
    case F32 => NoValue(ParseF32(s))
    case F64 => NoValue(ParseF64(s))
    case String1 => NoValue(ParseStr(s, true, false))
    case String4 => NoValue(ParseStr(s, false, true))
    case Map =>
      var n :- ParseCount(s, Map);
      SkipMany(n.rest, 2 * n.value)
    case List =>
      var n :- ParseCount(s, List);
      SkipMany(n.rest, n.value)
    case StructBegin =>
      var b :- ParseMarker(s, StructBegin);
      SkipFields(b.rest)
    case StructEnd => ParseMarker(s, StructEnd)
    case Zero => ParseMarker(s, Zero)
    case Bytes => NoValue(ParseBytes(s))
  }

  /** `k` consecutive values skipped one after another. */
  function SkipMany(s: seq<Byte>, k: nat): (r: Result<Parsed<()>>)
    ensures r.Ok? ==> |r.value.rest| <= |s|
    ensures r.Ok? && k > 0 ==> |r.value.rest| < |s|
    decreases |s|, 1, k
  {
    if k == 0 then Ok(Parsed((), s))
    else
      var v :- SkipValue(s);
      SkipMany(v.rest, k - 1)
  }

  /** The fields of a struct, skipped until a StructEnd header, which is
      consumed too. */
  function SkipFields(s: seq<Byte>): (r: Result<Parsed<()>>)
    ensures Consumed(s, r)
    decreases |s|, 1
  {
    var tp :- PickType(s);
    if tp == StructEnd then ParseMarker(s, StructEnd)
    else
      var v :- SkipValue(s);
      SkipFields(v.rest)
  }

  /** Forget what a read returned, keep where it stopped. */
  function NoValue<T>(r: Result<Parsed<T>>): (u: Result<Parsed<()>>)
    ensures u.Ok? <==> r.Ok?
    ensures u.Ok? ==> u.value.rest == r.value.rest
    ensures u.Err? ==> u.error == r.error
  {
    match r
    case Ok(p) => Ok(Parsed((), p.rest))
    case Err(e) => Err(e)
  }

  /** One step of `SkipMany`. */
  lemma SkipManyStep(s: seq<Byte>, k: nat)
    requires k > 0
    ensures SkipValue(s).Err? ==> SkipMany(s, k) == Err(SkipValue(s).error)
    ensures SkipValue(s).Ok? ==>
      |SkipValue(s).value.rest| < |s| && SkipMany(s, k) == SkipMany(SkipValue(s).value.rest, k - 1)
  {
  }

  /** One step of `SkipMany`, seen from a cursor that has just skipped one
      value with outcome `v`. */
  lemma SkipManyAdvance(before: seq<Byte>, after: seq<Byte>, k: nat, v: Result<()>)
    requires k > 0
    requires Agrees(v, after, SkipValue(before))
    ensures v.Err? ==> SkipMany(before, k) == Err(v.error)
    ensures v.Ok? ==> |after| < |before| && SkipMany(before, k) == SkipMany(after, k - 1)
  {
    SkipManyStep(before, k);
  }

  /** Forget what a read returned. */
  function Skipped<T>(r: Result<T>): (u: Result<()>)
    ensures u.Ok? <==> r.Ok?
    ensures u.Err? ==> u.error == r.error
  {
    match r
    case Ok(_) => Ok(())
    case Err(e) => Err(e)
  }

  // ------------------------------------------------------------ the cursor

  class JceParser {
    var bytes: seq<Byte>

    constructor FromBytes(b: seq<Byte>)
      ensures bytes == b
    {
      bytes := b;
    }

    /** `done`: no bytes remain. */
    predicate Done()
      reads this
    {
      bytes == []
    }

    method GetHead() returns (r: Result<Header>)
      modifies this
      ensures Agrees(r, bytes, ParseHead(old(bytes)))
    {
      var h :- PickHead(bytes);
      if h.tag < 15 {
        bytes := bytes[1..];
      } else {
        bytes := bytes[2..];
      }
      return Ok(h);
    }

    /** `get_bytes` and `get_bytes_fixed`. */
    method GetBytes(n: nat) returns (r: Result<seq<Byte>>)
      modifies this
      ensures Agrees(r, bytes, Take(old(bytes), n))
    {
      if n <= |bytes| {
        var left := bytes[..n];
        bytes := bytes[n..];
        return Ok(left);
      }
      return Err(NotEnoughtBytes);
    }

    /** `i8`, `i16`, `i32`, `i64` for width 1, 2, 4, 8. */
    method Int(width: nat) returns (r: Result<int>)
      requires width in {1, 2, 4, 8}
      modifies this
      ensures Agrees(r, bytes, ParseInt(old(bytes), width))
    {
      var h :- GetHead();
      var w := IntWidth(h.tp);
      if h.tp == Zero {
        return Ok(0);
      } else if 1 <= w <= width {
        var buf :- GetBytes(w);
        return Ok(SignedBE(buf));
      }
      return Err(WrongType);
    }

    method Float32() returns (r: Result<Uint32>)
      modifies this
      ensures Agrees(r, bytes, ParseF32(old(bytes)))
    {
      var h :- GetHead();
      match h.tp
      case Zero =>
        return Ok(0);
      case F32 =>
        var buf :- GetBytes(4);
        Bits(buf);
        return Ok(FromBE(buf));
      case _ =>
        return Err(WrongType);
    }

    method Float64() returns (r: Result<Double>)
      modifies this
      ensures Agrees(r, bytes, ParseF64(old(bytes)))
    {
      var h :- GetHead();
      match h.tp
      case Zero =>
        return Ok(Bits64(0));
      case F32 =>
        var buf :- GetBytes(4);
        Bits(buf);
        return Ok(WidenedF32(FromBE(buf)));
      case F64 =>
        var buf :- GetBytes(8);
        Bits(buf);
        return Ok(Bits64(FromBE(buf)));
      case _ =>
        return Err(WrongType);
    }

    method StrPayload(lenWidth: nat) returns (r: Result<seq<Byte>>)
      modifies this
      ensures Agrees(r, bytes, ParseStrPayload(old(bytes), lenWidth))
    {
      var len :- GetBytes(lenWidth);
      var buf :- GetBytes(FromBE(len));
      if ValidUtf8(buf) {
        return Ok(buf);
      }
      return Err(StringIsNotUtf8);
    }

    /** `str_small` when only `short`, `str_big` when only `long`, `str`
        when both. */
    method Str(short: bool, long: bool) returns (r: Result<seq<Byte>>)
      modifies this
      ensures Agrees(r, bytes, ParseStr(old(bytes), short, long))
    {
      var h :- GetHead();
      match h.tp
      case Zero =>
        return Ok([]);
      case String1 =>
        if short {
          r := StrPayload(1);
          return;
        }
        return Err(WrongType);
      case String4 =>
        if long {
          r := StrPayload(4);
          return;
        }
        return Err(WrongType);
      case _ =>
        return Err(WrongType);
    }

    /** `map` (marker Map) and `list` (marker List). */
    method Count(marker: JceType) returns (r: Result<nat>)
      requires marker == Map || marker == List
      modifies this
      ensures Agrees(r, bytes, ParseCount(old(bytes), marker))
    {
      var h :- GetHead();
      if h.tp == Zero {
        return Ok(0);
      } else if h.tp == marker {
        var n :- Int(4);
        if n < 0 {
          return Err(WrongLength);
        }
        Pow256Values();
        return Ok(n);
      }
      return Err(WrongType);
    }

    /** `struct_begin`, `struct_end` and `zero`. */
    method Marker(marker: JceType) returns (r: Result<()>)
      modifies this
      ensures Agrees(r, bytes, ParseMarker(old(bytes), marker))
    {
      var h :- GetHead();
      if h.tp == marker {
        return Ok(());
      }
      return Err(WrongType);
    }

    /** `bytes`. */
    method ByteString() returns (r: Result<seq<Byte>>)
      modifies this
      ensures Agrees(r, bytes, ParseBytes(old(bytes)))
    {
      var h :- GetHead();
      match h.tp
      case Zero =>
        return Ok([]);
      case Bytes =>
        var inner :- GetHead();
        if inner.tp == I8 {
          var n :- Int(4);
          if n < 0 {
            return Err(WrongLength);
          }
          r := GetBytes(n);
          return;
        }
        return Err(WrongType);
      case _ =>
        return Err(WrongType);
    }

    /** `ignore`. */
    method Ignore() returns (r: Result<()>)
      modifies this
      ensures Agrees(r, bytes, SkipValue(old(bytes)))
      decreases |bytes|, 2
    {
      var tp :- PickType(bytes);
      match tp {
        case I8 =>
          var v := Int(1);
          r := Skipped(v);
        case I16 =>
          var v := Int(2);
          r := Skipped(v);
        case I32 =>
          var v := Int(4);
          r := Skipped(v);
        case I64 =>
          var v := Int(8);
          r := Skipped(v);
        case F32 =>
          var v := Float32();
          r := Skipped(v);
        case F64 =>
          var v := Float64();
          r := Skipped(v);
        case String1 =>
          var v := Str(true, false);
          r := Skipped(v);
        case String4 =>
          var v := Str(false, true);
          r := Skipped(v);
        case Map =>
          var len :- Count(Map);
          r := IgnoreMany(2 * len, |old(bytes)|);
        case List =>
          var len :- Count(List);
          r := IgnoreMany(len, |old(bytes)|);
        case StructBegin =>
          var b :- Marker(StructBegin);
          r := IgnoreFields(|old(bytes)|);
        case StructEnd =>
          r := Marker(StructEnd);
        case Zero =>
          r := Marker(Zero);
        case Bytes =>
          var v := ByteString();
          r := Skipped(v);
      }
    }

    /** The `for _ in 0..len` loops of `ignore` over map members and list
        elements, run once the count has been read. */
    method IgnoreMany(k: nat, ghost bound: nat) returns (r: Result<()>)
      requires |bytes| < bound
      modifies this
      ensures Agrees(r, bytes, SkipMany(old(bytes), k))
      decreases bound, 1
    {
      ghost var target := SkipMany(bytes, k);
      var left := k;
      while left > 0
        invariant |bytes| < bound
        invariant SkipMany(bytes, left) == target
      {
        var v := IgnoreNext(left, bound, target);
        if v.Err? {
          return Err(v.error);
        }
        left := left - 1;
      }
      assert SkipMany(bytes, 0) == Ok(Parsed((), bytes));
      return Ok(());
    }

    /** One iteration of the loop above: skip a value, so that k - 1 values
        are left to skip towards the same outcome. */
    method IgnoreNext(ghost k: nat, ghost bound: nat, ghost target: Result<Parsed<()>>) returns (r: Result<()>)
      requires k > 0 && |bytes| < bound && SkipMany(bytes, k) == target
      modifies this
      ensures r.Err? ==> target == Err(r.error)
      ensures r.Ok? ==> |bytes| < bound && SkipMany(bytes, k - 1) == target
      decreases bound, 0
    {
      ghost var before := bytes;
      r := Ignore();
      SkipManyAdvance(before, bytes, k, r);
    }

    /** The loop of `ignore` over the fields of a struct, which stops after
        consuming the StructEnd header. */
    method IgnoreFields(ghost bound: nat) returns (r: Result<()>)
      requires |bytes| < bound
      modifies this
      ensures Agrees(r, bytes, SkipFields(old(bytes)))
      decreases bound, 0
    {
      while true
        invariant |bytes| <= |old(bytes)|
        invariant SkipFields(bytes) == SkipFields(old(bytes))
        decreases |bytes|
      {
        var t :- PickType(bytes);
        if t == StructEnd {
          r := Marker(StructEnd);
          return;
        }
        ghost var before := bytes;
        var v := Ignore();
        if v.Err? {
          return Err(v.error);
        }
        assert SkipFields(before) == SkipFields(bytes);
      }
    }
  }
}
