/** The serde front end over the parser (src/de/deserializer.rs).

    What a target type asks for is a `Hint` (one per `deserialize_*` entry
    point; entry points that only forward to another are folded into it) and
    what is handed to its visitor is a `Visit`. `Read` says, as a function of
    the remaining bytes, what each entry point returns and where it leaves
    the cursor; the `Deserializer` class does it step by step on a
    `JceParser`. Map and struct bodies are walked by the `Sequence` and
    `TagsAccess` classes, one key or value at a time, as serde drives them. */
module Deserialization {
  import opened Errors
  import opened BigEndian
  import Types
  import opened Utf8
  import opened Parser
  import opened Decimal

  /** The `deserialize_*` entry points. `string` is `Str`, `byte_buf` is
      `Bytes`, `unit_struct` is `Unit`, `tuple` and `tuple_struct` are `Seq`;
      `newtype_struct`, `enum`, `identifier` and `ignored_any` are `Any`. */
  datatype Hint =
    | Any | Bool | I8 | I16 | I32 | I64 | I128 | U8 | U16 | U32 | U64 | U128
    | F32 | F64 | Char | Str | Bytes | OptionOf | Unit | Seq | Map
    | Struct(fields: seq<string>)

  /** What the visitor is given. `SeqOf` / `MapOf` carry the announced
      element count of a `Sequence` access, `Fields` the expected tags of a
      `TagsAccess` (None when any tag is accepted). `Something` means the
      visitor is handed the deserializer itself, nothing consumed. */
  datatype Visit =
    | Boolean(b: bool)
    | Integer(i: int)
    | Float32(f: Uint32)
    | Float64(d: Double)
    | Character(c: seq<Byte>)
    | Text(text: seq<Byte>)
    | Blob(blob: seq<Byte>)
    | Nothing
    | Something
    | UnitValue
    | SeqOf(len: nat)
    | MapOf(len: nat)
    | Fields(expected: Option<set<Byte>>)

  // ------------------------------------------------------- the entry points

  function ReadInt(s: seq<Byte>, width: nat): (r: Result<Parsed<Visit>>)
    requires width in {1, 2, 4, 8}
    ensures Consumed(s, r)
  {
    var n :- ParseInt(s, width);
    Ok(Parsed(Integer(n.value), n.rest))
  }

  function ReadF32(s: seq<Byte>): (r: Result<Parsed<Visit>>)
    ensures Consumed(s, r)
  {
    var f :- ParseF32(s);
    Ok(Parsed(Float32(f.value), f.rest))
  }

  function ReadF64(s: seq<Byte>): (r: Result<Parsed<Visit>>)
    ensures Consumed(s, r)
  {
    var d :- ParseF64(s);
    Ok(Parsed(Float64(d.value), d.rest))
  }

  function ReadText(s: seq<Byte>, short: bool, long: bool): (r: Result<Parsed<Visit>>)
    ensures Consumed(s, r)
  {
    var t :- ParseStr(s, short, long);
    Ok(Parsed(Text(t.value), t.rest))
  }

  function ReadBlob(s: seq<Byte>): (r: Result<Parsed<Visit>>)
    ensures Consumed(s, r)
  {
    var b :- ParseBytes(s);
    Ok(Parsed(Blob(b.value), b.rest))
  }

  function ReadSeqOf(s: seq<Byte>): (r: Result<Parsed<Visit>>)
    ensures Consumed(s, r)
  {
    var n :- ParseCount(s, Types.List);
    Ok(Parsed(SeqOf(n.value), n.rest))
  }

  function ReadMapOf(s: seq<Byte>): (r: Result<Parsed<Visit>>)
    ensures Consumed(s, r)
  {
    var n :- ParseCount(s, Types.Map);
    Ok(Parsed(MapOf(n.value), n.rest))
  }

  function ReadNothing(s: seq<Byte>, v: Visit): (r: Result<Parsed<Visit>>)
    ensures Consumed(s, r)
  {
    var z :- ParseMarker(s, Types.Zero);
    Ok(Parsed(v, z.rest))
  }

  /** `deserialize_any`: dispatch on the type of the next header. String1
      and String4 are read with `str_small` / `str_big`, a StructBegin opens
      a struct that accepts any tag, Zero is the none value, and a bare
      StructEnd aborts. */
  function ReadAny(s: seq<Byte>): (r: Result<Parsed<Visit>>)
    ensures Consumed(s, r)
    ensures PickHead(s).Ok? && PickHead(s).value.tp == Types.StructEnd ==> r == Err(Panicked)
    ensures PickHead(s).Err? ==> r == Err(PickHead(s).error)
    ensures r.Ok? && r.value.value.Fields? ==> r.value.value.expected == None
  {
    var h :- PickHead(s);
    match h.tp
    case I8 => ReadInt(s, 1)
    case I16 => ReadInt(s, 2)
    case I32 => ReadInt(s, 4)
    case I64 => ReadInt(s, 8)
    case F32 => ReadF32(s)
    case F64 => ReadF64(s)
    case String1 => ReadText(s, true, false)
    case String4 => ReadText(s, false, true)
    case Map => ReadMapOf(s)
    case List => ReadSeqOf(s)
    case StructBegin =>
      var b := ParseMarker(s, Types.StructBegin);
      Ok(Parsed(Fields(None), b.value.rest))
    case StructEnd => Err(Panicked)
    case Zero => ReadNothing(s, Nothing)
    case Bytes => ReadBlob(s)
  }

  /** What every entry point returns. The unsigned types are read with the
      next wider signed reader (u8 as i16, u16 as i32, the rest as i64) and
      128-bit integers as i64. */
  function Read(s: seq<Byte>, hint: Hint): (r: Result<Parsed<Visit>>)
    ensures hint != OptionOf ==> Consumed(s, r)
    ensures hint == OptionOf && r.Ok? ==>
      (r.value.value == Nothing && |r.value.rest| < |s|) ||
      (r.value.value == Something && r.value.rest == s && PickType(s).Ok? && PickType(s) != Ok(Types.Zero))
  {
    match hint
    case Any => ReadAny(s)
    case Bool =>
      var n :- ParseInt(s, 1);
      Ok(Parsed(Boolean(n.value != 0), n.rest))
    case I8 => ReadInt(s, 1)
    case I16 => ReadInt(s, 2)
    case I32 => ReadInt(s, 4)
    case I64 => ReadInt(s, 8)
    case I128 => ReadInt(s, 8)
    case U8 => ReadInt(s, 2)
    case U16 => ReadInt(s, 4)
    case U32 => ReadInt(s, 8)
    case U64 => ReadInt(s, 8)
    case U128 => ReadInt(s, 8)
    case F32 => ReadF32(s)
    case F64 => ReadF64(s)
    case Char =>
      var t :- ParseStr(s, true, true);
      Ok(Parsed(Character(FirstChar(t.value)), t.rest))
    case Str => ReadText(s, true, true)
    case Bytes => ReadBlob(s)
    case OptionOf =>
      var h :- PickHead(s);
      if h.tp == Types.Zero then ReadNothing(s, Nothing) else Ok(Parsed(Something, s))
    case Unit => ReadNothing(s, UnitValue)
    case Seq => ReadSeqOf(s)
    case Map => ReadMapOf(s)
    case Struct(names) =>
      var b :- ParseMarker(s, Types.StructBegin);
      var tags :- FieldTags(names);
      Ok(Parsed(Fields(Some(tags)), b.rest))
  }

  /** `chars().nth(0)`, or the NUL character for the empty string: the
      bytes of the first character of a well-formed UTF-8 string. */
  function FirstChar(t: seq<Byte>): (c: seq<Byte>)
    requires ValidUtf8(t)
    ensures 1 <= |c| <= 4 && ValidUtf8(c)
    ensures t != [] ==> |c| == CharLen(t) <= |t| && c == t[..|c|]
    ensures t == [] ==> c == [0]
  {
    if t == [] then [0]
    else
      var n := CharLen(t);
      assert t[..n][n..] == [];
      assert CharLen(t[..n]) == n;
      t[..n]
  }

  // --------------------------------------------------------- field names

  /** `new_with_fields`: each name is parsed as a u8 tag in order; a name
      that is not one is `ErrorFieldTag`, a tag seen before is
      `DuplicateFieldTagName`. `acc` holds the tags of the earlier names. */
  function FieldTagsFrom(names: seq<string>, acc: set<Byte>): (r: Result<set<Byte>>)
    ensures r.Ok? ==> acc <= r.value
    ensures r.Err? ==> r.error == ErrorFieldTag || r.error == DuplicateFieldTagName
    decreases |names|
  {
    if names == [] then Ok(acc)
    else
      match ParseU8(names[0])
      case None => Err(ErrorFieldTag)
      case Some(t) =>
        if t in acc then Err(DuplicateFieldTagName) else FieldTagsFrom(names[1..], acc + {t})
  }

  function FieldTags(names: seq<string>): Result<set<Byte>>
  {
    FieldTagsFrom(names, {})
  }

  lemma {:induction false} FieldTagsFromSpec(names: seq<string>, acc: set<Byte>)
    ensures FieldTagsFrom(names, acc).Ok? <==>
      DistinctTagNames(names) && forall i :: 0 <= i < |names| ==> ParseU8(names[i]).value !in acc
    ensures FieldTagsFrom(names, acc).Ok? ==>
      DistinctTagNames(names) && FieldTagsFrom(names, acc).value == acc + TagsOf(names)
    decreases |names|
  {
    if names != [] {
      match ParseU8(names[0])
      case None =>
      case Some(t) =>
        FieldTagsFromSpec(names[1..], acc + {t});
        TagNamesCons(names, t, acc);
        if DistinctTagNames(names) {
          TagsOfCons(names);
        }
    }
  }

  /** The names are distinct tags not in `acc` exactly when the first is a
      tag `t` not in `acc` and the others are distinct tags not in
      `acc + {t}`. */
  lemma TagNamesCons(names: seq<string>, t: Byte, acc: set<Byte>)
    requires names != [] && ParseU8(names[0]) == Some(t)
    ensures (DistinctTagNames(names) && forall i :: 0 <= i < |names| ==> ParseU8(names[i]).value !in acc) <==>
      (t !in acc && DistinctTagNames(names[1..]) &&
       forall i :: 0 <= i < |names[1..]| ==> ParseU8(names[1..][i]).value !in acc + {t})
  {
    var tail := names[1..];
    assert forall i :: 0 <= i < |tail| ==> tail[i] == names[i + 1];
    if DistinctTagNames(names) && forall i :: 0 <= i < |names| ==> ParseU8(names[i]).value !in acc {
      assert ParseU8(names[0]).value !in acc;
      assert DistinctTagNames(tail) by {
        forall i, j | 0 <= i < j < |tail| ensures ParseU8(tail[i]) != ParseU8(tail[j]) {
          assert ParseU8(names[i + 1]) != ParseU8(names[j + 1]);
        }
      }
      forall i | 0 <= i < |tail| ensures ParseU8(tail[i]).value !in acc + {t} {
        assert ParseU8(names[0]) != ParseU8(names[i + 1]);
      }
    }
    if t !in acc && DistinctTagNames(tail) && forall i :: 0 <= i < |tail| ==> ParseU8(tail[i]).value !in acc + {t} {
      assert forall i :: 0 <= i < |names| ==> ParseU8(names[i]).Some? by {
        forall i | 0 <= i < |names| ensures ParseU8(names[i]).Some? {
          if i > 0 { assert ParseU8(tail[i - 1]).Some?; }
        }
      }
      assert DistinctTagNames(names) by {
        forall i, j | 0 <= i < j < |names| ensures ParseU8(names[i]) != ParseU8(names[j]) {
          if i > 0 {
            assert ParseU8(tail[i - 1]) != ParseU8(tail[j - 1]);
          } else {
            assert ParseU8(tail[j - 1]).value !in acc + {t};
          }
        }
      }
      forall i | 0 <= i < |names| ensures ParseU8(names[i]).value !in acc {
        if i > 0 { assert ParseU8(tail[i - 1]).value !in acc + {t}; }
      }
    }
  }

  /** The tags of the names are the first one's and those of the others. */
  lemma TagsOfCons(names: seq<string>)
    requires names != [] && forall i :: 0 <= i < |names| ==> ParseU8(names[i]).Some?
    ensures TagsOf(names) == {ParseU8(names[0]).value} + TagsOf(names[1..])
  {
    var tail := names[1..];
    forall x | x in TagsOf(names) ensures x in {ParseU8(names[0]).value} + TagsOf(tail) {
      var i :| 0 <= i < |names| && ParseU8(names[i]).value == x;
      if i > 0 { assert ParseU8(tail[i - 1]).value == x; }
    }
    forall x | x in TagsOf(tail) ensures x in TagsOf(names) {
      var i :| 0 <= i < |tail| && ParseU8(tail[i]).value == x;
      assert ParseU8(names[i + 1]).value == x;
    }
  }

  /** The struct's field names are accepted exactly when each is a tag and
      no tag repeats, and the expected tags are then the tags they name. */
  lemma FieldTagsSpec(names: seq<string>)
    ensures FieldTags(names).Ok? <==> DistinctTagNames(names)
    ensures FieldTags(names).Ok? ==> FieldTags(names).value == TagsOf(names)
  {
    FieldTagsFromSpec(names, {});
  }

  /** The `for` loop of `new_with_fields`. */
  method CollectFieldTags(names: seq<string>) returns (r: Result<set<Byte>>)
    ensures r == FieldTags(names)
  {
    var tags: set<Byte> := {};
    for i := 0 to |names|
      invariant FieldTagsFrom(names[i..], tags) == FieldTags(names)
    {
      assert names[i..][1..] == names[i + 1..];
      match ParseU8(names[i]) {
        case None =>
          return Err(ErrorFieldTag);
        case Some(t) =>
          if t in tags {
            return Err(DuplicateFieldTagName);
          }
          tags := tags + {t};
      }
    }
    assert names[|names|..] == [];
    return Ok(tags);
  }

  // ----------------------------------------------------------- struct keys

  /** The outcome of reading one key of a struct body: the tag (None at the
      StructEnd), the bytes left and the tags seen so far. */
  datatype KeyStep = KeyStep(key: Option<Byte>, rest: seq<Byte>, seen: set<Byte>)

  /** `get_tag`: at a StructEnd header, consume it and report the end;
      otherwise peek the tag, which must not have been seen before, and
      leave the header in place for the value. */
  function TagStep(s: seq<Byte>, seen: set<Byte>): (r: Result<KeyStep>)
    ensures r.Ok? && r.value.key.None? ==>
      PickType(s) == Ok(Types.StructEnd) && |r.value.rest| < |s| && r.value.seen == seen
    ensures r.Ok? && r.value.key.Some? ==>
      PickTag(s) == Ok(r.value.key.value) && PickType(s) != Ok(Types.StructEnd) &&
      r.value.key.value !in seen && r.value.rest == s && r.value.seen == seen + {r.value.key.value}
    ensures PickHead(s).Ok? && PickHead(s).value.tp != Types.StructEnd && PickHead(s).value.tag in seen ==>
      r == Err(DuplicateFieldTag)
  {
    var h :- PickHead(s);
    if h.tp == Types.StructEnd then
      var e := ParseMarker(s, Types.StructEnd);
      Ok(KeyStep(None, e.value.rest, seen))
    else if h.tag in seen then Err(DuplicateFieldTag)
    else Ok(KeyStep(Some(h.tag), s, seen + {h.tag}))
  }

  /** `next_key_seed` of a struct body: with expected tags, fields with any
      other tag are skipped whole (their tags still count as seen). */
  function NextKeySpec(s: seq<Byte>, seen: set<Byte>, fields: Option<set<Byte>>): (r: Result<KeyStep>)
    ensures r.Ok? ==> seen <= r.value.seen && |r.value.rest| <= |s|
    ensures r.Ok? && r.value.key.Some? ==>
      r.value.key.value !in seen && PickTag(r.value.rest) == Ok(r.value.key.value)
    ensures r.Ok? && r.value.key.Some? && fields.Some? ==> r.value.key.value in fields.value
    ensures fields.None? ==> r == TagStep(s, seen)
    decreases |s|
  {
    var st :- TagStep(s, seen);
    match st.key
    case None => Ok(st)
    case Some(t) =>
      if fields.None? || t in fields.value then Ok(st)
      else
        var sk :- SkipValue(st.rest);
        NextKeySpec(sk.rest, st.seen, fields)
  }

  /** A struct key as the visitor sees it: the bare tag when any tag is
      accepted, and its decimal name, to be matched against the field names,
      when the fields are given. */
  datatype Key = Tag(tag: Byte) | Name(name: string)

  function KeyOf(t: Byte, fields: Option<set<Byte>>): Key
  {
    if fields.Some? then Name(DecimalName(t)) else Tag(t)
  }

  /** A method's key and cursor are what the step `spec` computed. */
  ghost predicate KeyAgrees<K>(r: Result<Option<K>>, key: Byte -> K, after: seq<Byte>,
                                seenAfter: set<Byte>, spec: Result<KeyStep>)
  {
    match spec
    case Ok(st) =>
      r == Ok(if st.key.None? then None else Some(key(st.key.value))) &&
      after == st.rest && seenAfter == st.seen
    case Err(e) => r == Err(e)
  }

  /** A method's optional result and cursor are `Some` of what `spec`
      computed. */
  ghost predicate SomeAgrees<T>(r: Result<Option<T>>, after: seq<Byte>, spec: Result<Parsed<T>>)
  {
    match spec
    case Ok(p) => r == Ok(Some(p.value)) && after == p.rest
    case Err(e) => r == Err(e)
  }

  // ------------------------------------------------------- the deserializer

  class Deserializer {
    const parser: JceParser

    constructor FromBytes(bytes: seq<Byte>)
      ensures fresh(parser) && parser.bytes == bytes
    {
      parser := new JceParser.FromBytes(bytes);
    }

    predicate Done()
      reads this, parser
    {
      parser.Done()
    }

    /** `deserialize_i8` to `deserialize_u128`: the signed ones read their
        own width (`i128` reads as `i64`), the unsigned ones go to the
        signed entry point one size up (`u64` and `u128` to `i64`). */
    method DeserializeInteger(hint: Hint) returns (r: Result<Visit>)
      requires hint in {Hint.I8, Hint.I16, Hint.I32, Hint.I64, Hint.I128, Hint.U8, Hint.U16, Hint.U32, Hint.U64, Hint.U128}
      modifies parser
      ensures Agrees(r, parser.bytes, Read(old(parser.bytes), hint))
    {
      match hint {
        case I8 =>
          r := DeserializeInt(1);
        case I16 =>
          r := DeserializeInt(2);
        case I32 =>
          r := DeserializeInt(4);
        case I64 =>
          r := DeserializeInt(8);
        case I128 =>
          r := DeserializeInt(8);
        case U8 =>
          r := DeserializeInt(2);
        case U16 =>
          r := DeserializeInt(4);
        case U32 =>
          r := DeserializeInt(8);
        case U64 =>
          r := DeserializeInt(8);
        case U128 =>
          r := DeserializeInt(8);
      }
    }

    method Deserialize(hint: Hint) returns (r: Result<Visit>)
      modifies parser
      ensures Agrees(r, parser.bytes, Read(old(parser.bytes), hint))
    {
      match hint {
        case Any =>
          r := DeserializeAny();
        case Bool =>
          var n :- parser.Int(1);
          r := Ok(Boolean(n != 0));
        case I8 | I16 | I32 | I64 | I128 | U8 | U16 | U32 | U64 | U128 =>
          r := DeserializeInteger(hint);
        case F32 =>
          var f :- parser.Float32();
          r := Ok(Float32(f));
        case F64 =>
          var d :- parser.Float64();
          r := Ok(Float64(d));
        case Char =>
          var t :- parser.Str(true, true);
          r := Ok(Character(FirstChar(t)));
        case Str =>
          var t :- parser.Str(true, true);
          r := Ok(Text(t));
        case Bytes =>
          var b :- parser.ByteString();
          r := Ok(Blob(b));
        case OptionOf =>
          var h :- PickHead(parser.bytes);
          if h.tp == Types.Zero {
            var z := parser.Marker(Types.Zero);
            r := Ok(Nothing);
          } else {
            r := Ok(Something);
          }
        case Unit =>
          var z :- parser.Marker(Types.Zero);
          r := Ok(UnitValue);
        case Seq =>
          var n :- parser.Count(Types.List);
          r := Ok(SeqOf(n));
        case Map =>
          var n :- parser.Count(Types.Map);
          r := Ok(MapOf(n));
        case Struct(names) =>
          var b :- parser.Marker(Types.StructBegin);
          var tags :- CollectFieldTags(names);
          r := Ok(Fields(Some(tags)));
      }
    }

    method DeserializeInt(width: nat) returns (r: Result<Visit>)
      requires width in {1, 2, 4, 8}
      modifies parser
      ensures Agrees(r, parser.bytes, ReadInt(old(parser.bytes), width))
    {
      var n :- parser.Int(width);
      r := Ok(Integer(n));
    }

    method DeserializeAny() returns (r: Result<Visit>)
      modifies parser
      ensures Agrees(r, parser.bytes, ReadAny(old(parser.bytes)))
    {
      var h :- PickHead(parser.bytes);
      match h.tp {
        case I8 =>
          r := DeserializeInt(1);
        case I16 =>
          r := DeserializeInt(2);
        case I32 =>
          r := DeserializeInt(4);
        case I64 =>
          r := DeserializeInt(8);
        case F32 =>
          var f :- parser.Float32();
          r := Ok(Float32(f));
        case F64 =>
          var d :- parser.Float64();
          r := Ok(Float64(d));
        case String1 =>
          var t :- parser.Str(true, false);
          r := Ok(Text(t));
        case String4 =>
          var t :- parser.Str(false, true);
          r := Ok(Text(t));
        case Map =>
          var n :- parser.Count(Types.Map);
          r := Ok(MapOf(n));
        case List =>
          var n :- parser.Count(Types.List);
          r := Ok(SeqOf(n));
        case StructBegin =>
          var b := parser.Marker(Types.StructBegin);
          r := Ok(Fields(None));
        case StructEnd =>
          r := Err(Panicked);
        case Zero =>
          var z := parser.Marker(Types.Zero);
          r := Ok(Nothing);
        case Bytes =>
          var b :- parser.ByteString();
          r := Ok(Blob(b));
      }
    }
  }

  /** `from_bytes`: read one value and insist that nothing is left. */
  method FromBytes(bytes: seq<Byte>, hint: Hint) returns (r: Result<Visit>)
    ensures r.Ok? <==> Read(bytes, hint).Ok? && Read(bytes, hint).value.rest == []
    ensures r.Ok? ==> r.value == Read(bytes, hint).value.value
    ensures Read(bytes, hint).Err? ==> r == Err(Read(bytes, hint).error)
    ensures Read(bytes, hint).Ok? && Read(bytes, hint).value.rest != [] ==> r == Err(TrailingBytes)
  {
    var de := new Deserializer.FromBytes(bytes);
    var t :- de.Deserialize(hint);
    if de.Done() {
      return Ok(t);
    }
    return Err(TrailingBytes);
  }

  // ------------------------------------------- map and sequence bodies

  /** The access handed out for a Map or List: `cur` counts the elements,
      or the values of a map, read so far out of the announced `size`. */
  class Sequence {
    const de: Deserializer
    var cur: nat
    const size: nat

    /** No more than the announced number of elements is ever counted. */
    ghost predicate Valid()
      reads this
    {
      cur <= size
    }

    constructor (de: Deserializer, size: nat)
      ensures this.de == de && this.size == size && cur == 0
      ensures Valid()
    {
      this.de := de;
      this.size := size;
      cur := 0;
    }

    /** `next_element_seed`: exactly `size` elements are handed out, then
        none. */
    method NextElement(hint: Hint) returns (r: Result<Option<Visit>>)
      requires Valid()
      modifies this, de.parser
      ensures Valid()
      ensures old(cur) == size ==> r == Ok(None) && cur == size && de.parser.bytes == old(de.parser.bytes)
      ensures old(cur) != size ==>
        cur == old(cur) + 1 && SomeAgrees(r, de.parser.bytes, Read(old(de.parser.bytes), hint))
    {
      if cur == size {
        return Ok(None);
      }
      cur := cur + 1;
      var v :- de.Deserialize(hint);
      return Ok(Some(v));
    }

    /** `next_key_seed` of a map: the count is advanced by the value. */
    method NextKey(hint: Hint) returns (r: Result<Option<Visit>>)
      requires Valid()
      modifies de.parser
      ensures old(cur) == size ==> r == Ok(None) && de.parser.bytes == old(de.parser.bytes)
      ensures old(cur) != size ==> SomeAgrees(r, de.parser.bytes, Read(old(de.parser.bytes), hint))
    {
      if cur == size {
        return Ok(None);
      }
      var v :- de.Deserialize(hint);
      return Ok(Some(v));
    }

    /** `next_value_seed`: serde calls it only after `next_key_seed`
        handed out a key, so fewer than `size` values have been read. */
    method NextValue(hint: Hint) returns (r: Result<Visit>)
      requires Valid() && cur < size
      modifies this, de.parser
      ensures Valid()
      ensures cur == old(cur) + 1
      ensures Agrees(r, de.parser.bytes, Read(old(de.parser.bytes), hint))
    {
      cur := cur + 1;
      r := de.Deserialize(hint);
    }
  }

  // ---------------------------------------------------------- struct bodies

  /** The access handed out for a struct body: the tags seen so far, and the
      expected tags when the target named its fields. */
  class TagsAccess {
    const de: Deserializer
    var tags: set<Byte>
    const fields: Option<set<Byte>>

    /** `new`: any tag is accepted. */
    constructor (de: Deserializer)
      ensures this.de == de && tags == {} && fields == None
    {
      this.de := de;
      tags := {};
      fields := None;
    }

    /** The access built by `new_with_fields` once the names are parsed. */
    constructor WithFields(de: Deserializer, expected: set<Byte>)
      ensures this.de == de && tags == {} && fields == Some(expected)
    {
      this.de := de;
      tags := {};
      fields := Some(expected);
    }

    /** `new_with_fields`. */
    static method NewWithFields(de: Deserializer, names: seq<string>) returns (r: Result<TagsAccess>)
      ensures FieldTags(names).Err? ==> r == Err(FieldTags(names).error)
      ensures FieldTags(names).Ok? ==>
        r.Ok? && fresh(r.value) && r.value.de == de && r.value.tags == {} &&
        r.value.fields == Some(FieldTags(names).value)
    {
      var expected :- CollectFieldTags(names);
      var acc := new TagsAccess.WithFields(de, expected);
      return Ok(acc);
    }

    /** `get_tag`. */
    method GetTag() returns (r: Result<Option<Byte>>)
      modifies this, de.parser
      ensures KeyAgrees(r, t => t, de.parser.bytes, tags, TagStep(old(de.parser.bytes), old(tags)))
    {
      var h :- PickHead(de.parser.bytes);
      if h.tp == Types.StructEnd {
        var e := de.parser.Marker(Types.StructEnd);
        return Ok(None);
      }
      if h.tag in tags {
        return Err(DuplicateFieldTag);
      }
      tags := tags + {h.tag};
      return Ok(Some(h.tag));
    }

    /** `next_key_seed`. */
    method NextKey() returns (r: Result<Option<Key>>)
      modifies this, de.parser
      ensures KeyAgrees(r, t => KeyOf(t, fields), de.parser.bytes, tags,
                        NextKeySpec(old(de.parser.bytes), old(tags), fields))
    {
      if fields.None? {
        var t :- GetTag();
        return Ok(if t.None? then None else Some(Tag(t.value)));
      }
      while true
        invariant NextKeySpec(de.parser.bytes, tags, fields) ==
                  NextKeySpec(old(de.parser.bytes), old(tags), fields)
        decreases |de.parser.bytes|
      {
        var t :- GetTag();
        if t.None? {
          return Ok(None);
        }
        if t.value in fields.value {
          return Ok(Some(Name(DecimalName(t.value))));
        }
        var u :- de.parser.Ignore();
      }
    }

    /** `next_value_seed`: the value is read from where its header starts. */
    method NextValue(hint: Hint) returns (r: Result<Visit>)
      modifies de.parser
      ensures Agrees(r, de.parser.bytes, Read(old(de.parser.bytes), hint))
    {
      r := de.Deserialize(hint);
    }
  }
}
