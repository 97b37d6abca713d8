# serde_jce in Dafny

A model of the JCE codec of serde_jce. It covers the wire format (a
head of tag and type, followed by a payload), the byte-level reader
(`JceParser`) and writer (`Jcebuilder`), the serde back ends built on them
(`Serializer`, `Deserializer`), and the dynamically typed `Value` with its
hand-written `PartialEq`, `Ord`, `Serialize` and visitor. It also proves
properties of that model.

A JCE head packs a 4-bit type code into the low nibble of its first byte.
A tag below 15 goes into the high nibble. Otherwise the high nibble is 15
and the tag follows in a second byte. Integers are written in the
narrowest of 1, 2, 4 or 8 bytes, big-endian two's complement, and zero is
written as a bare `Zero` head. Strings are `String1` (1-byte length) or
`String4` (4-byte length). Maps and lists carry an `i32` count. Structs are
bracketed by `StructBegin` and `StructEnd`. Byte strings are a
`SimpleList` marker, an `i8` zero head and an `i32` length.

Modules and files:

- `errors.dfy` (Errors): the error enum of the crate, plus `Result` and `Option`.
- `bigendian.dfy` (BigEndian): integer widths, big-endian and two's-complement byte strings.
- `types.rs` as `types.dfy` (Types): the fourteen type codes and `try_from`.
- `utf8.dfy` (Utf8): well-formed UTF-8, the only property of `str` the codec relies on.
- `decimal.dfy` (Decimal): `str::parse::<u8>` and the decimal field names `"0"` … `"255"`.
- `builder.dfy` (Builder):
  - one function per writer giving the bytes it appends;
  - the `Jcebuilder` class, whose methods are proved to append exactly those bytes.
- `parser.dfy` (Parser):
  - one function per reader on the remaining input (value and rest, or error);
  - the `JceParser` class, whose methods are proved against those functions, including the loops of `ignore`.
- `wire_laws.dfy` (WireLaws): what the reader returns for what the writer wrote, and how the reader skips it.
- `deserializer.dfy` (Deserialization):
  - the typed entry points of `Deserializer` as the serde "visit" each hands over;
  - the `Sequence` and `TagsAccess` accesses;
  - `from_bytes`.
- `serializer.dfy` (Serialization):
  - the serde call tree of a value as the datatype `Data`;
  - `Encode`, the bytes the serializer writes for it or the error it stops with;
  - the `Serializer` and `StructSerializer` classes, proved to write what `Encode` says;
  - `to_bytes` and `to_bytes_with_tag`.
- `serde_laws.dfy` (SerdeLaws):
  - exactly which data the serializer accepts;
  - typed read-back of every primitive;
  - option handling;
  - that `ignore` skips exactly one written value;
  - the struct key walk over unexpected and repeated tags.
- `values.dfy` (Values): `Value`, its equality and order, and the `BTreeMap` operations the visitor uses.
- `value_codec.dfy` (ValueCodec): `Value::serialize` as a `Data` tree, and the `ValueVisitor` reading a `Value` back.
- `value_laws.dfy` (ValueLaws): the round trip of `Value` through `to_bytes` and `from_bytes`.

Modelling choices:

- Bytes are integers 0..255.
- Fixed-width integers are integer subsets of their range.
- Floats are their IEEE bit patterns. `f32::to_bits` and `f64::to_bits` are the only way the source looks at a float.
- A parser or builder keeps its remaining or written bytes in a `seq<Byte>` field that its methods reassign.
- Each method is proved against a function on sequences: the function's value and rest for a reader, appended bytes for a writer.

Where the code's behaviour is surprising, the model keeps it:

- `get_head` chooses how many bytes to consume from the tag value, not from the head byte. A long-form head whose second byte is below 15 is therefore consumed as one byte, and the tag byte is left as the start of the payload (`WireLaws.LongFormSmallTag`, `WireLaws.LongFormExamples`).
- `deserialize_any` panics (`todo!()`) on a bare `StructEnd`. The model gives this the extra error `Panicked`.
- `serialize_i128` checks only the upper bound, then casts with `as i64`, so a value below `i64::MIN` is written wrapped to 64 bits (`Serialization.Wrap64`).
- `Some(x)` for an `x` written as a `Zero` head (0, unit, none) reads back as `None` (`SerdeLaws.SomeZeroIsNone`).
- `Value::Int(0)` reads back as `Value::Zero` (`ValueLaws.IntZeroReadsAsZero`).

## Model

| member | source | states |
|---|---|---|
| Types.Code | src/types.rs:5-20 | every type has a code of at most 13, and `try_from` of that code gives the type back |
| Types.TryFrom | src/types.rs:25-43 | accepts exactly the bytes 0..13; any other byte is `UnknownJceType` |
| Types.CodeInjective | src/types.rs:5-20 | two types with the same code are the same type |
| Types.TryFromCode | src/types.rs:25-43 | a byte `try_from` accepts is the code of the type it returns |
| BigEndian.FromToBE | src/de/parser.rs:160-181 | reading `n` big-endian bytes written from `x < 256^n` gives `x` |
| BigEndian.SignedTwosBE | src/de/parser.rs:126-181 | the signed big-endian reading of the two's-complement bytes of `v` is `v`, for every `v` in the width's range |
| BigEndian.SignedBE | src/de/parser.rs:126-181 | `from_be_bytes` on `n` bytes yields a value in the `n`-byte signed range |
| Decimal.ParseU8 | src/ser/serializer.rs:439-457 | `parse::<u8>` fails on the empty string and succeeds only on a non-empty one |
| Decimal.DecimalName | src/value.rs:265-288 | each table entry is one to three digits without a leading zero |
| Decimal.ParseDecimalName | src/value.rs:265-291 | parsing the table entry of tag `b` gives back `b` |
| Decimal.DecimalNameInjective | src/value.rs:265-291 | different tags have different table entries |
| Utf8.CharLen | src/de/deserializer.rs:191-199 | the first character of a string takes at most four bytes and no more than the string has |
| Builder.EncHead | src/ser/builder.rs:36-44 | the head is one byte (tag in the high nibble) for tags below 15; otherwise it is two bytes, high nibble 15 then the tag; the low nibble is always the type code |
| Builder.EncStructEnd | src/ser/builder.rs:155-157 | the struct terminator is the single byte 0x0B |
| Builder.EncZero | src/ser/builder.rs:159-162 | the Zero head at the tag and no payload; `SerdeLaws.ZeroRoundTrip` reads it back as 0 and as none |
| Builder.EncI8 | src/ser/builder.rs:61-67 | zero is a Zero head, any other value an I8 head and one byte; `Builder.NarrowestWidth` and `WireLaws.IntRoundTrip` state the width chosen and the value read back |
| Builder.EncI16 | src/ser/builder.rs:69-76 | narrows to `i8` when the value fits, otherwise an I16 head and two big-endian bytes; read back by `WireLaws.IntRoundTrip` |
| Builder.EncI32 | src/ser/builder.rs:78-85 | narrows to `i16` when the value fits, otherwise an I32 head and four bytes; read back by `WireLaws.IntRoundTrip` |
| Builder.EncI64 | src/ser/builder.rs:87-94 | narrows to `i32` when the value fits, otherwise an I64 head and eight bytes; `Builder.NarrowestWidth` shows the chain ends at the narrowest width |
| Builder.EncF32 | src/ser/builder.rs:96-99 | an F32 head and the four big-endian bits; read back bit for bit by `WireLaws.FloatRoundTrip` |
| Builder.EncF64 | src/ser/builder.rs:101-104 | an F64 head and the eight big-endian bits; read back bit for bit by `WireLaws.FloatRoundTrip` |
| Builder.EncStr | src/ser/builder.rs:115-136 | String1 with a one-byte length up to 255 bytes, otherwise String4 with a four-byte length; read back unchanged by `WireLaws.StrRoundTrip` |
| Builder.EncMapBegin | src/ser/builder.rs:138-145 | a Map head and the count as an integer at tag 0; read back by `WireLaws.CountRoundTrip` |
| Builder.EncListBegin | src/ser/builder.rs:147-149 | a List head and the count as an integer at tag 0; read back by `WireLaws.CountRoundTrip` |
| Builder.EncStructBegin | src/ser/builder.rs:151-153 | the StructBegin head at the tag; read back by `WireLaws.MarkerRoundTrip` |
| Builder.EncBytes | src/ser/builder.rs:172-182 | a SimpleList head, a `(0, I8)` head, the length as an integer and the bytes; read back unchanged by `WireLaws.BytesRoundTrip` |
| Builder.MinWidth | src/ser/builder.rs:61-94 | the width is 0 exactly for 0; otherwise it is the smallest of 1, 2, 4, 8 bytes whose signed range holds the value |
| Builder.NarrowestWidth | src/ser/builder.rs:61-94 | `i64` writes a bare Zero head for 0, otherwise the head of the narrowest type plus the two's-complement bytes; it writes the same bytes as `i32`/`i16`/`i8` for values in their range |
| Builder.Jcebuilder.constructor | src/ser/builder.rs:26-33 | a new builder holds no bytes |
| Builder.Jcebuilder.PushHead | src/ser/builder.rs:36-44 | appends exactly the head of `EncHead` and changes nothing else |
| Builder.Jcebuilder.PushByte | src/ser/builder.rs:46-49 | appends the one byte |
| Builder.Jcebuilder.PushBytes | src/ser/builder.rs:51-57 | appends the bytes in order |
| Builder.Jcebuilder.I8 | src/ser/builder.rs:61-67 | appends a Zero head for 0, or an I8 head and the byte |
| Builder.Jcebuilder.I16 | src/ser/builder.rs:69-76 | appends the `i8` encoding for values in `i8` range, else an I16 head and two big-endian bytes |
| Builder.Jcebuilder.I32 | src/ser/builder.rs:78-85 | appends the `i16` encoding for values in `i16` range, else an I32 head and four bytes |
| Builder.Jcebuilder.I64 | src/ser/builder.rs:87-94 | appends the `i32` encoding for values in `i32` range, else an I64 head and eight bytes (see `Builder.NarrowestWidth`) |
| Builder.Jcebuilder.F32 | src/ser/builder.rs:96-99 | appends an F32 head and the four big-endian bit bytes |
| Builder.Jcebuilder.F64 | src/ser/builder.rs:101-104 | appends an F64 head and the eight big-endian bit bytes |
| Builder.Jcebuilder.Str | src/ser/builder.rs:106-130 | appends a String1 head and a 1-byte length up to 255 bytes, else String4 and a 4-byte length, then the bytes (read back by `WireLaws.StrRoundTrip`) |
| Builder.Jcebuilder.MapBegin | src/ser/builder.rs:138-140 | appends a Map head and the count written as an `i32` at tag 0 |
| Builder.Jcebuilder.ListBegin | src/ser/builder.rs:147-149 | appends a List head and the count written as an `i32` at tag 0 |
| Builder.Jcebuilder.StructBegin | src/ser/builder.rs:151-153 | appends a StructBegin head |
| Builder.Jcebuilder.StructEnd | src/ser/builder.rs:155-157 | appends the terminator byte 0x0B |
| Builder.Jcebuilder.Zero | src/ser/builder.rs:159-161 | appends a Zero head |
| Builder.Jcebuilder.Bytes | src/ser/builder.rs:163-182 | appends a SimpleList head, an `i8` zero head, the length as `i32` at tag 0, then the bytes (read back by `WireLaws.BytesRoundTrip`) |
| Parser.PickType | src/de/parser.rs:48-53 | on success the input is non-empty and the type's code is the low nibble of its first byte |
| Parser.PickHead | src/de/parser.rs:55-71 | agrees with `pick_type`; a tag of 15 or more needs a second byte and a high nibble of 15 |
| Parser.PickTag | src/de/parser.rs:44-46 | the tag of the head `pick_head` decodes, nothing consumed; its errors are those of `pick_head` |
| Parser.ParseHead | src/de/parser.rs:78-86 | `get_head` returns what `pick_head` returns and leaves a proper suffix of the input |
| Parser.Take | src/de/parser.rs:88-113 | succeeds exactly when `n` bytes remain; the bytes taken followed by the rest are the input; otherwise `NotEnoughtBytes` |
| Parser.ParseInt | src/de/parser.rs:115-181 | reading an integer of a given width consumes input and yields a value in that width's signed range |
| Parser.ParseF32 | src/de/parser.rs:183-192 | `f32` consumes its head and payload |
| Parser.ParseF64 | src/de/parser.rs:194-207 | `f64` consumes its head and payload |
| Parser.ParseStrPayload | src/de/parser.rs:209-237 | a string body read after its length is well-formed UTF-8, and the rest is no longer than the input |
| Parser.ParseStr | src/de/parser.rs:239-260 | `str` consumes input and yields well-formed UTF-8 |
| Parser.ParseCount | src/de/parser.rs:263-284 | `map`/`list` consume their head and count; the count is at most `i32::MAX` |
| Parser.ParseMarker | src/de/parser.rs:287-307 | `struct_begin`/`struct_end`/`zero` succeed only on a head of that type, and consume it |
| Parser.ParseBytes | src/de/parser.rs:309-324 | `bytes` consumes its head, length and body |
| Parser.SkipValue | src/de/parser.rs:326-390 | `ignore` consumes at least the head of one value, or fails |
| Parser.SkipMany | src/de/parser.rs:352-364 | skipping `k` values never grows the input, and shrinks it when `k > 0` |
| Parser.SkipFields | src/de/parser.rs:365-378 | skipping the fields of a struct body through its terminator consumes input |
| Parser.SkipManyStep | src/de/parser.rs:352-364 | skipping `k > 0` values is one `ignore` followed by skipping `k - 1`, and fails with the first failure |
| Parser.JceParser.constructor | src/de/parser.rs:31-33 | a new parser holds the whole input |
| Parser.JceParser.GetHead | src/de/parser.rs:78-86 | result and new input are those of `ParseHead` |
| Parser.JceParser.GetBytes | src/de/parser.rs:88-113 | result and new input are those of `Take` |
| Parser.JceParser.Int | src/de/parser.rs:115-181 | result and new input are those of `ParseInt`: a narrower stored integer is accepted, a wider one is `WrongType`, Zero is 0 |
| Parser.JceParser.Float32 | src/de/parser.rs:183-192 | result and new input are those of `ParseF32` |
| Parser.JceParser.Float64 | src/de/parser.rs:194-207 | result and new input are those of `ParseF64`, which widens an F32 field |
| Parser.JceParser.StrPayload | src/de/parser.rs:209-237 | result and new input are those of `ParseStrPayload`; a body that is not UTF-8 is `StringIsNotUtf8` |
| Parser.JceParser.Str | src/de/parser.rs:239-260 | result and new input are those of `ParseStr` |
| Parser.JceParser.Count | src/de/parser.rs:263-284 | result and new input are those of `ParseCount` |
| Parser.JceParser.Marker | src/de/parser.rs:287-307 | result and new input are those of `ParseMarker` |
| Parser.JceParser.ByteString | src/de/parser.rs:309-324 | result and new input are those of `ParseBytes` |
| Parser.JceParser.Ignore | src/de/parser.rs:326-390 | result and new input are those of `SkipValue`, including its nested loops |
| Parser.JceParser.IgnoreMany | src/de/parser.rs:352-364 | the counting loop of `ignore` ends with the result and input of `SkipMany` |
| Parser.JceParser.IgnoreNext | src/de/parser.rs:352-364 | one pass of that loop skips one value: one value fewer is then left to skip towards the same `SkipMany` outcome, or the skip's error is that outcome |
| Parser.JceParser.IgnoreFields | src/de/parser.rs:365-378 | the struct loop of `ignore` ends with the result and input of `SkipFields` |
| WireLaws.HeadRoundTrip | src/de/parser.rs:55-86 | the head the builder writes for any tag and type is read back as that tag and type, consuming exactly the head |
| WireLaws.LongFormSmallTag | src/de/parser.rs:78-86 | a two-byte head whose tag byte is below 15 reports that tag but consumes only one byte |
| WireLaws.LongFormExamples | src/de/parser.rs:55-124 | `[F0 05 12]` reads as the `i8` 5 with `[12]` left; `[F0 0F 12]` reads as the `i8` 0x12 |
| WireLaws.IntField | src/de/parser.rs:115-181 | a stored integer of width `w` is read by a reader of width at least `w` as its signed value, and refused with `WrongType` by a narrower one |
| WireLaws.IntRoundTrip | src/de/parser.rs:115-181 | what `i64` writes is read back by the reader of any width that holds the value, and is `WrongType` for the others |
| WireLaws.IntRejects | src/de/parser.rs:115-181 | an integer reader refuses any head that is neither Zero nor an integer type no wider than itself |
| WireLaws.IntExamples | src/de/parser.rs:115-181 | a stored I8 (`[0x00, 0x12]`) widens to the requested i16 width; a Zero head reads as 0 and leaves the next byte unread; an `i64` is too wide for `i16`; a truncated payload is `NotEnoughtBytes` |
| WireLaws.TakeAppend | src/de/parser.rs:88-103 | taking `|p|` bytes from `p + rest` gives `p` and leaves `rest` |
| WireLaws.FloatRoundTrip | src/de/parser.rs:183-207 | `f32` reads back the written bits; `f64` reads an F32 field widened, and an F64 field's bits |
| WireLaws.StrHeader | src/de/parser.rs:239-260 | `str` answers by head type: Zero is the empty string; String1 or String4 reads the body when allowed; anything else is `WrongType` |
| WireLaws.StrPayload | src/de/parser.rs:209-237 | a length followed by that many bytes of UTF-8 is read back as those bytes |
| WireLaws.StrRoundTrip | src/de/parser.rs:209-260 | a written string is read back by `str`; `str_small` refuses a long one and `str_big` a short one |
| WireLaws.CountHeader | src/de/parser.rs:263-284 | `map`/`list` read 0 from a Zero head, the `i32` count after their own head, and refuse other heads |
| WireLaws.CountRoundTrip | src/de/parser.rs:263-284 | the count `map_begin`/`list_begin` wrote is read back, and a negative count is `WrongLength` |
| WireLaws.MarkerRoundTrip | src/de/parser.rs:287-307 | a marker reader accepts a written head exactly when its type is the marker |
| WireLaws.BytesBody | src/de/parser.rs:309-324 | the length field of a byte string is read back as the body's length |
| WireLaws.BytesRoundTrip | src/de/parser.rs:309-324 | a written byte string is read back, leaving what follows |
| WireLaws.SkipInt | src/de/parser.rs:326-390 | `ignore` skips exactly a written integer |
| WireLaws.SkipFloat | src/de/parser.rs:326-390 | `ignore` skips exactly a written float or double |
| WireLaws.SkipStr | src/de/parser.rs:326-390 | `ignore` skips exactly a written string |
| WireLaws.SkipBytes | src/de/parser.rs:326-390 | `ignore` skips exactly a written byte string |
| WireLaws.SkipMarker | src/de/parser.rs:326-390 | `ignore` skips exactly a Zero or StructEnd head |
| Deserialization.ReadInt | src/de/deserializer.rs:103-166 | the integer entry points consume what they read |
| Deserialization.ReadF32 | src/de/deserializer.rs:177-183 | `deserialize_f32` consumes what it reads |
| Deserialization.ReadF64 | src/de/deserializer.rs:184-190 | `deserialize_f64` consumes what it reads |
| Deserialization.ReadText | src/de/deserializer.rs:201-214 | `deserialize_str`/`string` consume what they read |
| Deserialization.ReadBlob | src/de/deserializer.rs:215-228 | `deserialize_bytes`/`byte_buf` consume what they read |
| Deserialization.ReadSeqOf | src/de/deserializer.rs:264-290 | `deserialize_seq`/`tuple` consume the head and count |
| Deserialization.ReadMapOf | src/de/deserializer.rs:291-297 | `deserialize_map` consumes the head and count |
| Deserialization.ReadNothing | src/de/deserializer.rs:242-256 | `deserialize_unit`/`unit_struct` consume a Zero head |
| Deserialization.ReadAny | src/de/deserializer.rs:67-94 | `deserialize_any` consumes input; it fails as `pick_head` fails; it aborts on a bare StructEnd; a struct it opens expects any tag |
| Deserialization.Read | src/de/deserializer.rs:96-311 | every typed entry point consumes input; `deserialize_option` gives None after consuming a Zero head, or Some without consuming for any other type |
| Deserialization.FirstChar | src/de/deserializer.rs:191-199 | for a non-empty string, exactly the bytes of its first UTF-8 character (the length its lead byte announces); for the empty string, the NUL character |
| Deserialization.FieldTagsFrom | src/de/deserializer.rs:462-481 | collecting field tags only adds to the set, and fails only with `ErrorFieldTag` or `DuplicateFieldTagName` |
| Deserialization.FieldTags | src/de/deserializer.rs:462-481 | `new_with_fields` from an empty set; `Deserialization.FieldTagsSpec` states it succeeds exactly for distinct decimal names and then holds exactly their tags |
| Deserialization.FieldTagsFromSpec | src/de/deserializer.rs:462-481 | collection succeeds exactly when the names are distinct `u8`s outside the starting set, giving that set plus their tags |
| Deserialization.FieldTagsSpec | src/de/deserializer.rs:462-481 | `new_with_fields` accepts the field names exactly when they are distinct decimal `u8`s, and its tag set is theirs |
| Deserialization.CollectFieldTags | src/de/deserializer.rs:462-481 | the loop over the field names yields `FieldTags` of the names |
| Deserialization.TagStep | src/de/deserializer.rs:484-496 | `get_tag` consumes a StructEnd and yields none; otherwise it yields a new tag without consuming and records it; a tag seen before is `DuplicateFieldTag` |
| Deserialization.NextKeySpec | src/de/deserializer.rs:506-539 | `next_key` only adds to the seen tags; a key it yields is new, starts the remaining input, and is an expected field when fields are given; with no fields it is `get_tag` |
| Deserialization.Deserializer.constructor | src/de/deserializer.rs:14-18 | a new deserializer's parser holds the input |
| Deserialization.Deserializer.Deserialize | src/de/deserializer.rs:96-311 | every typed entry point returns and leaves what `Read` says |
| Deserialization.Deserializer.DeserializeInt | src/de/deserializer.rs:103-129 | reading one signed width returns and leaves what `ReadInt` says |
| Deserialization.Deserializer.DeserializeInteger | src/de/deserializer.rs:103-174 | each integer entry point returns and leaves what `Read` says for its hint, which is the `ReadInt` of the width it delegates to |
| Deserialization.Deserializer.DeserializeAny | src/de/deserializer.rs:67-94 | `deserialize_any` returns and leaves what `ReadAny` says |
| Deserialization.FromBytes | src/de/deserializer.rs:49-60 | `from_bytes` succeeds exactly when the read succeeds and uses all the input; read errors are passed on; leftover input is `TrailingBytes` |
| Deserialization.Sequence.constructor | src/de/deserializer.rs:349-351 | a new sequence access starts at element 0 of `size`, so its count is within the announced size |
| Deserialization.Sequence.NextElement | src/de/deserializer.rs:388-398 | after `size` elements it yields none and reads nothing; otherwise it counts one more and reads the next element; the count never passes `size` |
| Deserialization.Sequence.NextKey | src/de/deserializer.rs:361-370 | after `size` entries it yields none and reads nothing; otherwise it reads the next key and leaves the count to the value |
| Deserialization.Sequence.NextValue | src/de/deserializer.rs:372-378 | called after a key, so fewer than `size` values were read; it reads the value and counts the entry, and the count never passes `size` |
| Deserialization.TagsAccess.constructor | src/de/deserializer.rs:454-460 | a struct access made by `new` has seen no tags and expects any field |
| Deserialization.TagsAccess.WithFields | src/de/deserializer.rs:462-481 | a struct access with fields has seen no tags and expects those fields |
| Deserialization.TagsAccess.NewWithFields | src/de/deserializer.rs:462-481 | `new_with_fields` passes on the error of `FieldTags`, or gives a fresh access expecting exactly those tags |
| Deserialization.TagsAccess.GetTag | src/de/deserializer.rs:484-496 | result, new input and seen tags are those of `TagStep` |
| Deserialization.TagsAccess.NextKey | src/de/deserializer.rs:506-539 | the loop that skips unexpected fields ends with the result, input and seen tags of `NextKeySpec` |
| Deserialization.TagsAccess.NextValue | src/de/deserializer.rs:541-546 | reads the field's value as `Read` says |
| Serialization.Wrap64 | src/ser/serializer.rs:128-135 | `as i64` keeps values in `i64` range and otherwise agrees with the input modulo 2^64 |
| Serialization.EncodeStr | src/ser/serializer.rs:181-188 | a string is written exactly when it is at most `STRING_MAX_LENGTH` bytes, else `StringTooLong` |
| Serialization.EncodeUpTo64 | src/ser/serializer.rs:149-165 | a `u64` or `u128` is written exactly when it is at most `i64::MAX`, else `IntTooBig` |
| Serialization.Encode | src/ser/serializer.rs:103-299 | the serializer fails only with its own errors (see `SerdeLaws.EncodeOk` for when) |
| Serialization.EncodePrimitive | src/ser/serializer.rs:103-227 | the writers of single values fail only with their own errors |
| Serialization.EncodeSeq | src/ser/serializer.rs:248-281 | `serialize_seq`/`tuple` fail only with serializer errors |
| Serialization.EncodeElems | src/ser/serializer.rs:318-329 | writing the elements fails only with serializer errors |
| Serialization.EncodeMap | src/ser/serializer.rs:283-294 | `serialize_map` fails only with serializer errors |
| Serialization.EncodeEntries | src/ser/serializer.rs:388-412 | writing the entries fails only with serializer errors |
| Serialization.EncodeEntry | src/ser/serializer.rs:388-412 | writing one entry fails only with serializer errors |
| Serialization.EncodeStruct | src/ser/serializer.rs:296-316 | `serialize_struct` fails only with serializer errors |
| Serialization.EncodeFields | src/ser/serializer.rs:439-462 | writing the fields fails only with serializer errors |
| Serialization.EncodeField | src/ser/serializer.rs:439-457 | a field is written only under a new `u8` name; a name that is not a `u8` is `ErrorFieldTag`, and a repeated one `DuplicateFieldTag` |
| Serialization.Serializer.constructor | src/ser/serializer.rs:79-84 | a new serializer writes at tag 0 into an empty builder |
| Serialization.Serializer.Serialize | src/ser/serializer.rs:103-299 | appends what `Encode` says at the current tag, or stops with its error; on success the tag is as before |
| Serialization.Serializer.SerializePrimitive | src/ser/serializer.rs:103-227 | appends what `EncodePrimitive` says, or stops with its error |
| Serialization.Serializer.SerializeInteger | src/ser/serializer.rs:107-165 | each integer width appends the builder encoding `EncodePrimitive` gives it; `i128`, `u64` and `u128` above `i64::MAX` stop with `IntTooBig` and append nothing |
| Serialization.Serializer.SerializeStr | src/ser/serializer.rs:181-188 | appends what `EncodeStr` says, or stops with `StringTooLong` |
| Serialization.Serializer.SerializeSeq | src/ser/serializer.rs:248-281 | appends what `EncodeSeq` says; on success the tag is as before |
| Serialization.Serializer.SerializeElements | src/ser/serializer.rs:318-334 | the element loop appends what `EncodeElems` says; on success the tag is as before |
| Serialization.Serializer.SerializeMap | src/ser/serializer.rs:283-294 | appends what `EncodeMap` says; on success the tag is as before |
| Serialization.Serializer.SerializeEntries | src/ser/serializer.rs:388-417 | the entry loop appends what `EncodeEntries` says; on success the tag is as before |
| Serialization.Serializer.SerializeEntry | src/ser/serializer.rs:388-412 | writes the key at tag 0 and the value at tag 1, as `EncodeEntry` says; on success the tag is as before |
| Serialization.Serializer.SerializeAt | src/ser/serializer.rs:318-329 | saving the tag, writing at another tag and restoring it appends `Encode` at that tag and leaves the tag as before |
| Serialization.Serializer.SerializeStruct | src/ser/serializer.rs:296-316 | appends what `EncodeStruct` says; on success the tag is as before |
| Serialization.StructSerializer.constructor | src/ser/serializer.rs:427-432 | a new struct serializer has used no tags |
| Serialization.StructSerializer.SerializeField | src/ser/serializer.rs:439-457 | appends what `EncodeField` says and, on success, records the field's tag and keeps the serializer's tag |
| Serialization.StructSerializer.SerializeFields | src/ser/serializer.rs:439-457 | the field loop appends what `EncodeFields` says |
| Serialization.StructSerializer.End | src/ser/serializer.rs:459-462 | appends the struct terminator |
| Serialization.ToBytesWithTag | src/ser/serializer.rs:68-76 | `to_bytes_with_tag` gives `Encode` at that tag |
| Serialization.ToBytes | src/ser/serializer.rs:35-42 | `to_bytes` gives `Encode` at tag 0 |
| SerdeLaws.EncodeOk | src/ser/serializer.rs:103-462 | the serializer succeeds exactly on data within its limits: integers up to `i64::MAX`, strings and byte strings within their maximum length, announced lengths that fit an `i32`, and distinct `u8` field names |
| SerdeLaws.ElemsOk | src/ser/serializer.rs:318-329 | the elements are written exactly when each is acceptable |
| SerdeLaws.EntriesOk | src/ser/serializer.rs:388-412 | the entries are written exactly when each is acceptable |
| SerdeLaws.EntryOk | src/ser/serializer.rs:388-412 | an entry is written exactly when its key and value are acceptable |
| SerdeLaws.FieldsOk | src/ser/serializer.rs:439-457 | the struct serializer accepts field names exactly when `new_with_fields` would, provided each value is acceptable |
| SerdeLaws.IntWireType | src/ser/builder.rs:61-94 | an integer is written with an integer or Zero head, Zero exactly for 0 |
| SerdeLaws.WireType | src/ser/serializer.rs:103-299 | no written value starts with a StructEnd head |
| SerdeLaws.IntHead | src/ser/builder.rs:87-94 | the head of a written integer is its tag and the type of its narrowest width |
| SerdeLaws.StrHead | src/ser/builder.rs:115-130 | the head of a written string is String1 up to 255 bytes, else String4 |
| SerdeLaws.PrimitiveHead | src/ser/serializer.rs:103-227 | every acceptable single value is written with a head carrying the current tag |
| SerdeLaws.FirstHeader | src/ser/serializer.rs:103-299 | every acceptable value is written with a head carrying the given tag and its wire type |
| SerdeLaws.ReadWidth | src/de/deserializer.rs:103-175 | each integer entry point reads 1, 2, 4 or 8 bytes |
| SerdeLaws.IntBack | src/de/deserializer.rs:103-166 | a written integer is handed over as itself by any entry point wide enough for it |
| SerdeLaws.PrimitiveRoundTrip | src/de/deserializer.rs:96-256 | every acceptable single value, read with the entry point of its own type, is handed back as written |
| SerdeLaws.SignedRoundTrip | src/de/deserializer.rs:103-139 | signed integers of every width come back through their own entry point |
| SerdeLaws.UnsignedRoundTrip | src/de/deserializer.rs:140-175 | unsigned integers, written one width up, come back through their own entry point |
| SerdeLaws.ZeroRoundTrip | src/de/deserializer.rs:229-256 | none, unit and unit structs come back through their own entry point |
| SerdeLaws.NoneBack | src/de/deserializer.rs:229-240 | a Zero head read as an option is None, consumed |
| SerdeLaws.UnitBack | src/de/deserializer.rs:242-248 | a Zero head read as unit is unit, consumed |
| SerdeLaws.BoolRoundTrip | src/de/deserializer.rs:96-101 | a written bool comes back as the same bool |
| SerdeLaws.TextRoundTrip | src/de/deserializer.rs:191-214 | chars, strings and unit-variant names come back as written |
| SerdeLaws.CharText | src/de/deserializer.rs:191-199 | a char that is one code point is written as a string and `deserialize_char` gives that same char back |
| SerdeLaws.BlobRoundTrip | src/de/deserializer.rs:177-228 | floats, doubles and byte strings come back as written |
| SerdeLaws.F32Back | src/de/deserializer.rs:177-183 | a written `f32` comes back with the same bits |
| SerdeLaws.F64Back | src/de/deserializer.rs:184-190 | a written `f64` comes back with the same bits |
| SerdeLaws.BytesBack | src/de/deserializer.rs:215-221 | a written byte string comes back as written |
| SerdeLaws.AnyInt | src/de/deserializer.rs:67-94 | `deserialize_any` hands over a written integer as itself, except 0, which it hands over as none |
| SerdeLaws.AnyStr | src/de/deserializer.rs:67-94 | `deserialize_any` hands over a written string as a string |
| SerdeLaws.AnyFloat | src/de/deserializer.rs:67-94 | `deserialize_any` hands over written floats as `f32` and doubles as `f64`, bits unchanged |
| SerdeLaws.AnyBytes | src/de/deserializer.rs:67-94 | `deserialize_any` hands over a written byte string as bytes |
| SerdeLaws.AnyZero | src/de/deserializer.rs:67-94 | `deserialize_any` hands over a Zero head as none |
| SerdeLaws.OptionRoundTrip | src/de/deserializer.rs:229-240 | `Some(x)` reads back as Some, leaving `x`'s bytes to be read, unless `x` is written as a Zero head, in which case it reads as None |
| SerdeLaws.ZeroWritten | src/ser/serializer.rs:103-246 | a value whose wire type is Zero is written as exactly the Zero head |
| SerdeLaws.ZeroPrimitive | src/ser/serializer.rs:103-227 | a single value whose wire type is Zero is written as exactly the Zero head |
| SerdeLaws.SomeZeroIsNone | src/de/deserializer.rs:229-240 | `Some(0i32)` is written as `[0C]`, which reads back as None |
| SerdeLaws.SeqHeader | src/de/deserializer.rs:264-290 | a written sequence or tuple is opened by `deserialize_seq` and `deserialize_any` with its announced length, leaving its elements |
| SerdeLaws.ListHeader | src/de/deserializer.rs:264-270 | a list head and count open a sequence of that count, by either entry point |
| SerdeLaws.MapHeader | src/de/deserializer.rs:291-297 | a written map is opened with its announced length, leaving its entries |
| SerdeLaws.MapBeginHeader | src/de/deserializer.rs:291-297 | a map head and count open a map of that count, by either entry point |
| SerdeLaws.StructHeader | src/de/deserializer.rs:67-94 | a written struct is opened by `deserialize_any` as a struct expecting any field, leaving its fields |
| SerdeLaws.SkipPrimitive | src/de/parser.rs:326-390 | `ignore` skips exactly one written single value |
| SerdeLaws.SkipEncoded | src/de/parser.rs:326-390 | `ignore` skips exactly one written value of any shape, nested sequences, maps and structs included |
| SerdeLaws.SkipSeq | src/de/parser.rs:359-364 | `ignore` skips exactly a written sequence or tuple |
| SerdeLaws.SkipMap | src/de/parser.rs:352-358 | `ignore` skips exactly a written map |
| SerdeLaws.SkipList | src/de/parser.rs:359-364 | skipping a list is skipping `count` values after its head |
| SerdeLaws.SkipMapHeader | src/de/parser.rs:352-358 | skipping a map is skipping `2 * count` values after its head |
| SerdeLaws.SkipCountedStep | src/de/parser.rs:352-364 | `ignore` on a list or map head is its count (or twice its count) of further skips |
| SerdeLaws.SkipStructHeader | src/de/parser.rs:365-378 | skipping a struct is skipping fields through its terminator |
| SerdeLaws.SkipStructStep | src/de/parser.rs:365-378 | `ignore` on a StructBegin head is the field loop on what follows |
| SerdeLaws.SkipStruct | src/de/parser.rs:365-378 | `ignore` skips exactly a written struct |
| SerdeLaws.SkipElems | src/de/parser.rs:359-364 | the written elements are exactly as many values as there are elements |
| SerdeLaws.SkipEntries | src/de/parser.rs:352-358 | the written entries are exactly twice as many values as there are entries |
| SerdeLaws.SkipEntry | src/de/parser.rs:352-358 | a written entry is two values |
| SerdeLaws.SkipFieldsEncoded | src/de/parser.rs:365-378 | the field loop skips exactly the written fields and the terminator |
| SerdeLaws.SkipField | src/de/parser.rs:365-378 | the field loop passes over one written field |
| SerdeLaws.TagKey | src/de/deserializer.rs:484-539 | a field written at a new tag is yielded as that key, not consumed; when the struct expects other fields it is skipped and its tag recorded |
| SerdeLaws.EndKey | src/de/deserializer.rs:506-539 | the terminator ends the key walk, consumed |
| SerdeLaws.SkipUnexpected | src/de/deserializer.rs:506-539 | `next_key` passes over every written field the struct does not expect and records all their tags |
| SerdeLaws.RepeatedTag | src/de/deserializer.rs:484-539 | two fields written at the same unexpected tag stop `next_key` with `DuplicateFieldTag` |
| SerdeLaws.FieldTagsExamples | src/de/deserializer.rs:462-481 | `["1","2","3"]` gives {1,2,3}; `["0","0"]` is `DuplicateFieldTagName`; `"x"` and `"256"` are `ErrorFieldTag` |
| Values.EqIsEquality | src/value.rs:124-167 | `PartialEq` holds exactly for equal values (floats compared by bits), which makes `impl Eq` sound |
| Values.Eq | src/value.rs:124-165 | `PartialEq`: same variant and equal contents, floats by bits; `Values.EqIsEquality` shows it is equality |
| Values.EqItemsIsEquality | src/value.rs:151-154 | two lists are `eq` exactly when they are equal |
| Values.EqPairsIsEquality | src/value.rs:155-158 | two maps are `eq` exactly when they are equal |
| Values.EqSlotsIsEquality | src/value.rs:159-162 | two objects are `eq` exactly when they are equal |
| Values.Rank | src/value.rs:175-232 | there are nine variant ranks, in declaration order |
| Values.Cmp | src/value.rs:175-232 | `Ord::cmp`: first by variant rank, then by contents; `Values.CmpEqual`, `Values.CmpFlip` and `Values.CmpTrans` show it is a total order agreeing with equality |
| Values.CmpBytes | src/value.rs:200-214 | lexicographic order on strings and byte strings, a proper prefix first; partners `Values.CmpBytesEqual`, `Values.CmpBytesFlip`, `Values.CmpBytesTrans` |
| Values.CmpItems | src/value.rs:215-220 | lexicographic order on lists by `cmp` of the elements; partners `Values.CmpItemsEqual`, `Values.CmpItemsFlip`, `Values.CmpItemsTrans` |
| Values.CmpPairs | src/value.rs:221-225 | lexicographic order on maps by key and then value; partners `Values.CmpPairsEqual`, `Values.CmpPairsFlip`, `Values.CmpPairsTrans` |
| Values.CmpSlots | src/value.rs:226-229 | lexicographic order on objects by tag and then value; partners `Values.CmpSlotsEqual`, `Values.CmpSlotsFlip`, `Values.CmpSlotsTrans` |
| Values.CmpEqual | src/value.rs:175-232 | `cmp` is `Equal` exactly for equal values, so `Ord` agrees with `PartialEq` |
| Values.CmpBytesEqual | src/value.rs:200-214 | comparing strings or byte strings is `Equal` exactly for equal ones |
| Values.CmpItemsEqual | src/value.rs:215-220 | comparing lists is `Equal` exactly for equal lists |
| Values.CmpPairsEqual | src/value.rs:221-225 | comparing maps is `Equal` exactly for equal maps |
| Values.CmpSlotsEqual | src/value.rs:226-229 | comparing objects is `Equal` exactly for equal objects |
| Values.CmpFlip | src/value.rs:175-232 | swapping the operands of `cmp` reverses the answer |
| Values.CmpBytesFlip | src/value.rs:200-214 | the lexicographic order on bytes is antisymmetric |
| Values.CmpItemsFlip | src/value.rs:215-220 | the order on lists is antisymmetric |
| Values.CmpPairsFlip | src/value.rs:221-225 | the order on maps is antisymmetric |
| Values.CmpSlotsFlip | src/value.rs:226-229 | the order on objects is antisymmetric |
| Values.CmpTrans | src/value.rs:175-232 | `cmp` is transitive, so `Less` is a strict order fit for `BTreeMap` keys |
| Values.CmpBytesTrans | src/value.rs:200-214 | the lexicographic order on bytes is transitive |
| Values.CmpItemsTrans | src/value.rs:215-220 | the order on lists is transitive |
| Values.CmpPairsTrans | src/value.rs:221-225 | the order on maps is transitive |
| Values.CmpSlotsTrans | src/value.rs:226-229 | the order on objects is transitive |
| Values.Get | src/value.rs:398-401 | a key is found exactly when some entry has it |
| Values.Insert | src/value.rs:398-401 | `BTreeMap::insert`: the map grows by at most one entry; `Values.InsertGet` and `Values.InsertAscending` give the new contents and keep the keys ordered |
| Values.InsertGet | src/value.rs:398-401 | after `insert(k, v)`, `k` maps to `v` and every other key to what it mapped to before |
| Values.InsertKeys | src/value.rs:398-401 | `insert` adds no key below a common lower bound |
| Values.InsertAscending | src/value.rs:398-401 | `insert` keeps the keys strictly ascending under `cmp` |
| Values.InsertLast | src/value.rs:398-401 | inserting a key above every present key appends the entry |
| Values.GetSlot | src/value.rs:391-394 | a tag is found exactly when some field has it |
| Values.InsertSlot | src/value.rs:391-394 | `BTreeMap::insert` on tags: the object grows by at most one field; `Values.InsertSlotGet` and `Values.InsertSlotAscending` give the new contents |
| Values.InsertSlotGet | src/value.rs:391-394 | after `insert(t, v)`, `t` maps to `v` and every other tag to what it mapped to before |
| Values.InsertSlotAscending | src/value.rs:391-394 | `insert` keeps the tags strictly ascending |
| Values.InsertSlotAbove | src/value.rs:391-394 | `insert` adds no tag below a common lower bound |
| Values.InsertSlotLast | src/value.rs:391-394 | inserting a tag above every present tag appends the field |
| ValueCodec.WritableIff | src/value.rs:237-297 | `Value::serialize` succeeds exactly on values within the serializer's limits, stated on the value itself |
| ValueCodec.ToData | src/value.rs:237-297 | `Value::serialize` as the serde calls it makes: Zero is none, lists and maps announce their length, an object field is named by the decimal form of its tag; `ValueCodec.WriteOk` and `ValueLaws.RoundTrip` give what is written and read back |
| ValueCodec.ItemsData | src/value.rs:249-255 | the elements of a list, each as `Value::serialize` hands it on, in order |
| ValueCodec.EntriesData | src/value.rs:256-262 | the entries of a map, each key and value as `Value::serialize` hands them on, in key order |
| ValueCodec.FieldsData | src/value.rs:263-295 | the fields of an object, named by the decimal form of the tag (`STR_TABLE`), in tag order |
| ValueCodec.WritablePairIff | src/value.rs:256-262 | a map entry is written exactly when its key and value are within the limits |
| ValueCodec.WritableSlotIff | src/value.rs:263-293 | an object field is written exactly when its value is within the limits |
| ValueCodec.FieldNamesDistinct | src/value.rs:265-293 | the names an object's fields are written under are distinct and parse back to their tags |
| ValueCodec.WriteOk | src/value.rs:237-297 | a well-formed value is written at any tag exactly when it is within the limits |
| ValueCodec.AnyShapes | src/de/deserializer.rs:67-94 | `deserialize_any` hands over only 64-bit integers and only doubles read from an F64 head, and never a bool, char, some or unit |
| ValueCodec.DecodeValue | src/value.rs:304-413 | reading a `Value` consumes input |
| ValueCodec.DecodeElement | src/value.rs:374-383 | the next list element is none exactly when the count is used up; it consumes input otherwise |
| ValueCodec.DecodeList | src/value.rs:374-383 | reading a list's elements never grows the input |
| ValueCodec.DecodeEntry | src/value.rs:385-404 | reading a map entry consumes input |
| ValueCodec.DecodeMap | src/value.rs:396-403 | reading a map's entries never grows the input |
| ValueCodec.ItemsRead | src/de/deserializer.rs:388-398 | reading the `n` announced elements one after the other yields exactly `n` values |
| ValueCodec.ListCount | src/value.rs:374-383 | a list read from an access announcing `n` elements is exactly those `n` elements, read in order and pushed after the ones already collected; an element that fails fails the list |
| ValueCodec.EntriesRead | src/de/deserializer.rs:361-378 | reading the `n` announced entries one after the other yields exactly `n` entries |
| ValueCodec.MapCount | src/value.rs:396-403 | a map read from an access announcing `n` entries is exactly those `n` entries, read in order and each inserted into the map; an entry that fails fails the map |
| ValueCodec.DecodeObject | src/value.rs:389-395 | reading an object's fields consumes at least the terminator |
| ValueCodec.MapNext | src/value.rs:396-403 | one pass of the map loop: no entry once the count is reached ends the map, an entry read is inserted and the map goes on, an entry that fails ends it with that error |
| ValueCodec.ObjectKey | src/value.rs:389-394 | one key step of the object loop: none at StructEnd ends the object, a key is the tag `TagStep` yields, and a failed key ends the object with its error |
| ValueCodec.ObjectValue | src/value.rs:389-394 | the value read after a tag is inserted under that tag and the object goes on, or its error ends the object |
| ValueCodec.DeserializeValue | src/value.rs:407-413 | `Value::deserialize` returns and leaves what `DecodeValue` says |
| ValueCodec.NextElement | src/de/deserializer.rs:388-398 | the sequence access for a `Value` element agrees with `DecodeElement` for the elements still announced, counts one more on an element, and keeps the count within `size` |
| ValueCodec.VisitSeq | src/value.rs:374-383 | the `visit_seq` loop returns and leaves what `DecodeList` says |
| ValueCodec.NextKey | src/de/deserializer.rs:361-370 | a key is read exactly while fewer than `size` entries were read, as `DecodeElement` says for the entries still announced |
| ValueCodec.NextValue | src/de/deserializer.rs:372-378 | a value is read after a key and the count goes up by one, staying within `size` |
| ValueCodec.NextEntry | src/de/deserializer.rs:361-378 | `next_entry` on the sequence access yields none once `size` entries were read, and otherwise the key and value `DecodeEntry` reads, counting one entry; the count stays within `size` |
| ValueCodec.VisitMap | src/value.rs:396-403 | the `visit_map` loop with a size hint, driven through the sequence access, returns and leaves what `DecodeMap` says |
| ValueCodec.VisitObject | src/value.rs:389-395 | the `visit_map` loop without a size hint returns and leaves what `DecodeObject` says |
| ValueCodec.FromBytes | src/de/deserializer.rs:49-60 | `from_bytes::<Value>` passes on read errors, refuses leftover input with `TrailingBytes`, and otherwise returns the value read |
| ValueLaws.RoundTrip | src/value.rs:237-413 | every well-formed value within the limits and without `Int(0)` is written at any tag and read back as itself, leaving what follows |
| ValueLaws.ScalarRoundTrip | src/value.rs:242-248 | the scalar variants are written and read back as themselves |
| ValueLaws.ListRoundTrip | src/value.rs:249-255 | a list is written and read back as itself |
| ValueLaws.ItemsRoundTrip | src/value.rs:374-383 | the written elements are read back, in order, after what was already read |
| ValueLaws.MapRoundTrip | src/value.rs:256-262 | a map is written and read back as itself |
| ValueLaws.EntriesRoundTrip | src/value.rs:396-403 | the written entries are read back; inserting each in ascending order rebuilds the map |
| ValueLaws.EntryRoundTrip | src/value.rs:256-262 | an entry written as key at tag 0 and value at tag 1 is read back as itself |
| ValueLaws.ObjectRoundTrip | src/value.rs:263-293 | an object is written and read back as itself |
| ValueLaws.SlotsRoundTrip | src/value.rs:389-395 | the written fields are read back, each under its own tag, through the terminator |
| ValueLaws.SlotRoundTrip | src/value.rs:263-293 | one field written at its tag is yielded as that key and its value is read back |
| ValueLaws.IntZeroReadsAsZero | src/value.rs:311-344 | `Int(0)` is written as a Zero head and read back as `Zero` |
| ValueLaws.ReadInt | src/value.rs:318-344 | a written integer reads back as `Int`, or as `Zero` for 0 |
| ValueLaws.ReadFloat | src/value.rs:346-351 | a written float reads back as `Float` with the same bits |
| ValueLaws.ReadDouble | src/value.rs:353-358 | a written double reads back as `Double` with the same bits |
| ValueLaws.ReadString | src/value.rs:360-365 | a written string reads back as `String` |
| ValueLaws.ReadBytes | src/value.rs:367-372 | a written byte string reads back as `Bytes` |
| ValueLaws.ReadZero | src/value.rs:311-316 | a Zero head reads back as `Zero` |
| ValueLaws.WriteThenRead | src/value.rs:237-413 | `from_bytes` of `to_bytes(v)` is `v` for every well-formed value within the limits and without `Int(0)` |

## Left out

- The serde trait plumbing is not modelled as such: `Visitor`, `DeserializeSeed`, the `forward_to_deserialize_any` macros and the one-value key deserializers. Each visit a deserializer hands over is the datatype `Visit`, and each value a serializer receives is the datatype `Data`.
- The `Stupid*` key deserializers are not modelled as types. The key they hand on is the `Visit` a struct body yields. `deserialize_enum` is modelled: it reads as `Hint.Any`, because the source forwards it to `deserialize_any`.
- `Parser.JceParser.Float64`, `WireLaws.FloatRoundTrip`, `SerdeLaws.F64Back`: the `f32`-to-`f64` widening is kept uninterpreted (`WidenedF32`). Float arithmetic and NaN payload rules are outside this model.
- `Deserialization.FirstChar`: `chars().nth(0)` is modelled as the bytes of the first UTF-8 character. Decoding to a code point is not modelled.
- `todo!()` in `deserialize_any` on a bare StructEnd is the error `Panicked`. The unwinding it would cause is not modelled.
- What is left in the input after a call fails is whatever the method's loop reached. The model states the error, not the leftover input.
- The `Debug` and `Display` implementations, base64 output and the `From` conversions of `Value` are not modelled. They do not affect encoding.
- Lifetimes and the borrowing of input slices are not modelled. Borrowed and owned strings are the same byte sequences.
- `src/lib.rs` re-exports only and is not part of this model.
- `Serialization.Encode`, `Serialization.EncodePrimitive` and the other `Encode*` functions: their own contracts state only which errors can occur. When they succeed is `SerdeLaws.EncodeOk` and its companions, and what is read back is the `SerdeLaws` and `ValueLaws` round trips.
- `ValueCodec.DecodeValue`, `ValueCodec.DecodeList`, `ValueCodec.DecodeMap`, `ValueCodec.DecodeObject`: their own contracts state only consumption. What they return is stated by the `ValueLaws` round trips.
- `Deserialization.Sequence.NextValue`, `ValueCodec.NextValue`: both require that fewer than `size` values were read. serde's `MapAccess` protocol calls `next_value_seed` only after `next_key_seed` has yielded a key. A caller that breaks this protocol would push the source's `cur` past `size`; the model does not cover that case.
- `ValueLaws.RoundTrip` excludes `Int(0)`, which the source reads back as `Zero`. That case is `ValueLaws.IntZeroReadsAsZero`.
- `SerdeLaws.SkipEncoded` and the other skip lemmas assume `Honest` data. First, char, string and variant-name data must be well-formed UTF-8, which a Rust `&str` guarantees. Second, every sequence and map must announce as many elements or entries as it then writes. A `Serialize` implementation whose announced `len` differs from what it writes is outside these lemmas: the count written then does not match the values that follow, and `ignore` may skip too few or too many values.
