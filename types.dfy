/** The wire-type table (src/types.rs): the fourteen type codes that sit in the
    low nibble of every header, and the checked conversion from a nibble. */
module Types {
  import opened Errors
  import opened BigEndian

  datatype JceType =
    | I8 | I16 | I32 | I64
    | F32 | F64
    | String1 | String4
    | Map | List
    | StructBegin | StructEnd
    | Zero | Bytes

  /** `t as u8`: the discriminant of each variant. Every code fits in the low
      nibble of a header, and decoding the code gives the variant back, so
      distinct variants have distinct codes. */
  function Code(t: JceType): (r: Byte)
    ensures r <= 13
    ensures TryFrom(r) == Ok(t)
  {
    match t
    case I8 => 0
    case I16 => 1
    case I32 => 2
    case I64 => 3
    case F32 => 4
    case F64 => 5
    case String1 => 6
    case String4 => 7
    case Map => 8
    case List => 9
    case StructBegin => 10
    case StructEnd => 11
    case Zero => 12
    case Bytes => 13
  }

  /** `JceType::try_from(n)`: defined exactly on 0..=13, `UnknownJceType`
      for every other byte. */
  function TryFrom(n: Byte): (r: Result<JceType>)
    ensures r.Ok? <==> n <= 13
    ensures r.Err? ==> r.error == UnknownJceType
  {
    match n
    case 0 => Ok(I8)
    case 1 => Ok(I16)
    case 2 => Ok(I32)
    case 3 => Ok(I64)
    case 4 => Ok(F32)
    case 5 => Ok(F64)
    case 6 => Ok(String1)
    case 7 => Ok(String4)
    case 8 => Ok(Map)
    case 9 => Ok(List)
    case 10 => Ok(StructBegin)
    case 11 => Ok(StructEnd)
    case 12 => Ok(Zero)
    case 13 => Ok(Bytes)
    case _ => Err(UnknownJceType)
  }

  /** The code table is injective. */
  lemma CodeInjective(a: JceType, b: JceType)
    requires Code(a) == Code(b)
    ensures a == b
  {
    assert TryFrom(Code(a)) == Ok(a) && TryFrom(Code(b)) == Ok(b);
  }

  /** A successful conversion is undone by `Code`. */
  lemma TryFromCode(n: Byte)
    requires TryFrom(n).Ok?
    ensures Code(TryFrom(n).value) == n
  {
  }
}
