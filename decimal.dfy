/** Field names are tags written in decimal: `str::parse::<u8>` on the way
    in (struct field names, map keys of a struct) and `u8::to_string` on the
    way out (Value objects). */
module Decimal {
  import opened Errors
  import opened BigEndian

  predicate IsDigit(c: char)
  {
    '0' <= c <= '9'
  }

  predicate AllDigits(d: string)
  {
    forall i :: 0 <= i < |d| ==> IsDigit(d[i])
  }

  /** The number a string of decimal digits denotes. */
  function DigitsValue(d: string): nat
    requires AllDigits(d)
  {
    if d == [] then 0 else DigitsValue(d[..|d| - 1]) * 10 + (d[|d| - 1] as int - '0' as int)
  }

  /** `s.parse::<u8>()`: an optional leading '+', then one or more ASCII
      digits (leading zeros allowed) whose value is at most 255. A '-' is
      not accepted for an unsigned type. */
  function ParseU8(s: string): (r: Option<Byte>)
    ensures r.Some? ==> |s| >= 1
    ensures s == [] ==> r.None?
  {
    var d := if |s| > 0 && s[0] == '+' then s[1..] else s;
    if |d| == 0 || !AllDigits(d) then None
    else if DigitsValue(d) <= 255 then Some(DigitsValue(d))
    else None
  }

  function Digit(n: nat): (c: char)
    requires n < 10
    ensures IsDigit(c) && c as int - '0' as int == n
  {
    ('0' as int + n) as char
  }

  /** `b.to_string()`: decimal, no sign, no leading zero. */
  function DecimalName(b: Byte): (r: string)
    ensures 1 <= |r| <= 3 && AllDigits(r)
    ensures |r| > 1 ==> r[0] != '0'
  {
    if b < 10 then [Digit(b)]
    else if b < 100 then [Digit(b / 10), Digit(b % 10)]
    else [Digit(b / 100), Digit(b / 10 % 10), Digit(b % 10)]
  }

  /** Parsing the decimal name of a tag gives the tag back. */
  lemma ParseDecimalName(b: Byte)
    ensures ParseU8(DecimalName(b)) == Some(b)
  {
    var r := DecimalName(b);
    assert r[0] != '+';
    if b < 10 {
      OneDigit(b);
    } else if b < 100 {
      TwoDigits(b / 10, b % 10);
    } else {
      ThreeDigits(b / 100, b / 10 % 10, b % 10);
    }
  }

  lemma OneDigit(x: nat)
    requires x < 10
    ensures DigitsValue([Digit(x)]) == x
  {
    assert [Digit(x)][..0] == [];
  }

  lemma TwoDigits(x: nat, y: nat)
    requires x < 10 && y < 10
    ensures DigitsValue([Digit(x), Digit(y)]) == 10 * x + y
  {
    assert [Digit(x), Digit(y)][..1] == [Digit(x)];
    OneDigit(x);
  }

  lemma ThreeDigits(x: nat, y: nat, z: nat)
    requires x < 10 && y < 10 && z < 10
    ensures DigitsValue([Digit(x), Digit(y), Digit(z)]) == 100 * x + 10 * y + z
  {
    assert [Digit(x), Digit(y), Digit(z)][..2] == [Digit(x), Digit(y)];
    TwoDigits(x, y);
  }

  /** Distinct tags have distinct decimal names. */
  lemma DecimalNameInjective(a: Byte, b: Byte)
    requires DecimalName(a) == DecimalName(b)
    ensures a == b
  {
    ParseDecimalName(a);
    ParseDecimalName(b);
  }

  /** Field names that are all tags, no two naming the same tag. */
  predicate DistinctTagNames(names: seq<string>)
  {
    (forall i :: 0 <= i < |names| ==> ParseU8(names[i]).Some?) &&
    (forall i, j :: 0 <= i < j < |names| ==> ParseU8(names[i]) != ParseU8(names[j]))
  }

  /** The tags a list of field names denotes. */
  function TagsOf(names: seq<string>): set<Byte>
    requires forall i :: 0 <= i < |names| ==> ParseU8(names[i]).Some?
  {
    set i | 0 <= i < |names| :: ParseU8(names[i]).value
  }
}
