/** Well-formed UTF-8, as `std::str::from_utf8` accepts it: the byte-sequence
    table of section 4 of RFC 3629 (no overlong forms, no surrogates, nothing
    above U+10FFFF). Only validity is modelled; characters are never decoded. */
module Utf8 {
  import opened BigEndian

  predicate Tail(b: Byte)
  {
    0x80 <= b <= 0xBF
  }

  /** The length of the well-formed character that starts s, or 0 when s
      does not start with one. */
  function CharLen(s: seq<Byte>): (n: nat)
    ensures n <= |s| && n <= 4
    ensures s == [] ==> n == 0
  {
    if s == [] then 0
    else
      var b := s[0];
      if b <= 0x7F then 1
      else if 0xC2 <= b <= 0xDF then
        if |s| >= 2 && Tail(s[1]) then 2 else 0
      else if 0xE0 <= b <= 0xEF then
        var lo := if b == 0xE0 then 0xA0 else 0x80;
        var hi := if b == 0xED then 0x9F else 0xBF;
        if |s| >= 3 && lo <= s[1] <= hi && Tail(s[2]) then 3 else 0
      else if 0xF0 <= b <= 0xF4 then
        var lo := if b == 0xF0 then 0x90 else 0x80;
        var hi := if b == 0xF4 then 0x8F else 0xBF;
        if |s| >= 4 && lo <= s[1] <= hi && Tail(s[2]) && Tail(s[3]) then 4 else 0
      else 0
  }

  predicate ValidUtf8(s: seq<Byte>)
    decreases |s|
  {
    s == [] || (CharLen(s) > 0 && ValidUtf8(s[CharLen(s)..]))
  }

  /** Every sequence of ASCII bytes is valid UTF-8. */
  lemma {:induction false} AsciiIsUtf8(s: seq<Byte>)
    requires forall i :: 0 <= i < |s| ==> s[i] <= 0x7F
    ensures ValidUtf8(s)
  {
    if s != [] {
      assert CharLen(s) == 1;
      AsciiIsUtf8(s[1..]);
    }
  }
}
