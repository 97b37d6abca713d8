/** Bytes, the fixed-width integer ranges of the source, and the big-endian
    two's-complement conversions behind `to_be_bytes` / `from_be_bytes`. */
module BigEndian {

  type Byte = x: int | 0 <= x < 0x100

  type Int8 = x: int | -0x80 <= x < 0x80
  type Int16 = x: int | -0x8000 <= x < 0x8000
  type Int32 = x: int | -0x8000_0000 <= x < 0x8000_0000
  type Int64 = x: int | -0x8000_0000_0000_0000 <= x < 0x8000_0000_0000_0000

  type Uint32 = x: int | 0 <= x < 0x1_0000_0000
  type Uint64 = x: int | 0 <= x < 0x1_0000_0000_0000_0000

  const I32_MAX: int := 0x7FFF_FFFF
  const U32_MAX: int := 0xFFFF_FFFF
  const I64_MAX: int := 0x7FFF_FFFF_FFFF_FFFF

  /** 256 to the power n: the number of values an n-byte field can hold. */
  function Pow256(n: nat): (r: nat)
    ensures r >= 1
  {
    if n == 0 then 1 else 256 * Pow256(n - 1)
  }

  /** The n-byte big-endian form of x (x taken modulo 256^n). */
  function ToBE(x: nat, n: nat): (r: seq<Byte>)
    ensures |r| == n
  {
    if n == 0 then [] else ToBE(x / 256, n - 1) + [x % 256]
  }

  /** The unsigned number a big-endian byte string denotes. */
  function FromBE(b: seq<Byte>): nat
  {
    if b == [] then 0 else FromBE(b[..|b| - 1]) * 256 + b[|b| - 1]
  }

  lemma {:induction false} FromBEBound(b: seq<Byte>)
    ensures FromBE(b) < Pow256(|b|)
  {
    if b != [] {
      FromBEBound(b[..|b| - 1]);
    }
  }

  /** Reading back an n-byte big-endian field gives the number written. */
  lemma {:induction false} FromToBE(x: nat, n: nat)
    requires x < Pow256(n)
    ensures FromBE(ToBE(x, n)) == x
  {
    if n > 0 {
      FromToBE(x / 256, n - 1);
      var s := ToBE(x, n);
      assert s[..|s| - 1] == ToBE(x / 256, n - 1);
    }
  }

  /** Half the range of an n-byte field: signed n-byte values lie in
      [-Half(n), Half(n)). */
  function Half(n: nat): int
  {
    Pow256(n) / 2
  }

  /** `v.to_be_bytes()` for a signed integer of n bytes. */
  function TwosBE(v: int, n: nat): (r: seq<Byte>)
    requires n >= 1 && -Half(n) <= v < Half(n)
    ensures |r| == n
  {
    ToBE(if v < 0 then v + Pow256(n) else v, n)
  }

  /** `iN::from_be_bytes(b)` for n = |b|: the two's-complement reading. */
  function SignedBE(b: seq<Byte>): (r: int)
    requires |b| >= 1
    ensures -Half(|b|) <= r < Half(|b|)
  {
    FromBEBound(b);
    PowHalf(|b|);
    var u := FromBE(b);
    if u >= Half(|b|) then u - Pow256(|b|) else u
  }

  lemma PowHalf(n: nat)
    requires n >= 1
    ensures Pow256(n) == 2 * Half(n)
  {
  }

  /** Two's-complement big-endian writing and reading are inverse. */
  lemma SignedTwosBE(v: int, n: nat)
    requires n >= 1 && -Half(n) <= v < Half(n)
    ensures SignedBE(TwosBE(v, n)) == v
  {
    PowHalf(n);
    var u := if v < 0 then v + Pow256(n) else v;
    FromToBE(u, n);
  }

  /** The signed ranges of the four integer widths. */
  lemma HalfValues()
    ensures Half(1) == 0x80 && Half(2) == 0x8000
    ensures Half(4) == 0x8000_0000
    ensures Half(8) == 0x8000_0000_0000_0000
  {
    Pow256Values();
  }

  lemma Pow256Values()
    ensures Pow256(1) == 0x100 && Pow256(2) == 0x1_0000
    ensures Pow256(4) == 0x1_0000_0000
    ensures Pow256(8) == 0x1_0000_0000_0000_0000
  {
    assert Pow256(2) == 256 * Pow256(1);
    assert Pow256(3) == 256 * Pow256(2);
    assert Pow256(4) == 256 * Pow256(3);
    assert Pow256(8) == 256 * 256 * 256 * 256 * Pow256(4);
  }
}
