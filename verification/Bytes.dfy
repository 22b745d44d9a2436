/** Bytes, the fixed-width big-endian fields of `struct`, and little-endian magnitudes. */
module Bytes {
  type byte = b: int | 0 <= b < 256
  type bytes = seq<byte>

  const TWO_16 := 0x1_0000
  const TWO_31 := 0x8000_0000
  const TWO_32 := 0x1_0000_0000

  type u32 = n: int | 0 <= n < TWO_32

  predicate FitsU16(n: int) { 0 <= n < TWO_16 }

  predicate FitsU32(n: int) { 0 <= n < TWO_32 }

  predicate FitsI32(n: int) { -TWO_31 <= n < TWO_31 }

  function U16(n: int): (s: bytes)
    requires FitsU16(n)
    ensures |s| == 2
  {
    [n / 256, n % 256]
  }

  function FromU16(s: bytes): (n: int)
    requires |s| == 2
    ensures FitsU16(n)
  {
    var hi: int, lo: int := s[0], s[1];
    hi * 256 + lo
  }

  function U32(n: int): (s: bytes)
    requires FitsU32(n)
    ensures |s| == 4
  {
    U16(n / TWO_16) + U16(n % TWO_16)
  }

  function FromU32(s: bytes): (n: int)
    requires |s| == 4
    ensures FitsU32(n)
  {
    FromU16(s[..2]) * TWO_16 + FromU16(s[2..])
  }

  /** Two's complement. */
  function I32(n: int): (s: bytes)
    requires FitsI32(n)
    ensures |s| == 4
  {
    U32(if n < 0 then n + TWO_32 else n)
  }

  function FromI32(s: bytes): (n: int)
    requires |s| == 4
    ensures FitsI32(n)
  {
    var m := FromU32(s);
    if m >= TWO_31 then m - TWO_32 else m
  }

  lemma U16Trip(n: int)
    requires FitsU16(n)
    ensures FromU16(U16(n)) == n
  {
  }

  lemma U32Trip(n: int)
    requires FitsU32(n)
    ensures FromU32(U32(n)) == n
  {
    U16Trip(n / TWO_16);
    U16Trip(n % TWO_16);
    assert U32(n)[..2] == U16(n / TWO_16) && U32(n)[2..] == U16(n % TWO_16);
  }

  lemma I32Trip(n: int)
    requires FitsI32(n)
    ensures FromI32(I32(n)) == n
  {
    U32Trip(if n < 0 then n + TWO_32 else n);
  }

  // ---------- int.to_bytes and int.from_bytes, little-endian ----------

  function BitLength(n: nat): nat {
    if n == 0 then 0 else 1 + BitLength(n / 2)
  }

  /** The low `length` digits of `n` in base 256. */
  function ToBytes(n: nat, length: nat): bytes {
    if length == 0 then [] else [n % 256] + ToBytes(n / 256, length - 1)
  }

  function FromBytes(s: bytes): nat {
    if s == [] then 0 else s[0] + 256 * FromBytes(s[1..])
  }

  /** The digits of `n` without leading zeros. */
  function Digits(n: nat): bytes {
    if n == 0 then [] else [n % 256] + Digits(n / 256)
  }

  lemma {:induction false} ByteOfBits(n: nat)
    requires n >= 256
    ensures BitLength(n) == 8 + BitLength(n / 256)
  {
    var n4 := n / 2 / 2 / 2 / 2;
    assert BitLength(n) == 2 + BitLength(n / 2 / 2);
    assert BitLength(n / 2 / 2) == 2 + BitLength(n4);
    assert BitLength(n4) == 2 + BitLength(n4 / 2 / 2);
    assert BitLength(n4 / 2 / 2) == 2 + BitLength(n4 / 2 / 2 / 2 / 2);
    assert n4 / 2 / 2 / 2 / 2 == n / 256;
  }

  lemma SmallBits(n: nat)
    requires 0 < n < 256
    ensures 1 <= BitLength(n) <= 8
  {
    assert BitLength(n) <= 2 + BitLength(n / 2 / 2);
    assert BitLength(n / 2 / 2) <= 2 + BitLength(n / 2 / 2 / 2 / 2);
    assert BitLength(n / 2 / 2 / 2 / 2) <= 2 + BitLength(n / 2 / 2 / 2 / 2 / 2 / 2);
    assert BitLength(n / 2 / 2 / 2 / 2 / 2 / 2) <= 2;
  }

  /** Rounding the bit length up to bytes leaves exactly the digits without leading zeros. */
  lemma {:induction false} WholeBytes(n: nat)
    ensures |Digits(n)| == (BitLength(n) + 7) / 8
    ensures ToBytes(n, (BitLength(n) + 7) / 8) == Digits(n)
  {
    if n >= 256 {
      ByteOfBits(n);
      WholeBytes(n / 256);
    } else if n > 0 {
      SmallBits(n);
      assert Digits(n / 256) == [];
    }
  }

  lemma {:induction false} DigitsTrip(n: nat)
    ensures FromBytes(Digits(n)) == n
    ensures n > 0 ==> Digits(n) != [] && Digits(n)[|Digits(n)| - 1] != 0
  {
    if n > 0 {
      DigitsTrip(n / 256);
      assert Digits(n)[1..] == Digits(n / 256);
    }
  }

  /** No digit string for `n` is shorter. */
  lemma {:induction false} DigitsAreShortest(s: bytes)
    ensures |Digits(FromBytes(s))| <= |s|
  {
    if s != [] {
      DigitsAreShortest(s[1..]);
      assert FromBytes(s) / 256 == FromBytes(s[1..]);
    }
  }
}
