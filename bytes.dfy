/** Fixed-width integers and the little-endian byte layout that .NET's
    BitConverter uses on the platforms the library targets. */
module Bytes {

  type byte = b: int | 0 <= b < 0x100
  type uint16 = x: int | 0 <= x < 0x1_0000
  type uint32 = x: int | 0 <= x < 0x1_0000_0000
  type uint64 = x: int | 0 <= x < 0x1_0000_0000_0000_0000
  type int16 = x: int | -0x8000 <= x < 0x8000
  type int32 = x: int | -0x8000_0000 <= x < 0x8000_0000
  type int64 = x: int | -0x8000_0000_0000_0000 <= x < 0x8000_0000_0000_0000

  const UINT32_MAX: uint32 := 0xFFFF_FFFF

  /** 256 to the power n: the number of values n bytes can hold. */
  function Pow256(n: nat): (r: nat)
    ensures r >= 1
  {
    if n == 0 then 1 else 256 * Pow256(n - 1)
  }

  lemma Pow256Values()
    ensures Pow256(1) == 0x100
    ensures Pow256(2) == 0x1_0000
    ensures Pow256(4) == 0x1_0000_0000
    ensures Pow256(8) == 0x1_0000_0000_0000_0000
  {
    assert Pow256(2) == 256 * Pow256(1);
    assert Pow256(4) == 256 * (256 * Pow256(2));
    assert Pow256(8) == 256 * (256 * (256 * (256 * Pow256(4))));
  }

  /** The n low-order bytes of v, least significant first
      (BitConverter.GetBytes on a little-endian machine). */
  function LittleEndian(v: nat, n: nat): (r: seq<byte>)
    ensures |r| == n
  {
    if n == 0 then [] else [v % 256] + LittleEndian(v / 256, n - 1)
  }

  /** The unsigned number whose little-endian bytes are s (BitConverter.ToUIntNN). */
  function FromLittleEndian(s: seq<byte>): (r: nat)
    ensures r < Pow256(|s|)
  {
    if s == [] then 0 else s[0] + 256 * FromLittleEndian(s[1..])
  }

  /** Encoding a number that fits in n bytes and decoding it gives it back. */
  lemma {:induction false} LittleEndianRoundTrip(v: nat, n: nat)
    requires v < Pow256(n)
    ensures FromLittleEndian(LittleEndian(v, n)) == v
  {
    if n > 0 {
      var q := v / 256;
      assert v == 256 * q + v % 256;
      assert q < Pow256(n - 1);
      LittleEndianRoundTrip(q, n - 1);
      assert LittleEndian(v, n)[1..] == LittleEndian(q, n - 1);
    }
  }

  /** Decoding n bytes and encoding the number again gives the same bytes. */
  lemma {:induction false} FromLittleEndianRoundTrip(s: seq<byte>)
    ensures LittleEndian(FromLittleEndian(s), |s|) == s
  {
    if s != [] {
      var v := FromLittleEndian(s);
      var rest := FromLittleEndian(s[1..]);
      assert v == s[0] + 256 * rest;
      assert v % 256 == s[0] && v / 256 == rest;
      FromLittleEndianRoundTrip(s[1..]);
      assert LittleEndian(v, |s|) == [s[0]] + LittleEndian(rest, |s| - 1);
      assert s == [s[0]] + s[1..];
    }
  }

  /** The first byte of a little-endian number is its low-order byte. */
  lemma FirstByteIsLow(v: nat, n: nat)
    requires n >= 1
    ensures LittleEndian(v, n)[0] == v % 256
  {
  }

  /** Half the range of n bytes: the bound of a signed n-byte number. */
  function Half(n: nat): (r: nat)
    requires n >= 1
    ensures 2 * r == Pow256(n)
  {
    128 * Pow256(n - 1)
  }

  /** The 2-byte layout spelled out. */
  lemma TwoBytes(s: seq<byte>, v: nat)
    requires |s| == 2
    ensures FromLittleEndian(s) == s[0] as int + 256 * (s[1] as int)
    ensures v < 256 ==> LittleEndian(v, 2) == [v, 0]
  {
    assert s[1..][1..] == [];
    assert LittleEndian(v / 256, 1) == [(v / 256) % 256] + LittleEndian(v / 65536, 0);
  }

  /** Two's-complement bits of a signed number of n bytes (an unchecked C# cast to the unsigned type). */
  function TwosComplement(x: int, n: nat): (r: nat)
    requires n >= 1 && 0 <= x + Half(n) && x < Half(n)
    ensures r < Pow256(n)
  {
    if x < 0 then x + Pow256(n) else x
  }

  /** The signed number whose two's-complement bits are u. */
  function Signed(u: nat, n: nat): (r: int)
    requires n >= 1 && u < Pow256(n)
    ensures 0 <= r + Half(n) && r < Half(n)
  {
    if u >= Half(n) then u - Pow256(n) else u
  }

  lemma SignedRoundTrip(x: int, n: nat)
    requires n >= 1 && 0 <= x + Half(n) && x < Half(n)
    ensures Signed(TwosComplement(x, n), n) == x
  {
  }

  lemma TwosComplementOfSigned(u: nat, n: nat)
    requires n >= 1 && u < Pow256(n)
    ensures TwosComplement(Signed(u, n), n) == u
  {
  }

  /** C#'s unchecked `(uint)` cast of an `int`. */
  function UInt32OfInt(x: int32): (r: uint32)
    ensures x >= 0 ==> r == x
    ensures r == TwosComplement(x, 4)
    ensures Signed(r, 4) == x
  {
    Pow256Values();
    SignedRoundTrip(x, 4);
    if x < 0 then x + 0x1_0000_0000 else x
  }

  /** uint32 subtraction, which wraps around below zero in unchecked C#. */
  function SubUInt32(a: uint32, b: uint32): (r: uint32)
    ensures (r + b) % 0x1_0000_0000 == a
  {
    if b <= a then a - b else a - b + 0x1_0000_0000
  }

  /** An all-zero buffer of n bytes (`new byte[n]`, or one after `Array.Clear`). */
  function Zeros(n: nat): (r: seq<byte>)
    ensures |r| == n && forall i :: 0 <= i < n ==> r[i] == 0
  {
    seq(n, _ => 0)
  }
}
