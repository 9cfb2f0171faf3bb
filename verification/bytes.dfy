/** Byte strings: octets, powers of 256, little-endian unsigned integers and
    the UTF-8 encoding Python's `str.encode("utf-8")` produces. */
module Bytes {

  /** One octet of a Python `bytes` object. */
  type byte = b: int | 0 <= b < 256

  /** 256^n, the number of values an n-byte field can hold. */
  function Pow256(n: nat): (r: nat)
    ensures r > 0
  {
    if n == 0 then 1 else 256 * Pow256(n - 1)
  }

  const U32_LIMIT: nat := 0x1_0000_0000
  const U64_LIMIT: nat := 0x1_0000_0000_0000_0000
  const I64_MIN: int := -0x8000_0000_0000_0000
  const I64_LIMIT: int := 0x8000_0000_0000_0000

  lemma Pow256Limits()
    ensures Pow256(4) == U32_LIMIT
    ensures Pow256(8) == U64_LIMIT
  {
  }

  /** The n-byte little-endian encoding of x: `x.to_bytes(n, "little")`. */
  function LeBytes(x: nat, n: nat): (r: seq<byte>)
    requires x < Pow256(n)
    ensures |r| == n
  {
    if n == 0 then [] else [x % 256] + LeBytes(x / 256, n - 1)
  }

  /** The unsigned integer a little-endian byte string denotes. */
  function LeValue(bs: seq<byte>): (v: nat)
    ensures v < Pow256(|bs|)
  {
    if bs == [] then 0 else bs[0] + 256 * LeValue(bs[1..])
  }

  /** Decoding an encoding recovers the integer. */
  lemma {:induction false} LeValueOfBytes(x: nat, n: nat)
    requires x < Pow256(n)
    ensures LeValue(LeBytes(x, n)) == x
  {
    if n > 0 {
      var r := LeBytes(x, n);
      assert r[0] == x % 256;
      assert r[1..] == LeBytes(x / 256, n - 1);
      LeValueOfBytes(x / 256, n - 1);
    }
  }

  /** Encoding a decoded string at its own width gives the string back. */
  lemma {:induction false} LeBytesOfValue(bs: seq<byte>)
    ensures LeBytes(LeValue(bs), |bs|) == bs
  {
    if bs != [] {
      var v := LeValue(bs);
      var rest := LeValue(bs[1..]);
      assert v == bs[0] + 256 * rest;
      assert v % 256 == bs[0];
      assert v / 256 == rest;
      LeBytesOfValue(bs[1..]);
    }
  }

  /** Two integers with the same n-byte encoding are equal. */
  lemma LeBytesInjective(x: nat, y: nat, n: nat)
    requires x < Pow256(n) && y < Pow256(n)
    requires LeBytes(x, n) == LeBytes(y, n)
    ensures x == y
  {
    LeValueOfBytes(x, n);
    LeValueOfBytes(y, n);
  }

  /** The UTF-8 encoding of one Unicode scalar value. */
  function Utf8Char(c: char): (r: seq<byte>)
    ensures 1 <= |r| <= 4
    ensures |r| == 1 <==> c as int < 0x80
    ensures |r| == 1 ==> r[0] == c as int
  {
    var cp := c as int;
    if cp < 0x80 then [cp]
    else if cp < 0x800 then [0xC0 + cp / 0x40, 0x80 + cp % 0x40]
    else if cp < 0x1_0000 then [0xE0 + cp / 0x1000, 0x80 + (cp / 0x40) % 0x40, 0x80 + cp % 0x40]
    else [0xF0 + cp / 0x4_0000, 0x80 + (cp / 0x1000) % 0x40, 0x80 + (cp / 0x40) % 0x40, 0x80 + cp % 0x40]
  }

  /** `s.encode("utf-8")`. */
  function Utf8(s: string): (r: seq<byte>)
    ensures |s| <= |r| <= 4 * |s|
  {
    if s == [] then [] else Utf8Char(s[0]) + Utf8(s[1..])
  }

  predicate IsAscii(s: string) {
    forall i :: 0 <= i < |s| ==> s[i] as int < 0x80
  }

  /** An ASCII string encodes to one byte per character, each its code point;
      this is also what a Python `b"..."` literal holds. */
  lemma {:induction false} Utf8OfAscii(s: string)
    requires IsAscii(s)
    ensures |Utf8(s)| == |s|
    ensures forall i :: 0 <= i < |s| ==> Utf8(s)[i] == s[i] as int
  {
    if s != [] {
      assert IsAscii(s[1..]) by {
        forall i | 0 <= i < |s[1..]| ensures s[1..][i] as int < 0x80 {
          assert s[1..][i] == s[i + 1];
        }
      }
      Utf8OfAscii(s[1..]);
      assert Utf8(s) == [s[0] as int] + Utf8(s[1..]);
    }
  }

  /** An ASCII string encodes to the byte string holding its code points. */
  lemma Utf8OfAsciiBytes(s: string, b: seq<byte>)
    requires |s| == |b|
    requires forall i :: 0 <= i < |s| ==> s[i] as int == b[i] < 0x80
    ensures Utf8(s) == b
  {
    Utf8OfAscii(s);
  }
}
