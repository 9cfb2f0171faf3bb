/** The Borsh primitives the claim program's layouts are made of, as the
    Python `borsh_construct` library builds and parses them: fixed-width
    little-endian integers, fixed-length byte arrays (`U8[32]`) and
    length-prefixed vectors (`Vec`). Building raises on a value that does not
    fit its field; parsing raises when the stream runs out, and ignores any
    bytes after the last field. */
module Borsh {
  import opened Bytes
  import opened Results

  /** Width of a `U8[32]` hash array. */
  const HASH_LEN: nat := 32

  datatype BuildError =
    | IntegerOutOfRange(value: int, width: nat)
    | ArrayLengthMismatch(expected: nat, actual: nat)

  /** Building an unsigned field of `width` bytes (U32: 4, U64: 8). */
  function BuildUnsigned(x: int, width: nat): (r: Result<seq<byte>, BuildError>)
    ensures r.Ok? <==> 0 <= x < Pow256(width)
    ensures r.Ok? ==> |r.value| == width && LeValue(r.value) == x
    ensures r.Err? ==> r.error == IntegerOutOfRange(x, width)
  {
    if 0 <= x < Pow256(width) then
      LeValueOfBytes(x, width);
      Ok(LeBytes(x, width))
    else
      Err(IntegerOutOfRange(x, width))
  }

  /** Parsing an unsigned field of `width` bytes from the head of a stream. */
  function ParseUnsigned(bs: seq<byte>, width: nat): (r: Option<nat>)
    ensures r.Some? <==> |bs| >= width
    ensures r.Some? ==> r.value < Pow256(width) && BuildUnsigned(r.value, width) == Ok(bs[..width])
  {
    if |bs| < width then None
    else
      LeBytesOfValue(bs[..width]);
      Some(LeValue(bs[..width]))
  }

  /** Building an `I64`: two's complement in eight little-endian bytes. */
  function BuildI64(x: int): (r: Result<seq<byte>, BuildError>)
    ensures r.Ok? <==> I64_MIN <= x < I64_LIMIT
    ensures r.Ok? ==> |r.value| == 8
    ensures r.Ok? && x >= 0 ==> LeValue(r.value) == x
    ensures r.Ok? && x < 0 ==> LeValue(r.value) == x + U64_LIMIT
  {
    Pow256Limits();
    if I64_MIN <= x < I64_LIMIT then
      var bits := if x < 0 then x + U64_LIMIT else x;
      LeValueOfBytes(bits, 8);
      Ok(LeBytes(bits, 8))
    else
      Err(IntegerOutOfRange(x, 8))
  }

  /** Parsing an `I64` from the head of a stream. */
  function ParseI64(bs: seq<byte>): (r: Option<int>)
    ensures r.Some? <==> |bs| >= 8
    ensures r.Some? ==> I64_MIN <= r.value < I64_LIMIT && BuildI64(r.value) == Ok(bs[..8])
  {
    Pow256Limits();
    if |bs| < 8 then None
    else
      var bits := LeValue(bs[..8]);
      LeBytesOfValue(bs[..8]);
      Some(if bits < I64_LIMIT then bits else bits - U64_LIMIT)
  }

  /** Round trip: parsing what an unsigned build wrote gives the integer back. */
  lemma ParseBuildUnsigned(x: int, width: nat)
    requires BuildUnsigned(x, width).Ok?
    ensures ParseUnsigned(BuildUnsigned(x, width).value, width) == Some(x)
  {
    var bs := BuildUnsigned(x, width).value;
    assert bs[..width] == bs;
  }

  /** Round trip: parsing what an I64 build wrote gives the integer back,
      negative values included. */
  lemma ParseBuildI64(x: int)
    requires BuildI64(x).Ok?
    ensures ParseI64(BuildI64(x).value) == Some(x)
  {
    var bs := BuildI64(x).value;
    assert bs[..8] == bs;
    var y := ParseI64(bs).value;
    assert BuildI64(y) == Ok(bs);
    I64Injective(x, y);
  }

  /** Two's complement encoding is one-to-one on the I64 range. */
  lemma I64Injective(x: int, y: int)
    requires I64_MIN <= x < I64_LIMIT && I64_MIN <= y < I64_LIMIT
    requires BuildI64(x) == BuildI64(y)
    ensures x == y
  {
    Pow256Limits();
  }

  /** The bytes of a sequence of arrays laid end to end. */
  function Flatten(xs: seq<seq<byte>>): seq<byte> {
    if xs == [] then [] else xs[0] + Flatten(xs[1..])
  }

  /** All elements are exactly `HASH_LEN` bytes: what a `U8[32]` array accepts. */
  predicate AllHashes(xs: seq<seq<byte>>) {
    forall i :: 0 <= i < |xs| ==> |xs[i]| == HASH_LEN
  }

  /** Building the elements of a `Vec(U8[32])` one after another; the first
      element of the wrong length aborts the build. */
  function BuildHashes(xs: seq<seq<byte>>): (r: Result<seq<byte>, BuildError>)
    ensures r.Ok? <==> AllHashes(xs)
    ensures r.Ok? ==> r.value == Flatten(xs) && |r.value| == HASH_LEN * |xs|
  {
    if xs == [] then Ok([])
    else if |xs[0]| != HASH_LEN then Err(ArrayLengthMismatch(HASH_LEN, |xs[0]|))
    else
      var rest :- BuildHashes(xs[1..]);
      assert AllHashes(xs) by {
        forall i | 0 <= i < |xs| ensures |xs[i]| == HASH_LEN {
          if i > 0 { assert xs[i] == xs[1..][i - 1]; }
        }
      }
      Ok(xs[0] + rest)
  }

  /** Building a `Vec(U8[32])`: a U32 element count, then the elements. */
  function BuildHashVec(xs: seq<seq<byte>>): (r: Result<seq<byte>, BuildError>)
    ensures r.Ok? <==> |xs| < U32_LIMIT && AllHashes(xs)
    ensures r.Ok? ==> |r.value| == 4 + HASH_LEN * |xs|
    ensures r.Ok? ==> LeValue(r.value[..4]) == |xs| && r.value[4..] == Flatten(xs)
  {
    Pow256Limits();
    var count :- BuildUnsigned(|xs|, 4);
    var body :- BuildHashes(xs);
    assert (count + body)[..4] == count;
    Ok(count + body)
  }

  /** Parsing `n` consecutive `U8[32]` arrays from the head of a stream. */
  function ParseHashes(bs: seq<byte>, n: nat): (r: Option<seq<seq<byte>>>)
    ensures r.Some? <==> |bs| >= HASH_LEN * n
    ensures r.Some? ==> |r.value| == n && AllHashes(r.value)
    ensures r.Some? ==> forall i :: 0 <= i < n ==> r.value[i] == bs[HASH_LEN * i .. HASH_LEN * i + HASH_LEN]
  {
    if n == 0 then Some([])
    else if |bs| < HASH_LEN then None
    else
      match ParseHashes(bs[HASH_LEN..], n - 1)
      case None => None
      case Some(rest) =>
        var xs := [bs[..HASH_LEN]] + rest;
        assert forall i :: 0 < i < n ==> xs[i] == bs[HASH_LEN * i .. HASH_LEN * i + HASH_LEN] by {
          forall i | 0 < i < n ensures xs[i] == bs[HASH_LEN * i .. HASH_LEN * i + HASH_LEN] {
            assert xs[i] == rest[i - 1];
            assert HASH_LEN * i == HASH_LEN * (i - 1) + HASH_LEN;
          }
        }
        Some(xs)
  }

  /** Parsing the elements back out of their concatenation recovers them,
      whatever follows in the stream. */
  lemma {:induction false} ParseHashesOfFlatten(xs: seq<seq<byte>>, tail: seq<byte>)
    requires AllHashes(xs)
    ensures ParseHashes(Flatten(xs) + tail, |xs|) == Some(xs)
  {
    if xs != [] {
      var bs := Flatten(xs) + tail;
      assert AllHashes(xs[1..]) by {
        forall i | 0 <= i < |xs[1..]| ensures |xs[1..][i]| == HASH_LEN {
          assert xs[1..][i] == xs[i + 1];
        }
      }
      ParseHashesOfFlatten(xs[1..], tail);
      assert bs == xs[0] + (Flatten(xs[1..]) + tail);
      assert bs[..HASH_LEN] == xs[0];
      assert bs[HASH_LEN..] == Flatten(xs[1..]) + tail;
      assert [xs[0]] + xs[1..] == xs;
    }
  }

  /** The `n` arrays parsed from a stream, laid end to end, are the first
      `HASH_LEN * n` bytes of that stream. */
  lemma {:induction false} FlattenOfParseHashes(bs: seq<byte>, n: nat)
    requires |bs| >= HASH_LEN * n
    ensures Flatten(ParseHashes(bs, n).value) == bs[..HASH_LEN * n]
  {
    if n > 0 {
      var xs := ParseHashes(bs, n).value;
      FlattenOfParseHashes(bs[HASH_LEN..], n - 1);
      assert xs[1..] == ParseHashes(bs[HASH_LEN..], n - 1).value;
      assert bs[..HASH_LEN * n] == bs[..HASH_LEN] + bs[HASH_LEN..][..HASH_LEN * (n - 1)];
    }
  }
}
