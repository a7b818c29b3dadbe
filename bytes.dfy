/** Byte encodings used in account seeds: the little-endian bytes of an
    integer (Rust's `to_le_bytes`) and the concatenation of a seed list,
    which is what an account address is derived from. */
module Bytes {
  import opened Ints

  function Pow256(n: nat): (r: nat)
    ensures r >= 1
  {
    if n == 0 then 1 else 256 * Pow256(n - 1)
  }

  /** The `n` low bytes of `u`, least significant first. */
  function LeBytes(u: nat, n: nat): (bs: seq<u8>)
    ensures |bs| == n
  {
    if n == 0 then [] else [u % 256] + LeBytes(u / 256, n - 1)
  }

  /** The unsigned value of little-endian bytes. */
  function FromLeBytes(bs: seq<u8>): (u: nat)
    ensures u < Pow256(|bs|)
  {
    if |bs| == 0 then 0 else bs[0] + 256 * FromLeBytes(bs[1..])
  }

  lemma {:induction false} LeBytesRoundTrip(u: nat, n: nat)
    requires u < Pow256(n)
    ensures FromLeBytes(LeBytes(u, n)) == u
  {
    if n > 0 {
      var q, r := u / 256, u % 256;
      assert u == q * 256 + r;
      var bs := LeBytes(u, n);
      assert bs[0] == r;
      assert bs[1..] == LeBytes(q, n - 1);
      LeBytesRoundTrip(q, n - 1);
    }
  }

  /** `x.to_le_bytes()` for an i64: the two's-complement bit pattern. */
  function I64LeBytes(x: i64): (bs: seq<u8>)
    ensures |bs| == 8
  {
    LeBytes(x % U64_LIMIT, 8)
  }

  /** Distinct i64 values have distinct byte patterns. */
  lemma I64LeBytesInjective(x: i64, y: i64)
    requires I64LeBytes(x) == I64LeBytes(y)
    ensures x == y
  {
    assert Pow256(8) == U64_LIMIT;
    LeBytesRoundTrip(x % U64_LIMIT, 8);
    LeBytesRoundTrip(y % U64_LIMIT, 8);
  }

  /** The seeds laid end to end. */
  function Concat(seeds: seq<seq<u8>>): (bs: seq<u8>)
    ensures seeds == [] ==> bs == []
  {
    if seeds == [] then [] else seeds[0] + Concat(seeds[1..])
  }

  // ASCII seed prefixes
  const EVENT_SEED: seq<u8> := [0x65, 0x76, 0x65, 0x6e, 0x74]  // "event"
  const ORDER_SEED: seq<u8> := [0x6f, 0x72, 0x64, 0x65, 0x72]  // "order"
  const EVENT_CONFIG_SEED: seq<u8> :=                          // "event_config"
    [0x65, 0x76, 0x65, 0x6e, 0x74, 0x5f, 0x63, 0x6f, 0x6e, 0x66, 0x69, 0x67]

  lemma Concat4(a: seq<u8>, b: seq<u8>, c: seq<u8>, d: seq<u8>)
    ensures Concat([a, b, c, d]) == a + b + c + d
  {
    assert [d][1..] == [];
    assert Concat([d]) == d;
    assert [c, d][1..] == [d];
    assert Concat([c, d]) == c + d;
    assert [b, c, d][1..] == [c, d];
    assert Concat([b, c, d]) == b + (c + d);
    assert [a, b, c, d][1..] == [b, c, d];
  }

  lemma Concat5(a: seq<u8>, b: seq<u8>, c: seq<u8>, d: seq<u8>, e: seq<u8>)
    ensures Concat([a, b, c, d, e]) == a + b + c + d + e
  {
    assert [a, b, c, d, e][1..] == [b, c, d, e];
    Concat4(b, c, d, e);
  }
}
