/** Fixed-width integer ranges of the Rust program. Values are unbounded
    Dafny integers restricted by subset types; a wrap-around, a truncating
    cast or an overflow check is always written out where it happens. */
module Ints {
  const U8_LIMIT: int := 0x100
  const U32_LIMIT: int := 0x1_0000_0000
  const U64_LIMIT: int := 0x1_0000_0000_0000_0000
  const U128_LIMIT: int := 0x1_0000_0000_0000_0000_0000_0000_0000_0000
  const I32_MIN: int := -0x8000_0000
  const I32_LIMIT: int := 0x8000_0000
  const I64_MIN: int := -0x8000_0000_0000_0000
  const I64_LIMIT: int := 0x8000_0000_0000_0000

  type u8 = x: int | 0 <= x < 0x100
  type u32 = x: int | 0 <= x < 0x1_0000_0000
  type u64 = x: int | 0 <= x < 0x1_0000_0000_0000_0000
  type u128 = x: int | 0 <= x < 0x1_0000_0000_0000_0000_0000_0000_0000_0000
  type i32 = x: int | -0x8000_0000 <= x < 0x8000_0000
  type i64 = x: int | -0x8000_0000_0000_0000 <= x < 0x8000_0000_0000_0000

  /** `x as u64` for a non-negative value: keeps the low 64 bits. */
  function TruncateU64(x: nat): (r: u64)
    ensures x < U64_LIMIT ==> r == x
    ensures r <= x
    // the bits dropped are a multiple of 2^64
    ensures (x - r) % U64_LIMIT == 0
  {
    x % U64_LIMIT
  }

  /** 10^k, unbounded. */
  function Pow10(k: nat): (r: nat)
    ensures r >= 1
  {
    if k == 0 then 1 else 10 * Pow10(k - 1)
  }

  lemma {:induction false} Pow10Add(a: nat, b: nat)
    ensures Pow10(a + b) == Pow10(a) * Pow10(b)
  {
    if a > 0 {
      Pow10Add(a - 1, b);
    }
  }

  /** 10^38 is the largest power of ten a u128 holds. */
  lemma Pow10U128Bound()
    ensures Pow10(38) < U128_LIMIT <= Pow10(39)
  {
    assert Pow10(2) == 100;
    Pow10Add(2, 2);
    Pow10Add(4, 4);
    Pow10Add(8, 8);
    Pow10Add(16, 16);
    Pow10Add(32, 4);
    Pow10Add(36, 2);
    Pow10Add(38, 1);
  }

  lemma {:induction false} Pow10Monotone(j: nat, k: nat)
    requires j <= k
    ensures Pow10(j) <= Pow10(k)
  {
    if j < k {
      Pow10Monotone(j, k - 1);
    }
  }

  /** Unsigned integer division, which truncates, characterised without
      division. */
  function FloorDiv(x: nat, d: nat): (q: nat)
    requires d > 0
    ensures q * d <= x < (q + 1) * d
  {
    var q := x / d;
    DivBounds(x, d);
    assert q * d <= x < (q + 1) * d;
    q
  }

  lemma DivBounds(x: nat, d: nat)
    requires d > 0
    ensures (x / d) * d <= x < (x / d + 1) * d
  {
    assert x == (x / d) * d + x % d;
  }

  lemma MulMonotone(q: nat, a: nat, b: nat)
    requires a <= b
    ensures q * a <= q * b
  {
    assert q * b == q * a + q * (b - a);
  }

  lemma FloorDivAtMost(x: nat, d: nat)
    requires d > 0
    ensures FloorDiv(x, d) <= x
    ensures d == 1 ==> FloorDiv(x, d) == x
  {
    var q := FloorDiv(x, d);
    MulMonotone(q, 1, d);
  }

  lemma FloorDivMonotone(a: nat, b: nat, d: nat)
    requires a <= b && d > 0
    ensures FloorDiv(a, d) <= FloorDiv(b, d)
  {
    var qa, qb := FloorDiv(a, d), FloorDiv(b, d);
    // qa * d <= a <= b < (qb + 1) * d, so qa < qb + 1
    if qa > qb {
      MulMonotone(d, qb + 1, qa);
    }
  }

  lemma MulNonNegative(a: nat, b: nat)
    ensures 0 <= a * b
  {
  }

  /** A product with a positive factor determines the order of the others. */
  lemma MulCancelLe(a: nat, b: nat, d: nat)
    requires d > 0 && a * d <= b * d
    ensures a <= b
  {
    if a > b {
      MulMonotone(d, b + 1, a);
    }
  }

  /** `(x / d) as u64`: the truncated quotient still divides from below, and
      is the exact quotient when that fits in 64 bits. */
  lemma FloorDivTruncated(x: nat, d: nat)
    requires d > 0
    ensures TruncateU64(FloorDiv(x, d)) * d <= x
    ensures x < U64_LIMIT * d ==> TruncateU64(FloorDiv(x, d)) == FloorDiv(x, d)
    ensures (FloorDiv(x, d) - TruncateU64(FloorDiv(x, d))) % U64_LIMIT == 0
  {
    var q := FloorDiv(x, d);
    MulMonotone(d, TruncateU64(q), q);
    if q >= U64_LIMIT {
      MulMonotone(d, U64_LIMIT, q);
    }
  }
}
