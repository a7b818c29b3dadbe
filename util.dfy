/** programs/solora-pyth-price/src/util.rs: key comparisons and the
    normalisation of a fixed-point oracle price. The token and lamport
    transfer helpers are not part of this model. */
module Util {
  import opened Ints
  import opened Errors

  /** A 32-byte public key. */
  type Pubkey = k: seq<u8> | |k| == 32 witness seq(32, _ => 0)

  /** The all-zero key of a freshly allocated account field. */
  const ZERO_KEY: Pubkey := [0, 0, 0, 0, 0, 0, 0, 0, 0, 0, 0, 0, 0, 0, 0, 0, 0, 0, 0, 0, 0, 0, 0, 0, 0, 0, 0, 0, 0, 0, 0, 0]

  /** The wrapped-SOL mint, So11111111111111111111111111111111111111112. */
  const NATIVE_MINT: Pubkey := [
    0x06, 0x9b, 0x88, 0x57, 0xfe, 0xab, 0x81, 0x84, 0xfb, 0x68, 0x7f, 0x63, 0x46, 0x18, 0xc0, 0x35,
    0xda, 0xc4, 0x39, 0xdc, 0x1a, 0xeb, 0x3b, 0x55, 0x98, 0xa0, 0xf0, 0x00, 0x00, 0x00, 0x00, 0x01]

  /** A price reported by the oracle: the value is `price * 10^expo`. */
  datatype PriceReading = PriceReading(price: i64, expo: i32)

  /** `is_native_mint`: a round in the native mint is paid in lamports. */
  predicate IsNativeMint(key: Pubkey) {
    key == NATIVE_MINT
  }

  /** `(expo * -1) as u8`: the negation overflows for i32::MIN; the cast
      keeps the low 8 bits. */
  function FeedDecimals(expo: i32): (r: Result<u8>)
    ensures r.Err? <==> expo == I32_MIN
    ensures r.Err? ==> r.error == Panic
    ensures -0xff <= expo <= 0 ==> r == Ok(-expo)
    ensures r.Ok? ==> (r.value + expo) % 0x100 == 0
  {
    if expo == I32_MIN then Err(Panic) else Ok((-expo) % 0x100)
  }

  /** The number of decimal digits dropped when a feed with `feedDecimals`
      decimals is brought down to `target` decimals. */
  function PowerChange(feedDecimals: u8, target: u8): (k: nat)
    ensures feedDecimals <= target ==> k == 0
    ensures feedDecimals > target ==> feedDecimals == target + k
  {
    if feedDecimals > target then feedDecimals - target else 0
  }

  /** get_price_with_decimal_change: keeps at most `target` decimals of
      the non-negative price `price * 10^expo`, truncating. The oracle's
      exponent is not trusted: an exponent of i32::MIN, or one that asks
      for 10^k beyond u128, aborts. */
  function PriceWithDecimalChange(price: i64, expo: i32, target: u8): (r: Result<u64>)
    requires price >= 0
    ensures r.Err? ==> r.error == Panic
    ensures -38 <= expo <= 0 ==> r.Ok?
    ensures r.Ok? ==> r.value <= price
    ensures r.Ok? ==> expo != I32_MIN
    ensures r.Ok? ==> r.value * Divisor(expo, target) <= price < (r.value + 1) * Divisor(expo, target)
    ensures FeedDecimals(expo).Ok? && FeedDecimals(expo).value <= target ==> r == Ok(price)
  {
    if expo == I32_MIN then
      Err(Panic)
    else
      var power := Divisor(expo, target);
      NormaliseBounds(expo, target);
      if power >= U128_LIMIT then
        Err(Panic)
      else
        FloorDivAtMost(price, power);
        Ok(FloorDiv(price, power))
  }

  /** The power of ten the price is divided by. */
  function Divisor(expo: i32, target: u8): (d: nat)
    requires expo != I32_MIN
    ensures d >= 1
  {
    Pow10(PowerChange(FeedDecimals(expo).value, target))
  }

  lemma NormaliseBounds(expo: i32, target: u8)
    requires expo != I32_MIN
    ensures -38 <= expo <= 0 ==> Divisor(expo, target) < U128_LIMIT
    ensures FeedDecimals(expo).value <= target ==> Divisor(expo, target) == 1
  {
    if -38 <= expo <= 0 {
      Pow10Monotone(PowerChange(FeedDecimals(expo).value, target), 38);
      Pow10U128Bound();
    }
  }

  /** For a fixed exponent and target, normalisation preserves the order of
      prices, so comparing normalised prices compares the prices. */
  lemma PriceWithDecimalChangeMonotone(a: i64, b: i64, expo: i32, target: u8)
    requires 0 <= a <= b
    requires PriceWithDecimalChange(a, expo, target).Ok?
    ensures PriceWithDecimalChange(b, expo, target).Ok?
    ensures PriceWithDecimalChange(a, expo, target).value <= PriceWithDecimalChange(b, expo, target).value
  {
    FloorDivMonotone(a, b, Divisor(expo, target));
  }
}
