/** 64-bit integers and `normalize_epoch_ms`, which reads a timestamp given in seconds,
    milliseconds, microseconds or nanoseconds and returns milliseconds. */
module Epoch {

  const I64Min: int := -0x8000_0000_0000_0000
  const I64Max: int := 0x7FFF_FFFF_FFFF_FFFF

  /** Rust's `i64`. */
  type I64 = x: int | I64Min <= x <= I64Max

  /** `i64::saturating_mul`. */
  function SaturatingMul(a: I64, b: I64): I64 {
    var p := a * b;
    if p > I64Max then I64Max else if p < I64Min then I64Min else p
  }

  const SecondsBelow: int := 10_000_000_000
  const MicrosAbove: int := 10_000_000_000_000
  const NanosAbove: int := 10_000_000_000_000_000

  /** `normalize_epoch_ms`. Non-positive values pass through; below 10^10 the value is read
      as seconds, above 10^16 as nanoseconds, above 10^13 as microseconds, and otherwise as
      milliseconds already. */
  function NormalizeEpochMs(value: I64): (r: I64)
    ensures value <= 0 ==> r == value
    // seconds: scaled by 1000, and the saturating multiplication never saturates
    ensures 0 < value < SecondsBelow ==> r == value * 1000
    // microseconds: r is the whole number of milliseconds in value
    ensures MicrosAbove < value <= NanosAbove ==> r * 1000 <= value < (r + 1) * 1000
    // nanoseconds: r is the whole number of milliseconds in value
    ensures NanosAbove < value ==> r * 1_000_000 <= value < (r + 1) * 1_000_000
    ensures SecondsBelow <= value <= MicrosAbove ==> r == value
    // every positive timestamp lands in the same millisecond range
    ensures value > 0 ==> 1000 <= r <= MicrosAbove
  {
    if value <= 0 then value
    else if value < SecondsBelow then SaturatingMul(value, 1000)
    else if value > NanosAbove then value / 1_000_000
    else if value > MicrosAbove then value / 1000
    else value
  }

  /** A timestamp from 10^7 on is a fixed point of a second normalisation: seconds from
      10^7, and every micro- or nanosecond value, already land in the millisecond band. */
  lemma NormalizeEpochMsSettles(value: I64)
    requires value >= 10_000_000
    ensures NormalizeEpochMs(NormalizeEpochMs(value)) == NormalizeEpochMs(value)
  {
    var r := NormalizeEpochMs(value);
    assert SecondsBelow <= r <= MicrosAbove;
  }

  /** Below 10^7 a second normalisation scales again, so the function is not idempotent:
      1 becomes 1000 and then 1000000. */
  lemma NormalizeEpochMsRescalesSmallSeconds(value: I64)
    requires 0 < value < 10_000_000
    ensures NormalizeEpochMs(value) == value * 1000
    ensures NormalizeEpochMs(NormalizeEpochMs(value)) == value * 1_000_000
  {
  }
}
