/** The few facts about Python floats that the controller depends on.
    Durations arrive as floats (`float(sec_str)`, `auto_water_seconds`); the
    controller only compares them with zero and hands them to the scheduler's
    timed wait.  Decimal-to-binary conversion and rounding are not modelled:
    a finite float is an exact real. */
module Floats {

  datatype Float = Finite(value: real) | Infinity(negative: bool) | NaN

  /** Python `f <= 0`.  Every comparison with NaN is false. */
  predicate AtMostZero(f: Float) {
    match f
    case Finite(r) => r <= 0.0
    case Infinity(neg) => neg
    case NaN => false
  }

  /** Python `f < 0`. */
  predicate BelowZero(f: Float) {
    match f
    case Finite(r) => r < 0.0
    case Infinity(neg) => neg
    case NaN => false
  }

  /** Whether the scheduler's timed wait accepts `f`: it converts the
      duration to whole milliseconds, which raises for an infinite or NaN
      duration. */
  predicate WaitAccepts(f: Float) {
    f.Finite?
  }
}
