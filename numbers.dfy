/**
 * Java's primitive numbers as far as the feed decoder and the colour bucket use them.
 * A double is idealised as an exact real; NaN is kept as its own value because it is
 * the fallback of JSONObject.optDouble.
 */
module Numbers {

  const LONG_MIN: int := -0x8000_0000_0000_0000
  const LONG_MAX: int := 0x7FFF_FFFF_FFFF_FFFF
  const INT_MIN: int := -0x8000_0000
  const INT_MAX: int := 0x7FFF_FFFF

  /** A Java double: a finite value (as an exact real) or NaN. */
  datatype Double = Finite(value: real) | NaN

  /** Truncation of a real toward zero, as Java's casts from floating point do. */
  function TruncateTowardZero(x: real): (r: int)
    ensures x >= 0.0 ==> r as real <= x < r as real + 1.0
    ensures x < 0.0 ==> r as real - 1.0 < x <= r as real
  {
    if x >= 0.0 then x.Floor else -((-x).Floor)
  }

  /** Clamps an integer into [lo, hi]: Java's casts from floating point saturate. */
  function Saturate(n: int, lo: int, hi: int): (r: int)
    requires lo <= hi
    ensures lo <= r <= hi
    ensures lo <= n <= hi ==> r == n
    ensures n < lo ==> r == lo
    ensures n > hi ==> r == hi
  {
    if n < lo then lo else if n > hi then hi else n
  }

  /** The Java cast (long) d for a finite d: toward zero, then saturating at the long range. */
  function ToLong(x: real): (r: int)
    ensures LONG_MIN <= r <= LONG_MAX
    ensures x == x.Floor as real && LONG_MIN <= x.Floor <= LONG_MAX ==> r == x.Floor
    ensures x >= 0.0 && x.Floor <= LONG_MAX ==> r == x.Floor
    ensures x < 0.0 && -((-x).Floor) >= LONG_MIN ==> r == -((-x).Floor)
    ensures x.Floor > LONG_MAX ==> r == LONG_MAX
    ensures x < LONG_MIN as real ==> r == LONG_MIN
  {
    Saturate(TruncateTowardZero(x), LONG_MIN, LONG_MAX)
  }

  /** The Java expression (int) Math.floor(d): NaN becomes 0, the rest saturates at the int range. */
  function FloorToInt(d: Double): (r: int)
    ensures INT_MIN <= r <= INT_MAX
    ensures d.NaN? ==> r == 0
    ensures d.Finite? && INT_MIN <= d.value.Floor <= INT_MAX ==> r == d.value.Floor
    ensures d.Finite? && d.value.Floor < INT_MIN ==> r == INT_MIN
    ensures d.Finite? && d.value.Floor > INT_MAX ==> r == INT_MAX
  {
    match d
    case NaN => 0
    case Finite(x) => Saturate(x.Floor, INT_MIN, INT_MAX)
  }
}
