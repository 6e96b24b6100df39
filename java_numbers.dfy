/** Java's fixed-width integer arithmetic, written out where the caching engine depends on it. */
module JavaNumbers {

  const INT_MAX: int := 0x7fff_ffff
  const INT_MIN: int := -0x8000_0000
  const LONG_MAX: int := 0x7fff_ffff_ffff_ffff
  const LONG_MIN: int := -0x8000_0000_0000_0000

  predicate IsLong(x: int) {
    LONG_MIN <= x <= LONG_MAX
  }

  predicate IsInt(x: int) {
    INT_MIN <= x <= INT_MAX
  }

  /** Java's `/` on integers: the quotient is truncated toward zero. */
  function JavaDiv(a: int, b: int): (q: int)
    requires b > 0
    ensures a >= 0 ==> q == a / b
    ensures a < 0 ==> q == -((-a) / b)
  {
    if a >= 0 then a / b else -((-a) / b)
  }

  /** Two's-complement wrap-around of an integer to 32 bits, as Java's int arithmetic does. */
  function ToInt32(x: int): (r: int)
    ensures IsInt(r)
    ensures (r - x) % 0x1_0000_0000 == 0
    ensures IsInt(x) ==> r == x
  {
    var m := x % 0x1_0000_0000;
    if m > INT_MAX then m - 0x1_0000_0000 else m
  }

  /** String.hashCode: h = 31 * h + c over the UTF-16 code units, in int arithmetic. */
  function StringHashCode(s: string): (h: int)
    ensures IsInt(h)
    decreases |s|
  {
    if s == [] then 0 else ToInt32(31 * StringHashCode(s[..|s| - 1]) + s[|s| - 1] as int)
  }
}
