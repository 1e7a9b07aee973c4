/**
 * The C conversions and integer operators the host code relies on, written out
 * over Dafny's unbounded `int` and exact `real`.
 */
module CNumerics {

  /** An 8-bit unsigned channel value, `png_byte`. */
  newtype Byte = x: int | 0 <= x < 256

  /** The C cast `(int) x` of a floating value: truncation toward zero. */
  function FloatToInt(x: real): (n: int)
    ensures x >= 0.0 ==> n as real <= x < n as real + 1.0
    ensures x < 0.0 ==> n as real - 1.0 < x <= n as real
  {
    if x >= 0.0 then x.Floor else -((-x).Floor)
  }

  /** C integer division `a / b` for a positive divisor: the quotient is truncated toward zero. */
  function CDiv(a: int, b: int): int
    requires b > 0
  {
    if a >= 0 then a / b else -((-a) / b)
  }

  /** C remainder `a % b` for a positive divisor: it takes the sign of the dividend. */
  function CRem(a: int, b: int): (r: int)
    requires b > 0
    ensures a == CDiv(a, b) * b + r
    ensures a >= 0 ==> 0 <= r < b
    ensures a < 0 ==> -b < r <= 0
  {
    if a >= 0 then a % b else -((-a) % b)
  }

  /** The implicit C conversion of an `int` to `png_byte`: reduction modulo 256. */
  function ToByte(v: int): (b: Byte)
    ensures (v - b as int) % 256 == 0
    ensures 0 <= v < 256 ==> b as int == v
  {
    (v % 256) as Byte
  }
}
