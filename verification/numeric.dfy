/** Kotlin `Long` range and the JVM's truncating integer division. */
module Numeric {

  const LongMin: int := -0x8000_0000_0000_0000
  const LongMax: int := 0x7fff_ffff_ffff_ffff

  /** True iff `x` is representable as a Kotlin `Long`. */
  predicate IsLong(x: int) {
    LongMin <= x <= LongMax
  }

  /** JVM `a / b`: the quotient is rounded toward zero. */
  function Quot(a: int, b: int): (q: int)
    requires b > 0
    ensures a >= 0 ==> q == a / b
    ensures a < 0 ==> q == -((-a) / b)
  {
    if a >= 0 then a / b else -((-a) / b)
  }

  /** JVM `a % b`: the remainder takes the sign of the dividend. */
  function Rem(a: int, b: int): (r: int)
    requires b > 0
    ensures a == Quot(a, b) * b + r
    ensures a >= 0 ==> 0 <= r < b
    ensures a < 0 ==> -b < r <= 0
  {
    a - Quot(a, b) * b
  }

  function Min(a: int, b: int): int { if a <= b then a else b }

  function Max(a: int, b: int): int { if a >= b then a else b }
}
