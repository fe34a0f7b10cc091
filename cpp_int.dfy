/** C++ `int` arithmetic that the readers rely on.
    Dafny's `/` and `%` are Euclidean; C++ truncates toward zero. The two agree on
    non-negative operands, and the readers only ever divide by a positive process
    count, so only a positive divisor is modelled. */
module CppInt {

  /** The range of a 32-bit `int`, used where `>>` clamps an out-of-range value. */
  const IntMin: int := -0x8000_0000
  const IntMax: int := 0x7fff_ffff

  /** C++ `a / b` for `b > 0`: the quotient truncated toward zero. */
  function Quot(a: int, b: int): (q: int)
    requires b > 0
    ensures a >= 0 ==> q == a / b && q >= 0
    ensures a >= 0 ==> 0 <= a - q * b < b
    ensures a < 0 ==> -b < a - q * b <= 0
  {
    if a >= 0 then DivisionBounds(a, b); a / b
    else DivisionBounds(-a, b); -((-a) / b)
  }

  /** Euclidean division of a non-negative number leaves a remainder below the divisor. */
  lemma DivisionBounds(a: int, b: int)
    requires a >= 0 && b > 0
    ensures a / b >= 0 && 0 <= a - (a / b) * b < b
  {
    assert a == (a / b) * b + a % b;
  }

  /** C++ `a % b` for `b > 0`: takes the sign of `a`, and `a == b * Quot(a, b) + Rem(a, b)`. */
  function Rem(a: int, b: int): (r: int)
    requires b > 0
    ensures a == b * Quot(a, b) + r
    ensures a >= 0 ==> r == a % b && 0 <= r < b
    ensures a < 0 ==> -b < r <= 0
  {
    a - b * Quot(a, b)
  }
}
