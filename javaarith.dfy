/** Java's fixed-width integer arithmetic, written out over Dafny's unbounded `int`.
    `int` is 32-bit two's complement, `long` 64-bit; `/` truncates toward zero and
    `%` is defined from it (a % b == a - (a / b) * b). */
module JavaArith {

  const INT_MIN: int := -0x8000_0000
  const INT_MAX: int := 0x7fff_ffff
  const LONG_MIN: int := -0x8000_0000_0000_0000
  const LONG_MAX: int := 0x7fff_ffff_ffff_ffff

  predicate IsInt(x: int) { INT_MIN <= x <= INT_MAX }

  predicate IsLong(x: int) { LONG_MIN <= x <= LONG_MAX }

  /** The value a 32-bit `int` operation yields for the mathematical result `x`. */
  function WrapInt(x: int): (r: int)
    ensures IsInt(r)
    ensures IsInt(x) ==> r == x
  {
    (x - INT_MIN) % 0x1_0000_0000 + INT_MIN
  }

  /** The value a 64-bit `long` operation yields for the mathematical result `x`. */
  function WrapLong(x: int): (r: int)
    ensures IsLong(r)
    ensures IsLong(x) ==> r == x
  {
    (x - LONG_MIN) % 0x1_0000_0000_0000_0000 + LONG_MIN
  }

  /** Java's `a / b` for a positive divisor: the quotient rounded toward zero. */
  function Quot(a: int, b: int): int
    requires b > 0
  {
    if a >= 0 then a / b else -((-a) / b)
  }

  /** Java's `a % b`, defined by the language from the truncating quotient. */
  function Rem(a: int, b: int): int
    requires b > 0
  {
    a - Quot(a, b) * b
  }

  /** For a non-negative dividend Java's quotient and remainder are Dafny's; for its
      negation they are negated. */
  lemma QuotRemOfNat(n: int, b: int)
    requires n >= 0 && b > 0
    ensures Quot(n, b) == n / b && Rem(n, b) == n % b
    ensures Quot(-n, b) == -(n / b) && Rem(-n, b) == -(n % b)
  {
    assert (-(n / b)) * b == -((n / b) * b);
  }

  /** The remainder takes the sign of the dividend and is smaller than the divisor
      in magnitude; quotient and remainder recompose the dividend. Unlike Dafny's
      Euclidean `%`, a negative dividend gives a non-positive remainder. */
  lemma QuotRem(a: int, b: int)
    requires b > 0
    ensures Quot(a, b) * b + Rem(a, b) == a
    ensures a >= 0 ==> 0 <= Rem(a, b) < b && Quot(a, b) >= 0
    ensures a <= 0 ==> -b < Rem(a, b) <= 0 && Quot(a, b) <= 0
    ensures Quot(-a, b) == -Quot(a, b) && Rem(-a, b) == -Rem(a, b)
  {
    if a >= 0 {
      QuotRemOfNat(a, b);
    } else {
      QuotRemOfNat(-a, b);
    }
  }
}
