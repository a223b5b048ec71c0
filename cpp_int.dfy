/** C++ `int` arithmetic that differs from Dafny's.

    Dafny's `/` and `%` on `int` are Euclidean (the remainder is never
    negative); C++ truncates the quotient toward zero, so the remainder takes
    the sign of the dividend. The engine relies on both operators, so they are
    written out here, for the positive divisors the engine uses, by taking
    the divisor away from the dividend, toward zero, until less than one
    divisor is left. Overflow is not modelled: callers stay below `IntMax`. */
module CppInt {

  /** The largest value of a 32-bit C++ `int`. */
  const IntMax: int := 0x7fff_ffff

  /** The magnitude of `a`. */
  function Abs(a: int): nat {
    if a < 0 then -a else a
  }

  /** C++ `a / b` for a positive divisor: the quotient truncated toward zero,
      so `q * b` lies between zero and `a`, within one divisor of `a`. */
  function Div(a: int, b: int): (q: int)
    requires b > 0
    ensures a >= 0 ==> 0 <= a - q * b < b
    ensures a < 0 ==> -b < a - q * b <= 0
    decreases Abs(a)
  {
    if a >= b then
      var q := Div(a - b, b);
      MulSucc(q, b);
      q + 1
    else if a <= -b then
      var q := Div(a + b, b);
      MulSucc(q - 1, b);
      q - 1
    else
      0
  }

  /** C++ `a % b` for a positive divisor: what is left of `a` below one
      divisor, with the sign of the dividend. */
  function Rem(a: int, b: int): (r: int)
    requires b > 0
    ensures a >= 0 ==> 0 <= r < b
    ensures a < 0 ==> -b < r <= 0
    decreases Abs(a)
  {
    if a >= b then Rem(a - b, b)
    else if a <= -b then Rem(a + b, b)
    else a
  }

  /** The C++ identity `(a / b) * b + a % b == a`. */
  lemma {:induction false} DivRem(a: int, b: int)
    requires b > 0
    ensures Div(a, b) * b + Rem(a, b) == a
    decreases Abs(a)
  {
    if a >= b {
      var q := Div(a - b, b);
      DivRem(a - b, b);
      assert Div(a, b) == q + 1 && Rem(a, b) == Rem(a - b, b);
      MulSucc(q, b);
    } else if a <= -b {
      var q := Div(a + b, b);
      DivRem(a + b, b);
      assert Div(a, b) == q - 1 && Rem(a, b) == Rem(a + b, b);
      MulSucc(q - 1, b);
    }
  }

  /** On a non-negative dividend the C++ operators agree with Dafny's. */
  lemma NonNegativeAgrees(a: int, b: int)
    requires a >= 0 && b > 0
    ensures Div(a, b) == a / b && Rem(a, b) == a % b
  {
    DivRem(a, b);
    EuclidUnique(a, b, Div(a, b), Rem(a, b));
  }

  /** On a negative dividend they do not: `-5 / 10` is `0` in C++ and `-1`
      in Dafny, `-1 % 2` is `-1` in C++ and `1` in Dafny. */
  lemma NegativeDiffers()
    ensures Div(-5, 10) == 0 && -5 / 10 == -1
    ensures Rem(-1, 2) == -1 && -1 % 2 == 1
  {
  }

  /** Dafny's Euclidean quotient and remainder are the only pair that
      rebuilds the dividend with a remainder in `[0, b)`. */
  lemma EuclidUnique(a: int, b: int, q: int, r: int)
    requires b > 0 && 0 <= r < b && a == q * b + r
    ensures a / b == q && a % b == r
  {
    var q', r' := a / b, a % b;
    assert (q - q') * b == r' - r;
    if q' < q {
      MulAtLeast(q - q', b);
    } else if q < q' {
      MulAtLeast(q' - q, b);
    }
  }

  lemma MulSucc(q: int, b: int)
    ensures (q + 1) * b == q * b + b
  {
  }

  lemma MulAtLeast(k: int, b: int)
    requires k >= 1 && b > 0
    ensures k * b >= b
  {
  }
}
