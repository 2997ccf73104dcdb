/**
 * Real-number stand-ins for the C math library functions the core calls
 * (std::sqrt, std::log, std::fabs).
 *
 * `double` is modelled by `real`. `Sqrt` and `Log` are left uninterpreted:
 * the model assumes of them only what `SqrtLaw` and `LogLaw` state, and every
 * fact that needs one of those laws takes it as a hypothesis.
 */
module LibM {

  /** std::sqrt, uninterpreted. */
  const Sqrt: real -> real

  /** std::log, uninterpreted. */
  const Log: real -> real

  /** The square root is non-negative and squares back to its argument. */
  ghost predicate SqrtLaw() {
    forall x: real :: 0.0 <= x ==> 0.0 <= Sqrt(x) && Sqrt(x) * Sqrt(x) == x
  }

  /** The logarithm is strictly increasing on the positive reals. */
  ghost predicate LogLaw() {
    forall x: real, y: real :: 0.0 < x < y ==> Log(x) < Log(y)
  }

  /** std::fabs */
  function Abs(x: real): (r: real)
    ensures 0.0 <= r && (r == x || r == -x)
    ensures r == 0.0 <==> x == 0.0
  {
    if x < 0.0 then -x else x
  }

  /** x squared. */
  function Sq(x: real): real {
    x * x
  }

  lemma SqOfPositive(x: real)
    requires 0.0 < x
    ensures 0.0 < Sq(x)
  {
    if x < 1.0 {
      assert Sq(x) / x == x;
    } else {
      assert Sq(x) >= x;
    }
  }

  /** A square is non-negative, and positive unless its root is zero. */
  lemma SqSign(x: real)
    ensures 0.0 <= Sq(x)
    ensures x != 0.0 ==> 0.0 < Sq(x)
  {
    if x < 0.0 {
      SqOfPositive(-x);
      assert Sq(x) == Sq(-x);
    } else if x > 0.0 {
      SqOfPositive(x);
    }
  }

  /** Two non-negative reals with the same square are equal. */
  lemma SquareInjective(a: real, b: real)
    requires 0.0 <= a && 0.0 <= b && a * a == b * b
    ensures a == b
  {
    assert (a - b) * (a + b) == 0.0;
    if a + b != 0.0 {
      assert a - b == ((a - b) * (a + b)) / (a + b);
    }
  }

  lemma SqrtZero()
    requires SqrtLaw()
    ensures Sqrt(0.0) == 0.0
  {
    SquareInjective(Sqrt(0.0), 0.0);
  }

  lemma SqrtPositive(x: real)
    requires SqrtLaw() && 0.0 < x
    ensures 0.0 < Sqrt(x)
  {
    assert Sqrt(x) * Sqrt(x) == x;
  }

  /** The square root of a square is the absolute value. */
  lemma SqrtOfSquare(x: real)
    requires SqrtLaw()
    ensures Sqrt(x * x) == Abs(x)
  {
    assert Abs(x) * Abs(x) == x * x;
    SquareInjective(Sqrt(x * x), Abs(x));
  }
}
