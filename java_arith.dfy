/**
 * Java's integer and float-to-int arithmetic, written out because Dafny's `/` and `%`
 * are Euclidean while Java's `/` and `%` truncate toward zero.
 */
module JavaArith {

  function Abs(x: int): (r: int)
    ensures r >= 0 && (r == x || r == -x)
  {
    if x < 0 then -x else x
  }

  /** Java's `a / b`: the quotient is rounded toward zero. */
  function Div(a: int, b: int): (q: int)
    requires b != 0
    ensures a >= 0 && b > 0 ==> q == a / b
    ensures Abs(q) == Abs(a) / Abs(b)
    ensures (a >= 0) == (b > 0) ==> q >= 0
    ensures (a >= 0) != (b > 0) ==> q <= 0
  {
    var q := Abs(a) / Abs(b);
    NonNegativeQuotient(Abs(a), Abs(b));
    if (a >= 0) == (b > 0) then q else -q
  }

  lemma NonNegativeQuotient(x: int, y: int)
    requires x >= 0 && y > 0
    ensures x / y >= 0
  {
  }

  /** Java's `a % b`: whatever `b * (a / b)` leaves over, so it takes the sign of `a`. */
  function Rem(a: int, b: int): (r: int)
    requires b != 0
    ensures a == b * Div(a, b) + r
    ensures a >= 0 ==> 0 <= r < Abs(b)
    ensures a < 0 ==> -Abs(b) < r <= 0
    ensures a >= 0 && b > 0 ==> r == a % b
  {
    MagnitudeSplit(a, b);
    a - b * Div(a, b)
  }

  /** `|a| == |b| * |q| + |a| % |b|`, written out for each sign of `a` and `b`. */
  lemma MagnitudeSplit(a: int, b: int)
    requires b != 0
    ensures a >= 0 ==> a - b * Div(a, b) == Abs(a) % Abs(b)
    ensures a < 0 ==> a - b * Div(a, b) == -(Abs(a) % Abs(b))
  {
    var A: int, B: int := Abs(a), Abs(b);
    var q: int := A / B;
    assert A == B * q + A % B;
    if b > 0 {
      if a >= 0 {
        assert Div(a, b) == q;
      } else {
        assert Div(a, b) == -q;
        NegateFactor(B, q);
      }
    } else {
      assert b == -B;
      if a >= 0 {
        assert Div(a, b) == -q;
        NegateBoth(B, q);
      } else {
        assert Div(a, b) == q;
        NegateFactor(B, q);
      }
    }
  }

  lemma NegateFactor(x: int, y: int)
    ensures x * (-y) == -(x * y) && (-x) * y == -(x * y)
  {
  }

  lemma NegateBoth(x: int, y: int)
    ensures (-x) * (-y) == x * y
  {
  }

  lemma MulAtLeast(b: int, d: int)
    requires b > 0 && d >= 1
    ensures b * d >= b
  {
  }

  /** Two distinct multiples of a positive `b` lie at least `b` apart. */
  lemma MultiplesApart(x: int, y: int, b: int)
    requires b > 0 && x % b == 0 && y % b == 0 && x > y
    ensures x - y >= b
  {
    var d := x / b - y / b;
    assert x - y == b * d;
    if d >= 1 {
      MulAtLeast(b, d);
    }
  }

  /** Every multiple `b * k` leaves no (Euclidean) remainder when divided by `b`. */
  lemma MultipleHasNoRemainder(k: int, b: int)
    requires b != 0
    ensures (b * k) % b == 0
  {
    var q, r := (b * k) / b, (b * k) % b;
    assert b * k == b * q + r;
    var d := k - q;
    assert r == b * d;
    var B := if b > 0 then b else -b;
    var D := if b > 0 then d else -d;
    assert r == B * D;
    if D >= 1 {
      MulAtLeast(B, D);
    }
  }

  /** `Math.abs` of a float, over exact reals. */
  function AbsReal(x: real): (r: real)
    ensures r >= 0.0 && (r == x || r == -x)
  {
    if x < 0.0 then -x else x
  }

  /** The Java cast `(int) x` of a float: drops the fraction, toward zero. */
  function Trunc(x: real): (r: int)
    ensures x >= 0.0 ==> r as real <= x < r as real + 1.0
    ensures x < 0.0 ==> r as real - 1.0 < x <= r as real
  {
    if x >= 0.0 then x.Floor else -((-x).Floor)
  }

  /** Java's `Math.round(float)`: the nearest integer, a half rounds up. */
  function Round(x: real): (r: int)
    ensures r as real - 0.5 <= x < r as real + 0.5
  {
    (x + 0.5).Floor
  }
}
