/** `MathUtils.constrain`, the clamp both view classes use, in its Int and Float overloads. */
module MathUtils {

  /**
   * Clamps `amount` into `[low, high]`. The low bound is tested first, so with
   * `low > high` an amount below `low` still yields `low`.
   */
  function Constrain(amount: int, low: int, high: int): (r: int)
    ensures amount < low ==> r == low
    ensures !(amount < low) && amount > high ==> r == high
    ensures low <= high ==> low <= r <= high
    ensures low <= amount <= high ==> r == amount
    ensures r == low || r == high || r == amount
  {
    if amount < low then low else if amount > high then high else amount
  }

  /** The Float overload, over exact reals. */
  function ConstrainReal(amount: real, low: real, high: real): (r: real)
    ensures amount < low ==> r == low
    ensures !(amount < low) && amount > high ==> r == high
    ensures low <= high ==> low <= r <= high
    ensures low <= amount <= high ==> r == amount
    ensures r == low || r == high || r == amount
  {
    if amount < low then low else if amount > high then high else amount
  }

  /** With a non-empty interval, clamping twice is clamping once. */
  lemma ConstrainIdempotent(amount: int, low: int, high: int)
    requires low <= high
    ensures Constrain(Constrain(amount, low, high), low, high) == Constrain(amount, low, high)
  {
  }

  /** With a non-empty interval, the clamp is the point of `[low, high]` nearest to `amount`. */
  lemma ConstrainIsNearest(amount: int, low: int, high: int, y: int)
    requires low <= y <= high
    ensures var r := Constrain(amount, low, high);
      (r - amount) * (r - amount) <= (y - amount) * (y - amount)
  {
    var r := Constrain(amount, low, high);
    var d, e := r - amount, y - amount;
    if amount < low {
      SquareMonotone(d, e);
    } else if amount > high {
      SquareMonotone(-d, -e);
    }
  }

  lemma SquareMonotone(x: int, y: int)
    requires 0 <= x <= y
    ensures x * x <= y * y
  {
    assert x * x <= x * y by {
      assert x * (y - x) >= 0;
    }
    assert x * y <= y * y by {
      assert (y - x) * y >= 0;
    }
  }

  /** The Float overload agrees with the Int overload on integral arguments. */
  lemma ConstrainRealAgrees(amount: int, low: int, high: int)
    ensures ConstrainReal(amount as real, low as real, high as real) == Constrain(amount, low, high) as real
  {
  }
}
