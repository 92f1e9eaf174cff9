/** Absolute value on the reals, as Python's `abs` on a coefficient. */
module Numbers {
  function Abs(x: real): (a: real)
    ensures a >= 0.0
    ensures a == x || a == -x
  {
    if x < 0.0 then -x else x
  }

  /** A number and its negation have the same absolute value. */
  lemma AbsNegate(x: real)
    ensures Abs(-x) == Abs(x)
  {
  }
}
