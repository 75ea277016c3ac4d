/**
  * The JavaScript numbers the pages compute with: exact reals, plus the
  * three non-finite values a division by zero produces. Rounding to binary
  * floating point is not modelled.
  */
module Numbers {
  datatype Number = Finite(value: real) | PosInfinity | NegInfinity | NaN

  /** `a / b` on finite operands: `±Infinity` for a non-zero numerator over zero, `NaN` for `0 / 0`. */
  function Divide(a: real, b: real): (r: Number)
    ensures b != 0.0 ==> r.Finite? && r.value * b == a
    ensures b == 0.0 ==> (r == PosInfinity <==> a > 0.0) && (r == NegInfinity <==> a < 0.0) && (r == NaN <==> a == 0.0)
  {
    if b != 0.0 then Finite(a / b)
    else if a > 0.0 then PosInfinity
    else if a < 0.0 then NegInfinity
    else NaN
  }
}
