/** Small shared vocabulary: optional values, results with an error side,
    probabilities, and Python's `int()` on a float. */
module Common {

  /** Python's `None` or a present value; pandas' NaN in a cell is `None` too. */
  datatype Option<+T> = None | Some(value: T)

  /** A computation that either yields a value or raises an error. */
  datatype Result<+T, +E> = Success(value: T) | Failure(error: E)

  /** A probability as returned by a classifier's `predict_proba`. */
  type Probability = p: real | 0.0 <= p <= 1.0

  /** Python's `int(x)` on a float: drops the fraction, rounding toward zero. */
  function Trunc(x: real): (r: int)
    ensures 0.0 <= x ==> 0 <= r && r as real <= x < r as real + 1.0
    ensures x < 0.0 ==> r <= 0 && r as real - 1.0 < x <= r as real
  {
    if x >= 0.0 then x.Floor else -((-x).Floor)
  }
}
