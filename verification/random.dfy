/** The values `Math.random()` returns, which the model takes as inputs. */
module RandomDraws {
  /** A value in [0, 1), the range of `Math.random()`. */
  predicate InUnit(r: real)
  {
    0.0 <= r < 1.0
  }
}
