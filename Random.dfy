/** The values `Math.random()` returns, which the effects take as
    parameters. */
module Random {

  /** A draw of `Math.random()`: a number in [0, 1). */
  predicate Unit(r: real)
  {
    0.0 <= r < 1.0
  }
}
