/** The floating-point library functions the renderer calls (`sin`, `exp`,
    `pow`, `log`, `sqrt`) are not modelled: they are passed in as a value of
    `MathLib`, and the facts the proofs need about them are stated as
    preconditions, with the predicates below. */
module Numerics {

  /** The value of `M_PI`; only ever used as an argument of `sin`. */
  const PI: real := 3.141592653589793

  datatype MathLib = MathLib(
    sin: real -> real,
    exp: real -> real,
    pow: (real, real) -> real,
    log: real -> real,
    sqrt: real -> real)

  /** The facts the model relies on, one predicate each so that every proof
      carries only the ones it uses. */
  predicate LogsPositive(m: MathLib) {
    0.0 < m.log(2.0) && 0.0 < m.log(10.0)
  }

  /** `sin` lies in [-1, 1]. */
  ghost predicate SineBounded(m: MathLib) {
    forall x :: -1.0 <= m.sin(x) <= 1.0
  }

  /** `pow` of a non-negative base is non-negative, of a positive base positive. */
  ghost predicate PowSigned(m: MathLib) {
    && (forall x, y :: 0.0 <= x ==> 0.0 <= m.pow(x, y))
    && (forall x, y :: 0.0 < x ==> 0.0 < m.pow(x, y))
  }

  /** `exp` is positive. */
  ghost predicate ExpPositive(m: MathLib) {
    forall x :: 0.0 < m.exp(x)
  }

  /** `sqrt` of a positive number is positive. */
  ghost predicate SqrtPositive(m: MathLib) {
    forall x :: 0.0 < x ==> 0.0 < m.sqrt(x)
  }
}
