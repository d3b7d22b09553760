/** The floating-point library calls that term evaluation makes, abstracted.

    Term evaluation calls `f64::powf` (for `base^x` and for raising a value to
    the term's exponent) and `f64::log` (for `log_base x`). Their exact IEEE-754
    behaviour (rounding, NaN and infinities) is not modelled: a `Host` carries
    them as arbitrary real functions, so everything proved about evaluation
    holds for every choice of them. Facts about the library that a particular
    result needs are stated as predicates on the `Host` and required explicitly.
 */
module HostMath {

  /** `powf(b, e)` stands for Rust's `b.powf(e)`; `log(x, b)` for Rust's `x.log(b)`. */
  datatype Host = Host(powf: (real, real) -> real, log: (real, real) -> real)

  /** `b` raised to a natural power, by repeated multiplication. */
  function Power(b: real, n: nat): real
  {
    if n == 0 then 1.0 else b * Power(b, n - 1)
  }

  /** `powf` is exact whenever the exponent is a natural number. */
  ghost predicate PowfExactOnNaturals(h: Host)
  {
    forall b: real, n: nat :: h.powf(b, n as real) == Power(b, n)
  }

  /** `log` to a valid base `b` inverts raising `b` to a natural power. */
  ghost predicate LogExactOnPowersOfBase(h: Host)
  {
    forall b: real, n: nat :: 0.0 < b && b != 1.0 ==> h.log(Power(b, n), b) == n as real
  }
}
