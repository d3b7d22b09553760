/** The scenarios of the repository's unit tests, evaluated in the model. */
module MainTests {
  import opened HostMath
  import opened Terms
  import opened TermProperties

  /** The four single terms the tests build. */
  const Linear := Term(Plus, Polynomial, 2.0, 0.0)
  const X2 := Term(Plus, Polynomial, 1.0, 2.0)
  const Log10 := Term(Plus, Log(10.0), 1.0, 1.0)
  const Exp2 := Term(Plus, Exp(2.0), 1.0, 1.0)

  /** Term evaluation at the test's points gives the expected 2, 4, 1 and 4,
      given a host whose `powf` and `log` are exact on natural exponents. */
  lemma TermEvaluationExamples(h: Host)
    requires PowfExactOnNaturals(h) && LogExactOnPowersOfBase(h)
    ensures TermValue(h, Linear, 1.0) == 2.0
    ensures TermValue(h, X2, 2.0) == 4.0
    ensures TermValue(h, Log10, 10.0) == 1.0
    ensures TermValue(h, Exp2, 2.0) == 4.0
  {
    PolynomialTermIsPower(h, X2, 2.0, 2);
    assert h.log(Power(10.0, 1), 10.0) == 1 as real;
    assert h.powf(1.0, 1 as real) == Power(1.0, 1);
    assert h.powf(2.0, 2 as real) == Power(2.0, 2);
    assert h.powf(4.0, 1 as real) == Power(4.0, 1);
  }

  /** The three formulas of the formula test evaluate, as the fold is written,
      to 2, 0 and 0; the last term of each never contributes. */
  lemma FormulaEvaluationExamples(h: Host)
    requires PowfExactOnNaturals(h) && LogExactOnPowersOfBase(h)
    ensures FormulaValue(h, [Linear, X2], 1.0) == 2.0
    ensures FormulaValue(h, [Log10, Exp2], 1.0) == 0.0
    ensures FormulaValue(h, [Term(Plus, Polynomial, 2.0, 1.0), Term(Multiply, Polynomial, 1.0, 2.0)], 2.0) == 0.0
  {
    AllPlusIsSumOfLeadingValues(h, [Linear, X2], 1.0);
    AllPlusIsSumOfLeadingValues(h, [Log10, Exp2], 1.0);
    assert h.log(Power(10.0, 0), 10.0) == 0 as real;
    assert h.powf(0.0, 1 as real) == Power(0.0, 1);
    TrailingMultipliesAreZero(h, [Term(Plus, Polynomial, 2.0, 1.0), Term(Multiply, Polynomial, 1.0, 2.0)], 2.0);
  }

  /** The formula test driven through `Formula::new`, `push` and `evaluate`. */
  method FormulaEvaluationTest(h: Host) returns (r1: real, r2: real, r3: real)
    requires PowfExactOnNaturals(h) && LogExactOnPowersOfBase(h)
    ensures r1 == 2.0 && r2 == 0.0 && r3 == 0.0
  {
    var formula1 := new Formula();
    formula1.Push(Linear);
    formula1.Push(X2);

    var formula2 := new Formula();
    formula2.Push(Log10);
    formula2.Push(Exp2);

    var multiplyFormula := new Formula();
    multiplyFormula.Push(Term(Plus, Polynomial, 2.0, 1.0));
    multiplyFormula.Push(Term(Multiply, Polynomial, 1.0, 2.0));

    assert formula1.terms == [Linear, X2];
    assert formula2.terms == [Log10, Exp2];
    assert multiplyFormula.terms == [Term(Plus, Polynomial, 2.0, 1.0), Term(Multiply, Polynomial, 1.0, 2.0)];
    FormulaEvaluationExamples(h);
    r1 := formula1.Evaluate(h, 1.0);
    r2 := formula2.Evaluate(h, 1.0);
    r3 := multiplyFormula.Evaluate(h, 2.0);
  }
}
