/** What term and formula evaluation promise, proved about the model. */
module TermProperties {
  import opened HostMath
  import opened Terms

  // ---------------------------------------------------------------------------
  // Terms

  /** A term whose exponent is 0 evaluates to its coefficient, whatever the
      point, the host functions and the term kind: the body is never consulted. */
  lemma ExponentZeroIgnoresBody(h: Host, h': Host, t: Term, kind: TermType, x: real, y: real)
    requires t.exponent == 0.0
    ensures TermValue(h, t, x) == t.coefficient
    ensures TermValue(h', t.(termType := kind), y) == TermValue(h, t, x)
  {
  }

  /** A polynomial term with natural exponent `n` is `coefficient * x^n`. */
  lemma PolynomialTermIsPower(h: Host, t: Term, x: real, n: nat)
    requires PowfExactOnNaturals(h)
    requires t.termType == Polynomial && t.exponent == n as real
    ensures TermValue(h, t, x) == t.coefficient * Power(x, n)
  {
  }

  /** A `SubFunction` term raises the nested formula's value to its exponent;
      with exponent 1 it scales the nested formula's value by its coefficient. */
  lemma SubFunctionTerm(h: Host, t: Term, x: real)
    requires t.termType.SubFunction?
    ensures t.exponent != 0.0 ==>
      TermValue(h, t, x) == t.coefficient * h.powf(FormulaValue(h, t.termType.formula, x), t.exponent)
    ensures PowfExactOnNaturals(h) && t.exponent == 1.0 ==>
      TermValue(h, t, x) == t.coefficient * FormulaValue(h, t.termType.formula, x)
  {
    var v := FormulaValue(h, t.termType.formula, x);
    if PowfExactOnNaturals(h) && t.exponent == 1.0 {
      assert h.powf(v, 1 as real) == Power(v, 1);
    }
  }

  // ---------------------------------------------------------------------------
  // One pair

  /** Which accumulator a pair updates depends only on the next term's
      operator: a `Multiply` next term only overwrites `temp_result`; a `Plus`
      next term resets `temp_result` to 0, and after a `Multiply` term it
      multiplies `result`, so a zero `result` stays zero. */
  lemma NextOperatorDecides(acc: Accumulators, op: OperatorType, nextOp: OperatorType, v: real)
    ensures nextOp == Multiply ==> PairStep(acc, op, nextOp, v) == Accumulators(acc.result, v)
    ensures nextOp == Plus ==> PairStep(acc, op, nextOp, v).temp == 0.0
    ensures op == Multiply && acc.result == 0.0 ==> PairStep(acc, op, nextOp, v).result == 0.0
  {
  }

  // ---------------------------------------------------------------------------
  // Whole formulas

  /** A formula of fewer than two terms has no consecutive pair and is 0. */
  lemma ShortFormulaIsZero(h: Host, terms: seq<Term>, x: real)
    requires |terms| < 2
    ensures FormulaValue(h, terms, x) == 0.0
  {
  }

  /** The first `k` pairs of a formula are the first `k` pairs of any
      formula that extends it. */
  lemma {:induction false} AfterPairsOfPrefix(h: Host, s: seq<Term>, u: seq<Term>, x: real, k: nat)
    requires s <= u
    requires k == 0 || k < |s|
    ensures AfterPairs(h, u, x, k) == AfterPairs(h, s, x, k)
  {
    if k > 0 {
      AfterPairsOfPrefix(h, s, u, x, k - 1);
    }
  }

  /** Pushing a term onto a non-empty formula adds exactly one pair, formed by
      the previous last term and the new one; of the new term only the
      operator is read. */
  lemma PushAddsOnePair(h: Host, s: seq<Term>, t: Term, x: real)
    requires |s| >= 1
    ensures FormulaValue(h, s + [t], x) ==
      PairStep(AfterPairs(h, s, x, |s| - 1), s[|s| - 1].operator, t.operator, TermValue(h, s[|s| - 1], x)).result
  {
    var u := s + [t];
    AfterPairsOfPrefix(h, s, u, x, |s| - 1);
    assert u[|s| - 1] == s[|s| - 1] && u[|s|] == t;
  }

  /** The last term's value never enters the result: two formulas that differ
      only in a last term with the same operator evaluate equally. */
  lemma LastTermValueNeverCounts(h: Host, s: seq<Term>, a: Term, b: Term, x: real)
    requires a.operator == b.operator
    ensures FormulaValue(h, s + [a], x) == FormulaValue(h, s + [b], x)
  {
    if |s| >= 1 {
      PushAddsOnePair(h, s, a, x);
      PushAddsOnePair(h, s, b, x);
    }
  }

  /** The fold reads every operator but only the values of the first n - 1
      terms, so formulas that agree on those evaluate equally. */
  lemma {:induction false} AfterPairsDependsOnOperatorsAndLeadingValues(
    h: Host, s: seq<Term>, u: seq<Term>, x: real, k: nat)
    requires |s| == |u|
    requires k == 0 || k < |s|
    requires forall i :: 0 <= i < |s| ==> s[i].operator == u[i].operator
    requires forall i :: 0 <= i < |s| - 1 ==> TermValue(h, s[i], x) == TermValue(h, u[i], x)
    ensures AfterPairs(h, s, x, k) == AfterPairs(h, u, x, k)
  {
    if k > 0 {
      AfterPairsDependsOnOperatorsAndLeadingValues(h, s, u, x, k - 1);
    }
  }

  lemma OnlyOperatorsAndLeadingValuesCount(h: Host, s: seq<Term>, u: seq<Term>, x: real)
    requires |s| == |u|
    requires forall i :: 0 <= i < |s| ==> s[i].operator == u[i].operator
    requires forall i :: 0 <= i < |s| - 1 ==> TermValue(h, s[i], x) == TermValue(h, u[i], x)
    ensures FormulaValue(h, s, x) == FormulaValue(h, u, x)
  {
    if |s| >= 2 {
      AfterPairsDependsOnOperatorsAndLeadingValues(h, s, u, x, |s| - 1);
    }
  }

  /** The pair starting at index `i` is a `Plus` term followed by a `Plus`
      term: the only kind of pair that adds to `result`. */
  predicate PlusPlusAt(terms: seq<Term>, i: nat)
    requires i + 1 < |terms|
  {
    terms[i].operator == Plus && terms[i + 1].operator == Plus
  }

  /** `result` stays at its initial 0 until the first `Plus`-`Plus` pair. */
  lemma {:induction false} ResultZeroBeforeFirstPlusPlus(h: Host, terms: seq<Term>, x: real, k: nat)
    requires k == 0 || k < |terms|
    requires forall i: nat :: i < k ==> !PlusPlusAt(terms, i)
    ensures AfterPairs(h, terms, x, k).result == 0.0
  {
    if k > 0 {
      ResultZeroBeforeFirstPlusPlus(h, terms, x, k - 1);
      assert !PlusPlusAt(terms, k - 1);
    }
  }

  /** A formula without any `Plus`-`Plus` pair evaluates to 0. */
  lemma NoPlusPlusPairIsZero(h: Host, terms: seq<Term>, x: real)
    requires forall i: nat :: i + 1 < |terms| ==> !PlusPlusAt(terms, i)
    ensures FormulaValue(h, terms, x) == 0.0
  {
    if |terms| >= 2 {
      ResultZeroBeforeFirstPlusPlus(h, terms, x, |terms| - 1);
    }
  }

  /** A formula whose terms after the first are all `Multiply` evaluates to 0. */
  lemma TrailingMultipliesAreZero(h: Host, terms: seq<Term>, x: real)
    requires forall i :: 1 <= i < |terms| ==> terms[i].operator == Multiply
    ensures FormulaValue(h, terms, x) == 0.0
  {
    forall i: nat | i + 1 < |terms|
      ensures !PlusPlusAt(terms, i)
    {
      assert terms[i + 1].operator == Multiply;
    }
    NoPlusPlusPairIsZero(h, terms, x);
  }

  /** The sum of the values of the first `k` terms. */
  function SumOfValues(h: Host, terms: seq<Term>, x: real, k: nat): real
    requires k <= |terms|
  {
    if k == 0 then 0.0 else SumOfValues(h, terms, x, k - 1) + TermValue(h, terms[k - 1], x)
  }

  lemma {:induction false} AllPlusPairsAccumulateSum(h: Host, terms: seq<Term>, x: real, k: nat)
    requires k == 0 || k < |terms|
    requires forall i :: 0 <= i < |terms| ==> terms[i].operator == Plus
    ensures AfterPairs(h, terms, x, k) == Accumulators(SumOfValues(h, terms, x, k), 0.0)
  {
    if k > 0 {
      AllPlusPairsAccumulateSum(h, terms, x, k - 1);
      assert terms[k - 1].operator == Plus && terms[k].operator == Plus;
    }
  }

  /** When every operator is `Plus`, a formula of n terms evaluates to the sum
      of its first n - 1 term values. */
  lemma AllPlusIsSumOfLeadingValues(h: Host, terms: seq<Term>, x: real)
    requires |terms| >= 1
    requires forall i :: 0 <= i < |terms| ==> terms[i].operator == Plus
    ensures FormulaValue(h, terms, x) == SumOfValues(h, terms, x, |terms| - 1)
  {
    if |terms| >= 2 {
      AllPlusPairsAccumulateSum(h, terms, x, |terms| - 1);
    }
  }
}
