/** Terms and formulas of the calculator, and how they are evaluated. */
module Terms {
  import opened HostMath

  /** How a term combines with its successor in the enclosing formula. */
  datatype OperatorType = Plus | Multiply

  /** The function family of a term. A `SubFunction` owns its nested formula
      exclusively and nothing can append to it once the term exists, so the
      nested formula is held as its sequence of terms. */
  datatype TermType =
    | Polynomial
    | Log(base: real)
    | Exp(base: real)
    | SubFunction(formula: seq<Term>)

  /** One weighted sub-expression. `Term::new` is this constructor: it
      validates nothing. */
  datatype Term = Term(operator: OperatorType, termType: TermType, coefficient: real, exponent: real)

  /** What `result` and `temp_result` hold between two pairs of the fold. */
  datatype Accumulators = Accumulators(result: real, temp: real)

  /** Value of one term at `x` (`Term::evaluate`). */
  function TermValue(h: Host, t: Term, x: real): real
    decreases t, 0, 0
  {
    if t.exponent == 0.0 then t.coefficient
    else
      var v :=
        match t.termType
        case Polynomial => x
        case Exp(base) => h.powf(base, x)
        case Log(base) => h.log(x, base)
        case SubFunction(formula) => FormulaValue(h, formula, x);
      t.coefficient * h.powf(v, t.exponent)
  }

  /** The update made for one consecutive pair (term, next term), where `v`
      is the first term's value. */
  function PairStep(acc: Accumulators, op: OperatorType, nextOp: OperatorType, v: real): Accumulators
  {
    match op
    case Plus =>
      (match nextOp
       case Plus => Accumulators(acc.result + (acc.temp + v), 0.0)
       case Multiply => Accumulators(acc.result, v))
    case Multiply =>
      (match nextOp
       case Plus => Accumulators(acc.result * (acc.temp * v), 0.0)
       case Multiply => Accumulators(acc.result, v))
  }

  /** The accumulators once the first `k` consecutive pairs
      (terms[0], terms[1]), ..., (terms[k-1], terms[k]) are processed. */
  function AfterPairs(h: Host, terms: seq<Term>, x: real, k: nat): Accumulators
    requires k == 0 || k < |terms|
    decreases terms, 0, k
  {
    if k == 0 then Accumulators(0.0, 0.0)
    else
      PairStep(AfterPairs(h, terms, x, k - 1), terms[k - 1].operator, terms[k].operator,
               TermValue(h, terms[k - 1], x))
  }

  /** Value of a formula at `x` (`Formula::evaluate`): the `result`
      accumulator after all |terms| - 1 consecutive pairs. */
  function FormulaValue(h: Host, terms: seq<Term>, x: real): real
    decreases terms, 1, 0
  {
    if |terms| < 2 then 0.0 else AfterPairs(h, terms, x, |terms| - 1).result
  }

  /** A formula that is built by appending terms at its end. */
  class Formula {
    var terms: seq<Term>

    /** `Formula::new`: the empty formula. */
    constructor ()
      ensures terms == []
    {
      terms := [];
    }

    /** `Formula::push`: appends `term` after the existing terms. */
    method Push(term: Term)
      modifies this
      ensures terms == old(terms) + [term]
    {
      terms := terms + [term];
    }

    /** `Formula::evaluate`: folds over the consecutive pairs of terms with the
        two accumulators `result` and `temp_result`. */
    method Evaluate(h: Host, x: real) returns (r: real)
      ensures r == FormulaValue(h, terms, x)
    {
      var result := 0.0;
      var tempResult := 0.0;
      var i := 0;
      while i + 1 < |terms|
        invariant i == 0 || i < |terms|
        invariant Accumulators(result, tempResult) == AfterPairs(h, terms, x, i)
      {
        var term, nextTerm := terms[i], terms[i + 1];
        var subResult := TermValue(h, term, x);
        match term.operator {
          case Plus =>
            match nextTerm.operator {
              case Plus =>
                result := result + (tempResult + subResult);
                tempResult := 0.0;
              case Multiply =>
                tempResult := subResult;
            }
          case Multiply =>
            match nextTerm.operator {
              case Plus =>
                result := result * (tempResult * subResult);
                tempResult := 0.0;
              case Multiply =>
                tempResult := subResult;
            }
        }
        i := i + 1;
      }
      r := result;
    }
  }
}
