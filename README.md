# Engineering calculator: term and formula evaluation

This project models the evaluation engine of a small symbolic calculator
(`src/term.rs`). A **term** is a weighted function application: an operator
tag (`Plus` or `Multiply`), a kind (polynomial `x`, `log_base x`, `base^x`,
or a nested formula), a coefficient and an exponent. A **formula** is an
ordered sequence of terms, grown by appending at the end and evaluated by an
unusual pairwise rule: it folds over every consecutive pair
`(term, next_term)` with two accumulators, `result` and `temp_result`, and
which of them changes is decided by the two operator tags.

Layout:

- `host_math.dfy` (module `HostMath`): the floating-point library calls
  (`powf`, `log`) as a `Host` value of two arbitrary real functions, a
  natural-number `Power`, and two predicates stating when the host is exact.
- `term.dfy` (module `Terms`): `OperatorType`, `TermType`, `Term`, the pure
  evaluation functions `TermValue` (`Term::evaluate`), `PairStep` (the update
  for one pair), `AfterPairs` (the accumulators after the first `k` pairs) and
  `FormulaValue` (the value of the whole fold), and the class `Formula`, whose
  `Push` appends in place and whose `Evaluate` runs the source's loop and is
  proved equal to `FormulaValue`. `Term::evaluate` and `Formula::evaluate` are
  mutually recursive through `SubFunction`; termination is by the structure
  of the (finite) term tree.
- `term_properties.dfy` (module `TermProperties`): what evaluation promises.
- `main_tests.dfy` (module `MainTests`): the scenarios of the repository's
  unit tests, evaluated in the model.

Values are Dafny `real`s. The source's `TermType::Polymomial` is spelled
`Polynomial` here. `Term::new` is the datatype constructor `Term(...)`: it
stores its four arguments and validates nothing.

The repository's formula test (src/main.rs:40-49) expects the values 3, 2 and
16; the fold in src/term.rs:73-106 yields 2, 0 and 0 for those formulas,
because the last term's value never enters `result` and a `Multiply` next
term only sets `temp_result`. The model follows the code:
`MainTests.FormulaEvaluationExamples` proves 2, 0 and 0.

## Model

| member | source | states |
|---|---|---|
| `Terms.Formula.constructor` | src/term.rs:63-67 | a new formula holds no terms |
| `Terms.Formula.Push` | src/term.rs:69-71 | the term is appended at the end; earlier terms and their order are unchanged |
| `Terms.Formula.Evaluate` | src/term.rs:73-106 | the loop over the consecutive pairs, with `result` and `temp_result`, returns exactly the fold `FormulaValue` of the formula's terms |
| `TermProperties.ExponentZeroIgnoresBody` | src/term.rs:33-36 | a term with exponent 0 evaluates to its coefficient at every point, for every host and whatever its kind |
| `TermProperties.PolynomialTermIsPower` | src/term.rs:38-54 | a polynomial term with natural exponent n is `coefficient * x^n` when `powf` is exact on natural exponents |
| `TermProperties.SubFunctionTerm` | src/term.rs:48-52 | a nested-formula term is `coefficient * powf(nested value, exponent)`; with exponent 1 it is the coefficient times the nested formula's value |
| `TermProperties.NextOperatorDecides` | src/term.rs:80-103 | a `Multiply` next term only overwrites `temp_result`; a `Plus` next term resets `temp_result` to 0; a `Multiply`-`Plus` pair keeps a zero `result` at zero |
| `TermProperties.ShortFormulaIsZero` | src/term.rs:74-78 | a formula of 0 or 1 terms has no pair and evaluates to 0 |
| `TermProperties.PushAddsOnePair` | src/term.rs:76-79 | appending a term to a non-empty formula adds exactly one pair, the old last term with the new one, and of the new term only its operator is read |
| `TermProperties.LastTermValueNeverCounts` | src/term.rs:76-79 | two formulas that differ only in a last term with the same operator evaluate equally |
| `TermProperties.OnlyOperatorsAndLeadingValuesCount` | src/term.rs:76-80 | formulas of equal length with the same operators and the same values for all but the last term evaluate equally |
| `TermProperties.ResultZeroBeforeFirstPlusPlus` | src/term.rs:74-100 | `result` is still 0 after any run of pairs none of which is `Plus` followed by `Plus` |
| `TermProperties.NoPlusPlusPairIsZero` | src/term.rs:74-105 | a formula without a `Plus`-`Plus` pair evaluates to 0 |
| `TermProperties.TrailingMultipliesAreZero` | src/term.rs:87-100 | a formula whose terms after the first are all `Multiply` evaluates to 0 |
| `TermProperties.AllPlusIsSumOfLeadingValues` | src/term.rs:81-86 | when every operator is `Plus`, a formula of n terms evaluates to the sum of its first n - 1 term values |
| `MainTests.TermEvaluationExamples` | src/main.rs:13-22 | the test terms evaluate to 2, 4, 1 and 4 at the test's points, given an exact host |
| `MainTests.FormulaEvaluationExamples` | src/main.rs:26-49 | the test formulas evaluate to 2, 0 and 0 as the fold is written (the test expects 3, 2 and 16) |
| `MainTests.FormulaEvaluationTest` | src/main.rs:26-49 | the same three formulas built with `new` and `push` and evaluated by the imperative `Evaluate` give 2, 0 and 0 |

## Left out

- `Formula::differential` and `Formula::integral` (src/term.rs:108-126): finite-difference and summation numerics over `f64::EPSILON`; they depend on IEEE rounding and the integral loop runs about 4.5e15 times.
- Exact `f64` semantics: rounding, NaN and infinities (a logarithm of a non-positive number, for one). Values are reals and `powf`/`log` are arbitrary functions carried by `HostMath.Host`; results that need particular values of them require `PowfExactOnNaturals` or `LogExactOnPowersOfBase`.
- The linked list behind `Formula` is a `seq<Term>` field; a nested formula inside a `SubFunction` term is held as a value, since the term owns it and nothing can append to it afterwards.
- The lexer: `src/parser.rs` is not part of this model. `src/token.rs` declares a token enum with no behaviour.
- `main` in src/main.rs:8-10 is empty.
