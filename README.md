# Sum-of-squared-errors calculator, modelled in Dafny

The script `exercises/MultipleRegression_SSE_Calculator.py` fixes a table of
five observations `X` (two integer features each) and five actual values `Y`.
It predicts each value with the hard-coded affine formula
`calc_Y_hat(X1, X2) = 10*X1 + 2*X2 + 50`, builds the list `Y_hats` of those
predictions with a loop, and `SumOfSquaredErrors(Y, Y_hats, dimensions)` sums
`(Y[i] - Y_hats[i])**2` over the indices of `Y` in a second loop and divides
the sum by `dimensions`.

The model is one module, `SseCalculator` in `sse_calculator.dfy`:

- `CalcYHat` is the predictor, a pure function; the coefficients 10, 2 and the
  intercept 50 are the constants `Coef1`, `Coef2`, `Intercept`.
- `Predictions` is the specification of the prediction list (built by
  appending, row by row); `BuildPredictions` is the loop of lines 9-12 as a
  method with loop invariants, proved to return `Predictions(xs)`.
- `SumSq` is the specification of the squared-error sum over the indices of
  `y`, reading only the first `|y|` predictions; `SumOfSquaredErrors` is the
  accumulator of lines 14-18 as a method whose loop keeps
  `sse == SumSq(y[..i], yHats)`.
- The accumulator returns a `Result<real>`. It gives `Err(IndexOutOfRange)`
  when `Y_hats` is shorter than `Y` (the Python loop would raise an index
  error), `Err(DivisionByZero)` when `dimensions` is 0 and the sum was
  computed, and otherwise `Ok` of the integer sum divided exactly, as a real,
  by `dimensions`.

The integers are unbounded, as Python's are; the only non-integer step is the
final `/`, modelled as exact real division.

On the script's own data the predictor gives `[570, 1060, 824, 2054, 1328]`
and the squared-error sum is `4900 + 19600 + 576 + 2916 + 5184 = 33176`, so
with `dimensions = 5` the result is `33176/5`; for the first row the code
computes `10*50 + 2*10 + 50 = 570` (`ScriptData`).

## Model

| member | source | states |
|---|---|---|
| SseCalculator.CalcYHatAffine | exercises/MultipleRegression_SSE_Calculator.py:6 | the predictor is affine: the prediction of a sum of inputs is the sum of the predictions minus the intercept |
| SseCalculator.Predictions | exercises/MultipleRegression_SSE_Calculator.py:9-12 | the prediction list has one entry per observation, and entry i is the predictor applied to row i, in row order |
| SseCalculator.PredictionsAppend | exercises/MultipleRegression_SSE_Calculator.py:9-12 | predicting a concatenated table gives the concatenation of the two prediction lists (appending row by row preserves order) |
| SseCalculator.BuildPredictions | exercises/MultipleRegression_SSE_Calculator.py:9-12 | the append loop returns exactly the prediction list of the table; after k steps it holds the predictions of the first k rows |
| SseCalculator.Square | exercises/MultipleRegression_SSE_Calculator.py:17 | each squared term is non-negative, and zero exactly when the difference is zero |
| SseCalculator.SumSq | exercises/MultipleRegression_SSE_Calculator.py:15-17 | the squared-error sum is defined only when there are at least as many predictions as actual values, and it is non-negative |
| SseCalculator.SumSqReadsPrefixOnly | exercises/MultipleRegression_SSE_Calculator.py:16-17 | two prediction lists that agree on indices below `|y|` give the same sum |
| SseCalculator.SumSqIgnoresTail | exercises/MultipleRegression_SSE_Calculator.py:16-17 | trailing predictions beyond `|y|` do not change the sum |
| SseCalculator.SumSqStep | exercises/MultipleRegression_SSE_Calculator.py:17 | the accumulator loop's step lemma: extending the prefix of `y` by index i adds exactly that index's term `(y[i] - yHats[i])^2`, which keeps the loop's running sum equal to the sum over the indices seen |
| SseCalculator.SumSqZeroIff | exercises/MultipleRegression_SSE_Calculator.py:17 | the sum is 0 if and only if every actual value equals its prediction |
| SseCalculator.SumSqSymmetric | exercises/MultipleRegression_SSE_Calculator.py:17 | for equal lengths, swapping actual and predicted values gives the same sum |
| SseCalculator.SumOfSquaredErrors | exercises/MultipleRegression_SSE_Calculator.py:14-18 | index error exactly when `Y_hats` is shorter than `Y`; division error exactly when the lengths fit and `dimensions` is 0; otherwise (lengths fit and `dimensions` nonzero) the result is `Ok` of the squared-error sum divided by `dimensions`; the loop keeps the running sum equal to the sum over the indices seen, and non-negative |
| SseCalculator.ScriptData | exercises/MultipleRegression_SSE_Calculator.py:1-18 | on the script's table the predictions are `[570, 1060, 824, 2054, 1328]`, the sum is 33176, and divided by the row count 5 it is `33176/5` |

## Left out

- The `print` on line 20: it is output, and it calls `SumOfSquaredErrors` with two arguments where the definition takes three, so as written the script stops there with a missing-argument error; the model takes `dimensions` explicitly.
- Python's floating-point result of `/` on line 18: the model divides exactly in the reals, with no IEEE rounding.
- `dimensions` of any type other than integer (Python would also accept a float); the model takes an `int`.
- Rows of `X` with fewer than two entries: the table is fixed and every row has two, so an observation is a pair of integers.
- Any regression fitting: the coefficients 10, 2 and 50 are constants of the script, not learned.
