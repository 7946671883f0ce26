/**
 * A model of a small regression script: a fixed affine predictor, a loop that
 * maps it over a table of observations, and a sum-of-squared-errors
 * accumulator normalised by a caller-supplied divisor.
 */
module SseCalculator {

  /** One row of the observation table: two integer features. */
  datatype Observation = Observation(x1: int, x2: int)

  /** The ways the accumulator can fail when called on bad arguments. */
  datatype SseError =
    | IndexOutOfRange   // Y_hats is shorter than Y: the loop reads past its end
    | DivisionByZero    // dimensions is 0: the final division fails

  datatype Result<T> = Ok(value: T) | Err(error: SseError)

  // The hard-coded coefficients and intercept of the predictor.
  const Coef1: int := 10
  const Coef2: int := 2
  const Intercept: int := 50

  /** The observation table and the actual values of the script. */
  const X: seq<Observation> :=
    [Observation(50, 10), Observation(100, 5), Observation(75, 12),
     Observation(200, 2), Observation(125, 14)]
  const Y: seq<int> := [500, 1200, 800, 2000, 1400]

  // ---------------------------------------------------------------------
  // The predictor
  // ---------------------------------------------------------------------

  /** The affine predictor with fixed coefficients. */
  function CalcYHat(x1: int, x2: int): int
  {
    Coef1 * x1 + Coef2 * x2 + Intercept
  }

  /** The predictor is affine: it maps sums to sums, up to the intercept. */
  lemma CalcYHatAffine(a1: int, a2: int, b1: int, b2: int)
    ensures CalcYHat(a1 + b1, a2 + b2) == CalcYHat(a1, a2) + CalcYHat(b1, b2) - Intercept
  {
  }

  // ---------------------------------------------------------------------
  // Building the predictions
  // ---------------------------------------------------------------------

  /**
   * The predictions for a table, built by appending one prediction per row,
   * in the order of the rows.
   */
  function Predictions(xs: seq<Observation>): (r: seq<int>)
    ensures |r| == |xs|
    ensures forall i :: 0 <= i < |xs| ==> r[i] == CalcYHat(xs[i].x1, xs[i].x2)
  {
    if xs == [] then []
    else Predictions(xs[..|xs| - 1]) + [CalcYHat(xs[|xs| - 1].x1, xs[|xs| - 1].x2)]
  }

  /** The predictions of a concatenated table are the concatenated predictions. */
  lemma PredictionsAppend(xs: seq<Observation>, ys: seq<Observation>)
    ensures Predictions(xs + ys) == Predictions(xs) + Predictions(ys)
  {
  }

  /** The loop that fills Y_hats by appending one prediction per observation. */
  method BuildPredictions(xs: seq<Observation>) returns (yHats: seq<int>)
    ensures yHats == Predictions(xs)
  {
    yHats := [];
    var i := 0;
    while i < |xs|
      invariant 0 <= i <= |xs|
      invariant yHats == Predictions(xs[..i])
    {
      assert xs[..i + 1][..i] == xs[..i];
      yHats := yHats + [CalcYHat(xs[i].x1, xs[i].x2)];
      i := i + 1;
    }
    assert xs[..i] == xs;
  }

  // ---------------------------------------------------------------------
  // The squared-error sum
  // ---------------------------------------------------------------------

  function Square(d: int): (r: int)
    ensures r >= 0
    ensures r == 0 <==> d == 0
  {
    d * d
  }

  /**
   * The sum over the indices of y of (y[i] - yHats[i])^2. Only the first |y|
   * entries of yHats are read, so yHats must have at least that many.
   */
  function SumSq(y: seq<int>, yHats: seq<int>): (r: int)
    requires |yHats| >= |y|
    ensures r >= 0
  {
    if y == [] then 0
    else SumSq(y[..|y| - 1], yHats) + Square(y[|y| - 1] - yHats[|y| - 1])
  }

  /** SumSq reads only yHats[0..|y|): entries beyond that do not matter. */
  lemma {:induction false} SumSqReadsPrefixOnly(y: seq<int>, yHats: seq<int>, other: seq<int>)
    requires |yHats| >= |y| && |other| >= |y|
    requires forall i :: 0 <= i < |y| ==> yHats[i] == other[i]
    ensures SumSq(y, yHats) == SumSq(y, other)
  {
    if y != [] {
      SumSqReadsPrefixOnly(y[..|y| - 1], yHats, other);
    }
  }

  /** In particular SumSq ignores trailing predictions. */
  lemma SumSqIgnoresTail(y: seq<int>, yHats: seq<int>)
    requires |yHats| >= |y|
    ensures SumSq(y, yHats) == SumSq(y, yHats[..|y|])
  {
    SumSqReadsPrefixOnly(y, yHats, yHats[..|y|]);
  }

  /** The sum is zero exactly when the predictions match the actual values. */
  lemma {:induction false} SumSqZeroIff(y: seq<int>, yHats: seq<int>)
    requires |yHats| >= |y|
    ensures SumSq(y, yHats) == 0 <==> forall i :: 0 <= i < |y| ==> y[i] == yHats[i]
  {
    if y != [] {
      var n := |y| - 1;
      SumSqZeroIff(y[..n], yHats);
      if SumSq(y, yHats) == 0 {
        forall i | 0 <= i < |y| ensures y[i] == yHats[i] {
          if i < n {
            assert y[..n][i] == y[i];
          }
        }
      }
      if forall i :: 0 <= i < |y| ==> y[i] == yHats[i] {
        assert forall i :: 0 <= i < n ==> y[..n][i] == yHats[i];
      }
    }
  }

  /** Swapping actual and predicted values gives the same sum. */
  lemma {:induction false} SumSqSymmetric(y: seq<int>, yHats: seq<int>)
    requires |y| == |yHats|
    ensures SumSq(y, yHats) == SumSq(yHats, y)
  {
    if y != [] {
      var n := |y| - 1;
      SumSqReadsPrefixOnly(y[..n], yHats, yHats[..n]);
      SumSqReadsPrefixOnly(yHats[..n], y, y[..n]);
      SumSqSymmetric(y[..n], yHats[..n]);
      assert Square(y[n] - yHats[n]) == Square(yHats[n] - y[n]);
    }
  }

  /** The accumulator loop's step: one more index adds its squared error to the sum. */
  lemma SumSqStep(y: seq<int>, yHats: seq<int>, i: nat)
    requires i < |y| && i < |yHats|
    ensures SumSq(y[..i + 1], yHats) == SumSq(y[..i], yHats) + Square(y[i] - yHats[i])
  {
    assert y[..i + 1][..i] == y[..i];
  }

  /**
   * The accumulator: sums the squared errors over the indices of y and
   * divides the sum by dimensions. Reading past the end of yHats and
   * dividing by zero are the two ways it fails; the index error comes first,
   * since the loop runs before the division.
   */
  method SumOfSquaredErrors(y: seq<int>, yHats: seq<int>, dimensions: int) returns (r: Result<real>)
    ensures r == Err(IndexOutOfRange) <==> |yHats| < |y|
    ensures r == Err(DivisionByZero) <==> |yHats| >= |y| && dimensions == 0
    ensures r.Ok? ==> |yHats| >= |y| && r.value == SumSq(y, yHats) as real / dimensions as real
    ensures |yHats| >= |y| && dimensions != 0 ==> r == Ok(SumSq(y, yHats) as real / dimensions as real)
  {
    var sse := 0;
    var i := 0;
    while i < |y|
      invariant 0 <= i <= |y| && i <= |yHats|
      invariant sse == SumSq(y[..i], yHats) && sse >= 0
    {
      if i >= |yHats| {
        return Err(IndexOutOfRange);
      }
      SumSqStep(y, yHats, i);
      sse := sse + (y[i] - yHats[i]) * (y[i] - yHats[i]);
      i := i + 1;
    }
    assert y[..i] == y;
    if dimensions == 0 {
      return Err(DivisionByZero);
    }
    r := Ok(sse as real / dimensions as real);
  }

  // ---------------------------------------------------------------------
  // The script's own data
  // ---------------------------------------------------------------------

  /** The predictions, the squared-error sum and the normalised result on the table. */
  lemma ScriptData()
    ensures Predictions(X) == [570, 1060, 824, 2054, 1328]
    ensures SumSq(Y, Predictions(X)) == 4900 + 19600 + 576 + 2916 + 5184 == 33176
    ensures SumSq(Y, Predictions(X)) as real / |X| as real == 33176.0 / 5.0
  {
    var p := Predictions(X);
    assert p == [570, 1060, 824, 2054, 1328];
    SumSqStep(Y, p, 0);
    SumSqStep(Y, p, 1);
    SumSqStep(Y, p, 2);
    SumSqStep(Y, p, 3);
    SumSqStep(Y, p, 4);
    assert Y[..0] == [] && Y[..5] == Y;
  }
}
