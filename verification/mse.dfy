/** Mean squared error (metrics/mse.py): the mean of the squared elementwise differences. */
module MeanSquaredError {
  import opened Wrappers
  import opened Base
  import opened Vectors

  const Name: string := "mean_squared_error"

  /** `MeanSquaredError()`: a metric named "mean_squared_error". */
  method New() returns (m: Metric)
    ensures fresh(m) && m.name == Name
  {
    m := new Metric(Name);
  }

  /** The sum over i of (y_true[i] - y_pred[i])^2, written position by position. */
  ghost function SquaredErrorSum(yTrue: seq<real>, yPred: seq<real>): real
    requires |yTrue| == |yPred|
  {
    if |yTrue| == 0 then 0.0
    else
      var k := |yTrue| - 1;
      SquaredErrorSum(yTrue[..k], yPred[..k]) + (yTrue[k] - yPred[k]) * (yTrue[k] - yPred[k])
  }

  /** `(y_true - y_pred) ** 2`: the array whose mean is taken. */
  function SquaredErrors(yTrue: seq<real>, yPred: seq<real>): seq<real>
    requires |yTrue| == |yPred|
  {
    Squares(Sub(yTrue, yPred))
  }

  /** Summing the array of squared differences gives the position-by-position sum. */
  lemma {:induction false} SquaredErrorsSum(yTrue: seq<real>, yPred: seq<real>)
    requires |yTrue| == |yPred|
    ensures Sum(SquaredErrors(yTrue, yPred)) == SquaredErrorSum(yTrue, yPred)
  {
    if |yTrue| > 0 {
      var k := |yTrue| - 1;
      SquaredErrorsSum(yTrue[..k], yPred[..k]);
      assert SquaredErrors(yTrue, yPred)[..k] == SquaredErrors(yTrue[..k], yPred[..k]);
    }
  }

  /**
   * `MeanSquaredError.calculate`: inputs of different length raise ValueError,
   * empty inputs give NaN, otherwise the value is the sum over i of
   * (y_true[i] - y_pred[i])^2 divided by the length.
   */
  function Calculate(yTrue: seq<real>, yPred: seq<real>): (r: Result<MetricResult, Error>)
    ensures |yTrue| != |yPred| <==> r == Failure(ValueError(ShapeMessage("MSE")))
    ensures r.Success? <==> |yTrue| == |yPred|
    ensures r.Success? ==> r.value.name == Name && r.value.metadata == None
    ensures r.Success? ==> (r.value.value == NaN <==> |yTrue| == 0)
    ensures r.Success? && |yTrue| > 0 ==>
      r.value.value == Finite(SquaredErrorSum(yTrue, yPred) / |yTrue| as real)
  {
    if |yTrue| != |yPred| then
      Failure(ValueError(ShapeMessage("MSE")))
    else
      SquaredErrorsSum(yTrue, yPred);
      Success(NewResult(Mean(SquaredErrors(yTrue, yPred)), Name))
  }

  /** On non-empty inputs the value is a finite number, at least 0, and 0 exactly when the inputs are equal. */
  lemma MseNonNegativeAndZeroIffEqual(yTrue: seq<real>, yPred: seq<real>)
    requires |yTrue| == |yPred| > 0
    ensures Calculate(yTrue, yPred).Success?
    ensures var v := Calculate(yTrue, yPred).value.value;
      v.Finite? && v.val >= 0.0 && (v.val == 0.0 <==> yTrue == yPred)
  {
    var q := SquaredErrors(yTrue, yPred);
    SquaredErrorsSum(yTrue, yPred);
    forall i | 0 <= i < |q|
      ensures q[i] >= 0.0 && (q[i] == 0.0 <==> yTrue[i] == yPred[i])
    {
      SquareSign(yTrue[i] - yPred[i]);
    }
    SumOfNonNegative(q);
    var n := |yTrue| as real;
    assert Sum(q) / n * n == Sum(q);
    if yTrue != yPred {
      var i :| 0 <= i < |yTrue| && yTrue[i] != yPred[i];
      assert q[i] != 0.0;
    }
  }

  lemma SquareSign(x: real)
    ensures Square(x) >= 0.0
    ensures Square(x) == 0.0 <==> x == 0.0
  {
    if x != 0.0 {
      calc {
        Square(x);
        x * x;
      >
        0.0;
      }
    }
  }

  /** Empty inputs give a NaN result rather than an error. */
  lemma MseOfEmpty()
    ensures Calculate([], []) == Success(NewResult(NaN, Name))
  {
  }

  /** Swapping truth and prediction changes nothing, errors included. */
  lemma MseSymmetric(yTrue: seq<real>, yPred: seq<real>)
    ensures Calculate(yTrue, yPred) == Calculate(yPred, yTrue)
  {
    if |yTrue| == |yPred| {
      forall i | 0 <= i < |yTrue|
        ensures Square(yTrue[i] - yPred[i]) == Square(yPred[i] - yTrue[i])
      {
        var d := yTrue[i] - yPred[i];
        assert yPred[i] - yTrue[i] == -d;
        assert (-d) * (-d) == d * d;
      }
      assert SquaredErrors(yTrue, yPred) == SquaredErrors(yPred, yTrue);
    }
  }

  /** The documented example: [3, -0.5, 2, 7] against [2.5, 0, 2, 8] gives 0.375. */
  lemma MseExample()
    ensures Calculate([3.0, -0.5, 2.0, 7.0], [2.5, 0.0, 2.0, 8.0])
      == Success(NewResult(Finite(0.375), Name))
  {
    var q := SquaredErrors([3.0, -0.5, 2.0, 7.0], [2.5, 0.0, 2.0, 8.0]);
    assert q == [0.25, 0.25, 0.0, 1.0];
    assert q[..3] == [0.25, 0.25, 0.0] && q[..3][..2] == [0.25, 0.25] && q[..3][..2][..1] == [0.25];
    assert Sum([0.25]) == 0.25;
    assert Sum([0.25, 0.25]) == 0.5;
    assert Sum([0.25, 0.25, 0.0]) == 0.5;
    assert Sum(q) == 1.5;
  }
}
