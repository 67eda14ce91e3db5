/** Mean absolute error (metrics/mae.py): the mean of the absolute elementwise differences. */
module MeanAbsoluteError {
  import opened Wrappers
  import opened Base
  import opened Vectors

  const Name: string := "mean_absolute_error"

  /** `MeanAbsoluteError()`: a metric named "mean_absolute_error". */
  method New() returns (m: Metric)
    ensures fresh(m) && m.name == Name
  {
    m := new Metric(Name);
  }

  /** The sum over i of |y_true[i] - y_pred[i]|, written position by position. */
  ghost function AbsoluteErrorSum(yTrue: seq<real>, yPred: seq<real>): real
    requires |yTrue| == |yPred|
  {
    if |yTrue| == 0 then 0.0
    else
      var k := |yTrue| - 1;
      var d := yTrue[k] - yPred[k];
      AbsoluteErrorSum(yTrue[..k], yPred[..k]) + (if d < 0.0 then -d else d)
  }

  /** `np.abs(y_true - y_pred)`: the array whose mean is taken. */
  function AbsoluteErrors(yTrue: seq<real>, yPred: seq<real>): seq<real>
    requires |yTrue| == |yPred|
  {
    Absolutes(Sub(yTrue, yPred))
  }

  /** Summing the array of absolute differences gives the position-by-position sum. */
  lemma {:induction false} AbsoluteErrorsSum(yTrue: seq<real>, yPred: seq<real>)
    requires |yTrue| == |yPred|
    ensures Sum(AbsoluteErrors(yTrue, yPred)) == AbsoluteErrorSum(yTrue, yPred)
  {
    if |yTrue| > 0 {
      var k := |yTrue| - 1;
      AbsoluteErrorsSum(yTrue[..k], yPred[..k]);
      assert AbsoluteErrors(yTrue, yPred)[..k] == AbsoluteErrors(yTrue[..k], yPred[..k]);
    }
  }

  /**
   * `MeanAbsoluteError.calculate`: inputs of different length raise
   * ValueError, empty inputs give NaN, otherwise the value is the sum over i
   * of |y_true[i] - y_pred[i]| divided by the length.
   */
  function Calculate(yTrue: seq<real>, yPred: seq<real>): (r: Result<MetricResult, Error>)
    ensures |yTrue| != |yPred| <==> r == Failure(ValueError(ShapeMessage("MAE")))
    ensures r.Success? <==> |yTrue| == |yPred|
    ensures r.Success? ==> r.value.name == Name && r.value.metadata == None
    ensures r.Success? ==> (r.value.value == NaN <==> |yTrue| == 0)
    ensures r.Success? && |yTrue| > 0 ==>
      r.value.value == Finite(AbsoluteErrorSum(yTrue, yPred) / |yTrue| as real)
  {
    if |yTrue| != |yPred| then
      Failure(ValueError(ShapeMessage("MAE")))
    else
      AbsoluteErrorsSum(yTrue, yPred);
      Success(NewResult(Mean(AbsoluteErrors(yTrue, yPred)), Name))
  }

  /** On non-empty inputs the value is a finite number, at least 0, and 0 exactly when the inputs are equal. */
  lemma MaeNonNegativeAndZeroIffEqual(yTrue: seq<real>, yPred: seq<real>)
    requires |yTrue| == |yPred| > 0
    ensures Calculate(yTrue, yPred).Success?
    ensures var v := Calculate(yTrue, yPred).value.value;
      v.Finite? && v.val >= 0.0 && (v.val == 0.0 <==> yTrue == yPred)
  {
    var q := AbsoluteErrors(yTrue, yPred);
    AbsoluteErrorsSum(yTrue, yPred);
    SumOfNonNegative(q);
    var n := |yTrue| as real;
    assert Sum(q) / n * n == Sum(q);
    if yTrue != yPred {
      var i :| 0 <= i < |yTrue| && yTrue[i] != yPred[i];
      assert q[i] != 0.0;
    } else {
      assert forall i :: 0 <= i < |q| ==> q[i] == 0.0;
    }
  }

  /** Empty inputs give a NaN result rather than an error. */
  lemma MaeOfEmpty()
    ensures Calculate([], []) == Success(NewResult(NaN, Name))
  {
  }

  /** Swapping truth and prediction changes nothing, errors included. */
  lemma MaeSymmetric(yTrue: seq<real>, yPred: seq<real>)
    ensures Calculate(yTrue, yPred) == Calculate(yPred, yTrue)
  {
    if |yTrue| == |yPred| {
      assert AbsoluteErrors(yTrue, yPred) == AbsoluteErrors(yPred, yTrue);
    }
  }

  /** The documented example: [3, -0.5, 2, 7] against [2.5, 0, 2, 8] gives 0.5. */
  lemma MaeExample()
    ensures Calculate([3.0, -0.5, 2.0, 7.0], [2.5, 0.0, 2.0, 8.0])
      == Success(NewResult(Finite(0.5), Name))
  {
    var q := AbsoluteErrors([3.0, -0.5, 2.0, 7.0], [2.5, 0.0, 2.0, 8.0]);
    assert q == [0.5, 0.5, 0.0, 1.0];
    assert q[..3] == [0.5, 0.5, 0.0] && q[..3][..2] == [0.5, 0.5] && q[..3][..2][..1] == [0.5];
    assert Sum([0.5]) == 0.5;
    assert Sum([0.5, 0.5]) == 1.0;
    assert Sum([0.5, 0.5, 0.0]) == 1.0;
    assert Sum(q) == 2.0;
  }
}
