/** The accuracy metric (metrics/accuracy.py): the share of positions predicted exactly. */
module Accuracy {
  import opened Wrappers
  import opened Base
  import opened Vectors

  const Name: string := "accuracy"

  /** `Accuracy()`: a metric named "accuracy". */
  method New() returns (m: Metric)
    ensures fresh(m) && m.name == Name
  {
    m := new Metric(Name);
  }

  /** The positions at which truth and prediction agree. */
  ghost function CorrectIndices<T>(yTrue: seq<T>, yPred: seq<T>): set<nat>
    requires |yTrue| == |yPred|
  {
    set i: nat | i < |yTrue| && yTrue[i] == yPred[i]
  }

  /**
   * `Accuracy.calculate`: inputs of different length raise ValueError, empty
   * inputs divide by zero, otherwise the value is the number of agreeing
   * positions over the number of positions.
   */
  function Calculate<T(==)>(yTrue: seq<T>, yPred: seq<T>): (r: Result<MetricResult, Error>)
    ensures |yTrue| != |yPred| <==> r == Failure(ValueError(ShapeMessage("Accuracy")))
    ensures |yTrue| == |yPred| == 0 <==> r == Failure(ZeroDivisionError)
    ensures r.Success? <==> 0 < |yTrue| == |yPred|
    ensures r.Success? ==> r.value.name == Name && r.value.metadata == None
    ensures r.Success? ==>
      r.value.value == Finite(|CorrectIndices(yTrue, yPred)| as real / |yTrue| as real)
  {
    if |yTrue| != |yPred| then
      Failure(ValueError(ShapeMessage("Accuracy")))
    else
      var correct := Count(Equal(yTrue, yPred));
      if |yTrue| == 0 then
        Failure(ZeroDivisionError)
      else
        CountIsCardinality(Equal(yTrue, yPred));
        assert TrueIndices(Equal(yTrue, yPred)) == CorrectIndices(yTrue, yPred);
        Success(NewResult(Finite(correct as real / |yTrue| as real), Name))
  }

  /** A count of c out of n > 0 positions, as a share. */
  lemma Share(c: nat, n: nat)
    requires c <= n && n > 0
    ensures 0.0 <= c as real / n as real <= 1.0
    ensures c as real / n as real == 1.0 <==> c == n
    ensures c as real / n as real == 0.0 <==> c == 0
  {
    var q := c as real / n as real;
    assert q * n as real == c as real;
  }

  /** The value on non-empty inputs of one length, as a count of the mask. */
  lemma ValueIsCount<T>(yTrue: seq<T>, yPred: seq<T>)
    requires |yTrue| == |yPred| > 0
    ensures Calculate(yTrue, yPred).Success?
    ensures |CorrectIndices(yTrue, yPred)| == Count(Equal(yTrue, yPred)) <= |yTrue|
  {
    var m := Equal(yTrue, yPred);
    CountIsCardinality(m);
    assert TrueIndices(m) == CorrectIndices(yTrue, yPred);
  }

  /** On non-empty inputs of one length the accuracy is a number in [0, 1]. */
  lemma AccuracyInUnitInterval<T>(yTrue: seq<T>, yPred: seq<T>)
    requires |yTrue| == |yPred| > 0
    ensures Calculate(yTrue, yPred).Success?
    ensures var v := Calculate(yTrue, yPred).value.value;
      v.Finite? && 0.0 <= v.val <= 1.0
  {
    ValueIsCount(yTrue, yPred);
    Share(|CorrectIndices(yTrue, yPred)|, |yTrue|);
  }

  /** The accuracy is exactly 1 when, and only when, every prediction is right. */
  lemma AccuracyIsOneIffEqual<T>(yTrue: seq<T>, yPred: seq<T>)
    requires |yTrue| == |yPred| > 0
    ensures Calculate(yTrue, yPred).Success?
    ensures Calculate(yTrue, yPred).value.value == Finite(1.0) <==> yTrue == yPred
  {
    var m := Equal(yTrue, yPred);
    ValueIsCount(yTrue, yPred);
    Share(Count(m), |yTrue|);
    if yTrue == yPred {
      assert Count(m) == |m|;
    } else {
      var i :| 0 <= i < |yTrue| && yTrue[i] != yPred[i];
      assert !m[i];
      assert Count(m) < |m|;
    }
  }

  /** The accuracy of any non-empty sequence against itself is 1. */
  lemma AccuracyOfSelf<T>(y: seq<T>)
    requires |y| > 0
    ensures Calculate(y, y) == Success(NewResult(Finite(1.0), Name))
  {
    AccuracyIsOneIffEqual(y, y);
  }

  /** The accuracy is exactly 0 when, and only when, no prediction is right. */
  lemma AccuracyIsZeroIffAllWrong<T>(yTrue: seq<T>, yPred: seq<T>)
    requires |yTrue| == |yPred| > 0
    ensures Calculate(yTrue, yPred).Success?
    ensures Calculate(yTrue, yPred).value.value == Finite(0.0)
      <==> forall i :: 0 <= i < |yTrue| ==> yTrue[i] != yPred[i]
  {
    ValueIsCount(yTrue, yPred);
    Share(Count(Equal(yTrue, yPred)), |yTrue|);
  }

  /** Swapping truth and prediction changes nothing, errors included. */
  lemma AccuracySymmetric<T>(yTrue: seq<T>, yPred: seq<T>)
    ensures Calculate(yTrue, yPred) == Calculate(yPred, yTrue)
  {
    if |yTrue| == |yPred| {
      assert CorrectIndices(yTrue, yPred) == CorrectIndices(yPred, yTrue);
    }
  }

  /** The documented example: [1, 0, 1, 1] against [1, 0, 0, 1] gives 0.75. */
  lemma AccuracyExample()
    ensures Calculate([1, 0, 1, 1], [1, 0, 0, 1]) == Success(NewResult(Finite(0.75), Name))
  {
    var t, p := [1, 0, 1, 1], [1, 0, 0, 1];
    assert CorrectIndices(t, p) == {0, 1, 3};
  }
}
