/**
 * The F1 score (metrics/f1_score.py): the harmonic mean of precision and
 * recall, counted over binary labels 0 and 1.
 */
module F1Score {
  import opened Wrappers
  import opened Base
  import opened Vectors

  const Name: string := "f1_score"

  /** The positive and the negative class label. */
  const Positive: real := 1.0
  const Negative: real := 0.0

  /** `F1Score()`: a metric named "f1_score". */
  method New() returns (m: Metric)
    ensures fresh(m) && m.name == Name
  {
    m := new Metric(Name);
  }

  /** `(y_true == t) & (y_pred == p)`: the positions labelled t and predicted p. */
  function Cell(yTrue: seq<real>, yPred: seq<real>, t: real, p: real): (m: seq<bool>)
    requires |yTrue| == |yPred|
    ensures |m| == |yTrue|
    ensures forall i :: 0 <= i < |m| ==> m[i] == (yTrue[i] == t && yPred[i] == p)
  {
    seq(|yTrue|, i requires 0 <= i < |yTrue| => yTrue[i] == t && yPred[i] == p)
  }

  /** `np.sum((y_true == 1) & (y_pred == 1))`: the positions labelled 1 and predicted 1. */
  function TruePositives(yTrue: seq<real>, yPred: seq<real>): (n: nat)
    requires |yTrue| == |yPred|
    ensures n == |CellIndices(yTrue, yPred, Positive, Positive)|
  {
    CellCardinality(yTrue, yPred, Positive, Positive);
    Count(Cell(yTrue, yPred, Positive, Positive))
  }

  /** `np.sum((y_true == 0) & (y_pred == 1))`: the positions labelled 0 and predicted 1. */
  function FalsePositives(yTrue: seq<real>, yPred: seq<real>): (n: nat)
    requires |yTrue| == |yPred|
    ensures n == |CellIndices(yTrue, yPred, Negative, Positive)|
  {
    CellCardinality(yTrue, yPred, Negative, Positive);
    Count(Cell(yTrue, yPred, Negative, Positive))
  }

  /** `np.sum((y_true == 1) & (y_pred == 0))`: the positions labelled 1 and predicted 0. */
  function FalseNegatives(yTrue: seq<real>, yPred: seq<real>): (n: nat)
    requires |yTrue| == |yPred|
    ensures n == |CellIndices(yTrue, yPred, Positive, Negative)|
  {
    CellCardinality(yTrue, yPred, Positive, Negative);
    Count(Cell(yTrue, yPred, Positive, Negative))
  }

  /** The positions of the fourth cell, which no count of the source uses. */
  ghost function TrueNegatives(yTrue: seq<real>, yPred: seq<real>): nat
    requires |yTrue| == |yPred|
  {
    Count(Cell(yTrue, yPred, Negative, Negative))
  }

  ghost predicate IsLabel(x: real)
  {
    x == Positive || x == Negative
  }

  /** The positions where truth or prediction is neither 0 nor 1. */
  ghost function Unlabelled(yTrue: seq<real>, yPred: seq<real>): (m: seq<bool>)
    requires |yTrue| == |yPred|
  {
    seq(|yTrue|, i requires 0 <= i < |yTrue| => !(IsLabel(yTrue[i]) && IsLabel(yPred[i])))
  }

  /** The positions where truth is t and prediction is p, as a set. */
  ghost function CellIndices(yTrue: seq<real>, yPred: seq<real>, t: real, p: real): set<nat>
    requires |yTrue| == |yPred|
  {
    set i: nat | i < |yTrue| && yTrue[i] == t && yPred[i] == p
  }

  /** Counting a cell's mask counts exactly the cell's positions. */
  lemma CellCardinality(yTrue: seq<real>, yPred: seq<real>, t: real, p: real)
    requires |yTrue| == |yPred|
    ensures Count(Cell(yTrue, yPred, t, p)) == |CellIndices(yTrue, yPred, t, p)|
  {
    var m := Cell(yTrue, yPred, t, p);
    CountIsCardinality(m);
    assert TrueIndices(m) == CellIndices(yTrue, yPred, t, p);
  }

  /**
   * Every position is a true positive, a false positive, a false negative, a
   * true negative or carries a label other than 0 and 1, and is only one of
   * these: labels other than 0 and 1 enter none of the counts.
   */
  lemma {:induction false} ConfusionPartition(yTrue: seq<real>, yPred: seq<real>)
    requires |yTrue| == |yPred|
    ensures TruePositives(yTrue, yPred) + FalsePositives(yTrue, yPred)
      + FalseNegatives(yTrue, yPred) + TrueNegatives(yTrue, yPred)
      + Count(Unlabelled(yTrue, yPred)) == |yTrue|
  {
    if |yTrue| > 0 {
      var k := |yTrue| - 1;
      ConfusionPartition(yTrue[..k], yPred[..k]);
      CellStep(yTrue, yPred, Positive, Positive);
      CellStep(yTrue, yPred, Negative, Positive);
      CellStep(yTrue, yPred, Positive, Negative);
      CellStep(yTrue, yPred, Negative, Negative);
      UnlabelledStep(yTrue, yPred);
    }
  }

  /** A cell's count over an array is its count over all but the last position, plus the last. */
  lemma CellStep(yTrue: seq<real>, yPred: seq<real>, t: real, p: real)
    requires |yTrue| == |yPred| > 0
    ensures var k := |yTrue| - 1;
      Count(Cell(yTrue, yPred, t, p)) == Count(Cell(yTrue[..k], yPred[..k], t, p))
        + (if yTrue[k] == t && yPred[k] == p then 1 else 0)
  {
    var k := |yTrue| - 1;
    assert Cell(yTrue, yPred, t, p)[..k] == Cell(yTrue[..k], yPred[..k], t, p);
  }

  lemma UnlabelledStep(yTrue: seq<real>, yPred: seq<real>)
    requires |yTrue| == |yPred| > 0
    ensures var k := |yTrue| - 1;
      Count(Unlabelled(yTrue, yPred)) == Count(Unlabelled(yTrue[..k], yPred[..k]))
        + (if IsLabel(yTrue[k]) && IsLabel(yPred[k]) then 0 else 1)
  {
    var k := |yTrue| - 1;
    assert Unlabelled(yTrue, yPred)[..k] == Unlabelled(yTrue[..k], yPred[..k]);
  }

  /** q is num over den, and 0 when den is 0: the one number with q * den == num that is 0 for den == 0. */
  ghost predicate IsGuardedRatio(q: real, num: nat, den: nat)
  {
    q * den as real == num as real && (den == 0 ==> q == 0.0)
  }

  /** `tp / (tp + fp) if (tp + fp) > 0 else 0.0`: a guarded ratio of counts. */
  function Ratio(num: nat, den: nat): (q: real)
    requires num <= den
    ensures IsGuardedRatio(q, num, den)
    ensures 0.0 <= q <= 1.0
    ensures q == 0.0 <==> num == 0
    ensures q == 1.0 <==> 0 < num == den
  {
    if den > 0 then num as real / den as real else 0.0
  }

  /**
   * `F1Score._precision_recall`: precision is TP over TP + FP and recall TP
   * over TP + FN, each 0 when its denominator is 0.
   */
  function PrecisionRecall(yTrue: seq<real>, yPred: seq<real>): (pr: (real, real))
    requires |yTrue| == |yPred|
    ensures var tp := TruePositives(yTrue, yPred);
      && IsGuardedRatio(pr.0, tp, tp + FalsePositives(yTrue, yPred))
      && IsGuardedRatio(pr.1, tp, tp + FalseNegatives(yTrue, yPred))
    ensures 0.0 <= pr.0 <= 1.0 && 0.0 <= pr.1 <= 1.0
  {
    var tp, fp, fn := TruePositives(yTrue, yPred), FalsePositives(yTrue, yPred), FalseNegatives(yTrue, yPred);
    var precision, recall := Ratio(tp, tp + fp), Ratio(tp, tp + fn);
    (precision, recall)
  }

  /** `0.0 if p + r == 0 else 2 * p * r / (p + r)`: the guarded harmonic mean. */
  function HarmonicMean(p: real, r: real): (h: real)
    ensures p + r == 0.0 ==> h == 0.0
    ensures p + r != 0.0 ==> h * (p + r) == 2.0 * p * r
  {
    if p + r == 0.0 then 0.0 else 2.0 * p * r / (p + r)
  }

  /** The harmonic mean of two non-negative numbers lies between them. */
  lemma HarmonicMeanBetween(p: real, r: real)
    requires 0.0 <= p && 0.0 <= r
    ensures p <= r ==> p <= HarmonicMean(p, r) <= r
    ensures r <= p ==> r <= HarmonicMean(p, r) <= p
  {
    if p + r != 0.0 {
      var h := HarmonicMean(p, r);
      assert h * (p + r) == 2.0 * p * r;
      assert (h - p) * (p + r) == p * (r - p);
      assert (r - h) * (p + r) == r * (r - p);
      if p < r {
        SignOfProduct(p, r - p);
        SignOfProduct(r, r - p);
        SignOfProduct(h - p, p + r);
        SignOfProduct(r - h, p + r);
      } else if r < p {
        SignOfProduct(p, p - r);
        SignOfProduct(r, p - r);
        assert (p - h) * (p + r) == p * (p - r);
        assert (h - r) * (p + r) == r * (p - r);
        SignOfProduct(p - h, p + r);
        SignOfProduct(h - r, p + r);
      } else {
        assert (h - p) * (p + r) == 0.0;
        SignOfProduct(h - p, p + r);
        SignOfProduct(p - h, p + r);
      }
    }
  }

  lemma SignOfProduct(x: real, y: real)
    requires y > 0.0
    ensures x * y >= 0.0 <==> x >= 0.0
  {
  }

  /** The F1 score written directly in the counts: 2 TP / (2 TP + FP + FN), and 0 without true positives. */
  ghost function Dice(tp: nat, fp: nat, fn: nat): real
  {
    if tp == 0 then 0.0 else (2 * tp) as real / (2 * tp + fp + fn) as real
  }

  /** The harmonic mean of the guarded precision and recall is the Dice form. */
  lemma HarmonicMeanOfCounts(tp: nat, fp: nat, fn: nat)
    ensures HarmonicMean(Ratio(tp, tp + fp), Ratio(tp, tp + fn)) == Dice(tp, fp, fn)
  {
    if tp > 0 {
      var p, r := Ratio(tp, tp + fp), Ratio(tp, tp + fn);
      var a, b, t := (tp + fp) as real, (tp + fn) as real, tp as real;
      var f := HarmonicMean(p, r);
      assert p * a == t && r * b == t;
      assert p > 0.0 && r > 0.0;
      assert f * (p + r) == 2.0 * p * r;
      assert f * (p + r) * a * b == 2.0 * p * r * a * b;
      assert f * (t * b + t * a) == 2.0 * t * t;
      assert f * (a + b) == 2.0 * t;
      assert a + b == (2 * tp + fp + fn) as real;
    }
  }

  /**
   * `F1Score.calculate`: inputs of different length raise ValueError; on any
   * inputs of one length, the empty ones included, the score is defined, lies
   * in [0, 1] and equals 2 TP / (2 TP + FP + FN), or 0 without true positives.
   */
  function Calculate(yTrue: seq<real>, yPred: seq<real>): (r: Result<MetricResult, Error>)
    ensures |yTrue| != |yPred| <==> r == Failure(ValueError(ShapeMessage("F1Score")))
    ensures r.Success? <==> |yTrue| == |yPred|
    ensures r.Success? ==> r.value.name == Name && r.value.metadata == None
    ensures r.Success? ==> r.value.value.Finite? && 0.0 <= r.value.value.val <= 1.0
    ensures r.Success? ==>
      r.value.value.val == Dice(TruePositives(yTrue, yPred), FalsePositives(yTrue, yPred), FalseNegatives(yTrue, yPred))
  {
    if |yTrue| != |yPred| then
      Failure(ValueError(ShapeMessage("F1Score")))
    else
      var (precision, recall) := PrecisionRecall(yTrue, yPred);
      HarmonicMeanOfCounts(TruePositives(yTrue, yPred), FalsePositives(yTrue, yPred), FalseNegatives(yTrue, yPred));
      HarmonicMeanBetween(precision, recall);
      Success(NewResult(Finite(HarmonicMean(precision, recall)), Name))
  }

  /** The Dice form is 0 exactly without true positives, and 1 exactly when there are no errors. */
  lemma DiceExtremes(tp: nat, fp: nat, fn: nat)
    ensures Dice(tp, fp, fn) == 0.0 <==> tp == 0
    ensures Dice(tp, fp, fn) == 1.0 <==> tp > 0 && fp == 0 && fn == 0
  {
    if tp > 0 {
      var q, d := Dice(tp, fp, fn), (2 * tp + fp + fn) as real;
      assert q * d == (2 * tp) as real;
      SignOfProduct(-q, d);
      assert q > 0.0;
      if q == 1.0 {
        assert d == (2 * tp) as real;
      }
      if fp == 0 && fn == 0 {
        assert (q - 1.0) * d == 0.0;
        SignOfProduct(q - 1.0, d);
        SignOfProduct(1.0 - q, d);
      }
    }
  }

  /** The score is 0 exactly when there is no true positive. */
  lemma F1IsZeroIffNoTruePositive(yTrue: seq<real>, yPred: seq<real>)
    requires |yTrue| == |yPred|
    ensures Calculate(yTrue, yPred).Success?
    ensures Calculate(yTrue, yPred).value.value == Finite(0.0) <==> TruePositives(yTrue, yPred) == 0
  {
    DiceExtremes(TruePositives(yTrue, yPred), FalsePositives(yTrue, yPred), FalseNegatives(yTrue, yPred));
  }

  /** The score is 1 exactly when there are true positives and no errors on either label. */
  lemma F1IsOneIffNoMistake(yTrue: seq<real>, yPred: seq<real>)
    requires |yTrue| == |yPred|
    ensures Calculate(yTrue, yPred).Success?
    ensures Calculate(yTrue, yPred).value.value == Finite(1.0)
      <==> TruePositives(yTrue, yPred) > 0 && FalsePositives(yTrue, yPred) == 0 && FalseNegatives(yTrue, yPred) == 0
  {
    DiceExtremes(TruePositives(yTrue, yPred), FalsePositives(yTrue, yPred), FalseNegatives(yTrue, yPred));
  }

  /** Empty inputs give a score of 0 rather than a division by zero. */
  lemma F1OfEmpty()
    ensures Calculate([], []) == Success(NewResult(Finite(0.0), Name))
  {
    assert TruePositives([], []) == 0;
  }

  /** The documented example: [1, 0, 1, 1, 0, 0] against [1, 0, 0, 1, 0, 1] gives 2/3. */
  lemma F1Example()
    ensures Calculate([1.0, 0.0, 1.0, 1.0, 0.0, 0.0], [1.0, 0.0, 0.0, 1.0, 0.0, 1.0])
      == Success(NewResult(Finite(2.0 / 3.0), Name))
  {
    var t, p := [1.0, 0.0, 1.0, 1.0, 0.0, 0.0], [1.0, 0.0, 0.0, 1.0, 0.0, 1.0];
    assert CellIndices(t, p, 1.0, 1.0) == {0, 3};
    assert CellIndices(t, p, 0.0, 1.0) == {5};
    assert CellIndices(t, p, 1.0, 0.0) == {2};
  }
}
