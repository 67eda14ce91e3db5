# metrics_library in Dafny

A model of the metric calculators of `metrics_library`. Every metric is a
`Metric` with a fixed name. Its `calculate(y_true, y_pred)` compares two arrays
of the same shape and returns a `MetricResult` carrying the value and the
metric's name. The model covers accuracy, the F1 score, mean squared error and
mean absolute error. Arithmetic is over exact `real` numbers, not IEEE
doubles.

Modules, one per source file plus two helpers:

- `Wrappers`: `Option` for the optional metadata, and `Result` for "returns a
  value or raises".
- `Base` (core/base.py): `MetricResult`, the `Float` value type (a finite real
  or NaN), the raised errors (`ValueError` with the source's message,
  `ZeroDivisionError`) and the `Metric` class, whose `name` is a `const` set by
  its constructor.
- `Vectors`: the numpy steps the calculators are written in. It covers a
  boolean mask and its `np.sum` (`Count`), elementwise `-`, `** 2` and
  `np.abs`, and `np.mean` (`Mean`), which is NaN on an empty array.
- `Accuracy`, `F1Score`, `MeanSquaredError`, `MeanAbsoluteError` (the
  metrics/*.py files). Each has a `New` method that plays the subclass
  constructor and a `Calculate` function that plays `calculate`. Each
  calculation follows the source's vectorised expression. Lemmas connect it
  to a textbook definition: a set of indices, a position-by-position sum, or
  the closed form 2·TP/(2·TP + FP + FN). The properties are proved about that
  definition.

Error behaviour follows the code:

- A length mismatch is `Failure(ValueError(msg))`. `msg` is the exact message
  each file raises, naming "Accuracy", "F1Score", "MSE" or "MAE".
- Empty inputs to Accuracy fail with `ZeroDivisionError` (Python's float
  division by a size of 0).
- Empty inputs to MSE and MAE give the value NaN, which is what `np.mean` of an
  empty array returns.
- Empty inputs to the F1 score give 0.

## Model

| member | source | states |
|---|---|---|
| Base.NewResult | src/metrics_library/core/base.py:14-26 | a result built from a value and a name stores exactly those, with metadata absent (None) |
| Base.Metric.constructor | src/metrics_library/core/base.py:36-47 | the metric's name is the string given to the constructor; it is a constant, so nothing can change it afterwards |
| Base.ShapeMessage | src/metrics_library/metrics/accuracy.py:43-45 | the shape-error message is "y_true and y_pred must have the same shape for " followed by the calculator's label and " calculation." |
| Vectors.Count | src/metrics_library/metrics/accuracy.py:46 | the sum of a boolean mask is at most its length; it is 0 exactly when no entry is true and the full length exactly when every entry is |
| Vectors.CountIsCardinality | src/metrics_library/metrics/accuracy.py:46 | the sum of a boolean mask is the number of positions where it is true |
| Vectors.Equal | src/metrics_library/metrics/accuracy.py:46 | `y_true == y_pred` on two arrays of one length has one entry per position, true exactly where the two agree |
| Vectors.Sub | src/metrics_library/metrics/mse.py:48 | `y_true - y_pred` has one entry per position, the difference of the two entries there |
| Vectors.Squares | src/metrics_library/metrics/mse.py:48 | `** 2` keeps the length and squares each entry |
| Vectors.Absolutes | src/metrics_library/metrics/mae.py:46 | `np.abs` keeps the length and takes the absolute value of each entry |
| Vectors.SumAppend | src/metrics_library/metrics/mse.py:48 | the sum of a concatenation is the sum of the two parts, so how the additions are grouped does not change the sum |
| Vectors.Mean | src/metrics_library/metrics/mse.py:48 | the mean is NaN exactly for an empty array; otherwise it is a number that, multiplied by the length, gives the sum |
| Vectors.SumOfNonNegative | src/metrics_library/metrics/mse.py:48 | a sum of non-negative terms is non-negative, and it is 0 exactly when every term is 0 |
| Accuracy.New | src/metrics_library/metrics/accuracy.py:34-35 | `Accuracy()` is a fresh metric named "accuracy" |
| Accuracy.Calculate | src/metrics_library/metrics/accuracy.py:37-48 | different lengths raise the ValueError, and nothing else does; empty inputs raise ZeroDivisionError; non-empty inputs of one length succeed, and the result is named "accuracy" with no metadata, and its value is the number of indices where truth equals prediction divided by the length |
| Accuracy.AccuracyInUnitInterval | src/metrics_library/metrics/accuracy.py:46-47 | on non-empty inputs of one length the value lies in [0, 1] |
| Accuracy.AccuracyIsOneIffEqual | src/metrics_library/metrics/accuracy.py:46-47 | on non-empty inputs the value is 1 if and only if the two sequences are equal |
| Accuracy.AccuracyOfSelf | src/metrics_library/metrics/accuracy.py:46-47 | a non-empty sequence scored against itself gives exactly 1, under the name "accuracy" |
| Accuracy.AccuracyIsZeroIffAllWrong | src/metrics_library/metrics/accuracy.py:46-47 | on non-empty inputs the value is 0 if and only if no position agrees |
| Accuracy.AccuracySymmetric | src/metrics_library/metrics/accuracy.py:42-47 | swapping truth and prediction gives the same outcome, errors included |
| Accuracy.AccuracyExample | src/metrics_library/metrics/accuracy.py:26-31 | [1, 0, 1, 1] against [1, 0, 0, 1] gives 0.75 |
| F1Score.New | src/metrics_library/metrics/f1_score.py:34-35 | `F1Score()` is a fresh metric named "f1_score" |
| F1Score.Cell | src/metrics_library/metrics/f1_score.py:48-50 | the mask `(y_true == t) & (y_pred == p)` has one entry per position, true exactly where truth is t and prediction is p |
| F1Score.TruePositives | src/metrics_library/metrics/f1_score.py:48 | TP is the number of positions labelled 1 and predicted 1 |
| F1Score.FalsePositives | src/metrics_library/metrics/f1_score.py:49 | FP is the number of positions labelled 0 and predicted 1 |
| F1Score.FalseNegatives | src/metrics_library/metrics/f1_score.py:50 | FN is the number of positions labelled 1 and predicted 0 |
| F1Score.ConfusionPartition | src/metrics_library/metrics/f1_score.py:47-50 | TP + FP + FN + TN plus the positions carrying a label other than 0 or 1 add up to the length, so each position lands in at most one count and labels other than 0/1 enter none of them |
| F1Score.Ratio | src/metrics_library/metrics/f1_score.py:51-52 | the guarded ratio times its denominator is its numerator, and it is 0 when the denominator is 0; it lies in [0, 1], is 0 exactly when the numerator is 0, and is 1 exactly when numerator and denominator are equal and non-zero |
| F1Score.PrecisionRecall | src/metrics_library/metrics/f1_score.py:37-53 | precision is TP/(TP+FP) and recall TP/(TP+FN); each is 0 when its denominator is 0, and both lie in [0, 1] |
| F1Score.HarmonicMean | src/metrics_library/metrics/f1_score.py:65-68 | the score is 0 when precision + recall is 0; otherwise it is the one number that, multiplied by precision + recall, gives 2·precision·recall |
| F1Score.HarmonicMeanBetween | src/metrics_library/metrics/f1_score.py:65-68 | for non-negative precision and recall, the guarded harmonic mean lies between the two |
| F1Score.HarmonicMeanOfCounts | src/metrics_library/metrics/f1_score.py:51-68 | the harmonic mean of the guarded precision and recall is 2·TP/(2·TP + FP + FN), or 0 when TP = 0, so no division by zero ever happens |
| F1Score.DiceExtremes | src/metrics_library/metrics/f1_score.py:65-68 | the closed form is 0 exactly when TP = 0, and 1 exactly when TP > 0 and FP = FN = 0 |
| F1Score.Calculate | src/metrics_library/metrics/f1_score.py:55-69 | different lengths raise the ValueError, and nothing else does; every input of one length, empty included, gives a result named "f1_score" with no metadata; its value lies in [0, 1] and equals 2·TP/(2·TP + FP + FN), or 0 when TP = 0 |
| F1Score.F1IsZeroIffNoTruePositive | src/metrics_library/metrics/f1_score.py:64-68 | the score is exactly 0 if and only if there is no true positive |
| F1Score.F1IsOneIffNoMistake | src/metrics_library/metrics/f1_score.py:64-68 | the score is exactly 1 if and only if there are true positives and no false positive or false negative |
| F1Score.F1OfEmpty | src/metrics_library/metrics/f1_score.py:51-68 | empty inputs give the score 0 |
| F1Score.F1Example | src/metrics_library/metrics/f1_score.py:26-31 | [1, 0, 1, 1, 0, 0] against [1, 0, 0, 1, 0, 1] gives 2/3 |
| MeanSquaredError.New | src/metrics_library/metrics/mse.py:36-37 | `MeanSquaredError()` is a fresh metric named "mean_squared_error" |
| MeanSquaredError.SquaredErrorsSum | src/metrics_library/metrics/mse.py:48 | the sum of the array (y_true - y_pred) ** 2 is the sum over i of (y_true[i] - y_pred[i])² |
| MeanSquaredError.Calculate | src/metrics_library/metrics/mse.py:39-49 | different lengths raise the ValueError, and nothing else does; the result is named "mean_squared_error" with no metadata; its value is NaN exactly for empty inputs, and otherwise the sum over i of (y_true[i] - y_pred[i])² divided by the length |
| MeanSquaredError.MseOfEmpty | src/metrics_library/metrics/mse.py:44-48 | empty inputs pass the shape check and give the value NaN under the name "mean_squared_error" |
| MeanSquaredError.SquareSign | src/metrics_library/metrics/mse.py:48 | a square is non-negative, and 0 only for 0 |
| MeanSquaredError.MseNonNegativeAndZeroIffEqual | src/metrics_library/metrics/mse.py:48 | on non-empty inputs of one length the value is finite and at least 0, and it is 0 if and only if the sequences are equal |
| MeanSquaredError.MseSymmetric | src/metrics_library/metrics/mse.py:44-49 | swapping truth and prediction gives the same outcome, errors included |
| MeanSquaredError.MseExample | src/metrics_library/metrics/mse.py:28-33 | [3, -0.5, 2, 7] against [2.5, 0, 2, 8] gives 0.375 |
| MeanAbsoluteError.New | src/metrics_library/metrics/mae.py:34-35 | `MeanAbsoluteError()` is a fresh metric named "mean_absolute_error" |
| MeanAbsoluteError.AbsoluteErrorsSum | src/metrics_library/metrics/mae.py:46 | the sum of the array np.abs(y_true - y_pred) is the sum over i of the absolute difference between y_true[i] and y_pred[i] |
| MeanAbsoluteError.Calculate | src/metrics_library/metrics/mae.py:37-47 | different lengths raise the ValueError, and nothing else does; the result is named "mean_absolute_error" with no metadata; its value is NaN exactly for empty inputs, and otherwise the sum of the absolute differences divided by the length |
| MeanAbsoluteError.MaeOfEmpty | src/metrics_library/metrics/mae.py:42-46 | empty inputs pass the shape check and give the value NaN under the name "mean_absolute_error" |
| MeanAbsoluteError.MaeNonNegativeAndZeroIffEqual | src/metrics_library/metrics/mae.py:46 | on non-empty inputs of one length the value is finite and at least 0, and it is 0 if and only if the sequences are equal |
| MeanAbsoluteError.MaeSymmetric | src/metrics_library/metrics/mae.py:42-47 | swapping truth and prediction gives the same outcome, errors included |
| MeanAbsoluteError.MaeExample | src/metrics_library/metrics/mae.py:26-31 | [3, -0.5, 2, 7] against [2.5, 0, 2, 8] gives 0.5 |

## Left out

- Log loss (src/metrics_library/metrics/log_loss.py): it uses natural logarithms and clips to the machine epsilon of doubles. Exact reals cannot state either faithfully.
- The description generator and prompt manager (src/metrics_library/genai/): they load YAML files and format floats into text, which is I/O and string formatting.
- `Metric.get_description` (src/metrics_library/core/base.py:64-76) formats a float as text.
- Abstract `calculate` dispatch: Dafny traits are not used. Each metric's `Calculate` is a module-level function and is not called through a `Metric` object. The calculation reads only the metric's name, which is a constant of its module.
- IEEE rounding: values are exact reals. The F1 example is exactly 2/3, where the double is 0.6666666666666666.
- Infinities and NaN inputs: the model takes only finite inputs, so it does not capture that the source's doubles overflow to inf (for example on the MSE of [1e200] against [-1e200]), or that NaN compares unequal to itself (accuracy of [nan] against [nan] is 0.0). The only NaN in the model is the mean of an empty array.
- numpy input handling: `np.asarray` dtype coercion and multi-dimensional shapes are not modelled. Inputs are one-dimensional and the shape check compares lengths.
- Element types: accuracy compares elements of any type that has equality. The other three metrics take real numbers, and F1 labels are reals compared against 1 and 0.
- `MetricResult.metadata` holds arbitrary Python values. Its values are modelled as strings, and no metric fills it in.
- numpy's RuntimeWarning for the mean of an empty array is not modelled, only its NaN result.
