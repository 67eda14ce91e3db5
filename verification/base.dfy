/** The result record and the metric base class (core/base.py). */
module Base {
  import opened Wrappers

  /**
   * A 64-bit float as the metrics produce it: an exact real standing in for a
   * finite double, or NaN (what numpy's mean of an empty array gives).
   */
  datatype Float = Finite(val: real) | NaN

  /** The optional metadata mapping; no metric fills it in. */
  type Metadata = map<string, string>

  /** `MetricResult`: the value, the metric's name and optional metadata. */
  datatype MetricResult = MetricResult(value: Float, name: string, metadata: Option<Metadata>)

  /** `MetricResult(value=..., name=...)`: metadata takes its default, None. */
  function NewResult(value: Float, name: string): (r: MetricResult)
    ensures r.value == value && r.name == name
    ensures r.metadata == None
  {
    MetricResult(value, name, None)
  }

  /** The exceptions a calculation can raise. */
  datatype Error =
    | ValueError(message: string)
    | ZeroDivisionError

  /** The message every calculator raises when the two inputs differ in shape; it names the calculator. */
  function ShapeMessage(metric: string): (msg: string)
    ensures |msg| == 47 + |metric| + 13
    ensures msg[..47] == "y_true and y_pred must have the same shape for "
    ensures msg[47..47 + |metric|] == metric
    ensures msg[47 + |metric|..] == " calculation."
  {
    "y_true and y_pred must have the same shape for " + metric + " calculation."
  }

  /**
   * `Metric`: a named capability. The name is a `const`, set once by the
   * constructor; like the read-only `name` property it has no setter.
   */
  class Metric {
    const name: string

    constructor (name: string)
      ensures this.name == name
    {
      this.name := name;
    }
  }
}
