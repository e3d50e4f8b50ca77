/** Shared vocabulary: optional values, the failure kinds the analysis
    scripts can raise, and the result of a floating-point division. */
module Common {

  datatype Option<+T> = None | Some(value: T) {
    function GetOr(default: T): T {
      match this
      case Some(v) => v
      case None => default
    }
  }

  /** The exceptions the analysed code raises instead of returning. */
  datatype Error =
    | MissingColumn(name: string)   // pandas KeyError on `df[name]` / `groupby(name)`
    | EmptyArgmax                   // pandas ValueError from `idxmax` on an empty series
    | InconsistentLengths           // scikit-learn ValueError on label arrays of different lengths

  datatype Result<+T> = Ok(value: T) | Err(error: Error)

  /** The outcome of a pandas/numpy division `a / b` on floats: a finite
      quotient, or the infinity/NaN that a zero denominator produces. */
  datatype Quotient = Finite(value: real) | NonFinite

  function Divide(a: real, b: real): (q: Quotient)
    ensures q.Finite? <==> b != 0.0
    ensures q.Finite? ==> q.value * b == a
  {
    if b == 0.0 then NonFinite else Finite(a / b)
  }

  /** `q * c`: a non-finite value stays non-finite (c is a positive constant here). */
  function Scale(q: Quotient, c: real): Quotient
  {
    match q
    case Finite(v) => Finite(v * c)
    case NonFinite => NonFinite
  }
}
