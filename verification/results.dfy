/** How a run of the model fails, and the result and optional-value types
    that carry a failure through the computation.

    The program signals its failures with Python exceptions (a failed
    assertion, an IndexError or TypeError out of pandas, a ZeroDivisionError,
    an AttributeError when numpy has no sampler of the requested name, a
    ValueError when that sampler rejects its shape parameters).
    The model turns each into an `Err` value carrying a `Fault`.
 */
module Results {

  /** Why a run failed. */
  datatype Fault =
    /** No row of the parameter table carries this name. */
    | UnknownParameter(name: string)
    /** More than one row carries this name where exactly one is needed. */
    | AmbiguousParameter(name: string)
    /** The sampling backend has no distribution with this label, or rejects
        the shape parameters given for it. */
    | UnsupportedDistribution(distribution: string)
    /** A list of overridden names is longer than its list of values. */
    | MissingOverrideValue(name: string)
    /** A division whose divisor is zero; `what` names the divisor. */
    | DivisionByZero(what: string)

  /** An answer that may be absent: a sampler's draw (None when the backend
      refuses the request), or the first name of an override list that the
      table lacks. */
  datatype Option<+T> = None | Some(value: T)

  /** A value, or the fault that stopped its computation. */
  datatype Result<+T> = Ok(value: T) | Err(fault: Fault) {

    predicate IsFailure() {
      Err?
    }

    function PropagateFailure<U>(): Result<U>
      requires Err?
    {
      Err(fault)
    }

    function Extract(): T
      requires Ok?
    {
      value
    }
  }
}
