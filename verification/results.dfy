/** Failure-compatible wrappers shared by the tensor, spec and model layers.

    Every validation failure and every exception a hook raises propagates
    unchanged to the caller of `unroll` / `initial_state`, so one error type
    serves all layers. */
module Results {

  /** The errors the contract layer can surface. The first three come from
      spec validation; `HookFailed` stands for any exception raised by
      user code (`_initial_state`, `_unroll`, `_forward`, the check hooks). */
  datatype Error =
    | MissingKey(path: string)
    | ArityMismatch(path: string, expected: nat, actual: nat)
    | AxisMismatch(path: string, axis: nat, symbol: string, expected: nat, actual: nat)
    | HookFailed(reason: string)

  /** A value, or the error that stopped its computation. */
  datatype Result<+T> = Success(value: T) | Failure(error: Error) {

    predicate IsFailure() {
      Failure?
    }

    function PropagateFailure<U>(): Result<U>
      requires Failure?
    {
      Failure(error)
    }

    function Extract(): T
      requires Success?
    {
      value
    }
  }

  /** A check that either passes or fails with an error (no value). */
  datatype Outcome = Pass | Fail(error: Error) {

    predicate IsFailure() {
      Fail?
    }

    function PropagateFailure<U>(): Result<U>
      requires Fail?
    {
      Failure(error)
    }
  }
}
