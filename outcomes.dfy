/** Errors and results shared by every part of the registry model.

    Python signals failure with exceptions; here every operation that can
    raise returns a `Result`, and every operation that also changes state
    returns a `Step` holding the result and the state afterwards. */
module Outcomes {

  datatype Option<+T> = None | Some(value: T)

  /** The kinds of exception the registry lets escape to its caller. */
  datatype Error =
      /** `InvalidOperation`: the class is not a subclass of the base. */
    | InvalidOperation
      /** `AlreadyRegistered`: the class (or, for a named registry, the name) is taken. */
    | AlreadyRegistered
      /** `KeyError`: unregistering or looking up something that is not there. */
    | KeyError
      /** Whatever `get_callable` raises when the dotted path of the base cannot be resolved. */
    | ResolveError
      /** `AttributeError` from evaluating `None.__name__` in a named registry's
          duplicate-name message when no class was given. */
    | AttributeError
      /** The error raised while importing the discovery submodule of `app`,
          re-raised by autodiscovery because that submodule does exist. */
    | ImportFailed(app: string)

  /** True of the two exceptions the library defines itself; both derive from
      `AppRegisterException`, so a caller catching that one catches exactly these. */
  predicate IsAppRegisterException(e: Error) {
    e.InvalidOperation? || e.AlreadyRegistered?
  }

  datatype Result<+R> = Ok(value: R) | Err(error: Error)

  /** The outcome of an operation that may change state: what it returned or
      raised, and the state it left behind (changes made before an exception
      are kept, as in Python). */
  datatype Step<+R, +S> = Step(result: Result<R>, state: S)
}
