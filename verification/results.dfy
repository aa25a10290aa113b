/** Failure-compatible wrappers shared by every module of the model, and the
    one error taxonomy the Python client raises (as exception classes there). */
module Results {

  datatype Option<+T> = None | Some(value: T)

  /** Every way a modelled operation can fail. Each constructor stands for the
      Python exception the client raises at that point. */
  datatype Error =
    /** `AttributeError`: no backing source resolves the name. */
    | AttributeNotFound(name: string)
    /** `ValueError('Unable to get attr keys')`: a model declares no sources. */
    | NoAttrKeys
    /** `RecursionError`: `__getattr__` re-entered for the same name. */
    | RecursionLimit
    /** `TypeError('Unexpected num args ...')` from `Base.__init__`. */
    | ArgCountMismatch(found: nat, expected: nat)
    /** `TypeError('Repeated args and kwargs ...')` from `Base.__init__`. */
    | RepeatedArgs(names: set<string>)
    /** `AttributeError('Unknown service ...')`. */
    | UnknownService(service: string)
    /** `AttributeError('Unknown endpoint ...')`. */
    | UnknownEndpoint(endpoint: string)
    /** `AttributeError('Unknown attribute ...')` from `Endpoint.__getattr__`. */
    | UnsupportedOperation(attr: string)
    /** `IndexError`: a list subscript past the end. */
    | IndexOutOfRange
    /** `KeyError` on a dict subscript or `del`. */
    | KeyNotFound(key: string)
    /** `TypeError`: a value that is not a dict was subscripted. */
    | NotAMapping
    /** A value iterated as a list is not one (iterating a `dict` or `str`
        instead is not modelled). */
    | NotAList
    /** `TypeError`: the endpoint declares no model class (`model = None`). */
    | NoModel
    /** `TypeError`: a call with positional arguments where only keywords fit,
        or with the wrong number of arguments. */
    | BadCallArgs
    /** A failure raised by the HTTP transport (non-200 status). */
    | TransportError(status: int, body: string)
    /** A failure raised by the value-coercion library. */
    | CoercionError(detail: string)
    /** `TypeError: unsupported operand type(s)` for a binary operator. */
    | OperandTypeError(op: string)
    /** A validator derivation removing a field the validator does not
        declare. */
    | FieldMissing(name: string)
    /** A validator derivation adding a field the validator already
        declares. */
    | FieldExists(name: string)

  datatype Result<+T> = Success(value: T) | Failure(error: Error) {

    predicate IsFailure() {
      Failure?
    }

    function PropagateFailure<U>(): Result<U>
      requires Failure?
    {
      Failure(error)
    }

    function Extract(): T
      requires Success?
    {
      value
    }
  }
}
