/** Values shared by every module of the model: the failure-compatible
    wrappers that stand for Python's exceptions, the dynamic values a
    protobuf request or a queryset row carries, and the exceptions the
    modelled code raises. */
module Base {

  datatype Option<+T> = None | Some(value: T) {
    function GetOr(default: T): T {
      match this
      case Some(v) => v
      case None => default
    }
  }

  /** The outcome of Python code that may raise: a value, or the exception. */
  datatype Result<+T, +E> = Success(value: T) | Failure(error: E) {
    predicate IsFailure() {
      Failure?
    }

    function PropagateFailure<U>(): Result<U, E>
      requires Failure?
    {
      Failure(error)
    }

    function Extract(): T
      requires Success?
    {
      value
    }
  }

  /** The outcome of Python code that returns nothing but may raise. */
  datatype Outcome<+E> = Pass | Fail(error: E)

  /** A field value of a request message, a queryset row or a serialized dict. */
  datatype Value = VNone | VInt(i: int) | VStr(s: string) | VBool(b: bool)

  /** A protobuf message's fields, a Django row or a plain Python dict. A
      request message holds every field its message type declares, at the
      field's default when the caller did not set it, so that `k in request`
      is Python's `hasattr(request, k)`. */
  type Record = map<string, Value>

  /** The Python exceptions the modelled code raises or lets through.
      MultipleObjectsReturned carries how many rows matched. */
  datatype Exc =
    | AssertionError(message: string)
    | NotAuthenticated
    | InvalidArgument(message: string)
    | ObjectDoesNotExist(message: string)
    | MultipleObjectsReturned(returned: nat)
    | TypeError(message: string)
    | AttributeError(message: string)
    | KeyError(key: string)
    | ImportError(path: string)
    | CommandError(message: string)
}
