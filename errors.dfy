// The failure vocabulary of the container: the sentinel errors of errors.go, the ways the
// container wraps them, and the values it panics with.

module Errors {

  datatype Option<T> = None | Some(value: T)

  /** The sentinel errors (errors.go). */
  datatype ErrorKind =
    | UnknownLifetime
    | FailedToBuildDependency
    | ScopeIsNil
    | ScopedDependencyInGlobalScope
    | DependencyNotFound
    | CircleDependency
    | ExtractDependencyName
    | TypeAlreadyRegistered
    | ShouldBeStructType
    | ShouldBeInterfaceType
    | ShouldImplementInterface
    | ShouldImplementInitMethod
    | ContainerNotBuilt
    | ContainerAlreadyBuilt
    | CaptiveDependency

  /**
   * An error value. `names` of a sentinel are the type names (or the dependency path) its
   * message mentions; the wording of the messages is not modelled.
   */
  datatype Error =
    | Sentinel(kind: ErrorKind, names: seq<string>)  // one sentinel, with the names its message mentions
    | Wrapped(name: string, cause: Error)            // another error, prefixed with a type name
    | IndexWrapped(index: nat, cause: Error)         // another error, prefixed with a service's position
    | InitFailed(site: string, cause: Error)         // an Init error, wrapped together with FailedToBuildDependency
    | UnwrapFailed(typeName: string, wasNil: bool)   // a failed type assertion; wraps no sentinel
    | External(code: int)                            // an error returned by user code

  /** errors.Is(e, sentinel): the sentinel occurs on the chain of wrapped errors. */
  predicate Is(e: Error, k: ErrorKind)
  {
    match e
    case Sentinel(k', _) => k' == k
    case Wrapped(_, cause) => Is(cause, k)
    case IndexWrapped(_, cause) => Is(cause, k)
    case InitFailed(_, cause) => k == FailedToBuildDependency || Is(cause, k)
    case UnwrapFailed(_, _) => false
    case External(_) => false
  }

  /** The errors that unwrapping reaches from e, e first. InitFailed also wraps FailedToBuildDependency. */
  function Chain(e: Error): (r: seq<Error>)
    ensures |r| >= 1 && r[0] == e
  {
    match e
    case Wrapped(_, cause) => [e] + Chain(cause)
    case IndexWrapped(_, cause) => [e] + Chain(cause)
    case InitFailed(_, cause) => [e] + Chain(cause)
    case _ => [e]
  }

  /** e is sentinel k itself, or an Init failure, which carries FailedToBuildDependency. */
  predicate Carries(e: Error, k: ErrorKind)
  {
    (e.Sentinel? && e.kind == k) || (e.InitFailed? && k == FailedToBuildDependency)
  }

  /** errors.Is finds k exactly when some error on the chain carries it. */
  lemma {:induction false} IsOnChain(e: Error, k: ErrorKind)
    ensures Is(e, k) <==> exists i :: 0 <= i < |Chain(e)| && Carries(Chain(e)[i], k)
  {
    var c := Chain(e);
    if e.Wrapped? || e.IndexWrapped? || e.InitFailed? {
      IsOnChain(e.cause, k);
      assert c == [e] + Chain(e.cause);
      if Carries(e, k) {
        assert Carries(c[0], k);
      }
      if Is(e, k) && !Carries(e, k) {
        var i :| 0 <= i < |Chain(e.cause)| && Carries(Chain(e.cause)[i], k);
        assert Carries(c[i + 1], k);
      }
      if exists i :: 0 <= i < |c| && Carries(c[i], k) {
        var i :| 0 <= i < |c| && Carries(c[i], k);
        if i > 0 {
          assert c[i] == Chain(e.cause)[i - 1] && Carries(Chain(e.cause)[i - 1], k);
        } else {
          assert Carries(e, k);
        }
      }
      assert (Is(e, k) <==> exists i :: 0 <= i < |Chain(e)| && Carries(Chain(e)[i], k));
    } else {
      assert c == [e] && (Carries(c[0], k) <==> Is(e, k));
    }
  }

  /** A Go pair (value, err): Err stands for a zero value together with a non-nil error. */
  datatype Result<T> = Ok(value: T) | Err(error: Error)

  /** What a panic carries. */
  datatype PanicValue =
    | PanicError(err: Error)                            // a panic with an error value
    | DuplicateParameter(param: string, owner: string)  // two Init parameters of one type (a string panic)
    | DuplicateKey(key: string)                         // a key registered twice (a string panic)
    | NilDereference                                    // a Go runtime panic: nil pointer or nil interface

  /** How a call ends: it returns normally, or it panics. */
  datatype Exit<T> = Normal(value: T) | Panic(reason: PanicValue)

  function Fatal<T>(k: ErrorKind, names: seq<string>): (r: Exit<T>)
    ensures r.Panic? && r.reason.PanicError? && Is(r.reason.err, k)
  {
    Panic(PanicError(Sentinel(k, names)))
  }
}
