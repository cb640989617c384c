// What the container's code reaches outside itself: allocation of new instances, and calls
// into user code (Init, Start, Stop) whose outcome the model does not see.

module Environment {
  import opened Errors

  /** An allocated instance, identified by its allocation number. */
  type Handle = nat

  /** A call into user code. Init's args are the built dependencies, in declared order. */
  datatype Call =
    | InitCall(site: string, receiver: Handle, args: seq<Handle>)
    | StartCall(service: Handle)
    | StopCall(service: Handle)

  /** The error (or None) a user call returns, given the calls made before it. */
  type Oracle = (Call, seq<Call>) -> Option<Error>

  /** The world outside the container: an allocator and a log of calls into user code. */
  class Env {
    const answer: Oracle
    var next: Handle
    var calls: seq<Call>

    constructor (answer: Oracle)
      ensures this.answer == answer && next == 0 && calls == []
    {
      this.answer := answer;
      next := 0;
      calls := [];
    }

    /** new(T): a fresh instance. */
    method New() returns (h: Handle)
      modifies this`next
      ensures h == old(next) && next == old(next) + 1
    {
      h := next;
      next := next + 1;
    }

    /** Calls user code and logs the call; the answer depends on the history so far. */
    method Invoke(c: Call) returns (e: Option<Error>)
      modifies this`calls
      ensures calls == old(calls) + [c]
      ensures e == answer(c, old(calls))
    {
      e := answer(c, calls);
      calls := calls + [c];
    }
  }
}
