/** Option and Result types shared by every module of the model. The Python
    code signals failure by raising an exception or by calling `_fail`, which
    prints and exits the process; both become an `Err` naming what happened. */
module Wrappers {

  datatype Option<T> = None | Some(value: T)

  /** What the Python code raises (or the exit it takes). */
  datatype Error =
    | Exit              // `_fail` / `fail`: print the message and `os._exit(1)`
    | AssertionFailed   // a failing `assert`
    | KeyError          // a missing dictionary key
    | IndexError        // an index past the end of a list or string
    | ValueError        // `int()` of a string that is not an integer
    | TypeError         // an operation applied to a value of the wrong type
    | ZeroDivision      // division by zero
    | AttributeError    // a method looked up on `None` or on a value without it
    | RuntimeError      // a dict changed while it is being iterated
    | NameError         // a name no scope binds
    | ImportError       // `from m import x` where `m` has no `x`

  datatype Result<T> = Ok(value: T) | Err(error: Error) {
    predicate IsFailure() { Err? }
    function PropagateFailure<U>(): Result<U>
      requires Err?
    {
      Err(error)
    }
    function Extract(): T
      requires Ok?
    {
      value
    }
  }
}
