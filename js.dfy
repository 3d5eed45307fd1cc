/** Values of the JavaScript runtime that the engine relies on: `undefined`
    (an absent value), thrown exceptions, and the truthiness test that the
    source applies to optional strings. */
module Js {

  /** An optional value; `None` is JavaScript's `undefined`. */
  datatype Option<+T> = None | Some(value: T)

  /** The two kinds of exception the engine can throw. Reading a property of
      `undefined` raises a TypeError; naming a variable that is not in scope
      raises a ReferenceError. `detail` records the expression that failed. */
  datatype Error = TypeError(detail: string) | ReferenceError(detail: string)

  /** A computation that either yields a value or throws. */
  datatype Result<+T> = Ok(value: T) | Err(error: Error) {
    predicate IsFailure() { Err? }

    function PropagateFailure<U>(): Result<U>
      requires Err?
    {
      Err(error)
    }

    function Extract(): T
      requires Ok?
    {
      value
    }
  }

  /** JavaScript truthiness of an optional string: `undefined` and `''` are
      falsy, every other string is truthy. */
  predicate Truthy(s: Option<string>) {
    s.Some? && s.value != ""
  }

  /** The text JavaScript's `+` produces for an optional string operand:
      `undefined` becomes the word "undefined". */
  function Text(s: Option<string>): string {
    if s.Some? then s.value else "undefined"
  }
}
