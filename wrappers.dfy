/** Failure-compatible result types shared by every stage of the compiler. */
module Wrappers {

  datatype Option<+T> = None | Some(value: T)

  /** Either a value or an error. The stages of the later compiler use a source
      offset (a count of characters from the start of the input) as the error. */
  datatype Result<+T, +E> = Ok(value: T) | Err(error: E) {
    predicate IsFailure() {
      Err?
    }

    function PropagateFailure<U>(): Result<U, E>
      requires Err?
    {
      Err(error)
    }

    function Extract(): T
      requires Ok?
    {
      value
    }
  }

  /** A check that either passes or fails with an error, for `expect`-style calls. */
  datatype Outcome<+E> = Pass | Fail(error: E) {
    predicate IsFailure() {
      Fail?
    }

    function PropagateFailure<U>(): Result<U, E>
      requires Fail?
    {
      Err(error)
    }
  }

  /** The items already produced, followed by those still to come (if any). */
  function Prepend<T, E>(done: seq<T>, rest: Result<seq<T>, E>): Result<seq<T>, E> {
    if rest.Ok? then Ok(done + rest.value) else rest
  }

  lemma PrependNothing<T, E>(rest: Result<seq<T>, E>)
    ensures Prepend([], rest) == rest
  {
    if rest.Ok? {
      assert [] + rest.value == rest.value;
    }
  }

  lemma PrependOne<T, E>(done: seq<T>, x: T, rest: Result<seq<T>, E>)
    ensures Prepend(done, Prepend([x], rest)) == Prepend(done + [x], rest)
  {
    if rest.Ok? {
      assert done + ([x] + rest.value) == (done + [x]) + rest.value;
    }
  }
}
