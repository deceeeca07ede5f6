/** The two failure-compatible wrappers used across the models, and two notions they share. */
module Options {

  ghost predicate Injective<A(!new), B>(f: A -> B) {
    forall x, y :: f(x) == f(y) ==> x == y
  }

  function Max(a: int, b: int): int {
    if a < b then b else a
  }

  datatype Option<+T> = None | Some(value: T) {
    predicate IsFailure() {
      None?
    }

    function PropagateFailure<U>(): Option<U>
      requires None?
    {
      None
    }

    function Extract(): T
      requires Some?
    {
      value
    }
  }

  datatype Result<+T, +E> = Ok(value: T) | Err(error: E) {
    predicate IsFailure() {
      Err?
    }

    function PropagateFailure<U>(): Result<U, E>
      requires Err?
    {
      Err(error)
    }

    function Extract(): T
      requires Ok?
    {
      value
    }
  }
}
