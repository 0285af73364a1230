/** Outcomes of code that may panic, and optional values. */
module Outcomes {

  /** `Panicked` stands for a Go panic: control never reaches the caller's next statement. */
  datatype Checked<+T> = Done(value: T) | Panicked {
    predicate IsFailure() {
      Panicked?
    }

    function PropagateFailure<U>(): Checked<U>
      requires Panicked?
    {
      Panicked
    }

    function Extract(): T
      requires Done?
    {
      value
    }
  }

  datatype Option<+T> = None | Some(value: T)
}
