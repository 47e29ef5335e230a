/** Observing a program that need not terminate: over a finite script it either ends or is cut off. */
module Observation {

  /** `Cut` when the script ends before the program does. */
  datatype Observed<+T> = Cut | Got(value: T) {
    predicate IsFailure() {
      Cut?
    }

    function PropagateFailure<U>(): Observed<U>
      requires Cut?
    {
      Cut
    }

    function Extract(): T
      requires Got?
    {
      value
    }
  }
}
