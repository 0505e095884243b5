/** A value or nothing, for lookups that may miss and reads that may fail. */
module Options {

  /** Failing reads propagate with `:-`. */
  datatype Option<+T> = None | Some(value: T) {
    predicate IsFailure() { None? }
    function PropagateFailure<U>(): Option<U> requires None? { None }
    function Extract(): T requires Some? { value }
  }
}
