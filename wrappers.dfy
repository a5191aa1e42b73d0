/** Option and Result values, used wherever the Java code returns null or throws. */
module Wrappers {

  /** A Java reference that may be null. */
  datatype Option<+T> = None | Some(value: T)

  /** The Java exceptions that the modelled code can raise. */
  datatype Exception =
    | NullPointer                  // unboxing or dereferencing a null
    | NoSuchElement                // next() on an empty iterator
    | UnsupportedOperation         // an operator the automaton compiler does not know
    | IllegalState                 // an evaluator with neither a tree nor a BPMN model
    | StringIndexOutOfBounds       // substring or charAt outside the string
    | NumberFormat                 // Integer.parseInt on a non-number

  /** The outcome of a Java call that either returns a value or throws. */
  datatype Result<+T> = Ok(value: T) | Err(error: Exception)
}
