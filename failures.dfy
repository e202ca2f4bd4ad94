/** The exceptions the Java code throws or catches, and the Result type that
    carries them.  Message texts are not modelled. */
module Failures {

  /** One constructor per exception class the core can raise. */
  datatype Error =
    | EOF                 // java.io.EOFException
    | IOFailure           // any other java.io.IOException
    | FileNotFound        // java.io.FileNotFoundException
    | IllegalArgument     // java.lang.IllegalArgumentException
    | NumberFormat        // java.lang.NumberFormatException
    | IllegalState        // java.lang.IllegalStateException
    | IllegalMonitorState // java.lang.IllegalMonitorStateException
    | NullPointer         // java.lang.NullPointerException
    | NegativeArraySize   // java.lang.NegativeArraySizeException
    | BufferUnderflow     // java.nio.BufferUnderflowException
    | OutOfMemory         // java.lang.OutOfMemoryError: an array too large for Java
  {
    /** True for the exceptions a `catch (IOException e)` clause catches. */
    predicate IsIOException() {
      EOF? || IOFailure? || FileNotFound?
    }
  }

  datatype Option<+T> = None | Some(value: T)

  datatype Result<+T> = Ok(value: T) | Err(error: Error) {
    predicate IsFailure() {
      Err?
    }

    function PropagateFailure<U>(): Result<U>
      requires Err?
    {
      Err(error)
    }

    function Extract(): T
      requires Ok?
    {
      value
    }
  }
}
