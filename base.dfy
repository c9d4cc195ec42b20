/** Outcome types shared by the whole model. */
module Base {

  datatype Option<T> = None | Some(value: T)

  datatype Result<T, E> = Ok(value: T) | Err(error: E)

  /**
   * Java runtime exceptions that the assembler lets escape instead of turning
   * them into a diagnostic. They are kept as explicit outcomes: nothing in the
   * model recovers from one unless the source catches it.
   */
  datatype Crash =
    | NullPointer             // a null reference dereferenced
    | StringIndexOutOfBounds  // String.charAt/substring/codePointAt out of range
    | IndexOutOfBounds        // List.get or an array index out of range
    | NoSuchElement           // List.getLast on an empty list
    | ClassCast               // an operand cast to the wrong record
    | IllegalArgument(message: string)
    | IllegalState(message: string)
    | FormatFlagsMismatch     // java.util.Formatter given "%0s"
    | NumberFormat            // Integer.parseInt / Long.parseLong given a malformed number

}
