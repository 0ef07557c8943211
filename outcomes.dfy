/** Exceptions of the .NET runtime that the modelled code can raise, and the
    Result and Option wrappers that carry them. */
module Outcomes {

  datatype Error =
    | UnableToRead(typeName: string)  // ReadablePacket's own "Unable to read value of type X"
    | ArgumentOutOfRange              // ArgumentOutOfRangeException
    | Argument                        // ArgumentException
    | NullReference                   // NullReferenceException
    | ArgumentNull                    // ArgumentNullException
    | IndexOutOfRange                 // IndexOutOfRangeException (Array.Clear past the end)
    | ObjectDisposed                  // ObjectDisposedException (a closed stream)
    | InvalidOperation                // InvalidOperationException (Dequeue of an empty queue)
    | Format                          // FormatException (IPAddress.Parse of a malformed address)
    | Unspecified                     // `throw new Exception()` without a message

  datatype Result<+T> = Ok(value: T) | Err(error: Error)

  datatype Option<+T> = None | Some(value: T)

  /** The end of a callback or command that returns nothing: it either ran
      to completion or threw. */
  datatype Outcome = Completed | Threw(error: Error)
}
