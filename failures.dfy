/** How the reader fails: one constructor per exception the code raises or lets
    escape, and a result type carrying either a value or such a failure. */
module Failures {

  datatype Error =
    | LargeSize        // a box header with length field 1 ("64 bit atom sizes are not supported")
    | Truncated        // unpacking a field from fewer bytes than it needs
    | Stalls           // a zero-length leaf: the reader seeks back to the box start and never returns
    | KeyNotFound      // KeyError from a path lookup
    | IndexOutOfRange  // IndexError from indexing past the end
    | NotContainer     // iterating the children of a leaf (TypeError)
    | OutOfRange       // packing a number that does not fit its field
    | PackMismatch     // packing more values than the format has fields
    | WrongType        // a tag value of a type its renderer cannot take
    | NoRenderer       // the renderer slot is empty (calling None)
    | BadFreeformKey   // a free-form key without two ':' separators (ValueError)
    | ZeroUnit         // a time scale of zero (ZeroDivisionError)

  datatype Option<+T> = None | Some(value: T)

  datatype Result<+T> = Ok(value: T) | Err(error: Error) {
    predicate IsFailure() { Err? }

    function PropagateFailure<U>(): Result<U>
      requires Err?
    {
      Err(error)
    }

    function Extract(): T
      requires Ok?
    {
      value
    }
  }
}
