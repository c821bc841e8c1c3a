/** Values shared by every component: optional values, the exceptions the
    client raises, and results that either carry a value or a raised fault. */
module Common {

  datatype Option<+T> = None | Some(value: T)

  /** The exceptions of the client, by kind. */
  datatype Fault =
    | Raised(message: string)   // `raise Exception(message)`
    | KeyMissing(key: string)   // KeyError reading a field of a parsed JSON reply
    | CodeUnreadable            // `response["error"]["code"]` is missing or not a string
    | PathEmpty                 // IndexError from `path_onedrive[0]` on an empty path
    | Transport                 // the HTTP call raised or its body was not JSON

  /** Either a value or the fault that was raised instead; usable with `:-`. */
  datatype Result<+T> = Ok(value: T) | Err(fault: Fault) {

    predicate IsFailure() {
      Err?
    }

    function PropagateFailure<U>(): Result<U>
      requires Err?
    {
      Err(fault)
    }

    function Extract(): T
      requires Ok?
    {
      value
    }
  }
}
