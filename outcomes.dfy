/** Outcomes of the driver's operations: the errors it hands back to its
    caller, and the points at which it aborts the process instead. */
module Outcomes {

  datatype Option<+T> = None | Some(value: T)

  /** Why the driver aborts (panics) at a given point. */
  datatype Cause =
    | UnknownLabel        // a rate or power label outside its table
    | BadHexAddress       // an address that does not slice into two hex bytes
    | BadBitValue         // a bit value other than 0 or 1 given to the bit writer
    | BitIndexOutOfRange  // a bit position whose storage index lies past the byte
    | MissingBitValue     // more bit positions than bit values
    | AuxTimeout          // a ready-line wait whose failure the driver unwraps
    | ReadFailed          // a serial read error other than the read timeout
    | ConfigMismatch      // the module's echo differs from the frame written

  datatype Error =
    | TimedOut             // returned: the ready line did not reach the awaited level
    | InvalidInput         // returned: a packet longer than the module accepts
    | Abort(cause: Cause)  // the driver panics here

  datatype Result<+T> = Ok(value: T) | Err(error: Error)
}
