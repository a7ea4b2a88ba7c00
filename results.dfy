/** Failure values shared by the protocol engines: the exceptions the host code throws. */
module Results {
  import opened Bytes

  datatype Option<T> = None | Some(value: T)

  /** The exceptions of the core, without their message text. */
  datatype Error =
    | InvalidOperation                            // InvalidOperationException: caller misuse
    | NegativeLength                              // OverflowException from `new T[n]` with n < 0
    | DivideByZero                                // DivideByZeroException
    | Timeout(bytesExpected: nat, bytesRead: nat) // CommandProtocolException after a read timeout
    | UnexpectedByte(wanted: Byte, found: int)    // CommandProtocolException: wrong acknowledgement
    | ThroughputExceeded                          // CommandProtocolException: the probe reported ErrorTooFast
    | UnexpectedStatus(status: Byte)              // CommandProtocolException: unknown stream status
    | HandshakeFailed                             // CommandProtocolException: no welcome bytes
    | IndexOutOfRange(index: nat)                 // IndexOutOfRangeException

  datatype Result<T> = Ok(value: T) | Err(error: Error)

  /** The outcome of a `void` operation: it returned, or it threw. */
  datatype Outcome = Pass | Fail(error: Error)
}
