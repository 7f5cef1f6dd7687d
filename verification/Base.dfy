/** Result types shared by the models. */
module Base {

  datatype Option<+T> = None | Some(value: T)

  /** A call either returns a value or one of the source's error returns. */
  datatype Result<+T> = Ok(value: T) | Err(error: Error)

  datatype Error =
    | NotFound            // no such row
    | NoWallet            // the wallet row to lock does not exist
    | Insufficient        // the wallet balance is below the amount to debit
    | InvalidCode | CodeExpired | CodeExhausted | CodeUnsupported
    | NotPaid | WindowClosed | InFlight | WrongState
    | Unavailable         // the store or a foreign service failed
    | Malformed | BadSignature | BadIssuer | TokenExpired | BadSubject
    | Duplicate
}
