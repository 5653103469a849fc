/** Failure-carrying results shared by every module of the model. */
module Outcomes {

  datatype Option<+T> = None | Some(value: T)

  /** The exceptions and error responses the modelled code can produce. */
  datatype Error =
    | ValueError                              // strptime or date arithmetic rejects the week
    | IllegalMonth                            // calendar.monthrange rejects the month
    | DivisionByZero                          // Decimal division of a non-zero value by zero
    | InvalidOperation                        // Decimal division of zero by zero
    | OverflowError                           // date arithmetic leaves years 1..9999
    | ValidationError(field: string, message: string)
    | NotFound                                // object lookup scoped to the caller found nothing
    | ProfileMissing                          // the owner has no UserProfile row

  datatype Result<+T> = Ok(value: T) | Err(error: Error)
}
