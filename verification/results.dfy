/** Outcomes shared by the inventory and order services: the errors their
    handlers raise, and a value-or-error wrapper for replies. */
module Results {

  /** The two failures the handlers raise. `NotFound` carries the handler's
      detail text; `InsufficientStock` is the rejection of an adjustment. */
  datatype Error = NotFound(detail: string) | InsufficientStock

  /** A handler's reply: a value, or the error it raised instead. */
  datatype Result<+T> = Ok(value: T) | Err(error: Error)

  /** The outcome of looking a row up: the row found, or nothing. */
  datatype Option<+T> = None | Some(value: T)
}
