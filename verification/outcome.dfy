/** How an operation of the service layer ends. A refusal carries the HTTP status of the error the
    service raises: 400 bad request, 404 not found, 409 conflict, 500 internal guard. */
module Outcome {
  datatype Option<+T> = None | Some(value: T)

  datatype Result<+T> = Ok(value: T) | Err(status: nat)
}
