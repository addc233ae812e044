/** Optional values and the error replies of the three controllers. */
module Outcomes {

  datatype Option<+T> = None | Some(value: T)

  /** The `message` of every error reply the modelled controllers send. */
  datatype Error =
    | UserNotFound        // purchase and dashboard: the caller's id does not resolve (404)
    | ProductNotFound     // purchase: the product id does not resolve (404)
    | UserAlreadyExists   // registration: the email already belongs to an account (400)

  datatype Result<+T> = Ok(value: T) | Err(error: Error)
}
