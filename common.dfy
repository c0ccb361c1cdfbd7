/** Shared vocabulary of the backend model: optional values, results, and the
    identifiers, amounts and timestamps the documents carry. */
module Common {

  /** A value that may be absent: a missing request field, an unset reference. */
  datatype Option<+T> = None | Some(value: T)

  /** The outcome of a route handler: the value it answers with, or the error it reports. */
  datatype Result<+R, +E> = Ok(value: R) | Err(error: E)

  /** Document identifiers stand for MongoDB ObjectIds; only equality matters. */
  type UserId = nat
  type ItemId = nat
  type RestaurantId = nat
  type OrderId = nat

  /** Prices and totals, in minor currency units (cents) instead of JS Numbers. */
  type Money = int

  /** A reading of the server clock (`Date.now()`), an abstract natural number. */
  type Time = nat
}
