/** Small value wrappers shared by every module of the model. */
module Wrappers {

  /** Python's "a value or None" for optional model fields and absent lookups. */
  datatype Option<+T> = None | Some(value: T)

  /** The Python exceptions that the modelled code lets propagate to its caller. */
  datatype Fault =
    | ValidationError  // pydantic refused a document, a cached payload or a database row
    | TypeError        // subscripting None or a single model, iterating None, a bad `%` argument count
    | KeyError         // `d[k]` on a dict without the key k
    | ValueError       // a `%` conversion other than `%s` and `%%`

  /**
   * What a service coroutine hands back: a value, Python's `None`
   * (the "not found" signal the HTTP layer maps to 404), or an exception.
   */
  datatype Reply<+T> = Found(value: T) | NotFound | Raised(fault: Fault)
}
