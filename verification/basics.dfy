/** Small value types shared by every module of the model. */
module Basics {

  /** A nullable value: `None` stands for JavaScript's `null`. */
  datatype Option<T> = None | Some(value: T)
  {
    function GetOr(default: T): T
    {
      match this
      case Some(v) => v
      case None => default
    }
  }

  /** The outcome of an operation that can be rejected (a rejected Promise). */
  datatype Result<T, E> = Ok(value: T) | Err(error: E)

  /** JavaScript truthiness of a nullable numeric id: both `null` and `0` are falsy. */
  predicate Truthy(o: Option<nat>)
  {
    o.Some? && o.value != 0
  }
}
