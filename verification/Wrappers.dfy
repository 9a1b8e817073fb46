/** Result and option types shared by every module of the model. */
module Wrappers {

  /** A nullable column or an absent row. */
  datatype Option<+T> = None | Some(value: T)

  /** The outcome of a call that may raise; a raising call leaves a Failure. */
  datatype Result<+T, +E> = Success(value: T) | Failure(error: E)
}
