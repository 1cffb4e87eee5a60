/** Small value wrappers shared by the whole model. */
module Wrappers {

  /** A value that may be absent: C# `null`, JavaScript `null`/`undefined`. */
  datatype Option<T> = None | Some(value: T)

  /** What a call into code outside the model (database, mediator, AI service) gave back:
      a value, or an exception. */
  datatype Reply<T> = Returned(value: T) | Threw
}
