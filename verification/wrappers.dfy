/** Option and Result, the two failure-carrying datatypes the model uses
    for Python's `None` and for exceptions raised by collaborators. */
module Wrappers {

  /** `None` stands for Python's `None` (or JSON `null`). */
  datatype Option<+T> = None | Some(value: T)

  /** `Err` carries the text of the exception a collaborator raised. */
  datatype Result<+T> = Ok(value: T) | Err(error: string)
}
