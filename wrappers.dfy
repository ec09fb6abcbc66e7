/** Option and Result values shared by the users model. A JavaScript
    `null` or `undefined` is `None`; a rejected promise is `Err`. */
module Wrappers {

  datatype Option<+T> = None | Some(value: T)

  datatype Result<+T, +E> = Ok(value: T) | Err(error: E)

}
