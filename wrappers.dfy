/** The optional value and the result-or-error shared by the other modules: Java's null is
    `None`, and a thrown exception is `Err`. */
module Wrappers {

  datatype Option<T> = None | Some(value: T)

  datatype Result<T, E> = Ok(value: T) | Err(error: E)
}
