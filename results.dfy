/** Success/failure wrappers shared by the other modules, named after Rust's own
    `Result` and `Option`. */
module Results {

  datatype Result<+T, +E> = Ok(value: T) | Err(error: E)

  datatype Option<+T> = None | Some(value: T)
}
