/** Option and Result values shared by the model's modules. */
module Results {
  /** An optional value: `None` stands for a null pointer or an empty lookup. */
  datatype Option<T> = None | Some(value: T)

  /** The outcome of an operation that can fail with an error of type `E`. */
  datatype Result<T, E> = Ok(value: T) | Err(error: E)
}
