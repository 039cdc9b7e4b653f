/** Small wrappers shared by every module of the model. */
module Common {

  /** Rust's `Option`: a value that may be missing. */
  datatype Option<+T> = None | Some(value: T)

  /** The result of a computation that may abort: `Panics` stands for a Rust
      panic (an out-of-range index, an `unwrap` of `None`, an arithmetic
      overflow), after which nothing of the computation is observable. */
  datatype Outcome<+T> = Returns(value: T) | Panics
}
