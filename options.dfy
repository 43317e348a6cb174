/** Rust's `Option<T>`: the result of `ShuffleBag::pop` and of `partial_cmp`. */
module Options {

  datatype Option<+T> = None | Some(value: T)

}
