/** The optional result that most cache operations return (Rust's `Option`). */
module Maybe {

  datatype Option<+T> = None | Some(value: T)
}
