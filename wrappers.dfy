/** Option and Result, the two shapes the Rust code returns
    (`Option<NamedFile>` and `Result<PasteID, &str>`). */
module Wrappers {

  datatype Option<+T> = None | Some(value: T)

  datatype Result<+R, +E> = Ok(value: R) | Err(error: E)
}
