/** Option and Result values shared by the modules below: `null`/`undefined`
    results and thrown errors of the original code become these. */
module Wrappers {

  datatype Option<+T> = None | Some(value: T)

  datatype Result<+R, +E> = Ok(value: R) | Err(error: E)
}
