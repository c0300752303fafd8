/** Optional values and results, the shapes the program's std::optional and core::Result take here, and bytes. */
module Wrappers {

  datatype Option<+T> = None | Some(value: T)

  datatype Result<+T, +E> = Ok(value: T) | Err(error: E)

  type Byte = b: int | 0 <= b < 256

  function Min(a: int, b: int): (m: int)
  {
    if a < b then a else b
  }

  function Max(a: int, b: int): (m: int)
  {
    if a < b then b else a
  }
}
