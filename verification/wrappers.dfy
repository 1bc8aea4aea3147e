/** The usual optional and fallible values, and the byte type every module shares. */
module Wrappers {

  datatype Option<+T> = None | Some(value: T)

  datatype Result<+T, +E> = Ok(value: T) | Err(error: E)

  type byte = x: int | 0 <= x < 256

  const WORD64 := 0x1_0000_0000_0000_0000
}
