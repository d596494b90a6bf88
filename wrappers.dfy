/** Value types shared by every module of the model. */
module Wrappers {

  datatype Option<+T> = None | Some(value: T)

  /** The outcome of an operation that may raise: `Err` carries the exception's name. */
  datatype Result<+T> = Ok(value: T) | Err(error: string)

  /** An unsigned 8-bit value: a `Uint8Array` / `Uint8ClampedArray` element or a numpy `uint8`. */
  type byte = x: int | 0 <= x < 256
}
