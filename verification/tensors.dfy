/** Values shared by every part of the model. */
module Tensors {

  /** A tensor's values in row-major order. The source's tensors are
      floating point; the model uses exact reals and never claims bit-exactness. */
  type Tensor = seq<real>

  /** One unsigned byte, as held by the canvas's RGBA buffer and by a Uint8Array. */
  newtype byte = x: int | 0 <= x < 256

  datatype Option<+T> = None | Some(value: T)
}
