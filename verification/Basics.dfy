/** Types shared by the other modules. */
module Basics {

  datatype Option<+T> = None | Some(value: T)

  /** One byte as it travels on a pipe or lies in a file. */
  type octet = x: int | 0 <= x < 256
}
