/** Bytes, for what is read from and written to files. */
module Bytes {
  newtype byte = x: int | 0 <= x < 256
}
