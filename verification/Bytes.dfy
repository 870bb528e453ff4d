/** Octets on a wire or in a log. */
module Bytes {
  newtype byte = x: int | 0 <= x < 256
}
