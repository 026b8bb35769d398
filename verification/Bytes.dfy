/**
 Bytes as the numbers they hold.
 */
module Bytes {
  type Byte = n: int | 0 <= n < 256
}
