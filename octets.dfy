/** Octets, the unit of every buffer the client encodes, hashes or sends. */
module Octets {

  type Byte = x: int | 0 <= x < 256
}
