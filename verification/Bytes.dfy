/** Byte-addressed memory. */
module Bytes {
  /** The byte at an address; what was never stored reads as zero. */
  function ByteAt(bytes: map<int, int>, a: int): (b: int) {
    if a in bytes then bytes[a] else 0
  }
}
