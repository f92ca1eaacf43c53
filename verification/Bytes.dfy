/** Bytes, as the numbers 0 to 255. */
module Bytes {
  type Byte = b: nat | b < 256

  function Zeros(n: nat): (z: seq<Byte>)
    ensures |z| == n
  {
    seq(n, _ => 0)
  }
}
