/** Bytes as bit vectors. */
module Bits {

  lemma BitsValue(n: nat)
    requires n < 256
    ensures (n as bv8) as int == n
  {
  }
}
