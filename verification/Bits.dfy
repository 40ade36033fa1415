/** Facts about one byte as an eight-bit word. */
module Bits {

  lemma ThereAndBack(x: int)
    requires 0 <= x < 256
    ensures (x as bv8) as int == x
  {
  }

  lemma XorZero(x: bv8, y: bv8)
    ensures x ^ y == 0 <==> x == y
  {
  }

  lemma OrZero(d: bv8, e: bv8)
    ensures (d | e) == 0 <==> d == 0 && e == 0
  {
  }

  lemma Range(d: bv8)
    ensures 0 <= d as int < 256 && (d as int == 0 <==> d == 0)
  {
  }
}
