/** Order and multiplication of reals. */
module RealOrder {

  lemma MulLe(x: real, y: real, z: real)
    requires x <= y && z >= 0.0
    ensures x * z <= y * z
  {
  }
}
