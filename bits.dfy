/** The two bit-field operations every packed word of the protocol is read
    with, named so that a record built from many of them stays readable. */
module Bits {
  /** `x & m`: the bits of `x` that the mask `m` keeps. */
  function Mask(x: bv32, m: bv32): bv32 {
    x & m
  }

  /** `(v >> shift) & m`: the sub-field of `v` starting at bit `shift`. */
  function SubField(v: bv32, shift: bv32, m: bv32): bv32
    requires shift < 32
  {
    (v >> shift) & m
  }

  /** `v >> shift`: the field that runs from bit `shift` to the top of `v`. */
  function High(v: bv32, shift: bv32): bv32
    requires shift < 32
  {
    v >> shift
  }
}
