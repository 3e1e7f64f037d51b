// Arithmetic in GF(2^8), the field of AES (section 4 of FIPS-197).
//
// The Gm* functions are the constant multipliers of scripts/aes.py, which the
// round logic of the hardware repeats.  `Mul` is the reference definition of
// section 4.2.1: multiplication by x, repeated, and summed over the set bits.
module Gf {

  function Gm2(b: bv8): bv8 {
    (b << 1) ^ (0x1b & ((b >> 7) * 0xff))
  }

  function Gm3(b: bv8): bv8 {
    Gm2(b) ^ b
  }

  function Gm4(b: bv8): bv8 {
    Gm2(Gm2(b))
  }

  function Gm8(b: bv8): bv8 {
    Gm2(Gm4(b))
  }

  function Gm09(b: bv8): bv8 {
    Gm8(b) ^ b
  }

  function Gm11(b: bv8): bv8 {
    Gm8(b) ^ Gm2(b) ^ b
  }

  function Gm13(b: bv8): bv8 {
    Gm8(b) ^ Gm4(b) ^ b
  }

  function Gm14(b: bv8): bv8 {
    Gm8(b) ^ Gm4(b) ^ Gm2(b)
  }

  // ----- Reference definition -----

  // Multiplication by the polynomial x, modulo x^8 + x^4 + x^3 + x + 1.
  function Xtime(b: bv8): bv8 {
    if b & 0x80 == 0 then b << 1 else (b << 1) ^ 0x1b
  }

  // The coefficient-wise term: a if the given bit of b is set.
  function Term(a: bv8, b: bv8, bit: bv8): bv8 {
    if b & bit == 0 then 0 else a
  }

  function Mul(a: bv8, b: bv8): bv8 {
    var a1 := Xtime(a);
    var a2 := Xtime(a1);
    var a3 := Xtime(a2);
    var a4 := Xtime(a3);
    var a5 := Xtime(a4);
    var a6 := Xtime(a5);
    var a7 := Xtime(a6);
    Term(a, b, 0x01) ^ Term(a1, b, 0x02) ^ Term(a2, b, 0x04) ^ Term(a3, b, 0x08)
    ^ Term(a4, b, 0x10) ^ Term(a5, b, 0x20) ^ Term(a6, b, 0x40) ^ Term(a7, b, 0x80)
  }

  // The powers of x.
  function PowerOfX(n: nat): bv8 {
    if n == 0 then 1 else Mul(PowerOfX(n - 1), 2)
  }

  lemma Gm2IsXtime(b: bv8)
    ensures Gm2(b) == Xtime(b)
  {
  }

  // Every constant multiplier is the field product by that constant.
  lemma PowerMultipliers(b: bv8)
    ensures Gm2(b) == Mul(b, 2) && Gm4(b) == Mul(b, 4) && Gm8(b) == Mul(b, 8)
  {
  }

  lemma SmallMultipliers(b: bv8)
    ensures Gm3(b) == Mul(b, 3) && Gm09(b) == Mul(b, 9)
  {
  }

  lemma LargeMultipliers(b: bv8)
    ensures Gm11(b) == Mul(b, 11) && Gm13(b) == Mul(b, 13)
  {
  }

  lemma MulBy14(b: bv8)
    ensures Mul(b, 14) == Mul(b, 8) ^ Mul(b, 4) ^ Mul(b, 2)
  {
  }

  lemma Gm14Multiplier(b: bv8)
    ensures Gm14(b) == Mul(b, 14)
  {
    hide Mul, Gm2, Gm4, Gm8;
    PowerMultipliers(b);
    MulBy14(b);
  }

  lemma MultipliersAreProducts(b: bv8)
    ensures Gm2(b) == Mul(b, 2) && Gm3(b) == Mul(b, 3)
    ensures Gm4(b) == Mul(b, 4) && Gm8(b) == Mul(b, 8)
    ensures Gm09(b) == Mul(b, 9) && Gm11(b) == Mul(b, 11)
    ensures Gm13(b) == Mul(b, 13) && Gm14(b) == Mul(b, 14)
  {
    hide *;
    PowerMultipliers(b);
    SmallMultipliers(b);
    LargeMultipliers(b);
    Gm14Multiplier(b);
  }

  lemma Gm2Xor(a: bv8, b: bv8)
    ensures Gm2(a ^ b) == Gm2(a) ^ Gm2(b)
  {
  }
}
