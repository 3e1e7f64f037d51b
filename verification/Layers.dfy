// The layers of an AES round and their inverses, as in scripts/aes.py.  The round
// logic of aes_encipher_block.v and aes_decipher_block.v has the same functions.
module Layers {
  import opened Gf
  import opened SBox
  import opened Words

  function SubWord(w: Word): Word {
    Word(Sub(w.b0), Sub(w.b1), Sub(w.b2), Sub(w.b3))
  }

  function InvSubWord(w: Word): Word {
    Word(InvSub(w.b0), InvSub(w.b1), InvSub(w.b2), InvSub(w.b3))
  }

  function SubBytes(b: Block): Block {
    Block(SubWord(b.w0), SubWord(b.w1), SubWord(b.w2), SubWord(b.w3))
  }

  function InvSubBytes(b: Block): Block {
    Block(InvSubWord(b.w0), InvSubWord(b.w1), InvSubWord(b.w2), InvSubWord(b.w3))
  }

  function ShiftRows(b: Block): Block {
    Block(
      Word(b.w0.b0, b.w1.b1, b.w2.b2, b.w3.b3),
      Word(b.w1.b0, b.w2.b1, b.w3.b2, b.w0.b3),
      Word(b.w2.b0, b.w3.b1, b.w0.b2, b.w1.b3),
      Word(b.w3.b0, b.w0.b1, b.w1.b2, b.w2.b3))
  }

  function InvShiftRows(b: Block): Block {
    Block(
      Word(b.w0.b0, b.w3.b1, b.w2.b2, b.w1.b3),
      Word(b.w1.b0, b.w0.b1, b.w3.b2, b.w2.b3),
      Word(b.w2.b0, b.w1.b1, b.w0.b2, b.w3.b3),
      Word(b.w3.b0, b.w2.b1, b.w1.b2, b.w0.b3))
  }

  // The sum of four bytes in the field.
  function Sum(a: bv8, b: bv8, c: bv8, d: bv8): bv8 {
    a ^ b ^ c ^ d
  }

  function MixWord(w: Word): Word {
    Word(
      Sum(Gm2(w.b0), Gm3(w.b1), w.b2, w.b3),
      Sum(w.b0, Gm2(w.b1), Gm3(w.b2), w.b3),
      Sum(w.b0, w.b1, Gm2(w.b2), Gm3(w.b3)),
      Sum(Gm3(w.b0), w.b1, w.b2, Gm2(w.b3)))
  }

  function InvMixWord(w: Word): Word {
    Word(
      Sum(Gm14(w.b0), Gm11(w.b1), Gm13(w.b2), Gm09(w.b3)),
      Sum(Gm09(w.b0), Gm14(w.b1), Gm11(w.b2), Gm13(w.b3)),
      Sum(Gm13(w.b0), Gm09(w.b1), Gm14(w.b2), Gm11(w.b3)),
      Sum(Gm11(w.b0), Gm13(w.b1), Gm09(w.b2), Gm14(w.b3)))
  }

  function MixColumns(b: Block): Block {
    Block(MixWord(b.w0), MixWord(b.w1), MixWord(b.w2), MixWord(b.w3))
  }

  function InvMixColumns(b: Block): Block {
    Block(InvMixWord(b.w0), InvMixWord(b.w1), InvMixWord(b.w2), InvMixWord(b.w3))
  }

  function AddRoundKey(key: Block, b: Block): Block {
    b.Xor(key)
  }

  // ----- SubBytes, ShiftRows and AddRoundKey are undone by their inverses -----

  lemma SubWordInverse(w: Word)
    ensures InvSubWord(SubWord(w)) == w && SubWord(InvSubWord(w)) == w
  {
    hide Sub, InvSub;
    TablesInverse(w.b0);
    TablesInverse(w.b1);
    TablesInverse(w.b2);
    TablesInverse(w.b3);
  }

  lemma SubBytesInverse(b: Block)
    ensures InvSubBytes(SubBytes(b)) == b && SubBytes(InvSubBytes(b)) == b
  {
    hide SubWord, InvSubWord;
    SubWordInverse(b.w0);
    SubWordInverse(b.w1);
    SubWordInverse(b.w2);
    SubWordInverse(b.w3);
  }

  lemma ShiftRowsInverse(b: Block)
    ensures InvShiftRows(ShiftRows(b)) == b && ShiftRows(InvShiftRows(b)) == b
  {
  }

  lemma AddRoundKeyInverse(key: Block, b: Block)
    ensures AddRoundKey(key, AddRoundKey(key, b)) == b
  {
    hide Block.Xor;
    XorCancels(b, key);
  }

  // ----- MixColumns: every word is a sum of single bytes, on which the -----
  // ----- inverse is checked, and both directions are linear            -----

  lemma Gm4Xor(a: bv8, b: bv8)
    ensures Gm4(a ^ b) == Gm4(a) ^ Gm4(b)
  {
    hide Gm2;
    calc {
      Gm4(a ^ b);
      Gm2(Gm2(a ^ b));
      { Gm2Xor(a, b); }
      Gm2(Gm2(a) ^ Gm2(b));
      { Gm2Xor(Gm2(a), Gm2(b)); }
      Gm4(a) ^ Gm4(b);
    }
  }

  lemma Gm8Xor(a: bv8, b: bv8)
    ensures Gm8(a ^ b) == Gm8(a) ^ Gm8(b)
  {
    hide Gm2, Gm4;
    Gm4Xor(a, b);
    Gm2Xor(Gm4(a), Gm4(b));
  }

  lemma Gm3Xor(a: bv8, b: bv8)
    ensures Gm3(a ^ b) == Gm3(a) ^ Gm3(b)
  {
    hide Gm2;
    Gm2Xor(a, b);
  }

  lemma Gm09Xor(a: bv8, b: bv8)
    ensures Gm09(a ^ b) == Gm09(a) ^ Gm09(b)
  {
    hide Gm8;
    Gm8Xor(a, b);
  }

  lemma Gm11Xor(a: bv8, b: bv8)
    ensures Gm11(a ^ b) == Gm11(a) ^ Gm11(b)
  {
    hide Gm8, Gm2;
    Gm8Xor(a, b);
    Gm2Xor(a, b);
  }

  lemma Gm13Xor(a: bv8, b: bv8)
    ensures Gm13(a ^ b) == Gm13(a) ^ Gm13(b)
  {
    hide Gm8, Gm4;
    Gm8Xor(a, b);
    Gm4Xor(a, b);
  }

  lemma Gm14Xor(a: bv8, b: bv8)
    ensures Gm14(a ^ b) == Gm14(a) ^ Gm14(b)
  {
    hide Gm8, Gm4, Gm2;
    Gm8Xor(a, b);
    Gm4Xor(a, b);
    Gm2Xor(a, b);
  }

  lemma SumCycle(a: bv8, b: bv8, c: bv8, d: bv8)
    ensures Sum(a, b, c, d) == Sum(b, c, d, a)
  {
  }

  lemma SumCycles(a: bv8, b: bv8, c: bv8, d: bv8)
    ensures Sum(a, b, c, d) == Sum(b, c, d, a) == Sum(c, d, a, b) == Sum(d, a, b, c)
  {
    hide Sum;
    SumCycle(a, b, c, d);
    SumCycle(b, c, d, a);
    SumCycle(c, d, a, b);
  }

  lemma SumXor(a: bv8, b: bv8, c: bv8, d: bv8, e: bv8, f: bv8, g: bv8, h: bv8)
    ensures Sum(a ^ e, b ^ f, c ^ g, d ^ h) == Sum(a, b, c, d) ^ Sum(e, f, g, h)
  {
  }

  // One output byte of MixWord; the other three rotate the arguments.
  function MixByte(a: bv8, b: bv8, c: bv8, d: bv8): bv8 {
    Sum(Gm2(a), Gm3(b), c, d)
  }

  function InvMixByte(a: bv8, b: bv8, c: bv8, d: bv8): bv8 {
    Sum(Gm14(a), Gm11(b), Gm13(c), Gm09(d))
  }

  function MixRows(w: Word): Word {
    Word(MixByte(w.b0, w.b1, w.b2, w.b3), MixByte(w.b1, w.b2, w.b3, w.b0),
         MixByte(w.b2, w.b3, w.b0, w.b1), MixByte(w.b3, w.b0, w.b1, w.b2))
  }

  function InvMixRows(w: Word): Word {
    Word(InvMixByte(w.b0, w.b1, w.b2, w.b3), InvMixByte(w.b1, w.b2, w.b3, w.b0),
         InvMixByte(w.b2, w.b3, w.b0, w.b1), InvMixByte(w.b3, w.b0, w.b1, w.b2))
  }

  lemma MixWordIsRows(w: Word)
    ensures MixWord(w) == MixRows(w)
  {
    hide Gm2, Gm3, Sum;
    SumCycles(Gm2(w.b0), Gm3(w.b1), w.b2, w.b3);
    SumCycles(w.b0, Gm2(w.b1), Gm3(w.b2), w.b3);
    SumCycles(w.b0, w.b1, Gm2(w.b2), Gm3(w.b3));
    SumCycles(Gm3(w.b0), w.b1, w.b2, Gm2(w.b3));
  }

  lemma InvMixWordIsRows(w: Word)
    ensures InvMixWord(w) == InvMixRows(w)
  {
    hide Gm09, Gm11, Gm13, Gm14, Sum;
    SumCycles(Gm14(w.b0), Gm11(w.b1), Gm13(w.b2), Gm09(w.b3));
    SumCycles(Gm09(w.b0), Gm14(w.b1), Gm11(w.b2), Gm13(w.b3));
    SumCycles(Gm13(w.b0), Gm09(w.b1), Gm14(w.b2), Gm11(w.b3));
    SumCycles(Gm11(w.b0), Gm13(w.b1), Gm09(w.b2), Gm14(w.b3));
  }

  lemma MixByteXor(a: bv8, b: bv8, c: bv8, d: bv8, e: bv8, f: bv8, g: bv8, h: bv8)
    ensures MixByte(a ^ e, b ^ f, c ^ g, d ^ h) == MixByte(a, b, c, d) ^ MixByte(e, f, g, h)
  {
    hide Gm2, Gm3, Sum;
    Gm2Xor(a, e);
    Gm3Xor(b, f);
    SumXor(Gm2(a), Gm3(b), c, d, Gm2(e), Gm3(f), g, h);
  }

  lemma MixRowsXorBytes(a: bv8, b: bv8, c: bv8, d: bv8, e: bv8, f: bv8, g: bv8, h: bv8)
    ensures MixRows(Word(a ^ e, b ^ f, c ^ g, d ^ h)) == MixRows(Word(a, b, c, d)).Xor(MixRows(Word(e, f, g, h)))
  {
    hide MixByte;
    MixByteXor(a, b, c, d, e, f, g, h);
    MixByteXor(b, c, d, a, f, g, h, e);
    MixByteXor(c, d, a, b, g, h, e, f);
    MixByteXor(d, a, b, c, h, e, f, g);
  }

  lemma InvMixByteXor(a: bv8, b: bv8, c: bv8, d: bv8, e: bv8, f: bv8, g: bv8, h: bv8)
    ensures InvMixByte(a ^ e, b ^ f, c ^ g, d ^ h) == InvMixByte(a, b, c, d) ^ InvMixByte(e, f, g, h)
  {
    hide Gm14, Gm11, Gm13, Gm09, Sum;
    Gm14Xor(a, e);
    Gm11Xor(b, f);
    Gm13Xor(c, g);
    Gm09Xor(d, h);
    SumXor(Gm14(a), Gm11(b), Gm13(c), Gm09(d), Gm14(e), Gm11(f), Gm13(g), Gm09(h));
  }

  lemma InvMixRowsXorBytes(a: bv8, b: bv8, c: bv8, d: bv8, e: bv8, f: bv8, g: bv8, h: bv8)
    ensures InvMixRows(Word(a ^ e, b ^ f, c ^ g, d ^ h))
         == InvMixRows(Word(a, b, c, d)).Xor(InvMixRows(Word(e, f, g, h)))
  {
    hide InvMixByte;
    InvMixByteXor(a, b, c, d, e, f, g, h);
    InvMixByteXor(b, c, d, a, f, g, h, e);
    InvMixByteXor(c, d, a, b, g, h, e, f);
    InvMixByteXor(d, a, b, c, h, e, f, g);
  }

  lemma MixWordXor(v: Word, w: Word)
    ensures MixWord(v.Xor(w)) == MixWord(v).Xor(MixWord(w))
    ensures InvMixWord(v.Xor(w)) == InvMixWord(v).Xor(InvMixWord(w))
  {
    hide *;
    XorBytes(v, w);
    MixWordIsRows(v);
    MixWordIsRows(w);
    MixWordIsRows(v.Xor(w));
    InvMixWordIsRows(v);
    InvMixWordIsRows(w);
    InvMixWordIsRows(v.Xor(w));
    MixRowsXorBytes(v.b0, v.b1, v.b2, v.b3, w.b0, w.b1, w.b2, w.b3);
    InvMixRowsXorBytes(v.b0, v.b1, v.b2, v.b3, w.b0, w.b1, w.b2, w.b3);
  }

  lemma MixRowsRot(w: Word)
    ensures MixRows(w.Rot()) == MixRows(w).Rot()
    ensures InvMixRows(w.Rot()) == InvMixRows(w).Rot()
  {
    hide MixByte, InvMixByte;
  }

  lemma MixWordRot(w: Word)
    ensures MixWord(w.Rot()) == MixWord(w).Rot()
    ensures InvMixWord(w.Rot()) == InvMixWord(w).Rot()
  {
    hide *;
    MixWordIsRows(w);
    MixWordIsRows(w.Rot());
    InvMixWordIsRows(w);
    InvMixWordIsRows(w.Rot());
    MixRowsRot(w);
  }

  predicate MixInvertible(w: Word) {
    InvMixWord(MixWord(w)) == w && MixWord(InvMixWord(w)) == w
  }

  lemma InvMixMixByte(b: bv8)
    ensures InvMixWord(MixWord(Word(b, 0, 0, 0))) == Word(b, 0, 0, 0)
  {
  }

  lemma MixInvMixByte(b: bv8)
    ensures MixWord(InvMixWord(Word(b, 0, 0, 0))) == Word(b, 0, 0, 0)
  {
  }

  lemma MixInvertibleRot(w: Word)
    requires MixInvertible(w)
    ensures MixInvertible(w.Rot())
  {
    hide MixWord, InvMixWord, Word.Rot;
    MixWordRot(w);
    MixWordRot(MixWord(w));
    MixWordRot(InvMixWord(w));
  }

  lemma MixInvertibleXor(v: Word, w: Word)
    requires MixInvertible(v) && MixInvertible(w)
    ensures MixInvertible(v.Xor(w))
  {
    hide MixWord, InvMixWord, Word.Xor;
    MixWordXor(v, w);
    MixWordXor(MixWord(v), MixWord(w));
    MixWordXor(InvMixWord(v), InvMixWord(w));
  }

  lemma MixInvertibleBytes(b: bv8)
    ensures MixInvertible(Word(b, 0, 0, 0)) && MixInvertible(Word(0, b, 0, 0))
    ensures MixInvertible(Word(0, 0, b, 0)) && MixInvertible(Word(0, 0, 0, b))
  {
    hide MixWord, InvMixWord;
    InvMixMixByte(b);
    MixInvMixByte(b);
    MixInvertibleRot(Word(b, 0, 0, 0));
    MixInvertibleRot(Word(0, 0, 0, b));
    MixInvertibleRot(Word(0, 0, b, 0));
  }

  lemma SumOfBytes(w: Word)
    ensures w == Word(w.b0, 0, 0, 0).Xor(Word(0, w.b1, 0, 0)).Xor(Word(0, 0, w.b2, 0).Xor(Word(0, 0, 0, w.b3)))
  {
  }

  lemma MixWordInverse(w: Word)
    ensures MixInvertible(w)
  {
    hide *;
    MixInvertibleBytes(w.b0);
    MixInvertibleBytes(w.b1);
    MixInvertibleBytes(w.b2);
    MixInvertibleBytes(w.b3);
    MixInvertibleXor(Word(w.b0, 0, 0, 0), Word(0, w.b1, 0, 0));
    MixInvertibleXor(Word(0, 0, w.b2, 0), Word(0, 0, 0, w.b3));
    MixInvertibleXor(Word(w.b0, 0, 0, 0).Xor(Word(0, w.b1, 0, 0)), Word(0, 0, w.b2, 0).Xor(Word(0, 0, 0, w.b3)));
    SumOfBytes(w);
  }

  lemma MixColumnsInverse(b: Block)
    ensures InvMixColumns(MixColumns(b)) == b && MixColumns(InvMixColumns(b)) == b
  {
    hide MixWord, InvMixWord;
    MixWordInverse(b.w0);
    MixWordInverse(b.w1);
    MixWordInverse(b.w2);
    MixWordInverse(b.w3);
  }
}
