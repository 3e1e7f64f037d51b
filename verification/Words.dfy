// The words and blocks on which AES works.
//
// The Python model and the hardware hold a word as 32 bits, most significant
// byte first.  Here a word is its four bytes; `Pack` gives the 32-bit value, and
// the lemmas below show that packing is one to one and commutes with the word
// operations the cipher uses.
module Words {

  function Num(b: bv8): (n: nat)
    ensures n < 0x100
  {
    b as int
  }

  function Byte(n: nat): bv8
    requires n < 0x100
  {
    n as bv8
  }

  datatype Word = Word(b0: bv8, b1: bv8, b2: bv8, b3: bv8) {
    function Xor(o: Word): Word {
      Word(b0 ^ o.b0, b1 ^ o.b1, b2 ^ o.b2, b3 ^ o.b3)
    }

    // Rotation left by one byte.
    function Rot(): Word {
      Word(b1, b2, b3, b0)
    }

    // The number that the word stands for, most significant byte first.
    function Value(): nat {
      Num(b0) * 0x100_0000 + Num(b1) * 0x1_0000 + Num(b2) * 0x100 + Num(b3)
    }

    function Pack(): bv32 {
      ((b0 as bv32) << 24) | ((b1 as bv32) << 16) | ((b2 as bv32) << 8) | (b3 as bv32)
    }
  }

  datatype Block = Block(w0: Word, w1: Word, w2: Word, w3: Word) {
    function Xor(o: Block): Block {
      Block(w0.Xor(o.w0), w1.Xor(o.w1), w2.Xor(o.w2), w3.Xor(o.w3))
    }

    // Word i of the block, counted from the most significant end.
    function Column(i: nat): Word
      requires i < 4
    {
      if i == 0 then w0 else if i == 1 then w1 else if i == 2 then w2 else w3
    }
  }

  const ZERO_WORD: Word := Word(0, 0, 0, 0)
  const ZERO_BLOCK: Block := Block(ZERO_WORD, ZERO_WORD, ZERO_WORD, ZERO_WORD)

  function Unpack(w: bv32): Word {
    Word((w >> 24) as bv8, ((w >> 16) & 0xff) as bv8, ((w >> 8) & 0xff) as bv8, (w & 0xff) as bv8)
  }

  lemma UnpackPack(w: Word)
    ensures Unpack(w.Pack()) == w
  {
  }

  lemma PackUnpack(w: bv32)
    ensures Unpack(w).Pack() == w
  {
  }

  lemma PackXor(a: Word, b: Word)
    ensures a.Xor(b).Pack() == a.Pack() ^ b.Pack()
  {
  }

  lemma UnpackRot(w: bv32)
    ensures Unpack((w << 8) | (w >> 24)) == Unpack(w).Rot()
  {
  }

  lemma XorBytes(v: Word, w: Word)
    ensures v.Xor(w) == Word(v.b0 ^ w.b0, v.b1 ^ w.b1, v.b2 ^ w.b2, v.b3 ^ w.b3)
  {
  }

  lemma WordXorCancels(a: Word, b: Word)
    ensures a.Xor(b).Xor(b) == a
  {
  }

  lemma WordXorAssoc(a: Word, b: Word, c: Word)
    ensures a.Xor(b).Xor(c) == a.Xor(b.Xor(c))
  {
  }

  lemma XorCancels(a: Block, b: Block)
    ensures a.Xor(b).Xor(b) == a
  {
    hide Word.Xor;
    WordXorCancels(a.w0, b.w0);
    WordXorCancels(a.w1, b.w1);
    WordXorCancels(a.w2, b.w2);
    WordXorCancels(a.w3, b.w3);
  }

  // ----- Words as numbers -----

  lemma NextByte(b: bv8)
    requires b != 0xff
    ensures Num(b + 1) == Num(b) + 1
  {
  }

  // Every number below 256 is the number of a byte.
  lemma {:induction false} ByteWith(n: nat) returns (b: bv8)
    requires n < 0x100
    ensures Num(b) == n
  {
    if n == 0 {
      b := 0;
    } else {
      b := ByteWith(n - 1);
      NextByte(b);
      b := b + 1;
    }
  }

  lemma ByteOfNum(b: bv8)
    ensures Byte(Num(b)) == b
  {
  }

  lemma NumOfByte(n: nat)
    requires n < 0x100
    ensures Num(Byte(n)) == n
  {
    hide *;
    var b := ByteWith(n);
    ByteOfNum(b);
  }

  lemma Digits(n: nat)
    requires n < 0x1_0000_0000
    ensures n / 0x100_0000 < 0x100
    ensures n == n / 0x100_0000 * 0x100_0000 + n / 0x1_0000 % 0x100 * 0x1_0000 + n / 0x100 % 0x100 * 0x100 + n % 0x100
  {
    assert n / 0x100 / 0x100 == n / 0x1_0000;
    assert n / 0x1_0000 / 0x100 == n / 0x100_0000;
  }

  // The word of a 32-bit number.
  function OfNumber(n: nat): Word
    requires n < 0x1_0000_0000
  {
    Digits(n);
    Word(Byte(n / 0x100_0000), Byte(n / 0x1_0000 % 0x100), Byte(n / 0x100 % 0x100), Byte(n % 0x100))
  }

  lemma ValueOfNumber(n: nat)
    requires n < 0x1_0000_0000
    ensures OfNumber(n).Value() == n
  {
    hide Num, Byte;
    Digits(n);
    NumOfByte(n / 0x100_0000);
    NumOfByte(n / 0x1_0000 % 0x100);
    NumOfByte(n / 0x100 % 0x100);
    NumOfByte(n % 0x100);
  }

  // The number determines the word.
  lemma ValueExact(v: Word, w: Word)
    requires v.Value() == w.Value()
    ensures v == w
  {
    hide Num;
    SameDigits(Num(v.b0), Num(v.b1), Num(v.b2), Num(v.b3), Num(w.b0), Num(w.b1), Num(w.b2), Num(w.b3));
    ByteOfNum(v.b0);
    ByteOfNum(v.b1);
    ByteOfNum(v.b2);
    ByteOfNum(v.b3);
    ByteOfNum(w.b0);
    ByteOfNum(w.b1);
    ByteOfNum(w.b2);
    ByteOfNum(w.b3);
  }

  lemma SameDigits(a: nat, b: nat, c: nat, d: nat, e: nat, f: nat, g: nat, h: nat)
    requires a < 0x100 && b < 0x100 && c < 0x100 && d < 0x100 && e < 0x100 && f < 0x100 && g < 0x100 && h < 0x100
    requires a * 0x100_0000 + b * 0x1_0000 + c * 0x100 + d == e * 0x100_0000 + f * 0x1_0000 + g * 0x100 + h
    ensures a == e && b == f && c == g && d == h
  {
  }

  // The packed word has the bytes in place: b0 at the most significant end.
  lemma PackInPlace(w: Word)
    ensures w.Pack() >> 24 == w.b0 as bv32
    ensures (w.Pack() >> 16) & 0xff == w.b1 as bv32
    ensures (w.Pack() >> 8) & 0xff == w.b2 as bv32
    ensures w.Pack() & 0xff == w.b3 as bv32
  {
  }
}
