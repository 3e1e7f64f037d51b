// The cipher and the inverse cipher of sections 5.1 and 5.3 of FIPS-197, on states of
// four rows and four columns, and the proof that scripts/aes.py computes them.
module Fips197 {
  import opened Gf
  import opened SBox
  import opened Words
  import opened Layers
  import opened Aes

  // Row r of column c of the state; a column is a word (section 3.5).
  function Cell(s: Block, r: nat, c: nat): bv8
    requires r < 4 && c < 4
  {
    ByteOf(s.Column(c), r)
  }

  function ByteOf(w: Word, r: nat): bv8
    requires r < 4
  {
    if r == 0 then w.b0 else if r == 1 then w.b1 else if r == 2 then w.b2 else w.b3
  }

  // The state with the given cells.
  function Make(cell: (nat, nat) --> bv8): Block
    requires forall r: nat, c: nat :: r < 4 && c < 4 ==> cell.requires(r, c)
  {
    Block(MakeColumn(cell, 0), MakeColumn(cell, 1), MakeColumn(cell, 2), MakeColumn(cell, 3))
  }

  function MakeColumn(cell: (nat, nat) --> bv8, c: nat): Word
    requires c < 4 && forall r: nat, c: nat :: r < 4 && c < 4 ==> cell.requires(r, c)
  {
    Word(cell(0, c), cell(1, c), cell(2, c), cell(3, c))
  }

  lemma MakeCells(cell: (nat, nat) --> bv8, r: nat, c: nat)
    requires r < 4 && c < 4 && forall r: nat, c: nat :: r < 4 && c < 4 ==> cell.requires(r, c)
    ensures Cell(Make(cell), r, c) == cell(r, c)
  {
  }

  // ----- The transformations, cell by cell -----

  function FipsSubBytes(s: Block): Block {
    Make((r: nat, c: nat) requires r < 4 && c < 4 => Sub(Cell(s, r, c)))
  }

  function FipsInvSubBytes(s: Block): Block {
    Make((r: nat, c: nat) requires r < 4 && c < 4 => InvSub(Cell(s, r, c)))
  }

  // Row r is rotated left by r.
  function ShiftCell(s: Block, r: nat, c: nat): bv8
    requires r < 4 && c < 4
  {
    Cell(s, r, (c + r) % 4)
  }

  function FipsShiftRows(s: Block): Block {
    Make((r: nat, c: nat) requires r < 4 && c < 4 => ShiftCell(s, r, c))
  }

  // Row r is rotated right by r.
  function InvShiftCell(s: Block, r: nat, c: nat): bv8
    requires r < 4 && c < 4
  {
    Cell(s, r, (c + 4 - r) % 4)
  }

  function FipsInvShiftRows(s: Block): Block {
    Make((r: nat, c: nat) requires r < 4 && c < 4 => InvShiftCell(s, r, c))
  }

  // The polynomials {03}x^3 + {01}x^2 + {01}x + {02} and {0b}x^3 + {0d}x^2 + {09}x + {0e},
  // by their coefficients of x^0, x^1, x^2 and x^3.
  function MixPolynomial(k: nat): bv8
    requires k < 4
  {
    if k == 0 then 0x02 else if k == 1 then 0x01 else if k == 2 then 0x01 else 0x03
  }

  function InvMixPolynomial(k: nat): bv8
    requires k < 4
  {
    if k == 0 then 0x0e else if k == 1 then 0x09 else if k == 2 then 0x0d else 0x0b
  }

  function Plus(a: bv8, b: bv8): bv8 {
    a ^ b
  }

  function Plus4(a: bv8, b: bv8, c: bv8, d: bv8): bv8 {
    a ^ b ^ c ^ d
  }

  // Coefficient r of the product of column c with a polynomial, modulo x^4 + 1: the sum of
  // the products of row k with the coefficient r - k modulo 4.
  function MixCell(s: Block, r: nat, c: nat): bv8
    requires r < 4 && c < 4
  {
    Plus4(
      Mul(Cell(s, 0, c), MixPolynomial(r)), Mul(Cell(s, 1, c), MixPolynomial((r + 3) % 4)),
      Mul(Cell(s, 2, c), MixPolynomial((r + 2) % 4)), Mul(Cell(s, 3, c), MixPolynomial((r + 1) % 4)))
  }

  function FipsMixColumns(s: Block): Block {
    Make((r: nat, c: nat) requires r < 4 && c < 4 => MixCell(s, r, c))
  }

  function InvMixCell(s: Block, r: nat, c: nat): bv8
    requires r < 4 && c < 4
  {
    Plus4(
      Mul(Cell(s, 0, c), InvMixPolynomial(r)), Mul(Cell(s, 1, c), InvMixPolynomial((r + 3) % 4)),
      Mul(Cell(s, 2, c), InvMixPolynomial((r + 2) % 4)), Mul(Cell(s, 3, c), InvMixPolynomial((r + 1) % 4)))
  }

  function FipsInvMixColumns(s: Block): Block {
    Make((r: nat, c: nat) requires r < 4 && c < 4 => InvMixCell(s, r, c))
  }

  // Column c is added to word 4 * round + c of the expanded key.
  function FipsAddRoundKey(s: Block, key: Key, round: nat): Block {
    Make((r: nat, c: nat) requires r < 4 && c < 4 =>
      Plus(Cell(s, r, c), ByteOf(ExpandedWord(key, 4 * round + c), r)))
  }

  // ----- The two ciphers -----

  // Nr = Nk + 6 (figure 4 of the standard).
  function FipsRounds(key: Key): nat {
    KeyWords(key) + 6
  }

  // The state after `round` rounds.
  function FipsState(key: Key, input: Block, round: nat): Block {
    if round == 0 then FipsAddRoundKey(input, key, 0)
    else FipsAddRoundKey(FipsMixColumns(FipsShiftRows(FipsSubBytes(FipsState(key, input, round - 1)))), key, round)
  }

  function FipsCipher(key: Key, input: Block): Block {
    var nr := FipsRounds(key);
    FipsAddRoundKey(FipsShiftRows(FipsSubBytes(FipsState(key, input, nr - 1))), key, nr)
  }

  // The state of the inverse cipher after k rounds, which use the round keys downwards.
  function FipsInvState(key: Key, input: Block, k: nat): Block
    requires k < FipsRounds(key)
  {
    var nr := FipsRounds(key);
    if k == 0 then FipsAddRoundKey(input, key, nr)
    else
      var s := FipsInvSubBytes(FipsInvShiftRows(FipsInvState(key, input, k - 1)));
      FipsInvMixColumns(FipsAddRoundKey(s, key, nr - k))
  }

  function FipsInvCipher(key: Key, input: Block): Block {
    var nr := FipsRounds(key);
    FipsAddRoundKey(FipsInvSubBytes(FipsInvShiftRows(FipsInvState(key, input, nr - 1))), key, 0)
  }

  // ----- The layers of the script are the transformations -----

  lemma SubBytesIsFips(b: Block)
    ensures SubBytes(b) == FipsSubBytes(b)
    ensures InvSubBytes(b) == FipsInvSubBytes(b)
  {
    hide Sub, InvSub;
  }

  lemma ShiftColumn(b: Block, c: nat)
    requires c < 4
    ensures var s := ShiftRows(b).Column(c);
      && s.b0 == ShiftCell(b, 0, c) && s.b1 == ShiftCell(b, 1, c)
      && s.b2 == ShiftCell(b, 2, c) && s.b3 == ShiftCell(b, 3, c)
  {
  }

  lemma InvShiftColumn(b: Block, c: nat)
    requires c < 4
    ensures var s := InvShiftRows(b).Column(c);
      && s.b0 == InvShiftCell(b, 0, c) && s.b1 == InvShiftCell(b, 1, c)
      && s.b2 == InvShiftCell(b, 2, c) && s.b3 == InvShiftCell(b, 3, c)
  {
  }

  lemma ShiftRowsIsFips(b: Block)
    ensures ShiftRows(b) == FipsShiftRows(b)
    ensures InvShiftRows(b) == FipsInvShiftRows(b)
  {
    hide ShiftRows, InvShiftRows, ShiftCell, InvShiftCell;
    ShiftColumn(b, 0);
    ShiftColumn(b, 1);
    ShiftColumn(b, 2);
    ShiftColumn(b, 3);
    InvShiftColumn(b, 0);
    InvShiftColumn(b, 1);
    InvShiftColumn(b, 2);
    InvShiftColumn(b, 3);
  }

  lemma MulOne(b: bv8)
    ensures Mul(b, 1) == b
  {
  }

  lemma SumIsPlus(a: bv8, b: bv8, c: bv8, d: bv8)
    ensures Sum(a, b, c, d) == Plus4(a, b, c, d)
  {
  }

  // One column: each byte of MixWord and InvMixWord is the coefficient of the product.
  lemma ColumnProduct(w: Word)
    ensures var m := MixWord(w);
      && m.b0 == Plus4(Mul(w.b0, 2), Mul(w.b1, 3), Mul(w.b2, 1), Mul(w.b3, 1))
      && m.b1 == Plus4(Mul(w.b0, 1), Mul(w.b1, 2), Mul(w.b2, 3), Mul(w.b3, 1))
      && m.b2 == Plus4(Mul(w.b0, 1), Mul(w.b1, 1), Mul(w.b2, 2), Mul(w.b3, 3))
      && m.b3 == Plus4(Mul(w.b0, 3), Mul(w.b1, 1), Mul(w.b2, 1), Mul(w.b3, 2))
  {
    hide Mul, Gm2, Gm3, Sum, Plus4;
    MulOnes(w);
    MultipliersAreProducts(w.b0);
    MultipliersAreProducts(w.b1);
    MultipliersAreProducts(w.b2);
    MultipliersAreProducts(w.b3);
    SumIsPlus(Gm2(w.b0), Gm3(w.b1), w.b2, w.b3);
    SumIsPlus(w.b0, Gm2(w.b1), Gm3(w.b2), w.b3);
    SumIsPlus(w.b0, w.b1, Gm2(w.b2), Gm3(w.b3));
    SumIsPlus(Gm3(w.b0), w.b1, w.b2, Gm2(w.b3));
  }

  lemma MulOnes(w: Word)
    ensures Mul(w.b0, 1) == w.b0 && Mul(w.b1, 1) == w.b1 && Mul(w.b2, 1) == w.b2 && Mul(w.b3, 1) == w.b3
  {
    hide Mul;
    MulOne(w.b0);
    MulOne(w.b1);
    MulOne(w.b2);
    MulOne(w.b3);
  }

  lemma InvColumnProduct(w: Word)
    ensures var m := InvMixWord(w);
      && m.b0 == Plus4(Mul(w.b0, 14), Mul(w.b1, 11), Mul(w.b2, 13), Mul(w.b3, 9))
      && m.b1 == Plus4(Mul(w.b0, 9), Mul(w.b1, 14), Mul(w.b2, 11), Mul(w.b3, 13))
      && m.b2 == Plus4(Mul(w.b0, 13), Mul(w.b1, 9), Mul(w.b2, 14), Mul(w.b3, 11))
      && m.b3 == Plus4(Mul(w.b0, 11), Mul(w.b1, 13), Mul(w.b2, 9), Mul(w.b3, 14))
  {
    hide Mul, Gm09, Gm11, Gm13, Gm14, Sum, Plus4;
    MultipliersAreProducts(w.b0);
    MultipliersAreProducts(w.b1);
    MultipliersAreProducts(w.b2);
    MultipliersAreProducts(w.b3);
    SumIsPlus(Gm14(w.b0), Gm11(w.b1), Gm13(w.b2), Gm09(w.b3));
    SumIsPlus(Gm09(w.b0), Gm14(w.b1), Gm11(w.b2), Gm13(w.b3));
    SumIsPlus(Gm13(w.b0), Gm09(w.b1), Gm14(w.b2), Gm11(w.b3));
    SumIsPlus(Gm11(w.b0), Gm13(w.b1), Gm09(w.b2), Gm14(w.b3));
  }

  lemma MixColumn(b: Block, c: nat)
    requires c < 4
    ensures var m := MixColumns(b).Column(c);
      && m.b0 == MixCell(b, 0, c) && m.b1 == MixCell(b, 1, c) && m.b2 == MixCell(b, 2, c) && m.b3 == MixCell(b, 3, c)
  {
    hide Mul, MixWord, Plus4;
    ColumnProduct(b.Column(c));
    assert MixColumns(b).Column(c) == MixWord(b.Column(c));
  }

  lemma InvMixColumn(b: Block, c: nat)
    requires c < 4
    ensures var m := InvMixColumns(b).Column(c);
      && m.b0 == InvMixCell(b, 0, c) && m.b1 == InvMixCell(b, 1, c)
      && m.b2 == InvMixCell(b, 2, c) && m.b3 == InvMixCell(b, 3, c)
  {
    hide Mul, InvMixWord, Plus4;
    InvColumnProduct(b.Column(c));
    assert InvMixColumns(b).Column(c) == InvMixWord(b.Column(c));
  }

  lemma MixColumnsIsFips(b: Block)
    ensures MixColumns(b) == FipsMixColumns(b)
    ensures InvMixColumns(b) == FipsInvMixColumns(b)
  {
    hide MixColumns, InvMixColumns, MixCell, InvMixCell;
    MixColumn(b, 0);
    MixColumn(b, 1);
    MixColumn(b, 2);
    MixColumn(b, 3);
    InvMixColumn(b, 0);
    InvMixColumn(b, 1);
    InvMixColumn(b, 2);
    InvMixColumn(b, 3);
  }

  lemma XorIsPlus(v: Word, w: Word)
    ensures v.Xor(w) == Word(Plus(v.b0, w.b0), Plus(v.b1, w.b1), Plus(v.b2, w.b2), Plus(v.b3, w.b3))
  {
  }

  lemma AddRoundKeyIsFips(key: Key, round: nat, b: Block)
    requires round <= key.Rounds()
    ensures AddRoundKey(KeySchedule(key)[round], b) == FipsAddRoundKey(b, key, round)
  {
    hide ExpandedWord, KeySchedule, Word.Xor, Plus;
    var k := KeySchedule(key)[round];
    ScheduleIsFips(key, round, 0);
    ScheduleIsFips(key, round, 1);
    ScheduleIsFips(key, round, 2);
    ScheduleIsFips(key, round, 3);
    XorIsPlus(b.w0, k.w0);
    XorIsPlus(b.w1, k.w1);
    XorIsPlus(b.w2, k.w2);
    XorIsPlus(b.w3, k.w3);
  }

  lemma RoundsAreFips(key: Key)
    ensures key.Rounds() == FipsRounds(key)
    ensures |KeySchedule(key)| == if key.Key128? then 11 else 15
  {
  }

  // ----- The ciphers -----

  lemma {:induction false} CipherStateIsFips(key: Key, b: Block, i: nat)
    requires i <= key.Rounds()
    ensures CipherState(KeySchedule(key), b, i) == FipsState(key, b, i)
  {
    hide SubBytes, ShiftRows, MixColumns, AddRoundKey, KeySchedule, InvSubBytes, InvShiftRows, InvMixColumns,
         FipsSubBytes, FipsShiftRows, FipsMixColumns, FipsInvSubBytes, FipsInvShiftRows, FipsInvMixColumns,
         FipsAddRoundKey;
    if i == 0 {
      AddRoundKeyIsFips(key, 0, b);
    } else {
      CipherStateIsFips(key, b, i - 1);
      var s := CipherState(KeySchedule(key), b, i - 1);
      SubBytesIsFips(s);
      ShiftRowsIsFips(SubBytes(s));
      MixColumnsIsFips(ShiftRows(SubBytes(s)));
      AddRoundKeyIsFips(key, i, MixColumns(ShiftRows(SubBytes(s))));
    }
  }

  // aes_encipher_block is the cipher of section 5.1, for both key lengths.
  lemma EncipherIsFips(key: Key, b: Block)
    ensures Encipher(key, b) == FipsCipher(key, b)
  {
    hide SubBytes, ShiftRows, MixColumns, AddRoundKey, KeySchedule, InvSubBytes, InvShiftRows, InvMixColumns,
         FipsSubBytes, FipsShiftRows, FipsInvSubBytes, FipsInvShiftRows, FipsAddRoundKey, FipsState, CipherState;
    RoundsAreFips(key);
    var nr := key.Rounds();
    CipherStateIsFips(key, b, nr - 1);
    var s := CipherState(KeySchedule(key), b, nr - 1);
    SubBytesIsFips(s);
    ShiftRowsIsFips(SubBytes(s));
    AddRoundKeyIsFips(key, nr, ShiftRows(SubBytes(s)));
  }

  // The inverse cipher of the script adds a round key where that of the standard mixes.
  lemma {:induction false} InvStateIsFips(key: Key, b: Block, i: nat)
    requires i < key.Rounds() && key.Rounds() == FipsRounds(key)
    ensures InvCipherState(KeySchedule(key), b, i)
         == FipsInvSubBytes(FipsInvShiftRows(FipsInvState(key, b, i)))
  {
    hide SubBytes, ShiftRows, MixColumns, AddRoundKey, KeySchedule, InvSubBytes, InvShiftRows, InvMixColumns,
         FipsSubBytes, FipsShiftRows, FipsMixColumns, FipsInvSubBytes, FipsInvShiftRows, FipsInvMixColumns,
         FipsAddRoundKey, FipsRounds;
    var nr := key.Rounds();
    var t;
    if i == 0 {
      t := AddRoundKey(KeySchedule(key)[nr], b);
      AddRoundKeyIsFips(key, nr, b);
    } else {
      InvStateIsFips(key, b, i - 1);
      var s := InvCipherState(KeySchedule(key), b, i - 1);
      AddRoundKeyIsFips(key, nr - i, s);
      MixColumnsIsFips(AddRoundKey(KeySchedule(key)[nr - i], s));
      t := InvMixColumns(AddRoundKey(KeySchedule(key)[nr - i], s));
    }
    ShiftRowsIsFips(t);
    SubBytesIsFips(InvShiftRows(t));
  }

  // aes_decipher_block is the inverse cipher of section 5.3, for both key lengths.
  lemma DecipherIsFips(key: Key, b: Block)
    ensures Decipher(key, b) == FipsInvCipher(key, b)
  {
    hide AddRoundKey, KeySchedule, FipsInvSubBytes, FipsInvShiftRows, FipsAddRoundKey, FipsInvState,
         InvCipherState;
    RoundsAreFips(key);
    var nr := key.Rounds();
    InvStateIsFips(key, b, nr - 1);
    AddRoundKeyIsFips(key, 0, InvCipherState(KeySchedule(key), b, nr - 1));
  }
}
