// scripts/aes.py works on tuples of 32-bit integers.  The same computation on packed
// words, and the proof that it is the one on bytes.
module PackedWords {
  import opened Words
  import opened Layers
  import opened Aes

  datatype Packed = Packed(w0: bv32, w1: bv32, w2: bv32, w3: bv32)

  function PackBlock(b: Block): Packed {
    Packed(b.w0.Pack(), b.w1.Pack(), b.w2.Pack(), b.w3.Pack())
  }

  function UnpackBlock(p: Packed): Block {
    Block(Unpack(p.w0), Unpack(p.w1), Unpack(p.w2), Unpack(p.w3))
  }

  lemma BlocksPack(b: Block, p: Packed)
    ensures UnpackBlock(PackBlock(b)) == b
    ensures PackBlock(UnpackBlock(p)) == p
  {
    hide Unpack, Word.Pack;
    UnpackPack(b.w0);
    UnpackPack(b.w1);
    UnpackPack(b.w2);
    UnpackPack(b.w3);
    PackUnpack(p.w0);
    PackUnpack(p.w1);
    PackUnpack(p.w2);
    PackUnpack(p.w3);
  }

  // ----- Key expansion -----

  function Rolx8(w: bv32): bv32 {
    (w << 8) | (w >> 24)
  }

  // w2b, four table lookups, b2w.
  function Substw(w: bv32): bv32 {
    SubWord(Unpack(w)).Pack()
  }

  function Xor(a: bv32, b: bv32): bv32 {
    a ^ b
  }

  function RconTop(rcon: bv8): bv32 {
    (rcon as bv32) << 24
  }

  function Chain(p: Packed, t: bv32): Packed {
    Packed(
      Xor(p.w0, t),
      Xor(Xor(p.w1, p.w0), t),
      Xor(Xor(Xor(p.w2, p.w1), p.w0), t),
      Xor(Xor(Xor(Xor(p.w3, p.w2), p.w1), p.w0), t))
  }

  function Next128Bit(p: Packed, rcon: bv8): Packed {
    Chain(p, Xor(Substw(Rolx8(p.w3)), RconTop(rcon)))
  }

  function Next256BitA(p0: Packed, p1: Packed, rcon: bv8): Packed {
    Chain(p0, Xor(Substw(Rolx8(p1.w3)), RconTop(rcon)))
  }

  function Next256BitB(p0: Packed, p1: Packed): Packed {
    Chain(p0, Substw(p1.w3))
  }

  datatype PackedKey = PackedKey128(k: Packed) | PackedKey256(k0: Packed, k1: Packed) {
    function Unpacked(): Key {
      match this
      case PackedKey128(k) => Key128(UnpackBlock(k))
      case PackedKey256(k0, k1) => Key256(UnpackBlock(k0), UnpackBlock(k1))
    }
  }

  function PackedRoundKey(key: PackedKey, i: nat): Packed {
    match key
    case PackedKey128(k) =>
      if i == 0 then k else Next128Bit(PackedRoundKey(key, i - 1), Rcon(i))
    case PackedKey256(k0, k1) =>
      if i == 0 then k0
      else if i == 1 then k1
      else if i % 2 == 0 then Next256BitA(PackedRoundKey(key, i - 2), PackedRoundKey(key, i - 1), Rcon(i / 2))
      else Next256BitB(PackedRoundKey(key, i - 2), PackedRoundKey(key, i - 1))
  }

  lemma SumPacks(a: Word, b: Word)
    ensures a.Xor(b).Pack() == Xor(a.Pack(), b.Pack())
  {
    hide Word.Xor, Word.Pack;
    PackXor(a, b);
  }

  lemma RotPacks(w: Word)
    ensures Unpack(Rolx8(w.Pack())) == w.Rot()
  {
    hide Word.Rot, Word.Pack, Unpack;
    UnpackPack(w);
    UnpackRot(w.Pack());
  }

  lemma ChainPacks(b: Block, t: Word)
    ensures PackBlock(ChainKey(b, t)) == Chain(PackBlock(b), t.Pack())
  {
    hide Word.Xor, Word.Pack, Xor;
    var w0, w1, w2, w3 := b.w0, b.w1, b.w2, b.w3;
    SumPacks(w0, t);
    SumPacks(w1, w0);
    SumPacks(w1.Xor(w0), t);
    SumPacks(w2, w1);
    SumPacks(w2.Xor(w1), w0);
    SumPacks(w2.Xor(w1).Xor(w0), t);
    SumPacks(w3, w2);
    SumPacks(w3.Xor(w2), w1);
    SumPacks(w3.Xor(w2).Xor(w1), w0);
    SumPacks(w3.Xor(w2).Xor(w1).Xor(w0), t);
  }

  lemma RconPacks(rcon: bv8)
    ensures RconWord(rcon).Pack() == RconTop(rcon)
  {
  }

  // The temporary word of a key step: rotate, substitute, add the round constant.
  lemma StepWordPacks(w: Word, rcon: bv8)
    ensures SubWord(w.Rot()).Xor(RconWord(rcon)).Pack() == Xor(Substw(Rolx8(w.Pack())), RconTop(rcon))
  {
    hide SubWord, Word.Xor, Word.Pack, Word.Rot, Unpack, RconWord, Xor, Rolx8, RconTop;
    RotPacks(w);
    SumPacks(SubWord(w.Rot()), RconWord(rcon));
    RconPacks(rcon);
  }

  lemma SubstwPacks(w: Word)
    ensures SubWord(w).Pack() == Substw(w.Pack())
  {
    hide SubWord, Word.Pack, Unpack;
    UnpackPack(w);
  }

  lemma Next128Packs(b: Block, rcon: bv8)
    ensures PackBlock(Next128(b, rcon)) == Next128Bit(PackBlock(b), rcon)
  {
    hide SubWord, Word.Xor, Word.Pack, Word.Rot, RconWord, ChainKey, Chain, Substw, Rolx8, Xor, RconTop;
    StepWordPacks(b.w3, rcon);
    ChainPacks(b, SubWord(b.w3.Rot()).Xor(RconWord(rcon)));
  }

  lemma Next256Packs(b0: Block, b1: Block, rcon: bv8)
    ensures PackBlock(Next256A(b0, b1, rcon)) == Next256BitA(PackBlock(b0), PackBlock(b1), rcon)
    ensures PackBlock(Next256B(b0, b1)) == Next256BitB(PackBlock(b0), PackBlock(b1))
  {
    hide SubWord, Word.Xor, Word.Pack, Word.Rot, RconWord, ChainKey, Chain, Rolx8, Substw, Xor, RconTop;
    StepWordPacks(b1.w3, rcon);
    ChainPacks(b0, SubWord(b1.w3.Rot()).Xor(RconWord(rcon)));
    SubstwPacks(b1.w3);
    ChainPacks(b0, SubWord(b1.w3));
  }

  // The round keys are the same, packed, for both key lengths and every round.
  lemma {:induction false} RoundKeysPack(key: PackedKey, i: nat)
    ensures PackedRoundKey(key, i) == PackBlock(RoundKey(key.Unpacked(), i))
  {
    hide PackBlock, UnpackBlock, Next128, Next256A, Next256B, Next128Bit, Next256BitA, Next256BitB, Rcon;
    match key
    case PackedKey128(k) =>
      BlocksPack(ZERO_BLOCK, k);
      if i > 0 {
        RoundKeysPack(key, i - 1);
        Next128Packs(RoundKey(key.Unpacked(), i - 1), Rcon(i));
      }
    case PackedKey256(k0, k1) =>
      BlocksPack(ZERO_BLOCK, k0);
      BlocksPack(ZERO_BLOCK, k1);
      if i > 1 {
        RoundKeysPack(key, i - 2);
        RoundKeysPack(key, i - 1);
        Next256Packs(RoundKey(key.Unpacked(), i - 2), RoundKey(key.Unpacked(), i - 1), Rcon(i / 2));
      }
  }

  // ----- Cipher and inverse cipher -----

  function PackedAddRoundKey(key: Packed, p: Packed): Packed {
    Packed(Xor(p.w0, key.w0), Xor(p.w1, key.w1), Xor(p.w2, key.w2), Xor(p.w3, key.w3))
  }

  lemma AddRoundKeyPacks(key: Block, b: Block)
    ensures PackBlock(AddRoundKey(key, b)) == PackedAddRoundKey(PackBlock(key), PackBlock(b))
  {
    hide Word.Xor, Word.Pack, Xor;
    SumPacks(b.w0, key.w0);
    SumPacks(b.w1, key.w1);
    SumPacks(b.w2, key.w2);
    SumPacks(b.w3, key.w3);
  }

  // The layers on words: each takes the words apart, works on bytes, and puts the words
  // together again.
  function InvSubstw(w: bv32): bv32 {
    InvSubWord(Unpack(w)).Pack()
  }

  function Mixw(w: bv32): bv32 {
    MixWord(Unpack(w)).Pack()
  }

  function InvMixw(w: bv32): bv32 {
    InvMixWord(Unpack(w)).Pack()
  }

  function B2w(b0: bv8, b1: bv8, b2: bv8, b3: bv8): bv32 {
    Word(b0, b1, b2, b3).Pack()
  }

  function PackedSubBytes(p: Packed): Packed {
    Packed(Substw(p.w0), Substw(p.w1), Substw(p.w2), Substw(p.w3))
  }

  function PackedInvSubBytes(p: Packed): Packed {
    Packed(InvSubstw(p.w0), InvSubstw(p.w1), InvSubstw(p.w2), InvSubstw(p.w3))
  }

  function PackedShiftRows(p: Packed): Packed {
    var (c0, c1, c2, c3) := (Unpack(p.w0), Unpack(p.w1), Unpack(p.w2), Unpack(p.w3));
    Packed(
      B2w(c0.b0, c1.b1, c2.b2, c3.b3),
      B2w(c1.b0, c2.b1, c3.b2, c0.b3),
      B2w(c2.b0, c3.b1, c0.b2, c1.b3),
      B2w(c3.b0, c0.b1, c1.b2, c2.b3))
  }

  function PackedInvShiftRows(p: Packed): Packed {
    var (c0, c1, c2, c3) := (Unpack(p.w0), Unpack(p.w1), Unpack(p.w2), Unpack(p.w3));
    Packed(
      B2w(c0.b0, c3.b1, c2.b2, c1.b3),
      B2w(c1.b0, c0.b1, c3.b2, c2.b3),
      B2w(c2.b0, c1.b1, c0.b2, c3.b3),
      B2w(c3.b0, c2.b1, c1.b2, c0.b3))
  }

  function PackedMixColumns(p: Packed): Packed {
    Packed(Mixw(p.w0), Mixw(p.w1), Mixw(p.w2), Mixw(p.w3))
  }

  function PackedInvMixColumns(p: Packed): Packed {
    Packed(InvMixw(p.w0), InvMixw(p.w1), InvMixw(p.w2), InvMixw(p.w3))
  }

  // Every layer on words is the layer on bytes.
  lemma LayersPack(b: Block)
    ensures PackedSubBytes(PackBlock(b)) == PackBlock(SubBytes(b))
    ensures PackedInvSubBytes(PackBlock(b)) == PackBlock(InvSubBytes(b))
    ensures PackedShiftRows(PackBlock(b)) == PackBlock(ShiftRows(b))
    ensures PackedInvShiftRows(PackBlock(b)) == PackBlock(InvShiftRows(b))
    ensures PackedMixColumns(PackBlock(b)) == PackBlock(MixColumns(b))
    ensures PackedInvMixColumns(PackBlock(b)) == PackBlock(InvMixColumns(b))
  {
    hide SubWord, InvSubWord, MixWord, InvMixWord, Word.Pack, Unpack;
    UnpackPack(b.w0);
    UnpackPack(b.w1);
    UnpackPack(b.w2);
    UnpackPack(b.w3);
  }

  function PackedRound(p: Packed): Packed {
    PackedMixColumns(PackedShiftRows(PackedSubBytes(p)))
  }

  function PackedLastRound(p: Packed): Packed {
    PackedShiftRows(PackedSubBytes(p))
  }

  function PackedInvRound(p: Packed): Packed {
    PackedInvSubBytes(PackedInvShiftRows(PackedInvMixColumns(p)))
  }

  function PackedInvFirstRound(p: Packed): Packed {
    PackedInvSubBytes(PackedInvShiftRows(p))
  }

  lemma RoundsPack(b: Block)
    ensures PackedRound(PackBlock(b)) == PackBlock(MixColumns(ShiftRows(SubBytes(b))))
    ensures PackedLastRound(PackBlock(b)) == PackBlock(ShiftRows(SubBytes(b)))
    ensures PackedInvRound(PackBlock(b)) == PackBlock(InvSubBytes(InvShiftRows(InvMixColumns(b))))
    ensures PackedInvFirstRound(PackBlock(b)) == PackBlock(InvSubBytes(InvShiftRows(b)))
  {
    hide SubBytes, ShiftRows, MixColumns, InvSubBytes, InvShiftRows, InvMixColumns, PackBlock,
         PackedSubBytes, PackedShiftRows, PackedMixColumns, PackedInvSubBytes, PackedInvShiftRows, PackedInvMixColumns;
    LayersPack(b);
    LayersPack(SubBytes(b));
    LayersPack(ShiftRows(SubBytes(b)));
    LayersPack(InvShiftRows(b));
    LayersPack(InvMixColumns(b));
    LayersPack(InvShiftRows(InvMixColumns(b)));
  }

  function PackedCipherState(key: PackedKey, p: Packed, i: nat): Packed {
    if i == 0 then PackedAddRoundKey(PackedRoundKey(key, 0), p)
    else PackedAddRoundKey(PackedRoundKey(key, i), PackedRound(PackedCipherState(key, p, i - 1)))
  }

  function PackedEncipher(key: PackedKey, p: Packed): Packed {
    var nr := key.Unpacked().Rounds();
    PackedAddRoundKey(PackedRoundKey(key, nr), PackedLastRound(PackedCipherState(key, p, nr - 1)))
  }

  function PackedInvState(key: PackedKey, p: Packed, i: nat): Packed
    requires i < key.Unpacked().Rounds()
  {
    var nr := key.Unpacked().Rounds();
    if i == 0 then PackedInvFirstRound(PackedAddRoundKey(PackedRoundKey(key, nr), p))
    else PackedInvRound(PackedAddRoundKey(PackedRoundKey(key, nr - i), PackedInvState(key, p, i - 1)))
  }

  function PackedDecipher(key: PackedKey, p: Packed): Packed {
    PackedAddRoundKey(PackedRoundKey(key, 0), PackedInvState(key, p, key.Unpacked().Rounds() - 1))
  }

  lemma ScheduleAt(key: Key, i: nat)
    requires i <= key.Rounds()
    ensures KeySchedule(key)[i] == RoundKey(key, i)
  {
    hide RoundKey;
  }

  lemma {:induction false} CipherStatePacks(key: PackedKey, b: Block, i: nat)
    requires i <= key.Unpacked().Rounds()
    ensures PackedCipherState(key, PackBlock(b), i) == PackBlock(CipherState(KeySchedule(key.Unpacked()), b, i))
  {
    hide PackedRound, PackedLastRound, PackedInvRound, PackedInvFirstRound, PackBlock, UnpackBlock, SubBytes,
         ShiftRows, MixColumns, AddRoundKey, PackedAddRoundKey, RoundKey, PackedRoundKey, KeySchedule,
         PackedKey.Unpacked, InvSubBytes, InvShiftRows, InvMixColumns;
    RoundKeysPack(key, i);
    ScheduleAt(key.Unpacked(), i);
    if i == 0 {
      AddRoundKeyPacks(RoundKey(key.Unpacked(), 0), b);
    } else {
      CipherStatePacks(key, b, i - 1);
      var s := CipherState(KeySchedule(key.Unpacked()), b, i - 1);
      RoundsPack(s);
      AddRoundKeyPacks(RoundKey(key.Unpacked(), i), MixColumns(ShiftRows(SubBytes(s))));
    }
  }

  lemma {:induction false} InvStatePacks(key: PackedKey, b: Block, i: nat)
    requires i < key.Unpacked().Rounds()
    ensures PackedInvState(key, PackBlock(b), i) == PackBlock(InvCipherState(KeySchedule(key.Unpacked()), b, i))
  {
    hide PackedRound, PackedLastRound, PackedInvRound, PackedInvFirstRound, PackBlock, UnpackBlock,
         InvSubBytes, InvShiftRows, InvMixColumns, AddRoundKey, PackedAddRoundKey, RoundKey, PackedRoundKey,
         KeySchedule, PackedKey.Unpacked, SubBytes, ShiftRows, MixColumns;
    var k := key.Unpacked();
    var nr := k.Rounds();
    var rk := RoundKey(k, nr - i);
    RoundKeysPack(key, nr - i);
    ScheduleAt(k, nr - i);
    if i == 0 {
      AddRoundKeyPacks(rk, b);
      RoundsPack(AddRoundKey(rk, b));
    } else {
      InvStatePacks(key, b, i - 1);
      var before := InvCipherState(KeySchedule(k), b, i - 1);
      AddRoundKeyPacks(rk, before);
      RoundsPack(AddRoundKey(rk, before));
    }
  }

  // Cipher and inverse cipher on 32-bit words are those on bytes.
  lemma CiphersPack(key: PackedKey, p: Packed)
    ensures PackedEncipher(key, p) == PackBlock(Encipher(key.Unpacked(), UnpackBlock(p)))
    ensures PackedDecipher(key, p) == PackBlock(Decipher(key.Unpacked(), UnpackBlock(p)))
  {
    hide PackedRound, PackedLastRound, PackedInvRound, PackedInvFirstRound, PackBlock, UnpackBlock, SubBytes,
         ShiftRows, MixColumns, AddRoundKey, PackedAddRoundKey, RoundKey, PackedRoundKey, KeySchedule,
         PackedKey.Unpacked, CipherState, PackedCipherState, InvCipherState, PackedInvState, InvSubBytes,
         InvShiftRows, InvMixColumns;
    var k, b := key.Unpacked(), UnpackBlock(p);
    var nr := k.Rounds();
    BlocksPack(b, p);
    CipherStatePacks(key, b, nr - 1);
    RoundKeysPack(key, nr);
    ScheduleAt(k, nr);
    var s := CipherState(KeySchedule(k), b, nr - 1);
    RoundsPack(s);
    AddRoundKeyPacks(RoundKey(k, nr), ShiftRows(SubBytes(s)));
    InvStatePacks(key, b, nr - 1);
    RoundKeysPack(key, 0);
    ScheduleAt(k, 0);
    AddRoundKeyPacks(RoundKey(k, 0), InvCipherState(KeySchedule(k), b, nr - 1));
  }

  // So they undo each other on 32-bit words as well.
  lemma PackedRoundTrip(key: PackedKey, p: Packed)
    ensures PackedDecipher(key, PackedEncipher(key, p)) == p
    ensures PackedEncipher(key, PackedDecipher(key, p)) == p
  {
    hide *;
    var k, b := key.Unpacked(), UnpackBlock(p);
    CiphersPack(key, p);
    CiphersPack(key, PackedEncipher(key, p));
    CiphersPack(key, PackedDecipher(key, p));
    BlocksPack(Encipher(k, b), p);
    BlocksPack(Decipher(k, b), p);
    DecipherEncipher(k, b);
  }
}
