// AES as scripts/aes.py computes it: key expansion, cipher and inverse cipher for
// 128- and 256-bit keys (sections 5.1 to 5.3 of FIPS-197).
module Aes {
  import opened Gf
  import opened Words
  import opened Layers

  const AES_128_ROUNDS := 10
  const AES_256_ROUNDS := 14

  // A key is a tuple of four or of eight words.
  datatype Key = Key128(k: Block) | Key256(k0: Block, k1: Block) {
    function Rounds(): nat {
      if Key128? then AES_128_ROUNDS else AES_256_ROUNDS
    }
  }

  // ----- Key expansion -----

  // The expression of get_rcon: shift in a wider word, reduce with 0x11b if the top
  // bit is set, keep one byte.
  function RconStep(rcon: bv8): bv8 {
    var wide := rcon as bv16;
    (((wide << 1) ^ (0x11b & (0 - (wide >> 7)))) & 0xff) as bv8
  }

  function Rcon(round: nat): bv8 {
    if round == 0 then 0x8d else RconStep(Rcon(round - 1))
  }

  function RconWord(rcon: bv8): Word {
    Word(rcon, 0, 0, 0)
  }

  // Every key word is the sum of t and of all the previous words up to its own place.
  function ChainKey(prev: Block, t: Word): Block {
    Block(
      prev.w0.Xor(t),
      prev.w1.Xor(prev.w0).Xor(t),
      prev.w2.Xor(prev.w1).Xor(prev.w0).Xor(t),
      prev.w3.Xor(prev.w2).Xor(prev.w1).Xor(prev.w0).Xor(t))
  }

  function Next128(prev: Block, rcon: bv8): Block {
    ChainKey(prev, SubWord(prev.w3.Rot()).Xor(RconWord(rcon)))
  }

  function Next256A(key0: Block, key1: Block, rcon: bv8): Block {
    ChainKey(key0, SubWord(key1.w3.Rot()).Xor(RconWord(rcon)))
  }

  function Next256B(key0: Block, key1: Block): Block {
    ChainKey(key0, SubWord(key1.w3))
  }

  function RoundKey(key: Key, i: nat): Block {
    match key
    case Key128(k) =>
      if i == 0 then k else Next128(RoundKey(key, i - 1), Rcon(i))
    case Key256(k0, k1) =>
      if i == 0 then k0
      else if i == 1 then k1
      else if i % 2 == 0 then Next256A(RoundKey(key, i - 2), RoundKey(key, i - 1), Rcon(i / 2))
      else Next256B(RoundKey(key, i - 2), RoundKey(key, i - 1))
  }

  function KeySchedule(key: Key): (keys: seq<Block>)
    ensures |keys| == key.Rounds() + 1
  {
    seq(key.Rounds() + 1, i requires i >= 0 => RoundKey(key, i))
  }

  method GetRcon(round: nat) returns (rcon: bv8)
    ensures rcon == Rcon(round)
  {
    rcon := 0x8d;
    for i := 0 to round
      invariant rcon == Rcon(i)
    {
      rcon := RconStep(rcon);
    }
  }

  method KeyGen128(k: Block) returns (keys: seq<Block>)
    ensures keys == KeySchedule(Key128(k))
  {
    hide Next128, RconStep;
    keys := [k];
    for i := 0 to 10
      invariant |keys| == i + 1
      invariant forall j :: 0 <= j <= i ==> keys[j] == RoundKey(Key128(k), j)
    {
      var rcon := GetRcon(i + 1);
      keys := keys + [Next128(keys[i], rcon)];
    }
  }

  // Two more round keys of the 256-bit expansion.
  lemma NextPair256(key: Key, i: nat)
    requires key.Key256? && i % 2 == 0
    ensures RoundKey(key, i + 2) == Next256A(RoundKey(key, i), RoundKey(key, i + 1), Rcon(i / 2 + 1))
    ensures RoundKey(key, i + 3) == Next256B(RoundKey(key, i + 1), RoundKey(key, i + 2))
  {
    hide Next256A, Next256B, Rcon;
    assert (i + 2) / 2 == i / 2 + 1 && (i + 3) % 2 == 1;
  }

  lemma FirstPair256(k0: Block, k1: Block)
    ensures RoundKey(Key256(k0, k1), 0) == k0 && RoundKey(Key256(k0, k1), 1) == k1
  {
  }

  method KeyGen256(k0: Block, k1: Block) returns (keys: seq<Block>)
    ensures keys == KeySchedule(Key256(k0, k1))
  {
    hide Next256A, Next256B, Rcon, RoundKey;
    FirstPair256(k0, k1);
    keys := [k0, k1];
    var j := 1;
    var i := 0;
    while i < AES_256_ROUNDS - 2
      invariant 0 <= i <= 12 && i % 2 == 0 && j == i / 2 + 1
      invariant |keys| == i + 2
      invariant forall r :: 0 <= r < |keys| ==> keys[r] == RoundKey(Key256(k0, k1), r)
    {
      NextPair256(Key256(k0, k1), i);
      var rcon := GetRcon(j);
      keys := keys + [Next256A(keys[i], keys[i + 1], rcon)];
      keys := keys + [Next256B(keys[i + 1], keys[i + 2])];
      j := j + 1;
      i := i + 2;
    }
    NextPair256(Key256(k0, k1), 12);
    var rcon := GetRcon(7);
    keys := keys + [Next256A(keys[12], keys[13], rcon)];
  }

  // ----- Cipher -----

  // The state after the first i rounds, the initial AddRoundKey being round 0.
  function CipherState(keys: seq<Block>, b: Block, i: nat): Block
    requires i < |keys|
  {
    if i == 0 then AddRoundKey(keys[0], b)
    else AddRoundKey(keys[i], MixColumns(ShiftRows(SubBytes(CipherState(keys, b, i - 1)))))
  }

  function Cipher(keys: seq<Block>, b: Block): Block
    requires |keys| >= 2
  {
    var nr := |keys| - 1;
    AddRoundKey(keys[nr], ShiftRows(SubBytes(CipherState(keys, b, nr - 1))))
  }

  function Encipher(key: Key, b: Block): Block {
    Cipher(KeySchedule(key), b)
  }

  // The state after the inverse SubBytes of round i.
  function InvCipherState(keys: seq<Block>, b: Block, i: nat): Block
    requires i + 1 < |keys|
  {
    var nr := |keys| - 1;
    if i == 0 then InvSubBytes(InvShiftRows(AddRoundKey(keys[nr], b)))
    else InvSubBytes(InvShiftRows(InvMixColumns(AddRoundKey(keys[nr - i], InvCipherState(keys, b, i - 1)))))
  }

  function InvCipher(keys: seq<Block>, b: Block): Block
    requires |keys| >= 2
  {
    AddRoundKey(keys[0], InvCipherState(keys, b, |keys| - 2))
  }

  function Decipher(key: Key, b: Block): Block {
    InvCipher(KeySchedule(key), b)
  }

  method KeyGen(key: Key) returns (keys: seq<Block>)
    ensures keys == KeySchedule(key)
  {
    match key
    case Key128(k) => keys := KeyGen128(k);
    case Key256(k0, k1) => keys := KeyGen256(k0, k1);
  }

  method AesEncipherBlock(key: Key, block: Block) returns (res: Block)
    ensures res == Encipher(key, block)
  {
    hide SubBytes, ShiftRows, MixColumns, AddRoundKey, RoundKey;
    var roundKeys := KeyGen(key);
    var numRounds := key.Rounds();
    var tmp4 := AddRoundKey(roundKeys[0], block);
    for i := 1 to numRounds
      invariant tmp4 == CipherState(roundKeys, block, i - 1)
    {
      var tmp1 := SubBytes(tmp4);
      var tmp2 := ShiftRows(tmp1);
      var tmp3 := MixColumns(tmp2);
      tmp4 := AddRoundKey(roundKeys[i], tmp3);
    }
    var tmp1 := SubBytes(tmp4);
    var tmp2 := ShiftRows(tmp1);
    res := AddRoundKey(roundKeys[numRounds], tmp2);
  }

  method AesDecipherBlock(key: Key, block: Block) returns (res: Block)
    ensures res == Decipher(key, block)
  {
    hide InvSubBytes, InvShiftRows, InvMixColumns, AddRoundKey, RoundKey;
    var roundKeys := KeyGen(key);
    var numRounds := key.Rounds();
    var tmp1 := AddRoundKey(roundKeys[|roundKeys| - 1], block);
    var tmp2 := InvShiftRows(tmp1);
    var tmp4 := InvSubBytes(tmp2);
    for i := 1 to numRounds
      invariant tmp4 == InvCipherState(roundKeys, block, i - 1)
    {
      tmp1 := AddRoundKey(roundKeys[|roundKeys| - i - 1], tmp4);
      tmp2 := InvMixColumns(tmp1);
      var tmp3 := InvShiftRows(tmp2);
      tmp4 := InvSubBytes(tmp3);
    }
    res := AddRoundKey(roundKeys[0], tmp4);
  }

  // ----- The cipher and the inverse cipher undo each other -----

  lemma RoundInverse(key: Block, b: Block)
    ensures InvSubBytes(InvShiftRows(InvMixColumns(AddRoundKey(key,
              AddRoundKey(key, MixColumns(ShiftRows(SubBytes(b)))))))) == b
    ensures AddRoundKey(key, MixColumns(ShiftRows(SubBytes(
              InvSubBytes(InvShiftRows(InvMixColumns(AddRoundKey(key, b)))))))) == b
  {
    hide *;
    SubBytesInverse(b);
    ShiftRowsInverse(SubBytes(b));
    MixColumnsInverse(ShiftRows(SubBytes(b)));
    AddRoundKeyInverse(key, MixColumns(ShiftRows(SubBytes(b))));
    var u := AddRoundKey(key, b);
    AddRoundKeyInverse(key, b);
    MixColumnsInverse(u);
    ShiftRowsInverse(InvMixColumns(u));
    SubBytesInverse(InvShiftRows(InvMixColumns(u)));
  }

  lemma LastRoundInverse(key: Block, b: Block)
    ensures InvSubBytes(InvShiftRows(AddRoundKey(key, AddRoundKey(key, ShiftRows(SubBytes(b)))))) == b
    ensures AddRoundKey(key, ShiftRows(SubBytes(InvSubBytes(InvShiftRows(AddRoundKey(key, b)))))) == b
  {
    hide *;
    SubBytesInverse(b);
    ShiftRowsInverse(SubBytes(b));
    AddRoundKeyInverse(key, ShiftRows(SubBytes(b)));
    AddRoundKeyInverse(key, b);
    ShiftRowsInverse(AddRoundKey(key, b));
    SubBytesInverse(InvShiftRows(AddRoundKey(key, b)));
  }

  // After round i of the inverse cipher the state is that of the cipher after round
  // nr - 1 - i, whatever the round keys are.
  lemma {:induction false} InvCipherRetraces(keys: seq<Block>, b: Block, i: nat)
    requires i + 1 < |keys|
    ensures InvCipherState(keys, Cipher(keys, b), i) == CipherState(keys, b, |keys| - 2 - i)
  {
    hide SubBytes, ShiftRows, MixColumns, AddRoundKey, InvSubBytes, InvShiftRows, InvMixColumns;
    var nr := |keys| - 1;
    if i == 0 {
      LastRoundInverse(keys[nr], CipherState(keys, b, nr - 1));
    } else {
      InvCipherRetraces(keys, b, i - 1);
      RoundInverse(keys[nr - i], CipherState(keys, b, nr - 1 - i));
    }
  }

  lemma {:induction false} CipherRetraces(keys: seq<Block>, b: Block, i: nat)
    requires i + 1 < |keys|
    ensures CipherState(keys, InvCipher(keys, b), i) == InvCipherState(keys, b, |keys| - 2 - i)
  {
    hide SubBytes, ShiftRows, MixColumns, AddRoundKey, InvSubBytes, InvShiftRows, InvMixColumns;
    var nr := |keys| - 1;
    if i == 0 {
      AddRoundKeyInverse(keys[0], InvCipherState(keys, b, nr - 1));
    } else {
      CipherRetraces(keys, b, i - 1);
      RoundInverse(keys[i], InvCipherState(keys, b, nr - 1 - i));
    }
  }

  // Both directions, for every list of at least two round keys.
  lemma InvCipherInverse(keys: seq<Block>, b: Block)
    requires |keys| >= 2
    ensures InvCipher(keys, Cipher(keys, b)) == b
    ensures Cipher(keys, InvCipher(keys, b)) == b
  {
    hide SubBytes, ShiftRows, MixColumns, AddRoundKey, InvSubBytes, InvShiftRows, InvMixColumns;
    var nr := |keys| - 1;
    InvCipherRetraces(keys, b, nr - 1);
    AddRoundKeyInverse(keys[0], b);
    CipherRetraces(keys, b, nr - 1);
    LastRoundInverse(keys[nr], b);
  }

  lemma DecipherEncipher(key: Key, b: Block)
    ensures Decipher(key, Encipher(key, b)) == b
    ensures Encipher(key, Decipher(key, b)) == b
  {
    hide Cipher, InvCipher;
    InvCipherInverse(KeySchedule(key), b);
  }

  // ----- The key schedule is that of section 5.2 of FIPS-197 -----

  function KeyWords(key: Key): nat {
    if key.Key128? then 4 else 8
  }

  function GivenWord(key: Key, i: nat): Word
    requires i < KeyWords(key)
  {
    match key
    case Key128(k) => k.Column(i)
    case Key256(k0, k1) => if i < 4 then k0.Column(i) else k1.Column(i - 4)
  }

  // The pseudo code of the standard, word by word.
  function ExpandedWord(key: Key, i: nat): Word {
    var nk := KeyWords(key);
    if i < nk then GivenWord(key, i)
    else
      var temp := ExpandedWord(key, i - 1);
      var temp' :=
        if i % nk == 0 then SubWord(temp.Rot()).Xor(RconWord(PowerOfX(i / nk - 1)))
        else if nk > 6 && i % nk == 4 then SubWord(temp)
        else temp;
      ExpandedWord(key, i - nk).Xor(temp')
  }

  lemma RconStepIsDoubling(rcon: bv8)
    ensures RconStep(rcon) == Mul(rcon, 2)
  {
  }

  lemma RconSeed()
    ensures Mul(0x8d, 2) == 1
  {
  }

  // The round constant is a power of x; the seed 0x8d is the inverse of x.
  lemma {:induction false} RconIsPowerOfX(n: nat)
    requires n >= 1
    ensures Rcon(n) == PowerOfX(n - 1)
  {
    hide RconStep, Mul;
    RconStepIsDoubling(Rcon(n - 1));
    if n == 1 {
      RconSeed();
    } else {
      RconIsPowerOfX(n - 1);
    }
  }

  // The sums of ChainKey, one word after the other.
  lemma ChainKeyWords(prev: Block, t: Word)
    ensures var k := ChainKey(prev, t);
      k.w0 == prev.w0.Xor(t) && k.w1 == prev.w1.Xor(k.w0) && k.w2 == prev.w2.Xor(k.w1) && k.w3 == prev.w3.Xor(k.w2)
  {
    hide Word.Xor;
    var w0, w1, w2, w3 := prev.w0, prev.w1, prev.w2, prev.w3;
    WordXorAssoc(w1, w0, t);
    WordXorAssoc(w2, w1, w0);
    WordXorAssoc(w2, w1.Xor(w0), t);
    WordXorAssoc(w3, w2, w1);
    WordXorAssoc(w3, w2.Xor(w1), w0);
    WordXorAssoc(w3, w2.Xor(w1).Xor(w0), t);
  }

  // Round key i holds words 4i to 4i+3 of the expanded key.
  predicate HoldsWords(key: Key, i: nat) {
    var rk := RoundKey(key, i);
    && rk.w0 == ExpandedWord(key, 4 * i)
    && rk.w1 == ExpandedWord(key, 4 * i + 1)
    && rk.w2 == ExpandedWord(key, 4 * i + 2)
    && rk.w3 == ExpandedWord(key, 4 * i + 3)
  }

  lemma {:induction false} Schedule128IsFips(k: Block, i: nat)
    ensures HoldsWords(Key128(k), i)
  {
    hide SubWord, ChainKey, Rcon, PowerOfX, Word.Xor, Word.Rot;
    if i > 0 {
      Schedule128IsFips(k, i - 1);
      RconIsPowerOfX(i);
      var prev := RoundKey(Key128(k), i - 1);
      ChainKeyWords(prev, SubWord(prev.w3.Rot()).Xor(RconWord(Rcon(i))));
    }
  }

  lemma EvenKeyIsFips(key: Key, i: nat)
    requires key.Key256? && i >= 2 && i % 2 == 0
    requires HoldsWords(key, i - 2) && HoldsWords(key, i - 1)
    ensures HoldsWords(key, i)
  {
    hide SubWord, ChainKey, Rcon, PowerOfX, Word.Xor, Word.Rot, RconWord;
    assert 4 * i % 8 == 0 && 4 * i / 8 == i / 2;
    RconIsPowerOfX(i / 2);
    var key1 := RoundKey(key, i - 1);
    ChainKeyWords(RoundKey(key, i - 2), SubWord(key1.w3.Rot()).Xor(RconWord(Rcon(i / 2))));
  }

  lemma ExpandedSub(key: Key, i: nat)
    requires key.Key256? && i >= 8 && i % 8 == 4
    ensures ExpandedWord(key, i) == ExpandedWord(key, i - 8).Xor(SubWord(ExpandedWord(key, i - 1)))
  {
    hide SubWord, Word.Xor, Word.Rot, RconWord, PowerOfX;
  }

  lemma ExpandedPlain(key: Key, i: nat)
    requires key.Key256? && i >= 8 && i % 8 != 0 && i % 8 != 4
    ensures ExpandedWord(key, i) == ExpandedWord(key, i - 8).Xor(ExpandedWord(key, i - 1))
  {
    hide SubWord, Word.Xor, Word.Rot, RconWord, PowerOfX;
  }

  lemma OddPlaces(i: nat)
    requires i % 2 == 1
    ensures 4 * i % 8 == 4 && (4 * i + 1) % 8 == 5 && (4 * i + 2) % 8 == 6 && (4 * i + 3) % 8 == 7
  {
    assert 4 * i == 8 * (i / 2) + 4;
  }

  lemma OddKeyIsFips(key: Key, i: nat)
    requires key.Key256? && i >= 2 && i % 2 == 1
    requires HoldsWords(key, i - 2) && HoldsWords(key, i - 1)
    ensures HoldsWords(key, i)
  {
    hide SubWord, ChainKey, Rcon, PowerOfX, Word.Xor, Word.Rot, RconWord, ExpandedWord;
    OddPlaces(i);
    ExpandedSub(key, 4 * i);
    ExpandedPlain(key, 4 * i + 1);
    ExpandedPlain(key, 4 * i + 2);
    ExpandedPlain(key, 4 * i + 3);
    ChainKeyWords(RoundKey(key, i - 2), SubWord(RoundKey(key, i - 1).w3));
  }

  lemma GivenKeysHoldWords(k0: Block, k1: Block)
    ensures HoldsWords(Key256(k0, k1), 0) && HoldsWords(Key256(k0, k1), 1)
  {
    hide SubWord, ChainKey, Rcon, PowerOfX, Word.Xor, Word.Rot, RconWord;
  }

  lemma {:induction false} Schedule256IsFips(k0: Block, k1: Block, i: nat)
    ensures HoldsWords(Key256(k0, k1), i)
  {
    hide *;
    if i < 2 {
      GivenKeysHoldWords(k0, k1);
    } else {
      Schedule256IsFips(k0, k1, i - 2);
      Schedule256IsFips(k0, k1, i - 1);
      if i % 2 == 0 {
        EvenKeyIsFips(Key256(k0, k1), i);
      } else {
        OddKeyIsFips(Key256(k0, k1), i);
      }
    }
  }

  lemma ScheduleIsFips(key: Key, i: nat, c: nat)
    requires i <= key.Rounds() && c < 4
    ensures KeySchedule(key)[i].Column(c) == ExpandedWord(key, 4 * i + c)
  {
    hide RoundKey, ExpandedWord;
    match key
    case Key128(k) => Schedule128IsFips(k, i);
    case Key256(k0, k1) => Schedule256IsFips(k0, k1, i);
  }
}
