// Register widths and ports shared by the clocked AES modules.
module Rtl {
  import opened Common
  import opened Words
  import opened Layers

  type Bits4 = x: int | 0 <= x < 16

  function Inc2(x: Bits2): Bits2 {
    (x + 1) % 4
  }

  function Inc4(x: Bits4): Bits4 {
    (x + 1) % 16
  }

  function Dec4(x: Bits4): Bits4 {
    (x + 15) % 16
  }

  const KEY_MEM_WORDS := 15

  // The keylen port: false selects 128-bit keys, true 256-bit keys.
  function NumRounds(keylen: bool): Bits4 {
    if keylen then 14 else 10
  }

  // The combinational read port of the key memory.  Address 15 is out of range: the
  // value read there is unknown, so it is whatever the environment chooses.
  function ReadKey(keyMem: seq<Block>, round: Bits4, floating: Block): Block
    requires |keyMem| == KEY_MEM_WORDS
  {
    if round < KEY_MEM_WORDS then keyMem[round] else floating
  }

  function SetColumn(b: Block, i: Bits2, w: Word): Block {
    if i == 0 then b.(w0 := w)
    else if i == 1 then b.(w1 := w)
    else if i == 2 then b.(w2 := w)
    else b.(w3 := w)
  }

  // A block of which the first k words have been replaced by their substitution.
  function PartialSub(b: Block, k: nat): Block {
    Block(
      if k > 0 then SubWord(b.w0) else b.w0,
      if k > 1 then SubWord(b.w1) else b.w1,
      if k > 2 then SubWord(b.w2) else b.w2,
      if k > 3 then SubWord(b.w3) else b.w3)
  }

  function PartialInvSub(b: Block, k: nat): Block {
    Block(
      if k > 0 then InvSubWord(b.w0) else b.w0,
      if k > 1 then InvSubWord(b.w1) else b.w1,
      if k > 2 then InvSubWord(b.w2) else b.w2,
      if k > 3 then InvSubWord(b.w3) else b.w3)
  }
}
