// aes_encipher_block.v: the clocked cipher.  One word is substituted per clock
// through a shared S-box that sits outside the module.
module EncipherBlock {
  import opened Words
  import opened Layers
  import opened Aes
  import opened Rtl
  import opened Common

  datatype Ctrl = IDLE | INIT | SBOX | MAIN
  datatype Update = NO_UPDATE | INIT_UPDATE | SBOX_UPDATE | MAIN_UPDATE | FINAL_UPDATE

  datatype Regs = Regs(block: Block, swordCtr: Bits2, roundCtr: Bits4, ready: bool, ctrl: Ctrl)

  datatype Inputs = Inputs(next: bool, keylen: bool, roundKey: Block, newSboxw: Word, block: Block)

  const RESET: Regs := Regs(ZERO_BLOCK, 0, 0, true, IDLE)

  // The word on the sboxw port.
  function Sboxw(r: Regs): Word {
    if r.ctrl.SBOX? then r.block.Column(r.swordCtr) else ZERO_WORD
  }

  // The registers after one clock edge.
  function Step(r: Regs, i: Inputs): Regs {
    match r.ctrl
    case IDLE =>
      if i.next then r.(roundCtr := 0, ready := false, ctrl := INIT) else r
    case INIT =>
      r.(block := AddRoundKey(i.roundKey, i.block),
         roundCtr := Inc4(r.roundCtr), swordCtr := 0, ctrl := SBOX)
    case SBOX =>
      r.(block := SetColumn(r.block, r.swordCtr, i.newSboxw), swordCtr := Inc2(r.swordCtr),
         ctrl := if r.swordCtr == 3 then MAIN else SBOX)
    case MAIN =>
      if r.roundCtr < NumRounds(i.keylen) then
        r.(block := AddRoundKey(i.roundKey, MixColumns(ShiftRows(r.block))),
           roundCtr := Inc4(r.roundCtr), swordCtr := 0, ctrl := SBOX)
      else
        r.(block := AddRoundKey(i.roundKey, ShiftRows(r.block)),
           roundCtr := Inc4(r.roundCtr), swordCtr := 0, ready := true, ctrl := IDLE)
  }

  // The module itself: combinational logic with defaults and write enables, then the
  // register update.
  class AesEncipherBlock {
    var blockW0: Word
    var blockW1: Word
    var blockW2: Word
    var blockW3: Word
    var swordCtr: Bits2
    var roundCtr: Bits4
    var ready: bool
    var encCtrl: Ctrl

    function Registers(): Regs
      reads this
    {
      Regs(Block(blockW0, blockW1, blockW2, blockW3), swordCtr, roundCtr, ready, encCtrl)
    }

    constructor ()
      ensures Registers() == RESET
    {
      blockW0, blockW1, blockW2, blockW3 := ZERO_WORD, ZERO_WORD, ZERO_WORD, ZERO_WORD;
      swordCtr, roundCtr, ready, encCtrl := 0, 0, true, IDLE;
    }

    method MuxedSboxw() returns (w: Word)
      ensures w == Sboxw(Registers())
    {
      w := ZERO_WORD;
      if encCtrl == SBOX {
        match swordCtr
        case 0 => w := blockW0;
        case 1 => w := blockW1;
        case 2 => w := blockW2;
        case _ => w := blockW3;
      }
    }

    method Edge(i: Inputs)
      modifies this
      ensures Registers() == Step(old(Registers()), i)
    {
      hide AddRoundKey, MixColumns, ShiftRows;
      // encipher_ctrl
      var swordInc, swordRst, roundInc, roundRst := false, false, false, false;
      var readyNew, readyWe := false, false;
      var update := NO_UPDATE;
      var ctrlNew, ctrlWe := IDLE, false;
      var numRounds := NumRounds(i.keylen);
      match encCtrl {
        case IDLE =>
          if i.next {
            roundRst := true;
            readyNew, readyWe := false, true;
            ctrlNew, ctrlWe := INIT, true;
          }
        case INIT =>
          roundInc, swordRst := true, true;
          update := INIT_UPDATE;
          ctrlNew, ctrlWe := SBOX, true;
        case SBOX =>
          swordInc := true;
          update := SBOX_UPDATE;
          if swordCtr == 3 {
            ctrlNew, ctrlWe := MAIN, true;
          }
        case MAIN =>
          swordRst, roundInc := true, true;
          if roundCtr < numRounds {
            update := MAIN_UPDATE;
            ctrlNew, ctrlWe := SBOX, true;
          } else {
            update := FINAL_UPDATE;
            readyNew, readyWe := true, true;
            ctrlNew, ctrlWe := IDLE, true;
          }
      }

      // round_logic
      var oldBlock := Block(blockW0, blockW1, blockW2, blockW3);
      var shifted := ShiftRows(oldBlock);
      var blockNew := ZERO_BLOCK;
      var we0, we1, we2, we3 := false, false, false, false;
      match update {
        case NO_UPDATE =>
        case INIT_UPDATE =>
          blockNew := AddRoundKey(i.roundKey, i.block);
          we0, we1, we2, we3 := true, true, true, true;
        case SBOX_UPDATE =>
          blockNew := Block(i.newSboxw, i.newSboxw, i.newSboxw, i.newSboxw);
          we0, we1, we2, we3 := swordCtr == 0, swordCtr == 1, swordCtr == 2, swordCtr == 3;
        case MAIN_UPDATE =>
          blockNew := AddRoundKey(i.roundKey, MixColumns(shifted));
          we0, we1, we2, we3 := true, true, true, true;
        case FINAL_UPDATE =>
          blockNew := AddRoundKey(i.roundKey, shifted);
          we0, we1, we2, we3 := true, true, true, true;
      }

      // reg_update
      if we0 { blockW0 := blockNew.w0; }
      if we1 { blockW1 := blockNew.w1; }
      if we2 { blockW2 := blockNew.w2; }
      if we3 { blockW3 := blockNew.w3; }
      if swordRst { swordCtr := 0; } else if swordInc { swordCtr := Inc2(swordCtr); }
      if roundRst { roundCtr := 0; } else if roundInc { roundCtr := Inc4(roundCtr); }
      if readyWe { ready := readyNew; }
      if ctrlWe { encCtrl := ctrlNew; }
    }
  }

  // ----- The clocked cipher computes the cipher -----

  // Edges from the idle state to the ready result.
  function Latency(keylen: bool): nat {
    5 * NumRounds(keylen) + 2
  }

  // The registers in round `round` after k of its words have been substituted.
  function Busy(keys: seq<Block>, b: Block, round: nat, k: nat): Regs
    requires 1 <= round < |keys| <= KEY_MEM_WORDS && k <= 4
  {
    Regs(PartialSub(CipherState(keys, b, round - 1), k), k % 4, round, false, if k < 4 then SBOX else MAIN)
  }

  // The registers t edges after an accepted `next`.
  ghost predicate At(r: Regs, keylen: bool, keys: seq<Block>, b: Block, t: nat)
    requires |keys| == NumRounds(keylen) + 1
  {
    if t == 0 then r.ctrl.IDLE?
    else if t == 1 then r.ctrl.INIT? && r.roundCtr == 0 && !r.ready
    else if t < Latency(keylen) then r == Busy(keys, b, (t - 2) / 5 + 1, (t - 2) % 5)
    else r.ctrl.IDLE? && r.ready && r.block == Cipher(keys, b)
  }

  // The ports are connected: the key memory answers the round counter, the S-box
  // the substitution port, and the block is there when it is sampled.
  predicate Connected(r: Regs, i: Inputs, keylen: bool, keys: seq<Block>, b: Block) {
    && i.keylen == keylen
    && (r.roundCtr < |keys| ==> i.roundKey == keys[r.roundCtr])
    && i.newSboxw == SubWord(Sboxw(r))
    && (r.ctrl.INIT? ==> i.block == b)
  }

  lemma SboxEdge(keys: seq<Block>, b: Block, round: nat, k: nat, i: Inputs)
    requires 1 <= round < |keys| <= KEY_MEM_WORDS && k < 4
    requires i.newSboxw == SubWord(Sboxw(Busy(keys, b, round, k)))
    ensures Step(Busy(keys, b, round, k), i) == Busy(keys, b, round, k + 1)
  {
    hide SubWord, CipherState;
  }

  lemma MainEdge(keys: seq<Block>, b: Block, round: nat, i: Inputs)
    requires 1 <= round < |keys| - 1 && |keys| == NumRounds(i.keylen) + 1
    requires i.roundKey == keys[round]
    ensures Step(Busy(keys, b, round, 4), i) == Busy(keys, b, round + 1, 0)
  {
    hide SubWord, AddRoundKey, MixColumns, ShiftRows;
  }

  lemma FinalEdge(keys: seq<Block>, b: Block, i: Inputs)
    requires |keys| == NumRounds(i.keylen) + 1
    requires i.roundKey == keys[|keys| - 1]
    ensures var r := Step(Busy(keys, b, |keys| - 1, 4), i);
      r.ctrl.IDLE? && r.ready && r.block == Cipher(keys, b)
  {
    hide SubWord, AddRoundKey, MixColumns, ShiftRows, CipherState;
  }

  lemma FirstEdges(r: Regs, keylen: bool, keys: seq<Block>, b: Block, t: nat, i: Inputs)
    requires |keys| == NumRounds(keylen) + 1 && t < 2
    requires At(r, keylen, keys, b, t) && Connected(r, i, keylen, keys, b)
    requires t == 0 ==> i.next
    ensures At(Step(r, i), keylen, keys, b, t + 1)
  {
    hide SubWord, AddRoundKey, MixColumns, ShiftRows;
  }

  // The round counter counts up and does not wrap.
  lemma RoundCounts(r: Regs, keylen: bool, keys: seq<Block>, b: Block, t: nat, i: Inputs)
    requires |keys| == NumRounds(keylen) + 1 && 0 < t < Latency(keylen)
    requires At(r, keylen, keys, b, t)
    ensures r.roundCtr <= NumRounds(keylen)
    ensures Step(r, i).roundCtr == r.roundCtr || Step(r, i).roundCtr == r.roundCtr + 1
  {
    hide SubWord, AddRoundKey, MixColumns, ShiftRows, CipherState, Cipher, PartialSub;
  }

  // One edge, at any time of an operation.
  lemma EdgeAdvances(r: Regs, keylen: bool, keys: seq<Block>, b: Block, t: nat, i: Inputs)
    requires |keys| == NumRounds(keylen) + 1 && t < Latency(keylen)
    requires At(r, keylen, keys, b, t) && Connected(r, i, keylen, keys, b)
    requires t == 0 ==> i.next
    ensures At(Step(r, i), keylen, keys, b, t + 1)
    ensures t > 0 ==> r.roundCtr <= Step(r, i).roundCtr <= r.roundCtr + 1
  {
    hide SubWord, AddRoundKey, MixColumns, ShiftRows, CipherState, Cipher, Busy, Step, Sboxw;
    if t > 0 {
      RoundCounts(r, keylen, keys, b, t, i);
    }
    if t < 2 {
      FirstEdges(r, keylen, keys, b, t, i);
    } else {
      var round, k := (t - 2) / 5 + 1, (t - 2) % 5;
      BusyCounters(keys, b, round, k);
      if k < 4 {
        assert (t - 1) / 5 + 1 == round && (t - 1) % 5 == k + 1;
        SboxEdge(keys, b, round, k, i);
      } else if round < |keys| - 1 {
        assert (t - 1) / 5 + 1 == round + 1 && (t - 1) % 5 == 0;
        MainEdge(keys, b, round, i);
      } else {
        FinalEdge(keys, b, i);
      }
    }
  }

  lemma BusyCounters(keys: seq<Block>, b: Block, round: nat, k: nat)
    requires 1 <= round < |keys| <= KEY_MEM_WORDS && k <= 4
    ensures var r := Busy(keys, b, round, k);
      r.roundCtr == round && !r.ready && !r.ctrl.IDLE? && !r.ctrl.INIT?
  {
  }

  // ----- Runs of the module next to its key memory and S-box -----

  datatype Env = Env(next: bool, block: Block, floating: Block)

  function Ports(r: Regs, keyMem: seq<Block>, keylen: bool, e: Env): Inputs
    requires |keyMem| == KEY_MEM_WORDS
  {
    Inputs(e.next, keylen, ReadKey(keyMem, r.roundCtr, e.floating), SubWord(Sboxw(r)), e.block)
  }

  function Run(r: Regs, keyMem: seq<Block>, keylen: bool, envs: seq<Env>): Regs
    requires |keyMem| == KEY_MEM_WORDS
  {
    if envs == [] then r
    else
      var before := Run(r, keyMem, keylen, envs[..|envs| - 1]);
      Step(before, Ports(before, keyMem, keylen, envs[|envs| - 1]))
  }

  lemma {:induction false} RunAt(r: Regs, keyMem: seq<Block>, keylen: bool, envs: seq<Env>, b: Block)
    requires |keyMem| == KEY_MEM_WORDS && r.ctrl.IDLE?
    requires |envs| <= Latency(keylen)
    requires |envs| > 0 ==> envs[0].next
    requires |envs| > 1 ==> envs[1].block == b
    ensures At(Run(r, keyMem, keylen, envs), keylen, keyMem[..NumRounds(keylen) + 1], b, |envs|)
  {
    hide SubWord, CipherState, Cipher, Step, Sboxw;
    if envs != [] {
      var n := |envs| - 1;
      RunAt(r, keyMem, keylen, envs[..n], b);
      var before := Run(r, keyMem, keylen, envs[..n]);
      EdgeAdvances(before, keylen, keyMem[..NumRounds(keylen) + 1], b, n, Ports(before, keyMem, keylen, envs[n]));
    }
  }

  // From any idle registers, whatever the environment does after raising `next`: the
  // module is busy for all but the last of 5*Nr+2 edges and is then ready with the
  // cipher of the block that was on its port at the second edge.
  lemma EncipherBlockCorrect(r: Regs, keyMem: seq<Block>, keylen: bool, envs: seq<Env>)
    requires |keyMem| == KEY_MEM_WORDS && r.ctrl.IDLE?
    requires 0 < |envs| <= Latency(keylen) && envs[0].next
    ensures var end := Run(r, keyMem, keylen, envs);
      && (end.ready <==> |envs| == Latency(keylen))
      && (end.ctrl.IDLE? <==> |envs| == Latency(keylen))
      && (|envs| == Latency(keylen) ==> end.block == Cipher(keyMem[..NumRounds(keylen) + 1], envs[1].block))
  {
    hide SubWord, CipherState, Cipher, Step, Run, Sboxw;
    var b := if |envs| > 1 then envs[1].block else ZERO_BLOCK;
    RunAt(r, keyMem, keylen, envs, b);
    var t := |envs|;
    if 2 <= t < Latency(keylen) {
      BusyCounters(keyMem[..NumRounds(keylen) + 1], b, (t - 2) / 5 + 1, (t - 2) % 5);
    }
  }
}
