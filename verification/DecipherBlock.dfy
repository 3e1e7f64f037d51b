// aes_decipher_block.v: the clocked inverse cipher.  The round counter runs down,
// and the module owns an inverse S-box.
module DecipherBlock {
  import opened Words
  import opened Layers
  import opened Aes
  import opened Rtl
  import opened Common

  datatype Ctrl = IDLE | INIT | SBOX | MAIN
  datatype Update = NO_UPDATE | INIT_UPDATE | SBOX_UPDATE | MAIN_UPDATE | FINAL_UPDATE

  datatype Regs = Regs(block: Block, swordCtr: Bits2, roundCtr: Bits4, ready: bool, ctrl: Ctrl)

  datatype Inputs = Inputs(next: bool, keylen: bool, roundKey: Block, block: Block)

  const RESET: Regs := Regs(ZERO_BLOCK, 0, 0, true, IDLE)

  // The word the module hands to its own inverse S-box.
  function Sboxw(r: Regs): Word {
    if r.ctrl.SBOX? then r.block.Column(r.swordCtr) else ZERO_WORD
  }

  // The registers after one clock edge.
  function Step(r: Regs, i: Inputs): Regs {
    match r.ctrl
    case IDLE =>
      if i.next then r.(roundCtr := NumRounds(i.keylen), ready := false, ctrl := INIT) else r
    case INIT =>
      r.(block := InvShiftRows(AddRoundKey(i.roundKey, i.block)), swordCtr := 0, ctrl := SBOX)
    case SBOX =>
      var r' := r.(block := SetColumn(r.block, r.swordCtr, InvSubWord(Sboxw(r))), swordCtr := Inc2(r.swordCtr));
      if r.swordCtr == 3 then r'.(roundCtr := Dec4(r.roundCtr), ctrl := MAIN) else r'
    case MAIN =>
      if r.roundCtr > 0 then
        r.(block := InvShiftRows(InvMixColumns(AddRoundKey(i.roundKey, r.block))),
           swordCtr := 0, ctrl := SBOX)
      else
        r.(block := AddRoundKey(i.roundKey, r.block),
           swordCtr := 0, ready := true, ctrl := IDLE)
  }

  // The module itself: combinational logic with defaults and write enables, then the
  // register update.
  class AesDecipherBlock {
    var blockW0: Word
    var blockW1: Word
    var blockW2: Word
    var blockW3: Word
    var swordCtr: Bits2
    var roundCtr: Bits4
    var ready: bool
    var decCtrl: Ctrl

    function Registers(): Regs
      reads this
    {
      Regs(Block(blockW0, blockW1, blockW2, blockW3), swordCtr, roundCtr, ready, decCtrl)
    }

    constructor ()
      ensures Registers() == RESET
    {
      blockW0, blockW1, blockW2, blockW3 := ZERO_WORD, ZERO_WORD, ZERO_WORD, ZERO_WORD;
      swordCtr, roundCtr, ready, decCtrl := 0, 0, true, IDLE;
    }

    method Edge(i: Inputs)
      modifies this
      ensures Registers() == Step(old(Registers()), i)
    {
      hide AddRoundKey, InvMixColumns, InvShiftRows, InvSubWord;
      // decipher_ctrl
      var swordInc, swordRst, roundDec, roundSet := false, false, false, false;
      var readyNew, readyWe := false, false;
      var update := NO_UPDATE;
      var ctrlNew, ctrlWe := IDLE, false;
      match decCtrl {
        case IDLE =>
          if i.next {
            roundSet := true;
            readyNew, readyWe := false, true;
            ctrlNew, ctrlWe := INIT, true;
          }
        case INIT =>
          swordRst := true;
          update := INIT_UPDATE;
          ctrlNew, ctrlWe := SBOX, true;
        case SBOX =>
          swordInc := true;
          update := SBOX_UPDATE;
          if swordCtr == 3 {
            roundDec := true;
            ctrlNew, ctrlWe := MAIN, true;
          }
        case MAIN =>
          swordRst := true;
          if roundCtr > 0 {
            update := MAIN_UPDATE;
            ctrlNew, ctrlWe := SBOX, true;
          } else {
            update := FINAL_UPDATE;
            readyNew, readyWe := true, true;
            ctrlNew, ctrlWe := IDLE, true;
          }
      }

      // round_logic
      var oldBlock := Block(blockW0, blockW1, blockW2, blockW3);
      var blockNew := ZERO_BLOCK;
      var we0, we1, we2, we3 := false, false, false, false;
      match update {
        case NO_UPDATE =>
        case INIT_UPDATE =>
          blockNew := InvShiftRows(AddRoundKey(i.roundKey, i.block));
          we0, we1, we2, we3 := true, true, true, true;
        case SBOX_UPDATE =>
          var tmpSboxw := if swordCtr == 0 then blockW0 else if swordCtr == 1 then blockW1
                          else if swordCtr == 2 then blockW2 else blockW3;
          var newSboxw := InvSubWord(tmpSboxw);
          blockNew := Block(newSboxw, newSboxw, newSboxw, newSboxw);
          we0, we1, we2, we3 := swordCtr == 0, swordCtr == 1, swordCtr == 2, swordCtr == 3;
        case MAIN_UPDATE =>
          blockNew := InvShiftRows(InvMixColumns(AddRoundKey(i.roundKey, oldBlock)));
          we0, we1, we2, we3 := true, true, true, true;
        case FINAL_UPDATE =>
          blockNew := AddRoundKey(i.roundKey, oldBlock);
          we0, we1, we2, we3 := true, true, true, true;
      }

      // reg_update
      if we0 { blockW0 := blockNew.w0; }
      if we1 { blockW1 := blockNew.w1; }
      if we2 { blockW2 := blockNew.w2; }
      if we3 { blockW3 := blockNew.w3; }
      if swordRst { swordCtr := 0; } else if swordInc { swordCtr := Inc2(swordCtr); }
      if roundSet { roundCtr := NumRounds(i.keylen); } else if roundDec { roundCtr := Dec4(roundCtr); }
      if readyWe { ready := readyNew; }
      if ctrlWe { decCtrl := ctrlNew; }
    }
  }

  // ----- The clocked inverse cipher computes the inverse cipher -----

  // Edges from the idle state to the ready result.
  function Latency(keylen: bool): nat {
    5 * NumRounds(keylen) + 2
  }

  // The state of round i before its words are substituted.
  function PreSub(keys: seq<Block>, b: Block, i: nat): Block
    requires i + 1 < |keys|
  {
    var nr := |keys| - 1;
    if i == 0 then InvShiftRows(AddRoundKey(keys[nr], b))
    else InvShiftRows(InvMixColumns(AddRoundKey(keys[nr - i], InvCipherState(keys, b, i - 1))))
  }

  // The registers in round i after k of its words have been substituted.
  function Busy(keys: seq<Block>, b: Block, i: nat, k: nat): Regs
    requires i + 1 < |keys| <= KEY_MEM_WORDS && k <= 4
  {
    var nr := |keys| - 1;
    Regs(PartialInvSub(PreSub(keys, b, i), k), k % 4, if k < 4 then nr - i else nr - i - 1, false,
         if k < 4 then SBOX else MAIN)
  }

  // The registers t edges after an accepted `next`.
  ghost predicate At(r: Regs, keylen: bool, keys: seq<Block>, b: Block, t: nat)
    requires |keys| == NumRounds(keylen) + 1
  {
    if t == 0 then r.ctrl.IDLE?
    else if t == 1 then r.ctrl.INIT? && r.roundCtr == NumRounds(keylen) && !r.ready
    else if t < Latency(keylen) then r == Busy(keys, b, (t - 2) / 5, (t - 2) % 5)
    else r.ctrl.IDLE? && r.ready && r.block == InvCipher(keys, b)
  }

  // The ports are connected: the key memory answers the round counter, and the block
  // is there when it is sampled.
  predicate Connected(r: Regs, i: Inputs, keylen: bool, keys: seq<Block>, b: Block) {
    && i.keylen == keylen
    && (r.roundCtr < |keys| ==> i.roundKey == keys[r.roundCtr])
    && (r.ctrl.INIT? ==> i.block == b)
  }

  lemma SboxEdge(keys: seq<Block>, b: Block, round: nat, k: nat, i: Inputs)
    requires round + 1 < |keys| <= KEY_MEM_WORDS && k < 4
    ensures Step(Busy(keys, b, round, k), i) == Busy(keys, b, round, k + 1)
  {
    hide InvSubWord, PreSub;
  }

  lemma SubstitutedRound(keys: seq<Block>, b: Block, round: nat)
    requires round + 1 < |keys| <= KEY_MEM_WORDS
    ensures PartialInvSub(PreSub(keys, b, round), 4) == InvCipherState(keys, b, round)
  {
    hide InvSubWord, InvShiftRows, InvMixColumns, AddRoundKey;
  }

  lemma MainEdge(keys: seq<Block>, b: Block, round: nat, i: Inputs)
    requires round + 2 < |keys| <= KEY_MEM_WORDS
    requires i.roundKey == keys[|keys| - 2 - round]
    ensures Step(Busy(keys, b, round, 4), i) == Busy(keys, b, round + 1, 0)
  {
    hide InvSubWord, InvShiftRows, InvMixColumns, AddRoundKey, InvCipherState;
    SubstitutedRound(keys, b, round);
  }

  lemma FinalEdge(keys: seq<Block>, b: Block, i: Inputs)
    requires 2 <= |keys| <= KEY_MEM_WORDS
    requires i.roundKey == keys[0]
    ensures var r := Step(Busy(keys, b, |keys| - 2, 4), i);
      r.ctrl.IDLE? && r.ready && r.block == InvCipher(keys, b)
  {
    hide InvSubWord, InvShiftRows, InvMixColumns, AddRoundKey, InvCipherState, PreSub;
    SubstitutedRound(keys, b, |keys| - 2);
  }

  lemma FirstEdges(r: Regs, keylen: bool, keys: seq<Block>, b: Block, t: nat, i: Inputs)
    requires |keys| == NumRounds(keylen) + 1 && t < 2
    requires At(r, keylen, keys, b, t) && Connected(r, i, keylen, keys, b)
    requires t == 0 ==> i.next
    ensures At(Step(r, i), keylen, keys, b, t + 1)
  {
    hide InvSubWord, InvShiftRows, InvMixColumns, AddRoundKey;
  }

  lemma BusyCounters(keys: seq<Block>, b: Block, round: nat, k: nat)
    requires round + 1 < |keys| <= KEY_MEM_WORDS && k <= 4
    ensures var r := Busy(keys, b, round, k);
      && r.roundCtr == (if k < 4 then |keys| - 1 - round else |keys| - 2 - round)
      && !r.ready && !r.ctrl.IDLE? && !r.ctrl.INIT?
  {
  }

  // The round counter counts down and does not wrap.
  lemma RoundCounts(r: Regs, keylen: bool, keys: seq<Block>, b: Block, t: nat, i: Inputs)
    requires |keys| == NumRounds(keylen) + 1 && 0 < t < Latency(keylen)
    requires At(r, keylen, keys, b, t)
    ensures r.roundCtr <= NumRounds(keylen)
    ensures Step(r, i).roundCtr == r.roundCtr || Step(r, i).roundCtr == r.roundCtr - 1
  {
    hide InvSubWord, AddRoundKey, InvMixColumns, InvShiftRows, InvCipherState, InvCipher, PartialInvSub, PreSub;
  }

  // One edge, at any time of an operation.
  lemma EdgeAdvances(r: Regs, keylen: bool, keys: seq<Block>, b: Block, t: nat, i: Inputs)
    requires |keys| == NumRounds(keylen) + 1 && t < Latency(keylen)
    requires At(r, keylen, keys, b, t) && Connected(r, i, keylen, keys, b)
    requires t == 0 ==> i.next
    ensures At(Step(r, i), keylen, keys, b, t + 1)
    ensures t > 0 ==> r.roundCtr - 1 <= Step(r, i).roundCtr <= r.roundCtr
  {
    hide InvSubWord, InvCipherState, InvCipher, Busy, Step, Sboxw;
    if t > 0 {
      RoundCounts(r, keylen, keys, b, t, i);
    }
    if t < 2 {
      FirstEdges(r, keylen, keys, b, t, i);
    } else {
      var round, k := (t - 2) / 5, (t - 2) % 5;
      BusyCounters(keys, b, round, k);
      if k < 4 {
        assert (t - 1) / 5 == round && (t - 1) % 5 == k + 1;
        SboxEdge(keys, b, round, k, i);
      } else if round + 2 < |keys| {
        assert (t - 1) / 5 == round + 1 && (t - 1) % 5 == 0;
        MainEdge(keys, b, round, i);
      } else {
        FinalEdge(keys, b, i);
      }
    }
  }

  // ----- Runs of the module next to its key memory -----

  datatype Env = Env(next: bool, block: Block, floating: Block)

  function Ports(r: Regs, keyMem: seq<Block>, keylen: bool, e: Env): Inputs
    requires |keyMem| == KEY_MEM_WORDS
  {
    Inputs(e.next, keylen, ReadKey(keyMem, r.roundCtr, e.floating), e.block)
  }

  function Run(r: Regs, keyMem: seq<Block>, keylen: bool, envs: seq<Env>): Regs
    requires |keyMem| == KEY_MEM_WORDS
  {
    if envs == [] then r
    else
      var before := Run(r, keyMem, keylen, envs[..|envs| - 1]);
      Step(before, Ports(before, keyMem, keylen, envs[|envs| - 1]))
  }

  lemma {:induction false} RunAt(r: Regs, keyMem: seq<Block>, keylen: bool, envs: seq<Env>, b: Block)
    requires |keyMem| == KEY_MEM_WORDS && r.ctrl.IDLE?
    requires |envs| <= Latency(keylen)
    requires |envs| > 0 ==> envs[0].next
    requires |envs| > 1 ==> envs[1].block == b
    ensures At(Run(r, keyMem, keylen, envs), keylen, keyMem[..NumRounds(keylen) + 1], b, |envs|)
  {
    hide InvSubWord, InvCipherState, InvCipher, Step, Sboxw, PreSub, PartialInvSub;
    if envs != [] {
      var n := |envs| - 1;
      RunAt(r, keyMem, keylen, envs[..n], b);
      var before := Run(r, keyMem, keylen, envs[..n]);
      EdgeAdvances(before, keylen, keyMem[..NumRounds(keylen) + 1], b, n, Ports(before, keyMem, keylen, envs[n]));
    }
  }

  // From any idle registers, whatever the environment does after raising `next`: the
  // module is busy for all but the last of 5*Nr+2 edges and is then ready with the
  // inverse cipher of the block that was on its port at the second edge.
  lemma DecipherBlockCorrect(r: Regs, keyMem: seq<Block>, keylen: bool, envs: seq<Env>)
    requires |keyMem| == KEY_MEM_WORDS && r.ctrl.IDLE?
    requires 0 < |envs| <= Latency(keylen) && envs[0].next
    ensures var end := Run(r, keyMem, keylen, envs);
      && (end.ready <==> |envs| == Latency(keylen))
      && (end.ctrl.IDLE? <==> |envs| == Latency(keylen))
      && (|envs| == Latency(keylen) ==> end.block == InvCipher(keyMem[..NumRounds(keylen) + 1], envs[1].block))
  {
    hide InvSubWord, InvCipherState, InvCipher, Step, Run, Sboxw;
    var b := if |envs| > 1 then envs[1].block else ZERO_BLOCK;
    RunAt(r, keyMem, keylen, envs, b);
    var t := |envs|;
    if 2 <= t < Latency(keylen) {
      BusyCounters(keyMem[..NumRounds(keylen) + 1], b, (t - 2) / 5, (t - 2) % 5);
    }
  }
}
