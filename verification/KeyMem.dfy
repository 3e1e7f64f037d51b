// aes_key_mem.v: the key memory with its round key generator.  One round key is
// generated per clock; the module substitutes through the shared S-box.
module KeyMem {
  import opened Gf
  import opened Words
  import opened Layers
  import opened Aes
  import opened Rtl

  datatype Ctrl = IDLE | INIT | GENERATE | DONE

  datatype Regs = Regs(
    keyMem: seq<Block>, prevKey0: Block, prevKey1: Block, rcon: bv8,
    roundCtr: Bits4, ready: bool, ctrl: Ctrl)

  // The 256-bit key port is its upper half key0 and its lower half key1.
  datatype Inputs = Inputs(init: bool, keylen: bool, key0: Block, key1: Block, newSboxw: Word)

  function NoKeys(): (keyMem: seq<Block>)
    ensures |keyMem| == KEY_MEM_WORDS
  {
    seq(KEY_MEM_WORDS, _ => ZERO_BLOCK)
  }

  const RESET: Regs := Regs(NoKeys(), ZERO_BLOCK, ZERO_BLOCK, 0, 0, true, IDLE)

  // The word on the sboxw port.
  function Sboxw(r: Regs): Word {
    r.prevKey1.w3
  }

  function WriteKey(keyMem: seq<Block>, round: Bits4, key: Block): seq<Block>
    requires |keyMem| == KEY_MEM_WORDS
  {
    if round < KEY_MEM_WORDS then keyMem[round := key] else keyMem
  }

  // The round key generated in round roundCtr, from the word behind the S-box.
  function GeneratedKey(r: Regs, i: Inputs): Block {
    var trw := i.newSboxw.Rot().Xor(RconWord(r.rcon));
    if r.roundCtr == 0 then i.key0
    else if !i.keylen then ChainKey(r.prevKey1, trw)
    else if r.roundCtr == 1 then i.key1
    else if r.roundCtr % 2 == 0 then ChainKey(r.prevKey0, trw)
    else ChainKey(r.prevKey0, i.newSboxw)
  }

  // The registers after one clock edge.
  function Step(r: Regs, i: Inputs): (r': Regs)
    requires |r.keyMem| == KEY_MEM_WORDS
    ensures |r'.keyMem| == KEY_MEM_WORDS
  {
    match r.ctrl
    case IDLE =>
      if i.init then r.(rcon := 0x8d, ready := false, ctrl := INIT) else r.(rcon := 0x8d)
    case INIT =>
      r.(rcon := 0x8d, roundCtr := 0, ctrl := GENERATE)
    case GENERATE =>
      var key := GeneratedKey(r, i);
      Regs(
        WriteKey(r.keyMem, r.roundCtr, key),
        if i.keylen && r.roundCtr == 0 then key
        else if i.keylen && r.roundCtr > 1 then r.prevKey1
        else r.prevKey0,
        if i.keylen && r.roundCtr == 0 then r.prevKey1 else key,
        if i.keylen && r.roundCtr % 2 == 0 then r.rcon else Gm2(r.rcon),
        Inc4(r.roundCtr),
        r.ready,
        if r.roundCtr == NumRounds(i.keylen) then DONE else GENERATE)
    case DONE =>
      r.(rcon := 0x8d, ready := true, ctrl := IDLE)
  }

  class AesKeyMem {
    const keyMem: array<Block>
    var prevKey0: Block
    var prevKey1: Block
    var rcon: bv8
    var roundCtr: Bits4
    var ready: bool
    var keyMemCtrl: Ctrl

    ghost predicate Valid() {
      keyMem.Length == KEY_MEM_WORDS
    }

    function Registers(): Regs
      reads this, keyMem
    {
      Regs(keyMem[..], prevKey0, prevKey1, rcon, roundCtr, ready, keyMemCtrl)
    }

    constructor ()
      ensures Valid() && fresh(keyMem)
      ensures Registers() == RESET
    {
      keyMem := new Block[KEY_MEM_WORDS](_ => ZERO_BLOCK);
      prevKey0, prevKey1, rcon := ZERO_BLOCK, ZERO_BLOCK, 0;
      roundCtr, ready, keyMemCtrl := 0, true, IDLE;
    }

    method Edge(i: Inputs)
      requires Valid()
      modifies this, keyMem
      ensures Registers() == Step(old(Registers()), i)
    {
      hide Gm2, ChainKey, RconWord, Word.Xor, Word.Rot;
      // key_mem_ctrl
      var readyNew, readyWe, update, roundRst, roundInc := false, false, false, false, false;
      var ctrlNew, ctrlWe := IDLE, false;
      var numRounds := NumRounds(i.keylen);
      match keyMemCtrl {
        case IDLE =>
          if i.init {
            readyNew, readyWe := false, true;
            ctrlNew, ctrlWe := INIT, true;
          }
        case INIT =>
          roundRst := true;
          ctrlNew, ctrlWe := GENERATE, true;
        case GENERATE =>
          roundInc, update := true, true;
          if roundCtr == numRounds {
            ctrlNew, ctrlWe := DONE, true;
          }
        case DONE =>
          readyNew, readyWe := true, true;
          ctrlNew, ctrlWe := IDLE, true;
      }

      // round_key_gen
      var keyNew, keyWe := ZERO_BLOCK, false;
      var prev0New, prev0We, prev1New, prev1We := ZERO_BLOCK, false, ZERO_BLOCK, false;
      var rconSet, rconNext := true, false;
      var trw := i.newSboxw.Rot().Xor(RconWord(rcon));
      var tw := i.newSboxw;
      if update {
        rconSet, keyWe := false, true;
        if !i.keylen {
          keyNew := if roundCtr == 0 then i.key0 else ChainKey(prevKey1, trw);
          prev1New, prev1We := keyNew, true;
          rconNext := true;
        } else if roundCtr == 0 {
          keyNew := i.key0;
          prev0New, prev0We := i.key0, true;
        } else if roundCtr == 1 {
          keyNew := i.key1;
          prev1New, prev1We := i.key1, true;
          rconNext := true;
        } else {
          if roundCtr % 2 == 0 {
            keyNew := ChainKey(prevKey0, trw);
          } else {
            keyNew := ChainKey(prevKey0, tw);
            rconNext := true;
          }
          prev1New, prev1We := keyNew, true;
          prev0New, prev0We := prevKey1, true;
        }
      }

      // rcon_logic
      var rconNew, rconWe := 0x00 as bv8, false;
      if rconSet {
        rconNew, rconWe := 0x8d, true;
      }
      if rconNext {
        rconNew, rconWe := Gm2(rcon), true;
      }

      // reg_update
      if readyWe { ready := readyNew; }
      if rconWe { rcon := rconNew; }
      if keyWe && roundCtr < KEY_MEM_WORDS { keyMem[roundCtr] := keyNew; }
      if roundRst { roundCtr := 0; } else if roundInc { roundCtr := Inc4(roundCtr); }
      if prev0We { prevKey0 := prev0New; }
      if prev1We { prevKey1 := prev1New; }
      if ctrlWe { keyMemCtrl := ctrlNew; }
    }
  }

  // ----- The machine fills its memory with the key schedule -----

  // The key on the ports.
  function KeyOf(keylen: bool, key0: Block, key1: Block): (key: Key)
    ensures key.Rounds() == NumRounds(keylen)
  {
    if keylen then Key256(key0, key1) else Key128(key0)
  }

  // Edges from the idle state to the full memory.
  function Latency(keylen: bool): nat {
    NumRounds(keylen) + 4
  }

  function RconIndex(key: Key, round: nat): nat {
    if key.Key128? then round else round / 2
  }

  // The registers before round `round` is generated: the earlier round keys are
  // stored, the window holds the last ones, and rcon is that of the round.
  ghost predicate Generating(r: Regs, key: Key, round: nat)
    requires |r.keyMem| == KEY_MEM_WORDS && round < KEY_MEM_WORDS
  {
    && r.ctrl.GENERATE? && r.roundCtr == round && !r.ready
    && (forall j :: 0 <= j < round ==> r.keyMem[j] == RoundKey(key, j))
    && r.rcon == Rcon(RconIndex(key, round))
    && (key.Key128? && round >= 1 ==> r.prevKey1 == RoundKey(key, round - 1))
    && (key.Key256? && round == 1 ==> r.prevKey0 == RoundKey(key, 0))
    && (key.Key256? && round >= 2 ==>
          r.prevKey0 == RoundKey(key, round - 2) && r.prevKey1 == RoundKey(key, round - 1))
  }

  ghost predicate Holds(keyMem: seq<Block>, key: Key) {
    |keyMem| == KEY_MEM_WORDS && keyMem[..key.Rounds() + 1] == KeySchedule(key)
  }

  // The registers t edges after an accepted `init`.
  ghost predicate At(r: Regs, key: Key, t: nat)
    requires |r.keyMem| == KEY_MEM_WORDS
  {
    if t == 0 then r.ctrl.IDLE?
    else if t == 1 then r.ctrl.INIT? && !r.ready
    else if t <= key.Rounds() + 2 then Generating(r, key, t - 2)
    else if t == key.Rounds() + 3 then r.ctrl.DONE? && !r.ready && Holds(r.keyMem, key)
    else r.ctrl.IDLE? && r.ready && Holds(r.keyMem, key)
  }

  // The ports while a key is loaded.
  predicate Connected(r: Regs, i: Inputs, key: Key) {
    && key == KeyOf(i.keylen, i.key0, i.key1)
    && i.newSboxw == SubWord(Sboxw(r))
  }

  lemma SubstituteThenRotate(w: Word)
    ensures SubWord(w).Rot() == SubWord(w.Rot())
  {
  }

  lemma RconDoubles(rcon: bv8)
    ensures Gm2(rcon) == RconStep(rcon)
  {
  }

  lemma GeneratedKeyIsRoundKey(r: Regs, i: Inputs, key: Key, round: nat)
    requires |r.keyMem| == KEY_MEM_WORDS && round <= key.Rounds()
    requires Generating(r, key, round) && Connected(r, i, key)
    ensures GeneratedKey(r, i) == RoundKey(key, round)
  {
    hide SubWord, ChainKey, RconWord, Word.Xor, Word.Rot, Rcon;
    SubstituteThenRotate(r.prevKey1.w3);
  }

  lemma RconAdvances(r: Regs, key: Key, round: nat)
    requires r.rcon == Rcon(RconIndex(key, round))
    ensures Rcon(RconIndex(key, round + 1))
         == (if key.Key256? && round % 2 == 0 then r.rcon else Gm2(r.rcon))
  {
    hide Gm2, RconStep;
    RconDoubles(r.rcon);
  }

  lemma GenerateEdge(r: Regs, i: Inputs, key: Key, round: nat)
    requires |r.keyMem| == KEY_MEM_WORDS && round <= key.Rounds()
    requires Generating(r, key, round) && Connected(r, i, key)
    ensures var r' := Step(r, i);
      && |r'.keyMem| == KEY_MEM_WORDS
      && (if round < key.Rounds() then Generating(r', key, round + 1)
          else r'.ctrl.DONE? && !r'.ready && Holds(r'.keyMem, key))
  {
    hide SubWord, Rcon, RoundKey, GeneratedKey, Gm2;
    GeneratedKeyIsRoundKey(r, i, key, round);
    RconAdvances(r, key, round);
  }

  // One edge, at any time of a load.
  lemma EdgeAdvances(r: Regs, i: Inputs, key: Key, t: nat)
    requires |r.keyMem| == KEY_MEM_WORDS && t < key.Rounds() + 4
    requires At(r, key, t) && Connected(r, i, key)
    requires t == 0 ==> i.init
    ensures |Step(r, i).keyMem| == KEY_MEM_WORDS && At(Step(r, i), key, t + 1)
  {
    hide SubWord, RoundKey, GeneratedKey, Gm2;
    if 2 <= t <= key.Rounds() + 2 {
      GenerateEdge(r, i, key, t - 2);
    }
  }

  // ----- Runs of the module next to its S-box, with the key held -----

  function Ports(r: Regs, keylen: bool, key0: Block, key1: Block, init: bool): Inputs {
    Inputs(init, keylen, key0, key1, SubWord(Sboxw(r)))
  }

  // One element of `inits` for each edge.
  function Run(r: Regs, keylen: bool, key0: Block, key1: Block, inits: seq<bool>): (r': Regs)
    requires |r.keyMem| == KEY_MEM_WORDS
    ensures |r'.keyMem| == KEY_MEM_WORDS
  {
    if inits == [] then r
    else
      var before := Run(r, keylen, key0, key1, inits[..|inits| - 1]);
      Step(before, Ports(before, keylen, key0, key1, inits[|inits| - 1]))
  }

  lemma {:induction false} RunAt(r: Regs, keylen: bool, key0: Block, key1: Block, inits: seq<bool>)
    requires |r.keyMem| == KEY_MEM_WORDS && r.ctrl.IDLE?
    requires |inits| <= Latency(keylen)
    requires |inits| > 0 ==> inits[0]
    ensures At(Run(r, keylen, key0, key1, inits), KeyOf(keylen, key0, key1), |inits|)
  {
    hide SubWord, RoundKey, Step, Sboxw, Rcon, Generating, Holds;
    if inits != [] {
      var n := |inits| - 1;
      RunAt(r, keylen, key0, key1, inits[..n]);
      var before := Run(r, keylen, key0, key1, inits[..n]);
      EdgeAdvances(before, Ports(before, keylen, key0, key1, inits[n]), KeyOf(keylen, key0, key1), n);
    }
  }

  // From any idle registers, whatever `init` does afterwards: the module is busy for all
  // but the last of Nr+4 edges, and then entries 0 to Nr are the round keys.
  lemma KeyMemCorrect(r: Regs, keylen: bool, key0: Block, key1: Block, inits: seq<bool>)
    requires |r.keyMem| == KEY_MEM_WORDS && r.ctrl.IDLE?
    requires 0 < |inits| <= Latency(keylen) && inits[0]
    ensures var end := Run(r, keylen, key0, key1, inits);
      && (end.ready <==> |inits| == Latency(keylen))
      && (|inits| == Latency(keylen) ==>
            end.keyMem[..NumRounds(keylen) + 1] == KeySchedule(KeyOf(keylen, key0, key1)))
  {
    hide SubWord, RoundKey, Run, Rcon, KeySchedule;
    RunAt(r, keylen, key0, key1, inits);
  }
}
