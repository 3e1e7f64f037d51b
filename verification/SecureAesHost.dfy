// A host of secure_aes_top that succeeds: for every key width and every block an explicit
// run presents the three platform keys, writes the block, starts and reads the ciphertext.
module SecureAesHost {
  import opened Common
  import opened Words
  import opened Aes
  import opened SecureAesTop
  import opened SecureAesRuns
  import opened SecureAesProgress
  import opened SecureAesBlocks
  import A = AuthController
  import U = UnlockTrace

  // ----- The run -----

  // A cycle in which the host does nothing.
  function Rest(): Inputs {
    Inputs(false, true, false, 0, NO_DATA, false, false, 0, ZERO_WORD, false, false, 0, ZERO_BLOCK)
  }

  // Word a of a platform key, filled up with zeros.
  function KeyWord(p: Params, stage: nat, a: nat): Data {
    seq(32, j requires 0 <= j < 32 => 32 * a + j < p.keyW && A.PlatformKey(stage, p.keyW)[32 * a + j])
  }

  // A round takes one cycle for each word and one for the commit.
  function RoundLength(p: Params): nat {
    p.KeyWords() + 1
  }

  function RoundInput(p: Params, stage: nat, r: nat): Inputs
    requires p.Valid()
  {
    if r < p.KeyWords() then Rest().(keyWrEn := true, keyWrAddr := r, keyWrData := KeyWord(p, stage, r))
    else Rest().(commit := true)
  }

  function StartCycle(p: Params): nat {
    3 * RoundLength(p) + 69
  }

  // Three rounds, the four words of the block, and a start when the core is idle.
  function HostInput(p: Params, x: Block, i: nat): Inputs
    requires p.Valid()
  {
    var l := RoundLength(p);
    if i < l then RoundInput(p, 0, i)
    else if i < 2 * l then RoundInput(p, 1, i - l)
    else if i < 3 * l then RoundInput(p, 2, i - 2 * l)
    else if i < 3 * l + 4 then
      Rest().(blkWrEn := true, blkWrAddr := i - 3 * l, blkWrData := x.Column(i - 3 * l))
    else Rest().(aesStart := i == StartCycle(p))
  }

  function HostRun(p: Params, x: Block): (ins: seq<Inputs>)
    requires p.Valid()
    ensures |ins| == StartCycle(p) + 54
    ensures forall i :: 0 <= i < |ins| ==> ins[i] == HostInput(p, x, i)
  {
    seq(StartCycle(p) + 54, i requires 0 <= i => HostInput(p, x, i))
  }

  // The commit of a round.
  function Commit(p: Params, stage: nat): nat
    requires stage < 3
  {
    if stage == 0 then RoundLength(p) - 1 else if stage == 1 then 2 * RoundLength(p) - 1 else 3 * RoundLength(p) - 1
  }

  // ----- What the inputs of the run are -----

  // In a round the words are written in order and then committed.
  lemma RoundInputs(p: Params, x: Block, stage: nat, r: nat)
    requires p.Valid() && stage < 3 && r < RoundLength(p)
    ensures var i := Commit(p, stage) - p.KeyWords() + r;
      0 <= i < |HostRun(p, x)| && HostRun(p, x)[i] == RoundInput(p, stage, r)
  {
    hide RoundInput;
  }

  // No cycle clears or is tampered with; only the commits commit, and no write is out of
  // range.
  lemma CleanRun(p: Params, x: Block, i: nat)
    requires p.Valid() && i < |HostRun(p, x)|
    ensures var input := HostRun(p, x)[i];
      && !input.zeroize && input.tamperIn && !BadWrite(p, input)
      && (input.commit <==> i == Commit(p, 0) || i == Commit(p, 1) || i == Commit(p, 2))
      && (input.aesStart <==> i == StartCycle(p))
      && (input.blkWrEn <==> 3 * RoundLength(p) <= i < 3 * RoundLength(p) + 4)
      && (input.blkWrEn ==> input.blkWrAddr == i - 3 * RoundLength(p) && input.blkWrData == x.Column(input.blkWrAddr))
  {
    hide KeyWord, Block.Column;
  }

  // ----- The three keys -----

  lemma FreshRound(p: Params, x: Block, stage: nat)
    requires p.Valid() && stage < 3
    ensures U.FreshSince(p, HostRun(p, x), Commit(p, stage) - RoundLength(p), Commit(p, stage))
  {
    hide U.WrittenSince, HostRun, KeyWord;
    var ins, c, s := HostRun(p, x), Commit(p, stage), Commit(p, stage) - RoundLength(p);
    forall a | 0 <= a < p.KeyWords()
      ensures U.WrittenSince(ins, s, c, a)
    {
      RoundInputs(p, x, stage, a);
      U.WrittenSinceMeans(ins, s, c, a);
      assert Writes(ins[s + 1 + a], a);
    }
  }

  lemma KeyBit(p: Params, x: Block, stage: nat, j: nat)
    requires p.Valid() && stage < 3 && j < p.keyW
    ensures U.AssembledKey(p, HostRun(p, x), -1, Commit(p, stage) + 1)[j] == A.PlatformKey(stage, p.keyW)[j]
  {
    hide U.AssembledKey, HostRun, HostInput, A.PlatformKey;
    var ins, c, a := HostRun(p, x), Commit(p, stage), j / 32;
    var w := c - p.KeyWords() + a;
    RoundInputs(p, x, stage, a);
    forall e | w < e < c + 1
      ensures !Writes(ins[e], a)
    {
      RoundInputs(p, x, stage, e - (c - p.KeyWords()));
    }
    U.AssembledWord(p, ins, -1, c + 1, w, a, j);
  }

  lemma KeyAssembled(p: Params, x: Block, stage: nat)
    requires p.Valid() && stage < 3
    ensures U.AssembledKey(p, HostRun(p, x), -1, Commit(p, stage) + 1) == A.PlatformKey(stage, p.keyW)
  {
    hide U.AssembledKey, HostRun, A.PlatformKey;
    forall j | 0 <= j < p.keyW
      ensures U.AssembledKey(p, HostRun(p, x), -1, Commit(p, stage) + 1)[j] == A.PlatformKey(stage, p.keyW)[j]
    {
      KeyBit(p, x, stage, j);
    }
  }

  lemma RunIsAuthentic(p: Params, x: Block)
    requires p.Valid()
    ensures U.Authentic(p, HostRun(p, x), 3 * RoundLength(p) + 1, -1, Commit(p, 0), Commit(p, 1), Commit(p, 2))
  {
    hide U.AssembledKey, U.FreshSince, HostRun, HostInput, A.PlatformKey, U.Cleared, BadWrite;
    FreshRound(p, x, 0);
    FreshRound(p, x, 1);
    FreshRound(p, x, 2);
    KeyAssembled(p, x, 0);
    KeyAssembled(p, x, 1);
    KeyAssembled(p, x, 2);
    forall i | 0 <= i < |HostRun(p, x)|
      ensures !HostRun(p, x)[i].zeroize && !BadWrite(p, HostRun(p, x)[i])
      ensures HostRun(p, x)[i].commit <==> i == Commit(p, 0) || i == Commit(p, 1) || i == Commit(p, 2)
    {
      CleanRun(p, x, i);
    }
  }

  // ----- The block -----

  lemma WordWritten(p: Params, x: Block, a: nat)
    requires p.Valid() && a < 4
    ensures var ins, n, w := HostRun(p, x), StartCycle(p), 3 * RoundLength(p) + a;
      BlockWritten(ins, -1, n, a) && LastWrite(ins, w, n + 1, a) && ins[w].blkWrData == x.Column(a)
  {
    hide HostRun, HostInput, Block.Column;
    var ins, n, w := HostRun(p, x), StartCycle(p), 3 * RoundLength(p) + a;
    CleanRun(p, x, w);
    assert BlockWrites(ins[w], a);
    forall e | w < e < n + 1
      ensures !BlockWrites(ins[e], a)
    {
      CleanRun(p, x, e);
    }
  }

  lemma RunIsSession(p: Params, x: Block)
    requires p.Valid()
    ensures HostSession(p, HostRun(p, x), 3 * RoundLength(p) + 1, -1, Commit(p, 0), Commit(p, 1), Commit(p, 2),
                        StartCycle(p))
  {
    hide U.Authentic, HostRun, HostInput, BlockWritten, LastWrite, Commit;
    RunIsAuthentic(p, x);
    WordWritten(p, x, 0);
    WordWritten(p, x, 1);
    WordWritten(p, x, 2);
    WordWritten(p, x, 3);
    forall i | 0 <= i < |HostRun(p, x)|
      ensures !HostRun(p, x)[i].zeroize && HostRun(p, x)[i].tamperIn
      ensures HostRun(p, x)[i].aesStart <==> i == StartCycle(p)
    {
      CleanRun(p, x, i);
    }
  }

  // For every key width and every block: the run unlocks the device with the third commit,
  // and at its end every read returns the addressed word of the ciphertext of the block.
  lemma HostSucceeds(p: Params, x: Block)
    requires p.Valid()
    ensures var ins := HostRun(p, x);
      && Unlocked(At(p, ins, 3 * RoundLength(p) + 1))
      && ReadsBlock(At(p, ins, |ins|), Encipher(Key128(ZERO_BLOCK), x))
  {
    hide HostRun, HostInput, HostSession, BlockWritten, LastWrite, Commit, At, Unlocked, ReadsBlock, Encipher;
    var ins, l := HostRun(p, x), RoundLength(p);
    RunIsSession(p, x);
    SessionIsClean(p, ins, 3 * l + 1, -1, Commit(p, 0), Commit(p, 1), Commit(p, 2), StartCycle(p));
    WordWritten(p, x, 0);
    WordWritten(p, x, 1);
    WordWritten(p, x, 2);
    WordWritten(p, x, 3);
    HostEncrypts(p, ins, 3 * l + 1, -1, Commit(p, 0), Commit(p, 1), Commit(p, 2), StartCycle(p),
                 3 * l, 3 * l + 1, 3 * l + 2, 3 * l + 3);
  }
}
