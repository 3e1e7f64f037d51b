// What the host of secure_aes_top gets for what it does: every clear wipes the buffers,
// the block buffer holds the words last written since, and an encryption shows the
// ciphertext of those words.  Everything is read off the inputs of the run.
module SecureAesBlocks {
  import opened Common
  import opened Words
  import opened Aes
  import opened SecureAesTop
  import opened SecureAesRuns
  import opened SecureAesProgress
  import A = AuthController
  import C = AesCore
  import U = UnlockTrace

  // ----- What a clear does -----

  // In the cycle of a zeroize, an auth_zeroize or a latched tamper event nothing is read
  // and nothing is started; one edge later no buffer holds anything, and nothing is read
  // then either.
  lemma ClearWipes(p: Params, ins: seq<Inputs>, k: nat)
    requires p.Valid() && k < |ins|
    requires ins[k].zeroize || AuthZ(At(p, ins, k), ins[k]) || At(p, ins, k).auth.tamper.latched
    ensures var t := At(p, ins, k);
      && !RdValid(t, ins[k]) && RdData(t, ins[k]) == Word(0, 0, 0, 0)
      && !AesInit(t, ins[k]) && !AesNext(t, ins[k])
    ensures var buf := At(p, ins, k + 1).buf;
      && buf.blockIn == Block(Word(0, 0, 0, 0), Word(0, 0, 0, 0), Word(0, 0, 0, 0), Word(0, 0, 0, 0))
      && buf.resultQ == Block(Word(0, 0, 0, 0), Word(0, 0, 0, 0), Word(0, 0, 0, 0), Word(0, 0, 0, 0))
      && buf.blockMask == [false, false, false, false]
      && !buf.resultReady
      && buf.aesCtrl.AES_NEED_INIT?
    ensures var asm := At(p, ins, k + 1).asm;
      && (forall j :: 0 <= j < p.keyW ==> !asm.key[j])
      && (forall a :: 0 <= a < p.KeyWords() ==> !asm.mask[a])
      && !asm.doCompare && !asm.commitIllegal
    ensures var t' := At(p, ins, k + 1); forall i :: !RdValid(t', i) && RdData(t', i) == Word(0, 0, 0, 0)
  {
    hide At, A.PlatformKey, A.Match;
    var t := At(p, ins, k);
    NextState(p, ins, k);
    ClearEdge(p, t, ins[k]);
    ClearedWires(t, ins[k]);
  }

  lemma ClearEdge(p: Params, t: Regs, i: Inputs)
    requires Shaped(p, t) && Clear(t, i)
    ensures var buf := Step(p, t, i).buf;
      && buf.blockIn == Block(Word(0, 0, 0, 0), Word(0, 0, 0, 0), Word(0, 0, 0, 0), Word(0, 0, 0, 0))
      && buf.resultQ == Block(Word(0, 0, 0, 0), Word(0, 0, 0, 0), Word(0, 0, 0, 0), Word(0, 0, 0, 0))
      && buf.blockMask == [false, false, false, false]
      && !buf.resultReady
      && buf.aesCtrl.AES_NEED_INIT?
    ensures var asm := Step(p, t, i).asm;
      && (forall j :: 0 <= j < p.keyW ==> !asm.key[j])
      && (forall a :: 0 <= a < p.KeyWords() ==> !asm.mask[a])
      && !asm.doCompare && !asm.commitIllegal
  {
    hide A.Step, C.Step, CoreInputs, Clear, Capture, C.Result, Unlocked;
  }

  lemma ClearedWires(t: Regs, i: Inputs)
    requires Clear(t, i)
    ensures !RdValid(t, i) && RdData(t, i) == Word(0, 0, 0, 0) && !AesInit(t, i) && !AesNext(t, i)
  {
    hide A.PlatformKey, A.Match, AllValid;
  }

  // A locked device shows nothing and starts nothing either.
  lemma LockedIsSilent(p: Params, ins: seq<Inputs>, n: nat)
    requires p.Valid() && n < |ins| && !Unlocked(At(p, ins, n))
    ensures var t := At(p, ins, n);
      && !RdValid(t, ins[n]) && RdData(t, ins[n]) == Word(0, 0, 0, 0)
      && !AesInit(t, ins[n]) && !AesNext(t, ins[n])
  {
    hide At, Unlocked, AllValid, Trap;
  }

  // ----- When the device is cleared -----

  // A tamper event is latched in cycle n.
  ghost predicate TamperLatched(ins: seq<Inputs>, n: nat)
    requires n <= |ins|
  {
    exists j :: 0xFFFE <= j < n - 2 && !ins[j].tamperIn
  }

  // The inputs clear the buffers in cycle k.
  ghost predicate Wipes(p: Params, ins: seq<Inputs>, k: nat)
    requires k < |ins|
  {
    U.Cleared(p, ins, k) || TamperLatched(ins, k)
  }

  lemma WipesExactly(p: Params, ins: seq<Inputs>, k: nat)
    requires p.Valid() && k < |ins|
    ensures Wipes(p, ins, k) <==> Clear(At(p, ins, k), ins[k])
  {
    hide At, U.MarksAt, U.Clears, A.PlatformKey, A.Match;
    LatchedExactly(p, ins, k);
    if !At(p, ins, k).auth.tamper.latched {
      U.LockInvAlways(p, ins, k);
      U.ClearsIsZeroize(p, ins, U.MarksAt(p, ins, k), k, At(p, ins, k));
    }
  }

  // ----- The words in the block buffer -----

  predicate BlockWrites(i: Inputs, a: int) {
    i.blkWrEn && i.blkWrAddr == a
  }

  // The device was cleared, or reset, at edge s and has not been cleared since.
  ghost predicate LastWipe(p: Params, ins: seq<Inputs>, s: int, n: nat)
    requires n <= |ins|
  {
    && -1 <= s < n
    && (s == -1 || Wipes(p, ins, s))
    && forall e :: s < e < n ==> !Wipes(p, ins, e)
  }

  ghost predicate BlockWritten(ins: seq<Inputs>, s: int, n: nat, a: int)
    requires -1 <= s && n <= |ins|
  {
    exists w :: s < w < n && BlockWrites(ins[w], a)
  }

  // The write at edge w to address a is the last one before cycle n.
  predicate LastWrite(ins: seq<Inputs>, w: int, n: nat, a: int)
    requires n <= |ins|
  {
    && 0 <= w < n && BlockWrites(ins[w], a)
    && forall e :: w < e < n ==> !BlockWrites(ins[e], a)
  }

  // The register contents follow from the writes since the last clear.
  ghost predicate Holds(ins: seq<Inputs>, s: int, n: nat, buf: Buffers)
    requires -1 <= s < n <= |ins| && |buf.blockMask| == 4
  {
    && (forall a :: 0 <= a < 4 ==> buf.blockMask[3 - a] == BlockWritten(ins, s, n, a))
    && (forall a, w :: 0 <= a < 4 && s < w < n && LastWrite(ins, w, n, a) ==> buf.blockIn.Column(a) == ins[w].blkWrData)
    && (forall a :: 0 <= a < 4 && !BlockWritten(ins, s, n, a) ==> buf.blockIn.Column(a) == Word(0, 0, 0, 0))
  }

  // One edge of the block buffer when nothing is cleared.
  lemma WriteEdge(p: Params, t: Regs, i: Inputs, a: nat)
    requires Shaped(p, t) && !Clear(t, i) && a < 4
    ensures var buf := Step(p, t, i).buf;
      && buf.blockMask[3 - a] == (BlockWrites(i, a) || t.buf.blockMask[3 - a])
      && buf.blockIn.Column(a) == if BlockWrites(i, a) then i.blkWrData else t.buf.blockIn.Column(a)
  {
    hide AssemblyStep, A.Step, C.Step, CoreInputs, Clear, Capture, C.Result, Unlocked, AesCtrlStep;
  }

  lemma WrittenEdge(ins: seq<Inputs>, s: int, n: nat, a: int)
    requires -1 <= s < n < |ins|
    ensures BlockWritten(ins, s, n + 1, a) <==> BlockWrites(ins[n], a) || BlockWritten(ins, s, n, a)
  {
    hide BlockWrites;
    if w :| s < w < n && BlockWrites(ins[w], a) {
      assert s < w < n + 1;
    }
    if w :| s < w < n + 1 && BlockWrites(ins[w], a) {
      assert w == n || s < w < n;
    }
  }

  lemma LastWriteEdge(ins: seq<Inputs>, w: int, n: nat, a: int)
    requires 0 <= w <= n < |ins| && LastWrite(ins, w, n + 1, a)
    ensures BlockWrites(ins[n], a) <==> w == n
    ensures w < n ==> LastWrite(ins, w, n, a)
  {
    if w == n {
      assert BlockWrites(ins[w], a);
    } else {
      assert !BlockWrites(ins[n], a);
    }
  }

  lemma HoldsEdge(p: Params, ins: seq<Inputs>, s: int, n: nat, t: Regs)
    requires p.Valid() && -1 <= s < n < |ins| && Shaped(p, t) && !Clear(t, ins[n]) && Holds(ins, s, n, t.buf)
    ensures Holds(ins, s, n + 1, Step(p, t, ins[n]).buf)
  {
    hide Step, Clear, LastWrite, BlockWritten, BlockWrites, Block.Column;
    var buf, m := Step(p, t, ins[n]).buf, n + 1;
    forall a | 0 <= a < 4
      ensures buf.blockMask[3 - a] == BlockWritten(ins, s, m, a)
      ensures !BlockWritten(ins, s, m, a) ==> buf.blockIn.Column(a) == Word(0, 0, 0, 0)
    {
      WriteEdge(p, t, ins[n], a);
      WrittenEdge(ins, s, n, a);
    }
    forall a, w | 0 <= a < 4 && s < w < m && LastWrite(ins, w, m, a)
      ensures buf.blockIn.Column(a) == ins[w].blkWrData
    {
      WriteEdge(p, t, ins[n], a);
      LastWriteEdge(ins, w, n, a);
    }
  }

  // In every cycle of every run: the mask bit of address a is set exactly when a word has
  // been written there since the last clear; that word of the buffer is then the data of
  // the last such write, and zero if there has been none.
  lemma {:induction false} BlockBuffer(p: Params, ins: seq<Inputs>, s: int, n: nat)
    requires p.Valid() && n <= |ins| && LastWipe(p, ins, s, n)
    ensures Holds(ins, s, n, At(p, ins, n).buf)
    ensures AllValid(At(p, ins, n).buf.blockMask) <==> forall a :: 0 <= a < 4 ==> BlockWritten(ins, s, n, a)
    decreases n
  {
    hide At, Wipes, Holds, BlockWritten, AllValid, Step, Clear;
    if n == s + 1 {
      FreshBuffer(p, ins, s, n);
    } else {
      BlockBuffer(p, ins, s, n - 1);
      WipesExactly(p, ins, n - 1);
      NextState(p, ins, n - 1);
      HoldsEdge(p, ins, s, n - 1, At(p, ins, n - 1));
    }
    HeldMask(ins, s, n, At(p, ins, n).buf);
  }

  lemma FreshBuffer(p: Params, ins: seq<Inputs>, s: int, n: nat)
    requires p.Valid() && -1 <= s < n <= |ins| && n == s + 1 && (s == -1 || Wipes(p, ins, s))
    ensures Holds(ins, s, n, At(p, ins, n).buf)
  {
    hide At, Wipes, BlockWrites;
    if s == -1 {
      ResetBuffer(p, ins);
    } else {
      WipesExactly(p, ins, s);
      ClearWipes(p, ins, s) by { ClearMeans(At(p, ins, s), ins[s]); }
    }
  }

  lemma ClearMeans(t: Regs, i: Inputs)
    requires Clear(t, i)
    ensures i.zeroize || AuthZ(t, i) || t.auth.tamper.latched
  {
    hide AuthZ;
  }

  lemma ResetBuffer(p: Params, ins: seq<Inputs>)
    requires p.Valid()
    ensures var buf := At(p, ins, 0).buf;
      && buf.blockIn == Block(Word(0, 0, 0, 0), Word(0, 0, 0, 0), Word(0, 0, 0, 0), Word(0, 0, 0, 0))
      && buf.blockMask == [false, false, false, false]
  {
  }

  lemma HeldMask(ins: seq<Inputs>, s: int, n: nat, buf: Buffers)
    requires -1 <= s < n <= |ins| && |buf.blockMask| == 4 && Holds(ins, s, n, buf)
    ensures AllValid(buf.blockMask) <==> forall a :: 0 <= a < 4 ==> BlockWritten(ins, s, n, a)
  {
    hide BlockWritten, LastWrite;
    if AllValid(buf.blockMask) {
      forall a | 0 <= a < 4
        ensures BlockWritten(ins, s, n, a)
      {
        assert buf.blockMask[3 - a];
      }
    } else {
      var j :| 0 <= j < 4 && !buf.blockMask[j];
      assert !BlockWritten(ins, s, n, 3 - j);
    }
  }

  // Every cycle of every run has a last clear, or the reset.
  lemma {:induction false} LastWipeExists(p: Params, ins: seq<Inputs>, n: nat) returns (s: int)
    requires n <= |ins|
    ensures LastWipe(p, ins, s, n)
  {
    hide Wipes, TamperLatched;
    if n == 0 {
      s := -1;
    } else if Wipes(p, ins, n - 1) {
      s := n - 1;
    } else {
      s := LastWipeExists(p, ins, n - 1);
    }
  }

  // After a clear no encryption starts until all four words have been written again.
  lemma StartNeedsNewBlock(p: Params, ins: seq<Inputs>, k: nat, n: nat, a: int)
    requires p.Valid() && k < n < |ins| && 0 <= a < 4
    requires ins[k].zeroize || AuthZ(At(p, ins, k), ins[k]) || At(p, ins, k).auth.tamper.latched
    requires AesNext(At(p, ins, n), ins[n])
    ensures exists w :: k < w < n && ins[w].blkWrEn && ins[w].blkWrAddr == a
  {
    hide At, Wipes, Holds, AuthZ, Unlocked, Trap, AllValid;
    WipesExactly(p, ins, k);
    var s := LastWipeExists(p, ins, n);
    BlockBuffer(p, ins, s, n);
    assert BlockWritten(ins, s, n, a);
    var w :| s < w < n && BlockWrites(ins[w], a);
    assert s >= k;
  }

  // ----- An encryption, from the inputs alone -----

  // Edges until the AES core would accept a block, when nothing new is started.
  function ToIdle(ctrl: AesCtrl, op: C.Op): int {
    if ctrl.AES_READY? then CoreLeft(op) else ToReady(ctrl, op)
  }

  ghost predicate NoStartRequest(ins: seq<Inputs>, n: nat, m: nat)
    requires m <= |ins|
  {
    forall k :: n <= k < m ==> !ins[k].aesStart
  }

  lemma ToIdleEdge(p: Params, ins: seq<Inputs>, k: nat)
    requires p.Valid() && k < |ins| && Unlocked(At(p, ins, k)) && !ins[k].aesStart
    requires !Clear(At(p, ins, k), ins[k]) && !Trap(At(p, ins, k), ins[k])
    ensures var r, r' := ToIdle(At(p, ins, k).buf.aesCtrl, Session(p, ins, k).op),
                         ToIdle(At(p, ins, k + 1).buf.aesCtrl, Session(p, ins, k + 1).op);
      r' == if r > 0 then r - 1 else 0
  {
    hide At, Session, Unlocked, Clear, Trap, CoreIn, C.Legal, Inv, BUS_KEY, AllValid;
    BusEdges();
    SessionNext(p, ins, k);
    CtrlEdge(p, ins, k);
    CoreTold(p, ins, k);
    OpBounds(p, At(p, ins, k), Session(p, ins, k));
    KeyIsBus(p, At(p, ins, k), Session(p, ins, k));
    ToReadyEdge(p, ins, k);
  }

  // An undisturbed unlocked device of which nothing is asked waits for a block after at
  // most 68 edges.
  lemma {:induction false} IdleAfter68(p: Params, ins: seq<Inputs>, u: nat, n: nat)
    requires p.Valid() && u <= n <= |ins| && Undisturbed(p, ins, u, n) && Unlocked(At(p, ins, u))
    requires NoStartRequest(ins, u, n)
    ensures 0 <= ToIdle(At(p, ins, n).buf.aesCtrl, Session(p, ins, n).op) <= if n < u + 68 then u + 68 - n else 0
    decreases n
  {
    hide At, Session, Unlocked, Clear, Trap, Inv, BUS_KEY;
    BusEdges();
    InvAlways(p, ins, n);
    OpBounds(p, At(p, ins, n), Session(p, ins, n));
    if n > u {
      LatchedStays(p, ins, n - 1, n);
      IdleAfter68(p, ins, u, n - 1);
      StaysUnlocked(p, ins, u, n - 1, n);
      ToIdleEdge(p, ins, n - 1);
    }
  }

  // The reads of a device that shows the block c return its words, address 0 the first.
  ghost predicate ReadsBlock(t: Regs, c: Block) {
    forall i: Inputs :: i.rdEn && !i.zeroize ==> RdValid(t, i) && RdData(t, i) == [c.w0, c.w1, c.w2, c.w3][i.rdAddr]
  }

  lemma ShownIsRead(t: Regs, c: Block)
    requires Shows(t, c)
    ensures ReadsBlock(t, c)
  {
    hide RdValid, RdData, Unlocked;
  }

  // A start that is taken shows, 54 edges later, the ciphertext of the words last written
  // to addresses 0 to 3 up to the cycle of the start.
  lemma ResultOfWordsWritten(p: Params, ins: seq<Inputs>, s: int, n: nat, w0: nat, w1: nat, w2: nat, w3: nat)
    requires p.Valid() && n + 54 <= |ins| && Started(p, ins, n) && Undisturbed(p, ins, n, n + 54)
    requires LastWipe(p, ins, s, n + 1)
    requires s < w0 && s < w1 && s < w2 && s < w3
    requires LastWrite(ins, w0, n + 1, 0) && LastWrite(ins, w1, n + 1, 1)
    requires LastWrite(ins, w2, n + 1, 2) && LastWrite(ins, w3, n + 1, 3)
    ensures var block := Block(ins[w0].blkWrData, ins[w1].blkWrData, ins[w2].blkWrData, ins[w3].blkWrData);
      && At(p, ins, n + 1).buf.blockIn == block
      && ReadsBlock(At(p, ins, n + 54), Encipher(Key128(ZERO_BLOCK), block))
  {
    hide At, Wipes, LastWipe, BlockWritten, AllValid, Encipher, Shows, ReadsBlock, Started, Undisturbed, Session;
    BlockBuffer(p, ins, s, n + 1);
    ResultAfter54(p, ins, n);
    var b := At(p, ins, n + 1).buf.blockIn;
    assert b.Column(0) == ins[w0].blkWrData && b.Column(1) == ins[w1].blkWrData;
    assert b.Column(2) == ins[w2].blkWrData && b.Column(3) == ins[w3].blkWrData;
    ShownIsRead(At(p, ins, n + 54), Encipher(BUS_KEY, b));
  }

  // A clean unlock sequence that no zeroize or latched tamper event ends is not wiped.
  lemma AuthenticKeepsBuffers(p: Params, ins: seq<Inputs>, n: nat, s: int, c0: int, c1: int, c2: int, m: nat)
    requires n <= |ins| && U.Authentic(p, ins, n, s, c0, c1, c2) && !TamperLatched(ins, n) && s < m <= n
    ensures LastWipe(p, ins, s, m)
  {
    hide U.FreshSince, U.AssembledKey, A.PlatformKey, BadWrite, U.Clears, U.MarksAt;
    forall e | s < e < m
      ensures !Wipes(p, ins, e)
    {
      U.AuthenticMarks(p, ins, n, s, c0, c1, c2, e);
      U.AuthenticNotCleared(p, ins, n, s, c0, c1, c2, e);
      if TamperLatched(ins, e) {
        LatchLater(ins, e, n);
      }
    }
  }

  lemma LatchLater(ins: seq<Inputs>, k: nat, n: nat)
    requires k <= n <= |ins| && TamperLatched(ins, k)
    ensures TamperLatched(ins, n)
  {
    var j :| 0xFFFE <= j < k - 2 && !ins[j].tamperIn;
    assert j < n - 2;
  }

  // The session of a host, from its inputs alone: three authentic commits before cycle u,
  // then neither a zeroize nor a latched tamper event; a start in cycle n, 68 or more
  // cycles after u and the first one since, with all four words written.
  ghost predicate HostSession(p: Params, ins: seq<Inputs>, u: nat, s: int, c0: int, c1: int, c2: int, n: nat)
    requires n + 54 <= |ins|
  {
    && u + 68 <= n
    && U.Authentic(p, ins, u, s, c0, c1, c2)
    && (forall k :: u <= k < n + 54 ==> !ins[k].zeroize)
    && !TamperLatched(ins, n + 54)
    && NoStartRequest(ins, u, n) && ins[n].aesStart
    && (forall a :: 0 <= a < 4 ==> BlockWritten(ins, s, n, a))
  }

  lemma SessionIsClean(p: Params, ins: seq<Inputs>, u: nat, s: int, c0: int, c1: int, c2: int, n: nat)
    requires p.Valid() && n + 54 <= |ins| && HostSession(p, ins, u, s, c0, c1, c2, n)
    ensures U.Authentic(p, ins, n + 54, s, c0, c1, c2) && -1 <= s < u
    ensures LastWipe(p, ins, s, n) && LastWipe(p, ins, s, n + 1)
    ensures Undisturbed(p, ins, u, n) && Undisturbed(p, ins, n, n + 54) && Unlocked(At(p, ins, u))
  {
    hide At, U.FreshSince, U.AssembledKey, A.PlatformKey, BadWrite, U.Cleared, BlockWritten, LastWipe, Unlocked;
    AuthenticKeepsBuffers(p, ins, n + 54, s, c0, c1, c2, n);
    AuthenticKeepsBuffers(p, ins, n + 54, s, c0, c1, c2, n + 1);
    LatchedExactly(p, ins, n + 54);
    LatchedStays(p, ins, n, n + 54);
    LatchedStays(p, ins, u, n);
    U.AuthenticImpliesUnlocked(p, ins, u, s, c0, c1, c2);
  }

  // Such a start is taken.
  lemma SessionStarts(p: Params, ins: seq<Inputs>, u: nat, s: int, c0: int, c1: int, c2: int, n: nat)
    requires p.Valid() && n + 54 <= |ins| && HostSession(p, ins, u, s, c0, c1, c2, n)
    ensures Started(p, ins, n)
  {
    hide At, Session, U.Authentic, BlockWritten, LastWipe, Unlocked, TamperLatched, Inv, AllValid;
    SessionIsClean(p, ins, u, s, c0, c1, c2, n);
    StaysUnlocked(p, ins, u, n, n);
    IdleAfter68(p, ins, u, n);
    InvAlways(p, ins, n);
    OpBounds(p, At(p, ins, n), Session(p, ins, n));
    InvReady(p, At(p, ins, n), Session(p, ins, n));
    BlockBuffer(p, ins, s, n);
  }

  // From the inputs to the outputs: 54 cycles after the start every read returns the
  // addressed word of the ciphertext of the four words the host wrote last.
  lemma HostEncrypts(p: Params, ins: seq<Inputs>, u: nat, s: int, c0: int, c1: int, c2: int, n: nat,
                     w0: nat, w1: nat, w2: nat, w3: nat)
    requires p.Valid() && n + 54 <= |ins| && HostSession(p, ins, u, s, c0, c1, c2, n)
    requires LastWrite(ins, w0, n + 1, 0) && LastWrite(ins, w1, n + 1, 1)
    requires LastWrite(ins, w2, n + 1, 2) && LastWrite(ins, w3, n + 1, 3)
    ensures var block := Block(ins[w0].blkWrData, ins[w1].blkWrData, ins[w2].blkWrData, ins[w3].blkWrData);
      ReadsBlock(At(p, ins, n + 54), Encipher(Key128(ZERO_BLOCK), block))
  {
    hide At, LastWipe, Started, Undisturbed, Unlocked, ReadsBlock, Encipher, LastWrite, BlockWritten, U.Authentic;
    SessionIsClean(p, ins, u, s, c0, c1, c2, n);
    SessionStarts(p, ins, u, s, c0, c1, c2, n);
    LastIsLate(ins, s, w0, n, 0);
    LastIsLate(ins, s, w1, n, 1);
    LastIsLate(ins, s, w2, n, 2);
    LastIsLate(ins, s, w3, n, 3);
    ResultOfWordsWritten(p, ins, s, n, w0, w1, w2, w3);
  }

  lemma LastIsLate(ins: seq<Inputs>, s: int, w: nat, n: nat, a: int)
    requires -1 <= s < n < |ins| && LastWrite(ins, w, n + 1, a) && BlockWritten(ins, s, n, a)
    ensures s < w
  {
    hide BlockWrites;
    var e :| s < e < n && BlockWrites(ins[e], a);
    assert e <= w;
  }
}
