// What secure_aes_top gets done: an unlocked wrapper that is left alone loads its key
// schedule, and an encryption that is started shows its ciphertext, each after an exact
// number of edges.
module SecureAesProgress {
  import opened Common
  import opened Words
  import opened Aes
  import opened SecureAesTop
  import opened SecureAesRuns
  import A = AuthController
  import C = AesCore
  import K = KeyMem
  import U = UnlockTrace

  // From cycle m to cycle n nobody clears the device: no zeroize, and no tamper event is
  // latched by then.
  ghost predicate Undisturbed(p: Params, ins: seq<Inputs>, m: nat, n: nat)
    requires p.Valid() && n <= |ins|
  {
    && (forall k :: m <= k < n ==> !ins[k].zeroize)
    && !At(p, ins, n).auth.tamper.latched
  }

  lemma UnlockedEdge(p: Params, t: Regs, i: Inputs)
    requires Shaped(p, t) && Unlocked(t) && !i.zeroize
    ensures !Clear(t, i) && !Trap(t, i)
    ensures !Step(p, t, i).auth.tamper.latched ==> Unlocked(Step(p, t, i))
  {
    hide AssemblyStep, BuffersStep, C.Step, CoreInputs, A.Match, A.PlatformKey;
  }

  lemma {:induction false} LatchedStays(p: Params, ins: seq<Inputs>, k: nat, n: nat)
    requires p.Valid() && k <= n <= |ins| && !At(p, ins, n).auth.tamper.latched
    ensures !At(p, ins, k).auth.tamper.latched
    decreases n
  {
    hide Step;
    if k < n {
      U.LatchMonotone(p, ins, n);
      LatchedStays(p, ins, k, n - 1);
    }
  }

  // An unlocked device that is not disturbed stays unlocked.
  lemma {:induction false} StaysUnlocked(p: Params, ins: seq<Inputs>, m: nat, k: nat, n: nat)
    requires p.Valid() && m <= k <= n <= |ins| && Undisturbed(p, ins, m, n) && Unlocked(At(p, ins, m))
    ensures Unlocked(At(p, ins, k))
    ensures k < n ==> !Clear(At(p, ins, k), ins[k]) && !Trap(At(p, ins, k), ins[k])
    decreases k
  {
    hide Step, Unlocked, Clear, Trap;
    if k > m {
      StaysUnlocked(p, ins, m, k - 1, n);
      LatchedStays(p, ins, k, n);
      UnlockedEdge(p, At(p, ins, k - 1), ins[k - 1]);
    }
    if k < n {
      UnlockedEdge(p, At(p, ins, k), ins[k]);
    }
  }

  // ----- Loading the key schedule -----

  // The session of the core follows every edge.
  lemma SessionNext(p: Params, ins: seq<Inputs>, k: nat)
    requires p.Valid() && k < |ins|
    ensures C.Legal(Session(p, ins, k), CoreIn(p, ins, k))
    ensures Session(p, ins, k + 1) == C.SessionStep(Session(p, ins, k), CoreIn(p, ins, k))
    ensures At(p, ins, k).core.ready == Session(p, ins, k).op.Ready?
    ensures Inv(p, At(p, ins, k), Session(p, ins, k))
  {
    hide At, CoreIn, C.Legal, C.SessionStep, Inv;
    WrapperObeysProtocol(p, ins, k);
    InvAlways(p, ins, k);
    InvReady(p, At(p, ins, k), Session(p, ins, k));
  }

  lemma InvReady(p: Params, t: Regs, a: C.Session)
    requires Inv(p, t, a)
    ensures t.core.ready == a.op.Ready?
    ensures t.core.resultValid == a.last.Some?
    ensures a.last.Some? ==> C.Result(t.core, true) == Encipher(BUS_KEY, a.last.value.block)
  {
    hide C.Implements, Encipher, Decipher, Shaped, CtrlOk;
    ImplementsReady(t.core, a);
  }

  // One edge of the AES control FSM when nothing is cleared.
  lemma CtrlEdge(p: Params, ins: seq<Inputs>, k: nat)
    requires p.Valid() && k < |ins| && Unlocked(At(p, ins, k)) && !Clear(At(p, ins, k), ins[k])
    ensures var t := At(p, ins, k);
      At(p, ins, k + 1).buf.aesCtrl == AesCtrlStep(t.buf.aesCtrl, false, true, t.core.ready)
  {
    hide Step, Clear, Unlocked, AesCtrlStep;
    NextCtrl(p, At(p, ins, k), ins[k]);
  }

  lemma BusEdges()
    ensures C.LoadEdges(BUS_KEY) == 14 && C.BlockEdges(BUS_KEY) == 52
  {
  }

  // What the core is told in a cycle without a trap.
  lemma CoreTold(p: Params, ins: seq<Inputs>, k: nat)
    requires p.Valid() && k < |ins| && Unlocked(At(p, ins, k)) && !Trap(At(p, ins, k), ins[k])
    ensures var t, i := At(p, ins, k), CoreIn(p, ins, k);
      && (i.init <==> t.buf.aesCtrl.AES_NEED_INIT? && t.core.ready)
      && (i.next <==> t.buf.aesCtrl.AES_READY? && ins[k].aesStart && AllValid(t.buf.blockMask) && t.core.ready)
      && i.encdec && i.block == t.buf.blockIn && i.Key() == BUS_KEY
  {
    hide At, Unlocked, Trap, AllValid;
  }

  // The first edge starts the load; j edges later the core is j edges into it.
  lemma {:induction false} Loads(p: Params, ins: seq<Inputs>, n: nat, j: nat)
    requires p.Valid() && 1 <= j <= 15 && n + j <= |ins|
    requires Undisturbed(p, ins, n, n + j) && Unlocked(At(p, ins, n))
    requires At(p, ins, n).buf.aesCtrl.AES_NEED_INIT? && At(p, ins, n).core.ready
    ensures At(p, ins, n + j).buf.aesCtrl.AES_WAIT_INIT?
    ensures Session(p, ins, n + j)
      == if j <= 14 then C.Session(None, C.Loading(BUS_KEY, j), None) else C.Session(Some(BUS_KEY), C.Ready, None)
    decreases j
  {
    hide At, Session, Unlocked, Clear, Trap, CoreIn, C.Legal, Inv, BUS_KEY, AllValid;
    var k := n + j - 1;
    BusEdges();
    StaysUnlocked(p, ins, n, k, n + j);
    if j > 1 {
      LatchedStays(p, ins, k, n + j);
      Loads(p, ins, n, j - 1);
    }
    SessionNext(p, ins, k);
    CtrlEdge(p, ins, k);
    CoreTold(p, ins, k);
  }

  // An unlocked wrapper in AES_NEED_INIT with a ready core is in AES_READY after exactly
  // 16 edges, if it is not disturbed.
  lemma ReadyAfter16(p: Params, ins: seq<Inputs>, n: nat, j: nat)
    requires p.Valid() && 1 <= j <= 16 && n + j <= |ins|
    requires Undisturbed(p, ins, n, n + j) && Unlocked(At(p, ins, n))
    requires At(p, ins, n).buf.aesCtrl.AES_NEED_INIT? && At(p, ins, n).core.ready
    ensures At(p, ins, n + j).buf.aesCtrl.AES_READY? <==> j == 16
    ensures j == 16 ==> At(p, ins, n + j).core.ready
  {
    hide At, Session, Unlocked, Clear, Trap, CoreIn, C.Legal, Inv, BUS_KEY, AllValid;
    if j <= 15 {
      Loads(p, ins, n, j);
    } else {
      StaysUnlocked(p, ins, n, n + 15, n + 16);
      LatchedStays(p, ins, n + 15, n + 16);
      Loads(p, ins, n, 15);
      SessionNext(p, ins, n + 15);
      CtrlEdge(p, ins, n + 15);
      CoreTold(p, ins, n + 15);
      InvAlways(p, ins, n + 16);
      InvReady(p, At(p, ins, n + 16), Session(p, ins, n + 16));
    }
  }

  // ----- Encrypting a block -----

  ghost predicate Started(p: Params, ins: seq<Inputs>, n: nat)
    requires p.Valid() && n < |ins|
  {
    var t := At(p, ins, n);
    Unlocked(t) && t.buf.aesCtrl.AES_READY? && t.core.ready && AllValid(t.buf.blockMask) && ins[n].aesStart
  }

  lemma {:induction false} Works(p: Params, ins: seq<Inputs>, n: nat, j: nat)
    requires p.Valid() && 1 <= j <= 53 && n + j <= |ins| && Started(p, ins, n)
    requires Undisturbed(p, ins, n, n + j)
    ensures At(p, ins, n + j).buf.aesCtrl.AES_READY?
    ensures var a, b := Session(p, ins, n + j), At(p, ins, n + 1).buf.blockIn;
      && a.key == Some(BUS_KEY)
      && (if j == 1 then a.op == C.Starting(true) && a.last == None
          else if j <= 52 then a.op == C.Working(true, b, j) && a.last == None
          else a.op == C.Ready && a.last == Some(C.Done(true, b)))
    decreases j
  {
    hide At, Session, Unlocked, Clear, Trap, CoreIn, C.Legal, BUS_KEY, AllValid, C.Implements, Shaped, C.Inputs.Key;
    var k := n + j - 1;
    BusEdges();
    StaysUnlocked(p, ins, n, k, n + j);
    if j > 1 {
      LatchedStays(p, ins, k, n + j);
      Works(p, ins, n, j - 1);
    }
    SessionNext(p, ins, k);
    CtrlEdge(p, ins, k);
    CoreTold(p, ins, k);
  }

  // An edge that captures a valid result.
  lemma CaptureEdge(p: Params, t: Regs, i: Inputs)
    requires Shaped(p, t) && Unlocked(t) && !Clear(t, i) && !Trap(t, i) && t.core.resultValid
    ensures var t' := Step(p, t, i); t'.buf.resultReady && t'.buf.resultQ == C.Result(t.core, true)
  {
    hide AssemblyStep, A.Step, C.Step, CoreInputs, WriteBlock, AesCtrlStep, C.Result, Clear, Trap, Unlocked;
  }

  predicate SameResult(t: Regs, t': Regs) {
    t'.buf.resultReady == t.buf.resultReady && t'.buf.resultQ == t.buf.resultQ
  }

  // Without a valid result in the core the result buffer stays as it is.
  lemma NoCaptureEdge(p: Params, t: Regs, i: Inputs)
    requires Shaped(p, t) && !Clear(t, i) && !t.core.resultValid
    ensures SameResult(t, Step(p, t, i))
  {
    hide AssemblyStep, A.Step, C.Step, CoreInputs, WriteBlock, AesCtrlStep, C.Result, Clear, Trap, Unlocked;
  }

  // While the core works on a block the result buffer does not move.
  lemma {:induction false} BufferWaits(p: Params, ins: seq<Inputs>, n: nat, j: nat)
    requires p.Valid() && 1 <= j <= 53 && n + j <= |ins| && Started(p, ins, n)
    requires Undisturbed(p, ins, n, n + j)
    ensures At(p, ins, n + j).core.resultValid <==> j == 53
    ensures SameResult(At(p, ins, n + 1), At(p, ins, n + j))
    decreases j
  {
    hide At, Session, Unlocked, Clear, Trap, Inv, BUS_KEY, AllValid, Step, Encipher;
    Works(p, ins, n, j);
    InvAlways(p, ins, n + j);
    InvReady(p, At(p, ins, n + j), Session(p, ins, n + j));
    if j > 1 {
      LatchedStays(p, ins, n + j - 1, n + j);
      BufferWaits(p, ins, n, j - 1);
      StaysUnlocked(p, ins, n, n + j - 1, n + j);
      NextState(p, ins, n + j - 1);
      NoCaptureEdge(p, At(p, ins, n + j - 1), ins[n + j - 1]);
    }
  }

  lemma NextState(p: Params, ins: seq<Inputs>, k: nat)
    requires p.Valid() && k < |ins|
    ensures At(p, ins, k + 1) == Step(p, At(p, ins, k), ins[k])
  {
    hide Step;
  }

  // The device is unlocked and holds a result, and every read that is not disturbed by a
  // zeroize returns the addressed word of it.
  ghost predicate Shows(t: Regs, result: Block) {
    && Unlocked(t) && t.buf.resultReady && t.buf.resultQ == result
    && forall i: Inputs :: i.rdEn && !i.zeroize ==> RdValid(t, i) && RdData(t, i) == result.Column(i.rdAddr)
  }

  lemma ReadsResult(p: Params, t: Regs, result: Block)
    requires Shaped(p, t) && Unlocked(t) && t.buf.resultReady && t.buf.resultQ == result
    ensures Shows(t, result)
  {
    hide Unlocked, Trap, Clear, Step;
    forall i: Inputs | i.rdEn && !i.zeroize
      ensures RdValid(t, i) && RdData(t, i) == result.Column(i.rdAddr)
    {
      UnlockedEdge(p, t, i);
    }
  }

  // A start with a full block buffer shows, exactly 54 edges later, the ciphertext of the
  // block that was in the buffer one edge after the start; a read then returns it.  Until
  // then the result buffer keeps what it held one edge after the start.
  lemma ResultAfter54(p: Params, ins: seq<Inputs>, n: nat)
    requires p.Valid() && n + 54 <= |ins| && Started(p, ins, n) && Undisturbed(p, ins, n, n + 54)
    ensures forall k :: n + 1 <= k <= n + 53 ==> SameResult(At(p, ins, n + 1), At(p, ins, k))
    ensures forall k :: n + 1 <= k <= n + 53 ==> (Capture(At(p, ins, k), ins[k]) <==> k == n + 53)
    ensures Shows(At(p, ins, n + 54), Encipher(BUS_KEY, At(p, ins, n + 1).buf.blockIn))
  {
    hide At, Session, Unlocked, Clear, Trap, CoreIn, C.Legal, Inv, BUS_KEY, AllValid, Encipher, Step, C.Result, Capture,
         Shows;
    forall k | n + 1 <= k <= n + 53
      ensures SameResult(At(p, ins, n + 1), At(p, ins, k))
      ensures Capture(At(p, ins, k), ins[k]) <==> k == n + 53
    {
      LatchedStays(p, ins, k, n + 54);
      BufferWaits(p, ins, n, k - n);
      StaysUnlocked(p, ins, n, k, n + 54);
      CaptureWhen(At(p, ins, k), ins[k]);
    }
    ResultShown(p, ins, n);
  }

  lemma CaptureWhen(t: Regs, i: Inputs)
    requires Unlocked(t) && !Trap(t, i)
    ensures Capture(t, i) <==> t.core.resultValid
  {
    hide Unlocked, Trap;
  }

  lemma ResultShown(p: Params, ins: seq<Inputs>, n: nat)
    requires p.Valid() && n + 54 <= |ins| && Started(p, ins, n) && Undisturbed(p, ins, n, n + 54)
    ensures Shows(At(p, ins, n + 54), Encipher(BUS_KEY, At(p, ins, n + 1).buf.blockIn))
  {
    hide At, Session, Unlocked, Clear, Trap, CoreIn, C.Legal, Inv, BUS_KEY, AllValid, Encipher, Step, C.Result, Shows;
    var t := At(p, ins, n + 53);
    StaysUnlocked(p, ins, n, n + 53, n + 54);
    StaysUnlocked(p, ins, n, n + 54, n + 54);
    LatchedStays(p, ins, n + 53, n + 54);
    Works(p, ins, n, 53);
    InvAlways(p, ins, n + 53);
    InvReady(p, t, Session(p, ins, n + 53));
    CaptureEdge(p, t, ins[n + 53]);
    NextState(p, ins, n + 53);
    ReadsResult(p, At(p, ins, n + 54), Encipher(BUS_KEY, At(p, ins, n + 1).buf.blockIn));
  }

  // ----- How long until AES_READY -----

  // The edges until the core is ready, when nothing new is started.
  function CoreLeft(op: C.Op): int {
    match op
    case Ready => 0
    case Loading(_, t) => 15 - t
    case Starting(_) => 52
    case Working(_, _, t) => 53 - t
  }

  // The edges until AES_READY: first the core must be ready, then a load takes 16.
  function ToReady(ctrl: AesCtrl, op: C.Op): int {
    match ctrl
    case AES_NEED_INIT => CoreLeft(op) + 16
    case AES_WAIT_INIT => CoreLeft(op) + 1
    case AES_READY => 0
  }

  lemma OpBounds(p: Params, t: Regs, a: C.Session)
    requires Inv(p, t, a)
    ensures 0 <= CoreLeft(a.op) <= 52
    ensures a.op.Ready? <==> CoreLeft(a.op) == 0
    ensures a.op.Working? ==> 2 <= a.op.t <= 52
  {
    hide C.OutputOf, C.BlockAt, K.Holds, K.At, Shaped, CtrlOk;
    BusEdges();
  }

  lemma ToReadyEdge(p: Params, ins: seq<Inputs>, k: nat)
    requires p.Valid() && k < |ins| && Unlocked(At(p, ins, k))
    requires !Clear(At(p, ins, k), ins[k]) && !Trap(At(p, ins, k), ins[k])
    ensures var r, r' := ToReady(At(p, ins, k).buf.aesCtrl, Session(p, ins, k).op),
                         ToReady(At(p, ins, k + 1).buf.aesCtrl, Session(p, ins, k + 1).op);
      r' == if r > 0 then r - 1 else 0
  {
    hide At, Session, Unlocked, Clear, Trap, CoreIn, C.Legal, Inv, BUS_KEY, AllValid;
    BusEdges();
    SessionNext(p, ins, k);
    CtrlEdge(p, ins, k);
    CoreTold(p, ins, k);
    OpBounds(p, At(p, ins, k), Session(p, ins, k));
    KeyIsBus(p, At(p, ins, k), Session(p, ins, k));
  }

  lemma KeyIsBus(p: Params, t: Regs, a: C.Session)
    requires Inv(p, t, a)
    ensures a.key.Some? ==> a.key.value == BUS_KEY
    ensures a.op.Loading? ==> a.op.key == BUS_KEY
    ensures a.op.Working? || a.op.Starting? ==> a.key.Some? && a.op.encipher && a.last == None
    ensures a.op.Loading? ==> a.last == None
    ensures a.last.Some? ==> a.last.value.encipher && a.op.Ready?
  {
    hide C.OutputOf, C.BlockAt, K.Holds, K.At, Shaped, CtrlOk, BUS_KEY;
  }

  // Whatever the core is doing, an undisturbed unlocked wrapper reaches AES_READY after
  // exactly ToReady edges and stays there, and that is never more than 68.
  lemma {:induction false} ReadyExactly(p: Params, ins: seq<Inputs>, n: nat, j: nat)
    requires p.Valid() && n + j <= |ins| && Undisturbed(p, ins, n, n + j) && Unlocked(At(p, ins, n))
    ensures var r := ToReady(At(p, ins, n).buf.aesCtrl, Session(p, ins, n).op);
      && r <= C.BlockEdges(BUS_KEY) + 16
      && (At(p, ins, n + j).buf.aesCtrl.AES_READY? <==> j >= r)
      && ToReady(At(p, ins, n + j).buf.aesCtrl, Session(p, ins, n + j).op) == if r > j then r - j else 0
    decreases j
  {
    hide At, Session, Unlocked, Clear, Trap, Inv, BUS_KEY;
    BusEdges();
    InvAlways(p, ins, n);
    OpBounds(p, At(p, ins, n), Session(p, ins, n));
    InvAlways(p, ins, n + j);
    OpBounds(p, At(p, ins, n + j), Session(p, ins, n + j));
    if j > 0 {
      LatchedStays(p, ins, n + j - 1, n + j);
      ReadyExactly(p, ins, n, j - 1);
      StaysUnlocked(p, ins, n, n + j - 1, n + j);
      ToReadyEdge(p, ins, n + j - 1);
    }
  }

  // ----- Results that outlive a relock -----

  // The first unlocked cycle after a locked one.
  ghost predicate Reopened(p: Params, ins: seq<Inputs>, n: nat)
    requires p.Valid() && n <= |ins|
  {
    n > 0 && Unlocked(At(p, ins, n)) && !Unlocked(At(p, ins, n - 1))
  }

  lemma ReopenedState(p: Params, ins: seq<Inputs>, n: nat)
    requires p.Valid() && n <= |ins| && Reopened(p, ins, n)
    ensures !At(p, ins, n).buf.resultReady && At(p, ins, n).buf.aesCtrl.AES_NEED_INIT?
    ensures !Session(p, ins, n).op.Starting?
  {
    hide At, Session, CoreIn, C.Legal, Inv, Step;
    U.LatchMonotone(p, ins, n) by { UnlockedNotLatched(At(p, ins, n)); }
    ResultOkAlways(p, ins, n - 1);
    NextState(p, ins, n - 1);
    LockedEdge(p, At(p, ins, n - 1), ins[n - 1]);
    SessionNext(p, ins, n - 1);
    LockedCore(p, ins, n - 1);
  }

  lemma UnlockedNotLatched(t: Regs)
    requires Unlocked(t)
    ensures !t.auth.tamper.latched
  {
  }

  lemma LockedEdge(p: Params, t: Regs, i: Inputs)
    requires Shaped(p, t) && !Unlocked(t) && !t.auth.tamper.latched && ResultOk(t)
    ensures !Step(p, t, i).buf.resultReady && Step(p, t, i).buf.aesCtrl.AES_NEED_INIT?
  {
    hide AssemblyStep, A.Step, C.Step, CoreInputs, WriteBlock, C.Result, Clear, Trap;
  }

  // A locked device, or one that traps, starts nothing.
  lemma LockedCore(p: Params, ins: seq<Inputs>, k: nat)
    requires p.Valid() && k < |ins| && (!Unlocked(At(p, ins, k)) || Trap(At(p, ins, k), ins[k]))
    ensures !CoreIn(p, ins, k).init && !CoreIn(p, ins, k).next
  {
    hide At, AllValid, Unlocked, Trap;
  }

  // The block whose ciphertext the core holds or is still working out, and the edges
  // until the result buffer would capture it.
  function OldBlock(a: C.Session): Option<Block> {
    if a.last.Some? then Some(a.last.value.block)
    else if a.op.Working? then Some(a.op.block)
    else None
  }

  function OldDelay(a: C.Session): int {
    if a.last.Some? then 1 else if a.op.Working? then 54 - a.op.t else 0
  }

  ghost predicate NoStart(p: Params, ins: seq<Inputs>, n: nat, m: nat)
    requires p.Valid() && m <= |ins|
  {
    forall k :: n <= k < m ==> !AesNext(At(p, ins, k), ins[k])
  }

  // In cycle m: an old block is on its way, or it has been captured, or there is none.
  ghost predicate OldForm(was: C.Session, n: nat, t: Regs, a: C.Session, m: nat) {
    && !a.op.Starting?
    && (if OldBlock(a).Some? then
          && !t.buf.resultReady && t.buf.aesCtrl.AES_NEED_INIT?
          && OldBlock(was) == OldBlock(a) && m + OldDelay(a) == n + OldDelay(was)
        else if OldBlock(was).Some? then
          && t.buf.resultReady && t.buf.resultQ == Encipher(BUS_KEY, OldBlock(was).value)
          && m >= n + OldDelay(was)
        else !t.buf.resultReady)
  }

  lemma OldEdge(p: Params, ins: seq<Inputs>, was: C.Session, n: nat, k: nat)
    requires p.Valid() && n <= k < |ins| && Unlocked(At(p, ins, k))
    requires !Clear(At(p, ins, k), ins[k]) && !Trap(At(p, ins, k), ins[k]) && !AesNext(At(p, ins, k), ins[k])
    requires OldForm(was, n, At(p, ins, k), Session(p, ins, k), k)
    ensures OldForm(was, n, At(p, ins, k + 1), Session(p, ins, k + 1), k + 1)
  {
    hide At, Session, Unlocked, Clear, Trap, CoreIn, C.Legal, Inv, BUS_KEY, AllValid, Step, Encipher, C.Result;
    var t, a := At(p, ins, k), Session(p, ins, k);
    BusEdges();
    SessionNext(p, ins, k);
    CtrlEdge(p, ins, k);
    CoreTold(p, ins, k);
    NextIsNext(p, ins, k);
    InvReady(p, t, a);
    OpBounds(p, t, a);
    KeyIsBus(p, t, a);
    NextState(p, ins, k);
    if t.core.resultValid {
      CaptureEdge(p, t, ins[k]);
    } else {
      NoCaptureEdge(p, t, ins[k]);
    }
  }

  lemma NextIsNext(p: Params, ins: seq<Inputs>, k: nat)
    requires p.Valid() && k < |ins|
    ensures CoreIn(p, ins, k).next == AesNext(At(p, ins, k), ins[k])
  {
    hide At, AesNext, AesInit;
  }

  // The result register of the core is not cleared with the device.  After a relock the
  // buffer shows, without any new start, exactly the ciphertext that the core holds or is
  // working out in the first unlocked cycle, from OldDelay edges on; if the core holds and
  // works out none, it shows nothing.
  lemma {:induction false} OldResult(p: Params, ins: seq<Inputs>, n: nat, m: nat)
    requires p.Valid() && n <= m <= |ins| && Reopened(p, ins, n)
    requires Undisturbed(p, ins, n, m) && NoStart(p, ins, n, m)
    ensures OldForm(Session(p, ins, n), n, At(p, ins, m), Session(p, ins, m), m)
    ensures var was, t := Session(p, ins, n), At(p, ins, m);
      && (t.buf.resultReady <==> OldBlock(was).Some? && m >= n + OldDelay(was))
      && (t.buf.resultReady ==> t.buf.resultQ == Encipher(BUS_KEY, OldBlock(was).value))
    ensures var was, t := Session(p, ins, n), At(p, ins, n);
      OldBlock(was).Some? <==> t.core.resultValid || was.op.Working?
    decreases m
  {
    hide At, Session, Unlocked, Clear, Trap, Inv, BUS_KEY, Encipher, AesNext, C.Result;
    InvAlways(p, ins, n);
    InvReady(p, At(p, ins, n), Session(p, ins, n));
    InvAlways(p, ins, m);
    OpBounds(p, At(p, ins, m), Session(p, ins, m));
    if m == n {
      ReopenedState(p, ins, n);
    } else {
      LatchedStays(p, ins, m - 1, m);
      OldResult(p, ins, n, m - 1);
      StaysUnlocked(p, ins, n, m - 1, m);
      OldEdge(p, ins, Session(p, ins, n), n, m - 1);
    }
  }

  lemma {:induction false} LockedKeepsResult(p: Params, ins: seq<Inputs>, z: nat, n: nat)
    requires p.Valid() && z <= n <= |ins| && At(p, ins, z).core.resultValid
    requires forall k :: z <= k < n ==> !Unlocked(At(p, ins, k)) || Trap(At(p, ins, k), ins[k])
    ensures Session(p, ins, n) == Session(p, ins, z)
    decreases n
  {
    hide At, Session, Unlocked, Trap, CoreIn, C.Legal, Inv, BUS_KEY, Encipher, C.Result;
    if z < n {
      LockedKeepsResult(p, ins, z, n - 1);
      SessionNext(p, ins, n - 1);
      LockedCore(p, ins, n - 1);
      InvAlways(p, ins, z);
      InvReady(p, At(p, ins, z), Session(p, ins, z));
      KeyIsBus(p, At(p, ins, z), Session(p, ins, z));
    }
  }

  // A ciphertext that the core shows when the device is cleared reappears in the buffer
  // one edge after the device has been unlocked again, whatever the time between.
  lemma ResultOutlivesRelock(p: Params, ins: seq<Inputs>, z: nat, n: nat)
    requires p.Valid() && z < n < |ins| && At(p, ins, z).core.resultValid
    requires forall k :: z <= k < n ==> !Unlocked(At(p, ins, k)) || Trap(At(p, ins, k), ins[k])
    requires Reopened(p, ins, n) && !ins[n].zeroize && !At(p, ins, n + 1).auth.tamper.latched
    ensures At(p, ins, n + 1).buf.resultReady
    ensures At(p, ins, n + 1).buf.resultQ == C.Result(At(p, ins, z).core, true)
  {
    hide At, Session, Unlocked, Trap, CoreIn, C.Legal, Inv, BUS_KEY, Encipher, C.Result, AesNext;
    LockedKeepsResult(p, ins, z, n);
    InvAlways(p, ins, z);
    InvReady(p, At(p, ins, z), Session(p, ins, z));
    ReopenedState(p, ins, n);
    NeedInitStartsNothing(At(p, ins, n), ins[n]);
    OldResult(p, ins, n, n + 1);
  }

  lemma NeedInitStartsNothing(t: Regs, i: Inputs)
    requires t.buf.aesCtrl.AES_NEED_INIT?
    ensures !AesNext(t, i)
  {
    hide AllValid;
  }
}
