// What secure_aes_top guarantees over whole runs from reset: it obeys the calling
// protocol of the AES core, it shows only results of completed encryptions, and a
// latched tamper event silences it for good.
module SecureAesRuns {
  import opened Words
  import opened Aes
  import opened Common
  import opened SecureAesTop
  import A = AuthController
  import C = AesCore
  import K = KeyMem

  // The registers after the first n edges of a run.
  function At(p: Params, ins: seq<Inputs>, n: nat): (t: Regs)
    requires p.Valid() && n <= |ins|
    ensures Shaped(p, t)
  {
    if n == 0 then ResetShaped(p); Reset(p) else Step(p, At(p, ins, n - 1), ins[n - 1])
  }

  lemma ResetShaped(p: Params)
    requires p.Valid()
    ensures Shaped(p, Reset(p))
  {
  }

  // What the AES core sees in cycle n.
  function CoreIn(p: Params, ins: seq<Inputs>, n: nat): C.Inputs
    requires p.Valid() && n < |ins|
  {
    CoreInputs(p, At(p, ins, n), ins[n])
  }

  // The session of the core after n edges, as long as the wrapper has obeyed the
  // protocol so far.
  function Session(p: Params, ins: seq<Inputs>, n: nat): C.Session
    requires p.Valid() && n <= |ins|
  {
    if n == 0 then C.NEW_SESSION
    else
      var a := Session(p, ins, n - 1);
      if C.Legal(a, CoreIn(p, ins, n - 1)) then C.SessionStep(a, CoreIn(p, ins, n - 1)) else a
  }

  // The key that reaches the core: it takes the upper half of the bus, which is zero.
  const BUS_KEY: Key := Key128(ZERO_BLOCK)

  // ----- The wrapper obeys the protocol of the core -----

  ghost predicate SessionOk(a: C.Session) {
    && (a.key.Some? ==> a.key.value == BUS_KEY)
    && (a.last.Some? ==> a.last.value.encipher && a.key.Some?)
    && (match a.op
        case Ready => true
        case Loading(key, _) => key == BUS_KEY && a.key.None?
        case Starting(encipher) => encipher && a.key.Some?
        case Working(encipher, _, _) => encipher && a.key.Some?)
  }

  // In AES_READY the key schedule is loaded; in AES_WAIT_INIT it is, or is being.
  ghost predicate CtrlOk(ctrl: AesCtrl, a: C.Session) {
    && (ctrl.AES_READY? ==> a.key.Some?)
    && (ctrl.AES_WAIT_INIT? ==> a.key.Some? || a.op.Loading?)
  }

  ghost predicate Inv(p: Params, t: Regs, a: C.Session) {
    && Shaped(p, t)
    && C.Implements(t.core, a)
    && SessionOk(a)
    && CtrlOk(t.buf.aesCtrl, a)
  }

  lemma ImplementsReady(c: C.Regs, a: C.Session)
    requires C.Implements(c, a)
    ensures c.ready == a.op.Ready?
    ensures c.resultValid == a.last.Some?
    ensures c.resultValid ==>
      a.op.Ready? && a.key.Some? && C.Result(c, a.last.value.encipher) == C.OutputOf(a.key.value, a.last.value)
  {
    hide *;
    C.PortsOfSession(c, a);
  }

  lemma ProtocolObeyed(p: Params, t: Regs, a: C.Session, i: Inputs)
    requires Inv(p, t, a)
    ensures C.Legal(a, CoreInputs(p, t, i))
  {
    hide C.Implements, Shaped, AllValid, Trap, Unlocked, K.Holds;
    ImplementsReady(t.core, a);
  }

  lemma NextCtrl(p: Params, t: Regs, i: Inputs)
    requires Shaped(p, t)
    ensures Step(p, t, i).buf.aesCtrl == AesCtrlStep(t.buf.aesCtrl, Clear(t, i), Unlocked(t), t.core.ready)
  {
    hide AssemblyStep, A.Step, C.Step, CoreInputs, WriteBlock, AesCtrlStep, Clear, Unlocked, Capture, C.Result,
         AuthInputs;
  }

  lemma ClearCoversTrap(t: Regs, i: Inputs)
    requires !Clear(t, i)
    ensures !Trap(t, i)
  {
  }

  lemma CtrlKept(p: Params, t: Regs, a: C.Session, i: Inputs)
    requires Inv(p, t, a) && C.Legal(a, CoreInputs(p, t, i))
    ensures CtrlOk(Step(p, t, i).buf.aesCtrl, C.SessionStep(a, CoreInputs(p, t, i)))
  {
    hide C.Implements, AllValid, Step, C.Legal, Shaped, Clear, Trap, Unlocked, SessionOk, K.KeyOf;
    ImplementsReady(t.core, a);
    NextCtrl(p, t, i);
    if !Clear(t, i) {
      ClearCoversTrap(t, i);
    }
  }

  lemma SessionKept(p: Params, t: Regs, a: C.Session, i: Inputs)
    requires Inv(p, t, a) && C.Legal(a, CoreInputs(p, t, i))
    ensures SessionOk(C.SessionStep(a, CoreInputs(p, t, i)))
  {
    hide C.Implements, AllValid, Step, C.Legal, Shaped, Clear, Trap, Unlocked;
    ImplementsReady(t.core, a);
  }

  lemma InvKept(p: Params, t: Regs, a: C.Session, i: Inputs)
    requires Inv(p, t, a) && C.Legal(a, CoreInputs(p, t, i))
    ensures Inv(p, Step(p, t, i), C.SessionStep(a, CoreInputs(p, t, i)))
  {
    hide C.Implements, AssemblyStep, A.Step, C.Step, C.Legal, BuffersStep, C.SessionStep, CoreInputs,
         SessionOk, CtrlOk, Shaped;
    CtrlKept(p, t, a, i);
    SessionKept(p, t, a, i);
    C.SessionAdvances(t.core, a, CoreInputs(p, t, i));
  }

  lemma InvAtReset(p: Params)
    requires p.Valid()
    ensures Inv(p, Reset(p), C.NEW_SESSION)
  {
    hide C.Implements;
    C.ResetImplements();
  }

  lemma {:induction false} InvAlways(p: Params, ins: seq<Inputs>, n: nat)
    requires p.Valid() && n <= |ins|
    ensures Inv(p, At(p, ins, n), Session(p, ins, n))
  {
    hide Inv, Step, C.Legal, C.SessionStep, CoreInputs, Reset;
    if n == 0 {
      InvAtReset(p);
    } else {
      InvAlways(p, ins, n - 1);
      ProtocolObeyed(p, At(p, ins, n - 1), Session(p, ins, n - 1), ins[n - 1]);
      InvKept(p, At(p, ins, n - 1), Session(p, ins, n - 1), ins[n - 1]);
    }
  }

  // In every cycle of every run, whatever the host, zeroize and tamper inputs do, the
  // wrapper meets the assumptions of the core: it starts operations only when the core
  // is ready, one at a time, a block only under a loaded key, and holds key, keylen
  // and encdec.
  lemma WrapperObeysProtocol(p: Params, ins: seq<Inputs>, n: nat)
    requires p.Valid() && n < |ins|
    ensures C.Legal(Session(p, ins, n), CoreIn(p, ins, n))
    ensures var t := At(p, ins, n);
      && !(AesInit(t, ins[n]) && AesNext(t, ins[n]))
      && (AesInit(t, ins[n]) || AesNext(t, ins[n]) ==> t.core.ready)
      && (t.buf.aesCtrl.AES_READY? ==> K.Holds(t.core.km.keyMem, BUS_KEY))
  {
    hide Inv, Step, C.Legal, C.SessionStep, CoreInputs, Reset, At, Session, K.Holds;
    InvAlways(p, ins, n);
    ProtocolObeyed(p, At(p, ins, n), Session(p, ins, n), ins[n]);
    ReadyMeansLoaded(p, At(p, ins, n), Session(p, ins, n));
  }

  lemma ReadyMeansLoaded(p: Params, t: Regs, a: C.Session)
    requires Inv(p, t, a)
    ensures t.buf.aesCtrl.AES_READY? ==> K.Holds(t.core.km.keyMem, BUS_KEY)
  {
    hide K.Holds, K.At, C.BlockAt, C.OutputOf;
  }

  // ----- What is read is the ciphertext of a completed encryption -----

  // The input blocks of the encryptions that have ended within the first n edges.
  function Completed(p: Params, ins: seq<Inputs>, n: nat): seq<Block>
    requires p.Valid() && n <= |ins|
  {
    if n == 0 then []
    else
      var a, a' := Session(p, ins, n - 1), Session(p, ins, n);
      Completed(p, ins, n - 1) + if a.op.Working? && a'.op.Ready? then [a.op.block] else []
  }

  lemma {:induction false} LastCompleted(p: Params, ins: seq<Inputs>, n: nat)
    requires p.Valid() && n <= |ins|
    ensures var a, done := Session(p, ins, n), Completed(p, ins, n);
      a.last.Some? ==> done != [] && a.last.value.block == done[|done| - 1]
  {
    hide At, CoreIn, C.Legal, Inv;
    if n > 0 {
      LastCompleted(p, ins, n - 1);
      InvAlways(p, ins, n - 1);
    }
  }

  // A result is ready only while the device is unlocked or about to be silenced.
  ghost predicate ResultOk(t: Regs) {
    t.buf.resultReady && !t.auth.tamper.latched ==> t.auth.state.UNLOCKED?
  }

  lemma ResultOkKept(p: Params, t: Regs, i: Inputs)
    requires Shaped(p, t) && ResultOk(t)
    ensures ResultOk(Step(p, t, i))
  {
    hide AssemblyStep, C.Step, CoreInputs, A.Match, A.PlatformKey, WriteBlock;
  }

  lemma {:induction false} ResultOkAlways(p: Params, ins: seq<Inputs>, n: nat)
    requires p.Valid() && n <= |ins|
    ensures ResultOk(At(p, ins, n))
  {
    hide Step, ResultOk, Reset;
    if n == 0 {
      assert ResultOk(Reset(p)) by { NoResultAtReset(p); }
    } else {
      ResultOkAlways(p, ins, n - 1);
      ResultOkKept(p, At(p, ins, n - 1), ins[n - 1]);
    }
  }

  lemma NoResultAtReset(p: Params)
    ensures ResultOk(Reset(p)) && !Reset(p).buf.resultReady
  {
  }

  // How the result buffer moves in one edge.
  lemma ResultEdge(p: Params, t: Regs, a: C.Session, i: Inputs)
    requires Inv(p, t, a) && ResultOk(t)
    ensures var t' := Step(p, t, i); t'.buf.resultReady ==>
      if a.last.Some? then t'.buf.resultQ == Encipher(BUS_KEY, a.last.value.block)
      else t.buf.resultReady && t'.buf.resultQ == t.buf.resultQ
  {
    hide C.Implements, AssemblyStep, A.Step, C.Step, CoreInputs, CtrlOk, Shaped, Encipher, Decipher, C.Result,
         A.Match, A.PlatformKey, WriteBlock, AesCtrlStep;
    ImplementsReady(t.core, a);
    if t.buf.resultReady && !Clear(t, i) && a.last.Some? {
      assert Capture(t, i);
    }
  }

  // The result buffer, whenever it is ready, holds the ciphertext of the encryption
  // that was the latest to be complete one edge before.
  lemma {:induction false} ResultIsCiphertext(p: Params, ins: seq<Inputs>, n: nat)
    requires p.Valid() && n <= |ins|
    ensures var t := At(p, ins, n);
      t.buf.resultReady ==>
        n > 0 && var done := Completed(p, ins, n - 1);
        done != [] && t.buf.resultQ == Encipher(BUS_KEY, done[|done| - 1])
  {
    hide Step, Inv, ResultOk, C.Legal, C.SessionStep, CoreIn, Reset, Encipher, CtrlOk, SessionOk;
    if n == 0 {
      NoResultAtReset(p);
    } else {
      var t, a := At(p, ins, n - 1), Session(p, ins, n - 1);
      ResultIsCiphertext(p, ins, n - 1);
      InvAlways(p, ins, n - 1);
      ResultOkAlways(p, ins, n - 1);
      ResultEdge(p, t, a, ins[n - 1]);
      LastCompleted(p, ins, n - 1);
      if n > 1 && a.last.None? {
        CompletedGrowsIntoLast(p, ins, n - 1);
      }
    }
  }

  // An encryption that ends leaves its result valid.
  lemma CompletedGrowsIntoLast(p: Params, ins: seq<Inputs>, n: nat)
    requires p.Valid() && 0 < n <= |ins| && Session(p, ins, n).last.None?
    ensures Completed(p, ins, n) == Completed(p, ins, n - 1)
  {
    hide At, CoreIn, C.Legal;
  }

  // Every word read with rd_valid high is the addressed word of that ciphertext.
  lemma ReadsCiphertext(p: Params, ins: seq<Inputs>, n: nat)
    requires p.Valid() && n < |ins| && RdValid(At(p, ins, n), ins[n])
    ensures n > 0
    ensures var done := Completed(p, ins, n - 1);
      done != [] && RdData(At(p, ins, n), ins[n]) == Encipher(BUS_KEY, done[|done| - 1]).Column(ins[n].rdAddr)
  {
    hide At, Encipher, Completed;
    ResultIsCiphertext(p, ins, n);
  }

  // ----- The key bus -----

  // The schedule loaded is that of the all-zero key.  It is the schedule of the AES_KEY
  // parameter exactly when that parameter is zero.
  lemma BusKeyIsAesKey(p: Params, keyMem: seq<Block>)
    requires K.Holds(keyMem, BUS_KEY)
    ensures K.Holds(keyMem, Key128(p.aesKey)) <==> p.aesKey == ZERO_BLOCK
  {
    if K.Holds(keyMem, Key128(p.aesKey)) {
      assert KeySchedule(BUS_KEY)[0] == KeySchedule(Key128(p.aesKey))[0];
    }
  }

  // The default of the parameter, 0x00112233_44556677_8899AABB_CCDDEEFF.
  const DEFAULT_AES_KEY: Block := Block(
    Word(0x00, 0x11, 0x22, 0x33), Word(0x44, 0x55, 0x66, 0x77),
    Word(0x88, 0x99, 0xAA, 0xBB), Word(0xCC, 0xDD, 0xEE, 0xFF))

  // With the default parameter the schedule that AES_READY stands for is never the
  // schedule of AES_KEY.
  lemma DefaultKeyNotLoaded(p: Params, ins: seq<Inputs>, n: nat)
    requires p.Valid() && p.aesKey == DEFAULT_AES_KEY && n < |ins|
    requires At(p, ins, n).buf.aesCtrl.AES_READY?
    ensures !K.Holds(At(p, ins, n).core.km.keyMem, Key128(p.aesKey))
  {
    hide At, K.Holds, CoreIn, Session, C.Legal, AesInit, AesNext;
    WrapperObeysProtocol(p, ins, n);
    BusKeyIsAesKey(p, At(p, ins, n).core.km.keyMem);
  }

  // ----- Tampering -----

  function TamperInputs(ins: seq<Inputs>): (s: seq<bool>)
    ensures |s| == |ins| && forall k :: 0 <= k < |ins| ==> s[k] == ins[k].tamperIn
  {
    if ins == [] then [] else TamperInputs(ins[..|ins| - 1]) + [ins[|ins| - 1].tamperIn]
  }

  lemma {:induction false} TamperRegisters(p: Params, ins: seq<Inputs>, n: nat)
    requires p.Valid() && n <= |ins|
    ensures At(p, ins, n).auth.tamper == A.TamperRun(TamperInputs(ins[..n]))
  {
    hide AssemblyStep, BuffersStep, C.Step, CoreInputs, Clear, Capture;
    if n > 0 {
      TamperRegisters(p, ins, n - 1);
      assert ins[..n][..n - 1] == ins[..n - 1];
      var s := TamperInputs(ins[..n]);
      assert s[..n - 1] == TamperInputs(ins[..n - 1]);
    }
  }

  // The latch is set after n edges exactly when a low sample was taken at or after edge
  // 65534 and at least three edges ago.
  lemma LatchedExactly(p: Params, ins: seq<Inputs>, n: nat)
    requires p.Valid() && n <= |ins|
    ensures At(p, ins, n).auth.tamper.latched <==> exists j :: 0xFFFE <= j < n - 2 && !ins[j].tamperIn
  {
    hide At;
    TamperRegisters(p, ins, n);
    var s := TamperInputs(ins[..n]);
    A.TamperLatchExact(s);
    assert forall j :: 0 <= j < n ==> s[j] == ins[j].tamperIn;
    if j :| 0xFFFE <= j < n - 2 && !ins[j].tamperIn {
      assert !s[j];
    }
    if j :| 0xFFFE <= j < n - 2 && !s[j] {
      assert !ins[j].tamperIn;
    }
  }

  predicate Wiped(p: Params, t: Regs) {
    && t.asm == NewAssembly(p)
    && t.buf == NewBuffers()
  }

  lemma LatchedEdge(p: Params, t: Regs, i: Inputs)
    requires Shaped(p, t) && t.auth.tamper.latched
    ensures Step(p, t, i).auth.tamper.latched && Wiped(p, Step(p, t, i))
  {
    hide C.Step, CoreInputs;
  }

  // Once the latch is set, and until reset: the device is locked, trap and auth_zeroize
  // are high, nothing is read, no AES operation is started, and every buffer is zero from
  // the next cycle on.
  lemma {:induction false} SilentAfterTamper(p: Params, ins: seq<Inputs>, m: nat, n: nat)
    requires p.Valid() && m <= n <= |ins| && At(p, ins, m).auth.tamper.latched
    ensures var t := At(p, ins, n);
      && t.auth.tamper.latched && !Unlocked(t)
      && (forall i :: AuthZ(t, i) && Trap(t, i))
      && (forall i :: !RdValid(t, i) && RdData(t, i) == ZERO_WORD && !AesInit(t, i) && !AesNext(t, i))
      && (n > m ==> Wiped(p, t))
    decreases n
  {
    hide Step;
    if n > m {
      SilentAfterTamper(p, ins, m, n - 1);
      LatchedEdge(p, At(p, ins, n - 1), ins[n - 1]);
    }
  }
}
