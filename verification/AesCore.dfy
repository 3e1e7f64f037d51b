// aes_core.v: the control FSM that ties the key memory, the cipher and the inverse
// cipher together around one shared S-box.
module AesCore {
  import opened Words
  import opened Layers
  import opened Aes
  import opened Rtl
  import opened Common
  import E = EncipherBlock
  import D = DecipherBlock
  import K = KeyMem

  datatype Ctrl = IDLE | INIT | NEXT

  datatype Regs = Regs(ctrl: Ctrl, ready: bool, resultValid: bool, enc: E.Regs, dec: D.Regs, km: K.Regs)

  // The ports.  `floating` is what an out-of-range key memory read returns.
  datatype Inputs = Inputs(
    encdec: bool, init: bool, next: bool, key0: Block, key1: Block, keylen: bool,
    block: Block, floating: Block)
  {
    function Key(): Key {
      K.KeyOf(keylen, key0, key1)
    }
  }

  const RESET: Regs := Regs(IDLE, true, false, E.RESET, D.RESET, K.RESET)

  // ----- Wires -----

  predicate InitState(c: Regs, i: Inputs) {
    (c.ctrl.IDLE? && i.init) || c.ctrl.INIT?
  }

  function RoundKeyWire(c: Regs, i: Inputs): Block
    requires |c.km.keyMem| == KEY_MEM_WORDS
  {
    ReadKey(c.km.keyMem, if i.encdec then c.enc.roundCtr else c.dec.roundCtr, i.floating)
  }

  function NewSboxw(c: Regs, i: Inputs): Word {
    SubWord(if InitState(c, i) then K.Sboxw(c.km) else E.Sboxw(c.enc))
  }

  function EncInputs(c: Regs, i: Inputs): E.Inputs
    requires |c.km.keyMem| == KEY_MEM_WORDS
  {
    E.Inputs(i.encdec && i.next, i.keylen, RoundKeyWire(c, i), NewSboxw(c, i), i.block)
  }

  function DecInputs(c: Regs, i: Inputs): D.Inputs
    requires |c.km.keyMem| == KEY_MEM_WORDS
  {
    D.Inputs(!i.encdec && i.next, i.keylen, RoundKeyWire(c, i), i.block)
  }

  function KeyInputs(c: Regs, i: Inputs): K.Inputs {
    K.Inputs(i.init, i.keylen, i.key0, i.key1, NewSboxw(c, i))
  }

  function MuxedReady(c: Regs, i: Inputs): bool {
    if i.encdec then c.enc.ready else c.dec.ready
  }

  // The result port.
  function Result(c: Regs, encdec: bool): Block {
    if encdec then c.enc.block else c.dec.block
  }

  // The control registers after one clock edge.
  function CtrlStep(c: Regs, i: Inputs): (Ctrl, bool, bool) {
    match c.ctrl
    case IDLE =>
      if i.init then (INIT, false, false)
      else if i.next then (NEXT, false, false)
      else (IDLE, c.ready, c.resultValid)
    case INIT =>
      if c.km.ready then (IDLE, true, c.resultValid) else (INIT, c.ready, c.resultValid)
    case NEXT =>
      if MuxedReady(c, i) then (IDLE, true, true) else (NEXT, c.ready, c.resultValid)
  }

  function Step(c: Regs, i: Inputs): (c': Regs)
    requires |c.km.keyMem| == KEY_MEM_WORDS
    ensures |c'.km.keyMem| == KEY_MEM_WORDS
  {
    var (ctrl, ready, resultValid) := CtrlStep(c, i);
    Regs(ctrl, ready, resultValid,
         E.Step(c.enc, EncInputs(c, i)), D.Step(c.dec, DecInputs(c, i)), K.Step(c.km, KeyInputs(c, i)))
  }

  class AesCore {
    const encBlock: E.AesEncipherBlock
    const decBlock: D.AesDecipherBlock
    const keymem: K.AesKeyMem
    var coreCtrl: Ctrl
    var ready: bool
    var resultValid: bool

    ghost predicate Valid() {
      keymem.Valid()
    }

    ghost function Repr(): set<object> {
      {this, encBlock, decBlock, keymem, keymem.keyMem}
    }

    function Registers(): Regs
      reads this, encBlock, decBlock, keymem, keymem.keyMem
    {
      Regs(coreCtrl, ready, resultValid, encBlock.Registers(), decBlock.Registers(), keymem.Registers())
    }

    constructor ()
      ensures Valid() && fresh(Repr())
      ensures Registers() == RESET
    {
      hide E.AesEncipherBlock.Registers, D.AesDecipherBlock.Registers, K.AesKeyMem.Registers;
      encBlock := new E.AesEncipherBlock();
      decBlock := new D.AesDecipherBlock();
      keymem := new K.AesKeyMem();
      coreCtrl, ready, resultValid := IDLE, true, false;
    }

    // The control FSM and the output registers.
    method CtrlEdge(i: Inputs, keyReady: bool, muxedReady: bool)
      modifies this
      ensures var c := old(Regs(coreCtrl, ready, resultValid, E.RESET, D.RESET, K.RESET));
        var c' := c.(enc := c.enc.(ready := muxedReady), dec := c.dec.(ready := muxedReady),
                     km := c.km.(ready := keyReady));
        (coreCtrl, ready, resultValid) == CtrlStep(c', i)
    {
      match coreCtrl {
        case IDLE =>
          if i.init {
            ready, resultValid, coreCtrl := false, false, INIT;
          } else if i.next {
            ready, resultValid, coreCtrl := false, false, NEXT;
          }
        case INIT =>
          if keyReady {
            ready, coreCtrl := true, IDLE;
          }
        case NEXT =>
          if muxedReady {
            ready, resultValid, coreCtrl := true, true, IDLE;
          }
      }
    }

    // The submodules see the same edge.
    method SubmoduleEdges(e: E.Inputs, d: D.Inputs, k: K.Inputs)
      requires Valid()
      modifies encBlock, decBlock, keymem, keymem.keyMem
      ensures encBlock.Registers() == E.Step(old(encBlock.Registers()), e)
      ensures decBlock.Registers() == D.Step(old(decBlock.Registers()), d)
      ensures |old(keymem.Registers()).keyMem| == KEY_MEM_WORDS
      ensures keymem.Registers() == K.Step(old(keymem.Registers()), k)
    {
      hide E.Step, D.Step, K.Step,
           E.AesEncipherBlock.Registers, D.AesDecipherBlock.Registers, K.AesKeyMem.Registers;
      KeyMemLength();
      encBlock.Edge(e);
      decBlock.Edge(d);
      keymem.Edge(k);
    }

    method Edge(i: Inputs)
      requires Valid()
      modifies Repr()
      ensures Registers() == Step(old(Registers()), i)
    {
      hide E.Step, D.Step, K.Step, SubWord, E.Sboxw, K.Sboxw, ReadKey,
           E.AesEncipherBlock.Registers, D.AesDecipherBlock.Registers, K.AesKeyMem.Registers;
      // Combinational logic, all of it from the registers before the edge.
      var enc, dec, km := encBlock.Registers(), decBlock.Registers(), keymem.Registers();
      var encSboxw := encBlock.MuxedSboxw();
      var initState := (coreCtrl == IDLE && i.init) || coreCtrl == INIT;
      var newSboxw := SubWord(if initState then K.Sboxw(km) else encSboxw);
      var encNext, decNext, round, muxedReady := false, false, 0, false;
      if i.encdec {
        encNext, round, muxedReady := i.next, enc.roundCtr, enc.ready;
      } else {
        decNext, round, muxedReady := i.next, dec.roundCtr, dec.ready;
      }
      KeyMemLength();
      var roundKey := ReadKey(km.keyMem, round, i.floating);

      SubmoduleEdges(
        E.Inputs(encNext, i.keylen, roundKey, newSboxw, i.block),
        D.Inputs(decNext, i.keylen, roundKey, i.block),
        K.Inputs(i.init, i.keylen, i.key0, i.key1, newSboxw));
      CtrlEdge(i, km.ready, muxedReady);
    }

    lemma KeyMemLength()
      requires Valid()
      ensures |keymem.Registers().keyMem| == KEY_MEM_WORDS
    {
    }
  }

  // ----- What the core does, seen from outside -----

  // An operation that has ended: its direction and its input block.
  datatype Done = Done(encipher: bool, block: Block)

  // The operation in progress and the edges since it was accepted.
  datatype Op =
    | Ready
    | Loading(key: Key, t: nat)
    | Starting(encipher: bool)
    | Working(encipher: bool, block: Block, t: nat)

  // `key` is the last key whose load has ended; `last` is the last operation on a
  // block, as long as no other operation has been started.
  datatype Session = Session(key: Option<Key>, op: Op, last: Option<Done>)

  const NEW_SESSION: Session := Session(None, Ready, None)

  function OutputOf(key: Key, done: Done): Block {
    if done.encipher then Encipher(key, done.block) else Decipher(key, done.block)
  }

  function LoadEdges(key: Key): nat {
    key.Rounds() + 4
  }

  function BlockEdges(key: Key): nat {
    5 * key.Rounds() + 2
  }

  function SessionStep(a: Session, i: Inputs): Session
    requires Legal(a, i)
  {
    match a.op
    case Ready =>
      if i.init then Session(None, Loading(i.Key(), 1), None)
      else if i.next then Session(a.key, Starting(i.encdec), None)
      else a
    case Loading(key, t) =>
      if t < LoadEdges(key) then a.(op := Loading(key, t + 1)) else Session(Some(key), Ready, None)
    case Starting(encipher) =>
      a.(op := Working(encipher, i.block, 2))
    case Working(encipher, block, t) =>
      if t < BlockEdges(a.key.value) then a.(op := Working(encipher, block, t + 1))
      else Session(a.key, Ready, Some(Done(encipher, block)))
  }

  // What the core asks of its caller: operations start only when it is ready and one
  // at a time; a block operation needs a loaded key of the present key length; the
  // key, keylen and encdec ports are held while an operation uses them.
  predicate Legal(a: Session, i: Inputs) {
    match a.op
    case Ready =>
      !(i.init && i.next) && (i.next ==> a.key.Some? && i.keylen == a.key.value.Key256?)
    case Loading(key, t) =>
      !i.init && !i.next && i.Key() == key
    case Starting(encipher) =>
      !i.init && !i.next && a.key.Some? && i.keylen == a.key.value.Key256? && i.encdec == encipher
    case Working(encipher, block, t) =>
      !i.init && !i.next && a.key.Some? && i.keylen == a.key.value.Key256? && i.encdec == encipher
  }

  predicate EncIdle(c: Regs) {
    c.enc.ctrl.IDLE?
  }

  predicate DecIdle(c: Regs) {
    c.dec.ctrl.IDLE?
  }

  // The registers of the core in the middle of a session.
  ghost predicate Implements(c: Regs, a: Session) {
    && |c.km.keyMem| == KEY_MEM_WORDS
    && c.ready == a.op.Ready?
    && c.resultValid == a.last.Some?
    && (a.key.Some? ==> K.Holds(c.km.keyMem, a.key.value))
    && (match a.op
        case Ready =>
          && c.ctrl.IDLE? && EncIdle(c) && DecIdle(c) && c.km.ctrl.IDLE?
          && (a.last.Some? ==> a.key.Some? && Result(c, a.last.value.encipher) == OutputOf(a.key.value, a.last.value))
        case Loading(key, t) =>
          && c.ctrl.INIT? && EncIdle(c) && DecIdle(c)
          && a.key.None? && a.last.None?
          && 1 <= t <= LoadEdges(key) && K.At(c.km, key, t)
        case Starting(encipher) =>
          && c.ctrl.NEXT? && c.km.ctrl.IDLE? && a.key.Some? && a.last.None?
          && BlockAt(c, a.key.value, encipher, ZERO_BLOCK, 1)
        case Working(encipher, block, t) =>
          && c.ctrl.NEXT? && c.km.ctrl.IDLE? && a.key.Some? && a.last.None?
          && 2 <= t <= BlockEdges(a.key.value)
          && BlockAt(c, a.key.value, encipher, block, t))
  }

  // The selected datapath is t edges into its work and the other one is idle.
  ghost predicate BlockAt(c: Regs, key: Key, encipher: bool, block: Block, t: nat) {
    if encipher then DecIdle(c) && E.At(c.enc, key.Key256?, KeySchedule(key), block, t)
    else EncIdle(c) && D.At(c.dec, key.Key256?, KeySchedule(key), block, t)
  }

  // ----- One edge -----

  lemma ReadsHeldKey(c: Regs, i: Inputs, key: Key, round: Bits4)
    requires K.Holds(c.km.keyMem, key) && round <= key.Rounds()
    ensures ReadKey(c.km.keyMem, round, i.floating) == KeySchedule(key)[round]
  {
    hide RoundKey, KeySchedule;
    assert c.km.keyMem[round] == c.km.keyMem[..key.Rounds() + 1][round];
  }

  // The first edge forgets the block, the second one samples it.
  lemma FreshBlock(c: Regs, key: Key, encipher: bool, b: Block)
    requires BlockAt(c, key, encipher, ZERO_BLOCK, 1)
    ensures BlockAt(c, key, encipher, b, 1)
  {
    hide KeySchedule;
  }

  lemma BlockEdge(c: Regs, i: Inputs, key: Key, encipher: bool, b: Block, t: nat)
    requires |c.km.keyMem| == KEY_MEM_WORDS && K.Holds(c.km.keyMem, key)
    requires !InitState(c, i) && i.keylen == key.Key256? && i.encdec == encipher
    requires t < BlockEdges(key) && BlockAt(c, key, encipher, b, t)
    requires i.next == (t == 0)
    requires t == 1 ==> i.block == b
    ensures BlockAt(Step(c, i), key, encipher, b, t + 1)
  {
    hide SubWord, KeySchedule, E.Step, D.Step, K.Step, E.Sboxw, Cipher, InvCipher, ReadKey, E.Busy, D.Busy;
    var keys := KeySchedule(key);
    if encipher {
      if c.enc.roundCtr <= key.Rounds() {
        ReadsHeldKey(c, i, key, c.enc.roundCtr);
      }
      SamplesOnlyAtStart(c.enc, key, b, t);
      E.EdgeAdvances(c.enc, key.Key256?, keys, b, t, EncInputs(c, i));
      IdleDecStays(c, i);
    } else {
      if c.dec.roundCtr <= key.Rounds() {
        ReadsHeldKey(c, i, key, c.dec.roundCtr);
      }
      InverseSamplesOnlyAtStart(c.dec, key, b, t);
      D.EdgeAdvances(c.dec, key.Key256?, keys, b, t, DecInputs(c, i));
      IdleEncStays(c, i);
    }
  }

  lemma SamplesOnlyAtStart(r: E.Regs, key: Key, b: Block, t: nat)
    requires t < BlockEdges(key) && E.At(r, key.Key256?, KeySchedule(key), b, t)
    ensures r.ctrl.INIT? ==> t == 1
  {
    hide SubWord, KeySchedule, CipherState;
  }

  lemma InverseSamplesOnlyAtStart(r: D.Regs, key: Key, b: Block, t: nat)
    requires t < BlockEdges(key) && D.At(r, key.Key256?, KeySchedule(key), b, t)
    ensures r.ctrl.INIT? ==> t == 1
  {
    hide InvSubWord, KeySchedule, D.PreSub;
  }

  lemma IdleEncStays(c: Regs, i: Inputs)
    requires |c.km.keyMem| == KEY_MEM_WORDS && EncIdle(c) && !(i.encdec && i.next)
    ensures Step(c, i).enc == c.enc
  {
    hide SubWord, ReadKey;
  }

  lemma IdleDecStays(c: Regs, i: Inputs)
    requires |c.km.keyMem| == KEY_MEM_WORDS && DecIdle(c) && !(!i.encdec && i.next)
    ensures Step(c, i).dec == c.dec
  {
    hide SubWord, ReadKey;
  }

  lemma IdleKeyMemStays(c: Regs, i: Inputs)
    requires |c.km.keyMem| == KEY_MEM_WORDS && c.km.ctrl.IDLE? && !i.init
    ensures Step(c, i).km.keyMem == c.km.keyMem && Step(c, i).km.ctrl.IDLE?
  {
    hide SubWord, ReadKey;
  }

  lemma LoadEdge(c: Regs, i: Inputs, key: Key, t: nat)
    requires |c.km.keyMem| == KEY_MEM_WORDS && InitState(c, i) && i.Key() == key
    requires t < LoadEdges(key) && K.At(c.km, key, t)
    requires i.init == (t == 0)
    ensures |Step(c, i).km.keyMem| == KEY_MEM_WORDS && K.At(Step(c, i).km, key, t + 1)
  {
    hide SubWord, KeySchedule, K.Step, E.Step, D.Step, ReadKey, RoundKey, K.Sboxw, E.Sboxw, Rcon;
    K.EdgeAdvances(c.km, KeyInputs(c, i), key, t);
  }

  lemma ReadyEdge(c: Regs, a: Session, i: Inputs)
    requires Implements(c, a) && Legal(a, i) && a.op.Ready?
    ensures Implements(Step(c, i), SessionStep(a, i))
  {
    hide SubWord, KeySchedule, K.Step, E.Step, D.Step, ReadKey, RoundKey, E.Sboxw, K.Sboxw, Encipher, Decipher,
         K.Holds, K.At, E.At, D.At;
    if i.init {
      IdleEncStays(c, i);
      IdleDecStays(c, i);
      IdleIsAt0(c, i.Key());
      LoadEdge(c, i, i.Key(), 0);
    } else if i.next {
      IdleKeyMemStays(c, i);
      IdleBlockIsAt0(c, a.key.value, i.encdec);
      BlockEdge(c, i, a.key.value, i.encdec, ZERO_BLOCK, 0);
    } else {
      IdleEncStays(c, i);
      IdleDecStays(c, i);
      IdleKeyMemStays(c, i);
    }
  }

  lemma IdleIsAt0(c: Regs, key: Key)
    requires |c.km.keyMem| == KEY_MEM_WORDS && c.km.ctrl.IDLE?
    ensures K.At(c.km, key, 0)
  {
  }

  lemma IdleBlockIsAt0(c: Regs, key: Key, encipher: bool)
    requires EncIdle(c) && DecIdle(c)
    ensures BlockAt(c, key, encipher, ZERO_BLOCK, 0)
  {
  }

  lemma LoadingEdge(c: Regs, a: Session, i: Inputs)
    requires Implements(c, a) && Legal(a, i) && a.op.Loading?
    ensures Implements(Step(c, i), SessionStep(a, i))
  {
    hide SubWord, KeySchedule, K.Step, E.Step, D.Step, ReadKey, RoundKey, E.Sboxw, K.Sboxw, Encipher, Decipher,
         K.Generating, K.Holds;
    IdleEncStays(c, i);
    IdleDecStays(c, i);
    if a.op.t < LoadEdges(a.op.key) {
      LoadEdge(c, i, a.op.key, a.op.t);
      LoadingNotReady(c.km, a.op.key, a.op.t);
    } else {
      IdleKeyMemStays(c, i);
    }
  }

  lemma LoadingNotReady(r: K.Regs, key: Key, t: nat)
    requires |r.keyMem| == KEY_MEM_WORDS && 1 <= t < LoadEdges(key) && K.At(r, key, t)
    ensures !r.ready
  {
    hide RoundKey, Rcon;
  }

  lemma WorkingNotReady(c: Regs, key: Key, encipher: bool, b: Block, t: nat)
    requires 1 <= t <= BlockEdges(key) && BlockAt(c, key, encipher, b, t)
    ensures (if encipher then c.enc.ready else c.dec.ready) <==> t == BlockEdges(key)
    ensures t == BlockEdges(key) ==> EncIdle(c) && DecIdle(c)
    ensures t == BlockEdges(key) ==> Result(c, encipher) == OutputOf(key, Done(encipher, b))
  {
    hide SubWord, InvSubWord, KeySchedule, CipherState, D.PreSub, Cipher, InvCipher;
  }

  lemma StartingEdge(c: Regs, a: Session, i: Inputs)
    requires Implements(c, a) && Legal(a, i) && a.op.Starting?
    ensures Implements(Step(c, i), SessionStep(a, i))
  {
    hide SubWord, KeySchedule, K.Step, E.Step, D.Step, ReadKey, RoundKey, E.Sboxw, K.Sboxw, Encipher, Decipher,
         K.Holds, E.At, D.At, BlockAt;
    var key := a.key.value;
    FreshBlock(c, key, a.op.encipher, i.block);
    BlockEdge(c, i, key, a.op.encipher, i.block, 1);
    WorkingNotReady(c, key, a.op.encipher, i.block, 1);
    IdleKeyMemStays(c, i);
  }

  lemma WorkingEdge(c: Regs, a: Session, i: Inputs)
    requires Implements(c, a) && Legal(a, i) && a.op.Working?
    ensures Implements(Step(c, i), SessionStep(a, i))
  {
    hide SubWord, KeySchedule, K.Step, E.Step, D.Step, ReadKey, RoundKey, E.Sboxw, K.Sboxw, Encipher, Decipher,
         K.Holds, E.At, D.At, BlockAt;
    var key, encipher, block, t := a.key.value, a.op.encipher, a.op.block, a.op.t;
    WorkingNotReady(c, key, encipher, block, t);
    IdleKeyMemStays(c, i);
    if t < BlockEdges(key) {
      BlockEdge(c, i, key, encipher, block, t);
    } else {
      IdleEncStays(c, i);
      IdleDecStays(c, i);
    }
  }

  // Every edge the caller may cause keeps core and session together.
  lemma SessionAdvances(c: Regs, a: Session, i: Inputs)
    requires Implements(c, a) && Legal(a, i)
    ensures Implements(Step(c, i), SessionStep(a, i))
  {
    hide Step, SessionStep, Implements, Legal;
    match a.op
    case Ready => ReadyEdge(c, a, i);
    case Loading(_, _) => LoadingEdge(c, a, i);
    case Starting(_) => StartingEdge(c, a, i);
    case Working(_, _, _) => WorkingEdge(c, a, i);
  }

  // ----- Whole runs -----

  function Run(c: Regs, ins: seq<Inputs>): (c': Regs)
    requires |c.km.keyMem| == KEY_MEM_WORDS
    ensures |c'.km.keyMem| == KEY_MEM_WORDS
    decreases |ins|
  {
    if ins == [] then c else Run(Step(c, ins[0]), ins[1..])
  }

  predicate LegalRun(a: Session, ins: seq<Inputs>)
    decreases |ins|
  {
    ins == [] || (Legal(a, ins[0]) && LegalRun(SessionStep(a, ins[0]), ins[1..]))
  }

  function SessionRun(a: Session, ins: seq<Inputs>): Session
    requires LegalRun(a, ins)
    decreases |ins|
  {
    if ins == [] then a else SessionRun(SessionStep(a, ins[0]), ins[1..])
  }

  lemma {:induction false} RunImplements(c: Regs, a: Session, ins: seq<Inputs>)
    requires Implements(c, a) && LegalRun(a, ins)
    ensures Implements(Run(c, ins), SessionRun(a, ins))
    decreases |ins|
  {
    hide Step, SessionStep, Implements, Legal;
    if ins != [] {
      ImplementsHasMemory(c, a);
      SessionAdvances(c, a, ins[0]);
      RunImplements(Step(c, ins[0]), SessionStep(a, ins[0]), ins[1..]);
    }
  }

  lemma ImplementsHasMemory(c: Regs, a: Session)
    requires Implements(c, a)
    ensures |c.km.keyMem| == KEY_MEM_WORDS
  {
    hide K.Holds, K.At, E.At, D.At, OutputOf;
  }

  lemma ResetImplements()
    ensures Implements(RESET, NEW_SESSION)
  {
    hide K.Holds, K.At, E.At, D.At, OutputOf;
  }

  // What any implementing state shows on its ports.
  lemma PortsOfSession(c: Regs, a: Session)
    requires Implements(c, a)
    ensures c.ready <==> a.op.Ready?
    ensures c.resultValid <==> a.last.Some?
    ensures c.ready ==> EncIdle(c) && DecIdle(c) && c.km.ctrl.IDLE?
    ensures c.resultValid ==>
      a.op.Ready? && a.key.Some? && Result(c, a.last.value.encipher) == OutputOf(a.key.value, a.last.value)
    ensures !(c.enc.ctrl.SBOX? && c.km.ctrl.GENERATE?)
    ensures c.enc.ctrl.SBOX? ==> c.ctrl.NEXT?
    ensures c.km.ctrl.GENERATE? ==> c.ctrl.INIT?
  {
    hide K.Holds, OutputOf, KeySchedule, CipherState, InvCipherState, Cipher, InvCipher, SubWord, D.PreSub,
         RoundKey, Rcon;
  }

  // After any run of legal operations from reset, of any length and in any mixture:
  // the core is ready exactly between operations, its result is valid exactly when the
  // last operation was on a block, and then the result is the cipher or the inverse
  // cipher of the last block started, under the last key loaded.
  lemma CoreCorrect(ins: seq<Inputs>)
    requires LegalRun(NEW_SESSION, ins)
    ensures var c, a := Run(RESET, ins), SessionRun(NEW_SESSION, ins);
      && (c.ready <==> a.op.Ready?)
      && (c.resultValid <==> a.last.Some?)
      && (c.ready ==> EncIdle(c) && DecIdle(c) && c.km.ctrl.IDLE?)
      && (c.resultValid ==> a.key.Some? && Result(c, a.last.value.encipher) == OutputOf(a.key.value, a.last.value))
      && !(c.enc.ctrl.SBOX? && c.km.ctrl.GENERATE?)
  {
    hide Implements, Run, SessionRun, OutputOf, LegalRun;
    ResetImplements();
    RunImplements(RESET, NEW_SESSION, ins);
    PortsOfSession(Run(RESET, ins), SessionRun(NEW_SESSION, ins));
  }

  // ----- How long operations take -----

  lemma {:induction false} LoadContinues(a: Session, ins: seq<Inputs>)
    requires a.op.Loading? && 1 <= a.op.t <= LoadEdges(a.op.key)
    requires LegalRun(a, ins) && |ins| == LoadEdges(a.op.key) + 1 - a.op.t
    ensures SessionRun(a, ins) == Session(Some(a.op.key), Ready, None)
    decreases |ins|
  {
    hide KeySchedule;
    if a.op.t < LoadEdges(a.op.key) {
      LoadContinues(SessionStep(a, ins[0]), ins[1..]);
    }
  }

  lemma {:induction false} WorkContinues(a: Session, ins: seq<Inputs>)
    requires a.op.Working? && a.key.Some? && 2 <= a.op.t <= BlockEdges(a.key.value)
    requires LegalRun(a, ins) && |ins| == BlockEdges(a.key.value) + 1 - a.op.t
    ensures SessionRun(a, ins) == Session(a.key, Ready, Some(Done(a.op.encipher, a.op.block)))
    decreases |ins|
  {
    hide KeySchedule;
    if a.op.t < BlockEdges(a.key.value) {
      WorkContinues(SessionStep(a, ins[0]), ins[1..]);
    }
  }

  // A key load takes Nr+5 edges.
  lemma LoadTakes(a: Session, ins: seq<Inputs>)
    requires a.op.Ready? && LegalRun(a, ins) && ins != [] && ins[0].init
    requires |ins| == ins[0].Key().Rounds() + 5
    ensures SessionRun(a, ins) == Session(Some(ins[0].Key()), Ready, None)
  {
    LoadContinues(SessionStep(a, ins[0]), ins[1..]);
  }

  // A block operation takes 5*Nr+3 edges and is on the block at the second edge.
  lemma BlockTakes(a: Session, ins: seq<Inputs>)
    requires a.op.Ready? && a.key.Some? && LegalRun(a, ins)
    requires |ins| == BlockEdges(a.key.value) + 1 && ins[0].next
    ensures SessionRun(a, ins) == Session(a.key, Ready, Some(Done(ins[0].encdec, ins[1].block)))
  {
    var a1 := SessionStep(a, ins[0]);
    var a2 := SessionStep(a1, ins[1]);
    assert ins[1..][0] == ins[1] && ins[1..][1..] == ins[2..];
    WorkContinues(a2, ins[2..]);
    assert SessionRun(a, ins) == SessionRun(a1, ins[1..]) == SessionRun(a2, ins[2..]);
  }

  // The hardware undoes itself: decipher what has just been enciphered, and the
  // result port shows the original block.
  lemma HardwareRoundTrip(c: Regs, a: Session, enc: seq<Inputs>, dec: seq<Inputs>)
    requires Implements(c, a) && a.op.Ready? && a.key.Some?
    requires |enc| == |dec| == BlockEdges(a.key.value) + 1
    requires enc[0].next && enc[0].encdec && dec[0].next && !dec[0].encdec
    requires LegalRun(a, enc) && LegalRun(SessionRun(a, enc), dec)
    requires |c.km.keyMem| == KEY_MEM_WORDS && dec[1].block == Result(Run(c, enc), true)
    ensures var c' := Run(Run(c, enc), dec); c'.ready && c'.resultValid && Result(c', false) == enc[1].block
  {
    hide Implements, Run, SessionRun, LegalRun, Encipher, Decipher, Legal, SessionStep;
    var key, b := a.key.value, enc[1].block;
    BlockTakes(a, enc);
    RunImplements(c, a, enc);
    var a1 := SessionRun(a, enc);
    PortsOfSession(Run(c, enc), a1);
    BlockTakes(a1, dec);
    RunImplements(Run(c, enc), a1, dec);
    PortsOfSession(Run(Run(c, enc), dec), SessionRun(a1, dec));
    DecipherEncipher(key, b);
  }
}
