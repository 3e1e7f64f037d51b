// secure_aes_top.sv: the AES core behind the authentication controller.
module SecureAesTop {
  import opened Words
  import opened Aes
  import opened Rtl
  import A = AuthController
  import C = AesCore

  const NO_DATA: seq<bool> := [
    false, false, false, false, false, false, false, false,
    false, false, false, false, false, false, false, false,
    false, false, false, false, false, false, false, false,
    false, false, false, false, false, false, false, false]

  // A 32-bit data port, least significant bit first.
  type Data = d: seq<bool> | |d| == 32 witness NO_DATA
  type Addr2 = x: int | 0 <= x < 4
  type Addr3 = x: int | 0 <= x < 8

  // The parameters: the width of the platform keys, at most seven words because the
  // address test keeps three bits of the word count, and the AES key.
  datatype Params = Params(keyW: nat, aesKey: Block) {
    predicate Valid() {
      0 < keyW <= 224
    }

    // The words that the key takes, the last one perhaps in part.
    function KeyWords(): (n: nat)
      ensures 32 * (n - 1) < keyW <= 32 * n
    {
      (keyW + 31) / 32
    }
  }

  datatype Inputs = Inputs(
    zeroize: bool, tamperIn: bool,
    keyWrEn: bool, keyWrAddr: Addr3, keyWrData: Data, commit: bool,
    blkWrEn: bool, blkWrAddr: Addr2, blkWrData: Word,
    aesStart: bool, rdEn: bool, rdAddr: Addr2, floating: Block)

  // ----- Platform key assembly -----

  datatype Assembly = Assembly(key: A.Bits, mask: seq<bool>, doCompare: bool, commitIllegal: bool)

  function Zeros(n: nat): (bits: A.Bits)
    ensures |bits| == n
  {
    seq(n, _ => false)
  }

  function NewAssembly(p: Params): Assembly {
    Assembly(Zeros(p.keyW), Zeros(p.KeyWords()), false, false)
  }

  // One 32-bit word of the key is replaced, as far as the key reaches.
  function WriteWord(key: A.Bits, addr: Addr3, data: Data): (key': A.Bits)
    ensures |key'| == |key|
  {
    seq(|key|, j requires 0 <= j < |key| => if 32 * addr <= j < 32 * addr + 32 then data[j - 32 * addr] else key[j])
  }

  predicate AllValid(mask: seq<bool>) {
    forall a :: 0 <= a < |mask| ==> mask[a]
  }

  predicate Writes(i: Inputs, addr: int) {
    i.keyWrEn && i.keyWrAddr == addr
  }

  predicate BadWrite(p: Params, i: Inputs) {
    i.keyWrEn && i.keyWrAddr >= p.KeyWords()
  }

  function AssemblyStep(p: Params, s: Assembly, i: Inputs, clear: bool): (s': Assembly)
    requires |s.key| == p.keyW && |s.mask| == p.KeyWords()
    ensures |s'.key| == p.keyW && |s'.mask| == p.KeyWords()
  {
    if clear then NewAssembly(p)
    else
      var good := i.keyWrEn && i.keyWrAddr < p.KeyWords();
      Assembly(
        if good then WriteWord(s.key, i.keyWrAddr, i.keyWrData) else s.key,
        if i.commit then Zeros(p.KeyWords()) else if good then s.mask[i.keyWrAddr := true] else s.mask,
        i.commit && AllValid(s.mask),
        BadWrite(p, i) || (i.commit && !AllValid(s.mask)))
  }

  // ----- The whole module -----

  datatype AesCtrl = AES_NEED_INIT | AES_WAIT_INIT | AES_READY

  // The block buffer, the AES control FSM and the result buffer.
  datatype Buffers = Buffers(
    blockIn: Block, blockMask: seq<bool>, aesCtrl: AesCtrl, resultQ: Block, resultReady: bool)

  datatype Regs = Regs(asm: Assembly, auth: A.Regs, buf: Buffers, core: C.Regs)

  function NewBuffers(): Buffers {
    Buffers(ZERO_BLOCK, Zeros(4), AES_NEED_INIT, ZERO_BLOCK, false)
  }

  function Reset(p: Params): Regs {
    Regs(NewAssembly(p), A.RESET, NewBuffers(), C.RESET)
  }

  // The register lengths of a reachable state.
  predicate Shaped(p: Params, t: Regs) {
    && p.Valid()
    && |t.asm.key| == p.keyW
    && |t.asm.mask| == p.KeyWords()
    && |t.buf.blockMask| == 4
    && |t.core.km.keyMem| == KEY_MEM_WORDS
  }

  function AuthInputs(t: Regs, i: Inputs): A.Inputs {
    A.Inputs(i.zeroize, i.tamperIn, t.asm.doCompare, t.asm.commitIllegal, t.asm.key)
  }

  predicate AuthZ(t: Regs, i: Inputs) {
    A.AuthZeroize(t.auth, AuthInputs(t, i))
  }

  // The clear condition of every buffer, and the trap output.
  predicate Clear(t: Regs, i: Inputs) {
    i.zeroize || AuthZ(t, i) || t.auth.tamper.latched
  }

  predicate Trap(t: Regs, i: Inputs) {
    t.auth.tamper.latched || AuthZ(t, i)
  }

  predicate Unlocked(t: Regs) {
    A.Unlocked(t.auth)
  }

  predicate AesInit(t: Regs, i: Inputs) {
    t.buf.aesCtrl.AES_NEED_INIT? && Unlocked(t) && t.core.ready && !Trap(t, i)
  }

  predicate AesNext(t: Regs, i: Inputs) {
    t.buf.aesCtrl.AES_READY? && i.aesStart && Unlocked(t) && AllValid(t.buf.blockMask) && t.core.ready && !Trap(t, i)
  }

  // The 256-bit key bus is the AES key below 128 zeros, and the key length is 128.
  function CoreInputs(p: Params, t: Regs, i: Inputs): C.Inputs {
    C.Inputs(true, AesInit(t, i), AesNext(t, i), ZERO_BLOCK, p.aesKey, false, t.buf.blockIn, i.floating)
  }

  function BlockSlot(addr: Addr2): Addr2 {
    3 - addr
  }

  function WriteBlock(b: Block, addr: Addr2, w: Word): Block {
    if addr == 0 then b.(w0 := w)
    else if addr == 1 then b.(w1 := w)
    else if addr == 2 then b.(w2 := w)
    else b.(w3 := w)
  }

  // A finished result is captured in every cycle in which it may be shown.
  predicate Capture(t: Regs, i: Inputs) {
    t.core.resultValid && Unlocked(t) && !Trap(t, i)
  }

  function AesCtrlStep(ctrl: AesCtrl, clear: bool, unlocked: bool, coreReady: bool): AesCtrl {
    if clear || !unlocked then AES_NEED_INIT
    else match ctrl
      case AES_NEED_INIT => if coreReady then AES_WAIT_INIT else AES_NEED_INIT
      case AES_WAIT_INIT => if coreReady then AES_READY else AES_WAIT_INIT
      case AES_READY => AES_READY
  }

  function BuffersStep(b: Buffers, i: Inputs, clear: bool, unlocked: bool, coreReady: bool,
                       capture: bool, result: Block): (b': Buffers)
    requires |b.blockMask| == 4
    ensures |b'.blockMask| == 4
  {
    var ctrl := AesCtrlStep(b.aesCtrl, clear, unlocked, coreReady);
    if clear then NewBuffers().(aesCtrl := ctrl)
    else
      var blockIn := if i.blkWrEn then WriteBlock(b.blockIn, i.blkWrAddr, i.blkWrData) else b.blockIn;
      var blockMask := if i.blkWrEn then b.blockMask[BlockSlot(i.blkWrAddr) := true] else b.blockMask;
      if capture then Buffers(blockIn, blockMask, ctrl, result, true)
      else Buffers(blockIn, blockMask, ctrl, b.resultQ, b.resultReady)
  }

  function Step(p: Params, t: Regs, i: Inputs): (t': Regs)
    requires Shaped(p, t)
    ensures Shaped(p, t')
  {
    Regs(
      AssemblyStep(p, t.asm, i, Clear(t, i)),
      A.Step(t.auth, AuthInputs(t, i)),
      BuffersStep(t.buf, i, Clear(t, i), Unlocked(t), t.core.ready, Capture(t, i), C.Result(t.core, true)),
      C.Step(t.core, CoreInputs(p, t, i)))
  }

  predicate RdValid(t: Regs, i: Inputs) {
    i.rdEn && t.buf.resultReady && Unlocked(t) && !Trap(t, i)
  }

  function RdData(t: Regs, i: Inputs): Word {
    if RdValid(t, i) then t.buf.resultQ.Column(i.rdAddr) else ZERO_WORD
  }

  class SecureAesTop {
    const p: Params
    const authKeyIn: array<bool>
    var keyValidMask: seq<bool>
    var doCompare: bool
    var commitIllegal: bool
    const auth: A.AuthControllerTop
    var blockIn: Block
    var blockValidMask: seq<bool>
    var aesCtrl: AesCtrl
    const core: C.AesCore
    var resultQ: Block
    var resultReady: bool

    ghost function Repr(): set<object> {
      {this, authKeyIn, auth, auth.unitFsm} + core.Repr()
    }

    ghost predicate Valid()
      reads this, core, core.encBlock, core.decBlock, core.keymem, core.keymem.keyMem, auth, auth.unitFsm, authKeyIn
    {
      core.Valid() && authKeyIn as object !in core.Repr() && Shaped(p, Registers())
    }

    function Registers(): Regs
      reads this, core, core.encBlock, core.decBlock, core.keymem, core.keymem.keyMem, auth, auth.unitFsm, authKeyIn
    {
      Regs(Asm(), auth.Registers(), Buffer(), core.Registers())
    }

    function Asm(): Assembly
      reads this`keyValidMask, this`doCompare, this`commitIllegal, authKeyIn
    {
      Assembly(authKeyIn[..], keyValidMask, doCompare, commitIllegal)
    }

    function Buffer(): Buffers
      reads this`blockIn, this`blockValidMask, this`aesCtrl, this`resultQ, this`resultReady
    {
      Buffers(blockIn, blockValidMask, aesCtrl, resultQ, resultReady)
    }

    constructor (p: Params)
      requires p.Valid()
      ensures this.p == p && Valid() && fresh(Repr())
      ensures Registers() == Reset(p)
    {
      hide C.AesCore.Registers, A.AuthControllerTop.Registers;
      this.p := p;
      authKeyIn := new bool[p.keyW](_ => false);
      keyValidMask, doCompare, commitIllegal := Zeros(p.KeyWords()), false, false;
      auth := new A.AuthControllerTop();
      blockIn, blockValidMask := ZERO_BLOCK, Zeros(4);
      aesCtrl := AES_NEED_INIT;
      core := new C.AesCore();
      resultQ, resultReady := ZERO_BLOCK, false;
      new;
      assert authKeyIn[..] == Zeros(p.keyW);
    }

    // The bit-copy loop of a key write.
    method CopyWord(addr: Addr3, data: Data)
      modifies authKeyIn
      ensures authKeyIn[..] == WriteWord(old(authKeyIn[..]), addr, data)
    {
      for i := 0 to 32
        invariant forall j :: 0 <= j < authKeyIn.Length ==>
          authKeyIn[j] == if 32 * addr <= j < 32 * addr + i then data[j - 32 * addr] else old(authKeyIn[j])
      {
        if addr * 32 + i < authKeyIn.Length {
          authKeyIn[addr * 32 + i] := data[i];
        }
      }
    }

    // The key assembly registers.
    method AssemblyEdge(i: Inputs, clear: bool)
      requires p.Valid() && |Asm().key| == p.keyW && |Asm().mask| == p.KeyWords()
      modifies this`keyValidMask, this`doCompare, this`commitIllegal, authKeyIn
      ensures Asm() == AssemblyStep(p, old(Asm()), i, clear)
    {
      var keyAllValid := AllValid(keyValidMask);
      doCompare, commitIllegal := false, false;
      if clear {
        forall j | 0 <= j < authKeyIn.Length {
          authKeyIn[j] := false;
        }
        keyValidMask := Zeros(p.KeyWords());
        assert authKeyIn[..] == Zeros(p.keyW);
      } else {
        if i.keyWrEn {
          if i.keyWrAddr < p.KeyWords() {
            CopyWord(i.keyWrAddr, i.keyWrData);
            keyValidMask := keyValidMask[i.keyWrAddr := true];
          } else {
            commitIllegal := true;
          }
        }
        if i.commit {
          if keyAllValid {
            doCompare := true;
          } else {
            commitIllegal := true;
          }
          keyValidMask := Zeros(p.KeyWords());
        }
      }
    }

    // The block buffer, the AES control FSM and the result buffer.
    method BufferEdge(i: Inputs, clear: bool, unlocked: bool, coreReady: bool, capture: bool, result: Block)
      requires |Buffer().blockMask| == 4
      modifies this`blockIn, this`blockValidMask, this`aesCtrl, this`resultQ, this`resultReady
      ensures Buffer() == BuffersStep(old(Buffer()), i, clear, unlocked, coreReady, capture, result)
    {
      if clear {
        blockIn, blockValidMask := ZERO_BLOCK, Zeros(4);
      } else if i.blkWrEn {
        match i.blkWrAddr {
          case 0 => blockIn, blockValidMask := blockIn.(w0 := i.blkWrData), blockValidMask[3 := true];
          case 1 => blockIn, blockValidMask := blockIn.(w1 := i.blkWrData), blockValidMask[2 := true];
          case 2 => blockIn, blockValidMask := blockIn.(w2 := i.blkWrData), blockValidMask[1 := true];
          case _ => blockIn, blockValidMask := blockIn.(w3 := i.blkWrData), blockValidMask[0 := true];
        }
      }
      if clear || !unlocked {
        aesCtrl := AES_NEED_INIT;
      } else {
        match aesCtrl {
          case AES_NEED_INIT => if coreReady { aesCtrl := AES_WAIT_INIT; }
          case AES_WAIT_INIT => if coreReady { aesCtrl := AES_READY; }
          case AES_READY => aesCtrl := AES_READY;
        }
      }
      if clear {
        resultQ, resultReady := ZERO_BLOCK, false;
      } else if capture {
        resultQ, resultReady := result, true;
      }
    }

    // The submodules see the same edge.
    method SubmoduleEdges(authIn: A.Inputs, coreIn: C.Inputs)
      requires core.Valid()
      modifies auth, auth.unitFsm, core.Repr()
      ensures auth.Registers() == A.Step(old(auth.Registers()), authIn)
      ensures |old(core.Registers()).km.keyMem| == KEY_MEM_WORDS
      ensures core.Registers() == C.Step(old(core.Registers()), coreIn)
    {
      hide A.AuthControllerTop.Registers, A.Step, C.Step;
      auth.Edge(authIn);
      core.Edge(coreIn);
    }

    // The outputs of the controller and what they gate.
    method ControlWires(i: Inputs) returns (authIn: A.Inputs, clear: bool, unlocked: bool, trap: bool)
      ensures authIn == AuthInputs(Registers(), i)
      ensures clear == Clear(Registers(), i)
      ensures unlocked == Unlocked(Registers())
      ensures trap == Trap(Registers(), i)
    {
      hide C.AesCore.Registers, A.AuthZeroize, A.Unlocked, Buffer;
      authIn := A.Inputs(i.zeroize, i.tamperIn, doCompare, commitIllegal, authKeyIn[..]);
      var aesEnable, open, authZeroize, _, _ := auth.Outputs(authIn);
      unlocked := open;
      trap := auth.tamperLatched || authZeroize;
      clear := i.zeroize || authZeroize || auth.tamperLatched;
    }

    // The inputs of the AES core and the capture enable of the result buffer.
    method CoreWires(i: Inputs, unlocked: bool, trap: bool) returns (coreIn: C.Inputs, capture: bool)
      requires unlocked == Unlocked(Registers()) && trap == Trap(Registers(), i)
      ensures coreIn == CoreInputs(p, Registers(), i)
      ensures capture == Capture(Registers(), i)
    {
      hide C.AesCore.Registers, A.AuthControllerTop.Registers, Unlocked, Trap, Asm, AllValid;
      var coreRegs := core.Registers();
      capture := coreRegs.resultValid && unlocked && !trap;
      var aesInit := aesCtrl == AES_NEED_INIT && unlocked && coreRegs.ready && !trap;
      var aesNext :=
        aesCtrl == AES_READY && i.aesStart && unlocked && AllValid(blockValidMask) && coreRegs.ready && !trap;
      coreIn := C.Inputs(true, aesInit, aesNext, ZERO_BLOCK, p.aesKey, false, blockIn, i.floating);
    }

    method Edge(i: Inputs)
      requires Valid()
      modifies Repr()
      ensures Valid()
      ensures Registers() == Step(p, old(Registers()), i)
    {
      hide C.AesCore.Registers, A.AuthControllerTop.Registers, C.Step, A.Step, Asm, Buffer,
           AuthInputs, CoreInputs, Clear, Unlocked, Trap, Capture, AssemblyStep, BuffersStep, C.Result;
      var coreRegs := core.Registers();
      var authIn, clear, unlocked, trap := ControlWires(i);
      var coreIn, capture := CoreWires(i, unlocked, trap);
      SubmoduleEdges(authIn, coreIn);
      AssemblyEdge(i, clear);
      BufferEdge(i, clear, unlocked, coreRegs.ready, capture, C.Result(coreRegs, true));
    }

    // The gated read port.
    method Read(i: Inputs) returns (rdData: Word, rdValid: bool)
      requires Valid()
      ensures rdValid == RdValid(Registers(), i)
      ensures rdData == RdData(Registers(), i)
    {
      rdData, rdValid := ZERO_WORD, false;
      var aesEnable, unlocked, authZeroize, _, _ :=
        auth.Outputs(A.Inputs(i.zeroize, i.tamperIn, doCompare, commitIllegal, authKeyIn[..]));
      var trap := auth.tamperLatched || authZeroize;
      if i.rdEn && resultReady && aesEnable && unlocked && !trap {
        rdValid := true;
        match i.rdAddr {
          case 0 => rdData := resultQ.w0;
          case 1 => rdData := resultQ.w1;
          case 2 => rdData := resultQ.w2;
          case _ => rdData := resultQ.w3;
        }
      }
    }
  }
}
