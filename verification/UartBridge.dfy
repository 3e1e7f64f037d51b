// auth_uart_bridge.v: a parser of command bytes that drives the authentication
// controller and answers through the transmitter.
module UartBridge {
  import opened Common
  import TickGen
  import opened Uart
  import A = AuthController

  type Byte = x: int | 0 <= x < 256

  datatype State =
    | IDLE
    | LOAD_KEY_BYTES
    | SEND_ACK
    | SEND_STATUS_HDR
    | WAIT_STATUS_HDR_BUSY
    | WAIT_STATUS_HDR_DONE
    | SEND_STATUS_BYTE

  datatype Regs = Regs(
    state: State, keyShift: nat, byteCount: nat, authKeyIn: nat, ackByte: Byte, statusByte: Byte,
    txData: Byte, txStart: bool, zeroizeIn: bool, doCompare: bool, commitIllegal: bool)

  // What the controller shows to the bridge.
  datatype Controller = Controller(
    unlocked: bool, aesEnable: bool, authZeroize: bool, keySel: Bits2, stateDebug: Bits2)

  const RESET := Regs(IDLE, 0, 0, 0, 0x55, 0, 0, false, false, false, false)

  // The slice of the shift register must not be empty.
  predicate ValidWidth(keyW: nat) {
    keyW >= 9
  }

  function KeyBytes(keyW: nat): nat {
    keyW / 8
  }

  // $clog2(KEY_BYTES + 1)
  function CountWidth(keyW: nat): nat {
    TickGen.Bits(KeyBytes(keyW))
  }

  function ShiftIn(keyW: nat, shift: nat, b: Byte): nat
    requires ValidWidth(keyW)
  {
    shift % TickGen.Pow2(keyW - 8) * 256 + b
  }

  function Flag(b: bool): Bits2 {
    if b then 1 else 0
  }

  function StatusByte(c: Controller): Byte {
    Flag(c.unlocked) + 2 * Flag(c.aesEnable) + 4 * Flag(c.authZeroize) + 8 * c.keySel + 32 * c.stateDebug
  }

  function Defaults(r: Regs): Regs {
    r.(txStart := false, zeroizeIn := false, doCompare := false, commitIllegal := false)
  }

  function IdleStep(r: Regs, b: Byte, c: Controller): Regs {
    if b == 0xA1 then r.(keyShift := 0, byteCount := 0, state := LOAD_KEY_BYTES)
    else if b == 0xA2 then r.(doCompare := true, ackByte := 0x55, state := SEND_ACK)
    else if b == 0xA3 then r.(statusByte := StatusByte(c), state := SEND_STATUS_HDR)
    else if b == 0xA4 then r.(zeroizeIn := true, ackByte := 0x55, state := SEND_ACK)
    else if b == 0xA5 then r.(commitIllegal := true, ackByte := 0x55, state := SEND_ACK)
    else r
  }

  function LoadStep(keyW: nat, r: Regs, b: Byte): Regs
    requires ValidWidth(keyW)
  {
    var key := ShiftIn(keyW, r.keyShift, b);
    if r.byteCount == KeyBytes(keyW) - 1 then
      r.(keyShift := key, authKeyIn := key, ackByte := 0x55, state := SEND_ACK)
    else
      r.(keyShift := key, byteCount := (r.byteCount + 1) % TickGen.Pow2(CountWidth(keyW)))
  }

  function SendStep(r: Regs, txBusy: bool): Regs {
    match r.state
    case SEND_ACK =>
      if txBusy then r else r.(txData := r.ackByte, txStart := true, state := IDLE)
    case SEND_STATUS_HDR =>
      if txBusy then r else r.(txData := 0xD0, txStart := true, state := WAIT_STATUS_HDR_BUSY)
    case WAIT_STATUS_HDR_BUSY =>
      if txBusy then r.(state := WAIT_STATUS_HDR_DONE) else r
    case WAIT_STATUS_HDR_DONE =>
      if txBusy then r else r.(state := SEND_STATUS_BYTE)
    case SEND_STATUS_BYTE =>
      if txBusy then r else r.(txData := r.statusByte, txStart := true, state := IDLE)
    case _ => r
  }

  // One clock edge; `rx` is the byte on the receive port while rx_valid is high.
  function Step(keyW: nat, r: Regs, rx: Option<Byte>, txBusy: bool, c: Controller): Regs
    requires ValidWidth(keyW)
  {
    if r.state.IDLE? then (if rx.Some? then IdleStep(Defaults(r), rx.value, c) else Defaults(r))
    else if r.state.LOAD_KEY_BYTES? then (if rx.Some? then LoadStep(keyW, Defaults(r), rx.value) else Defaults(r))
    else SendStep(Defaults(r), txBusy)
  }

  class AuthUartBridge {
    const keyW: nat
    var state: State
    var keyShift: nat
    var byteCount: nat
    var authKeyIn: nat
    var ackByte: Byte
    var statusByte: Byte
    var txData: Byte
    var txStart: bool
    var zeroizeIn: bool
    var doCompare: bool
    var commitIllegal: bool

    function Registers(): Regs
      reads this
    {
      Regs(state, keyShift, byteCount, authKeyIn, ackByte, statusByte,
           txData, txStart, zeroizeIn, doCompare, commitIllegal)
    }

    constructor (keyW: nat)
      ensures Registers() == RESET && this.keyW == keyW
    {
      this.keyW := keyW;
      state, keyShift, byteCount, authKeyIn, ackByte, statusByte, txData := IDLE, 0, 0, 0, 0x55, 0, 0;
      txStart, zeroizeIn, doCompare, commitIllegal := false, false, false, false;
    }

    method IdleEdge(b: Byte, c: Controller)
      modifies this
      ensures Registers() == IdleStep(old(Registers()), b, c)
    {
      hide StatusByte;
      if b == 0xA1 {
        keyShift, byteCount, state := 0, 0, LOAD_KEY_BYTES;
      } else if b == 0xA2 {
        doCompare, ackByte, state := true, 0x55, SEND_ACK;
      } else if b == 0xA3 {
        statusByte, state := StatusByte(c), SEND_STATUS_HDR;
      } else if b == 0xA4 {
        zeroizeIn, ackByte, state := true, 0x55, SEND_ACK;
      } else if b == 0xA5 {
        commitIllegal, ackByte, state := true, 0x55, SEND_ACK;
      }
    }

    method LoadEdge(b: Byte)
      requires ValidWidth(keyW)
      modifies this
      ensures Registers() == LoadStep(keyW, old(Registers()), b)
    {
      hide ShiftIn, CountWidth;
      keyShift := ShiftIn(keyW, keyShift, b);
      if byteCount == KeyBytes(keyW) - 1 {
        authKeyIn, ackByte, state := keyShift, 0x55, SEND_ACK;
      } else {
        byteCount := (byteCount + 1) % TickGen.Pow2(CountWidth(keyW));
      }
    }

    method SendEdge(txBusy: bool)
      modifies this
      ensures Registers() == SendStep(old(Registers()), txBusy)
    {
      match state {
        case SEND_ACK =>
          if !txBusy { txData, txStart, state := ackByte, true, IDLE; }
        case SEND_STATUS_HDR =>
          if !txBusy { txData, txStart, state := 0xD0, true, WAIT_STATUS_HDR_BUSY; }
        case WAIT_STATUS_HDR_BUSY =>
          if txBusy { state := WAIT_STATUS_HDR_DONE; }
        case WAIT_STATUS_HDR_DONE =>
          if !txBusy { state := SEND_STATUS_BYTE; }
        case SEND_STATUS_BYTE =>
          if !txBusy { txData, txStart, state := statusByte, true, IDLE; }
        case _ =>
      }
    }

    method Edge(rx: Option<Byte>, txBusy: bool, c: Controller)
      requires ValidWidth(keyW)
      modifies this
      ensures Registers() == Step(keyW, old(Registers()), rx, txBusy, c)
    {
      hide IdleStep, LoadStep, SendStep;
      txStart, zeroizeIn, doCompare, commitIllegal := false, false, false, false;
      match state {
        case IDLE =>
          if rx.Some? { IdleEdge(rx.value, c); }
        case LOAD_KEY_BYTES =>
          if rx.Some? { LoadEdge(rx.value); }
        case _ =>
          SendEdge(txBusy);
      }
    }
  }

  // ----- Bridge, controller and transmitter wired together, as in top.v -----

  // A byte on the data port of the transmitter, least significant bit first.
  function ToOctet(b: Byte): Octet {
    A.Cast(b, 8)
  }

  // Bit k of the octet is the binary digit of weight 2^k.
  lemma OctetBit(b: Byte, k: nat)
    requires k < 8
    ensures ToOctet(b)[k] <==> b / TickGen.Pow2(k) % 2 == 1
  {
    hide A.Cast;
    A.CastBit(b, 8, k);
  }

  // The number that the bits of a port stand for.
  function Value(bits: seq<bool>): (v: nat)
    ensures v < TickGen.Pow2(|bits|)
  {
    if bits == [] then 0 else Flag(bits[0]) + 2 * Value(bits[1..])
  }

  lemma PowEight()
    ensures TickGen.Pow2(8) == 256
  {
    assert TickGen.Pow2(4) == 16;
  }

  // The byte on the data port of the receiver.
  function FromOctet(o: Octet): Byte {
    PowEight();
    Value(o)
  }

  lemma {:induction false} CastValue(bits: seq<bool>)
    ensures A.Cast(Value(bits), |bits|) == bits
  {
    if bits != [] {
      CastValue(bits[1..]);
      assert Value(bits) / 2 == Value(bits[1..]) && (Value(bits) % 2 == 1) == bits[0];
      assert bits == [bits[0]] + bits[1..];
    }
  }

  lemma OctetOfByte(o: Octet)
    ensures ToOctet(FromOctet(o)) == o
  {
    hide Value, A.Cast;
    CastValue(o);
  }

  datatype Top = Top(bridge: Regs, auth: A.Regs, tx: Tx)

  datatype Input = Input(rx: Option<Byte>, tamperIn: bool)

  function AuthIn(keyW: nat, r: Regs, tamperIn: bool): A.Inputs {
    A.Inputs(r.zeroizeIn, tamperIn, r.doCompare, r.commitIllegal, A.Cast(r.authKeyIn, keyW))
  }

  function Shown(keyW: nat, t: Top, i: Input): Controller {
    var authIn := AuthIn(keyW, t.bridge, i.tamperIn);
    Controller(A.Unlocked(t.auth), A.Unlocked(t.auth), A.AuthZeroize(t.auth, authIn),
               A.KeySel(t.auth.state), A.Stage(t.auth.state))
  }

  function Start(r: Regs): Option<Octet> {
    if r.txStart then Some(ToOctet(r.txData)) else None
  }

  function TopStep(keyW: nat, t: Top, i: Input): Top
    requires ValidWidth(keyW)
  {
    Top(
      Step(keyW, t.bridge, i.rx, TxBusy(t.tx), Shown(keyW, t, i)),
      A.Step(t.auth, AuthIn(keyW, t.bridge, i.tamperIn)),
      TxStep(t.tx, Start(t.bridge)))
  }

  const TOP_RESET := Top(RESET, A.RESET, Tx(TX_IDLE, NO_BITS, 0))

  function TopAfter(keyW: nat, ins: seq<Input>): Top
    requires ValidWidth(keyW)
  {
    if ins == [] then TOP_RESET else TopStep(keyW, TopAfter(keyW, ins[..|ins| - 1]), ins[|ins| - 1])
  }

  // The receiver in front of them.
  datatype Chip = Chip(rx: Rx, top: Top)

  // What the receiver shows to the bridge.
  function RxPort(r: Rx): Option<Byte> {
    if r.ready then Some(FromOctet(r.data)) else None
  }

  function ChipStep(keyW: nat, c: Chip, line: bool, tamperIn: bool): Chip
    requires ValidWidth(keyW)
  {
    Chip(RxStep(c.rx, line), TopStep(keyW, c.top, Input(RxPort(c.rx), tamperIn)))
  }

  class UartTop {
    const keyW: nat
    const unitUartRx: UartRx
    const unitUartTx: UartTx
    const unitBridge: AuthUartBridge
    const unitController: A.AuthControllerTop

    ghost predicate Valid()
      reads this, unitUartTx, unitUartTx.tickgen, unitUartRx, unitUartRx.tickgen
    {
      && ValidWidth(keyW) && unitBridge.keyW == keyW
      && unitUartTx.Valid() && unitUartRx.Valid() && unitUartTx.tickgen != unitUartRx.tickgen
    }

    function Core(): Top
      reads this, unitBridge, unitController, unitController.unitFsm, unitUartTx, unitUartTx.tickgen
    {
      Top(unitBridge.Registers(), unitController.Registers(), unitUartTx.State())
    }

    function State(): Chip
      reads this, unitBridge, unitController, unitController.unitFsm
      reads unitUartTx, unitUartTx.tickgen, unitUartRx, unitUartRx.tickgen
    {
      Chip(unitUartRx.State(), Core())
    }

    constructor (keyW: nat)
      requires ValidWidth(keyW)
      ensures Valid()
      ensures State() == Chip(Rx(Filter(true, true, 3, true), 0, RX_IDLE, NO_BITS, false, 0), TOP_RESET)
      ensures fresh(unitBridge) && fresh(unitController) && fresh(unitController.unitFsm)
      ensures fresh(unitUartTx) && fresh(unitUartTx.tickgen) && fresh(unitUartRx) && fresh(unitUartRx.tickgen)
    {
      this.keyW := keyW;
      unitUartRx := new UartRx();
      unitUartTx := new UartTx();
      unitBridge := new AuthUartBridge(keyW);
      unitController := new A.AuthControllerTop();
    }

    // Bridge, controller and transmitter.
    method CoreEdge(i: Input)
      requires Valid()
      modifies unitBridge, unitController, unitController.unitFsm, unitUartTx, unitUartTx.tickgen
      ensures Valid()
      ensures Core() == TopStep(keyW, old(Core()), i)
    {
      hide Step, A.Step, TxStep, A.AuthZeroize, A.Unlocked;
      var r := unitBridge.Registers();
      var authIn := AuthIn(keyW, r, i.tamperIn);
      var aesEnable, unlocked, authZeroize, keySel, stateDebug := unitController.Outputs(authIn);
      var txBusy := TxBusy(unitUartTx.State());
      unitUartTx.Edge(Start(r));
      unitController.Edge(authIn);
      unitBridge.Edge(i.rx, txBusy, Controller(unlocked, aesEnable, authZeroize, keySel, stateDebug));
    }

    // One clock edge, with the levels of the RX and TAMPER_IN pins.
    method Edge(line: bool, tamperIn: bool)
      requires Valid()
      modifies unitBridge, unitController, unitController.unitFsm
      modifies unitUartTx, unitUartTx.tickgen, unitUartRx, unitUartRx.tickgen
      ensures Valid()
      ensures State() == ChipStep(keyW, old(State()), line, tamperIn)
    {
      hide TopStep, RxStep, AuthUartBridge.Registers, A.AuthControllerTop.Registers;
      var port := RxPort(unitUartRx.State());
      CoreEdge(Input(port, tamperIn));
      unitUartRx.Edge(line);
    }
  }
}
