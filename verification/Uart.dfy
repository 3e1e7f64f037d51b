// uart_tx.v and uart_rx.v, as instantiated: 12 MHz clock, 115200 baud, and a receiver
// that oversamples eight times.  A byte is its eight bits, least significant first.
module Uart {
  import opened Common
  import opened TickGen

  const NO_BITS: seq<bool> := [false, false, false, false, false, false, false, false]

  type Octet = b: seq<bool> | |b| == 8 witness NO_BITS
  type Index8 = x: int | 0 <= x < 8

  // ----- uart_tx.v -----

  datatype TxState = TX_IDLE | TX_START | TX_BIT(k: Index8) | TX_STOP1 | TX_STOP2

  datatype Tx = Tx(state: TxState, shift: Octet, acc: nat)

  predicate TxBusy(t: Tx) {
    !t.state.TX_IDLE?
  }

  // The tx line.
  predicate Line(t: Tx) {
    t.state.TX_IDLE? || t.state.TX_STOP1? || t.state.TX_STOP2? || (t.state.TX_BIT? && t.shift[0])
  }

  function ShiftOut(b: Octet): Octet {
    b[1..] + [false]
  }

  // The state that a bit tick leads to.
  function TxAfterTick(s: TxState): TxState {
    match s
    case TX_IDLE => TX_IDLE
    case TX_START => TX_BIT(0)
    case TX_BIT(k) => if k < 7 then TX_BIT(k + 1) else TX_STOP1
    case TX_STOP1 => TX_STOP2
    case TX_STOP2 => TX_IDLE
  }

  // One clock edge; `start` is the byte on the data port while tx_start is high.
  function TxStep(t: Tx, start: Option<Octet>): Tx {
    var tick := Tick(MODULUS, t.acc);
    Tx(
      if t.state.TX_IDLE? then (if start.Some? then TX_START else TX_IDLE)
      else if tick then TxAfterTick(t.state) else t.state,
      if t.state.TX_IDLE? && start.Some? then start.value
      else if t.state.TX_BIT? && tick then ShiftOut(t.shift) else t.shift,
      TickGen.Step(MODULUS, TX_INC, t.acc, TxBusy(t)))
  }

  class UartTx {
    const tickgen: BaudTickGen
    var txState: TxState
    var txShift: Octet

    ghost predicate Valid()
      reads this, tickgen
    {
      tickgen.Valid() && tickgen.m == MODULUS && tickgen.inc == TX_INC
    }

    function State(): Tx
      reads this, tickgen
    {
      Tx(txState, txShift, tickgen.acc)
    }

    constructor ()
      ensures Valid() && fresh(tickgen)
      ensures State() == Tx(TX_IDLE, NO_BITS, 0)
    {
      tickgen := new BaudTickGen(MODULUS, TX_INC);
      txState, txShift := TX_IDLE, NO_BITS;
    }

    method Edge(start: Option<Octet>)
      requires Valid()
      modifies this, tickgen
      ensures Valid()
      ensures State() == TxStep(old(State()), start)
    {
      var bitTick := Tick(MODULUS, tickgen.acc);
      var txReady := txState == TX_IDLE;
      tickgen.Edge(!txReady);
      if txReady && start.Some? {
        txShift := start.value;
      } else if txState.TX_BIT? && bitTick {
        txShift := ShiftOut(txShift);
      }
      match txState {
        case TX_IDLE => if start.Some? { txState := TX_START; }
        case TX_START => if bitTick { txState := TX_BIT(0); }
        case TX_BIT(k) => if bitTick { txState := if k == 7 then TX_STOP1 else TX_BIT(k + 1); }
        case TX_STOP1 => if bitTick { txState := TX_STOP2; }
        case TX_STOP2 => if bitTick { txState := TX_IDLE; }
      }
    }
  }

  // ----- uart_rx.v -----

  datatype RxState = RX_IDLE | RX_START | RX_BIT(k: Index8) | RX_STOP

  type Count4 = x: int | 0 <= x < 4

  // The synchroniser and the filter.
  datatype Filter = Filter(sync0: bool, sync1: bool, cnt: Count4, bit: bool)

  datatype Rx = Rx(filter: Filter, osCnt: Index8, state: RxState, data: Octet, ready: bool, acc: nat)

  function FilterTick(f: Filter, line: bool): Filter {
    Filter(
      line, f.sync0,
      if f.sync1 && f.cnt < 3 then f.cnt + 1 else if !f.sync1 && f.cnt > 0 then f.cnt - 1 else f.cnt,
      if f.cnt == 3 then true else if f.cnt == 0 then false else f.bit)
  }

  function RxAfterSample(s: RxState): RxState {
    match s
    case RX_IDLE => RX_IDLE
    case RX_START => RX_BIT(0)
    case RX_BIT(k) => if k < 7 then RX_BIT(k + 1) else RX_STOP
    case RX_STOP => RX_IDLE
  }

  function NextOsCnt(osTick: bool, s: RxState, cnt: Index8): Index8 {
    if !osTick then cnt else if s.RX_IDLE? then 0 else (cnt + 1) % 8
  }

  function NextRxState(sampleNow: bool, bit: bool, s: RxState): RxState {
    if s.RX_IDLE? then (if bit then RX_IDLE else RX_START) else if sampleNow then RxAfterSample(s) else s
  }

  function NextRxData(sampleNow: bool, bit: bool, s: RxState, data: Octet): Octet {
    if sampleNow && s.RX_BIT? then data[1..] + [bit] else data
  }

  // One clock edge, with the level of the line.
  function RxStep(r: Rx, line: bool): Rx {
    var osTick := Tick(MODULUS, r.acc);
    var sampleNow := osTick && r.osCnt == OVERSAMPLING / 2 - 1;
    Rx(
      if osTick then FilterTick(r.filter, line) else r.filter,
      NextOsCnt(osTick, r.state, r.osCnt),
      NextRxState(sampleNow, r.filter.bit, r.state),
      NextRxData(sampleNow, r.filter.bit, r.state, r.data),
      sampleNow && r.state.RX_STOP? && r.filter.bit,
      TickGen.Step(MODULUS, RX_INC, r.acc, true))
  }

  class UartRx {
    const tickgen: BaudTickGen
    var rxSync0: bool
    var rxSync1: bool
    var filterCnt: Count4
    var rxBit: bool
    var osCnt: Index8
    var rxState: RxState
    var rxData: Octet
    var rxReady: bool

    ghost predicate Valid()
      reads this, tickgen
    {
      tickgen.Valid() && tickgen.m == MODULUS && tickgen.inc == RX_INC
    }

    function State(): Rx
      reads this, tickgen
    {
      Rx(Filter(rxSync0, rxSync1, filterCnt, rxBit), osCnt, rxState, rxData, rxReady, tickgen.acc)
    }

    constructor ()
      ensures Valid() && fresh(tickgen)
      ensures State() == Rx(Filter(true, true, 3, true), 0, RX_IDLE, NO_BITS, false, 0)
    {
      tickgen := new BaudTickGen(MODULUS, RX_INC);
      rxSync0, rxSync1, filterCnt, rxBit := true, true, 3, true;
      osCnt, rxState, rxData, rxReady := 0, RX_IDLE, NO_BITS, false;
    }

    function CurrentFilter(): Filter
      reads this`rxSync0, this`rxSync1, this`filterCnt, this`rxBit
    {
      Filter(rxSync0, rxSync1, filterCnt, rxBit)
    }

    // The edge of the synchroniser and of the filter.
    method FilterEdge(osTick: bool, line: bool)
      modifies this`rxSync0, this`rxSync1, this`filterCnt, this`rxBit
      ensures CurrentFilter() == if osTick then FilterTick(old(CurrentFilter()), line) else old(CurrentFilter())
    {
      if osTick {
        var sync1, cnt := rxSync1, filterCnt;
        rxSync0, rxSync1 := line, rxSync0;
        if sync1 && cnt != 3 { filterCnt := cnt + 1; }
        if !sync1 && cnt != 0 { filterCnt := cnt - 1; }
        if cnt == 3 { rxBit := true; } else if cnt == 0 { rxBit := false; }
      }
    }

    // The edge of the sampling counter, of the state and of the output registers.
    method FrameEdge(osTick: bool, bit: bool)
      modifies this`osCnt, this`rxState, this`rxData, this`rxReady
      ensures osCnt == NextOsCnt(osTick, old(rxState), old(osCnt))
      ensures var sampleNow := osTick && old(osCnt) == OVERSAMPLING / 2 - 1;
        && rxState == NextRxState(sampleNow, bit, old(rxState))
        && rxData == NextRxData(sampleNow, bit, old(rxState), old(rxData))
        && rxReady == (sampleNow && old(rxState).RX_STOP? && bit)
    {
      var sampleNow, state := osTick && osCnt == OVERSAMPLING / 2 - 1, rxState;
      if osTick { osCnt := if state == RX_IDLE then 0 else (osCnt + 1) % 8; }
      match state {
        case RX_IDLE => if !bit { rxState := RX_START; }
        case RX_START => if sampleNow { rxState := RX_BIT(0); }
        case RX_BIT(k) => if sampleNow { rxState := if k == 7 then RX_STOP else RX_BIT(k + 1); }
        case RX_STOP => if sampleNow { rxState := RX_IDLE; }
      }
      if sampleNow && state.RX_BIT? {
        rxData := rxData[1..] + [bit];
      }
      rxReady := sampleNow && state == RX_STOP && bit;
    }

    method Edge(line: bool)
      requires Valid()
      modifies this, tickgen
      ensures Valid()
      ensures State() == RxStep(old(State()), line)
    {
      hide FilterTick, NextOsCnt, NextRxState, NextRxData, TickGen.Step;
      var osTick, bit := Tick(MODULUS, tickgen.acc), rxBit;
      tickgen.Edge(true);
      FilterEdge(osTick, line);
      FrameEdge(osTick, bit);
    }
  }
}
