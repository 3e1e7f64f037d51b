// Transmitter and receiver on one clock, the line between them: every byte that is
// sent arrives, whatever the phase of the receiver's oversampling accumulator and
// whatever the idle time between bytes.
module UartLink {
  import opened Common
  import opened TickGen
  import opened Uart

  // ----- The transmitter inside a frame -----

  // The frame as the line shows it: start bit, eight data bits, two stop bits.
  function FrameBit(data: Octet, m: nat): bool {
    if m == 0 then false else if m <= 8 then data[m - 1] else true
  }

  function TxStateAt(m: nat): TxState {
    if m == 0 then TX_START else if m <= 8 then TX_BIT(m - 1)
    else if m == 9 then TX_STOP1 else if m == 10 then TX_STOP2 else TX_IDLE
  }

  function Shifted(data: Octet, k: nat): (b: Octet)
    requires k <= 8
  {
    data[k..] + NO_BITS[..k]
  }

  // The transmitter i clocks after it has accepted a byte, during frame bit m.
  ghost predicate Sending(t: Tx, data: Octet, i: nat, m: nat) {
    && m <= 10
    && 0 <= TX_INC * i - MODULUS * m < MODULUS
    && t.acc == TX_INC * i - MODULUS * m + TX_INC
    && t.state == TxStateAt(m)
    && (m == 0 ==> t.shift == data)
    && (1 <= m <= 8 ==> t.shift == Shifted(data, m - 1))
  }

  lemma AcceptStarts(t: Tx, data: Octet)
    requires t.state.TX_IDLE?
    ensures Sending(TxStep(t, Some(data)), data, 0, 0)
  {
  }

  lemma ShiftedOnce(data: Octet, k: nat)
    requires k < 8
    ensures ShiftOut(Shifted(data, k)) == Shifted(data, k + 1)
  {
    assert data[k..][1..] == data[k + 1..] && NO_BITS[..k] + [false] == NO_BITS[..k + 1];
  }

  lemma ShiftedNot(data: Octet)
    ensures Shifted(data, 0) == data
  {
    assert data[0..] + NO_BITS[..0] == data;
  }

  // Inside a frame bit only the accumulator moves.
  lemma SendingWait(t: Tx, data: Octet, i: nat, m: nat, start: Option<Octet>)
    requires Sending(t, data, i, m) && !Tick(MODULUS, t.acc)
    ensures Sending(TxStep(t, start), data, i + 1, m)
  {
    hide Shifted, ShiftOut;
    WrapOnce(MODULUS, TX_INC, t.acc);
  }

  // A bit tick leads to the next frame bit.
  lemma SendingTick(t: Tx, data: Octet, i: nat, m: nat, start: Option<Octet>)
    requires Sending(t, data, i, m) && Tick(MODULUS, t.acc) && m < 10
    ensures Sending(TxStep(t, start), data, i + 1, m + 1)
  {
    hide Shifted, ShiftOut;
    WrapOnce(MODULUS, TX_INC, t.acc);
    ShiftedNot(data);
    if 1 <= m <= 8 {
      ShiftedOnce(data, m - 1);
    }
  }

  lemma SendingLine(t: Tx, data: Octet, i: nat, m: nat)
    requires Sending(t, data, i, m)
    ensures Line(t) == FrameBit(data, m)
    ensures TxBusy(t)
  {
  }

  lemma SendingEdge(t: Tx, data: Octet, i: nat, m: nat, start: Option<Octet>)
    requires Sending(t, data, i, m)
    ensures Line(t) == FrameBit(data, m)
    ensures var t' := TxStep(t, start);
      if Tick(MODULUS, t.acc) && m == 10 then t'.state.TX_IDLE?
      else Sending(t', data, i + 1, if Tick(MODULUS, t.acc) then m + 1 else m)
  {
    hide Shifted, ShiftOut;
    SendingLine(t, data, i, m);
    if !Tick(MODULUS, t.acc) {
      SendingWait(t, data, i, m, start);
    } else if m < 10 {
      SendingTick(t, data, i, m, start);
    }
  }

  // ----- The receiver inside a frame -----

  // How far the filter counter is from full agreement with level b.
  function Distance(cnt: Count4, b: bool): nat {
    if b then 3 - cnt else cnt
  }

  // What is known of the filter u ticks into a frame bit of level b whose first three
  // samples are clean.
  ghost predicate Tracks(f: Filter, b: bool, u: nat) {
    && (u == 1 ==> f.sync0 == b)
    && (u == 2 ==> f.sync0 == b && f.sync1 == b)
    && (u == 3 ==> f.sync0 == b && f.sync1 == b && Distance(f.cnt, b) <= 2)
    && (u == 4 ==> f.sync1 == b && Distance(f.cnt, b) <= 1)
    && (u == 5 ==> f.cnt == if b then 3 else 0)
    && (u == 6 ==> f.bit == b && Distance(f.cnt, b) <= 1)
    && (u == 7 ==> f.bit == b && Distance(f.cnt, b) <= 2)
    && (u == 8 ==> f.bit == b)
  }

  lemma TrackTick(f: Filter, b: bool, u: nat, line: bool)
    requires 1 <= u < 8 && Tracks(f, b, u)
    requires u < 3 ==> line == b
    ensures Tracks(FilterTick(f, line), b, u + 1)
  {
  }

  lemma TrackNext(f: Filter, line: bool)
    ensures Tracks(FilterTick(f, line), line, 1)
  {
  }

  predicate QuietFilter(f: Filter) {
    f.sync0 && f.sync1 && f.cnt == 3 && f.bit
  }

  // The filter before tick j of a frame, while the start bit sinks in.
  function FallingFilter(j: nat): Filter
    requires j <= 6
  {
    if j == 0 then Filter(true, true, 3, true)
    else if j == 1 then Filter(false, true, 3, true)
    else if j == 2 then Filter(false, false, 3, true)
    else if j == 3 then Filter(false, false, 2, true)
    else if j == 4 then Filter(false, false, 1, true)
    else if j == 5 then Filter(false, false, 0, true)
    else Filter(false, false, 0, false)
  }

  // The filter after w high samples in a row.
  ghost predicate Rising(f: Filter, w: nat) {
    && (w >= 1 ==> f.sync0)
    && (w >= 2 ==> f.sync1)
    && (w >= 3 ==> f.cnt >= 1)
    && (w >= 4 ==> f.cnt >= 2)
    && (w >= 5 ==> f.cnt == 3)
    && (w >= 6 ==> f.bit)
  }

  // The filter before tick j of a frame.
  ghost predicate FilterAt(f: Filter, data: Octet, j: nat) {
    if j <= 6 then f == FallingFilter(j)
    else if j < 74 then Tracks(f, FrameBit(data, (j - 2) / 8), (j - 2) % 8 + 1)
    else Rising(f, j - 73)
  }

  // What the line shows at tick j: frame bit j / 8, except near the borders of the bits.
  predicate ShowsAt(data: Octet, j: nat, line: bool) {
    && (j == 0 ==> !line)
    && (j < 73 && 1 <= j % 8 <= 6 ==> line == FrameBit(data, j / 8))
    && (j >= 73 ==> line)
  }

  lemma FilterEdge(f: Filter, data: Octet, j: nat, line: bool)
    requires FilterAt(f, data, j) && ShowsAt(data, j, line)
    ensures FilterAt(FilterTick(f, line), data, j + 1)
  {
    hide Tracks, FilterTick;
    if j <= 6 {
      FallingTick(j, line, data);
    } else if j >= 74 {
      RisingTick(f, j - 73, line);
    } else if (j - 2) % 8 == 7 {
      TrackNext(f, line);
      if j == 73 {
        TracksRises(FilterTick(f, line));
      }
    } else {
      assert (j - 1) / 8 == (j - 2) / 8 && (j - 1) % 8 == (j - 2) % 8 + 1;
      TrackTick(f, FrameBit(data, (j - 2) / 8), (j - 2) % 8 + 1, line);
    }
  }

  lemma FallingTick(j: nat, line: bool, data: Octet)
    requires j <= 6 && !line
    ensures FilterAt(FilterTick(FallingFilter(j), line), data, j + 1)
  {
  }

  lemma RisingTick(f: Filter, w: nat, line: bool)
    requires Rising(f, w) && line
    ensures Rising(FilterTick(f, line), w + 1)
  {
  }

  lemma TracksRises(f: Filter)
    requires Tracks(f, true, 1)
    ensures Rising(f, 1)
  {
  }

  // The debounced level where the receiver uses it.
  lemma BitAt(f: Filter, data: Octet, j: nat)
    requires FilterAt(f, data, j)
    ensures j < 6 ==> f.bit
    ensures j == 6 ==> !f.bit
    ensures 17 <= j <= 73 && j % 8 == 1 ==> Sampled(j) < 8 && f.bit == data[Sampled(j)]
    ensures j >= 79 ==> QuietFilter(f)
  {
    if 17 <= j <= 73 && j % 8 == 1 {
      assert (j - 2) % 8 == 7 && (j - 2) / 8 == Sampled(j) + 1;
    }
  }

  // The receiver state before tick j of a frame, when it has settled.
  function RxStateAt(j: nat): RxState {
    if j < 6 then RX_IDLE
    else if j < 10 then RX_START
    else if j < 74 then RX_BIT((j - 10) / 8)
    else if j < 82 then RX_STOP
    else RX_IDLE
  }

  // The data bits that have been sampled before tick j.
  function Sampled(j: nat): (c: nat)
    ensures c <= 8
  {
    if j < 10 then 0 else if j < 74 then (j - 10) / 8 else 8
  }

  // The state and the sampling counter before tick j; the start bit is noticed one clock
  // after tick 5, on a clock without a tick.
  ghost predicate FsmAt(s: RxState, cnt: Index8, j: nat, tick: bool) {
    && (s == RxStateAt(j) || (j == 6 && s.RX_IDLE? && !tick))
    && (1 <= j <= 6 ==> cnt == 0)
    && (6 <= j < 82 ==> cnt == (j - 6) % 8)
  }

  ghost predicate DataAt(r: Rx, data: Octet, j: nat) {
    r.data[8 - Sampled(j)..] == data[..Sampled(j)]
  }

  ghost predicate Receiving(r: Rx, data: Octet, j: nat) {
    && r.acc < MODULUS + RX_INC
    && FilterAt(r.filter, data, j)
    && FsmAt(r.state, r.osCnt, j, Tick(MODULUS, r.acc))
    && DataAt(r, data, j)
  }

  function Ahead(j: nat, tick: bool): nat {
    if tick then j + 1 else j
  }

  lemma AccEdge(acc: nat, inc: nat)
    requires acc < MODULUS + inc && 0 < inc <= MODULUS
    ensures TickGen.Step(MODULUS, inc, acc, true) == (if Tick(MODULUS, acc) then acc - MODULUS else acc) + inc
  {
    WrapOnce(MODULUS, inc, acc);
  }

  predicate SampleNow(tick: bool, cnt: Index8) {
    tick && cnt == OVERSAMPLING / 2 - 1
  }

  lemma Mod8Next(j: nat)
    requires j >= 6
    ensures (j + 1 - 6) % 8 == ((j - 6) % 8 + 1) % 8
    ensures (j - 6) % 8 == 3 <==> j % 8 == 1
  {
  }

  lemma CountTick(s: RxState, cnt: Index8, j: nat)
    requires FsmAt(s, cnt, j, true)
    ensures 1 <= j + 1 <= 6 ==> NextOsCnt(true, s, cnt) == 0
    ensures 6 <= j + 1 < 82 ==> NextOsCnt(true, s, cnt) == (j + 1 - 6) % 8
    ensures 6 <= j < 82 ==> (SampleNow(true, cnt) <==> j % 8 == 1)
  {
    hide RxStateAt;
    NotIdleAt(j);
    if j >= 6 {
      Mod8Next(j);
    }
  }

  lemma NotIdleAt(j: nat)
    ensures RxStateAt(j).RX_IDLE? <==> j < 6 || j >= 82
  {
  }

  lemma StateTick(j: nat)
    requires 6 <= j < 82
    ensures RxStateAt(j + 1) == if j % 8 == 1 then RxAfterSample(RxStateAt(j)) else RxStateAt(j)
    ensures RxStateAt(j) != RX_IDLE
  {
  }

  lemma FsmEdge(s: RxState, cnt: Index8, j: nat, bit: bool, tick: bool, tick': bool)
    requires FsmAt(s, cnt, j, tick)
    requires j < 6 || j >= 82 ==> bit
    requires j == 6 ==> !bit
    requires tick ==> !tick'
    ensures FsmAt(NextRxState(SampleNow(tick, cnt), bit, s), NextOsCnt(tick, s, cnt), Ahead(j, tick), tick')
  {
    hide RxAfterSample;
    if tick {
      CountTick(s, cnt, j);
      if 6 <= j < 82 {
        StateTick(j);
      }
    }
  }

  lemma DataEdge(r: Rx, data: Octet, j: nat, line: bool)
    requires Receiving(r, data, j)
    ensures DataAt(RxStep(r, line), data, Ahead(j, Tick(MODULUS, r.acc)))
  {
    hide FilterAt, FilterTick, TickGen.Step, NextRxState, NextOsCnt, NextRxData, FsmAt;
    BitAt(r.filter, data, j);
    DataTick(r.state, r.osCnt, j, r.filter.bit, Tick(MODULUS, r.acc), r.data, data);
  }

  lemma DataTick(s: RxState, cnt: Index8, j: nat, bit: bool, tick: bool, have: Octet, data: Octet)
    requires FsmAt(s, cnt, j, tick) && have[8 - Sampled(j)..] == data[..Sampled(j)]
    requires 17 <= j <= 73 && j % 8 == 1 ==> Sampled(j) < 8 && bit == data[Sampled(j)]
    ensures var j' := Ahead(j, tick);
      NextRxData(SampleNow(tick, cnt), bit, s, have)[8 - Sampled(j')..] == data[..Sampled(j')]
  {
    hide Sampled, RxStateAt;
    NotIdleAt(j);
    if tick && 6 <= j < 82 {
      CountTick(s, cnt, j);
      SampledTick(j);
      if j % 8 == 1 && s.RX_BIT? {
        DataShifts(have, data, Sampled(j), bit, s);
      }
    } else if tick {
      SampledStays(j);
    }
  }

  lemma SampledStays(j: nat)
    requires j < 6 || j >= 82
    ensures Sampled(j + 1) == Sampled(j)
  {
  }

  lemma SampledTick(j: nat)
    requires 6 <= j < 82
    ensures Sampled(j + 1) == if j % 8 == 1 && RxStateAt(j).RX_BIT? then Sampled(j) + 1 else Sampled(j)
    ensures RxStateAt(j).RX_BIT? && j % 8 == 1 ==> 17 <= j <= 73
  {
  }

  lemma DataShifts(have: Octet, data: Octet, c: nat, bit: bool, s: RxState)
    requires s.RX_BIT? && c < 8 && have[8 - c..] == data[..c] && bit == data[c]
    ensures NextRxData(true, bit, s, have)[8 - (c + 1)..] == data[..c + 1]
  {
    assert data[..c + 1] == data[..c] + [data[c]];
    assert (have[1..] + [bit])[8 - (c + 1)..] == have[8 - c..] + [bit];
  }

  lemma ReadyWhen(s: RxState, cnt: Index8, j: nat, bit: bool, tick: bool)
    requires FsmAt(s, cnt, j, tick)
    requires j >= 79 ==> bit
    ensures SampleNow(tick, cnt) && s.RX_STOP? && bit <==> tick && j == 81
  {
  }

  lemma DataComplete(r: Rx, data: Octet, j: nat)
    requires DataAt(r, data, j) && j >= 74
    ensures r.data == data
  {
    assert r.data[0..] == r.data && data[..8] == data;
  }

  // One clock of the receiver inside a frame: the byte comes out right after tick 81.
  lemma ReceivingEdge(r: Rx, data: Octet, j: nat, line: bool)
    requires Receiving(r, data, j)
    requires Tick(MODULUS, r.acc) ==> ShowsAt(data, j, line)
    ensures var r' := RxStep(r, line); var tick := Tick(MODULUS, r.acc);
      && Receiving(r', data, Ahead(j, tick))
      && (r'.ready <==> tick && j == 81)
      && (r'.ready ==> r'.data == data)
  {
    hide FilterAt, TickGen.Step, FilterTick, NextRxData, NextRxState, NextOsCnt, DataAt;
    AccEdge(r.acc, RX_INC);
    BitAt(r.filter, data, j);
    var tick := Tick(MODULUS, r.acc);
    FsmEdge(r.state, r.osCnt, j, r.filter.bit, tick, Tick(MODULUS, RxStep(r, line).acc));
    DataEdge(r, data, j, line);
    ReadyWhen(r.state, r.osCnt, j, r.filter.bit, tick);
    if RxStep(r, line).ready {
      DataComplete(RxStep(r, line), data, j + 1);
    }
    if Tick(MODULUS, r.acc) {
      FilterEdge(r.filter, data, j, line);
    }
  }

  // ----- The two clocks against each other -----

  // Ticks of the receiver fall into the middle of the frame bits.
  lemma TickInBit(i: nat, m: nat, j: nat, acc: nat, a0: nat)
    requires 0 <= TX_INC * i - MODULUS * m < MODULUS && m <= 10
    requires a0 < MODULUS + RX_INC && acc + MODULUS * j == a0 + RX_INC * i
    requires MODULUS <= acc < MODULUS + RX_INC
    ensures j < 73 && 1 <= j % 8 <= 6 ==> m == j / 8
    ensures j == 0 ==> m == 0
    ensures j >= 73 ==> m >= 9
  {
    var d, q := j / 8, j % 8;
    assert j == 8 * d + q;
  }

  // ----- Transmitter and receiver together -----

  datatype Link = Link(tx: Tx, rx: Rx)

  function LinkStep(l: Link, start: Option<Octet>): Link {
    Link(TxStep(l.tx, start), RxStep(l.rx, Line(l.tx)))
  }

  // One element of `starts` for each clock.
  function LinkAfter(l: Link, starts: seq<Option<Octet>>): Link {
    if starts == [] then l
    else LinkStep(LinkAfter(l, starts[..|starts| - 1]), starts[|starts| - 1])
  }

  predicate Accepts(l: Link, start: Option<Octet>) {
    start.Some? && !TxBusy(l.tx)
  }

  function Accepted(l: Link, start: Option<Octet>): seq<Octet> {
    if Accepts(l, start) then [start.value] else []
  }

  function Announced(l: Link): seq<Octet> {
    if l.rx.ready then [l.rx.data] else []
  }

  // The bytes that the transmitter accepted.
  function Sent(l: Link, starts: seq<Option<Octet>>): seq<Octet> {
    if starts == [] then []
    else
      var before := starts[..|starts| - 1];
      Sent(l, before) + Accepted(LinkAfter(l, before), starts[|starts| - 1])
  }

  // The bytes that the receiver announced, one for each clock with rx_ready high.
  function Received(l: Link, starts: seq<Option<Octet>>): seq<Octet> {
    if starts == [] then []
    else Received(l, starts[..|starts| - 1]) + Announced(LinkAfter(l, starts))
  }

  // Nothing on the way: this is the state after power-up, for every phase of the
  // receiver's accumulator and every content of its data register.
  ghost predicate Idle(l: Link) {
    && !TxBusy(l.tx)
    && l.rx.acc < MODULUS + RX_INC
    && QuietFilter(l.rx.filter)
    && l.rx.state.RX_IDLE?
  }

  lemma PowerUpIsIdle(shift: Octet, txAcc: nat, osCnt: Index8, data: Octet, ready: bool, rxAcc: nat)
    requires rxAcc < MODULUS + RX_INC
    ensures Idle(Link(Tx(TX_IDLE, shift, txAcc), Rx(Filter(true, true, 3, true), osCnt, RX_IDLE, data, ready, rxAcc)))
  {
  }

  // i clocks and j receiver ticks after the byte was accepted, during frame bit m.
  datatype Phase = Silence | InFrame(data: Octet, i: nat, m: nat, j: nat, a0: nat)

  ghost predicate At(l: Link, p: Phase) {
    match p
    case Silence => Idle(l)
    case InFrame(data, i, m, j, a0) =>
      && Sending(l.tx, data, i, m)
      && a0 < MODULUS + RX_INC && l.rx.acc + MODULUS * j == a0 + RX_INC * i
      && Receiving(l.rx, data, j)
  }

  // The byte that was accepted and is not yet announced.
  function Pending(p: Phase): seq<Octet> {
    if p.InFrame? && p.j < 82 then [p.data] else []
  }

  lemma IdleEdge(l: Link, start: Option<Octet>) returns (p: Phase)
    requires Idle(l)
    ensures At(LinkStep(l, start), p)
    ensures Announced(LinkStep(l, start)) == [] && !LinkStep(l, start).rx.ready
    ensures Pending(p) == Accepted(l, start)
    ensures p == if start.Some? then InFrame(start.value, 0, 0, 0, LinkStep(l, start).rx.acc) else Silence
  {
    hide Sending, Tracks, TickGen.Step;
    AccEdge(l.rx.acc, RX_INC);
    if start.Some? {
      p := InFrame(start.value, 0, 0, 0, LinkStep(l, start).rx.acc);
      AcceptStarts(l.tx, start.value);
    } else {
      p := Silence;
    }
  }

  // When the transmitter falls idle the receiver has long been quiet.
  lemma QuietAtEnd(r: Rx, data: Octet, j: nat)
    requires Receiving(r, data, j) && j >= 82
    ensures QuietFilter(r.filter) && r.state.RX_IDLE? && r.acc < MODULUS + RX_INC
  {
    hide FilterAt;
    BitAt(r.filter, data, j);
  }

  // The last of the 11 frame bits ends with clock 1144, after at least 82 receiver ticks.
  lemma LastClock(i: nat, m: nat, j: nat, acc: nat, a0: nat)
    requires 0 <= TX_INC * i - MODULUS * m < MODULUS && m <= 10
    requires a0 < MODULUS + RX_INC && acc + MODULUS * j == a0 + RX_INC * i && acc < MODULUS + RX_INC
    ensures i <= 1144
    ensures i == 1144 <==> m == 10 && Tick(MODULUS, TX_INC * i - MODULUS * m + TX_INC)
    ensures i == 1144 ==> j >= 82
  {
  }

  lemma SendingMeans(t: Tx, data: Octet, i: nat, m: nat)
    requires Sending(t, data, i, m)
    ensures m <= 10 && 0 <= TX_INC * i - MODULUS * m < MODULUS
    ensures t.acc == TX_INC * i - MODULUS * m + TX_INC
  {
  }

  lemma RxBound(r: Rx, data: Octet, j: nat)
    requires Receiving(r, data, j)
    ensures r.acc < MODULUS + RX_INC
  {
  }

  lemma FrameShows(data: Octet, j: nat, m: nat)
    requires j < 73 && 1 <= j % 8 <= 6 ==> m == j / 8
    requires j == 0 ==> m == 0
    requires j >= 73 ==> m >= 9
    ensures ShowsAt(data, j, FrameBit(data, m))
  {
  }

  // The receiver's side of one clock.
  lemma FrameEdgeRx(r: Rx, data: Octet, i: nat, m: nat, j: nat, a0: nat)
    requires 0 <= TX_INC * i - MODULUS * m < MODULUS && m <= 10
    requires a0 < MODULUS + RX_INC && r.acc + MODULUS * j == a0 + RX_INC * i
    requires Receiving(r, data, j)
    ensures var r' := RxStep(r, FrameBit(data, m)); var j' := Ahead(j, Tick(MODULUS, r.acc));
      && Receiving(r', data, j')
      && r'.acc + MODULUS * j' == a0 + RX_INC * (i + 1)
      && (r'.ready <==> Tick(MODULUS, r.acc) && j == 81)
      && (r'.ready ==> r'.data == data)
  {
    hide Receiving, FrameBit, TickGen.Step, FilterTick, NextOsCnt, NextRxState, NextRxData;
    RxBound(r, data, j);
    if Tick(MODULUS, r.acc) {
      TickInBit(i, m, j, r.acc, a0);
      FrameShows(data, j, m);
    }
    ReceivingEdge(r, data, j, FrameBit(data, m));
    AccEdge(r.acc, RX_INC);
  }

  lemma FrameEdge(l: Link, p: Phase, start: Option<Octet>) returns (p': Phase)
    requires p.InFrame? && At(l, p)
    ensures At(LinkStep(l, start), p')
    ensures Pending(p) == Announced(LinkStep(l, start)) + Pending(p')
    ensures Accepted(l, start) == []
    ensures p.i <= 1144
    ensures p' == Silence <==> p.i == 1144
    ensures p'.InFrame? ==> p'.data == p.data && p'.i == p.i + 1 && p'.a0 == p.a0
    ensures LinkStep(l, start).rx.ready <==> Tick(MODULUS, l.rx.acc) && p.j == 81
    ensures LinkStep(l, start).rx.ready ==> p'.InFrame? && Pending(p') == []
  {
    hide Sending, Tick, Receiving, FrameBit, RxStep, TxStep;
    var InFrame(data, i, m, j, a0) := p;
    var j', txTick := Ahead(j, Tick(MODULUS, l.rx.acc)), Tick(MODULUS, l.tx.acc);
    SendingLine(l.tx, data, i, m);
    SendingMeans(l.tx, data, i, m);
    FrameEdgeRx(l.rx, data, i, m, j, a0);
    SendingEdge(l.tx, data, i, m, start);
    RxBound(l.rx, data, j);
    LastClock(i, m, j, l.rx.acc, a0);
    if txTick && m == 10 {
      p' := Silence;
      QuietAtEnd(RxStep(l.rx, Line(l.tx)), data, j');
    } else {
      p' := InFrame(data, i + 1, if txTick then m + 1 else m, j', a0);
    }
  }

  lemma {:induction false} LinkInvariant(l: Link, starts: seq<Option<Octet>>) returns (p: Phase)
    requires Idle(l)
    ensures At(LinkAfter(l, starts), p)
    ensures Sent(l, starts) == Received(l, starts) + Pending(p)
    ensures starts != [] && LinkAfter(l, starts).rx.ready ==> p.InFrame? && Pending(p) == []
  {
    hide Idle, At, Accepted, Announced, LinkStep, Pending;
    NothingPending();
    if starts == [] {
      p := Silence;
      SilenceIsIdle(l);
    } else {
      var before, start := starts[..|starts| - 1], starts[|starts| - 1];
      var q := LinkInvariant(l, before);
      var mid := LinkAfter(l, before);
      if q == Silence {
        SilenceIsIdle(mid);
        p := IdleEdge(mid, start);
      } else {
        p := FrameEdge(mid, q, start);
      }
    }
  }

  lemma NothingPending()
    ensures Pending(Silence) == []
  {
  }

  lemma SilenceIsIdle(l: Link)
    ensures At(l, Silence) <==> Idle(l)
  {
  }

  lemma AtMeans(l: Link, p: Phase)
    requires At(l, p)
    ensures TxBusy(l.tx) <==> p.InFrame?
  {
  }

  // Whatever is offered to the transmitter and when, the receiver announces the accepted
  // bytes in order, each exactly once; only a byte whose frame is still on the line may
  // be missing at the end.
  lemma BytesArrive(l: Link, starts: seq<Option<Octet>>)
    requires Idle(l)
    ensures Received(l, starts) <= Sent(l, starts)
    ensures |Sent(l, starts)| <= |Received(l, starts)| + 1
    ensures !TxBusy(LinkAfter(l, starts).tx) ==> Received(l, starts) == Sent(l, starts) && Idle(LinkAfter(l, starts))
  {
    hide Idle, At, TxBusy, Sent, Received, LinkAfter;
    var p := LinkInvariant(l, starts);
    AtMeans(LinkAfter(l, starts), p);
    if p == Silence {
      SilenceIsIdle(LinkAfter(l, starts));
    }
  }

  // A byte is announced while its frame is still on the line, and it is then the last one
  // that was accepted.
  lemma AnnouncedInFrame(l: Link, starts: seq<Option<Octet>>)
    requires Idle(l) && starts != [] && LinkAfter(l, starts).rx.ready
    ensures TxBusy(LinkAfter(l, starts).tx) && Received(l, starts) == Sent(l, starts)
  {
    hide Idle, At, TxBusy, Sent, Received, LinkAfter, Pending;
    var p := LinkInvariant(l, starts);
    AtMeans(LinkAfter(l, starts), p);
  }

  // A frame occupies the transmitter for exactly 1145 clocks.
  lemma {:induction false} FramePhase(l: Link, data: Octet, starts: seq<Option<Octet>>) returns (p: Phase)
    requires Idle(l) && 0 < |starts| <= 1146 && starts[0] == Some(data)
    ensures At(LinkAfter(l, starts), p)
    ensures p == Silence <==> |starts| == 1146
    ensures p.InFrame? ==> p.data == data && p.i == |starts| - 1 && p.a0 == LinkAfter(l, starts[..1]).rx.acc
  {
    hide Idle, At, TxBusy;
    var before, start := starts[..|starts| - 1], starts[|starts| - 1];
    if |starts| == 1 {
      assert starts[..1] == starts;
      p := IdleEdge(l, start);
    } else {
      assert before[..1] == starts[..1];
      var q := FramePhase(l, data, before);
      p := FrameEdge(LinkAfter(l, before), q, start);
    }
  }

  lemma FrameTime(l: Link, starts: seq<Option<Octet>>)
    requires Idle(l) && 0 < |starts| <= 1146 && starts[0].Some?
    ensures TxBusy(LinkAfter(l, starts).tx) <==> |starts| <= 1145
    ensures |starts| == 1146 ==> Received(l, starts) == [starts[0].value]
  {
    hide Idle, At, TxBusy, LinkAfter, Received, Sent;
    var p := FramePhase(l, starts[0].value, starts);
    AtMeans(LinkAfter(l, starts), p);
    if |starts| == 1146 {
      BytesArrive(l, starts);
      OneSent(l, starts);
    }
  }

  // The wave form of a frame, clock by clock: a low start bit, the eight bits of the byte,
  // least significant first, and two high stop bits, each of 32768 / 315 clocks.
  lemma FrameOnLine(l: Link, starts: seq<Option<Octet>>)
    requires Idle(l) && 0 < |starts| <= 1145 && starts[0].Some?
    ensures var d, m := starts[0].value, 315 * (|starts| - 1) / 32768;
      && 0 <= m <= 10
      && Line(LinkAfter(l, starts).tx) == [false, d[0], d[1], d[2], d[3], d[4], d[5], d[6], d[7], true, true][m]
  {
    hide Idle, LinkAfter, At;
    var p := FramePhase(l, starts[0].value, starts);
    LineInFrame(LinkAfter(l, starts), p);
  }

  lemma LineInFrame(l: Link, p: Phase)
    requires p.InFrame? && At(l, p)
    ensures 0 <= TX_INC * p.i - MODULUS * p.m < MODULUS && p.m <= 10
    ensures Line(l.tx) == FrameBit(p.data, p.m)
  {
    hide Receiving, FrameBit, Shifted;
    SendingLine(l.tx, p.data, p.i, p.m);
  }

  lemma {:induction false} OneSent(l: Link, starts: seq<Option<Octet>>)
    requires Idle(l) && 0 < |starts| <= 1146 && starts[0].Some?
    ensures Sent(l, starts) == [starts[0].value]
  {
    hide At, LinkStep, QuietFilter;
    var before := starts[..|starts| - 1];
    if |starts| == 1 {
      assert Sent(l, before) == [];
    } else {
      OneSent(l, before);
      var p := FramePhase(l, starts[0].value, before);
      AtMeans(LinkAfter(l, before), p);
    }
  }

  // ----- When a byte is announced -----

  lemma AccAtLeast(acc: nat)
    ensures TickGen.Step(MODULUS, RX_INC, acc, true) >= RX_INC
  {
  }

  // The state of the accumulator decides the clock: a0 is its value in the first cycle of
  // the frame, and the byte is announced in the cycle after tick 81.
  lemma AnnounceTime(l: Link, starts: seq<Option<Octet>>)
    requires Idle(l) && 1 < |starts| <= 1146 && starts[0].Some?
    ensures var x := LinkAfter(l, starts[..1]).rx.acc + RX_INC * (|starts| - 2);
      LinkAfter(l, starts).rx.ready <==> 82 * MODULUS <= x < 82 * MODULUS + RX_INC
    ensures LinkAfter(l, starts).rx.ready ==> LinkAfter(l, starts).rx.data == starts[0].value
  {
    hide Idle, At, TxBusy, Sent, Received, LinkStep, Tick;
    var before, start := starts[..|starts| - 1], starts[|starts| - 1];
    var p := FramePhase(l, starts[0].value, before);
    assert before[..1] == starts[..1];
    var p' := FrameEdge(LinkAfter(l, before), p, start);
    PhaseMeans(LinkAfter(l, before), p);
    AccLow(l, before);
    TickWhen(LinkAfter(l, before).rx.acc, p.j, p.a0 + RX_INC * p.i);
    if LinkAfter(l, starts).rx.ready {
      AnnouncedInFrame(l, starts);
      OneSent(l, starts);
      LastAnnounced(l, starts);
    }
  }

  lemma LastAnnounced(l: Link, starts: seq<Option<Octet>>)
    requires starts != [] && LinkAfter(l, starts).rx.ready && |Received(l, starts)| == 1
    ensures Received(l, starts)[0] == LinkAfter(l, starts).rx.data
  {
    hide LinkAfter;
  }

  lemma PhaseMeans(l: Link, p: Phase)
    requires p.InFrame? && At(l, p)
    ensures l.rx.acc + MODULUS * p.j == p.a0 + RX_INC * p.i && l.rx.acc < MODULUS + RX_INC
  {
    hide Sending, FilterAt, FsmAt, DataAt;
  }

  lemma AccLow(l: Link, starts: seq<Option<Octet>>)
    requires starts != []
    ensures LinkAfter(l, starts).rx.acc >= RX_INC
  {
    hide TxStep, FilterTick, TickGen.Step, NextOsCnt, NextRxState, NextRxData;
    AccAtLeast(LinkAfter(l, starts[..|starts| - 1]).rx.acc);
  }

  lemma TickWhen(acc: nat, j: nat, x: int)
    requires RX_INC <= acc < MODULUS + RX_INC && acc + MODULUS * j == x
    ensures Tick(MODULUS, acc) && j == 81 <==> 82 * MODULUS <= x < 82 * MODULUS + RX_INC
  {
  }

  // A run in two parts.
  lemma {:induction false} LinkSplits(l: Link, a: seq<Option<Octet>>, b: seq<Option<Octet>>)
    ensures LinkAfter(l, a + b) == LinkAfter(LinkAfter(l, a), b)
    decreases |b|
  {
    hide LinkStep;
    if b == [] {
      assert a + b == a;
    } else {
      LinkSplits(l, a, b[..|b| - 1]);
      assert (a + b)[..|a + b| - 1] == a + b[..|b| - 1];
    }
  }

  // The receiver's accumulator runs freely.
  lemma {:induction false} AccRuns(l: Link, starts: seq<Option<Octet>>)
    requires l.rx.acc == 0
    ensures LinkAfter(l, starts).rx.acc == AccAfter(MODULUS, RX_INC, |starts|)
  {
    hide TxStep, FilterTick, TickGen.Step, NextOsCnt, NextRxState, NextRxData;
    if starts != [] {
      AccRuns(l, starts[..|starts| - 1]);
    }
  }
}
