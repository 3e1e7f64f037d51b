// Which received bytes the bridge takes: a timetable that is computed from the inputs
// alone, and the machine keeps to it cycle by cycle.
module BridgeTiming {
  import opened Common
  import TickGen
  import opened Uart
  import opened UartBridge
  import opened BridgeRuns
  import A = AuthController

  // ----- The timetable -----

  // The bytes taken so far, the cycle from which the bridge listens, and the cycle from
  // which the transmitter can take an answer.
  datatype Timetable = Timetable(taken: seq<Symbol>, listens: nat, free: nat)

  // A frame with the edge that hands it over.
  const ANSWER_CLOCKS := 1146

  // The header of a status answer with its handshake.
  const HEADER_CLOCKS := 1148

  function Max(a: nat, b: nat): nat {
    if a < b then b else a
  }

  // When the bridge listens again after a command that is complete in cycle n: the last
  // answer byte must have been handed to a free transmitter.
  function ListensAgain(c: Command, n: nat, free: nat): nat {
    Max(n + 2, free + 1) + if c.Status? then HEADER_CLOCKS else 0
  }

  function TamperBits(ins: seq<Input>): (s: seq<bool>)
    ensures |s| == |ins| && forall k :: 0 <= k < |ins| ==> s[k] == ins[k].tamperIn
  {
    if ins == [] then [] else TamperBits(ins[..|ins| - 1]) + [ins[|ins| - 1].tamperIn]
  }

  function Offer(before: seq<Input>, b: Byte): Symbol {
    Symbol(b, A.TamperRun(TamperBits(before)).latched)
  }

  function Take(keyW: nat, l: Timetable, x: Symbol, n: nat): (l': Timetable)
    ensures l'.taken == l.taken + [x]
  {
    var c := Completes(KeyBytes(keyW), Parse(KeyBytes(keyW), l.taken), x);
    if c == [] then l.(taken := l.taken + [x])
    else
      var again := ListensAgain(c[0], n, l.free);
      Timetable(l.taken + [x], again, again + ANSWER_CLOCKS)
  }

  function Schedule(keyW: nat, ins: seq<Input>): Timetable {
    if ins == [] then Timetable([], 0, 0)
    else
      var before, i := ins[..|ins| - 1], ins[|ins| - 1];
      var l := Schedule(keyW, before);
      if i.rx.Some? && l.listens <= |before| then Take(keyW, l, Offer(before, i.rx.value), |before|) else l
  }

  // ----- The machine against the timetable -----

  // The cycles until the transmitter can take an answer.
  function TxDue(t: Top): int {
    if t.bridge.txStart then ANSWER_CLOCKS else TxLeft(t.tx)
  }

  function Left(at: nat, n: nat): nat {
    if at > n then at - n else 0
  }

  ghost predicate OnTime(t: Top, l: Timetable, n: nat) {
    && Busy(t) == Left(l.listens, n)
    && (l.listens > n ==> l.free == l.listens + ANSWER_CLOCKS)
    && (l.listens <= n ==> TxDue(t) == Left(l.free, n))
  }

  lemma TxDueEdge(t: Top)
    requires TxInv(t.tx) && HandshakeInv(t.bridge, TxBusy(t.tx))
    ensures TxDue(t) >= 0
    ensures TxLeft(TxStep(t.tx, Start(t.bridge))) == if TxDue(t) > 0 then TxDue(t) - 1 else 0
  {
    hide TxLeft, TxStep, TxInv, ToOctet;
    TxLeftEdge(t.tx, Start(t.bridge));
    LeftMeansBusy(t.tx);
    IdleHasNothingLeft(t.tx);
  }

  lemma IdleHasNothingLeft(t: Tx)
    ensures !TxBusy(t) ==> TxLeft(t) == 0
  {
  }

  // An answer ends with tx_start.
  lemma EndsWithStart(keyW: nat, t: Top, i: Input)
    requires ValidWidth(keyW) && !Listens(t) && Listens(TopStep(keyW, t, i))
    ensures TopStep(keyW, t, i).bridge.txStart
  {
    hide A.Step, TxStep, Shown, StatusByte;
  }

  lemma BusyMeans(keyW: nat, t: Top)
    requires ValidWidth(keyW) && WaitInv(t) && HandshakeInv(t.bridge, TxBusy(t.tx))
    ensures Listens(t) <==> Busy(t) == 0
    ensures Busy(t) >= 0
  {
    hide WaitInv, HandshakeInv, TopStep, Busy, Listens;
    ListeningIsZero(t);
    BusyEdge(keyW, t, Input(None, true));
  }

  // What one cycle of a listening bridge leads to.
  lemma ListenEdge(keyW: nat, t: Top, p: Parsed, i: Input)
    requires ValidWidth(keyW) && FrameInv(keyW, t.bridge, p.open) && Listens(t)
    ensures var c, r' := NewCommands(KeyBytes(keyW), p, Takes(t, i)), BridgeNext(keyW, t, i);
      && !r'.txStart
      && (c == [] ==> r'.state.IDLE? || r'.state.LOAD_KEY_BYTES?)
      && (c != [] ==> r'.state == if c[0].Status? then SEND_STATUS_HDR else SEND_ACK)
  {
    hide BigEndian, ShiftIn, TickGen.Pow2, CountWidth, LoadStep, Shown, StatusByte;
    if t.bridge.state.LOAD_KEY_BYTES? && i.rx.Some? {
      LoadEdge(keyW, Defaults(t.bridge), p.open.value, Symbol(i.rx.value, t.auth.tamper.latched));
    }
  }

  function ScheduleNext(keyW: nat, l: Timetable, taken: seq<Symbol>, n: nat): Timetable
    requires |taken| <= 1
  {
    if taken == [] then l else Take(keyW, l, taken[0], n)
  }

  lemma AnswerTimeEdge(keyW: nat, t: Top, l: Timetable, n: nat, i: Input)
    requires ValidWidth(keyW) && WaitInv(t) && HandshakeInv(t.bridge, TxBusy(t.tx)) && OnTime(t, l, n)
    requires !Listens(t) && WaitInv(TopStep(keyW, t, i))
    requires HandshakeInv(TopStep(keyW, t, i).bridge, TxBusy(TopStep(keyW, t, i).tx))
    ensures OnTime(TopStep(keyW, t, i), l, n + 1)
  {
    hide WaitInv, HandshakeInv, TopStep, Busy, Listens, TxLeft;
    BusyMeans(keyW, t);
    BusyEdge(keyW, t, i);
    BusyMeans(keyW, TopStep(keyW, t, i));
    if Listens(TopStep(keyW, t, i)) {
      EndsWithStart(keyW, t, i);
    }
  }

  lemma ListenTimeEdge(keyW: nat, t: Top, l: Timetable, n: nat, i: Input)
    requires ValidWidth(keyW) && WaitInv(t) && HandshakeInv(t.bridge, TxBusy(t.tx)) && OnTime(t, l, n)
    requires Listens(t) && FrameInv(keyW, t.bridge, Parse(KeyBytes(keyW), l.taken).open)
    ensures OnTime(TopStep(keyW, t, i), ScheduleNext(keyW, l, Takes(t, i), n), n + 1)
  {
    hide WaitInv, HandshakeInv, TxLeft, FrameInv, Parse, Completes, Step, A.Step, TxStep, Takes, Start;
    BusyMeans(keyW, t);
    WaitParts(t);
    TxDueEdge(t);
    ListenEdge(keyW, t, Parse(KeyBytes(keyW), l.taken), i);
  }

  lemma {:induction false} TamperFollows(keyW: nat, ins: seq<Input>)
    requires ValidWidth(keyW)
    ensures TopAfter(keyW, ins).auth.tamper == A.TamperRun(TamperBits(ins))
  {
    hide Step, TxStep, Start, A.TamperStep, A.FsmStep, A.ToFsm;
    if ins != [] {
      TamperFollows(keyW, ins[..|ins| - 1]);
      assert TamperBits(ins)[..|ins| - 1] == TamperBits(ins[..|ins| - 1]);
    }
  }

  // In every run: the bytes taken are those of the timetable, and the bridge listens
  // exactly from the cycle that the timetable gives.
  lemma {:induction false} KeepsSchedule(keyW: nat, ins: seq<Input>)
    requires ValidWidth(keyW)
    ensures Taken(keyW, ins) == Schedule(keyW, ins).taken
    ensures OnTime(TopAfter(keyW, ins), Schedule(keyW, ins), |ins|)
    ensures Listens(TopAfter(keyW, ins)) <==> Schedule(keyW, ins).listens <= |ins|
  {
    hide WaitInv, HandshakeInv, FrameInv, LockInv, Parse, TopStep, Take, Busy, Listens, OnTime, ValidWidth, Owed,
         Replies;
    WaitAlways(keyW, ins);
    BusyMeans(keyW, TopAfter(keyW, ins));
    if ins == [] {
      OnTimeAtReset(keyW);
    } else {
      var before, i := ins[..|ins| - 1], ins[|ins| - 1];
      var t, l := TopAfter(keyW, before), Schedule(keyW, before);
      KeepsSchedule(keyW, before);
      WaitAlways(keyW, before);
      InvAlways(keyW, before);
      TamperFollows(keyW, before);
      TakesWhenListening(t, i);
      if Listens(t) {
        ListenTimeEdge(keyW, t, l, |before|, i);
      } else {
        AnswerTimeEdge(keyW, t, l, |before|, i);
      }
    }
    OnTimeMeans(TopAfter(keyW, ins), Schedule(keyW, ins), |ins|);
  }

  lemma TakesWhenListening(t: Top, i: Input)
    ensures Takes(t, i) == if i.rx.Some? && Listens(t) then [Symbol(i.rx.value, t.auth.tamper.latched)] else []
  {
  }

  lemma OnTimeMeans(t: Top, l: Timetable, n: nat)
    requires OnTime(t, l, n)
    ensures Busy(t) == 0 <==> l.listens <= n
  {
  }

  lemma OnTimeAtReset(keyW: nat)
    ensures OnTime(TOP_RESET, Timetable([], 0, 0), 0)
  {
  }

  // A byte that is offered in cycle n is taken if and only if the timetable of the inputs
  // before it says that the bridge listens; otherwise it is lost.
  lemma OfferedIsTaken(keyW: nat, ins: seq<Input>, n: nat)
    requires ValidWidth(keyW) && n < |ins| && ins[n].rx.Some?
    ensures Taken(keyW, ins[..n + 1]) == Taken(keyW, ins[..n])
      + if Schedule(keyW, ins[..n]).listens <= n then [Offer(ins[..n], ins[n].rx.value)] else []
  {
    hide TopAfter, Schedule, A.TamperRun, Listens;
    KeepsSchedule(keyW, ins[..n]);
    TamperFollows(keyW, ins[..n]);
    TakesWhenListening(TopAfter(keyW, ins[..n]), ins[n]);
    assert ins[..n + 1][..n] == ins[..n];
  }

  // ----- Lost bytes -----

  lemma {:induction false} SilenceKeepsSchedule(keyW: nat, ins: seq<Input>, n: nat)
    requires n <= |ins| && forall k :: n <= k < |ins| ==> ins[k].rx.None?
    ensures Schedule(keyW, ins) == Schedule(keyW, ins[..n])
    decreases |ins|
  {
    hide Take;
    if n == |ins| {
      assert ins[..n] == ins;
    } else {
      assert ins[..|ins| - 1][..n] == ins[..n];
      SilenceKeepsSchedule(keyW, ins[..|ins| - 1], n);
    }
  }

  // No command is being answered and none is half received.
  predicate AtRest(keyW: nat, ins: seq<Input>) {
    var l := Schedule(keyW, ins);
    l.listens <= |ins| && l.free <= |ins| && Parse(KeyBytes(keyW), l.taken).open.None?
  }

  // How long the bridge is deaf after a one-byte command.
  function DeafClocks(b: Byte): nat {
    if b == 0xA3 then 1150 else 2
  }

  lemma CommandAtRest(keyW: nat, ins: seq<Input>, c: nat)
    requires ValidWidth(keyW) && c < |ins| && AtRest(keyW, ins[..c])
    requires ins[c].rx.Some? && 0xA2 <= ins[c].rx.value <= 0xA5
    ensures Schedule(keyW, ins[..c + 1]).taken
         == Schedule(keyW, ins[..c]).taken + [Offer(ins[..c], ins[c].rx.value)]
    ensures Schedule(keyW, ins[..c + 1]).listens == c + DeafClocks(ins[c].rx.value)
  {
    hide Parse, A.TamperRun;
    assert ins[..c + 1][..c] == ins[..c];
  }

  // After any run that leaves the device at rest: a one-byte command, and one more byte d - c
  // cycles later.  The command is taken, and the byte is taken if and only if it comes
  // after the bridge has been deaf: 1150 cycles after a status request, 2 after another
  // command.  Otherwise it is lost.
  lemma SecondByteLost(keyW: nat, ins: seq<Input>, c: nat, d: nat)
    requires ValidWidth(keyW) && c < d < |ins| && AtRest(keyW, ins[..c])
    requires ins[c].rx.Some? && 0xA2 <= ins[c].rx.value <= 0xA5 && ins[d].rx.Some?
    requires forall k :: c < k < |ins| && k != d ==> ins[k].rx.None?
    ensures Taken(keyW, ins) == Taken(keyW, ins[..c]) + [Offer(ins[..c], ins[c].rx.value)]
      + if d - c >= DeafClocks(ins[c].rx.value) then [Offer(ins[..d], ins[d].rx.value)] else []
  {
    hide Schedule, Taken, Offer, AtRest, DeafClocks;
    CommandAtRest(keyW, ins, c);
    assert ins[..d][..c + 1] == ins[..c + 1] && ins[..d + 1][..d] == ins[..d];
    SilenceKeepsSchedule(keyW, ins[..d], c + 1);
    SilenceKeepsSchedule(keyW, ins, d + 1);
    KeepsSchedule(keyW, ins[..c]);
    KeepsSchedule(keyW, ins[..d]);
    KeepsSchedule(keyW, ins[..d + 1]);
    KeepsSchedule(keyW, ins);
    OfferedIsTaken(keyW, ins, d);
  }

  // A frame with its handover takes 1146 cycles: at that distance after a status request
  // every byte is lost.
  lemma BackToBackIsLost(keyW: nat, ins: seq<Input>, c: nat)
    requires ValidWidth(keyW) && c + 1146 < |ins| && AtRest(keyW, ins[..c])
    requires ins[c].rx == Some(0xA3) && ins[c + 1146].rx.Some?
    requires forall k :: c < k < |ins| && k != c + 1146 ==> ins[k].rx.None?
    ensures Taken(keyW, ins) == Taken(keyW, ins[..c]) + [Offer(ins[..c], 0xA3)]
  {
    hide Taken, Offer, AtRest;
    SecondByteLost(keyW, ins, c, c + 1146);
  }

  // However busy the bridge has been, after 2294 cycles without a byte it listens.
  lemma SilenceSuffices(keyW: nat, ins: seq<Input>)
    requires ValidWidth(keyW) && |ins| >= 2294
    requires forall k :: |ins| - 2294 <= k < |ins| ==> ins[k].rx.None?
    ensures Listens(TopAfter(keyW, ins))
  {
    hide Schedule, Busy, Listens, TopAfter;
    var n := |ins| - 2294;
    SilenceKeepsSchedule(keyW, ins, n);
    KeepsSchedule(keyW, ins);
    KeepsSchedule(keyW, ins[..n]);
    BusyBound(keyW, ins[..n]);
  }

  lemma BusyBound(keyW: nat, ins: seq<Input>)
    requires ValidWidth(keyW)
    ensures Busy(TopAfter(keyW, ins)) <= 2294
  {
    hide WaitInv, HandshakeInv, TopStep, Busy, Listens;
    WaitAlways(keyW, ins);
    BusyEdge(keyW, TopAfter(keyW, ins), Input(None, true));
    ListeningIsZero(TopAfter(keyW, ins));
  }
}
