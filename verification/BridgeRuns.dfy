// The bridge, the controller and the transmitter over whole runs: the byte stream is
// parsed into command frames, the frames drive a staged lock, and every command is
// answered in order.
module BridgeRuns {
  import opened Common
  import TickGen
  import opened Uart
  import opened UartBridge
  import A = AuthController

  // ----- The command language -----

  // A received byte, and whether tampering was latched in the cycle that took it.
  datatype Symbol = Symbol(byte: Byte, tampered: bool)

  datatype Command = LoadKey(key: nat) | Compare | Status(tampered: bool) | Zeroize | Illegal

  // The complete commands, and the payload so far of an unfinished key frame.
  datatype Parsed = Parsed(commands: seq<Command>, open: Option<seq<Symbol>>)

  function BigEndian(payload: seq<Symbol>): nat {
    if payload == [] then 0
    else BigEndian(payload[..|payload| - 1]) * 256 + payload[|payload| - 1].byte
  }

  // The commands of one byte; every other byte is skipped.
  function Single(s: Symbol): (c: seq<Command>)
    ensures |c| <= 1
  {
    if s.byte == 0xA2 then [Compare]
    else if s.byte == 0xA3 then [Status(s.tampered)]
    else if s.byte == 0xA4 then [Zeroize]
    else if s.byte == 0xA5 then [Illegal]
    else []
  }

  // Frame by frame from the front: a key frame is its opcode and exactly `kb` payload
  // bytes, whatever those bytes are.
  function Parse(kb: nat, s: seq<Symbol>): Parsed {
    if s == [] then Parsed([], None)
    else if s[0].byte == 0xA1 then
      if |s| <= kb then Parsed([], Some(s[1..]))
      else
        var rest := Parse(kb, s[1 + kb..]);
        Parsed([LoadKey(BigEndian(s[1..1 + kb]))] + rest.commands, rest.open)
    else
      var rest := Parse(kb, s[1..]);
      Parsed(Single(s[0]) + rest.commands, rest.open)
  }

  // The commands that one more symbol completes.
  function Completes(kb: nat, p: Parsed, s: Symbol): (c: seq<Command>)
    ensures |c| <= 1
  {
    match p.open
    case None => Single(s)
    case Some(payload) => if |payload| + 1 == kb then [LoadKey(BigEndian(payload + [s]))] else []
  }

  function OpenAfter(kb: nat, p: Parsed, s: Symbol): Option<seq<Symbol>> {
    match p.open
    case None => if s.byte == 0xA1 then Some([]) else None
    case Some(payload) => if |payload| + 1 == kb then None else Some(payload + [s])
  }

  function Extend(kb: nat, p: Parsed, s: Symbol): Parsed {
    Parsed(p.commands + Completes(kb, p, s), OpenAfter(kb, p, s))
  }

  lemma ParseOne(kb: nat, x: Symbol)
    requires kb > 0
    ensures Parse(kb, [x]) == Extend(kb, Parse(kb, []), x)
  {
    hide BigEndian;
    assert [x][1..] == [];
  }

  // An unfinished key frame takes one more payload byte, whatever it is.
  lemma ParsePayload(kb: nat, s: seq<Symbol>, x: Symbol)
    requires 0 < |s| <= kb && s[0].byte == 0xA1
    ensures Parse(kb, s + [x]) == Extend(kb, Parse(kb, s), x)
  {
    hide BigEndian, Single;
    assert (s + [x])[1..] == s[1..] + [x];
    if |s| == kb {
      assert (s + [x])[1..1 + kb] == s[1..] + [x];
      assert (s + [x])[1 + kb..] == [];
    }
  }

  lemma {:induction false} ParseExtends(kb: nat, s: seq<Symbol>, x: Symbol)
    requires kb > 0
    ensures Parse(kb, s + [x]) == Extend(kb, Parse(kb, s), x)
    decreases |s|
  {
    hide BigEndian, Single;
    if s == [] {
      assert s + [x] == [x];
      ParseOne(kb, x);
    } else if s[0].byte == 0xA1 && |s| <= kb {
      ParsePayload(kb, s, x);
    } else {
      var n := if s[0].byte == 0xA1 then 1 + kb else 1;
      assert (s + [x])[1..n] == s[1..n];
      assert (s + [x])[n..] == s[n..] + [x];
      ParseExtends(kb, s[n..], x);
    }
  }

  // ----- The abstract lock and its answers -----

  // The number of the keys that have been accepted, and the key on the key port.
  datatype Lock = Lock(stage: nat, key: nat)

  function Expected(keyW: nat, stage: nat): nat {
    (if stage == 0 then A.PK0 else if stage == 1 then A.PK1 else A.PK2) % TickGen.Pow2(keyW)
  }

  function Obey(keyW: nat, l: Lock, c: Command): Lock {
    match c
    case LoadKey(key) => l.(key := key)
    case Compare => if l.stage == 3 then l else l.(stage := if l.key == Expected(keyW, l.stage) then l.stage + 1 else 0)
    case Status(_) => l
    case Zeroize => l.(stage := 0)
    case Illegal => if l.stage == 3 then l else l.(stage := 0)
  }

  function LockAfter(keyW: nat, commands: seq<Command>): Lock {
    if commands == [] then Lock(0, 0)
    else Obey(keyW, LockAfter(keyW, commands[..|commands| - 1]), commands[|commands| - 1])
  }

  // Open only without tampering; then a status reads open, stage 3 and key 0.
  function StatusOf(stage: nat, tampered: bool): nat {
    (if stage == 3 && !tampered then 3 else 0) + (if tampered then 4 else 0) + 8 * (stage % 3) + 32 * stage
  }

  function Reply(l: Lock, c: Command): seq<nat> {
    if c.Status? then [0xD0, StatusOf(l.stage, c.tampered)] else [0x55]
  }

  function Replies(keyW: nat, commands: seq<Command>): seq<nat> {
    if commands == [] then []
    else
      var before := commands[..|commands| - 1];
      Replies(keyW, before) + Reply(LockAfter(keyW, before), commands[|commands| - 1])
  }

  // ----- What a run does -----

  // The byte that the bridge takes in this cycle; while it answers it takes none.
  function Takes(t: Top, i: Input): (taken: seq<Symbol>)
    ensures |taken| <= 1
  {
    if i.rx.Some? && (t.bridge.state.IDLE? || t.bridge.state.LOAD_KEY_BYTES?) then
      [Symbol(i.rx.value, t.auth.tamper.latched)]
    else []
  }

  function Taken(keyW: nat, ins: seq<Input>): seq<Symbol>
    requires ValidWidth(keyW)
  {
    if ins == [] then []
    else
      var before := ins[..|ins| - 1];
      Taken(keyW, before) + Takes(TopAfter(keyW, before), ins[|ins| - 1])
  }

  // The byte that the transmitter accepts in this cycle.
  function Gives(t: Top): seq<nat> {
    if t.bridge.txStart && !TxBusy(t.tx) then [t.bridge.txData] else []
  }

  function Given(keyW: nat, ins: seq<Input>): seq<nat>
    requires ValidWidth(keyW)
  {
    if ins == [] then []
    else
      var before := ins[..|ins| - 1];
      Given(keyW, before) + Gives(TopAfter(keyW, before))
  }

  // The answer bytes that the bridge still owes.
  function Owed(r: Regs): seq<nat> {
    (if r.txStart then [r.txData as nat] else []) +
    match r.state
    case SEND_ACK => [r.ackByte as nat]
    case SEND_STATUS_HDR => [0xD0, r.statusByte as nat]
    case WAIT_STATUS_HDR_BUSY => [r.statusByte as nat]
    case WAIT_STATUS_HDR_DONE => [r.statusByte as nat]
    case SEND_STATUS_BYTE => [r.statusByte as nat]
    case _ => []
  }

  // ----- The invariant -----

  // Where the parser stands, and the shift register and its byte count.
  ghost predicate FrameInv(keyW: nat, r: Regs, open: Option<seq<Symbol>>) {
    && (r.state.LOAD_KEY_BYTES? <==> open.Some?)
    && (open.Some? ==>
          |open.value| < KeyBytes(keyW) && r.byteCount == |open.value| && r.keyShift == BigEndian(open.value))
  }

  // tx_start is a pulse that meets an idle transmitter; a command pulse is only up while
  // its acknowledgement is still to be sent.
  ghost predicate HandshakeInv(r: Regs, txBusy: bool) {
    && (r.txStart ==> !txBusy && (r.state.IDLE? || r.state.WAIT_STATUS_HDR_BUSY?))
    && (r.zeroizeIn || r.doCompare || r.commitIllegal ==> r.state.SEND_ACK?)
    && r.ackByte == 0x55
  }

  // The stage that the lock enters with the pulses that are up.
  function NextStage(keyW: nat, t: Top): nat {
    A.Stage(A.FsmStep(t.auth.state, A.ToFsm(t.auth, AuthIn(keyW, t.bridge, false))))
  }

  ghost predicate LockInv(keyW: nat, t: Top, l: Lock) {
    && l.stage <= 3 && l.key < TickGen.Pow2(keyW)
    && t.bridge.authKeyIn == l.key
    && NextStage(keyW, t) == l.stage
  }

  // ----- Numbers -----

  lemma {:induction false} BigEndianBound(payload: seq<Symbol>, w: nat)
    requires 8 * |payload| <= w
    ensures BigEndian(payload) < TickGen.Pow2(w)
  {
    if payload != [] {
      BigEndianBound(payload[..|payload| - 1], w - 8);
      EightMore(w);
    }
  }

  lemma EightMore(w: nat)
    requires w >= 8
    ensures TickGen.Pow2(w) == 256 * TickGen.Pow2(w - 8)
  {
    assert TickGen.Pow2(w) == 2 * TickGen.Pow2(w - 1) == 4 * TickGen.Pow2(w - 2) == 8 * TickGen.Pow2(w - 3)
        == 16 * TickGen.Pow2(w - 4);
    assert TickGen.Pow2(w - 4) == 2 * TickGen.Pow2(w - 5) == 4 * TickGen.Pow2(w - 6) == 8 * TickGen.Pow2(w - 7);
  }

  lemma SmallMod(a: nat, m: nat)
    requires a < m
    ensures a % m == a
  {
  }

  // Shifting in a payload byte loses nothing while the frame is not complete.
  lemma ShiftsIn(keyW: nat, payload: seq<Symbol>, x: Symbol)
    requires ValidWidth(keyW) && |payload| < KeyBytes(keyW)
    ensures ShiftIn(keyW, BigEndian(payload), x.byte) == BigEndian(payload + [x])
    ensures BigEndian(payload + [x]) < TickGen.Pow2(keyW)
  {
    hide TickGen.Pow2, BigEndian;
    assert 8 * KeyBytes(keyW) <= keyW;
    BigEndianBound(payload, keyW - 8);
    BigEndianBound(payload + [x], keyW);
    BigEndianSnoc(payload, x);
    SmallMod(BigEndian(payload), TickGen.Pow2(keyW - 8));
  }

  lemma BigEndianSnoc(payload: seq<Symbol>, x: Symbol)
    ensures BigEndian(payload + [x]) == BigEndian(payload) * 256 + x.byte
  {
    assert (payload + [x])[..|payload|] == payload;
  }

  // The byte counter never wraps.
  lemma CountFits(keyW: nat, n: nat)
    requires n < KeyBytes(keyW)
    ensures n + 1 < TickGen.Pow2(CountWidth(keyW))
    ensures (n + 1) % TickGen.Pow2(CountWidth(keyW)) == n + 1
  {
    SmallMod(n + 1, TickGen.Pow2(CountWidth(keyW)));
  }

  // Casts to a width agree exactly when the numbers agree modulo its power of two.
  lemma {:induction false} CastEqual(a: nat, b: nat, w: nat)
    ensures A.Cast(a, w) == A.Cast(b, w) <==> a % TickGen.Pow2(w) == b % TickGen.Pow2(w)
    decreases w
  {
    if w > 0 {
      CastEqual(a / 2, b / 2, w - 1);
      ModHalf(a, TickGen.Pow2(w - 1));
      ModHalf(b, TickGen.Pow2(w - 1));
      var ca, cb := A.Cast(a, w), A.Cast(b, w);
      assert ca[0] == (a % 2 == 1) && cb[0] == (b % 2 == 1);
      assert ca[1..] == A.Cast(a / 2, w - 1) && cb[1..] == A.Cast(b / 2, w - 1);
    }
  }

  lemma ModHalf(a: nat, m: nat)
    requires m > 0
    ensures a % (2 * m) == 2 * (a / 2 % m) + a % 2
  {
    var h := a / 2;
    assert a == 2 * h + a % 2;
    assert h == m * (h / m) + h % m;
    var r := 2 * (h % m) + a % 2;
    assert a == (2 * m) * (h / m) + r by {
      assert 2 * (m * (h / m)) == (2 * m) * (h / m);
    }
    ModIs(a, 2 * m, h / m, r);
  }

  lemma ModIs(a: nat, m: nat, q: nat, r: nat)
    requires m > 0 && r < m && a == m * q + r
    ensures a % m == r
  {
    TickGen.QuotientIs(a, m, q, r);
    assert a == m * (a / m) + a % m;
  }

  lemma MatchMeans(keyW: nat, key: nat, stage: nat)
    requires key < TickGen.Pow2(keyW) && stage < 3
    ensures A.Match(A.Cast(key, keyW), A.PlatformKey(stage, keyW)) <==> key == Expected(keyW, stage)
  {
    hide A.Cast;
    SmallMod(key, TickGen.Pow2(keyW));
    CastEqual(key, if stage == 0 then A.PK0 else if stage == 1 then A.PK1 else A.PK2, keyW);
  }

  // ----- One clock edge -----

  function NewCommands(kb: nat, p: Parsed, taken: seq<Symbol>): seq<Command>
    requires |taken| <= 1
  {
    if taken == [] then [] else Completes(kb, p, taken[0])
  }

  function Advance(kb: nat, p: Parsed, taken: seq<Symbol>): Parsed
    requires |taken| <= 1
  {
    if taken == [] then p else Extend(kb, p, taken[0])
  }

  function BridgeNext(keyW: nat, t: Top, i: Input): Regs
    requires ValidWidth(keyW)
  {
    Step(keyW, t.bridge, i.rx, TxBusy(t.tx), Shown(keyW, t, i))
  }

  lemma LoadEdge(keyW: nat, r: Regs, payload: seq<Symbol>, x: Symbol)
    requires ValidWidth(keyW) && FrameInv(keyW, r, Some(payload))
    ensures var r' := LoadStep(keyW, r, x.byte);
      if |payload| + 1 == KeyBytes(keyW) then
        r' == r.(keyShift := BigEndian(payload + [x]), authKeyIn := BigEndian(payload + [x]),
                 ackByte := 0x55, state := SEND_ACK)
      else r' == r.(keyShift := BigEndian(payload + [x]), byteCount := |payload| + 1)
    ensures BigEndian(payload + [x]) < TickGen.Pow2(keyW)
  {
    hide BigEndian, ShiftIn, TickGen.Pow2, CountWidth;
    ShiftsIn(keyW, payload, x);
    CountFits(keyW, |payload|);
  }

  lemma FrameEdge(keyW: nat, t: Top, p: Parsed, i: Input)
    requires ValidWidth(keyW) && FrameInv(keyW, t.bridge, p.open)
    ensures FrameInv(keyW, BridgeNext(keyW, t, i), Advance(KeyBytes(keyW), p, Takes(t, i)).open)
  {
    hide BigEndian, ShiftIn, TickGen.Pow2, CountWidth, LoadStep, Shown, StatusByte;
    assert BigEndian([]) == 0 by { BigEndianEmpty(); }
    if t.bridge.state.LOAD_KEY_BYTES? && i.rx.Some? {
      LoadEdge(keyW, Defaults(t.bridge), p.open.value, Symbol(i.rx.value, t.auth.tamper.latched));
    }
  }

  lemma BigEndianEmpty()
    ensures BigEndian([]) == 0
  {
  }

  // Each command raises its own pulse, and a key frame replaces the key.
  ghost predicate PulsesFor(r: Regs, key: nat, c: seq<Command>) {
    && |c| <= 1
    && (r.zeroizeIn <==> c == [Zeroize])
    && (r.doCompare <==> c == [Compare])
    && (r.commitIllegal <==> c == [Illegal])
    && r.authKeyIn == if c != [] && c[0].LoadKey? then c[0].key else key
  }

  lemma PulseEdge(keyW: nat, t: Top, p: Parsed, i: Input)
    requires ValidWidth(keyW) && FrameInv(keyW, t.bridge, p.open)
    ensures var c := NewCommands(KeyBytes(keyW), p, Takes(t, i));
      && PulsesFor(BridgeNext(keyW, t, i), t.bridge.authKeyIn, c)
      && (c != [] && c[0].LoadKey? ==> c[0].key < TickGen.Pow2(keyW))
  {
    hide BigEndian, ShiftIn, TickGen.Pow2, CountWidth, LoadStep, Shown, StatusByte;
    if t.bridge.state.LOAD_KEY_BYTES? && i.rx.Some? {
      LoadEdge(keyW, Defaults(t.bridge), p.open.value, Symbol(i.rx.value, t.auth.tamper.latched));
    }
  }

  lemma HandshakeEdge(keyW: nat, t: Top, i: Input)
    requires ValidWidth(keyW) && HandshakeInv(t.bridge, TxBusy(t.tx))
    ensures HandshakeInv(BridgeNext(keyW, t, i), TxBusy(TxStep(t.tx, Start(t.bridge))))
  {
    hide ShiftIn, CountWidth, Shown, StatusByte, ToOctet;
    if t.bridge.txStart || TxBusy(t.tx) {
    } else {
      assert !TxBusy(TxStep(t.tx, Start(t.bridge)));
    }
  }

  // The lock obeys a command in the cycle after its pulse went up.
  lemma StageEdge(keyW: nat, state: A.State, tamper: A.Tamper, r: Regs, l: Lock, c: seq<Command>)
    requires l.stage == A.Stage(state) && l.key < TickGen.Pow2(keyW)
    requires PulsesFor(r, l.key, c)
    ensures var stage := A.Stage(A.FsmStep(state, A.ToFsm(A.Regs(state, tamper), AuthIn(keyW, r, false))));
      stage == if c == [] then l.stage else Obey(keyW, l, c[0]).stage
  {
    hide Expected, A.PlatformKey, A.Cast, TickGen.Pow2, A.Match;
    if c == [Compare] && l.stage < 3 {
      MatchMeans(keyW, l.key, l.stage);
    }
  }

  lemma LockEdge(keyW: nat, t: Top, p: Parsed, i: Input)
    requires ValidWidth(keyW) && FrameInv(keyW, t.bridge, p.open)
    requires LockInv(keyW, t, LockAfter(keyW, p.commands))
    ensures var p' := Advance(KeyBytes(keyW), p, Takes(t, i));
      LockInv(keyW, TopStep(keyW, t, i), LockAfter(keyW, p'.commands))
  {
    hide Step, A.FsmStep, A.PlatformKey, A.Cast, A.TamperStep, TickGen.Pow2, Expected, Takes, Extend, FrameInv, A.Match;
    var l, c, t' := LockAfter(keyW, p.commands), NewCommands(KeyBytes(keyW), p, Takes(t, i)), TopStep(keyW, t, i);
    PulseEdge(keyW, t, p, i);
    StageEdge(keyW, t'.auth.state, t'.auth.tamper, t'.bridge, l, c);
    AfterNew(keyW, p, Takes(t, i));
  }

  // The lock after the commands that one cycle adds.
  lemma AfterNew(keyW: nat, p: Parsed, taken: seq<Symbol>)
    requires |taken| <= 1
    ensures var c := NewCommands(KeyBytes(keyW), p, taken); var p' := Advance(KeyBytes(keyW), p, taken);
      && LockAfter(keyW, p'.commands)
         == (if c == [] then LockAfter(keyW, p.commands) else Obey(keyW, LockAfter(keyW, p.commands), c[0]))
      && Replies(keyW, p'.commands)
         == Replies(keyW, p.commands) + if c == [] then [] else Reply(LockAfter(keyW, p.commands), c[0])
  {
    hide Completes, Obey, Reply, OpenAfter;
    var c, p' := NewCommands(KeyBytes(keyW), p, taken), Advance(KeyBytes(keyW), p, taken);
    assert p'.commands == p.commands + c;
    if c == [] {
      assert p'.commands == p.commands;
    } else {
      assert p'.commands == p.commands + [c[0]];
      assert p'.commands[..|p'.commands| - 1] == p.commands;
    }
  }

  // Without a pulse the lock stays as it is and asks for no clearing.
  lemma NoPulse(state: A.State, i: A.FsmInputs)
    requires !i.zeroize && !i.doCompare && !i.commitIllegal
    ensures A.FsmStep(state, i) == state && !A.FsmZeroize(state, i)
  {
  }

  // A status byte that is taken while no pulse is up shows the state of the lock.
  lemma StatusShown(keyW: nat, t: Top, i: Input, l: Lock)
    requires LockInv(keyW, t, l)
    requires !t.bridge.zeroizeIn && !t.bridge.doCompare && !t.bridge.commitIllegal
    ensures StatusByte(Shown(keyW, t, i)) == StatusOf(l.stage, t.auth.tamper.latched)
  {
    hide A.PlatformKey, A.Cast, TickGen.Pow2, A.Match, A.FsmStep, A.FsmZeroize;
    NoPulse(t.auth.state, A.ToFsm(t.auth, AuthIn(keyW, t.bridge, i.tamperIn)));
    NoPulse(t.auth.state, A.ToFsm(t.auth, AuthIn(keyW, t.bridge, false)));
    StatusBits(t.auth.state, t.auth.tamper.latched);
  }

  lemma StatusBits(state: A.State, tampered: bool)
    ensures var open := !tampered && state.UNLOCKED?;
      StatusByte(Controller(open, open, tampered, A.KeySel(state), A.Stage(state)))
      == StatusOf(A.Stage(state), tampered)
  {
  }

  // What is owed shrinks by what is given and grows by the answers to new commands.
  lemma OwedEdge(keyW: nat, t: Top, p: Parsed, i: Input, l: Lock)
    requires ValidWidth(keyW) && FrameInv(keyW, t.bridge, p.open) && HandshakeInv(t.bridge, TxBusy(t.tx))
    requires LockInv(keyW, t, l)
    ensures var c := NewCommands(KeyBytes(keyW), p, Takes(t, i));
      && Gives(t) + Owed(BridgeNext(keyW, t, i)) == Owed(t.bridge) + if c == [] then [] else Reply(l, c[0])
  {
    hide BigEndian, ShiftIn, TickGen.Pow2, CountWidth, StatusByte, StatusOf, Shown, LoadStep, LockInv;
    if t.bridge.state.LOAD_KEY_BYTES? && i.rx.Some? {
      LoadEdge(keyW, Defaults(t.bridge), p.open.value, Symbol(i.rx.value, t.auth.tamper.latched));
    } else if t.bridge.state.IDLE? && i.rx.Some? {
      StatusShown(keyW, t, i, l);
    }
  }

  // ----- Whole runs -----

  ghost predicate Inv(keyW: nat, t: Top, p: Parsed, given: seq<nat>) {
    && FrameInv(keyW, t.bridge, p.open)
    && HandshakeInv(t.bridge, TxBusy(t.tx))
    && LockInv(keyW, t, LockAfter(keyW, p.commands))
    && given + Owed(t.bridge) == Replies(keyW, p.commands)
  }

  lemma InvAtReset(keyW: nat)
    requires ValidWidth(keyW)
    ensures Inv(keyW, TOP_RESET, Parsed([], None), [])
  {
    hide A.PlatformKey, A.Cast, A.Match;
  }

  lemma InvEdge(keyW: nat, t: Top, p: Parsed, given: seq<nat>, i: Input)
    requires ValidWidth(keyW) && Inv(keyW, t, p, given)
    ensures Inv(keyW, TopStep(keyW, t, i), Advance(KeyBytes(keyW), p, Takes(t, i)), given + Gives(t))
  {
    hide FrameInv, HandshakeInv, LockInv, Owed, Gives, Takes, Step, A.Step, TxStep, LockAfter, Replies,
         Completes, Reply,
         Extend, Start, Shown;
    var l := LockAfter(keyW, p.commands);
    FrameEdge(keyW, t, p, i);
    HandshakeEdge(keyW, t, i);
    LockEdge(keyW, t, p, i);
    OwedEdge(keyW, t, p, i, l);
    AfterNew(keyW, p, Takes(t, i));
    var c, r' := NewCommands(KeyBytes(keyW), p, Takes(t, i)), BridgeNext(keyW, t, i);
    var answer := if c == [] then [] else Reply(l, c[0]);
    assert (given + Gives(t)) + Owed(r') == given + (Gives(t) + Owed(r'));
    assert given + (Owed(t.bridge) + answer) == (given + Owed(t.bridge)) + answer;
  }

  // What the bytes taken so far say.
  function Heard(keyW: nat, ins: seq<Input>): Parsed
    requires ValidWidth(keyW)
  {
    Parse(KeyBytes(keyW), Taken(keyW, ins))
  }

  lemma HeardAdvances(keyW: nat, s: seq<Symbol>, taken: seq<Symbol>)
    requires ValidWidth(keyW) && |taken| <= 1
    ensures Parse(KeyBytes(keyW), s + taken) == Advance(KeyBytes(keyW), Parse(KeyBytes(keyW), s), taken)
  {
    hide Parse, Extend;
    if taken == [] {
      assert s + taken == s;
    } else {
      assert taken == [taken[0]];
      ParseExtends(KeyBytes(keyW), s, taken[0]);
    }
  }

  lemma {:induction false} InvAlways(keyW: nat, ins: seq<Input>)
    requires ValidWidth(keyW)
    ensures Inv(keyW, TopAfter(keyW, ins), Heard(keyW, ins), Given(keyW, ins))
  {
    hide Inv, Parse, Advance, Takes, Gives, TopStep, ValidWidth;
    if ins == [] {
      InvAtReset(keyW);
      assert Heard(keyW, ins) == Parsed([], None) by { ParseNothing(keyW); }
    } else {
      var before, i := ins[..|ins| - 1], ins[|ins| - 1];
      var t := TopAfter(keyW, before);
      InvAlways(keyW, before);
      HeardAdvances(keyW, Taken(keyW, before), Takes(t, i));
      InvEdge(keyW, t, Heard(keyW, before), Given(keyW, before), i);
    }
  }

  lemma ParseNothing(keyW: nat)
    ensures Parse(KeyBytes(keyW), []) == Parsed([], None)
  {
  }

  // In every run: the key port carries the last complete key frame, the lock stands where
  // the complete commands have put it (one cycle later, while a pulse is up), and a key
  // frame is being loaded exactly when the parser has one open.
  lemma RunFollowsParser(keyW: nat, ins: seq<Input>)
    requires ValidWidth(keyW)
    ensures var t, p := TopAfter(keyW, ins), Heard(keyW, ins); var r, l := t.bridge, LockAfter(keyW, p.commands);
      && r.authKeyIn == l.key
      && NextStage(keyW, t) == l.stage
      && (!r.zeroizeIn && !r.doCompare && !r.commitIllegal ==> A.Stage(t.auth.state) == l.stage)
      && (r.state.LOAD_KEY_BYTES? <==> p.open.Some?)
      && (p.open.Some? ==> r.byteCount == |p.open.value| < KeyBytes(keyW))
  {
    hide A.FsmStep, A.PlatformKey, A.Cast, TickGen.Pow2, A.Match, TopAfter, Heard, Given, Owed, Replies, LockAfter;
    InvAlways(keyW, ins);
    var t := TopAfter(keyW, ins);
    if !t.bridge.zeroizeIn && !t.bridge.doCompare && !t.bridge.commitIllegal {
      NoPulse(t.auth.state, A.ToFsm(t.auth, AuthIn(keyW, t.bridge, false)));
    }
  }

  // tx_start only meets an idle transmitter, so no answer byte is lost or doubled: the
  // transmitter has been given the answers in order, and when the bridge listens again
  // nothing is missing but the byte that tx_start is just handing over.
  lemma AnswersInOrder(keyW: nat, ins: seq<Input>)
    requires ValidWidth(keyW)
    ensures var t, replies := TopAfter(keyW, ins), Replies(keyW, Heard(keyW, ins).commands);
      && (t.bridge.txStart ==> !TxBusy(t.tx))
      && Given(keyW, ins) <= replies
      && |replies| <= |Given(keyW, ins)| + 2
      && (Listens(t) <==> Given(keyW, ins) + (if t.bridge.txStart then [t.bridge.txData as nat] else []) == replies)
  {
    hide LockInv, TopAfter, Heard, Given, Replies, LockAfter, FrameInv;
    InvAlways(keyW, ins);
  }

  // ----- Every answer comes to an end -----

  function FrameIndex(s: TxState): nat {
    match s
    case TX_IDLE => 11
    case TX_START => 0
    case TX_BIT(k) => k + 1
    case TX_STOP1 => 9
    case TX_STOP2 => 10
  }

  ghost predicate TxInv(t: Tx) {
    TxBusy(t) ==> TickGen.TX_INC <= t.acc < TickGen.MODULUS + TickGen.TX_INC
  }

  // The clocks until the transmitter is idle, when nothing new starts.
  function TxLeft(t: Tx): int {
    if TxBusy(t) then
      (TickGen.MODULUS * (11 - FrameIndex(t.state)) - t.acc + 2 * TickGen.TX_INC - 1) / TickGen.TX_INC
    else 0
  }

  lemma TxLeftEdge(t: Tx, start: Option<Octet>)
    requires TxInv(t)
    ensures TxInv(TxStep(t, start))
    ensures TxBusy(t) ==> 0 < TxLeft(t) <= 1145 && TxLeft(TxStep(t, start)) == TxLeft(t) - 1
    ensures !TxBusy(t) ==> TxLeft(TxStep(t, start)) == if start.Some? then 1145 else 0
  {
    hide ShiftOut;
    if TxBusy(t) {
      TickGen.WrapOnce(TickGen.MODULUS, TickGen.TX_INC, t.acc);
    }
  }

  ghost predicate WaitInv(t: Top) {
    TxInv(t.tx) && (t.bridge.state.WAIT_STATUS_HDR_BUSY? ==> TxBusy(t.tx) || t.bridge.txStart)
  }

  // The clocks until the bridge listens again.
  function Busy(t: Top): int {
    match t.bridge.state
    case SEND_ACK => TxLeft(t.tx) + 1
    case SEND_STATUS_HDR => TxLeft(t.tx) + 1 + 1148
    case WAIT_STATUS_HDR_BUSY => if TxBusy(t.tx) then TxLeft(t.tx) + 2 else 1148
    case WAIT_STATUS_HDR_DONE => TxLeft(t.tx) + 2
    case SEND_STATUS_BYTE => TxLeft(t.tx) + 1
    case _ => 0
  }

  predicate Listens(t: Top) {
    t.bridge.state.IDLE? || t.bridge.state.LOAD_KEY_BYTES?
  }

  lemma BusyEdge(keyW: nat, t: Top, i: Input)
    requires ValidWidth(keyW) && WaitInv(t) && HandshakeInv(t.bridge, TxBusy(t.tx))
    ensures WaitInv(TopStep(keyW, t, i))
    ensures !Listens(t) ==> 0 < Busy(t) <= 2294 && Busy(TopStep(keyW, t, i)) == Busy(t) - 1
  {
    hide TxStep, TxLeft, TxInv, LoadStep, IdleStep, A.Step, Shown;
    WaitParts(t);
    TxLeftEdge(t.tx, Start(t.bridge));
    TxBusyEdge(t.tx, Start(t.bridge));
    IdleLeavesWait(keyW, t, i);
  }

  lemma WaitParts(t: Top)
    requires WaitInv(t)
    ensures TxInv(t.tx) && (!TxBusy(t.tx) ==> TxLeft(t.tx) == 0)
  {
  }

  lemma TxBusyEdge(t: Tx, start: Option<Octet>)
    requires TxInv(t)
    ensures !TxBusy(t) ==> (TxBusy(TxStep(t, start)) <==> start.Some?)
    ensures TxBusy(t) && TxLeft(t) > 1 ==> TxBusy(TxStep(t, start))
    ensures TxBusy(t) && TxLeft(t) <= 1 ==> !TxBusy(TxStep(t, start))
  {
    hide ShiftOut, TxStep, TxLeft;
    TxLeftEdge(t, start);
    LeftMeansBusy(TxStep(t, start));
    if !TxBusy(t) {
      IdleStarts(t, start);
    }
  }

  lemma IdleStarts(t: Tx, start: Option<Octet>)
    requires !TxBusy(t)
    ensures TxBusy(TxStep(t, start)) <==> start.Some?
  {
  }

  lemma LeftMeansBusy(t: Tx)
    requires TxInv(t)
    ensures TxBusy(t) <==> TxLeft(t) > 0
  {
    hide TxStep;
    TxLeftEdge(t, None);
  }

  lemma IdleLeavesWait(keyW: nat, t: Top, i: Input)
    requires ValidWidth(keyW)
    ensures Listens(t) ==> !TopStep(keyW, t, i).bridge.state.WAIT_STATUS_HDR_BUSY?
  {
    hide A.Step, TxStep, Shown, StatusByte;
  }

  lemma {:induction false} WaitAlways(keyW: nat, ins: seq<Input>)
    requires ValidWidth(keyW)
    ensures WaitInv(TopAfter(keyW, ins)) && HandshakeInv(TopAfter(keyW, ins).bridge, TxBusy(TopAfter(keyW, ins).tx))
  {
    hide WaitInv, HandshakeInv, TopStep, ValidWidth;
    HandshakeAlways(keyW, ins);
    if ins == [] {
      WaitAtReset();
    } else {
      WaitAlways(keyW, ins[..|ins| - 1]);
      BusyEdge(keyW, TopAfter(keyW, ins[..|ins| - 1]), ins[|ins| - 1]);
    }
  }

  lemma WaitAtReset()
    ensures WaitInv(TOP_RESET)
  {
  }

  lemma HandshakeAlways(keyW: nat, ins: seq<Input>)
    requires ValidWidth(keyW)
    ensures HandshakeInv(TopAfter(keyW, ins).bridge, TxBusy(TopAfter(keyW, ins).tx))
  {
    hide HandshakeInv, FrameInv, LockInv, TopAfter, TxBusy;
    InvAlways(keyW, ins);
  }

  // However the inputs go on, the bridge listens again after exactly Busy clocks, and
  // that is never more than 2294.
  lemma {:induction false} AnswerEnds(keyW: nat, ins: seq<Input>, n: nat)
    requires ValidWidth(keyW) && n <= |ins| && Busy(TopAfter(keyW, ins[..n])) <= |ins| - n
    ensures 0 <= Busy(TopAfter(keyW, ins[..n])) <= 2294
    ensures Listens(TopAfter(keyW, ins[..n + Busy(TopAfter(keyW, ins[..n]))]))
    decreases |ins| - n
  {
    hide WaitInv, HandshakeInv, TopStep, ValidWidth, Busy, Listens;
    var t := TopAfter(keyW, ins[..n]);
    WaitAlways(keyW, ins[..n]);
    ListeningIsZero(t);
    if !Listens(t) {
      BusyEdge(keyW, t, if n < |ins| then ins[n] else Input(None, true));
      assert ins[..n + 1][..n] == ins[..n];
      AnswerEnds(keyW, ins, n + 1);
    }
  }

  lemma ListeningIsZero(t: Top)
    ensures Listens(t) ==> Busy(t) == 0
  {
  }
}
