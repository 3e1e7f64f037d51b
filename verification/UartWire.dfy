// Host and device on two serial lines: a host that waits for the answers it owes itself
// has every byte taken, and what it hears is the state of the lock.
module UartWire {
  import opened Common
  import TickGen
  import opened Uart
  import opened UartLink
  import opened UartBridge
  import opened BridgeRuns
  import opened BridgeSessions
  import BridgeTiming
  import A = AuthController

  // ----- The whole system -----

  // The host's transmitter, the device, and the host's receiver.
  datatype Wire = Wire(host: Tx, chip: Chip, listener: Rx)

  // What the host and the tamper pin do in one cycle.
  datatype Act = Act(send: Option<Byte>, tamperIn: bool)

  function SendPort(a: Act): Option<Octet> {
    if a.send.Some? then Some(ToOctet(a.send.value)) else None
  }

  function WireStep(keyW: nat, w: Wire, a: Act): Wire
    requires ValidWidth(keyW)
  {
    Wire(
      TxStep(w.host, SendPort(a)),
      ChipStep(keyW, w.chip, Line(w.host), a.tamperIn),
      RxStep(w.listener, Line(w.chip.top.tx)))
  }

  function WireAfter(keyW: nat, w: Wire, acts: seq<Act>): Wire
    requires ValidWidth(keyW)
  {
    if acts == [] then w else WireStep(keyW, WireAfter(keyW, w, acts[..|acts| - 1]), acts[|acts| - 1])
  }

  // The device after reset, both lines quiet, both receivers in any phase.
  ghost predicate PowerUp(w: Wire) {
    && Idle(Link(w.host, w.chip.rx)) && !w.chip.rx.ready
    && w.chip.top == TOP_RESET
    && Idle(Link(TOP_RESET.tx, w.listener))
  }

  // The power-up registers of transmitter and receiver are such a state.
  lemma RegistersAtPowerUp(a: nat, b: nat)
    requires a < TickGen.MODULUS + TickGen.RX_INC && b < TickGen.MODULUS + TickGen.RX_INC
    ensures var rx := Rx(Filter(true, true, 3, true), 0, RX_IDLE, NO_BITS, false, a);
      PowerUp(Wire(Tx(TX_IDLE, NO_BITS, 0), Chip(rx, TOP_RESET), rx.(acc := b)))
  {
    hide Idle;
    PowerUpIsIdle(NO_BITS, 0, 0, NO_BITS, false, a);
    PowerUpIsIdle(NO_BITS, 0, 0, NO_BITS, false, b);
  }

  // ----- What the host sees -----

  // The bytes that its transmitter has accepted.
  function HostSent(keyW: nat, w: Wire, acts: seq<Act>): seq<Byte>
    requires ValidWidth(keyW)
  {
    if acts == [] then []
    else
      var before, a := acts[..|acts| - 1], acts[|acts| - 1];
      HostSent(keyW, w, before) + if Sends(WireAfter(keyW, w, before), a) then [a.send.value] else []
  }

  predicate Sends(w: Wire, a: Act) {
    a.send.Some? && !TxBusy(w.host)
  }

  // The octets that its receiver has announced.
  function HostHeard(keyW: nat, w: Wire, acts: seq<Act>): seq<Octet>
    requires ValidWidth(keyW)
  {
    if acts == [] then []
    else
      var rx := WireAfter(keyW, w, acts).listener;
      HostHeard(keyW, w, acts[..|acts| - 1]) + if rx.ready then [rx.data] else []
  }

  // The answer bytes that commands call for.
  function ReplyCount(c: seq<Command>): nat {
    if c == [] then 0 else ReplyCount(c[..|c| - 1]) + if c[|c| - 1].Status? then 2 else 1
  }

  // A byte may be started inside a key frame, and otherwise when every answer to the
  // commands sent so far has been heard.
  predicate MayStart(kb: nat, sent: seq<Byte>, heard: seq<Octet>) {
    var p := Parse(kb, Plain(sent));
    p.open.Some? || |heard| >= ReplyCount(p.commands)
  }

  predicate Waits(keyW: nat, w: Wire, acts: seq<Act>)
    requires ValidWidth(keyW)
  {
    acts == [] ||
    var before := acts[..|acts| - 1];
    && Waits(keyW, w, before)
    && (Sends(WireAfter(keyW, w, before), acts[|acts| - 1]) ==>
          MayStart(KeyBytes(keyW), HostSent(keyW, w, before), HostHeard(keyW, w, before)))
  }

  // ----- The two links and the device inside the system -----

  function SendPorts(acts: seq<Act>): (s: seq<Option<Octet>>)
    ensures |s| == |acts|
  {
    if acts == [] then [] else SendPorts(acts[..|acts| - 1]) + [SendPort(acts[|acts| - 1])]
  }

  // The inputs of the device core.
  function CoreIns(keyW: nat, w: Wire, acts: seq<Act>): (ins: seq<Input>)
    requires ValidWidth(keyW)
    ensures |ins| == |acts|
  {
    if acts == [] then []
    else
      var before := acts[..|acts| - 1];
      CoreIns(keyW, w, before) + [Input(RxPort(WireAfter(keyW, w, before).chip.rx), acts[|acts| - 1].tamperIn)]
  }

  // The bytes that the bridge has taken.
  function TakenBytes(keyW: nat, w: Wire, acts: seq<Act>): seq<Byte>
    requires ValidWidth(keyW)
  {
    Bytes(Taken(keyW, CoreIns(keyW, w, acts)))
  }

  lemma {:induction false} LinksInside(keyW: nat, w: Wire, acts: seq<Act>)
    requires ValidWidth(keyW) && w.chip.top == TOP_RESET
    ensures var v, ins := WireAfter(keyW, w, acts), CoreIns(keyW, w, acts);
      && Link(v.host, v.chip.rx) == LinkAfter(Link(w.host, w.chip.rx), SendPorts(acts))
      && v.chip.top == TopAfter(keyW, ins)
      && Link(v.chip.top.tx, v.listener) == LinkAfter(Link(TOP_RESET.tx, w.listener), Starts(keyW, ins))
  {
    hide TxStep, RxStep, Step, A.Step, ToOctet, FromOctet, ValidWidth;
    if acts != [] {
      var before, ins := acts[..|acts| - 1], CoreIns(keyW, w, acts);
      LinksInside(keyW, w, before);
      assert ins[..|ins| - 1] == CoreIns(keyW, w, before);
      assert SendPorts(acts)[..|acts| - 1] == SendPorts(before);
      assert Starts(keyW, ins)[..|ins| - 1] == Starts(keyW, CoreIns(keyW, w, before));
    }
  }

  lemma {:induction false} LogsInside(keyW: nat, w: Wire, acts: seq<Act>)
    requires ValidWidth(keyW) && w.chip.top == TOP_RESET
    ensures Sent(Link(w.host, w.chip.rx), SendPorts(acts)) == Octets(HostSent(keyW, w, acts))
    ensures Received(Link(TOP_RESET.tx, w.listener), Starts(keyW, CoreIns(keyW, w, acts))) == HostHeard(keyW, w, acts)
  {
    hide WireStep, LinkStep, TopStep, ToOctet, FromOctet, ValidWidth, LinkAfter, WireAfter, TopAfter, TxBusy, RxPort;
    if acts != [] {
      var before, ins, h := acts[..|acts| - 1], CoreIns(keyW, w, acts), HostSent(keyW, w, acts);
      LogsInside(keyW, w, before);
      LinksInside(keyW, w, before);
      LinksInside(keyW, w, acts);
      assert ins[..|ins| - 1] == CoreIns(keyW, w, before);
      assert SendPorts(acts)[..|acts| - 1] == SendPorts(before);
      assert Starts(keyW, ins)[..|ins| - 1] == Starts(keyW, CoreIns(keyW, w, before));
      if Sends(WireAfter(keyW, w, before), acts[|acts| - 1]) {
        assert h[..|h| - 1] == HostSent(keyW, w, before);
      }
    }
  }

  // ----- The host's account of the commands -----

  ghost predicate SameShape(p: Parsed, q: Parsed) {
    && ReplyCount(p.commands) == ReplyCount(q.commands)
    && (p.open.Some? <==> q.open.Some?)
    && (p.open.Some? ==> |p.open.value| == |q.open.value|)
  }

  lemma CompletesShape(kb: nat, p: Parsed, q: Parsed, x: Symbol)
    requires SameShape(p, q)
    ensures var c, d := Completes(kb, p, x), Completes(kb, q, Symbol(x.byte, false));
      |c| == |d| && (c != [] ==> (c[0].Status? <==> d[0].Status?))
  {
    hide BigEndian, ReplyCount;
  }

  lemma ExtendShape(kb: nat, p: Parsed, q: Parsed, x: Symbol)
    requires SameShape(p, q)
    ensures SameShape(Extend(kb, p, x), Extend(kb, q, Symbol(x.byte, false)))
  {
    hide BigEndian, ReplyCount, Completes;
    CompletesShape(kb, p, q, x);
    CountMore(p.commands, Completes(kb, p, x));
    CountMore(q.commands, Completes(kb, q, Symbol(x.byte, false)));
  }

  lemma CountMore(c: seq<Command>, d: seq<Command>)
    requires |d| <= 1
    ensures ReplyCount(c + d) == ReplyCount(c) + if d == [] then 0 else if d[0].Status? then 2 else 1
  {
    if d == [] {
      assert c + d == c;
    } else {
      assert (c + d)[..|c|] == c;
    }
  }

  // The host and the device parse alike; only the device knows of tampering.
  lemma {:induction false} HostParsesAlike(kb: nat, s: seq<Symbol>)
    requires kb > 0
    ensures SameShape(Parse(kb, s), Parse(kb, Plain(Bytes(s))))
  {
    hide Extend, Parse;
    if s == [] {
      NothingParsed(kb);
    } else {
      var front, x := s[..|s| - 1], s[|s| - 1];
      HostParsesAlike(kb, front);
      ParseExtends(kb, front, x);
      assert s == front + [x];
      assert Plain(Bytes(s)) == Plain(Bytes(front)) + [Symbol(x.byte, false)];
      ParseExtends(kb, Plain(Bytes(front)), Symbol(x.byte, false));
      ExtendShape(kb, Parse(kb, front), Parse(kb, Plain(Bytes(front))), x);
    }
  }

  lemma NothingParsed(kb: nat)
    ensures SameShape(Parse(kb, []), Parse(kb, Plain(Bytes([]))))
  {
  }

  lemma {:induction false} RepliesCounted(keyW: nat, c: seq<Command>)
    ensures |Replies(keyW, c)| == ReplyCount(c)
  {
    hide LockAfter, StatusOf;
    if c != [] {
      RepliesCounted(keyW, c[..|c| - 1]);
    }
  }

  // ----- A waiting host is heard -----

  // All that the receiver has announced is taken, but for what it announces just now; and
  // while a byte is under way the bridge listens.
  ghost predicate HeardInv(keyW: nat, w: Wire, acts: seq<Act>)
    requires ValidWidth(keyW)
  {
    var v, taken := WireAfter(keyW, w, acts), Taken(keyW, CoreIns(keyW, w, acts));
    && Received(Link(w.host, w.chip.rx), SendPorts(acts))
       == Octets(Bytes(taken)) + (if v.chip.rx.ready then [v.chip.rx.data] else [])
    && (|HostSent(keyW, w, acts)| > |taken| ==> Listens(v.chip.top))
  }

  // How far the host is ahead of the device.
  lemma UnderWay(keyW: nat, w: Wire, acts: seq<Act>)
    requires ValidWidth(keyW) && PowerUp(w) && HeardInv(keyW, w, acts)
    ensures var v, taken, sent := WireAfter(keyW, w, acts), TakenBytes(keyW, w, acts), HostSent(keyW, w, acts);
      && taken <= sent && |sent| <= |taken| + 1
      && (!TxBusy(v.host) ==> taken == sent && !v.chip.rx.ready)
      && (v.chip.rx.ready ==> |sent| == |taken| + 1)
  {
    hide Idle, Taken, Octets, Bytes, Sent, Received, LinkAfter, TxBusy, CoreIns, SendPorts, HostSent,
         HostHeard, TopAfter,
         Starts, ValidWidth;
    var l, starts := Link(w.host, w.chip.rx), SendPorts(acts);
    var v, taken, sent := WireAfter(keyW, w, acts), TakenBytes(keyW, w, acts), HostSent(keyW, w, acts);
    LinksInside(keyW, w, acts);
    LogsInside(keyW, w, acts);
    BytesArrive(l, starts);
    NotReadyAtStart(keyW, w, acts);
    if v.chip.rx.ready {
      AnnouncedInFrame(l, starts);
    }
    OctetsExact(taken, sent);
  }

  lemma NotReadyAtStart(keyW: nat, w: Wire, acts: seq<Act>)
    requires ValidWidth(keyW) && PowerUp(w)
    ensures acts == [] ==> !WireAfter(keyW, w, acts).chip.rx.ready
    ensures acts != [] ==> SendPorts(acts) != []
  {
    hide Idle, WireStep;
  }

  lemma NothingOwedListens(r: Regs)
    ensures Owed(r) == [] ==> r.state.IDLE? || r.state.LOAD_KEY_BYTES?
  {
  }

  // When the device has taken all that was sent and the host may start, the bridge listens.
  lemma MayStartListens(keyW: nat, w: Wire, acts: seq<Act>)
    requires ValidWidth(keyW) && PowerUp(w)
    requires TakenBytes(keyW, w, acts) == HostSent(keyW, w, acts)
    requires MayStart(KeyBytes(keyW), HostSent(keyW, w, acts), HostHeard(keyW, w, acts))
    ensures Listens(WireAfter(keyW, w, acts).chip.top)
  {
    hide Idle, Taken, Octets, Bytes, Sent, Received, LinkAfter, TxBusy, CoreIns, SendPorts, HostSent,
         HostHeard, TopAfter,
         Starts, LockInv, HandshakeInv, Parse, Plain, Given, Replies, ReplyCount, Owed, LockAfter;
    var ins := CoreIns(keyW, w, acts);
    LinksInside(keyW, w, acts);
    LogsInside(keyW, w, acts);
    InvAlways(keyW, ins);
    HostParsesAlike(KeyBytes(keyW), Taken(keyW, ins));
    WireFollows(keyW, ins, w.listener);
    BytesArrive(Link(TOP_RESET.tx, w.listener), Starts(keyW, ins));
    RepliesCounted(keyW, Heard(keyW, ins).commands);
    NothingOwedListens(TopAfter(keyW, ins).bridge);
  }

  lemma SilentListens(keyW: nat, t: Top, i: Input)
    requires ValidWidth(keyW) && Listens(t) && i.rx.None?
    ensures Listens(TopStep(keyW, t, i)) && Takes(t, i) == []
  {
    hide A.Step, TxStep, Shown;
  }

  lemma {:induction false} HeardInvAlways(keyW: nat, w: Wire, acts: seq<Act>)
    requires ValidWidth(keyW) && PowerUp(w) && Waits(keyW, w, acts)
    ensures HeardInv(keyW, w, acts)
  {
    hide *;
    if acts == [] {
      HeardAtStart(keyW, w);
    } else {
      WaitsBefore(keyW, w, acts);
      HeardInvAlways(keyW, w, acts[..|acts| - 1]);
      HeardEdge(keyW, w, acts);
    }
  }

  lemma HeardAtStart(keyW: nat, w: Wire)
    requires ValidWidth(keyW) && PowerUp(w)
    ensures HeardInv(keyW, w, [])
  {
    hide Idle;
  }

  lemma WaitsBefore(keyW: nat, w: Wire, acts: seq<Act>)
    requires ValidWidth(keyW) && Waits(keyW, w, acts) && acts != []
    ensures var before := acts[..|acts| - 1];
      && Waits(keyW, w, before)
      && (Sends(WireAfter(keyW, w, before), acts[|acts| - 1]) ==>
            MayStart(KeyBytes(keyW), HostSent(keyW, w, before), HostHeard(keyW, w, before)))
  {
    hide MayStart, WireAfter, HostSent, HostHeard;
  }

  // What one more act adds to each log.
  lemma OneMore(keyW: nat, w: Wire, acts: seq<Act>)
    requires ValidWidth(keyW) && w.chip.top == TOP_RESET && acts != []
    ensures var before, a := acts[..|acts| - 1], acts[|acts| - 1];
      var v, v', l := WireAfter(keyW, w, before), WireAfter(keyW, w, acts), Link(w.host, w.chip.rx);
      var i := Input(RxPort(v.chip.rx), a.tamperIn);
      && v'.chip.top == TopStep(keyW, v.chip.top, i)
      && Taken(keyW, CoreIns(keyW, w, acts)) == Taken(keyW, CoreIns(keyW, w, before)) + Takes(v.chip.top, i)
      && Received(l, SendPorts(acts))
         == Received(l, SendPorts(before)) + (if v'.chip.rx.ready then [v'.chip.rx.data] else [])
      && HostSent(keyW, w, acts) == HostSent(keyW, w, before) + (if Sends(v, a) then [a.send.value] else [])
  {
    hide TxStep, RxStep, TopStep, LinkStep, Takes, TxBusy, FromOctet, ToOctet, RxPort, ValidWidth, TopAfter, LinkAfter;
    var before := acts[..|acts| - 1];
    LinksInside(keyW, w, before);
    LinksInside(keyW, w, acts);
    var ins, starts := CoreIns(keyW, w, acts), SendPorts(acts);
    assert ins[..|ins| - 1] == CoreIns(keyW, w, before);
    assert starts[..|starts| - 1] == SendPorts(before);
  }

  lemma TakesWhatIsAnnounced(t: Top, r: Rx, tamperIn: bool)
    requires r.ready ==> Listens(t)
    ensures var taken := Takes(t, Input(RxPort(r), tamperIn));
      && |taken| == (if r.ready then 1 else 0)
      && (r.ready ==> ToOctet(taken[0].byte) == r.data)
  {
    hide ToOctet, FromOctet;
    OctetOfByte(r.data);
  }

  lemma HeardEdge(keyW: nat, w: Wire, acts: seq<Act>)
    requires ValidWidth(keyW) && PowerUp(w) && acts != []
    requires var before := acts[..|acts| - 1];
      && HeardInv(keyW, w, before)
      && (Sends(WireAfter(keyW, w, before), acts[|acts| - 1]) ==>
            MayStart(KeyBytes(keyW), HostSent(keyW, w, before), HostHeard(keyW, w, before)))
    ensures HeardInv(keyW, w, acts)
  {
    hide Idle, WireAfter, Taken, CoreIns, Received, SendPorts, HostSent, HostHeard, Octets, Bytes, Takes,
         TopStep, RxPort,
         MayStart, Listens, TxBusy, ValidWidth;
    var before, a := acts[..|acts| - 1], acts[|acts| - 1];
    var v := WireAfter(keyW, w, before);
    var taken, i := Taken(keyW, CoreIns(keyW, w, before)), Input(RxPort(v.chip.rx), a.tamperIn);
    UnderWay(keyW, w, before);
    OneMore(keyW, w, acts);
    TakesWhatIsAnnounced(v.chip.top, v.chip.rx, a.tamperIn);
    OctetsSnoc(taken, Takes(v.chip.top, i));
    NoPortNoByte(v.chip.rx);
    if !v.chip.rx.ready {
      if Sends(v, a) {
        MayStartListens(keyW, w, before);
      }
      if Listens(v.chip.top) {
        SilentListens(keyW, v.chip.top, i);
      }
    }
  }

  lemma NoPortNoByte(r: Rx)
    ensures RxPort(r).Some? <==> r.ready
  {
    hide FromOctet;
  }

  // A host that waits for the answers is never overheard: every byte that the receiver
  // announces meets a listening bridge, and the bytes taken are the bytes sent, in order,
  // but for one that is still under way.
  lemma HostIsHeard(keyW: nat, w: Wire, acts: seq<Act>)
    requires ValidWidth(keyW) && PowerUp(w) && Waits(keyW, w, acts)
    ensures var v, taken, sent := WireAfter(keyW, w, acts), TakenBytes(keyW, w, acts), HostSent(keyW, w, acts);
      && (v.chip.rx.ready ==> Listens(v.chip.top))
      && taken <= sent && |sent| <= |taken| + 1
      && (!TxBusy(v.host) ==> taken == sent)
  {
    hide Idle, WireAfter, Taken, CoreIns, Received, SendPorts, HostSent, Octets, Bytes, Listens, TxBusy,
         ValidWidth, Waits;
    HeardInvAlways(keyW, w, acts);
    UnderWay(keyW, w, acts);
  }

  // ----- An unlock session over the wire -----

  // What a stream of symbols that ends with a session does to the lock.
  lemma SessionSymbols(keyW: nat, s: seq<Symbol>, before: seq<Byte>, f: seq<seq<Byte>>, n: seq<nat>,
                       k0: int, k1: int, k2: int)
    requires ValidWidth(keyW) && keyW % 8 == 0 && |n| == 7 && KeyFrames(keyW, f, k0, k1, k2)
    requires Parse(KeyBytes(keyW), Plain(before)).open.None?
    requires Bytes(s) == before + SessionBytes(f, n)
    ensures Parse(KeyBytes(keyW), s).open.None?
    ensures LockAfter(keyW, Parse(KeyBytes(keyW), s).commands).stage == 3 <==> RightKeys(keyW, k0, k1, k2)
  {
    hide Parse, LockAfter, LoadKeyFrame, RightKeys, Bytes, Plain, SessionBytes;
    assert [] + SessionBytes(f, n) == SessionBytes(f, n);
    assert before + [] == before;
    var t, x := Cut(s, before, [], SessionBytes(f, n));
    HostParsesAlike(KeyBytes(keyW), t);
    SessionLock(keyW, t, x, f, n, k0, k1, k2);
  }

  // Whatever the host has sent, KEY_BYTES status requests end any open key frame.
  lemma HostResyncs(kb: nat, history: seq<Byte>, m: nat)
    requires kb > 0 && m >= kb
    ensures Parse(kb, Plain(history + Statuses(m))).open.None?
  {
    hide Parse;
    var s, g := Plain(history), Plain(Statuses(m));
    assert Bytes(g) == Statuses(m);
    assert Plain(history + Statuses(m)) == s + g;
    StatusesResync(kb, s, g);
  }

  // Over the wire, with any history and any timing of a waiting host: once the session is
  // sent the lock is open if and only if it presented the three platform keys in order.
  lemma WireUnlocks(keyW: nat, w: Wire, acts: seq<Act>, before: seq<Byte>, f: seq<seq<Byte>>, n: seq<nat>,
                    k0: int, k1: int, k2: int)
    requires ValidWidth(keyW) && keyW % 8 == 0 && |n| == 7 && KeyFrames(keyW, f, k0, k1, k2)
    requires PowerUp(w) && Waits(keyW, w, acts) && !TxBusy(WireAfter(keyW, w, acts).host)
    requires Parse(KeyBytes(keyW), Plain(before)).open.None?
    requires HostSent(keyW, w, acts) == before + SessionBytes(f, n)
    ensures NextStage(keyW, WireAfter(keyW, w, acts).chip.top) == 3 <==> RightKeys(keyW, k0, k1, k2)
  {
    hide Idle, WireAfter, Taken, CoreIns, HostSent, Bytes, Listens, TxBusy, Waits, Parse, LoadKeyFrame, SessionBytes,
         NextStage, TopAfter, RightKeys, LockAfter;
    HostIsHeard(keyW, w, acts);
    SessionSymbols(keyW, Taken(keyW, CoreIns(keyW, w, acts)), before, f, n, k0, k1, k2);
    RunFollowsParser(keyW, CoreIns(keyW, w, acts));
    LinksInside(keyW, w, acts);
  }

  // The two bytes that the driver reads last.
  function LastStatus(heard: seq<Octet>): Result<DriverStatus> {
    if |heard| < 2 then Err("Error: Expected 2 bytes of data")
    else FromBytes([FromOctet(heard[|heard| - 2]) as nat, FromOctet(heard[|heard| - 1]) as nat])
  }

  // The device's answers, when the host has heard all of them.
  lemma HeardAll(keyW: nat, w: Wire, acts: seq<Act>)
    requires ValidWidth(keyW) && PowerUp(w)
    requires TakenBytes(keyW, w, acts) == HostSent(keyW, w, acts)
    requires |HostHeard(keyW, w, acts)| >= ReplyCount(Parse(KeyBytes(keyW), Plain(HostSent(keyW, w, acts))).commands)
    ensures var h, r := HostHeard(keyW, w, acts), Replies(keyW, Heard(keyW, CoreIns(keyW, w, acts)).commands);
      |h| == |r| && forall k :: 0 <= k < |h| ==> r[k] < 256 && h[k] == ToOctet(r[k])
  {
    hide Idle, Taken, Bytes, CoreIns, HostSent, HostHeard, TopAfter, Starts, Parse, Plain, Replies, ReplyCount, ToOctet,
         Received, Listens;
    var ins := CoreIns(keyW, w, acts);
    LogsInside(keyW, w, acts);
    HostParsesAlike(KeyBytes(keyW), Taken(keyW, ins));
    AnswersAreHeard(keyW, ins, w.listener);
    RepliesCounted(keyW, Heard(keyW, ins).commands);
  }

  lemma StatusReply(keyW: nat, s: seq<Symbol>, x: Symbol)
    requires ValidWidth(keyW) && Parse(KeyBytes(keyW), s).open.None? && x.byte == 0xA3
    ensures var c := Parse(KeyBytes(keyW), s).commands; var l := LockAfter(keyW, c);
      Replies(keyW, Parse(KeyBytes(keyW), s + [x]).commands) == Replies(keyW, c) + Reply(l, Status(x.tampered))
  {
    hide Parse, Reply, LockAfter;
    ParseSplits(KeyBytes(keyW), s, [x]);
    ParseByte(KeyBytes(keyW), x);
    var c := Parse(KeyBytes(keyW), s).commands;
    assert (c + [Status(x.tampered)])[..|c|] == c;
  }

  lemma {:induction false} TamperIsSeen(keyW: nat, ins: seq<Input>, k: nat)
    requires ValidWidth(keyW) && k < |Taken(keyW, ins)| && Taken(keyW, ins)[k].tampered
    ensures exists j :: 0 <= j < |ins| && !ins[j].tamperIn
  {
    hide TopAfter, A.TamperRun, Listens;
    var before, n := ins[..|ins| - 1], |ins| - 1;
    if k < |Taken(keyW, before)| {
      TamperIsSeen(keyW, before, k);
      var j :| 0 <= j < |before| && !before[j].tamperIn;
      assert !ins[j].tamperIn;
    } else {
      BridgeTiming.TamperFollows(keyW, before);
      A.TamperLatchExact(BridgeTiming.TamperBits(before));
      BridgeTiming.TakesWhenListening(TopAfter(keyW, before), ins[n]);
      var j :| 0xFFFE <= j < n - 2 && !BridgeTiming.TamperBits(before)[j];
      assert !ins[j].tamperIn;
    }
  }

  // A status request that the host has sent last, when every answer has been heard: what
  // the driver reads is the state of the lock after everything before the request.
  lemma WireStatus(keyW: nat, w: Wire, acts: seq<Act>, before: seq<Byte>) returns (s: seq<Symbol>, x: Symbol)
    requires ValidWidth(keyW)
    requires PowerUp(w) && Waits(keyW, w, acts) && !TxBusy(WireAfter(keyW, w, acts).host)
    requires Parse(KeyBytes(keyW), Plain(before)).open.None?
    requires HostSent(keyW, w, acts) == before + [0xA3]
    requires |HostHeard(keyW, w, acts)| >= ReplyCount(Parse(KeyBytes(keyW), Plain(HostSent(keyW, w, acts))).commands)
    ensures Taken(keyW, CoreIns(keyW, w, acts)) == s + [x] && Bytes(s) == before && x.byte == 0xA3
    ensures x.tampered ==> exists k :: 0 <= k < |acts| && !acts[k].tamperIn
    ensures var l := LockAfter(keyW, Parse(KeyBytes(keyW), s).commands);
      l.stage <= 3 && LastStatus(HostHeard(keyW, w, acts)) == FromBytes(Reply(l, Status(x.tampered)))
  {
    hide Idle, WireAfter, Taken, CoreIns, HostSent, HostHeard, Bytes, Listens, TxBusy, Waits, Parse, LockAfter, Replies,
         ReplyCount, Plain, ToOctet, FromOctet, FromBytes, Reply, LastStatus;
    var ins := CoreIns(keyW, w, acts);
    var taken, sent := Taken(keyW, ins), HostSent(keyW, w, acts);
    HostIsHeard(keyW, w, acts);
    var n := |sent| - 1;
    s, x := taken[..n], taken[n];
    assert taken == s + [x];
    assert Bytes(s) == sent[..n] == before;
    HostParsesAlike(KeyBytes(keyW), s);
    StatusReply(keyW, s, x);
    HeardAll(keyW, w, acts);
    var l := LockAfter(keyW, Parse(KeyBytes(keyW), s).commands);
    StageBound(keyW, Parse(KeyBytes(keyW), s).commands);
    TwoBytes(l, x.tampered);
    LastTwo(HostHeard(keyW, w, acts), Replies(keyW, Parse(KeyBytes(keyW), s).commands), Reply(l, Status(x.tampered)));
    if x.tampered {
      TamperIsSeen(keyW, ins, n);
      TamperPins(keyW, w, acts);
    }
  }

  // An unlock session that ends with a status request, when every answer has been heard:
  // the status decodes, and classify_stage3 says "unlocked" if and only if the three
  // platform keys were presented in order and no tampering was latched when the request
  // was taken.
  lemma WireVerdict(keyW: nat, w: Wire, acts: seq<Act>, before: seq<Byte>, f: seq<seq<Byte>>, n: seq<nat>,
                    k0: int, k1: int, k2: int)
    requires ValidWidth(keyW) && keyW % 8 == 0 && |n| == 7 && n[6] > 0 && KeyFrames(keyW, f, k0, k1, k2)
    requires PowerUp(w) && Waits(keyW, w, acts) && !TxBusy(WireAfter(keyW, w, acts).host)
    requires Parse(KeyBytes(keyW), Plain(before)).open.None?
    requires HostSent(keyW, w, acts) == before + SessionBytes(f, n)
    requires |HostHeard(keyW, w, acts)| >= ReplyCount(Parse(KeyBytes(keyW), Plain(HostSent(keyW, w, acts))).commands)
    ensures var status, taken := LastStatus(HostHeard(keyW, w, acts)), Taken(keyW, CoreIns(keyW, w, acts));
      && status.Ok? && |taken| > 0
      && (ClassifyStage3(status.value) == UnlockedVerdict
          <==> RightKeys(keyW, k0, k1, k2) && !taken[|taken| - 1].tampered)
    ensures (forall k :: 0 <= k < |acts| ==> acts[k].tamperIn) ==>
      (ClassifyStage3(LastStatus(HostHeard(keyW, w, acts)).value) == UnlockedVerdict <==> RightKeys(keyW, k0, k1, k2))
  {
    hide Idle, WireAfter, Taken, CoreIns, HostSent, HostHeard, Bytes, TxBusy, Waits, Parse, LoadKeyFrame, SessionBytes,
         RightKeys, LockAfter, ReplyCount, Plain, FromBytes, ClassifyStage3, Reply, LastStatus;
    var shorter := before + SessionBytes(f, n[6 := n[6] - 1]);
    LastGap(f, n);
    assert HostSent(keyW, w, acts) == shorter + [0xA3];
    SessionSymbols(keyW, Plain(shorter), before, f, n[6 := n[6] - 1], k0, k1, k2) by { BytesOfPlain(shorter); }
    var s, x := WireStatus(keyW, w, acts, shorter);
    SessionSymbols(keyW, s, before, f, n[6 := n[6] - 1], k0, k1, k2);
    DriverVerdict(LockAfter(keyW, Parse(KeyBytes(keyW), s).commands), x.tampered);
  }

  lemma LastGap(f: seq<seq<Byte>>, n: seq<nat>)
    requires |f| == 3 && |n| == 7 && n[6] > 0
    ensures SessionBytes(f, n) == SessionBytes(f, n[6 := n[6] - 1]) + [0xA3]
  {
    assert RoundBytes(f[2], n[5], n[6]) == RoundBytes(f[2], n[5], n[6] - 1) + [0xA3];
  }

  // The driver's own session, reset_to_init and three times apply_key_and_compare.
  lemma DriverSession(keyW: nat, w: Wire, acts: seq<Act>, before: seq<Byte>, f: seq<seq<Byte>>,
                      k0: int, k1: int, k2: int)
    requires ValidWidth(keyW) && keyW % 8 == 0 && KeyFrames(keyW, f, k0, k1, k2)
    requires PowerUp(w) && Waits(keyW, w, acts) && !TxBusy(WireAfter(keyW, w, acts).host)
    requires Parse(KeyBytes(keyW), Plain(before)).open.None?
    requires HostSent(keyW, w, acts) == before + DriverBytes(f)
    requires |HostHeard(keyW, w, acts)| >= ReplyCount(Parse(KeyBytes(keyW), Plain(HostSent(keyW, w, acts))).commands)
    requires forall k :: 0 <= k < |acts| ==> acts[k].tamperIn
    ensures LastStatus(HostHeard(keyW, w, acts)).Ok?
    ensures ClassifyStage3(LastStatus(HostHeard(keyW, w, acts)).value) == UnlockedVerdict
      <==> RightKeys(keyW, k0, k1, k2)
  {
    hide Idle, WireAfter, Taken, CoreIns, HostSent, HostHeard, TxBusy, Waits, Parse, LoadKeyFrame, SessionBytes,
         RightKeys, ReplyCount, Plain, ClassifyStage3, LastStatus, DriverBytes;
    DriverIsSession(f);
    WireVerdict(keyW, w, acts, before, f, [1, 0, 1, 0, 1, 0, 1], k0, k1, k2);
  }

  lemma LastTwo(h: seq<Octet>, front: seq<nat>, r: seq<nat>)
    requires |r| == 2 && r[0] < 256 && r[1] < 256 && |h| == |front| + 2
    requires forall k :: 0 <= k < |h| ==> (front + r)[k] < 256 && h[k] == ToOctet((front + r)[k])
    ensures LastStatus(h) == FromBytes(r)
  {
    hide ToOctet, FromOctet, FromBytes;
    var n := |front|;
    assert (front + r)[n] == r[0] && (front + r)[n + 1] == r[1];
    ByteOfOctet(r[0]);
    ByteOfOctet(r[1]);
    assert [r[0], r[1]] == r;
  }

  lemma TwoBytes(l: Lock, tampered: bool)
    requires l.stage <= 3
    ensures var r := Reply(l, Status(tampered)); |r| == 2 && r[0] < 256 && r[1] < 256
  {
  }

  lemma {:induction false} StageBound(keyW: nat, c: seq<Command>)
    ensures LockAfter(keyW, c).stage <= 3
  {
    hide Expected;
    if c != [] {
      StageBound(keyW, c[..|c| - 1]);
    }
  }

  lemma {:induction false} TamperPins(keyW: nat, w: Wire, acts: seq<Act>)
    requires ValidWidth(keyW)
    ensures forall k :: 0 <= k < |acts| ==> CoreIns(keyW, w, acts)[k].tamperIn == acts[k].tamperIn
  {
    hide WireAfter;
    if acts != [] {
      TamperPins(keyW, w, acts[..|acts| - 1]);
    }
  }

  // ----- Waiting ends -----

  // From cycle m on the host starts nothing.
  predicate Silent(acts: seq<Act>, m: nat) {
    forall k :: m <= k < |acts| ==> acts[k].send.None?
  }

  lemma {:induction false} HostRunsDry(keyW: nat, w: Wire, acts: seq<Act>, m: nat)
    requires ValidWidth(keyW) && PowerUp(w) && m <= |acts| && Silent(acts, m)
    ensures var host := WireAfter(keyW, w, acts).host;
      TxInv(host) && TxLeft(host) <= 1145 && (|acts| - m >= 1145 ==> !TxBusy(host))
    ensures TxLeft(WireAfter(keyW, w, acts).host) <= if |acts| - m < 1145 then 1145 - (|acts| - m) else 0
    decreases |acts|
  {
    hide Idle, TxStep, TxLeft, TxInv, ChipStep, RxStep, ToOctet, ValidWidth;
    if acts == [] {
      HostAtStart(w);
    } else {
      var before, n := acts[..|acts| - 1], |acts| - 1;
      var host := WireAfter(keyW, w, before).host;
      HostRunsDry(keyW, w, before, if m <= n then m else n);
      TxLeftEdge(host, SendPort(acts[n]));
      LeftMeansBusy(host);
    }
    LeftMeansBusy(WireAfter(keyW, w, acts).host);
  }

  lemma HostAtStart(w: Wire)
    requires PowerUp(w)
    ensures TxInv(w.host) && TxLeft(w.host) == 0
  {
  }

  lemma {:induction false} NothingOffered(keyW: nat, w: Wire, acts: seq<Act>, m: nat)
    requires ValidWidth(keyW) && PowerUp(w) && Waits(keyW, w, acts) && Silent(acts, m)
    ensures forall k :: m + 1145 <= k < |acts| ==> CoreIns(keyW, w, acts)[k].rx.None?
    decreases |acts|
  {
    hide Idle, WireAfter, MayStart, HostSent, HostHeard, TxBusy, TakenBytes, RxPort, HeardInv, Taken, Sends;
    if acts != [] {
      var before, n := acts[..|acts| - 1], |acts| - 1;
      NothingOffered(keyW, w, before, m);
      if m + 1145 <= n {
        HostRunsDry(keyW, w, before, m);
        HeardInvAlways(keyW, w, before);
        UnderWay(keyW, w, before);
        NoPortNoByte(WireAfter(keyW, w, before).chip.rx);
      }
    }
  }

  // The device is quiet when no byte has been offered for 3440 cycles.
  lemma DeviceRunsDry(keyW: nat, ins: seq<Input>)
    requires ValidWidth(keyW) && |ins| >= 3440
    requires forall k :: |ins| - 3440 <= k < |ins| ==> ins[k].rx.None?
    ensures Quiet(TopAfter(keyW, ins))
  {
    hide BridgeTiming.Schedule, Busy, Listens, TopAfter, TxLeft, WaitInv, HandshakeInv;
    var m := |ins| - 3440;
    BridgeTiming.SilenceKeepsSchedule(keyW, ins, m);
    BridgeTiming.KeepsSchedule(keyW, ins);
    BridgeTiming.KeepsSchedule(keyW, ins[..m]);
    BridgeTiming.BusyBound(keyW, ins[..m]);
    DueBound(keyW, ins[..m]);
    WaitAlways(keyW, ins);
    WaitParts(TopAfter(keyW, ins));
    LeftMeansBusy(TopAfter(keyW, ins).tx);
  }

  lemma DueBound(keyW: nat, ins: seq<Input>)
    requires ValidWidth(keyW)
    ensures BridgeTiming.TxDue(TopAfter(keyW, ins)) <= 1146
  {
    hide TopAfter, TxLeft, TxStep, TxInv, WaitInv;
    WaitAlways(keyW, ins);
    WaitParts(TopAfter(keyW, ins));
    TxLeftEdge(TopAfter(keyW, ins).tx, None);
  }

  // Waiting ends: 4585 cycles after its last start a host that has waited so far has heard
  // every answer, so that it may start again.
  lemma WaitEnds(keyW: nat, w: Wire, acts: seq<Act>)
    requires ValidWidth(keyW) && PowerUp(w) && Waits(keyW, w, acts)
    requires |acts| >= 4585 && Silent(acts, |acts| - 4585)
    ensures TakenBytes(keyW, w, acts) == HostSent(keyW, w, acts)
    ensures |HostHeard(keyW, w, acts)|
      == ReplyCount(Parse(KeyBytes(keyW), Plain(HostSent(keyW, w, acts))).commands)
    ensures MayStart(KeyBytes(keyW), HostSent(keyW, w, acts), HostHeard(keyW, w, acts))
  {
    hide Idle, WireAfter, HostSent, HostHeard, TxBusy, Taken, CoreIns, Bytes, Parse, Plain, ReplyCount, TopAfter,
         Starts, Replies, Received, Quiet, Waits;
    var ins := CoreIns(keyW, w, acts);
    HostRunsDry(keyW, w, acts, |acts| - 4585);
    HostIsHeard(keyW, w, acts);
    NothingOffered(keyW, w, acts, |acts| - 4585);
    DeviceRunsDry(keyW, ins);
    LogsInside(keyW, w, acts);
    HostParsesAlike(KeyBytes(keyW), Taken(keyW, ins));
    AnswersAreHeard(keyW, ins, w.listener);
    RepliesCounted(keyW, Heard(keyW, ins).commands);
  }

  // ----- A host that does not wait -----

  // A status request, and then a zeroize command offered in every cycle: the transmitter
  // takes it back to back.
  function Hasty(n: nat): (acts: seq<Act>)
    ensures |acts| == n
    ensures forall k :: 0 <= k < n ==> acts[k] == Act(Some(if k == 0 then 0xA3 else 0xA4), true)
  {
    if n == 0 then [] else Hasty(n - 1) + [Act(Some(if n == 1 then 0xA3 else 0xA4), true)]
  }

  lemma {:induction false} PortsOfActs(acts: seq<Act>)
    ensures forall k :: 0 <= k < |acts| ==> SendPorts(acts)[k] == SendPort(acts[k])
  {
    hide ToOctet;
    if acts != [] {
      PortsOfActs(acts[..|acts| - 1]);
    }
  }

  lemma {:induction false} InputsOfActs(keyW: nat, w: Wire, acts: seq<Act>, k: nat)
    requires ValidWidth(keyW) && k < |acts|
    ensures CoreIns(keyW, w, acts)[k] == Input(RxPort(WireAfter(keyW, w, acts[..k]).chip.rx), acts[k].tamperIn)
    decreases |acts|
  {
    hide WireAfter, RxPort;
    if k < |acts| - 1 {
      assert acts[..|acts| - 1][..k] == acts[..k];
      InputsOfActs(keyW, w, acts[..|acts| - 1], k);
    }
  }

  // The receiver's accumulator after 1, 1146 and 1147 cycles from zero.
  lemma AccValues()
    ensures TickGen.AccAfter(TickGen.MODULUS, TickGen.RX_INC, 1) == 2517
    ensures TickGen.AccAfter(TickGen.MODULUS, TickGen.RX_INC, 1147) == 3415
  {
    hide TickGen.Ticks;
    TickGen.Conservation(TickGen.MODULUS, TickGen.RX_INC, 1146);
    AccOne();
    var acc, ticks := TickGen.AccAfter(TickGen.MODULUS, TickGen.RX_INC, 1146),
                      TickGen.Ticks(TickGen.MODULUS, TickGen.RX_INC, 1146);
    assert 1146 * TickGen.RX_INC == 88 * TickGen.MODULUS + 898;
    assert acc % TickGen.MODULUS == 898;
  }

  lemma AccOne()
    ensures TickGen.AccAfter(TickGen.MODULUS, TickGen.RX_INC, 1) == 2517
  {
    assert TickGen.AccAfter(TickGen.MODULUS, TickGen.RX_INC, 0) == 0;
  }

  lemma NotReadyAfterOne(l: Link, starts: seq<Option<Octet>>)
    requires Idle(l) && |starts| == 1
    ensures !LinkAfter(l, starts).rx.ready
  {
    hide Idle, At, LinkStep;
    var p := IdleEdge(l, starts[0]);
    assert starts[..0] == [];
  }

  // One frame from an idle link: when it is announced.
  lemma FrameAnnounced(l: Link, starts: seq<Option<Octet>>)
    requires Idle(l) && 0 < |starts| <= 1146 && starts[0].Some?
    requires LinkAfter(l, starts[..1]).rx.acc == 2517 || LinkAfter(l, starts[..1]).rx.acc == 3415
    ensures LinkAfter(l, starts).rx.ready <==> |starts| == 1069
    ensures LinkAfter(l, starts).rx.ready ==> LinkAfter(l, starts).rx.data == starts[0].value
  {
    hide Idle, LinkAfter;
    if |starts| == 1 {
      NotReadyAfterOne(l, starts);
    } else {
      AnnounceTime(l, starts);
    }
  }

  // The link of the hasty host in cycle k: idle after 1146 cycles, and the two bytes are
  // announced 1146 cycles apart.
  lemma HastyLink(l: Link, k: nat)
    requires Idle(l) && !l.rx.ready && l.rx.acc == 0 && k <= 2292
    ensures var v := LinkAfter(l, SendPorts(Hasty(2292))[..k]);
      && (TxBusy(v.tx) <==> k != 0 && k != 1146 && k != 2292)
      && (v.rx.ready <==> k == 1069 || k == 2215)
      && (k == 1069 ==> v.rx.data == ToOctet(0xA3)) && (k == 2215 ==> v.rx.data == ToOctet(0xA4))
  {
    hide Idle, LinkAfter, TxBusy, ToOctet, TickGen.AccAfter, Received, Sent, SendPorts, Hasty;
    var s := SendPorts(Hasty(2292));
    PortsOfActs(Hasty(2292));
    AccValues();
    AccRuns(l, s[..1]);
    AccRuns(l, s[..1147]);
    var first, second := s[..if k < 1146 then k else 1146], s[1146..if k < 1146 then 1146 else k];
    if k == 0 {
      LinkOfNothing(l, first);
    } else {
      assert first[..1] == s[..1];
      FrameTime(l, first);
      FrameAnnounced(l, first);
      if k > 1146 {
        var l' := LinkAfter(l, first);
        BytesArrive(l, first);
        LinkSplits(l, first, second);
        LinkSplits(l, first, second[..1]);
        assert s[..k] == first + second && s[..1147] == first + second[..1];
        FrameTime(l', second);
        FrameAnnounced(l', second);
      } else {
        assert s[..k] == first;
      }
    }
  }

  lemma LinkOfNothing(l: Link, starts: seq<Option<Octet>>)
    requires starts == []
    ensures LinkAfter(l, starts) == l
    ensures Idle(l) ==> !TxBusy(l.tx)
  {
  }

  lemma HastyPrefix(k: nat)
    requires k <= 2292
    ensures SendPorts(Hasty(k)) == SendPorts(Hasty(2292))[..k]
    ensures Hasty(2292)[..k] == Hasty(k)
  {
    hide SendPorts, Hasty;
    PortsOfActs(Hasty(k));
    PortsOfActs(Hasty(2292));
  }

  lemma HastyState(keyW: nat, w: Wire, k: nat)
    requires ValidWidth(keyW) && PowerUp(w) && w.chip.rx.acc == 0 && k <= 2292
    ensures var v := WireAfter(keyW, w, Hasty(k));
      && (TxBusy(v.host) <==> k != 0 && k != 1146 && k != 2292)
      && (v.chip.rx.ready <==> k == 1069 || k == 2215)
      && (k == 1069 ==> v.chip.rx.data == ToOctet(0xA3)) && (k == 2215 ==> v.chip.rx.data == ToOctet(0xA4))
  {
    hide Idle, LinkAfter, WireAfter, TxBusy, ToOctet, SendPorts, Hasty, TopAfter, CoreIns, Starts;
    LinksInside(keyW, w, Hasty(k));
    HastyPrefix(k);
    HastyLink(Link(w.host, w.chip.rx), k);
  }

  lemma {:induction false} HastySent(keyW: nat, w: Wire, k: nat)
    requires ValidWidth(keyW) && PowerUp(w) && w.chip.rx.acc == 0 && k <= 2292
    ensures HostSent(keyW, w, Hasty(k)) == if k == 0 then [] else if k <= 1146 then [0xA3] else [0xA3, 0xA4]
  {
    hide Idle, WireAfter, TxBusy, ToOctet;
    if k > 0 {
      HastySent(keyW, w, k - 1);
      HastyState(keyW, w, k - 1);
      assert Hasty(k)[..k - 1] == Hasty(k - 1);
    }
  }

  // A byte lost on the wire: from power-up, with the accumulator of the device's receiver
  // at zero, a host that sends a zeroize command right after a status request has both
  // bytes sent and its line idle again, and the device has taken the first one only.
  lemma LostOnTheWire(keyW: nat, w: Wire)
    requires ValidWidth(keyW) && PowerUp(w) && w.chip.rx.acc == 0
    ensures HostSent(keyW, w, Hasty(2292)) == [0xA3, 0xA4]
    ensures !TxBusy(WireAfter(keyW, w, Hasty(2292)).host)
    ensures TakenBytes(keyW, w, Hasty(2292)) == [0xA3]
    ensures !Waits(keyW, w, Hasty(2292))
  {
    hide Idle, WireAfter, TxBusy, ToOctet, FromOctet, Hasty, HostSent, Waits, CoreIns, Taken, BridgeTiming.Schedule,
         BridgeTiming.Offer, BridgeTiming.AtRest;
    var ins := CoreIns(keyW, w, Hasty(2292));
    HastySent(keyW, w, 2292);
    HastyState(keyW, w, 2292);
    forall k | 0 <= k < 2292
      ensures ins[k].rx.Some? <==> k == 1069 || k == 2215
      ensures k == 1069 ==> ins[k].rx == Some(0xA3)
    {
      InputsOfActs(keyW, w, Hasty(2292), k);
      HastyPrefix(k);
      HastyState(keyW, w, k);
      ByteOfOctet(0xA3);
      NoPortNoByte(WireAfter(keyW, w, Hasty(k)).chip.rx);
    }
    BridgeTiming.SilenceKeepsSchedule(keyW, ins[..1069], 0);
    SilenceAtRest(keyW, ins[..1069]);
    BridgeTiming.BackToBackIsLost(keyW, ins, 1069);
    OfferBytes(ins[..1069]);
    if Waits(keyW, w, Hasty(2292)) {
      HostIsHeard(keyW, w, Hasty(2292));
    }
  }

  lemma SilenceAtRest(keyW: nat, ins: seq<Input>)
    requires ValidWidth(keyW) && BridgeTiming.Schedule(keyW, ins) == BridgeTiming.Schedule(keyW, ins[..0])
    ensures BridgeTiming.AtRest(keyW, ins) && Taken(keyW, ins) == []
  {
    hide TopAfter;
    BridgeTiming.KeepsSchedule(keyW, ins);
    assert ins[..0] == [];
  }

  lemma OfferBytes(ins: seq<Input>)
    ensures Bytes([] + [BridgeTiming.Offer(ins, 0xA3)]) == [0xA3]
  {
    hide A.TamperRun;
    assert ([] + [BridgeTiming.Offer(ins, 0xA3)])[..0] == [];
  }
}
