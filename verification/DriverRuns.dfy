// Runs of the driver itself: a host that sends its bytes one at a time and waits after
// each.  Such runs exist for every stream of bytes, and at every key width a multiple of
// 8 the driver's session with the three platform keys ends with "unlocked".
module DriverRuns {
  import opened Common
  import TickGen
  import opened Uart
  import opened UartLink
  import opened UartBridge
  import opened BridgeRuns
  import opened BridgeSessions
  import opened UartWire

  // n cycles in which nothing is sent.
  function Pause(n: nat): (acts: seq<Act>)
    ensures |acts| == n && forall k :: 0 <= k < n ==> acts[k] == Act(None, true)
  {
    if n == 0 then [] else Pause(n - 1) + [Act(None, true)]
  }

  // The longest wait for an answer.
  const PATIENCE := 4585

  // Every byte, each with a wait behind it.
  function Patient(b: seq<Byte>): (acts: seq<Act>)
    ensures forall k :: 0 <= k < |acts| ==> acts[k].tamperIn
  {
    if b == [] then [] else Patient(b[..|b| - 1]) + [Act(Some(b[|b| - 1]), true)] + Pause(PATIENCE)
  }

  // Nothing sent, nothing owed.
  lemma NothingSent(keyW: nat, w: Wire)
    requires ValidWidth(keyW) && PowerUp(w)
    ensures Waits(keyW, w, []) && HostSent(keyW, w, []) == [] && !TxBusy(WireAfter(keyW, w, []).host)
    ensures HostHeard(keyW, w, []) == [] && ReplyCount(Parse(KeyBytes(keyW), Plain([])).commands) == 0
    ensures MayStart(KeyBytes(keyW), [], [])
  {
    hide TxBusy;
    HostAtStart(w);
    LeftMeansBusy(w.host);
  }

  // One byte more, offered to an idle transmitter when the host may start.
  lemma SendOne(keyW: nat, w: Wire, acts: seq<Act>, b: Byte)
    requires ValidWidth(keyW) && Waits(keyW, w, acts) && !TxBusy(WireAfter(keyW, w, acts).host)
    requires MayStart(KeyBytes(keyW), HostSent(keyW, w, acts), HostHeard(keyW, w, acts))
    ensures var acts' := acts + [Act(Some(b), true)];
      Waits(keyW, w, acts') && HostSent(keyW, w, acts') == HostSent(keyW, w, acts) + [b]
  {
    hide WireAfter, MayStart, HostHeard, TxBusy;
    assert (acts + [Act(Some(b), true)])[..|acts|] == acts;
  }

  lemma {:induction false} PauseKeepsWaiting(keyW: nat, w: Wire, acts: seq<Act>, n: nat)
    requires ValidWidth(keyW) && Waits(keyW, w, acts)
    ensures Waits(keyW, w, acts + Pause(n)) && HostSent(keyW, w, acts + Pause(n)) == HostSent(keyW, w, acts)
  {
    hide WireAfter, MayStart, HostHeard, TxBusy;
    if n == 0 {
      assert acts + Pause(0) == acts;
    } else {
      PauseKeepsWaiting(keyW, w, acts, n - 1);
      assert (acts + Pause(n))[..|acts| + n - 1] == acts + Pause(n - 1);
    }
  }

  // Every stream of bytes can be sent by a host that waits: it is sent in full, and in
  // the end every answer has been heard and the line is idle.
  lemma {:induction false} PatientHost(keyW: nat, w: Wire, b: seq<Byte>)
    requires ValidWidth(keyW) && PowerUp(w)
    ensures var acts := Patient(b);
      && Waits(keyW, w, acts) && HostSent(keyW, w, acts) == b && !TxBusy(WireAfter(keyW, w, acts).host)
      && |HostHeard(keyW, w, acts)| == ReplyCount(Parse(KeyBytes(keyW), Plain(b)).commands)
      && MayStart(KeyBytes(keyW), b, HostHeard(keyW, w, acts))
    decreases |b|
  {
    hide PowerUp, Waits, HostSent, HostHeard, WireAfter, TxBusy, Parse, Plain, ReplyCount, MayStart, Pause, TxInv;
    if b == [] {
      NothingSent(keyW, w);
    } else {
      var front, x := b[..|b| - 1], b[|b| - 1];
      PatientHost(keyW, w, front);
      var sent := Patient(front) + [Act(Some(x), true)];
      SendOne(keyW, w, Patient(front), x);
      PauseKeepsWaiting(keyW, w, sent, PATIENCE);
      assert front + [x] == b;
      assert Patient(b) == sent + Pause(PATIENCE);
      HostRunsDry(keyW, w, Patient(b), |sent|);
      WaitEnds(keyW, w, Patient(b));
    }
  }

  // The driver's session with any three keys that fit, after any complete frames: it can
  // be carried out, the last status decodes, and it says "unlocked" if and only if the
  // keys are the platform keys in order.
  lemma DriverDecides(keyW: nat, w: Wire, before: seq<Byte>, f: seq<seq<Byte>>, k0: int, k1: int, k2: int)
    requires ValidWidth(keyW) && keyW % 8 == 0 && PowerUp(w) && KeyFrames(keyW, f, k0, k1, k2)
    requires Parse(KeyBytes(keyW), Plain(before)).open.None?
    ensures var acts := Patient(before + DriverBytes(f)); var status := LastStatus(HostHeard(keyW, w, acts));
      && Waits(keyW, w, acts) && HostSent(keyW, w, acts) == before + DriverBytes(f)
      && status.Ok?
      && (ClassifyStage3(status.value) == UnlockedVerdict <==> RightKeys(keyW, k0, k1, k2))
      && (NextStage(keyW, WireAfter(keyW, w, acts).chip.top) == 3 <==> RightKeys(keyW, k0, k1, k2))
  {
    hide PowerUp, Waits, HostSent, HostHeard, WireAfter, TxBusy, Parse, Plain, ReplyCount, MayStart, DriverBytes,
         LoadKeyFrame, RightKeys, LastStatus, ClassifyStage3, Patient, NextStage, SessionBytes;
    PatientHost(keyW, w, before + DriverBytes(f));
    var acts := Patient(before + DriverBytes(f));
    DriverSession(keyW, w, acts, before, f, k0, k1, k2);
    DriverIsSession(f);
    WireUnlocks(keyW, w, acts, before, f, [1, 0, 1, 0, 1, 0, 1], k0, k1, k2);
  }

  // From any power-up state and at every such width the driver has a session that ends
  // with "unlocked": the frames exist, and waiting after each byte is enough.
  lemma DriverUnlocks(keyW: nat, w: Wire) returns (f: seq<seq<Byte>>, acts: seq<Act>)
    requires ValidWidth(keyW) && keyW % 8 == 0 && PowerUp(w)
    ensures KeyFrames(keyW, f, Expected(keyW, 0), Expected(keyW, 1), Expected(keyW, 2))
    ensures Waits(keyW, w, acts) && HostSent(keyW, w, acts) == DriverBytes(f)
    ensures LastStatus(HostHeard(keyW, w, acts)).Ok?
    ensures ClassifyStage3(LastStatus(HostHeard(keyW, w, acts)).value) == UnlockedVerdict
    ensures NextStage(keyW, WireAfter(keyW, w, acts).chip.top) == 3
  {
    hide PowerUp, Waits, HostSent, HostHeard, WireAfter, Parse, Plain, DriverBytes, LoadKeyFrame, LastStatus,
         ClassifyStage3, Patient, NextStage;
    f := PlatformFrames(keyW);
    acts := Patient(DriverBytes(f));
    assert [] + DriverBytes(f) == DriverBytes(f);
    NothingOpen(KeyBytes(keyW));
    DriverDecides(keyW, w, [], f, Expected(keyW, 0), Expected(keyW, 1), Expected(keyW, 2));
  }

  lemma NothingOpen(kb: nat)
    ensures Parse(kb, Plain([])).open.None?
  {
  }

  // ----- What the driver then hears -----

  lemma Untampered(keyW: nat, w: Wire, acts: seq<Act>)
    requires ValidWidth(keyW) && forall k :: 0 <= k < |acts| ==> acts[k].tamperIn
    ensures Taken(keyW, CoreIns(keyW, w, acts)) == Plain(TakenBytes(keyW, w, acts))
  {
    hide Taken, CoreIns, Bytes, Plain;
    var ins := CoreIns(keyW, w, acts);
    var taken := Taken(keyW, ins);
    TamperPins(keyW, w, acts);
    forall k | 0 <= k < |taken|
      ensures !taken[k].tampered
    {
      if taken[k].tampered {
        TamperIsSeen(keyW, ins, k);
      }
    }
  }

  // A complete command after complete commands: the lock obeys it and the device answers.
  lemma StepAnswer(keyW: nat, s: seq<Symbol>, x: seq<Symbol>, c: Command)
    requires ValidWidth(keyW) && Parse(KeyBytes(keyW), s).open.None?
    requires Parse(KeyBytes(keyW), x) == Parsed([c], None)
    ensures Parse(KeyBytes(keyW), s + x).open.None?
    ensures var p, q := Parse(KeyBytes(keyW), s).commands, Parse(KeyBytes(keyW), s + x).commands;
      && LockAfter(keyW, q) == Obey(keyW, LockAfter(keyW, p), c)
      && Replies(keyW, q) == Replies(keyW, p) + Reply(LockAfter(keyW, p), c)
  {
    hide Parse, Obey, Reply;
    ParseSplits(KeyBytes(keyW), s, x);
    var p := Parse(KeyBytes(keyW), s).commands;
    assert (p + [c])[..|p|] == p;
  }

  lemma OneByteCommand(kb: nat, b: Byte)
    requires kb > 0 && (b == 0xA2 || b == 0xA3 || b == 0xA4)
    ensures Parse(kb, Plain([b]))
      == Parsed([if b == 0xA2 then Compare else if b == 0xA3 then Status(false) else Zeroize], None)
  {
    assert Plain([b]) == [Symbol(b, false)];
    ParseByte(kb, Symbol(b, false));
  }

  // apply_key_and_compare with the key that the stage expects.
  lemma RoundAnswers(keyW: nat, s: seq<Symbol>, f: seq<Byte>)
    requires ValidWidth(keyW) && keyW % 8 == 0 && Parse(KeyBytes(keyW), s).open.None?
    requires LockAfter(keyW, Parse(KeyBytes(keyW), s).commands).stage < 3
    requires LoadKeyFrame(keyW, Expected(keyW, LockAfter(keyW, Parse(KeyBytes(keyW), s).commands).stage)) == Ok(f)
    ensures var s' := s + Plain(f + [0xA2, 0xA3]); Parse(KeyBytes(keyW), s').open.None?
    ensures var p, q := Parse(KeyBytes(keyW), s).commands, Parse(KeyBytes(keyW), s + Plain(f + [0xA2, 0xA3])).commands;
      var stage := LockAfter(keyW, p).stage;
      && LockAfter(keyW, q).stage == stage + 1
      && Replies(keyW, q) == Replies(keyW, p) + [0x55, 0x55, 0xD0, [0x28, 0x50, 0x63][stage]]
  {
    hide Parse, LockAfter, Replies, LoadKeyFrame, Expected, Plain, Bytes;
    var kb := KeyBytes(keyW);
    var key := Expected(keyW, LockAfter(keyW, Parse(kb, s).commands).stage);
    BytesOfPlain(f);
    ParseKeyFrame(keyW, Plain(f), key);
    OneByteCommand(kb, 0xA2);
    OneByteCommand(kb, 0xA3);
    StepAnswer(keyW, s, Plain(f), LoadKey(key));
    StepAnswer(keyW, s + Plain(f), Plain([0xA2]), Compare);
    StepAnswer(keyW, s + Plain(f) + Plain([0xA2]), Plain([0xA3]), Status(false));
    assert s + Plain(f + [0xA2, 0xA3]) == s + Plain(f) + Plain([0xA2]) + Plain([0xA3]);
  }

  lemma ResetAnswers(keyW: nat)
    requires ValidWidth(keyW)
    ensures var p := Parse(KeyBytes(keyW), Plain([0xA4, 0xA3]));
      p.open.None? && LockAfter(keyW, p.commands).stage == 0 && Replies(keyW, p.commands) == [0x55, 0xD0, 0x00]
  {
    hide Parse, Expected;
    var kb := KeyBytes(keyW);
    OneByteCommand(kb, 0xA4);
    OneByteCommand(kb, 0xA3);
    StepAnswer(keyW, Plain([0xA4]), Plain([0xA3]), Status(false));
    assert Plain([0xA4, 0xA3]) == Plain([0xA4]) + Plain([0xA3]);
  }

  // The whole conversation of a session that unlocks, at every width and from every
  // power-up state: the acknowledgements, and the status after each step.
  lemma DriverTranscript(keyW: nat, w: Wire, f: seq<seq<Byte>>)
    requires ValidWidth(keyW) && keyW % 8 == 0 && PowerUp(w)
    requires KeyFrames(keyW, f, Expected(keyW, 0), Expected(keyW, 1), Expected(keyW, 2))
    ensures HostHeard(keyW, w, Patient(DriverBytes(f))) == Octets(
      [0x55, 0xD0, 0x00,
       0x55, 0x55, 0xD0, 0x28,
       0x55, 0x55, 0xD0, 0x50,
       0x55, 0x55, 0xD0, 0x63])
  {
    hide PowerUp, Waits, HostSent, HostHeard, WireAfter, TxBusy, Parse, ReplyCount, MayStart, LoadKeyFrame, Expected,
         Replies, LockAfter, Patient, Taken, CoreIns, Bytes, ToOctet, Plain;
    var b, acts := DriverBytes(f), Patient(DriverBytes(f));
    PatientHost(keyW, w, b);
    HostIsHeard(keyW, w, acts);
    HeardAll(keyW, w, acts);
    Untampered(keyW, w, acts);
    ResetAnswers(keyW);
    var s := Plain([0xA4, 0xA3]);
    RoundAnswers(keyW, s, f[0]);
    var s0 := s + Plain(f[0] + [0xA2, 0xA3]);
    RoundAnswers(keyW, s0, f[1]);
    var s1 := s0 + Plain(f[1] + [0xA2, 0xA3]);
    RoundAnswers(keyW, s1, f[2]);
    assert Plain(b) == s1 + Plain(f[2] + [0xA2, 0xA3]);
  }

  // ----- commit_illegal -----

  // The command 0xA5, after any complete frames: a lock that is not open falls back to the
  // first stage, an open one stays open, and the host hears one acknowledgement more.
  lemma IllegalRelocks(keyW: nat, w: Wire, before: seq<Byte>)
    requires ValidWidth(keyW) && PowerUp(w) && Parse(KeyBytes(keyW), Plain(before)).open.None?
    ensures var stage := NextStage(keyW, WireAfter(keyW, w, Patient(before)).chip.top);
      var b := before + [0xA5];
      && NextStage(keyW, WireAfter(keyW, w, Patient(b)).chip.top) == (if stage == 3 then 3 else 0)
      && HostHeard(keyW, w, Patient(b)) == HostHeard(keyW, w, Patient(before)) + [ToOctet(0x55)]
  {
    hide PowerUp, Waits, HostSent, HostHeard, WireAfter, TxBusy, Parse, ReplyCount, MayStart, Replies, LockAfter,
         Patient, Taken, CoreIns, Bytes, ToOctet, Plain, NextStage;
    var b := before + [0xA5];
    StageAfter(keyW, w, before);
    StageAfter(keyW, w, b);
    ParseByte(KeyBytes(keyW), Symbol(0xA5, false));
    assert Plain(b) == Plain(before) + [Symbol(0xA5, false)];
    StepAnswer(keyW, Plain(before), [Symbol(0xA5, false)], Illegal);
  }

  // A waiting host after complete frames: the lock, and all that has been heard.
  lemma StageAfter(keyW: nat, w: Wire, b: seq<Byte>)
    requires ValidWidth(keyW) && PowerUp(w)
    ensures var p := Parse(KeyBytes(keyW), Plain(b)); var acts := Patient(b);
      && NextStage(keyW, WireAfter(keyW, w, acts).chip.top) == LockAfter(keyW, p.commands).stage
      && |HostHeard(keyW, w, acts)| == |Replies(keyW, p.commands)|
      && forall k :: 0 <= k < |Replies(keyW, p.commands)| ==>
           Replies(keyW, p.commands)[k] < 256 && HostHeard(keyW, w, acts)[k] == ToOctet(Replies(keyW, p.commands)[k])
  {
    hide Idle, Waits, HostSent, HostHeard, TxBusy, Parse, ReplyCount, MayStart, Replies, LockAfter,
         Patient, Taken, CoreIns, Bytes, ToOctet, Plain, NextStage, TopAfter, WireAfter;
    var acts := Patient(b);
    PatientHost(keyW, w, b);
    HostIsHeard(keyW, w, acts);
    HeardAll(keyW, w, acts);
    Untampered(keyW, w, acts);
    LinksInside(keyW, w, acts);
    RunFollowsParser(keyW, CoreIns(keyW, w, acts));
  }
}
