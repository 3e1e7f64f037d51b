// The host's side: the frames that uart_driver.py writes, the status that it decodes, and
// the answers as a receiver on the line hears them.
module BridgeSessions {
  import opened Common
  import TickGen
  import opened Uart
  import opened UartLink
  import opened UartBridge
  import opened BridgeRuns
  import A = AuthController

  // ----- load_key -----

  // int.to_bytes, big-endian.
  function ToBytes(key: nat, n: nat): (b: seq<Byte>)
    ensures |b| == n
    decreases n
  {
    if n == 0 then [] else ToBytes(key / 256, n - 1) + [key % 256]
  }

  function LoadKeyFrame(keyW: nat, key: int): Result<seq<Byte>> {
    if 0 <= key < TickGen.Pow2(keyW) then Ok([0xA1] + ToBytes(key, KeyBytes(keyW))) else Err("Error: Key must fit")
  }

  function Bytes(s: seq<Symbol>): (b: seq<Byte>)
    ensures |b| == |s| && forall k :: 0 <= k < |s| ==> b[k] == s[k].byte
  {
    if s == [] then [] else Bytes(s[..|s| - 1]) + [s[|s| - 1].byte]
  }

  // Bytes as symbols that carry no tampering.
  function Plain(b: seq<Byte>): (s: seq<Symbol>)
    ensures |s| == |b| && forall k :: 0 <= k < |b| ==> s[k] == Symbol(b[k], false)
  {
    if b == [] then [] else Plain(b[..|b| - 1]) + [Symbol(b[|b| - 1], false)]
  }

  lemma BytesOfPlain(b: seq<Byte>)
    ensures Bytes(Plain(b)) == b
  {
  }

  lemma {:induction false} BigEndianToBytes(payload: seq<Symbol>, key: nat, n: nat)
    requires Bytes(payload) == ToBytes(key, n) && key < TickGen.Pow2(8 * n)
    ensures BigEndian(payload) == key
    decreases n
  {
    if n > 0 {
      var front := payload[..n - 1];
      EightMore(8 * n);
      assert Bytes(front) == Bytes(payload)[..n - 1];
      assert ToBytes(key, n)[..n - 1] == ToBytes(key / 256, n - 1);
      assert ToBytes(key, n)[n - 1] == key % 256;
      BigEndianToBytes(front, key / 256, n - 1);
    }
  }

  // Byte i of a big-endian payload of n bytes is the digit of weight 256^(n-1-i).
  lemma {:induction false} BigEndianDigit(payload: seq<Symbol>, i: nat)
    requires i < |payload|
    ensures BigEndian(payload) / TickGen.Pow2(8 * (|payload| - 1 - i)) % 256 == payload[i].byte
    decreases |payload|
  {
    hide TickGen.Pow2;
    var n := |payload|;
    var front, x := payload[..n - 1], payload[n - 1];
    BigEndianSnoc(front, x);
    assert front + [x] == payload;
    if i < n - 1 {
      var m := TickGen.Pow2(8 * (n - 2 - i));
      BigEndianDigit(front, i);
      EightMore(8 * (n - 1 - i));
      TickGen.DivDiv(BigEndian(payload), 256, m);
      assert BigEndian(payload) / 256 == BigEndian(front);
    } else {
      TickGen.PowZero();
    }
  }

  lemma {:induction false} ToBytesBigEndian(payload: seq<Symbol>)
    ensures ToBytes(BigEndian(payload), |payload|) == Bytes(payload)
    decreases |payload|
  {
    hide Bytes;
    if payload == [] {
      assert Bytes(payload) == [];
    } else {
      var front, x := payload[..|payload| - 1], payload[|payload| - 1];
      ToBytesBigEndian(front);
      var key := BigEndian(payload);
      assert key / 256 == BigEndian(front) && key % 256 == x.byte;
      assert Bytes(payload) == Bytes(front) + [x.byte];
    }
  }

  // load_key writes a frame exactly for the keys that fit, and the frame is 0xA1 and the
  // KEY_BYTES bytes of which the key is the big-endian value: every payload is the frame
  // of its key.
  lemma LoadKeyFrameExact(keyW: nat, key: int, f: seq<Byte>)
    requires keyW % 8 == 0
    ensures LoadKeyFrame(keyW, key).Ok? <==> 0 <= key < TickGen.Pow2(keyW)
    ensures LoadKeyFrame(keyW, key) == Ok(f)
      <==> |f| == 1 + keyW / 8 && f[0] == 0xA1 && BigEndian(Plain(f[1..])) == key
  {
    hide BigEndian, TickGen.Pow2, ToBytes, Plain, Bytes;
    var kb := KeyBytes(keyW);
    if LoadKeyFrame(keyW, key) == Ok(f) {
      assert f[1..] == ToBytes(key, kb);
      BytesOfPlain(f[1..]);
      BigEndianToBytes(Plain(f[1..]), key, kb);
    }
    if |f| == 1 + kb && f[0] == 0xA1 && BigEndian(Plain(f[1..])) == key {
      BigEndianBound(Plain(f[1..]), keyW);
      ToBytesBigEndian(Plain(f[1..]));
      BytesOfPlain(f[1..]);
      assert f == [0xA1] + f[1..];
    }
  }

  // Byte 1 + i of the frame is the digit of weight 256^(KEY_BYTES-1-i) of the key.
  lemma FrameDigit(keyW: nat, key: int, f: seq<Byte>, i: nat)
    requires keyW % 8 == 0 && LoadKeyFrame(keyW, key) == Ok(f) && i < keyW / 8
    ensures |f| == 1 + keyW / 8 && f[0] == 0xA1 && key >= 0
    ensures f[1 + i] == key / TickGen.Pow2(8 * (keyW / 8 - 1 - i)) % 256
  {
    hide BigEndian, TickGen.Pow2, LoadKeyFrame;
    LoadKeyFrameExact(keyW, key, f);
    BigEndianDigit(Plain(f[1..]), i);
  }

  // ----- Streams of frames -----

  // After a complete frame the parser starts afresh.
  lemma {:induction false} ParseSplits(kb: nat, a: seq<Symbol>, b: seq<Symbol>)
    requires kb > 0 && Parse(kb, a).open.None?
    ensures Parse(kb, a + b) == Parsed(Parse(kb, a).commands + Parse(kb, b).commands, Parse(kb, b).open)
    decreases |a|
  {
    hide BigEndian, Single, Parse;
    if a == [] {
      assert a + b == b;
      ParseEmpty(kb);
    } else {
      var n := if a[0].byte == 0xA1 then 1 + kb else 1;
      ParseFirst(kb, a);
      assert (a + b)[1..n] == a[1..n];
      assert (a + b)[n..] == a[n..] + b;
      ParseFirst(kb, a + b);
      ParseSplits(kb, a[n..], b);
    }
  }

  // The first command of a stream, when it is complete.
  lemma ParseFirst(kb: nat, s: seq<Symbol>)
    requires kb > 0 && s != []
    ensures s[0].byte == 0xA1 && |s| <= kb ==> Parse(kb, s).open.Some?
    ensures s[0].byte == 0xA1 && |s| > kb ==>
      var rest := Parse(kb, s[1 + kb..]);
      Parse(kb, s) == Parsed([LoadKey(BigEndian(s[1..1 + kb]))] + rest.commands, rest.open)
    ensures s[0].byte != 0xA1 ==>
      var rest := Parse(kb, s[1..]);
      Parse(kb, s) == Parsed(Single(s[0]) + rest.commands, rest.open)
  {
    hide BigEndian, Single;
  }

  lemma ParseKeyFrame(keyW: nat, f: seq<Symbol>, key: int)
    requires ValidWidth(keyW) && keyW % 8 == 0
    requires LoadKeyFrame(keyW, key) == Ok(Bytes(f))
    ensures 0 <= key && Parse(KeyBytes(keyW), f) == Parsed([LoadKey(key)], None)
  {
    hide BigEndian, Single, TickGen.Pow2, ToBytes;
    var kb := KeyBytes(keyW);
    assert Bytes(f) == [0xA1] + ToBytes(key, kb);
    assert f[0].byte == 0xA1 && |f| == 1 + kb;
    assert Bytes(f[1..]) == Bytes(f)[1..] == ToBytes(key, kb);
    BigEndianToBytes(f[1..], key, kb);
    assert f[1..1 + kb] == f[1..] && f[1 + kb..] == [];
    assert Parse(kb, []) == Parsed([], None);
  }

  lemma ParseByte(kb: nat, x: Symbol)
    requires kb > 0 && x.byte != 0xA1
    ensures Parse(kb, [x]) == Parsed(Single(x), None)
  {
    assert [x][1..] == [];
  }

  // load_key, in any run: when its frame has been taken after complete commands, the key
  // port carries the key, whatever was there before.
  lemma LoadedKeyArrives(keyW: nat, ins: seq<Input>, before: seq<Symbol>, f: seq<Symbol>, key: int)
    requires ValidWidth(keyW) && keyW % 8 == 0
    requires LoadKeyFrame(keyW, key) == Ok(Bytes(f))
    requires Taken(keyW, ins) == before + f && Parse(KeyBytes(keyW), before).open.None?
    ensures TopAfter(keyW, ins).bridge.authKeyIn == key
    ensures !TopAfter(keyW, ins).bridge.state.LOAD_KEY_BYTES?
  {
    hide Parse, LoadKeyFrame, Bytes, TopAfter, Taken;
    var kb := KeyBytes(keyW);
    ParseKeyFrame(keyW, f, key);
    ParseSplits(kb, before, f);
    var c := Parse(kb, before).commands;
    assert Heard(keyW, ins).commands == c + [LoadKey(key)];
    assert (c + [LoadKey(key)])[..|c|] == c;
    RunFollowsParser(keyW, ins);
  }

  // ----- An unlock session -----

  // A run of status requests.
  function Statuses(n: nat): (b: seq<Byte>)
    ensures |b| == n && forall k :: 0 <= k < n ==> b[k] == 0xA3
  {
    if n == 0 then [] else Statuses(n - 1) + [0xA3]
  }

  // load_key and compare, each with any number of status requests after it.
  function RoundBytes(f: seq<Byte>, m: nat, n: nat): seq<Byte> {
    f + Statuses(m) + [0xA2] + Statuses(n)
  }

  // zeroize, then three such rounds: f holds the frames of the keys, n the numbers of the
  // status requests in the seven gaps.
  function SessionBytes(f: seq<seq<Byte>>, n: seq<nat>): seq<Byte>
    requires |f| == 3 && |n| == 7
  {
    [0xA4] + Statuses(n[0]) + RoundBytes(f[0], n[1], n[2]) + RoundBytes(f[1], n[3], n[4]) + RoundBytes(f[2], n[5], n[6])
  }

  // What the driver sends: reset_to_init, and three times apply_key_and_compare.
  function DriverBytes(f: seq<seq<Byte>>): seq<Byte>
    requires |f| == 3
  {
    [0xA4, 0xA3] + f[0] + [0xA2, 0xA3] + f[1] + [0xA2, 0xA3] + f[2] + [0xA2, 0xA3]
  }

  lemma DriverIsSession(f: seq<seq<Byte>>)
    requires |f| == 3
    ensures DriverBytes(f) == SessionBytes(f, [1, 0, 1, 0, 1, 0, 1])
  {
    assert Statuses(0) == [] && Statuses(1) == [0xA3];
    assert forall k :: 0 <= k < 3 ==> RoundBytes(f[k], 0, 1) == f[k] + [0xA2, 0xA3];
  }

  // The frames that load_key writes for the three keys.
  predicate KeyFrames(keyW: nat, f: seq<seq<Byte>>, k0: int, k1: int, k2: int) {
    && |f| == 3
    && LoadKeyFrame(keyW, k0) == Ok(f[0])
    && LoadKeyFrame(keyW, k1) == Ok(f[1])
    && LoadKeyFrame(keyW, k2) == Ok(f[2])
  }

  predicate RightKeys(keyW: nat, k0: int, k1: int, k2: int) {
    k0 == Expected(keyW, 0) && k1 == Expected(keyW, 1) && k2 == Expected(keyW, 2)
  }

  // The three platform keys have frames at every width that is a multiple of 8, and no
  // other frames are frames of the right keys.
  lemma PlatformFrames(keyW: nat) returns (f: seq<seq<Byte>>)
    requires keyW % 8 == 0
    ensures KeyFrames(keyW, f, Expected(keyW, 0), Expected(keyW, 1), Expected(keyW, 2))
    ensures forall g, k0, k1, k2 :: KeyFrames(keyW, g, k0, k1, k2) && RightKeys(keyW, k0, k1, k2) ==> g == f
  {
    hide ToBytes, TickGen.Pow2;
    f := [[0xA1] + ToBytes(Expected(keyW, 0), KeyBytes(keyW)), [0xA1] + ToBytes(Expected(keyW, 1), KeyBytes(keyW)),
          [0xA1] + ToBytes(Expected(keyW, 2), KeyBytes(keyW))];
  }

  // The platform keys at the width of the driver, with their frames, and at the default
  // width of the device.
  lemma PlatformKeyValues()
    ensures Expected(16, 0) == 0xEEFF && Expected(16, 1) == 0x4444 && Expected(16, 2) == 0x5678
    ensures KeyFrames(16, [[0xA1, 0xEE, 0xFF], [0xA1, 0x44, 0x44], [0xA1, 0x56, 0x78]], 0xEEFF, 0x4444, 0x5678)
    ensures Expected(128, 0) == 0x00112233_44556677_8899AABB_CCDDEEFF
    ensures Expected(128, 1) == 0x11111111_22222222_33333333_44444444
    ensures Expected(128, 2) == 0xAAAABBBB_CCCCDDDD_EEEEFFFF_12345678
  {
    hide TickGen.Pow2;
    PowValues();
    FrameOfTwo(0xEE, 0xFF);
    FrameOfTwo(0x44, 0x44);
    FrameOfTwo(0x56, 0x78);
  }

  lemma FrameOfTwo(high: Byte, low: Byte)
    ensures LoadKeyFrame(16, 256 * high + low) == Ok([0xA1, high, low])
  {
    hide TickGen.Pow2;
    PowValues();
    var key := 256 * high + low;
    assert key / 256 == high && key % 256 == low;
    assert ToBytes(high, 1) == [high];
    assert [0xA1] + ToBytes(key, 2) == [0xA1, high, low];
  }

  lemma PowValues()
    ensures TickGen.Pow2(16) == 0x1_0000
    ensures TickGen.Pow2(128) == 0x1_0000_0000_0000_0000_0000_0000_0000_0000
  {
    hide TickGen.Pow2;
    TickGen.PowZero();
    EightMore(8);
    EightMore(16);
    EightMore(24);
    EightMore(32);
    EightMore(40);
    EightMore(48);
    EightMore(56);
    EightMore(64);
    EightMore(72);
    EightMore(80);
    EightMore(88);
    EightMore(96);
    EightMore(104);
    EightMore(112);
    EightMore(120);
    EightMore(128);
  }

  // Symbols fall apart as their bytes do.
  lemma Cut(s: seq<Symbol>, c: seq<Byte>, a: seq<Byte>, b: seq<Byte>) returns (t: seq<Symbol>, x: seq<Symbol>)
    requires Bytes(s) == c + (a + b)
    ensures s == t + x && Bytes(t) == c + a && Bytes(x) == b
  {
    hide Bytes;
    var k := |c| + |a|;
    t, x := s[..k], s[k..];
    assert Bytes(s)[..k] == c + a && Bytes(s)[k..] == b;
  }

  lemma StepFrame(keyW: nat, s: seq<Symbol>, f: seq<Symbol>, c: Command)
    requires ValidWidth(keyW) && Parse(KeyBytes(keyW), s).open.None?
    requires Parse(KeyBytes(keyW), f) == Parsed([c], None)
    ensures Parse(KeyBytes(keyW), s + f).open.None?
    ensures LockAfter(keyW, Parse(KeyBytes(keyW), s + f).commands)
         == Obey(keyW, LockAfter(keyW, Parse(KeyBytes(keyW), s).commands), c)
  {
    hide Parse, Obey;
    ParseSplits(KeyBytes(keyW), s, f);
    var p := Parse(KeyBytes(keyW), s).commands;
    assert (p + [c])[..|p|] == p;
  }

  lemma StepByte(keyW: nat, s: seq<Symbol>, f: seq<Symbol>, b: Byte)
    requires ValidWidth(keyW) && Parse(KeyBytes(keyW), s).open.None?
    requires Bytes(f) == [b] && (b == 0xA2 || b == 0xA4)
    ensures Parse(KeyBytes(keyW), s + f).open.None?
    ensures LockAfter(keyW, Parse(KeyBytes(keyW), s + f).commands)
         == Obey(keyW, LockAfter(keyW, Parse(KeyBytes(keyW), s).commands), if b == 0xA2 then Compare else Zeroize)
  {
    hide Parse, Obey, LockAfter;
    assert f == [f[0]] && f[0].byte == b;
    ParseByte(KeyBytes(keyW), f[0]);
    StepFrame(keyW, s, f, if b == 0xA2 then Compare else Zeroize);
  }

  // Status requests between commands leave the lock as it is.
  lemma {:induction false} StatusesKeep(keyW: nat, s: seq<Symbol>, g: seq<Symbol>)
    requires ValidWidth(keyW) && Parse(KeyBytes(keyW), s).open.None?
    requires Bytes(g) == Statuses(|g|)
    ensures Parse(KeyBytes(keyW), s + g).open.None?
    ensures LockAfter(keyW, Parse(KeyBytes(keyW), s + g).commands) == LockAfter(keyW, Parse(KeyBytes(keyW), s).commands)
    decreases |g|
  {
    hide Parse, LockAfter;
    if g == [] {
      assert s + g == s;
    } else {
      var front, x := g[..|g| - 1], g[|g| - 1];
      assert Bytes(front) == Statuses(|front|);
      StatusesKeep(keyW, s, front);
      ParseByte(KeyBytes(keyW), x);
      StepFrame(keyW, s + front, [x], Status(x.tampered));
      assert s + g == s + front + [x];
    }
  }

  // KEY_BYTES status requests bring the parser to the border of a frame whatever came
  // before them: those that an open key frame swallows complete it.
  lemma {:induction false} StatusesResync(kb: nat, s: seq<Symbol>, g: seq<Symbol>)
    requires kb > 0 && Bytes(g) == Statuses(|g|)
    ensures var p, q := Parse(kb, s), Parse(kb, s + g);
      && (p.open.None? || |g| >= kb ==> q.open.None?)
      && (p.open.Some? && q.open.Some? ==> |q.open.value| == |p.open.value| + |g|)
    decreases |g|
  {
    hide Parse, BigEndian;
    if g == [] {
      assert s + g == s;
    } else {
      var front, x := g[..|g| - 1], g[|g| - 1];
      assert Bytes(front) == Statuses(|front|);
      StatusesResync(kb, s, front);
      ParseExtends(kb, s + front, x);
      assert s + g == s + front + [x];
      OpenBelow(kb, s);
      OpenBelow(kb, s + front);
    }
  }

  lemma {:induction false} OpenBelow(kb: nat, s: seq<Symbol>)
    requires kb > 0
    ensures Parse(kb, s).open.Some? ==> |Parse(kb, s).open.value| < kb
  {
    hide Parse, BigEndian;
    if s == [] {
      assert Parse(kb, s) == Parsed([], None) by { ParseEmpty(kb); }
    } else {
      OpenBelow(kb, s[..|s| - 1]);
      ParseExtends(kb, s[..|s| - 1], s[|s| - 1]);
      assert s == s[..|s| - 1] + [s[|s| - 1]];
    }
  }

  lemma ParseEmpty(kb: nat)
    ensures Parse(kb, []) == Parsed([], None)
  {
  }

  lemma CutRound(r: seq<Symbol>, f: seq<Byte>, m: nat, n: nat)
    returns (r0: seq<Symbol>, g0: seq<Symbol>, c: seq<Symbol>, g1: seq<Symbol>)
    requires Bytes(r) == RoundBytes(f, m, n)
    ensures r == r0 + g0 + c + g1
    ensures Bytes(r0) == f && Bytes(g0) == Statuses(m) && Bytes(c) == [0xA2] && Bytes(g1) == Statuses(n)
  {
    hide Bytes, Statuses;
    var r1, r2;
    r2, g1 := Cut(r, [], f + Statuses(m) + [0xA2], Statuses(n));
    r1, c := Cut(r2, [], f + Statuses(m), [0xA2]);
    r0, g0 := Cut(r1, [], f, Statuses(m));
    assert [] + f == f;
  }

  lemma SameLength(s: seq<Symbol>, b: seq<Byte>)
    requires Bytes(s) == b
    ensures |s| == |b|
  {
  }

  // One round compares the key with the one that the stage expects.
  lemma StepRound(keyW: nat, s: seq<Symbol>, r: seq<Symbol>, f: seq<Byte>, m: nat, n: nat, key: int)
    requires ValidWidth(keyW) && keyW % 8 == 0 && Parse(KeyBytes(keyW), s).open.None?
    requires LoadKeyFrame(keyW, key) == Ok(f) && Bytes(r) == RoundBytes(f, m, n)
    requires LockAfter(keyW, Parse(KeyBytes(keyW), s).commands).stage < 3
    ensures Parse(KeyBytes(keyW), s + r).open.None?
    ensures var l := LockAfter(keyW, Parse(KeyBytes(keyW), s).commands);
      LockAfter(keyW, Parse(KeyBytes(keyW), s + r).commands).stage
      == if key == Expected(keyW, l.stage) then l.stage + 1 else 0
  {
    hide Parse, LockAfter, Bytes, Expected, RoundBytes, Statuses, LoadKeyFrame;
    var r0, g0, c, g1 := CutRound(r, f, m, n);
    SameLength(g0, Statuses(m));
    SameLength(g1, Statuses(n));
    ParseKeyFrame(keyW, r0, key);
    StepFrame(keyW, s, r0, LoadKey(key));
    StatusesKeep(keyW, s + r0, g0);
    StepByte(keyW, s + r0 + g0, c, 0xA2);
    StatusesKeep(keyW, s + r0 + g0 + c, g1);
    assert s + r == s + r0 + g0 + c + g1;
  }

  // A session falls apart into zeroize, status requests and three rounds.
  lemma CutSession(x: seq<Symbol>, f: seq<seq<Byte>>, n: seq<nat>)
    returns (z: seq<Symbol>, g: seq<Symbol>, r0: seq<Symbol>, r1: seq<Symbol>, r2: seq<Symbol>)
    requires |f| == 3 && |n| == 7 && Bytes(x) == SessionBytes(f, n)
    ensures x == z + g + r0 + r1 + r2 && Bytes(z) == [0xA4] && Bytes(g) == Statuses(n[0])
    ensures Bytes(r0) == RoundBytes(f[0], n[1], n[2])
    ensures Bytes(r1) == RoundBytes(f[1], n[3], n[4])
    ensures Bytes(r2) == RoundBytes(f[2], n[5], n[6])
  {
    hide Bytes, RoundBytes, Statuses;
    var b0 := [0xA4] + Statuses(n[0]);
    var b1 := b0 + RoundBytes(f[0], n[1], n[2]);
    var b2 := b1 + RoundBytes(f[1], n[3], n[4]);
    var x0, x1, x2;
    x2, r2 := Cut(x, [], b2, RoundBytes(f[2], n[5], n[6]));
    x1, r1 := Cut(x2, [], b1, RoundBytes(f[1], n[3], n[4]));
    x0, r0 := Cut(x1, [], b0, RoundBytes(f[0], n[1], n[2]));
    z, g := Cut(x0, [], [0xA4], Statuses(n[0]));
    assert [] + [0xA4 as Byte] == [0xA4];
  }

  // After the session the lock is open exactly when the three platform keys were
  // presented, in order; what came before it, if it ended with a frame, does not matter.
  lemma SessionLock(keyW: nat, s: seq<Symbol>, x: seq<Symbol>, f: seq<seq<Byte>>, n: seq<nat>,
                    k0: int, k1: int, k2: int)
    requires ValidWidth(keyW) && keyW % 8 == 0 && |n| == 7 && KeyFrames(keyW, f, k0, k1, k2)
    requires Parse(KeyBytes(keyW), s).open.None? && Bytes(x) == SessionBytes(f, n)
    ensures Parse(KeyBytes(keyW), s + x).open.None?
    ensures LockAfter(keyW, Parse(KeyBytes(keyW), s + x).commands).stage == 3 <==> RightKeys(keyW, k0, k1, k2)
  {
    hide Parse, LockAfter, Bytes, Expected, RoundBytes, LoadKeyFrame, SessionBytes, Statuses;
    var z, g, r0, r1, r2 := CutSession(x, f, n);
    assert |g| == n[0] by { SameLength(g, Statuses(n[0])); }
    StepByte(keyW, s, z, 0xA4);
    StatusesKeep(keyW, s + z, g);
    StepRound(keyW, s + z + g, r0, f[0], n[1], n[2], k0);
    StepRound(keyW, s + z + g + r0, r1, f[1], n[3], n[4], k1);
    StepRound(keyW, s + z + g + r0 + r1, r2, f[2], n[5], n[6], k2);
    assert s + x == s + z + g + r0 + r1 + r2;
  }

  lemma SessionUnlocks(keyW: nat, ins: seq<Input>, s: seq<Symbol>, x: seq<Symbol>, f: seq<seq<Byte>>, n: seq<nat>,
                       k0: int, k1: int, k2: int)
    requires ValidWidth(keyW) && keyW % 8 == 0 && |n| == 7 && KeyFrames(keyW, f, k0, k1, k2)
    requires Parse(KeyBytes(keyW), s).open.None? && Bytes(x) == SessionBytes(f, n)
    requires Taken(keyW, ins) == s + x
    ensures NextStage(keyW, TopAfter(keyW, ins)) == 3 <==> RightKeys(keyW, k0, k1, k2)
  {
    hide Parse, LockAfter, Bytes, LoadKeyFrame, RightKeys, TopAfter, Taken, NextStage, SessionBytes;
    SessionLock(keyW, s, x, f, n, k0, k1, k2);
    RunFollowsParser(keyW, ins);
  }

  // ----- Status.from_bytes and classify_stage3 -----

  datatype DriverStatus = DriverStatus(
    header: int, raw: int, unlocked: int, aesEnable: int, authZeroize: int, keySel: int, stateDebug: int)

  function FromBytes(data: seq<nat>): Result<DriverStatus> {
    if |data| != 2 then Err("Error: Expected 2 bytes of data")
    else if data[0] != 0xD0 then Err("Error: Expected header byte 0xD0")
    else
      var s := data[1];
      Ok(DriverStatus(data[0], s, s % 2, s / 2 % 2, s / 4 % 2, s / 8 % 4, s / 32 % 4))
  }

  datatype Verdict =
    | AdvancedToStage2 | AdvancedToStage3 | RemainedAtStage2 | UnlockedVerdict | ResetToInit
    | ErrorUnlocked | ErrorEnabled | UnexpectedState

  function ClassifyStage1(s: DriverStatus): Verdict {
    if s.unlocked != 0 then ErrorUnlocked
    else if s.aesEnable != 0 then ErrorEnabled
    else if s.keySel == 1 && s.stateDebug == 1 then AdvancedToStage2
    else if s.keySel == 0 && s.stateDebug == 0 then ResetToInit
    else UnexpectedState
  }

  function ClassifyStage2(s: DriverStatus): Verdict {
    if s.unlocked != 0 then ErrorUnlocked
    else if s.aesEnable != 0 then ErrorEnabled
    else if s.keySel == 2 && s.stateDebug == 2 then AdvancedToStage3
    else if s.keySel == 0 && s.stateDebug == 0 then ResetToInit
    else if s.keySel == 1 && s.stateDebug == 1 then RemainedAtStage2
    else UnexpectedState
  }

  function ClassifyStage3(s: DriverStatus): Verdict {
    if s.unlocked != 0 && s.aesEnable != 0 then UnlockedVerdict
    else if s.keySel == 0 && s.stateDebug == 0 then ResetToInit
    else UnexpectedState
  }

  // The decoder recovers what the bridge packed.
  lemma StatusRoundTrip(c: Controller)
    ensures FromBytes([0xD0, StatusByte(c)])
      == Ok(DriverStatus(0xD0, StatusByte(c), Flag(c.unlocked), Flag(c.aesEnable), Flag(c.authZeroize),
                         c.keySel, c.stateDebug))
  {
    hide Flag;
    FlagBound(c.unlocked);
    FlagBound(c.aesEnable);
    FlagBound(c.authZeroize);
    Unpack(Flag(c.unlocked), Flag(c.aesEnable), Flag(c.authZeroize), c.keySel, c.stateDebug);
  }

  // Which data decode, and the fields as the bits of the second byte.
  lemma StatusDecodes(data: seq<Byte>)
    ensures FromBytes(data).Ok? <==> |data| == 2 && data[0] == 0xD0
    ensures FromBytes(data).Ok? ==> var s := FromBytes(data).value;
      && s.header == 0xD0 && s.raw == data[1]
      && 0 <= s.unlocked < 2 && 0 <= s.aesEnable < 2 && 0 <= s.authZeroize < 2
      && 0 <= s.keySel < 4 && 0 <= s.stateDebug < 4
      && exists top :: 0 <= top < 2 &&
           data[1] == s.unlocked + 2 * s.aesEnable + 4 * s.authZeroize + 8 * s.keySel + 32 * s.stateDebug + 128 * top
  {
    if FromBytes(data).Ok? {
      Fields(data[1]);
    }
  }

  lemma Fields(s: Byte)
    ensures s == s % 2 + 2 * (s / 2 % 2) + 4 * (s / 4 % 2) + 8 * (s / 8 % 4) + 32 * (s / 32 % 4) + 128 * (s / 128)
    ensures 0 <= s / 128 < 2
  {
    TickGen.DivDiv(s, 2, 2);
    TickGen.DivDiv(s, 4, 2);
    TickGen.DivDiv(s, 8, 4);
    TickGen.DivDiv(s, 32, 4);
  }

  lemma FlagBound(b: bool)
    ensures Flag(b) < 2
  {
  }

  lemma Unpack(u: Bits2, a: Bits2, z: Bits2, k: Bits2, d: Bits2)
    requires u < 2 && a < 2 && z < 2
    ensures var s := u + 2 * a + 4 * z + 8 * k + 32 * d;
      s % 2 == u && s / 2 % 2 == a && s / 4 % 2 == z && s / 8 % 4 == k && s / 32 % 4 == d
  {
    Split(u, a + 2 * z + 4 * k + 16 * d, 2);
    Split(a, z + 2 * k + 8 * d, 2);
    Split(u + 2 * a, z + 2 * k + 8 * d, 4);
    Split(z, k + 4 * d, 2);
    Split(u + 2 * a + 4 * z, k + 4 * d, 8);
    Split(k, d, 4);
    Split(u + 2 * a + 4 * z + 8 * k, d, 32);
  }

  lemma Split(low: nat, high: nat, n: nat)
    requires low < n
    ensures (low + n * high) / n == high && (low + n * high) % n == low
  {
    TickGen.QuotientIs(low + n * high, n, high, low);
    ModIs(low + n * high, n, high, low);
  }

  // The answer to a status request, read by the driver: each classification tells the
  // stage of the lock, and "unlocked" an open lock without latched tampering.
  lemma DriverVerdict(l: Lock, tampered: bool)
    requires l.stage <= 3
    ensures var status := FromBytes(Reply(l, Status(tampered)));
      && status.Ok?
      && (ClassifyStage1(status.value) == AdvancedToStage2 <==> l.stage == 1)
      && (ClassifyStage1(status.value) == ResetToInit <==> l.stage == 0)
      && (ClassifyStage1(status.value) == ErrorUnlocked <==> l.stage == 3 && !tampered)
      && (ClassifyStage2(status.value) == AdvancedToStage3 <==> l.stage == 2)
      && (ClassifyStage2(status.value) == RemainedAtStage2 <==> l.stage == 1)
      && (ClassifyStage2(status.value) == ResetToInit <==> l.stage == 0)
      && (ClassifyStage3(status.value) == UnlockedVerdict <==> l.stage == 3 && !tampered)
      && (ClassifyStage3(status.value) == ResetToInit <==> l.stage == 0)
  {
  }

  // ----- The answers on the line -----

  // The start inputs of the transmitter, clock by clock.
  function Starts(keyW: nat, ins: seq<Input>): (s: seq<Option<Octet>>)
    requires ValidWidth(keyW)
    ensures |s| == |ins|
  {
    if ins == [] then []
    else Starts(keyW, ins[..|ins| - 1]) + [Start(TopAfter(keyW, ins[..|ins| - 1]).bridge)]
  }

  function Octets(b: seq<nat>): (o: seq<Octet>)
    requires forall k :: 0 <= k < |b| ==> b[k] < 256
    ensures |o| == |b| && forall k :: 0 <= k < |b| ==> o[k] == ToOctet(b[k])
  {
    if b == [] then [] else Octets(b[..|b| - 1]) + [ToOctet(b[|b| - 1])]
  }

  lemma StartsBefore(keyW: nat, ins: seq<Input>)
    requires ValidWidth(keyW) && ins != []
    ensures var before, starts := ins[..|ins| - 1], Starts(keyW, ins);
      && starts[..|starts| - 1] == Starts(keyW, before)
      && starts[|starts| - 1] == Start(TopAfter(keyW, before).bridge)
  {
    hide TopAfter, Start, ValidWidth;
  }

  // The transmitter of the device is that of the link.
  lemma {:induction false} WireTx(keyW: nat, ins: seq<Input>, listener: Rx)
    requires ValidWidth(keyW)
    ensures LinkAfter(Link(TOP_RESET.tx, listener), Starts(keyW, ins)).tx == TopAfter(keyW, ins).tx
  {
    hide TxStep, RxStep, Step, A.Step, ValidWidth, Start, Starts;
    if ins == [] {
      assert Starts(keyW, ins) == [];
    } else {
      WireTx(keyW, ins[..|ins| - 1], listener);
      StartsBefore(keyW, ins);
    }
  }

  // What a start hands over.
  lemma GivenIsAccepted(t: Top, l: Link)
    requires l.tx == t.tx
    ensures |Gives(t)| <= 1 && (Gives(t) != [] ==> Gives(t)[0] < 256)
    ensures Accepted(l, Start(t.bridge)) == if Gives(t) == [] then [] else [ToOctet(Gives(t)[0])]
  {
    hide ToOctet;
  }

  lemma OctetsMore(g: seq<nat>, b: seq<nat>)
    requires forall k :: 0 <= k < |g| ==> g[k] < 256
    requires |b| <= 1 && (b != [] ==> b[0] < 256)
    ensures forall k :: 0 <= k < |g + b| ==> (g + b)[k] < 256
    ensures Octets(g + b) == Octets(g) + if b == [] then [] else [ToOctet(b[0])]
  {
    hide ToOctet;
    if b == [] {
      assert g + b == g;
    } else {
      assert (g + b)[..|g|] == g;
    }
  }

  lemma {:induction false} WireFollows(keyW: nat, ins: seq<Input>, listener: Rx)
    requires ValidWidth(keyW)
    ensures var l := Link(TOP_RESET.tx, listener);
      && LinkAfter(l, Starts(keyW, ins)).tx == TopAfter(keyW, ins).tx
      && (forall k :: 0 <= k < |Given(keyW, ins)| ==> Given(keyW, ins)[k] < 256)
      && Sent(l, Starts(keyW, ins)) == Octets(Given(keyW, ins))
  {
    hide TopAfter, LinkAfter, Starts, Start, Accepted, Gives, Octets, ToOctet, ValidWidth;
    WireTx(keyW, ins, listener);
    if ins == [] {
      NothingGiven(keyW, listener);
    } else {
      var before := ins[..|ins| - 1];
      WireFollows(keyW, before, listener);
      StartsBefore(keyW, ins);
      GivenIsAccepted(TopAfter(keyW, before), LinkAfter(Link(TOP_RESET.tx, listener), Starts(keyW, before)));
      OctetsMore(Given(keyW, before), Gives(TopAfter(keyW, before)));
    }
  }

  lemma NothingGiven(keyW: nat, listener: Rx)
    requires ValidWidth(keyW)
    ensures Given(keyW, []) == [] && Sent(Link(TOP_RESET.tx, listener), Starts(keyW, [])) == Octets([])
  {
  }

  // No answer is being sent or waits to be sent.
  predicate Quiet(t: Top) {
    Listens(t) && !t.bridge.txStart && !TxBusy(t.tx)
  }

  // The octet on the line determines the byte.
  lemma OctetExact(a: Byte, b: Byte)
    ensures ToOctet(a) == ToOctet(b) <==> a == b
  {
    hide A.Cast, TickGen.Pow2;
    CastEqual(a, b, 8);
    EightMore(8);
    TickGen.PowZero();
    SmallMod(a, 256);
    SmallMod(b, 256);
  }

  // A receiver on the line hears the answers to the complete commands, in order, and
  // nothing else, whatever the phase of its accumulator.
  lemma AnswersAreHeard(keyW: nat, ins: seq<Input>, listener: Rx)
    requires ValidWidth(keyW)
    requires Idle(Link(TOP_RESET.tx, listener))
    ensures var heard := Received(Link(TOP_RESET.tx, listener), Starts(keyW, ins));
      var replies := Replies(keyW, Heard(keyW, ins).commands);
      && |heard| <= |replies| <= |heard| + 3
      && (forall k :: 0 <= k < |heard| ==> replies[k] < 256 && heard[k] == ToOctet(replies[k]))
      && (Quiet(TopAfter(keyW, ins)) ==> |heard| == |replies|)
  {
    hide Idle, TopAfter, Heard, Replies, Given, Sent, Received, LinkAfter, Starts, ToOctet;
    WireFollows(keyW, ins, listener);
    BytesArrive(Link(TOP_RESET.tx, listener), Starts(keyW, ins));
    AnswersInOrder(keyW, ins);
  }

  lemma OctetsSnoc(s: seq<Symbol>, x: seq<Symbol>)
    requires |x| <= 1
    ensures Octets(Bytes(s + x)) == Octets(Bytes(s)) + if x == [] then [] else [ToOctet(x[0].byte)]
  {
    hide ToOctet;
    if x == [] {
      assert s + x == s;
    } else {
      assert (s + x)[..|s|] == s;
      assert Bytes(s + x)[..|s|] == Bytes(s);
    }
  }

  lemma OctetsExact(a: seq<Byte>, b: seq<Byte>)
    requires Octets(a) <= Octets(b)
    ensures a <= b
  {
    hide ToOctet;
    forall k | 0 <= k < |a|
      ensures a[k] == b[k]
    {
      assert Octets(a)[k] == Octets(b)[k];
      OctetExact(a[k], b[k]);
    }
  }

  lemma ByteOfOctet(b: Byte)
    ensures FromOctet(ToOctet(b)) == b
  {
    hide ToOctet, FromOctet;
    OctetOfByte(ToOctet(b));
    OctetExact(FromOctet(ToOctet(b)), b);
  }
}
