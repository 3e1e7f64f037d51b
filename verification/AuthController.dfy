// The authentication controller of the multi-key top: platform_key_store.v,
// key_activation_compare.v, platform_unlock_fsm.v and auth_controller_top.v.
module AuthController {
  import TickGen

  // A key register is its bits, least significant first.
  type Bits = seq<bool>

  // ----- platform_key_store.v and key_activation_compare.v -----

  const PK0 := 0x00112233_44556677_8899AABB_CCDDEEFF
  const PK1 := 0x11111111_22222222_33333333_44444444
  const PK2 := 0xAAAABBBB_CCCCDDDD_EEEEFFFF_12345678

  // The cast of a 128-bit constant to a width of `width` bits.
  function Cast(c: nat, width: nat): (bits: Bits)
    ensures |bits| == width
    decreases width
  {
    if width == 0 then [] else [c % 2 == 1] + Cast(c / 2, width - 1)
  }

  function PlatformKey(keySel: nat, width: nat): (bits: Bits)
    ensures |bits| == width
  {
    if keySel == 0 then Cast(PK0, width)
    else if keySel == 1 then Cast(PK1, width)
    else if keySel == 2 then Cast(PK2, width)
    else seq(width, _ => false)
  }

  lemma CastParts(c: nat, width: nat)
    requires width > 0
    ensures Cast(c, width)[0] == (c % 2 == 1)
    ensures forall j :: 0 < j < width ==> Cast(c, width)[j] == Cast(c / 2, width - 1)[j - 1]
  {
  }

  lemma PowStep(j: nat)
    requires j > 0
    ensures TickGen.Pow2(j) == 2 * TickGen.Pow2(j - 1)
  {
  }

  // Bit j of the cast is the binary digit of weight 2^j.
  lemma {:induction false} CastBit(c: nat, width: nat, j: nat)
    requires j < width
    ensures Cast(c, width)[j] <==> c / TickGen.Pow2(j) % 2 == 1
    decreases width
  {
    hide Cast, TickGen.Pow2;
    CastParts(c, width);
    if j > 0 {
      CastBit(c / 2, width - 1, j - 1);
      PowStep(j);
      TickGen.DivDiv(c, 2, TickGen.Pow2(j - 1));
    } else {
      TickGen.PowZero();
    }
  }

  predicate Match(keyIn: Bits, keyHw: Bits) {
    keyIn == keyHw
  }

  // ----- platform_unlock_fsm.v -----

  datatype State = WAIT_K0 | WAIT_K1 | WAIT_K2 | UNLOCKED

  datatype FsmInputs = FsmInputs(zeroize: bool, doCompare: bool, match_: bool, commitIllegal: bool)

  function KeySel(state: State): nat {
    match state
    case WAIT_K0 => 0
    case WAIT_K1 => 1
    case WAIT_K2 => 2
    case UNLOCKED => 0
  }

  // How far the unlock sequence has come.
  function Stage(state: State): nat {
    match state
    case WAIT_K0 => 0
    case WAIT_K1 => 1
    case WAIT_K2 => 2
    case UNLOCKED => 3
  }

  function Advanced(state: State): State {
    match state
    case WAIT_K0 => WAIT_K1
    case WAIT_K1 => WAIT_K2
    case WAIT_K2 => UNLOCKED
    case UNLOCKED => UNLOCKED
  }

  // The request to clear the circuit, in the same cycle.
  predicate FsmZeroize(state: State, i: FsmInputs) {
    i.zeroize || (!state.UNLOCKED? && (i.commitIllegal || (i.doCompare && !i.match_)))
  }

  function FsmStep(state: State, i: FsmInputs): State {
    if FsmZeroize(state, i) then WAIT_K0
    else if i.doCompare && !state.UNLOCKED? then Advanced(state)
    else state
  }

  class PlatformUnlockFsm {
    var state: State

    constructor ()
      ensures state == WAIT_K0
    {
      state := WAIT_K0;
    }

    // The combinational outputs and the next state, case by case.
    method Comb(i: FsmInputs)
      returns (next: State, aesEnable: bool, unlocked: bool, zeroize: bool, keySel: nat, stateDebug: nat)
      ensures next == FsmStep(state, i)
      ensures aesEnable == unlocked == state.UNLOCKED?
      ensures zeroize == FsmZeroize(state, i)
      ensures keySel == KeySel(state)
      ensures stateDebug == Stage(state)
    {
      next, aesEnable, unlocked, zeroize, keySel, stateDebug := state, false, false, false, 0, Stage(state);
      match state {
        case WAIT_K0 =>
          keySel := 0;
          if i.zeroize || i.commitIllegal {
            zeroize, next := true, WAIT_K0;
          } else if i.doCompare {
            if i.match_ { next := WAIT_K1; } else { zeroize, next := true, WAIT_K0; }
          }
        case WAIT_K1 =>
          keySel := 1;
          if i.zeroize || i.commitIllegal {
            zeroize, next := true, WAIT_K0;
          } else if i.doCompare {
            if i.match_ { next := WAIT_K2; } else { zeroize, next := true, WAIT_K0; }
          }
        case WAIT_K2 =>
          keySel := 2;
          if i.zeroize || i.commitIllegal {
            zeroize, next := true, WAIT_K0;
          } else if i.doCompare {
            if i.match_ { next := UNLOCKED; } else { zeroize, next := true, WAIT_K0; }
          }
        case UNLOCKED =>
          aesEnable, unlocked, keySel := true, true, 0;
          if i.zeroize {
            zeroize, next := true, WAIT_K0;
          }
      }
    }

    method Edge(i: FsmInputs)
      modifies this
      ensures state == FsmStep(old(state), i)
    {
      var next, _, _, _, _, _ := Comb(i);
      state := next;
    }
  }

  // ----- The tamper latch of auth_controller_top.v -----

  type Bits16 = x: int | 0 <= x < 0x1_0000

  // Synchroniser, arming counter and latch.
  datatype Tamper = Tamper(sync0: bool, sync1: bool, latched: bool, armed: bool, armCount: Bits16)

  const TAMPER_RESET := Tamper(true, true, false, false, 0)

  // The tamper input is active low.
  function TamperStep(t: Tamper, tamperIn: bool): Tamper {
    Tamper(
      tamperIn, t.sync0,
      t.latched || (t.armed && !t.sync1),
      t.armed || t.armCount == 0xFFFF,
      if t.armed then t.armCount else (t.armCount + 1) % 0x1_0000)
  }

  function TamperRun(ins: seq<bool>): Tamper {
    if ins == [] then TAMPER_RESET else TamperStep(TamperRun(ins[..|ins| - 1]), ins[|ins| - 1])
  }

  // Some sample that the armed latch looks at is low: it is looked at two edges after
  // it was taken, and the latch is armed from edge 65536 on.
  ghost predicate TamperSeen(ins: seq<bool>) {
    exists j :: 0xFFFE <= j < |ins| - 2 && !ins[j]
  }

  // The register contents after any number of edges.
  lemma {:induction false} TamperClosedForm(ins: seq<bool>)
    ensures var t, n := TamperRun(ins), |ins|;
      && t.sync0 == (n >= 1 ==> ins[n - 1])
      && t.sync1 == (n >= 2 ==> ins[n - 2])
      && t.armed == (n >= 0x1_0000)
      && t.armCount == (if n < 0x1_0000 then n else 0)
      && (t.latched <==> TamperSeen(ins))
  {
    if ins != [] {
      var n := |ins|;
      var before := ins[..n - 1];
      TamperClosedForm(before);
      assert forall j :: 0 <= j < n - 1 ==> before[j] == ins[j];
      if TamperSeen(before) {
        var j :| 0xFFFE <= j < |before| - 2 && !before[j];
        assert !ins[j];
      }
      if TamperSeen(ins) {
        var j :| 0xFFFE <= j < |ins| - 2 && !ins[j];
        assert j == n - 3 || !before[j];
      }
    }
  }

  // The latch is set after n edges exactly when a low sample was taken at or after edge
  // 65534 and at least three edges ago.
  lemma TamperLatchExact(ins: seq<bool>)
    ensures TamperRun(ins).latched <==> exists j :: 0xFFFE <= j < |ins| - 2 && !ins[j]
  {
    TamperClosedForm(ins);
  }

  lemma {:induction false} LatchIsForever(ins: seq<bool>, n: nat)
    requires n <= |ins| && TamperRun(ins[..n]).latched
    ensures TamperRun(ins).latched
    decreases |ins| - n
  {
    if n == |ins| {
      assert ins[..n] == ins;
    } else {
      assert ins[..n + 1][..n] == ins[..n];
      LatchIsForever(ins, n + 1);
    }
  }

  // ----- auth_controller_top.v -----

  datatype Inputs = Inputs(
    zeroize: bool, tamperIn: bool, doCompare: bool, commitIllegal: bool, authKeyIn: Bits)

  datatype Regs = Regs(state: State, tamper: Tamper)

  const RESET := Regs(WAIT_K0, TAMPER_RESET)

  function ToFsm(r: Regs, i: Inputs): FsmInputs {
    FsmInputs(i.zeroize, i.doCompare, Match(i.authKeyIn, PlatformKey(KeySel(r.state), |i.authKeyIn|)), i.commitIllegal)
  }

  // The outputs, overridden once tampering has been latched.
  predicate Unlocked(r: Regs) {
    !r.tamper.latched && r.state.UNLOCKED?
  }

  predicate AuthZeroize(r: Regs, i: Inputs) {
    r.tamper.latched || FsmZeroize(r.state, ToFsm(r, i))
  }

  function Step(r: Regs, i: Inputs): Regs {
    Regs(FsmStep(r.state, ToFsm(r, i)), TamperStep(r.tamper, i.tamperIn))
  }

  class AuthControllerTop {
    const unitFsm: PlatformUnlockFsm
    var syncTamper0: bool
    var syncTamper1: bool
    var tamperLatched: bool
    var trapArmed: bool
    var tamperArmCount: Bits16

    function Registers(): Regs
      reads this, unitFsm
    {
      Regs(unitFsm.state, Tamper(syncTamper0, syncTamper1, tamperLatched, trapArmed, tamperArmCount))
    }

    constructor ()
      ensures Registers() == RESET && fresh(unitFsm)
    {
      unitFsm := new PlatformUnlockFsm();
      syncTamper0, syncTamper1, tamperLatched, trapArmed, tamperArmCount := true, true, false, false, 0;
    }

    method Outputs(i: Inputs)
      returns (aesEnable: bool, unlocked: bool, authZeroize: bool, keySel: nat, stateDebug: nat)
      ensures aesEnable == unlocked == Unlocked(Registers())
      ensures authZeroize == AuthZeroize(Registers(), i)
      ensures keySel == KeySel(Registers().state) && stateDebug == Stage(Registers().state)
    {
      var keyHw := PlatformKey(KeySel(unitFsm.state), |i.authKeyIn|);
      var matchQ := Match(i.authKeyIn, keyHw);
      var fsmIn := FsmInputs(i.zeroize, i.doCompare, matchQ, i.commitIllegal);
      var _, aesEnableFsm, unlockedFsm, zeroizeFsm, sel, debug := unitFsm.Comb(fsmIn);
      keySel, stateDebug := sel, debug;
      unlocked := if tamperLatched then false else unlockedFsm;
      aesEnable := if tamperLatched then false else aesEnableFsm;
      authZeroize := if tamperLatched then true else zeroizeFsm;
    }

    method Edge(i: Inputs)
      modifies this, unitFsm
      ensures Registers() == Step(old(Registers()), i)
    {
      var keyHw := PlatformKey(KeySel(unitFsm.state), |i.authKeyIn|);
      unitFsm.Edge(FsmInputs(i.zeroize, i.doCompare, Match(i.authKeyIn, keyHw), i.commitIllegal));
      // The right-hand sides are the values before the edge.
      var sync0, sync1, armed := syncTamper0, syncTamper1, trapArmed;
      var armCount: Bits16 := tamperArmCount;
      syncTamper0 := i.tamperIn;
      syncTamper1 := sync0;
      if !armed {
        tamperArmCount := (armCount + 1) % 0x1_0000;
        if armCount == 0xFFFF {
          trapArmed := true;
        }
      }
      if armed && !sync1 {
        tamperLatched := true;
      }
    }
  }
}
