// When secure_aes_top is unlocked: exactly after three commits in a row that assemble
// the three platform keys, each from words freshly written since the commit before it.
module UnlockTrace {
  import opened SecureAesTop
  import opened SecureAesRuns
  import TickGen
  import A = AuthController
  import C = AesCore

  // ----- What the host did, read off the inputs -----

  // Word a is written at some edge between c and n, both excluded.
  predicate WrittenSince(ins: seq<Inputs>, c: int, n: int, a: int)
    requires -1 <= c && n <= |ins|
    decreases n
  {
    n > c + 1 && (Writes(ins[n - 1], a) || WrittenSince(ins, c, n - 1, a))
  }

  predicate FreshSince(p: Params, ins: seq<Inputs>, c: int, n: int)
    requires -1 <= c && n <= |ins|
  {
    forall a :: 0 <= a < p.KeyWords() ==> WrittenSince(ins, c, n, a)
  }

  lemma {:induction false} WrittenSinceMeans(ins: seq<Inputs>, c: int, n: int, a: int)
    requires -1 <= c && n <= |ins|
    ensures WrittenSince(ins, c, n, a) <==> exists w :: c < w < n && Writes(ins[w], a)
    decreases n
  {
    if n > c + 1 {
      WrittenSinceMeans(ins, c, n - 1, a);
    }
  }

  // The key that the writes at edges s+1 to n-1 assemble, from zero.
  function AssembledKey(p: Params, ins: seq<Inputs>, s: int, n: int): (key: A.Bits)
    requires -1 <= s && n <= |ins|
    ensures |key| == p.keyW
    decreases n
  {
    if n <= s + 1 then Zeros(p.keyW)
    else
      var before := AssembledKey(p, ins, s, n - 1);
      var i := ins[n - 1];
      if i.keyWrEn && !BadWrite(p, i) then WriteWord(before, i.keyWrAddr, i.keyWrData) else before
  }

  lemma WrittenWord(key: A.Bits, addr: Addr3, data: Data, a: int, j: nat)
    requires 0 <= a && 32 * a <= j < 32 * a + 32 && j < |key|
    ensures WriteWord(key, addr, data)[j] == if addr == a then data[j - 32 * a] else key[j]
  {
  }

  // Each key word is the data of the last write to its address: address 0 is the least
  // significant word.
  lemma {:induction false} AssembledWord(p: Params, ins: seq<Inputs>, s: int, n: int, w: int, a: int, j: nat)
    requires -1 <= s < w < n <= |ins|
    requires 0 <= a < p.KeyWords() && Writes(ins[w], a) && (forall e :: w < e < n ==> !Writes(ins[e], a))
    requires 32 * a <= j < 32 * a + 32 && j < p.keyW
    ensures AssembledKey(p, ins, s, n)[j] == ins[w].keyWrData[j - 32 * a]
    decreases n
  {
    hide WriteWord;
    WrittenWord(AssembledKey(p, ins, s, n - 1), ins[n - 1].keyWrAddr, ins[n - 1].keyWrData, a, j);
    if w < n - 1 {
      AssembledWord(p, ins, s, n - 1, w, a, j);
    }
  }

  // ----- The last clear and the commits since -----

  // An edge, or -1 for reset.
  type Mark = x: int | x >= -1 witness -1

  datatype Marks = Marks(start: Mark, count: nat, c0: Mark, c1: Mark, c2: Mark) {
    // The edge after which the present word mask has been collected.
    function Last(): Mark {
      if count == 0 then start else if count == 1 then c0 else if count == 2 then c1 else c2
    }

    function Previous(): Mark {
      if count <= 1 then start else if count == 2 then c0 else c1
    }

    function Commit(k: nat): Marks {
      if count == 0 then this.(count := 1, c0 := k)
      else if count == 1 then this.(count := 2, c1 := k)
      else if count == 2 then this.(count := 3, c2 := k)
      else this
    }
  }

  // A commit whose comparison is still to come.
  predicate Pending(m: Marks, n: nat) {
    m.count > 0 && m.Last() == n - 1
  }

  function Compared(m: Marks, n: nat): nat {
    if Pending(m, n) then m.count - 1 else m.count
  }

  // What clears the lock in cycle k: a zeroize; and while three commits have not yet
  // passed, a write out of range one edge before, or a commit one edge before of words
  // that are not all fresh or of a wrong key.
  predicate Clears(p: Params, ins: seq<Inputs>, m: Marks, k: nat)
    requires k < |ins|
  {
    || ins[k].zeroize
    || (&& Compared(m, k) < 3
        && (|| (k - 1 > m.start && BadWrite(p, ins[k - 1]))
            || (&& Pending(m, k)
                && (|| !FreshSince(p, ins, m.Previous(), m.Last())
                    || AssembledKey(p, ins, m.start, k) != A.PlatformKey(Compared(m, k), p.keyW)))))
  }

  function MarksStep(p: Params, ins: seq<Inputs>, m: Marks, k: nat): Marks
    requires k < |ins|
  {
    if Clears(p, ins, m, k) then Marks(k, 0, -1, -1, -1)
    else if ins[k].commit then m.Commit(k)
    else m
  }

  // The last clear and the commits since, from the inputs alone.
  function MarksAt(p: Params, ins: seq<Inputs>, n: nat): Marks
    requires n <= |ins|
  {
    if n == 0 then Marks(-1, 0, -1, -1, -1)
    else MarksStep(p, ins, MarksAt(p, ins, n - 1), n - 1)
  }

  predicate Cleared(p: Params, ins: seq<Inputs>, k: nat)
    requires k < |ins|
  {
    Clears(p, ins, MarksAt(p, ins, k), k)
  }

  // A clean sequence of three commits c0, c1, c2 after the clear (or reset) at s, with
  // nothing since that would lock the device again before cycle n.
  ghost predicate Authentic(p: Params, ins: seq<Inputs>, n: nat, s: int, c0: int, c1: int, c2: int)
    requires n <= |ins|
  {
    && -1 <= s < c0 < c1 < c2 < n - 1
    && (s == -1 || Cleared(p, ins, s))
    && (forall e :: s < e < n ==> !ins[e].zeroize)
    && (forall e :: s < e <= c2 ==> !BadWrite(p, ins[e]))
    && (forall e :: s < e <= c2 ==> (ins[e].commit <==> e == c0 || e == c1 || e == c2))
    && FreshSince(p, ins, s, c0)
    && FreshSince(p, ins, c0, c1)
    && FreshSince(p, ins, c1, c2)
    && AssembledKey(p, ins, s, c0 + 1) == A.PlatformKey(0, p.keyW)
    && AssembledKey(p, ins, s, c1 + 1) == A.PlatformKey(1, p.keyW)
    && AssembledKey(p, ins, s, c2 + 1) == A.PlatformKey(2, p.keyW)
  }

  // ----- The registers of the lock -----

  ghost predicate Ordered(m: Marks, n: nat) {
    && -1 <= m.start < n && m.count <= 3
    && (m.count >= 1 ==> m.start < m.c0 < n)
    && (m.count >= 2 ==> m.c0 < m.c1 < n)
    && (m.count >= 3 ==> m.c1 < m.c2 < n)
  }

  // The edges that matter for the sequence: all since the clear, up to the third commit.
  predicate Relevant(m: Marks, n: nat, e: int) {
    m.start < e < n && (m.count == 3 ==> e <= m.c2)
  }

  ghost predicate CleanInputs(p: Params, ins: seq<Inputs>, m: Marks, n: nat)
    requires n <= |ins| && Ordered(m, n)
  {
    && (forall e :: m.start < e < n ==> !ins[e].zeroize)
    && (forall e :: Relevant(m, n, e) && e < n - 1 ==> !BadWrite(p, ins[e]))
    && (forall e :: Relevant(m, n, e) ==>
          (ins[e].commit <==>
             (m.count >= 1 && e == m.c0) || (m.count >= 2 && e == m.c1) || (m.count >= 3 && e == m.c2)))
  }

  // The comparisons that have been made have all succeeded.
  ghost predicate PassedStages(p: Params, ins: seq<Inputs>, m: Marks, n: nat)
    requires n <= |ins| && Ordered(m, n)
  {
    && (Compared(m, n) >= 1 ==>
          FreshSince(p, ins, m.start, m.c0) && AssembledKey(p, ins, m.start, m.c0 + 1) == A.PlatformKey(0, p.keyW))
    && (Compared(m, n) >= 2 ==>
          FreshSince(p, ins, m.c0, m.c1) && AssembledKey(p, ins, m.start, m.c1 + 1) == A.PlatformKey(1, p.keyW))
    && (Compared(m, n) >= 3 ==>
          FreshSince(p, ins, m.c1, m.c2) && AssembledKey(p, ins, m.start, m.c2 + 1) == A.PlatformKey(2, p.keyW))
  }

  // The registers of the lock follow from the marks.
  ghost predicate LockRegisters(p: Params, ins: seq<Inputs>, m: Marks, n: nat, t: Regs)
    requires n <= |ins| && Ordered(m, n) && Shaped(p, t)
  {
    && A.Stage(t.auth.state) == Compared(m, n)
    && (m.count < 3 ==>
          forall a :: 0 <= a < p.KeyWords() ==> t.asm.mask[a] == WrittenSince(ins, m.Last(), n, a))
    && (m.count < 3 || Pending(m, n) ==> t.asm.key == AssembledKey(p, ins, m.start, n))
    && (Pending(m, n) ==>
          && t.asm.doCompare == FreshSince(p, ins, m.Previous(), m.Last())
          && t.asm.commitIllegal == (BadWrite(p, ins[n - 1]) || !FreshSince(p, ins, m.Previous(), m.Last())))
    && (!Pending(m, n) && m.count < 3 ==>
          !t.asm.doCompare && t.asm.commitIllegal == (n - 1 > m.start && BadWrite(p, ins[n - 1])))
  }

  ghost predicate LockInv(p: Params, ins: seq<Inputs>, m: Marks, n: nat, t: Regs)
    requires p.Valid() && n <= |ins| && Shaped(p, t)
  {
    && Ordered(m, n)
    && (m.start >= 0 ==> Cleared(p, ins, m.start))
    && CleanInputs(p, ins, m, n)
    && PassedStages(p, ins, m, n)
    && LockRegisters(p, ins, m, n, t)
  }

  // ----- One edge -----

  lemma ClearEdge(p: Params, ins: seq<Inputs>, k: nat, t: Regs)
    requires p.Valid() && k < |ins| && t == At(p, ins, k) && AuthZ(t, ins[k]) && !t.auth.tamper.latched
    requires Cleared(p, ins, k)
    ensures LockInv(p, ins, Marks(k, 0, -1, -1, -1), k + 1, Step(p, t, ins[k]))
  {
    hide At, BuffersStep, C.Step, CoreInputs, A.TamperStep, A.PlatformKey, Clears, Cleared;
  }

  // As long as no tampering is latched, auth_zeroize is exactly that.
  lemma ClearsIsZeroize(p: Params, ins: seq<Inputs>, m: Marks, k: nat, t: Regs)
    requires p.Valid() && k < |ins| && Shaped(p, t) && LockInv(p, ins, m, k, t) && !t.auth.tamper.latched
    ensures Clears(p, ins, m, k) <==> AuthZ(t, ins[k])
  {
    hide FreshSince, AssembledKey, A.PlatformKey, Shaped, CleanInputs, PassedStages, WrittenSince, BadWrite;
  }

  // Without a clear, every comparison that is due succeeds.
  lemma DueComparisonPasses(p: Params, ins: seq<Inputs>, m: Marks, k: nat, t: Regs)
    requires p.Valid() && k < |ins| && Shaped(p, t) && LockInv(p, ins, m, k, t)
    requires !AuthZ(t, ins[k])
    ensures !ins[k].zeroize
    ensures PassedStages(p, ins, m, k + 1)
    ensures k - 1 > m.start && Relevant(m, k, k - 1) ==> !BadWrite(p, ins[k - 1])
    ensures A.Stage(A.FsmStep(t.auth.state, A.ToFsm(t.auth, AuthInputs(t, ins[k])))) == m.count
  {
    hide FreshSince, AssembledKey, A.PlatformKey, Shaped;
  }

  lemma MaskAllValid(p: Params, ins: seq<Inputs>, m: Marks, k: nat, t: Regs)
    requires p.Valid() && k < |ins| && Shaped(p, t) && LockInv(p, ins, m, k, t) && m.count < 3
    ensures AllValid(t.asm.mask) <==> FreshSince(p, ins, m.Last(), k)
  {
    hide AssembledKey, A.PlatformKey, CleanInputs, PassedStages;
  }

  // The key assembly registers, when nothing is cleared.
  lemma AssemblyEdge(p: Params, ins: seq<Inputs>, m: Marks, k: nat, t: Regs)
    requires p.Valid() && k < |ins| && Shaped(p, t) && LockInv(p, ins, m, k, t)
    requires !AuthZ(t, ins[k]) && !Clears(p, ins, m, k) && !t.auth.tamper.latched && m.count < 3
    ensures var asm, m' := Step(p, t, ins[k]).asm, MarksStep(p, ins, m, k);
      && asm.key == AssembledKey(p, ins, m.start, k + 1)
      && (m'.count < 3 ==>
            forall a :: 0 <= a < p.KeyWords() ==> asm.mask[a] == WrittenSince(ins, m'.Last(), k + 1, a))
      && asm.doCompare == (ins[k].commit && FreshSince(p, ins, m.Last(), k))
      && asm.commitIllegal == (BadWrite(p, ins[k]) || (ins[k].commit && !FreshSince(p, ins, m.Last(), k)))
  {
    hide CleanInputs, PassedStages, A.PlatformKey, A.Step, BuffersStep, C.Step, CoreInputs, FreshSince,
         AllValid, AuthZ, WriteWord, Clears;
    MaskAllValid(p, ins, m, k, t);
    assert !ins[k].zeroize by { NoZeroize(t, ins[k]); }
  }

  lemma NoZeroize(t: Regs, i: Inputs)
    requires !AuthZ(t, i)
    ensures !i.zeroize
  {
  }

  lemma CleanEdge(p: Params, ins: seq<Inputs>, m: Marks, k: nat, t: Regs)
    requires p.Valid() && k < |ins| && Shaped(p, t) && LockInv(p, ins, m, k, t)
    requires !AuthZ(t, ins[k]) && !Clears(p, ins, m, k)
    ensures var m' := MarksStep(p, ins, m, k); Ordered(m', k + 1) && CleanInputs(p, ins, m', k + 1)
  {
    hide FreshSince, AssembledKey, A.PlatformKey, Shaped, AuthZ, LockRegisters, PassedStages, BadWrite, Clears;
    NoZeroize(t, ins[k]);
    DueComparisonPasses(p, ins, m, k, t);
  }

  lemma StagesEdge(p: Params, ins: seq<Inputs>, m: Marks, k: nat, t: Regs)
    requires p.Valid() && k < |ins| && Shaped(p, t) && LockInv(p, ins, m, k, t)
    requires !AuthZ(t, ins[k]) && !Clears(p, ins, m, k)
    ensures var m' := MarksStep(p, ins, m, k); Ordered(m', k + 1) && PassedStages(p, ins, m', k + 1)
  {
    hide FreshSince, AssembledKey, A.PlatformKey, Shaped, AuthZ, LockRegisters, CleanInputs, BadWrite, Clears;
    DueComparisonPasses(p, ins, m, k, t);
  }

  lemma RegistersEdge(p: Params, ins: seq<Inputs>, m: Marks, k: nat, t: Regs)
    requires p.Valid() && k < |ins| && Shaped(p, t) && LockInv(p, ins, m, k, t)
    requires !AuthZ(t, ins[k]) && !Clears(p, ins, m, k) && !t.auth.tamper.latched
    ensures var m' := MarksStep(p, ins, m, k);
      Ordered(m', k + 1) && LockRegisters(p, ins, m', k + 1, Step(p, t, ins[k]))
  {
    hide FreshSince, AssembledKey, A.PlatformKey, AuthZ, BadWrite, AssemblyStep, BuffersStep, C.Step, CoreInputs,
         A.FsmStep, A.ToFsm, A.TamperStep, CleanInputs, PassedStages, WrittenSince, Clear, Clears;
    CleanEdge(p, ins, m, k, t);
    DueComparisonPasses(p, ins, m, k, t);
    if m.count < 3 {
      AssemblyEdge(p, ins, m, k, t);
    }
  }

  lemma LockEdge(p: Params, ins: seq<Inputs>, k: nat)
    requires p.Valid() && k < |ins|
    requires !At(p, ins, k).auth.tamper.latched
    requires LockInv(p, ins, MarksAt(p, ins, k), k, At(p, ins, k))
    ensures LockInv(p, ins, MarksAt(p, ins, k + 1), k + 1, At(p, ins, k + 1))
  {
    hide FreshSince, AssembledKey, A.PlatformKey, AuthZ, BadWrite, Step, Ordered, CleanInputs, PassedStages,
         LockRegisters, Clears;
    var m, t := MarksAt(p, ins, k), At(p, ins, k);
    ClearsIsZeroize(p, ins, m, k, t);
    if AuthZ(t, ins[k]) {
      ClearEdge(p, ins, k, t);
    } else {
      CleanEdge(p, ins, m, k, t);
      StagesEdge(p, ins, m, k, t);
      RegistersEdge(p, ins, m, k, t);
    }
  }

  lemma LockInvAtReset(p: Params, ins: seq<Inputs>)
    requires p.Valid()
    ensures LockInv(p, ins, MarksAt(p, ins, 0), 0, At(p, ins, 0))
  {
    hide A.PlatformKey, NewBuffers;
  }

  lemma LatchMonotone(p: Params, ins: seq<Inputs>, n: nat)
    requires p.Valid() && 0 < n <= |ins| && !At(p, ins, n).auth.tamper.latched
    ensures !At(p, ins, n - 1).auth.tamper.latched
  {
    hide AssemblyStep, BuffersStep, C.Step, CoreInputs;
  }

  lemma {:induction false} LockInvAlways(p: Params, ins: seq<Inputs>, n: nat)
    requires p.Valid() && n <= |ins| && !At(p, ins, n).auth.tamper.latched
    ensures LockInv(p, ins, MarksAt(p, ins, n), n, At(p, ins, n))
  {
    hide LockInv, At, MarksAt;
    if n == 0 {
      LockInvAtReset(p, ins);
    } else {
      LatchMonotone(p, ins, n);
      LockInvAlways(p, ins, n - 1);
      LockEdge(p, ins, n - 1);
    }
  }

  // ----- Soundness -----

  lemma UnlockedImpliesAuthentic(p: Params, ins: seq<Inputs>, n: nat)
    requires p.Valid() && n <= |ins| && Unlocked(At(p, ins, n))
    ensures var m := MarksAt(p, ins, n); Authentic(p, ins, n, m.start, m.c0, m.c1, m.c2)
  {
    hide At, MarksAt, FreshSince, AssembledKey, A.PlatformKey, Cleared, BadWrite;
    LockInvAlways(p, ins, n);
  }

  // ----- Completeness -----

  // The marks of a clean sequence before cycle k.
  function Expected(s: int, c0: int, c1: int, c2: int, k: int): Marks
    requires -1 <= s && -1 <= c0 && -1 <= c1 && -1 <= c2
  {
    if k <= c0 then Marks(s, 0, -1, -1, -1)
    else if k <= c1 then Marks(s, 1, c0, -1, -1)
    else if k <= c2 then Marks(s, 2, c0, c1, -1)
    else Marks(s, 3, c0, c1, c2)
  }

  lemma AuthenticNotCleared(p: Params, ins: seq<Inputs>, n: nat, s: int, c0: int, c1: int, c2: int, k: nat)
    requires n <= |ins| && Authentic(p, ins, n, s, c0, c1, c2) && s < k < n
    ensures !Clears(p, ins, Expected(s, c0, c1, c2, k), k)
  {
    hide FreshSince, AssembledKey, A.PlatformKey, Cleared, BadWrite;
  }

  lemma {:induction false} AuthenticMarks(p: Params, ins: seq<Inputs>, n: nat, s: int, c0: int, c1: int, c2: int,
                                          k: nat)
    requires n <= |ins| && Authentic(p, ins, n, s, c0, c1, c2) && s < k <= n
    ensures MarksAt(p, ins, k) == Expected(s, c0, c1, c2, k)
    decreases k
  {
    hide FreshSince, AssembledKey, A.PlatformKey, BadWrite, Clears;
    if k > 0 && k - 1 > s {
      AuthenticMarks(p, ins, n, s, c0, c1, c2, k - 1);
      AuthenticNotCleared(p, ins, n, s, c0, c1, c2, k - 1);
    }
  }

  lemma AuthenticImpliesUnlocked(p: Params, ins: seq<Inputs>, n: nat, s: int, c0: int, c1: int, c2: int)
    requires p.Valid() && n <= |ins| && Authentic(p, ins, n, s, c0, c1, c2)
    requires !At(p, ins, n).auth.tamper.latched
    ensures Unlocked(At(p, ins, n))
  {
    hide At, MarksAt, FreshSince, AssembledKey, A.PlatformKey, Cleared, BadWrite, CleanInputs, PassedStages;
    AuthenticMarks(p, ins, n, s, c0, c1, c2, n);
    LockInvAlways(p, ins, n);
  }

  // What the host has written for each commit of a clean sequence: bit j of the platform
  // key of that stage is bit j - 32a of the data last written to address a.
  lemma PresentedKey(p: Params, ins: seq<Inputs>, n: nat, s: int, c0: int, c1: int, c2: int,
                     stage: nat, w: int, a: int, j: nat)
    requires n <= |ins| && Authentic(p, ins, n, s, c0, c1, c2) && stage < 3
    requires s < w <= [c0, c1, c2][stage] && 0 <= a < p.KeyWords() && Writes(ins[w], a)
    requires forall e :: w < e <= [c0, c1, c2][stage] ==> !Writes(ins[e], a)
    requires 32 * a <= j < 32 * a + 32 && j < p.keyW
    ensures var keys := [0x00112233_44556677_8899AABB_CCDDEEFF, 0x11111111_22222222_33333333_44444444,
                         0xAAAABBBB_CCCCDDDD_EEEEFFFF_12345678];
      ins[w].keyWrData[j - 32 * a] <==> keys[stage] / TickGen.Pow2(j) % 2 == 1
  {
    hide Cleared, BadWrite, FreshSince, AssembledKey, A.Cast, TickGen.Pow2;
    AssembledWord(p, ins, s, [c0, c1, c2][stage] + 1, w, a, j);
    A.CastBit([A.PK0, A.PK1, A.PK2][stage], p.keyW, j);
  }

  // The unlocked output, in any cycle of any run: it is high exactly when no tamper
  // event has been latched and an authentic sequence has been completed.
  lemma UnlockedExactly(p: Params, ins: seq<Inputs>, n: nat)
    requires p.Valid() && n <= |ins|
    ensures Unlocked(At(p, ins, n)) <==>
      && !(exists j :: 0xFFFE <= j < n - 2 && !ins[j].tamperIn)
      && (exists s, c0, c1, c2 :: Authentic(p, ins, n, s, c0, c1, c2))
  {
    hide At, Authentic, MarksAt;
    LatchedExactly(p, ins, n);
    if Unlocked(At(p, ins, n)) {
      UnlockedImpliesAuthentic(p, ins, n);
    } else if !At(p, ins, n).auth.tamper.latched {
      forall s, c0, c1, c2 | Authentic(p, ins, n, s, c0, c1, c2)
        ensures false
      {
        AuthenticImpliesUnlocked(p, ins, n, s, c0, c1, c2);
      }
    }
  }
}
