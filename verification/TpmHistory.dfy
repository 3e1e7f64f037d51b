// The state of the TPM device after any history of commands, in closed form.
module TpmHistory {
  import opened Common
  import opened TpmCore
  import opened Words
  import Aes
  import P = PackedWords

  function Run(act: seq<Word32>, cmds: seq<Cmd>): (d: Dev)
    ensures Formed(d)
  {
    if cmds == [] then NEW_DEVICE
    else Handle(act, Run(act, Front(cmds)), Last(cmds)).0
  }

  function Front<T>(s: seq<T>): seq<T>
    requires s != []
  {
    s[..|s| - 1]
  }

  function Last<T>(s: seq<T>): T
    requires s != []
  {
    s[|s| - 1]
  }

  // ----- Unlocking -----

  // The masked words of all word-carrying UNLOCK_WORD commands since the last ZEROIZE.
  function UnlockWords(cmds: seq<Cmd>): seq<Word32> {
    if cmds == [] then []
    else if Last(cmds).ZEROIZE? then []
    else if Last(cmds).UNLOCK_WORD? && Last(cmds).word.Some?
    then UnlockWords(Front(cmds)) + [Masked(Last(cmds).word.value)]
    else UnlockWords(Front(cmds))
  }

  // Group i of four words is complete and is the activation key.
  predicate Hit(act: seq<Word32>, w: seq<Word32>, i: nat) {
    4 * i + 4 <= |w| && w[4 * i..4 * i + 4] == act
  }

  predicate SomeHit(act: seq<Word32>, w: seq<Word32>) {
    Hit(act, w, 0) || Hit(act, w, 1) || Hit(act, w, 2)
  }

  // The lock as a function of the words alone.
  ghost predicate LockForm(act: seq<Word32>, w: seq<Word32>, d: Dev) {
    if SomeHit(act, w) then
      d.devState == UNLOCKED && d.failCount == 0 && d.shift == []
    else if |w| >= 12 then
      d.devState == TRAPPED && d.failCount == 3 && d.shift == []
    else
      && d.devState == (if |w| % 4 == 0 then LOCKED else UNLOCKED_SHIFT)
      && d.failCount == |w| / 4
      && d.shift == w[|w| - |w| % 4..]
  }

  // One more word while the device is locked.
  lemma ShiftForm(act: seq<Word32>, w: seq<Word32>, d: Dev, word: int)
    requires LockForm(act, w, d) && !SomeHit(act, w) && |w| < 12
    ensures LockForm(act, w + [Masked(word)], ShiftWord(act, d, word).0)
  {
    var w' := w + [Masked(word)];
    HitsKept(act, w, Masked(word));
    if |w'| % 4 == 0 {
      var g := |w| / 4;
      assert d.shift + [Masked(word)] == w'[4 * g..4 * g + 4];
      GroupForm(act, w, w', d, word, g);
    } else {
      assert d.shift + [Masked(word)] == w'[|w'| - |w'| % 4..];
    }
  }

  // The word completes group g.
  lemma GroupForm(act: seq<Word32>, w: seq<Word32>, w': seq<Word32>, d: Dev, word: int, g: nat)
    requires LockForm(act, w, d) && !SomeHit(act, w) && g < 3 && |w| == 4 * g + 3
    requires w' == w + [Masked(word)] && d.shift + [Masked(word)] == w'[4 * g..4 * g + 4]
    requires forall i: nat :: 4 * i + 4 <= |w| ==> (Hit(act, w', i) <==> Hit(act, w, i))
    ensures LockForm(act, w', ShiftWord(act, d, word).0)
  {
    assert Hit(act, w', g) <==> d.shift + [Masked(word)] == act;
  }

  // A further word leaves the complete groups as they are.
  lemma HitsKept(act: seq<Word32>, w: seq<Word32>, x: Word32)
    ensures forall i: nat :: 4 * i + 4 <= |w| ==> (Hit(act, w + [x], i) <==> Hit(act, w, i))
  {
    forall i: nat | 4 * i + 4 <= |w|
      ensures Hit(act, w + [x], i) <==> Hit(act, w, i)
    {
      assert (w + [x])[4 * i..4 * i + 4] == w[4 * i..4 * i + 4];
    }
  }

  lemma LateWordForm(act: seq<Word32>, w: seq<Word32>, d: Dev, x: Word32)
    requires LockForm(act, w, d) && (SomeHit(act, w) || |w| >= 12)
    ensures LockForm(act, w + [x], d)
  {
    HitsKept(act, w, x);
  }

  lemma OtherCommandForm(act: seq<Word32>, w: seq<Word32>, d: Dev, cmd: Cmd)
    requires Formed(d) && LockForm(act, w, d) && !cmd.ZEROIZE?
    requires cmd.UNLOCK_WORD? ==> cmd.word.None? || SomeHit(act, w) || |w| >= 12
    ensures LockForm(act, w, Handle(act, d, cmd).0)
  {
    hide Hit, Encrypt, LoadWord;
  }

  // The device is unlocked exactly when one of the first three complete groups of
  // words since the last ZEROIZE is the activation key, and trapped exactly when three
  // complete groups all differ from it; otherwise the failure count and the shift
  // register are the quotient and the remainder by four.
  lemma {:induction false} UnlockClosedForm(act: seq<Word32>, cmds: seq<Cmd>)
    ensures LockForm(act, UnlockWords(cmds), Run(act, cmds))
  {
    hide Hit, SomeHit, ShiftWord, HandleUnlocked, EMPTY_VAULT;
    if cmds == [] {
      EmptyForm(act, NEW_DEVICE);
    } else {
      var before, cmd, w := Run(act, Front(cmds)), Last(cmds), UnlockWords(Front(cmds));
      UnlockClosedForm(act, Front(cmds));
      if cmd.ZEROIZE? {
        EmptyForm(act, ZeroizeDev(before));
      } else if cmd.UNLOCK_WORD? && cmd.word.Some? {
        if SomeHit(act, w) || |w| >= 12 {
          OtherCommandForm(act, w, before, cmd);
          LateWordForm(act, w, Run(act, cmds), Masked(cmd.word.value));
        } else {
          ShiftForm(act, w, before, cmd.word.value);
        }
      } else {
        OtherCommandForm(act, w, before, cmd);
      }
    }
  }

  lemma EmptyForm(act: seq<Word32>, d: Dev)
    requires d.devState == LOCKED && d.shift == [] && d.failCount == 0
    ensures LockForm(act, [], d)
  {
  }

  // ----- What happens while the device is unlocked -----

  // The commands since the activation key was complete.
  function Session(act: seq<Word32>, cmds: seq<Cmd>): seq<Cmd> {
    if cmds == [] || Last(cmds).ZEROIZE? || !SomeHit(act, UnlockWords(Front(cmds))) then []
    else Session(act, Front(cmds)) + [Last(cmds)]
  }

  predicate Commits(cmds: seq<Cmd>) {
    exists k :: 0 <= k < |cmds| && cmds[k].COMMIT_KEY?
  }

  // The last in-range load of key word i before the first COMMIT_KEY, or zero.
  function KeyWord(cmds: seq<Cmd>, i: int): Word32 {
    if cmds == [] then 0
    else
      var cmd := Last(cmds);
      if !Commits(Front(cmds)) && cmd.LOAD_KEY_WORD? && cmd.idx == Some(i) && cmd.keyWord.Some?
      then Masked(cmd.keyWord.value)
      else KeyWord(Front(cmds), i)
  }

  function KeyWords(cmds: seq<Cmd>): seq<Word32> {
    [KeyWord(cmds, 0), KeyWord(cmds, 1), KeyWord(cmds, 2), KeyWord(cmds, 3)]
  }

  predicate AcceptedBlock(cmds: seq<Cmd>, cmd: Cmd) {
    Commits(cmds) && cmd.ENCRYPT_BLOCK? && cmd.block.Some? && |cmd.block.value| == 16
  }

  // The block of the latest accepted ENCRYPT_BLOCK, unless a READ_RESULT came after it.
  function UnreadBlock(cmds: seq<Cmd>): (b: Option<Bytes>)
    ensures b.Some? ==> |b.value| == 16
  {
    if cmds == [] then None
    else if AcceptedBlock(Front(cmds), Last(cmds)) then Last(cmds).block
    else if Last(cmds).READ_RESULT? then None
    else UnreadBlock(Front(cmds))
  }

  // The vault and the AES core as functions of the commands of the session.
  ghost predicate SessionForm(s: seq<Cmd>, d: Dev) {
    && d.vault == Vault(KeyWords(s), Commits(s))
    && d.core.state == IDLE
    && d.core.keyWords == (if Commits(s) then Some(KeyWords(s)) else None)
    && d.core.result ==
         (if UnreadBlock(s).Some? then Some(EncryptBytes(KeyWords(s), UnreadBlock(s).value)) else None)
  }

  lemma CommitsMore(s: seq<Cmd>, cmd: Cmd)
    ensures Commits(s + [cmd]) <==> Commits(s) || cmd.COMMIT_KEY?
  {
    var s' := s + [cmd];
    if Commits(s) {
      var k :| 0 <= k < |s| && s[k].COMMIT_KEY?;
      assert s'[k].COMMIT_KEY?;
    }
    if cmd.COMMIT_KEY? {
      assert s'[|s|].COMMIT_KEY?;
    }
  }

  // A commit freezes the key.
  lemma KeyWordsMore(s: seq<Cmd>, cmd: Cmd)
    ensures var frozen := Commits(s) || !cmd.LOAD_KEY_WORD? || cmd.idx.None? || cmd.keyWord.None?;
      frozen ==> KeyWords(s + [cmd]) == KeyWords(s)
    ensures !Commits(s) && cmd.LOAD_KEY_WORD? && cmd.idx.Some? && cmd.keyWord.Some? ==>
      KeyWords(s + [cmd]) == LoadWord(Vault(KeyWords(s), false), cmd.idx.value, cmd.keyWord.value).keyWords
  {
    hide Commits;
    assert Front(s + [cmd]) == s;
  }

  lemma {:induction false} BlockNeedsCommit(s: seq<Cmd>)
    ensures UnreadBlock(s).Some? ==> Commits(s)
  {
    hide Commits;
    if s != [] {
      BlockNeedsCommit(Front(s));
      assert s == Front(s) + [Last(s)];
      CommitsMore(Front(s), Last(s));
    }
  }

  lemma UnlockedCommandForm(s: seq<Cmd>, d: Dev, cmd: Cmd)
    requires Formed(d) && SessionForm(s, d)
    ensures SessionForm(s + [cmd], HandleUnlocked(d, cmd).0)
  {
    hide Commits, KeyWord, EncryptBytes, LoadWord;
    assert Front(s + [cmd]) == s;
    CommitsMore(s, cmd);
    KeyWordsMore(s, cmd);
    BlockNeedsCommit(s);
    LoadAfterCommit(d.vault, cmd);
  }

  lemma LoadAfterCommit(v: Vault, cmd: Cmd)
    requires |v.keyWords| == 4
    ensures cmd.LOAD_KEY_WORD? && cmd.idx.Some? && cmd.keyWord.Some? ==>
      var v' := LoadWord(v, cmd.idx.value, cmd.keyWord.value);
      && v'.keyCommitted == v.keyCommitted
      && (v.keyCommitted ==> v' == v)
      && v'.keyWords == (if v.keyCommitted then v.keyWords
                         else LoadWord(Vault(v.keyWords, false), cmd.idx.value, cmd.keyWord.value).keyWords)
  {
  }

  lemma LockedCommandForm(act: seq<Word32>, d: Dev, cmd: Cmd)
    requires Formed(d) && SessionForm([], d) && !d.devState.UNLOCKED?
    ensures SessionForm([], Handle(act, d, cmd).0)
  {
    hide EncryptBytes;
  }

  lemma ZeroizeForm(s: seq<Cmd>, d: Dev)
    requires SessionForm(s, d)
    ensures SessionForm([], ZeroizeDev(d))
  {
    hide EncryptBytes, KeyWord, UnreadBlock;
    NoCommands();
  }

  lemma NoCommands()
    ensures KeyWords([]) == [0, 0, 0, 0] && !Commits([]) && UnreadBlock([]) == None
  {
  }

  lemma StatusKeepsForm(s: seq<Cmd>, d: Dev)
    requires SessionForm(s, d)
    ensures SessionForm(s + [STATUS], d)
  {
    hide Commits, KeyWord, EncryptBytes;
    assert Front(s + [STATUS]) == s;
    CommitsMore(s, STATUS);
    KeyWordsMore(s, STATUS);
  }

  lemma UnlockedIsHit(act: seq<Word32>, cmds: seq<Cmd>)
    ensures Run(act, cmds).devState.UNLOCKED? <==> SomeHit(act, UnlockWords(cmds))
  {
    hide Hit, SomeHit, Run, UnlockWords;
    UnlockClosedForm(act, cmds);
  }

  lemma {:induction false} SessionClosedForm(act: seq<Word32>, cmds: seq<Cmd>)
    ensures SessionForm(Session(act, cmds), Run(act, cmds))
    ensures !Run(act, cmds).devState.UNLOCKED? ==> Session(act, cmds) == []
  {
    hide SessionForm, HandleUnlocked, ShiftWord, UnreadBlock, KeyWord, Commits, SomeHit;
    UnlockedIsHit(act, cmds);
    if cmds == [] {
      InitialForm();
    } else {
      SessionClosedForm(act, Front(cmds));
      UnlockedIsHit(act, Front(cmds));
      var s, d, cmd := Session(act, Front(cmds)), Run(act, Front(cmds)), Last(cmds);
      if cmd.ZEROIZE? {
        ZeroizeForm(s, d);
      } else if !d.devState.UNLOCKED? {
        LockedCommandForm(act, d, cmd);
      } else if cmd.STATUS? {
        StatusKeepsForm(s, d);
      } else {
        UnlockedCommandForm(s, d, cmd);
        StaysUnlocked(d, cmd);
      }
    }
  }

  lemma InitialForm()
    ensures SessionForm([], NEW_DEVICE)
  {
  }

  lemma StaysUnlocked(d: Dev, cmd: Cmd)
    requires Formed(d)
    ensures HandleUnlocked(d, cmd).0.devState == d.devState
  {
    hide Encrypt, LoadWord;
  }

  // End to end: after any history, a READ_RESULT that succeeds returns the AES-128
  // ciphertext of the latest accepted block, under the key fixed by the loads before
  // the first commit of the session; and it succeeds whenever there is such a block.
  lemma ReadReturnsCiphertext(act: seq<Word32>, cmds: seq<Cmd>)
    ensures var d, s := Run(act, cmds), Session(act, cmds);
      var r := Handle(act, d, READ_RESULT).1;
      && (r.ok <==> d.devState.UNLOCKED? && UnreadBlock(s).Some?)
      && (r.ok ==> r.code == EncryptionResult(EncryptBytes(KeyWords(s), UnreadBlock(s).value)))
  {
    hide Run, Session, EncryptBytes, KeyWord, Commits, UnreadBlock;
    SessionClosedForm(act, cmds);
  }

  // The 32-bit integers that a packed block holds.
  ghost predicate HoldsNumbers(p: P.Packed, n: seq<nat>) {
    HasValues(P.UnpackBlock(p), n)
  }

  lemma SameValues(b: Block, c: Block, n: seq<nat>)
    requires HasValues(b, n) && HasValues(c, n)
    ensures b == c
  {
    hide Word.Value;
    ValueExact(b.w0, c.w0);
    ValueExact(b.w1, c.w1);
    ValueExact(b.w2, c.w2);
    ValueExact(b.w3, c.w3);
  }

  // Every four integers of 32 bits are held by a packed block.
  lemma NumbersHeld(n: seq<Word32>)
    requires |n| == 4
    ensures HoldsNumbers(P.PackBlock(ToBlock(n)), n)
  {
    hide HasValues, ToBlock, P.PackBlock, P.UnpackBlock;
    P.BlocksPack(ToBlock(n), P.PackBlock(ToBlock(n)));
    ConversionsExact([0, 0, 0, 0, 0, 0, 0, 0, 0, 0, 0, 0, 0, 0, 0, 0], n);
  }

  // The same answer in integers, as the script computes it: the key words go into
  // aes_encipher_block as they are, the block as the big-endian integers of its bytes, and
  // the bytes that are read have the integers of the result.
  lemma ReadIsCipherOfNumbers(act: seq<Word32>, cmds: seq<Cmd>, key: P.Packed, block: P.Packed)
    requires Run(act, cmds).devState.UNLOCKED? && UnreadBlock(Session(act, cmds)).Some?
    requires HoldsNumbers(key, KeyWords(Session(act, cmds)))
    requires HoldsNumbers(block, BlockNumbers(UnreadBlock(Session(act, cmds)).value))
    ensures var r := Handle(act, Run(act, cmds), READ_RESULT).1;
      && r.ok && r.code.EncryptionResult? && |r.code.result| == 16
      && HoldsNumbers(P.PackedEncipher(P.PackedKey128(key), block), BlockNumbers(r.code.result))
  {
    hide Run, Session, KeyWord, Commits, UnreadBlock, HasValues, ToBlock, BytesToBlock, BlockToBytes, BlockNumbers,
         P.UnpackBlock, P.PackBlock, P.PackedEncipher, Aes.Encipher, Handle;
    ReadReturnsCiphertext(act, cmds);
    var words, b := KeyWords(Session(act, cmds)), UnreadBlock(Session(act, cmds)).value;
    ConversionsExact(b, words);
    SameValues(P.UnpackBlock(key), ToBlock(words), words);
    SameValues(P.UnpackBlock(block), BytesToBlock(b), BlockNumbers(b));
    var e := Aes.Encipher(Aes.Key128(ToBlock(words)), BytesToBlock(b));
    P.CiphersPack(P.PackedKey128(key), block);
    P.BlocksPack(e, P.PackBlock(e));
    BytesRoundTrip(BlockToBytes(e), e);
    ConversionsExact(BlockToBytes(e), words);
  }

  // An accepted block is never refused by the core.
  lemma EncryptIsAccepted(act: seq<Word32>, cmds: seq<Cmd>, block: Bytes)
    requires |block| == 16
    ensures var d, s := Run(act, cmds), Session(act, cmds);
      var (d', r) := Handle(act, d, ENCRYPT_BLOCK(Some(block)));
      && (r.ok <==> d.devState.UNLOCKED? && Commits(s))
      && (r.ok ==> d'.core.state == IDLE && d'.core.result == Some(EncryptBytes(KeyWords(s), block)))
      && (!r.ok ==> d' == d)
  {
    hide Run, Session, EncryptBytes, KeyWord, Commits, UnreadBlock;
    SessionClosedForm(act, cmds);
  }

  // LOAD_KEY_WORD answers ok on every unlocked device, but the answer is true only of an
  // index in range before the first COMMIT_KEY: then, and only then, the word is stored
  // whatever it is.
  lemma LoadAnswerTruthful(act: seq<Word32>, cmds: seq<Cmd>, idx: int)
    requires SomeHit(act, UnlockWords(cmds))
    ensures forall w: int :: Handle(act, Run(act, cmds), Load(idx, w)).1.ok
    ensures (forall w: int :: Stored(Handle(act, Run(act, cmds), Load(idx, w)).0, idx, w))
      <==> 0 <= idx <= 3 && !Commits(Session(act, cmds))
  {
    hide Hit, SomeHit, Run, UnlockWords, KeyWord, Commits, UnreadBlock, Session, EncryptBytes;
    var d := Run(act, cmds);
    UnlockedIsHit(act, cmds);
    SessionClosedForm(act, cmds);
    forall w: int
      ensures Handle(act, d, Load(idx, w)).1.ok
      ensures Handle(act, d, Load(idx, w)).0 == d.(vault := LoadWord(d.vault, idx, w))
    {
    }
    var other := if 0 <= idx <= 3 && d.vault.keyWords[idx] == 0 then 1 else 0;
    assert Stored(Handle(act, d, Load(idx, other)).0, idx, other)
      ==> 0 <= idx <= 3 && !Commits(Session(act, cmds));
  }

  function Load(idx: int, w: int): Cmd {
    LOAD_KEY_WORD(Some(idx), Some(w))
  }

  predicate Stored(d: Dev, idx: int, w: int) {
    0 <= idx < |d.vault.keyWords| && d.vault.keyWords[idx] == Masked(w)
  }

  lemma RunMore(act: seq<Word32>, cmds: seq<Cmd>, cmd: Cmd)
    ensures Run(act, cmds + [cmd]) == Handle(act, Run(act, cmds), cmd).0
  {
    hide Handle;
    assert Front(cmds + [cmd]) == cmds;
  }

  const ACT: seq<Word32> := [1, 2, 3, 4]
  const UNLOCK: seq<Cmd> :=
    [] + [UNLOCK_WORD(Some(1))] + [UNLOCK_WORD(Some(2))] + [UNLOCK_WORD(Some(3))] + [UNLOCK_WORD(Some(4))]

  lemma UnlockRun()
    ensures Run(ACT, UNLOCK) == NEW_DEVICE.(devState := UNLOCKED)
  {
    hide Run;
    RunNothing(ACT);
    RunMore(ACT, [], UNLOCK_WORD(Some(1)));
    RunMore(ACT, [] + [UNLOCK_WORD(Some(1))], UNLOCK_WORD(Some(2)));
    RunMore(ACT, [] + [UNLOCK_WORD(Some(1))] + [UNLOCK_WORD(Some(2))], UNLOCK_WORD(Some(3)));
    RunMore(ACT, [] + [UNLOCK_WORD(Some(1))] + [UNLOCK_WORD(Some(2))] + [UNLOCK_WORD(Some(3))], UNLOCK_WORD(Some(4)));
  }

  lemma RunNothing(act: seq<Word32>)
    ensures Run(act, []) == NEW_DEVICE
  {
  }

  // Two answers that are not true: a load out of range, and a load after a commit.
  lemma LoadAnswerUntrue()
    ensures var open, committed := Run(ACT, UNLOCK), Run(ACT, UNLOCK + [COMMIT_KEY]);
      && Handle(ACT, open, Load(4, 7)) == (open, Response(true, KeyWordLoaded(4)))
      && Handle(ACT, committed, Load(0, 7)) == (committed, Response(true, KeyWordLoaded(0)))
      && !Stored(open, 4, 7) && !Stored(committed, 0, 7)
  {
    hide Run;
    UnlockRun();
    RunMore(ACT, UNLOCK, COMMIT_KEY);
  }

  // ----- Every answer -----

  // The answer to an activation word, after the words w.
  function UnlockAnswer(act: seq<Word32>, w: seq<Word32>, x: Word32): Response {
    var n := |w| + 1;
    if n % 4 != 0 then Response(true, MoreWordsNeeded(n % 4))
    else if (w + [x])[n - 4..] == act then Response(true, DeviceUnlocked)
    else if n == 12 then Response(false, DeviceTrapped)
    else Response(false, UnlockFailed)
  }

  // The answer of an unlocked device, after the commands s of the session.
  function SessionAnswer(s: seq<Cmd>, cmd: Cmd): Response {
    match cmd
    case STATUS => Response(true, StatusOk(UNLOCKED, 0, Commits(s), IDLE, UnreadBlock(s).Some?))
    case ZEROIZE => Response(true, Zeroized)
    case UNLOCK_WORD(_) => Response(false, UnknownCommand)
    case LOAD_KEY_WORD(idx, word) =>
      if idx.Some? && word.Some? then Response(true, KeyWordLoaded(idx.value)) else Response(false, ErrorProcessing)
    case COMMIT_KEY => Response(true, KeyCommitted)
    case ENCRYPT_BLOCK(block) =>
      if !Commits(s) then Response(false, KeyNotCommitted)
      else if block.Some? && |block.value| == 16 then Response(true, EncryptionStarted)
      else Response(false, InvalidBlock)
    case READ_RESULT =>
      if UnreadBlock(s).Some? then Response(true, EncryptionResult(EncryptBytes(KeyWords(s), UnreadBlock(s).value)))
      else Response(false, NoResult)
  }

  // Every answer, from the commands alone.
  function Answer(act: seq<Word32>, cmds: seq<Cmd>, cmd: Cmd): Response {
    var w := UnlockWords(cmds);
    if SomeHit(act, w) then SessionAnswer(Session(act, cmds), cmd)
    else if cmd.ZEROIZE? then Response(true, Zeroized)
    else if |w| >= 12 then
      if cmd.STATUS? then Response(true, Trapped(3)) else Response(false, OnlyStatusAndZeroize)
    else if cmd.STATUS? then
      Response(true, StatusOk(if |w| % 4 == 0 then LOCKED else UNLOCKED_SHIFT, |w| / 4, false, IDLE, false))
    else if !cmd.UNLOCK_WORD? then Response(false, OnlyUnlockWord)
    else if cmd.word.None? then Response(false, MissingWord)
    else UnlockAnswer(act, w, Masked(cmd.word.value))
  }

  lemma LockedAnswer(act: seq<Word32>, w: seq<Word32>, d: Dev, cmd: Cmd)
    requires Formed(d) && LockForm(act, w, d) && !SomeHit(act, w)
    requires cmd.UNLOCK_WORD? && cmd.word.Some? && |w| < 12
    ensures Handle(act, d, cmd).1 == UnlockAnswer(act, w, Masked(cmd.word.value))
  {
    hide SomeHit, Masked, EncryptBytes, LoadWord, Encrypt, HandleUnlocked, LockForm, ShiftWord;
    ShiftMeans(act, w, d, cmd.word.value);
    ShiftAnswer(act, w, d, cmd.word.value);
  }

  lemma ShiftMeans(act: seq<Word32>, w: seq<Word32>, d: Dev, word: int)
    requires LockForm(act, w, d) && !SomeHit(act, w) && |w| < 12
    ensures d.devState.LOCKED? || d.devState.UNLOCKED_SHIFT?
    ensures |d.shift| == |w| % 4 && d.failCount == |w| / 4
    ensures |w| % 4 == 3 ==> d.shift + [Masked(word)] == (w + [Masked(word)])[|w| - 3..]
  {
    hide SomeHit, Masked;
  }

  lemma ShiftAnswer(act: seq<Word32>, w: seq<Word32>, d: Dev, word: int)
    requires LockForm(act, w, d) && !SomeHit(act, w) && |w| < 12
    ensures ShiftWord(act, d, word).1 == UnlockAnswer(act, w, Masked(word))
  {
    hide SomeHit, Masked, LockForm;
    ShiftMeans(act, w, d, word);
    NextOfFour(|w|);
  }

  lemma NextOfFour(n: nat)
    ensures (n + 1) % 4 == if n % 4 == 3 then 0 else n % 4 + 1
    ensures n < 12 && n % 4 == 3 ==> (n == 11 <==> n / 4 + 1 >= 3)
  {
  }

  lemma PlainAnswer(act: seq<Word32>, w: seq<Word32>, d: Dev, s: seq<Cmd>, cmd: Cmd)
    requires Formed(d) && LockForm(act, w, d) && SessionForm(s, d)
    requires !SomeHit(act, w) ==> s == [] && (|w| >= 12 || !cmd.UNLOCK_WORD? || cmd.word.None?)
    ensures Handle(act, d, cmd).1 ==
      if SomeHit(act, w) then SessionAnswer(s, cmd)
      else if cmd.ZEROIZE? then Response(true, Zeroized)
      else if |w| >= 12 then
        if cmd.STATUS? then Response(true, Trapped(3)) else Response(false, OnlyStatusAndZeroize)
      else if cmd.STATUS? then
        Response(true, StatusOk(if |w| % 4 == 0 then LOCKED else UNLOCKED_SHIFT, |w| / 4, false, IDLE, false))
      else if !cmd.UNLOCK_WORD? then Response(false, OnlyUnlockWord)
      else Response(false, MissingWord)
  {
    hide SomeHit, Masked, KeyWord, EncryptBytes, LoadWord, Encrypt, Commits, UnreadBlock;
    NoCommands();
  }

  // Every answer of the device, after any history, in closed form.
  lemma AnswersExact(act: seq<Word32>, cmds: seq<Cmd>, cmd: Cmd)
    ensures Handle(act, Run(act, cmds), cmd).1 == Answer(act, cmds, cmd)
  {
    hide SomeHit, Masked, Run, Session, UnlockWords, SessionForm, LockForm, SessionAnswer, UnlockAnswer, Handle;
    UnlockClosedForm(act, cmds);
    SessionClosedForm(act, cmds);
    UnlockedIsHit(act, cmds);
    var w, d, s := UnlockWords(cmds), Run(act, cmds), Session(act, cmds);
    if !SomeHit(act, w) && |w| < 12 && cmd.UNLOCK_WORD? && cmd.word.Some? {
      LockedAnswer(act, w, d, cmd);
    } else {
      PlainAnswer(act, w, d, s, cmd);
    }
  }

  // ----- Reads never outnumber encryptions -----

  function Encryptions(act: seq<Word32>, cmds: seq<Cmd>): nat {
    if cmds == [] then 0
    else
      var r := Handle(act, Run(act, Front(cmds)), Last(cmds)).1;
      Encryptions(act, Front(cmds)) + if r == Response(true, EncryptionStarted) then 1 else 0
  }

  function Reads(act: seq<Word32>, cmds: seq<Cmd>): nat {
    if cmds == [] then 0
    else
      var r := Handle(act, Run(act, Front(cmds)), Last(cmds)).1;
      Reads(act, Front(cmds)) + if r.ok && r.code.EncryptionResult? then 1 else 0
  }

  lemma OneCommandCount(act: seq<Word32>, d: Dev, cmd: Cmd)
    requires Formed(d)
    ensures var (d', r) := Handle(act, d, cmd);
      var balance := (if r == Response(true, EncryptionStarted) then 1 else 0)
                   - (if r.ok && r.code.EncryptionResult? then 1 else 0);
      (if d'.core.result.Some? then 1 else 0) <= (if d.core.result.Some? then 1 else 0) + balance
  {
    hide EncryptBytes, LoadWord;
  }

  lemma {:induction false} ReadsNeverOutnumberEncryptions(act: seq<Word32>, cmds: seq<Cmd>)
    ensures Reads(act, cmds) + (if Run(act, cmds).core.result.Some? then 1 else 0) <= Encryptions(act, cmds)
  {
    hide Handle;
    if cmds != [] {
      ReadsNeverOutnumberEncryptions(act, Front(cmds));
      OneCommandCount(act, Run(act, Front(cmds)), Last(cmds));
    }
  }

  // ----- The queues -----

  datatype Event = Receive(cmd: Cmd) | Step | Read

  datatype Machine = Machine(dev: Dev, incoming: seq<Cmd>, outgoing: seq<Response>, readings: seq<Response>)

  const NEW_MACHINE := Machine(NEW_DEVICE, [], [], [])

  // receive_cmd, step and read_resp, in any interleaving; `readings` collects what
  // read_resp has returned.
  function MachineRun(act: seq<Word32>, events: seq<Event>): (m: Machine)
    ensures Formed(m.dev)
  {
    if events == [] then NEW_MACHINE
    else
      MachineStep(act, MachineRun(act, Front(events)), Last(events))
  }

  function MachineStep(act: seq<Word32>, m: Machine, e: Event): (m': Machine)
    requires Formed(m.dev)
    ensures Formed(m'.dev)
  {
    match e
    case Receive(cmd) => m.(incoming := m.incoming + [cmd])
    case Step =>
      if m.incoming == [] then m
      else
        var (d, r) := Handle(act, m.dev, m.incoming[0]);
        m.(dev := d, incoming := m.incoming[1..], outgoing := m.outgoing + [r])
    case Read =>
      if m.outgoing == [] then m
      else m.(outgoing := m.outgoing[1..], readings := m.readings + [m.outgoing[0]])
  }

  function Received(events: seq<Event>): seq<Cmd> {
    if events == [] then []
    else if Last(events).Receive? then Received(Front(events)) + [Last(events).cmd]
    else Received(Front(events))
  }

  function Responses(act: seq<Word32>, cmds: seq<Cmd>): (rs: seq<Response>)
    ensures |rs| == |cmds|
  {
    if cmds == [] then []
    else Responses(act, Front(cmds)) + [Handle(act, Run(act, Front(cmds)), Last(cmds)).1]
  }

  // No command and no response is lost, duplicated or reordered: the device has
  // handled a prefix of what was received, the rest is queued, and the responses to
  // that prefix are those read followed by those queued.
  ghost predicate QueueForm(act: seq<Word32>, received: seq<Cmd>, m: Machine) {
    && |m.incoming| <= |received|
    && var k := |received| - |m.incoming|;
       && m.incoming == received[k..]
       && m.dev == Run(act, received[..k])
       && m.readings + m.outgoing == Responses(act, received[..k])
  }

  lemma ReceiveForm(act: seq<Word32>, received: seq<Cmd>, m: Machine, cmd: Cmd)
    requires Formed(m.dev) && QueueForm(act, received, m)
    ensures QueueForm(act, received + [cmd], MachineStep(act, m, Receive(cmd)))
  {
    hide Handle, Run, Responses;
    var k := |received| - |m.incoming|;
    assert (received + [cmd])[..k] == received[..k];
    assert (received + [cmd])[k..] == received[k..] + [cmd];
  }

  lemma StepForm(act: seq<Word32>, received: seq<Cmd>, m: Machine)
    requires Formed(m.dev) && QueueForm(act, received, m)
    ensures QueueForm(act, received, MachineStep(act, m, Step))
  {
    hide Handle;
    var k := |received| - |m.incoming|;
    if m.incoming != [] {
      assert Front(received[..k + 1]) == received[..k] && Last(received[..k + 1]) == m.incoming[0];
      assert received[k..][1..] == received[k + 1..];
    }
  }

  lemma ReadForm(act: seq<Word32>, received: seq<Cmd>, m: Machine)
    requires Formed(m.dev) && QueueForm(act, received, m)
    ensures QueueForm(act, received, MachineStep(act, m, Read))
  {
    hide Handle, Run, Responses;
    if m.outgoing != [] {
      assert m.outgoing == [m.outgoing[0]] + m.outgoing[1..];
    }
  }

  lemma {:induction false} QueuesAreFaithful(act: seq<Word32>, events: seq<Event>)
    ensures QueueForm(act, Received(events), MachineRun(act, events))
  {
    hide Handle, Run, Responses, MachineStep, QueueForm;
    if events == [] {
      EmptyQueues(act);
    } else {
      QueuesAreFaithful(act, Front(events));
      var received, m := Received(Front(events)), MachineRun(act, Front(events));
      match Last(events)
      case Receive(cmd) => ReceiveForm(act, received, m, cmd);
      case Step => StepForm(act, received, m);
      case Read => ReadForm(act, received, m);
    }
  }

  lemma EmptyQueues(act: seq<Word32>)
    ensures QueueForm(act, [], NEW_MACHINE)
  {
    hide Handle;
  }
}
