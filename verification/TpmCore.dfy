// scripts/tpm-aes-core.py: the proof-of-concept device, a queued command machine over
// a key vault, an AES core and a lockout counter.
module TpmCore {
  import opened Common
  import opened Words
  import Aes

  type Word32 = x: int | 0 <= x < 0x1_0000_0000
  type Bytes = seq<bv8>

  // ----- Words and bytes -----

  // `word & 0xFFFFFFFF` of any integer.
  function Masked(word: int): Word32 {
    word % 0x1_0000_0000
  }

  // The masked word is the word modulo 2^32.
  lemma MaskedExact(word: int, x: Word32)
    ensures x == Masked(word) <==> exists q: int :: word == q * 0x1_0000_0000 + x
  {
    assert word == word / 0x1_0000_0000 * 0x1_0000_0000 + Masked(word);
    if q: int :| word == q * 0x1_0000_0000 + x {
      assert q == word / 0x1_0000_0000;
    }
  }

  function ToBlock(words: seq<Word32>): Block
    requires |words| == 4
  {
    Block(OfNumber(words[0]), OfNumber(words[1]), OfNumber(words[2]), OfNumber(words[3]))
  }

  // Four big-endian words.
  function BytesToBlock(b: Bytes): Block
    requires |b| == 16
  {
    Block(Word(b[0], b[1], b[2], b[3]), Word(b[4], b[5], b[6], b[7]),
          Word(b[8], b[9], b[10], b[11]), Word(b[12], b[13], b[14], b[15]))
  }

  function BlockToBytes(b: Block): (bytes: Bytes)
    ensures |bytes| == 16
  {
    [b.w0.b0, b.w0.b1, b.w0.b2, b.w0.b3, b.w1.b0, b.w1.b1, b.w1.b2, b.w1.b3,
     b.w2.b0, b.w2.b1, b.w2.b2, b.w2.b3, b.w3.b0, b.w3.b1, b.w3.b2, b.w3.b3]
  }

  lemma BytesRoundTrip(b: Bytes, w: Block)
    requires |b| == 16
    ensures BlockToBytes(BytesToBlock(b)) == b
    ensures BytesToBlock(BlockToBytes(w)) == w
  {
  }

  // int.from_bytes on the four quarters of a block, big-endian.
  function BlockNumbers(b: Bytes): (n: seq<nat>)
    requires |b| == 16
    ensures |n| == 4
  {
    [BigNumber(b[0..4]), BigNumber(b[4..8]), BigNumber(b[8..12]), BigNumber(b[12..16])]
  }

  function BigNumber(b: Bytes): nat {
    if b == [] then 0 else 0x100 * BigNumber(b[..|b| - 1]) + Num(b[|b| - 1])
  }

  ghost predicate HasValues(b: Block, n: seq<nat>) {
    |n| == 4 && b.w0.Value() == n[0] && b.w1.Value() == n[1] && b.w2.Value() == n[2] && b.w3.Value() == n[3]
  }

  lemma FourBytes(b: Bytes, w: Word)
    requires b == [w.b0, w.b1, w.b2, w.b3]
    ensures BigNumber(b) == w.Value()
  {
    hide Num;
    assert b[..3] == [w.b0, w.b1, w.b2] && b[..3][..2] == [w.b0, w.b1] && b[..3][..2][..1] == [w.b0];
    assert [w.b0][..0] == [];
    assert BigNumber([w.b0]) == Num(w.b0);
    assert BigNumber([w.b0, w.b1]) == 0x100 * Num(w.b0) + Num(w.b1);
    assert BigNumber([w.b0, w.b1, w.b2]) == 0x100 * BigNumber([w.b0, w.b1]) + Num(w.b2);
  }

  // The words of a block are the big-endian numbers of its bytes, and those of a key are
  // the key words.
  lemma ConversionsExact(b: Bytes, words: seq<Word32>)
    requires |b| == 16 && |words| == 4
    ensures HasValues(BytesToBlock(b), BlockNumbers(b))
    ensures HasValues(ToBlock(words), words)
  {
    hide OfNumber, BigNumber, Word.Value;
    var w := BytesToBlock(b);
    FourBytes(b[0..4], w.w0);
    FourBytes(b[4..8], w.w1);
    FourBytes(b[8..12], w.w2);
    FourBytes(b[12..16], w.w3);
    ValueOfNumber(words[0]);
    ValueOfNumber(words[1]);
    ValueOfNumber(words[2]);
    ValueOfNumber(words[3]);
  }

  // AES-128 on bytes, under a key of four words.
  function EncryptBytes(keyWords: seq<Word32>, block: Bytes): (bytes: Bytes)
    requires |keyWords| == 4 && |block| == 16
    ensures |bytes| == 16
  {
    BlockToBytes(Aes.Encipher(Aes.Key128(ToBlock(keyWords)), BytesToBlock(block)))
  }

  // ----- Commands and state -----

  datatype CoreState = IDLE | BUSY | ERROR
  datatype DevState = LOCKED | UNLOCKED_SHIFT | UNLOCKED | TRAPPED

  // A command with the keyword arguments it looks at; an absent argument is None.
  datatype Cmd =
    | STATUS
    | UNLOCK_WORD(word: Option<int>)
    | LOAD_KEY_WORD(idx: Option<int>, keyWord: Option<int>)
    | COMMIT_KEY
    | ENCRYPT_BLOCK(block: Option<Bytes>)
    | READ_RESULT
    | ZEROIZE

  datatype Code =
    | Trapped(failCount: nat)
    | StatusOk(devState: DevState, fails: nat, keyCommitted: bool, aesState: CoreState, hasResult: bool)
    | Zeroized
    | OnlyStatusAndZeroize
    | OnlyUnlockWord
    | MissingWord
    | MoreWordsNeeded(shiftCount: nat)
    | DeviceUnlocked
    | DeviceTrapped
    | UnlockFailed
    | KeyWordLoaded(idx: int)
    | InvalidKeyLength
    | KeyCommitted
    | KeyNotCommitted
    | InvalidBlock
    | EncryptionStarted
    | NoResult
    | EncryptionResult(result: Bytes)
    | UnknownCommand
    | ErrorProcessing

  datatype Response = Response(ok: bool, code: Code)

  datatype Vault = Vault(keyWords: seq<Word32>, keyCommitted: bool)
  datatype Core = Core(state: CoreState, result: Option<Bytes>, keyWords: Option<seq<Word32>>)

  datatype Dev = Dev(devState: DevState, shift: seq<Word32>, failCount: nat, vault: Vault, core: Core)

  const LOCKOUT_THRESHOLD := 3
  const EMPTY_VAULT := Vault([0, 0, 0, 0], false)

  const NEW_DEVICE := Dev(LOCKED, [], 0, EMPTY_VAULT, Core(IDLE, None, None))

  ghost predicate Formed(d: Dev) {
    && |d.vault.keyWords| == 4
    && (d.core.keyWords.Some? ==> |d.core.keyWords.value| == 4)
  }

  // ----- One command -----

  function LoadWord(v: Vault, idx: int, word: int): Vault
    requires |v.keyWords| == 4
  {
    if v.keyCommitted || idx < 0 || idx > 3 then v else v.(keyWords := v.keyWords[idx := Masked(word)])
  }

  function Encrypt(c: Core, block: Bytes): Core
    requires |block| == 16 && (c.keyWords.Some? ==> |c.keyWords.value| == 4)
  {
    if c.keyWords.None? then c.(state := ERROR)
    else if c.state.BUSY? then c
    else c.(state := IDLE, result := Some(EncryptBytes(c.keyWords.value, block)))
  }

  function ZeroizeDev(d: Dev): Dev {
    Dev(LOCKED, [], 0, EMPTY_VAULT, d.core.(result := None, keyWords := None))
  }

  // A word shifted in while the device is locked.
  function ShiftWord(activation: seq<Word32>, d: Dev, word: int): (Dev, Response) {
    var shift := d.shift + [Masked(word)];
    if |shift| < 4 then
      (d.(devState := UNLOCKED_SHIFT, shift := shift), Response(true, MoreWordsNeeded(|shift|)))
    else if shift == activation then
      (d.(devState := UNLOCKED, shift := [], failCount := 0), Response(true, DeviceUnlocked))
    else if d.failCount + 1 >= LOCKOUT_THRESHOLD then
      (d.(devState := TRAPPED, shift := [], failCount := d.failCount + 1), Response(false, DeviceTrapped))
    else
      (d.(devState := LOCKED, shift := [], failCount := d.failCount + 1), Response(false, UnlockFailed))
  }

  function HandleUnlocked(d: Dev, cmd: Cmd): (Dev, Response)
    requires Formed(d)
  {
    match cmd
    case LOAD_KEY_WORD(idx, word) =>
      if idx.None? || word.None? then (d, Response(false, ErrorProcessing))
      else (d.(vault := LoadWord(d.vault, idx.value, word.value)), Response(true, KeyWordLoaded(idx.value)))
    case COMMIT_KEY =>
      (d.(vault := d.vault.(keyCommitted := true), core := d.core.(keyWords := Some(d.vault.keyWords))),
       Response(true, KeyCommitted))
    case ENCRYPT_BLOCK(block) =>
      if !d.vault.keyCommitted then (d, Response(false, KeyNotCommitted))
      else if block.None? || |block.value| != 16 then (d, Response(false, InvalidBlock))
      else (d.(core := Encrypt(d.core, block.value)), Response(true, EncryptionStarted))
    case READ_RESULT =>
      if d.core.result.None? then (d, Response(false, NoResult))
      else (d.(core := d.core.(result := None)), Response(true, EncryptionResult(d.core.result.value)))
    case _ => (d, Response(false, UnknownCommand))
  }

  function Handle(activation: seq<Word32>, d: Dev, cmd: Cmd): (r: (Dev, Response))
    requires Formed(d)
    ensures Formed(r.0)
  {
    if cmd.ZEROIZE? then (ZeroizeDev(d), Response(true, Zeroized))
    else if d.devState.TRAPPED? then
      (d, if cmd.STATUS? then Response(true, Trapped(d.failCount)) else Response(false, OnlyStatusAndZeroize))
    else if cmd.STATUS? then
      (d, Response(true, StatusOk(d.devState, d.failCount, d.vault.keyCommitted, d.core.state, d.core.result.Some?)))
    else if d.devState.UNLOCKED? then HandleUnlocked(d, cmd)
    else if !cmd.UNLOCK_WORD? then (d, Response(false, OnlyUnlockWord))
    else if cmd.word.None? then (d, Response(false, MissingWord))
    else ShiftWord(activation, d, cmd.word.value)
  }

  // ----- The classes of the script -----

  class KeyVault {
    var keyWords: seq<Word32>
    var keyCommitted: bool

    function State(): Vault
      reads this
    {
      Vault(keyWords, keyCommitted)
    }

    constructor ()
      ensures State() == EMPTY_VAULT
    {
      keyWords, keyCommitted := [0, 0, 0, 0], false;
    }

    method Load(idx: int, word: int)
      requires |keyWords| == 4
      modifies this
      ensures State() == LoadWord(old(State()), idx, word)
    {
      if keyCommitted {
        return;
      }
      if idx < 0 || idx > 3 {
        return;
      }
      keyWords := keyWords[idx := Masked(word)];
    }

    method Commit() returns (ok: bool)
      modifies this
      ensures ok == (|old(keyWords)| == 4 || |old(keyWords)| == 8)
      ensures State() == old(State()).(keyCommitted := old(keyCommitted) || ok)
    {
      if |keyWords| != 4 && |keyWords| != 8 {
        return false;
      }
      keyCommitted := true;
      return true;
    }

    method Zeroize()
      modifies this
      ensures State() == EMPTY_VAULT
    {
      keyWords, keyCommitted := [0, 0, 0, 0], false;
    }
  }

  class AESCore {
    var state: CoreState
    var result: Option<Bytes>
    var keyWords: Option<seq<Word32>>

    function State(): Core
      reads this
    {
      Core(state, result, keyWords)
    }

    constructor ()
      ensures State() == Core(IDLE, None, None)
    {
      state, result, keyWords := IDLE, None, None;
    }

    method InitKey(words: seq<Word32>)
      modifies this
      ensures State() == old(State()).(keyWords := Some(words))
    {
      keyWords := Some(words);
    }

    method EncryptBlock(block: Bytes)
      requires |block| == 16 && (keyWords.Some? ==> |keyWords.value| == 4)
      modifies this
      ensures State() == Encrypt(old(State()), block)
    {
      hide Aes.Encipher;
      if keyWords.None? {
        state := ERROR;
        return;
      }
      if state.BUSY? {
        return;
      }
      state := BUSY;
      var blockWords := BytesToBlock(block);
      var resultWords := Aes.AesEncipherBlock(Aes.Key128(ToBlock(keyWords.value)), blockWords);
      result := Some(BlockToBytes(resultWords));
      state := IDLE;
    }
  }

  class TPM_Core {
    const activationKey: seq<Word32>
    const vault: KeyVault
    const aesCore: AESCore
    var devState: DevState
    var unlockedShift: seq<Word32>
    var failCount: nat
    var incoming: seq<Cmd>
    var outgoing: seq<Response>

    function Device(): Dev
      reads this, vault, aesCore
    {
      Dev(devState, unlockedShift, failCount, vault.State(), aesCore.State())
    }

    constructor (activationKeyWords: seq<int>)
      ensures |activationKey| == |activationKeyWords|
      ensures forall k :: 0 <= k < |activationKey| ==> activationKey[k] == Masked(activationKeyWords[k])
      ensures Device() == NEW_DEVICE && incoming == [] && outgoing == []
      ensures fresh(vault) && fresh(aesCore)
    {
      devState := LOCKED;
      activationKey :=
        seq(|activationKeyWords|, k requires 0 <= k < |activationKeyWords| => Masked(activationKeyWords[k]));
      unlockedShift, failCount := [], 0;
      vault := new KeyVault();
      aesCore := new AESCore();
      incoming, outgoing := [], [];
    }

    method ReceiveCmd(cmd: Cmd)
      modifies this`incoming
      ensures incoming == old(incoming) + [cmd]
    {
      incoming := incoming + [cmd];
    }

    method StepOnce()
      requires Formed(Device())
      modifies this, vault, aesCore
      ensures Formed(Device())
      ensures old(incoming) == [] ==> Device() == old(Device()) && incoming == [] && outgoing == old(outgoing)
      ensures old(incoming) != [] ==>
        var (d, r) := Handle(activationKey, old(Device()), old(incoming)[0]);
        Device() == d && incoming == old(incoming)[1..] && outgoing == old(outgoing) + [r]
    {
      hide Encrypt, LoadWord;
      if incoming == [] {
        return;
      }
      var cmd := incoming[0];
      incoming := incoming[1..];
      var r := HandleCmd(cmd);
      outgoing := outgoing + [r];
    }

    method ReadResp() returns (r: Option<Response>)
      modifies this`outgoing
      ensures old(outgoing) == [] ==> r == None && outgoing == []
      ensures old(outgoing) != [] ==> r == Some(old(outgoing)[0]) && outgoing == old(outgoing)[1..]
    {
      if outgoing == [] {
        return None;
      }
      r := Some(outgoing[0]);
      outgoing := outgoing[1..];
    }

    method ZeroizeAll()
      modifies this`devState, this`unlockedShift, this`failCount, vault, aesCore
      ensures Device() == ZeroizeDev(old(Device()))
    {
      vault.Zeroize();
      devState, unlockedShift, failCount := LOCKED, [], 0;
      aesCore.result := None;
      aesCore.keyWords := None;
    }

    method HandleCmd(cmd: Cmd) returns (r: Response)
      requires Formed(Device())
      modifies this`devState, this`unlockedShift, this`failCount, vault, aesCore
      ensures (Device(), r) == Handle(activationKey, old(Device()), cmd)
    {
      hide Encrypt, LoadWord;
      if devState == TRAPPED {
        if cmd.STATUS? {
          return Response(true, Trapped(failCount));
        } else if cmd.ZEROIZE? {
          ZeroizeAll();
          return Response(true, Zeroized);
        }
        return Response(false, OnlyStatusAndZeroize);
      }
      if cmd.STATUS? {
        return Response(true, StatusOk(devState, failCount, vault.keyCommitted, aesCore.state, aesCore.result.Some?));
      }
      if cmd.ZEROIZE? {
        ZeroizeAll();
        return Response(true, Zeroized);
      } else if devState == LOCKED || devState == UNLOCKED_SHIFT {
        if !cmd.UNLOCK_WORD? {
          return Response(false, OnlyUnlockWord);
        }
        if cmd.word.None? {
          return Response(false, MissingWord);
        }
        r := UnlockWord(cmd.word.value);
      } else {
        r := CommandUnlocked(cmd);
      }
    }

    method UnlockWord(word: int) returns (r: Response)
      modifies this`devState, this`unlockedShift, this`failCount
      ensures (Device(), r) == ShiftWord(activationKey, old(Device()), word)
    {
      devState := UNLOCKED_SHIFT;
      unlockedShift := unlockedShift + [Masked(word)];
      if |unlockedShift| < 4 {
        return Response(true, MoreWordsNeeded(|unlockedShift|));
      }
      if unlockedShift == activationKey {
        devState, unlockedShift, failCount := UNLOCKED, [], 0;
        return Response(true, DeviceUnlocked);
      }
      unlockedShift := [];
      failCount := failCount + 1;
      if failCount >= LOCKOUT_THRESHOLD {
        devState := TRAPPED;
        return Response(false, DeviceTrapped);
      }
      devState := LOCKED;
      return Response(false, UnlockFailed);
    }

    method CommandUnlocked(cmd: Cmd) returns (r: Response)
      requires Formed(Device())
      modifies vault, aesCore
      ensures (Device(), r) == HandleUnlocked(old(Device()), cmd)
    {
      hide Encrypt, LoadWord;
      match cmd {
        case LOAD_KEY_WORD(idx, word) =>
          if idx.None? || word.None? {
            return Response(false, ErrorProcessing);
          }
          vault.Load(idx.value, word.value);
          return Response(true, KeyWordLoaded(idx.value));
        case COMMIT_KEY =>
          var ok := vault.Commit();
          if !ok {
            return Response(false, InvalidKeyLength);
          }
          aesCore.InitKey(vault.keyWords);
          return Response(true, KeyCommitted);
        case ENCRYPT_BLOCK(block) =>
          if !vault.keyCommitted {
            return Response(false, KeyNotCommitted);
          }
          if block.None? || |block.value| != 16 {
            return Response(false, InvalidBlock);
          }
          aesCore.EncryptBlock(block.value);
          return Response(true, EncryptionStarted);
        case READ_RESULT =>
          if aesCore.result.None? {
            return Response(false, NoResult);
          }
          var result := aesCore.result.value;
          aesCore.result := None;
          return Response(true, EncryptionResult(result));
        case _ =>
          return Response(false, UnknownCommand);
      }
    }
  }
}
