# Verification of the AES engine, its authentication wrapper and its UART link

This project models an AES-128/256 engine that exists as clocked RTL and as a Python
reference, the authentication layer that locks it, a queued command device built on the
reference, and the serial link through which a host drives the lock. It proves what the
parts compute over whole runs.

## What is modelled

**AES, as a refinement stack.** `Gf`, `SBox`, `Words` and `Layers` hold the arithmetic and
the round layers; `Aes` is the functional specification of `scripts/aes.py`, tied to
FIPS-197 (the S-box to section 5.1.1, the multipliers to section 4.2, the key schedule to
the word recurrence of section 5.2), with the proof that the cipher and the inverse cipher
undo each other. `Fips197` is the cipher of sections 5.1 and 5.3 of the standard written
apart from these bodies, cell by cell, with products of polynomials for MixColumns and a round
count taken from the key length; both ciphers are proved equal to it. `PackedWords` carries
the specification over to the 32-bit words of the script.
`EncipherBlock`, `DecipherBlock` and `KeyMem` are the three clocked
machines; each is shown to compute its specification in an exact number of edges.
`AesCore` ties them together. Its main result is about every sequence of operations that
respects the calling protocol `Legal`: start only when ready and one operation at a time,
hold `key`, `keylen` and `encdec` while they are used, keep `keylen` between a key load and
the block operations that use it.

**The wrapper.** `AuthController` is the staged unlock FSM and the tamper latch;
`SecureAesTop` is `secure_aes_top.sv` with all its submodules. `SecureAesRuns` proves that
the wrapper always meets the protocol of the core, that every word read is ciphertext of a
completed encryption, and what a latched tamper event silences; `SecureAesProgress` proves
that it gets there. `SecureAesBlocks` goes from the host's writes to what it reads: every
clear wipes the buffers, the block buffer holds the words last written since, and after an
unlock sequence in the inputs a start shows the ciphertext of the four words written;
`SecureAesHost` constructs a run that does all this for every key width and every block.
`UnlockTrace` characterises the `unlocked` output by the inputs alone, in
both directions: where a sequence starts is itself decided by a predicate on the inputs,
which is proved equal to the `auth_zeroize` output while no tampering is latched.

**The Python device.** `TpmCore` has the classes of `scripts/tpm-aes-core.py`;
`TpmHistory` gives the state after any history of commands, and every answer, in closed form;
`Words` and `TpmCore` prove the conversions between integers, bytes and words exact.

**The serial link.** `TickGen`, `Uart` and `UartLink` are the tick generator, transmitter
and receiver at the instantiated 12 MHz, 115200 baud and eightfold oversampling; every byte
sent arrives. `UartBridge`, `BridgeRuns` and `BridgeSessions` are the command bridge wired
to the controller, the transmitter and the receiver, proved against a recursive frame parser
that drives an abstract lock, and the frames and the status decoder of the host's driver.
`BridgeTiming` says which received bytes the bridge takes, and `UartWire` puts a host on the
other end of both lines and follows an unlock session from the bytes it sends to the status
it reads. `DriverRuns` constructs such runs: at every key width the driver has a session that
ends with "unlocked", and its whole conversation is known.

## How it is modelled

Each clocked module is a class whose registers are fields and whose `Edge` method is one
clock edge, written with the defaults, write enables and cases of the RTL. `Registers()` or
`State()` is the register vector; `Edge` is proved equal to a function `Step` on it, and the
results about runs are lemmas about `Step`. Reset is the initial state. A 32-bit word is its
four bytes (`Words` relates it to the 32-bit value); counters have their hardware width and
wrap explicitly. An out-of-range read of the key memory (address 15, which the cipher's
round counter reaches after an AES-256 block) yields the input `floating`, an arbitrary
value.

## Findings

- `secure_aes_top.sv:175` puts `AES_KEY` on the low half of the key bus, while the core in
  128-bit mode reads the upper half (`aes_key_mem.v:241`). The schedule that is loaded is
  that of the all-zero key. `SecureAesRuns.BusKeyIsAesKey` gives the exact condition: it is
  the schedule of `AES_KEY` if and only if `AES_KEY` is zero; `DefaultKeyNotLoaded` is the
  instance at the default parameter. All results about ciphertexts
  of the wrapper are stated for the key that the core really uses.
- `scripts/tpm-aes-core.py:196-197` answers ok to a LOAD_KEY_WORD that the vault ignores.
  `TpmHistory.LoadAnswerUntrue` gives two inputs, and `TpmHistory.LoadAnswerTruthful` the
  exact condition: on an unlocked device the answer is always ok, and the word is stored,
  whatever it is, if and only if the index is 0 to 3 and no COMMIT_KEY has come before in the
  session. The key of a session is therefore stated on the vault's contents.
- A byte that arrives while the bridge answers a command is lost (`auth_uart_bridge.v:131-165`
  does not look at `rx_valid`). `BridgeTiming.OfferedIsTaken` gives the exact condition by a
  timetable computed from the inputs: after a command that is complete in cycle n the bridge
  listens again from cycle n+2 or one cycle after the transmitter is free, whichever is later,
  and after a status request 1148 cycles later than that. A frame with its handover takes 1146 cycles, so a byte
  that follows a status request at that distance is lost (`BridgeTiming.BackToBackIsLost`);
  `UartWire.LostOnTheWire` is a run of the whole system in which that happens. A host that starts a command only when it has heard all answers loses nothing
  (`UartWire.HostIsHeard`), and its waiting ends (`UartWire.WaitEnds`).
- Clearing the device does not clear the core. A ciphertext that the core shows, or is still
  working out, when the device is locked reappears in the result buffer after the next unlock
  without a new start; `SecureAesProgress.OldResult` gives the exact condition and the edge.
- The latch of the tamper input looks at a sample two edges after it was taken and is armed
  after 65536 edges, so the first sample that can latch is sample 65534.

## Model

| member | source | states |
|---|---|---|
| `Gf.MultipliersAreProducts` | scripts/aes.py:221-285 | gm2 to gm14 are the products by 2 to 14 in GF(2^8), defined by repeated multiplication by x modulo 0x11b, for every byte |
| `Gf.Gm2IsXtime` | scripts/aes.py:221-222 | the branch-free doubling is the conditional reduction by 0x11b |
| `Gf.Gm2Xor` | scripts/aes.py:221-222 | doubling is linear over xor |
| `SBox.SubIsAffineOfInverse` | scripts/aes.py:59-91 | every table entry is the affine image of the field inverse of its index |
| `SBox.TablesInverse` | scripts/aes.py:59-126 | the two tables undo each other in both directions |
| `Words.UnpackPack` | scripts/aes.py:199-213 | splitting a packed word gives back its four bytes |
| `Words.PackUnpack` | scripts/aes.py:199-213 | packing the four bytes gives back the 32-bit word |
| `Words.PackXor` | scripts/aes.py:519-532 | xor of words is xor of the packed values |
| `Words.UnpackRot` | scripts/aes.py:342-343 | rolx by 8 bits is the byte rotation |
| `Words.PackInPlace` | scripts/aes.py:199-201 | the packed word has byte 0 at the most significant end and the others behind it in order |
| `Words.ValueOfNumber` | scripts/aes.py:207-213 | the four bytes of a 32-bit integer, weighted 2^24, 2^16, 2^8 and 1, sum to it, for every integer below 2^32 |
| `Words.ValueExact` | scripts/aes.py:207-213 | the integer determines the word |
| `PackedWords.RoundKeysPack` | scripts/aes.py:352-495 | the key expansion on 32-bit words, with rolx, xor and rcon << 24, gives the packed round keys, for both key lengths and every round |
| `PackedWords.LayersPack` | scripts/aes.py:540-758 | every layer on 32-bit words, with its own w2b and b2w, is the layer on bytes, which `Fips197` ties to the standard |
| `PackedWords.CiphersPack` | scripts/aes.py:630-793 | encipher and decipher on tuples of 32-bit words, packed again after every layer, are those on bytes |
| `PackedWords.PackedRoundTrip` | scripts/aes.py:630-793 | on 32-bit words too, decipher and encipher undo each other in both orders |
| `Layers.SubBytesInverse` | scripts/aes.py:580-594 | SubBytes and its inverse undo each other on every block |
| `Layers.ShiftRowsInverse` | scripts/aes.py:600-625 | ShiftRows and its inverse undo each other; which way each rotates is `Fips197.ShiftRowsIsFips` |
| `Layers.MixWordXor` | scripts/aes.py:540-548 | mixw and inv_mixw are xor-linear |
| `Layers.MixWordInverse` | scripts/aes.py:671-679 | inv_mixw and mixw undo each other on every word |
| `Layers.MixColumnsInverse` | scripts/aes.py:687-706 | the same for whole blocks |
| `Aes.GetRcon` | scripts/aes.py:504-510 | the loop computes the round constant sequence for every round |
| `Aes.RconIsPowerOfX` | scripts/aes.py:504-510 | the round constant n is x^(n-1) in GF(2^8) for every n of at least 1; it is a byte for all n |
| `Aes.KeyGen128` | scripts/aes.py:380-399 | the loop builds round keys 0 to 10, each from its predecessor |
| `Aes.KeyGen256` | scripts/aes.py:465-495 | the loop builds round keys 0 to 14 from pairs of predecessors; that there are 15 is `Fips197.RoundsAreFips` |
| `Aes.KeyGen` | scripts/aes.py:630-641 | the key length selects the expansion |
| `Aes.ScheduleIsFips` | scripts/aes.py:352-495 | word 4i+c of the flattened schedule satisfies the recurrence of section 5.2 of FIPS-197, for both key lengths |
| `Aes.AesEncipherBlock` | scripts/aes.py:630-663 | the round loop computes the cipher, which is that of the standard by `Fips197.EncipherIsFips` |
| `Aes.AesDecipherBlock` | scripts/aes.py:761-793 | the inverse round loop computes the inverse cipher, which is that of the standard by `Fips197.DecipherIsFips` |
| `Aes.InvCipherRetraces` | scripts/aes.py:761-793 | after round i the inverse cipher is in the state of the cipher after round Nr-1-i, for any round keys |
| `Aes.InvCipherInverse` | scripts/aes.py:630-793 | cipher and inverse cipher undo each other for every list of round keys |
| `Aes.DecipherEncipher` | scripts/aes.py:630-793 | decipher after encipher, and encipher after decipher, is the identity for every 4-word and 8-word key and every block |
| `Fips197.SubBytesIsFips` | scripts/aes.py:580-594 | both substitutions act on each cell of the state alone |
| `Fips197.ShiftRowsIsFips` | scripts/aes.py:600-625 | row r, column c of ShiftRows is row r, column (c + r) mod 4 of the block, and (c - r) mod 4 for the inverse |
| `Fips197.MixColumnsIsFips` | scripts/aes.py:540-758 | each column is its product with {03}x^3+{01}x^2+{01}x+{02} modulo x^4+1 in the field, and with {0b}x^3+{0d}x^2+{09}x+{0e} for the inverse |
| `Fips197.AddRoundKeyIsFips` | scripts/aes.py:519-532 | column c is added to word 4*round+c of the expanded key |
| `Fips197.RoundsAreFips` | scripts/aes.py:56-57 | the schedules have Nk+6+1 round keys: 11 for four key words, 15 for eight |
| `Fips197.EncipherIsFips` | scripts/aes.py:630-663 | encipher is the cipher of section 5.1 of FIPS-197, for both key lengths, every key and every block |
| `Fips197.DecipherIsFips` | scripts/aes.py:761-793 | decipher is the inverse cipher of section 5.3, likewise |
| `EncipherBlock.AesEncipherBlock.constructor` | multi_key_top/rtl/aes_encipher_block.v:216-231 | the registers after reset |
| `EncipherBlock.AesEncipherBlock.MuxedSboxw` | multi_key_top/rtl/aes_encipher_block.v:263-345 | the substitution port shows the word selected by the word counter, and zero outside SBOX |
| `EncipherBlock.AesEncipherBlock.Edge` | multi_key_top/rtl/aes_encipher_block.v:216-481 | one clock edge of round logic, counters and FSM, all registers |
| `EncipherBlock.EdgeAdvances` | multi_key_top/rtl/aes_encipher_block.v:263-481 | at any of the 5*Nr+2 edges of an operation the registers are those of round (t-2)/5+1 with (t-2)%5 words substituted, and the next edge advances them; the round counter stays or counts up by one and does not wrap |
| `EncipherBlock.RoundCounts` | multi_key_top/rtl/aes_encipher_block.v:376-393 | in every busy cycle the round counter is at most Nr and only counts up |
| `EncipherBlock.EncipherBlockCorrect` | multi_key_top/rtl/aes_encipher_block.v:263-481 | from any idle registers, any round keys, both key lengths: ready exactly after 5*Nr+2 edges, with the cipher of the block that was on the port at the second edge |
| `DecipherBlock.AesDecipherBlock.constructor` | multi_key_top/rtl/aes_decipher_block.v:255-270 | the registers after reset |
| `DecipherBlock.AesDecipherBlock.Edge` | multi_key_top/rtl/aes_decipher_block.v:255-520 | one clock edge, all registers |
| `DecipherBlock.EdgeAdvances` | multi_key_top/rtl/aes_decipher_block.v:302-520 | the same edge by edge account for the down-counting machine, whose SBOX stage is split from its MAIN stage; the round counter stays or counts down by one and does not wrap |
| `DecipherBlock.DecipherBlockCorrect` | multi_key_top/rtl/aes_decipher_block.v:302-520 | ready exactly after 5*Nr+2 edges with the inverse cipher, for both key lengths |
| `KeyMem.AesKeyMem.constructor` | multi_key_top/rtl/aes_key_mem.v:133-148 | the registers and the memory after reset |
| `KeyMem.AesKeyMem.Edge` | multi_key_top/rtl/aes_key_mem.v:133-429 | one clock edge of generator, rcon, counter, FSM and memory write |
| `KeyMem.SubstituteThenRotate` | multi_key_top/rtl/aes_key_mem.v:218-228 | rotating after the substitution equals substituting after the rotation |
| `KeyMem.RconAdvances` | multi_key_top/rtl/aes_key_mem.v:316-335 | rcon_reg is the round constant i in round i (128 bit) and i/2 in round i (256 bit) |
| `KeyMem.GeneratedKeyIsRoundKey` | multi_key_top/rtl/aes_key_mem.v:191-310 | what the generator produces in round i, from the prev_key window and rcon_reg, is round key i |
| `KeyMem.EdgeAdvances` | multi_key_top/rtl/aes_key_mem.v:191-429 | each edge of a load keeps: entries below the round are the round keys, the window holds the last two, rcon is that of the round |
| `KeyMem.KeyMemCorrect` | multi_key_top/rtl/aes_key_mem.v:191-429 | from any idle registers, ready exactly after Nr+4 edges, with entries 0 to Nr equal to the key schedule |
| `AesCore.AesCore.constructor` | multi_key_top/rtl/aes_core.v:190-197 | the core after reset |
| `AesCore.AesCore.CtrlEdge` | multi_key_top/rtl/aes_core.v:268-337 | one edge of the control FSM and its output registers |
| `AesCore.AesCore.SubmoduleEdges` | multi_key_top/rtl/aes_core.v:120-169 | the three machines take the same edge |
| `AesCore.AesCore.Edge` | multi_key_top/rtl/aes_core.v:120-337 | one edge of the whole core with its S-box and direction multiplexers |
| `AesCore.SessionAdvances` | multi_key_top/rtl/aes_core.v:218-337 | core and abstract session stay together over every edge that the protocol allows |
| `AesCore.PortsOfSession` | multi_key_top/rtl/aes_core.v:178-180 | ready, result_valid and result are functions of the session; ready implies that all three machines are idle, and key memory and cipher never need the S-box in the same cycle |
| `AesCore.CoreCorrect` | multi_key_top/rtl/aes_core.v:218-337 | after any legal sequence of loads, encryptions and decryptions of any length: whenever result_valid is high, result is the cipher or inverse cipher of the last started block under the last loaded key |
| `AesCore.LoadTakes` | multi_key_top/rtl/aes_core.v:303-314 | a key load takes exactly Nr+5 edges |
| `AesCore.BlockTakes` | multi_key_top/rtl/aes_core.v:316-329 | a block operation takes exactly 5*Nr+3 edges and works on the block at the second edge |
| `AesCore.HardwareRoundTrip` | multi_key_top/rtl/aes_core.v:218-337 | deciphering the result of an encryption on the core shows the original block |
| `AuthController.PlatformUnlockFsm.Comb` | multi_key_top/rtl/platform_unlock_fsm.v:35-119 | next state and all five outputs, for every state and input |
| `AuthController.PlatformUnlockFsm.Edge` | multi_key_top/rtl/platform_unlock_fsm.v:27-32 | the state register |
| `AuthController.CastBit` | multi_key_top/rtl/platform_key_store.v:10-12 | bit j of a platform key cast to a width is the binary digit of weight 2^j |
| `AuthController.AuthControllerTop.constructor` | multi_key_top/rtl/auth_controller_top.v:65-71 | the controller after reset |
| `AuthController.AuthControllerTop.Outputs` | multi_key_top/rtl/auth_controller_top.v:94-96 | the outputs, with the tamper override on unlocked, aes_enable and auth_zeroize |
| `AuthController.AuthControllerTop.Edge` | multi_key_top/rtl/auth_controller_top.v:34-90 | one edge of compare, FSM, synchroniser, arming counter and latch |
| `AuthController.TamperClosedForm` | multi_key_top/rtl/auth_controller_top.v:64-90 | every tamper register after n edges as a function of the samples; armed exactly from edge 65536 on |
| `AuthController.TamperLatchExact` | multi_key_top/rtl/auth_controller_top.v:85-88 | latched after n edges if and only if some sample from 65534 to n-3 was low |
| `AuthController.LatchIsForever` | multi_key_top/rtl/auth_controller_top.v:85-88 | once set, the latch stays set |
| `SecureAesTop.Params.KeyWords` | multi_key_top/rtl/secure_aes_top.sv:56-56 | the key takes the least number of 32-bit words that hold KEY_W bits |
| `SecureAesTop.SecureAesTop.constructor` | multi_key_top/rtl/secure_aes_top.sv:67-73 | all registers after reset |
| `SecureAesTop.SecureAesTop.CopyWord` | multi_key_top/rtl/secure_aes_top.sv:85-89 | the bit-copy loop replaces exactly the addressed word, as far as the key reaches |
| `SecureAesTop.SecureAesTop.AssemblyEdge` | multi_key_top/rtl/secure_aes_top.sv:67-114 | one edge of key, freshness mask and the two command pulses |
| `SecureAesTop.SecureAesTop.BufferEdge` | multi_key_top/rtl/secure_aes_top.sv:143-271 | one edge of block buffer, AES control FSM and result buffer; what clears and writes leave there is `SecureAesBlocks.ClearWipes` and `SecureAesBlocks.BlockBuffer` |
| `SecureAesTop.SecureAesTop.ControlWires` | multi_key_top/rtl/secure_aes_top.sv:50-54 | the clear and trap conditions |
| `SecureAesTop.SecureAesTop.CoreWires` | multi_key_top/rtl/secure_aes_top.sv:175-251 | what the core is driven with |
| `SecureAesTop.SecureAesTop.SubmoduleEdges` | multi_key_top/rtl/secure_aes_top.sv:118-251 | controller and core take the same edge |
| `SecureAesTop.SecureAesTop.Edge` | multi_key_top/rtl/secure_aes_top.sv:67-271 | one edge of the whole module |
| `SecureAesTop.SecureAesTop.Read` | multi_key_top/rtl/secure_aes_top.sv:275-289 | the gated read port |
| `SecureAesRuns.WrapperObeysProtocol` | multi_key_top/rtl/secure_aes_top.sv:186-251 | in every cycle of every run the core's protocol is met; aes_init and aes_next never without ready and never both; AES_READY implies a loaded key schedule |
| `SecureAesRuns.ResultIsCiphertext` | multi_key_top/rtl/secure_aes_top.sv:258-271 | whenever result_ready is high, the buffer is the ciphertext of the latest encryption that was complete one edge before |
| `SecureAesRuns.ReadsCiphertext` | multi_key_top/rtl/secure_aes_top.sv:275-289 | every word read with rd_valid is the addressed word of that ciphertext |
| `SecureAesRuns.BusKeyIsAesKey` | multi_key_top/rtl/secure_aes_top.sv:175-176 | the loaded schedule is that of AES_KEY if and only if AES_KEY is zero |
| `SecureAesRuns.DefaultKeyNotLoaded` | multi_key_top/rtl/secure_aes_top.sv:5-7 | with the default AES_KEY no run ever holds the schedule of AES_KEY in AES_READY |
| `SecureAesRuns.LatchedExactly` | multi_key_top/rtl/auth_controller_top.v:64-90 | the exact tamper condition inside the wrapper |
| `SecureAesRuns.SilentAfterTamper` | multi_key_top/rtl/secure_aes_top.sv:51-289 | once latched: locked, trap and auth_zeroize high, nothing read, no AES operation started, and key, block and result buffers zero from the next cycle, until reset |
| `SecureAesProgress.StaysUnlocked` | multi_key_top/rtl/platform_unlock_fsm.v:104-112 | without zeroize and without a latched tamper event an unlocked device stays unlocked and clears nothing |
| `SecureAesProgress.ReadyAfter16` | multi_key_top/rtl/secure_aes_top.sv:186-226 | an unlocked, undisturbed wrapper in AES_NEED_INIT with a ready core is in AES_READY after exactly 16 edges |
| `SecureAesProgress.ReadyExactly` | multi_key_top/rtl/secure_aes_top.sv:186-226 | whatever the core is doing, an undisturbed unlocked wrapper is in AES_READY from an exact number of edges on, at most 5*Nr+2+16 = 68 |
| `SecureAesProgress.ResultAfter54` | multi_key_top/rtl/secure_aes_top.sv:228-289 | a start with a full block buffer shows the ciphertext of the buffered block 54 edges later, and every read returns its words; in the 53 edges before the result buffer does not move, and the only capture is the one that ends them; `SecureAesBlocks.ResultOfWordsWritten` says which block it is |
| `SecureAesProgress.OldResult` | multi_key_top/rtl/secure_aes_top.sv:258-271 | after a relock, without a new start, the buffer shows a result if and only if the core holds a valid one or is still working one out in the first unlocked cycle, from an exact edge on, and it is that ciphertext |
| `SecureAesProgress.ResultOutlivesRelock` | multi_key_top/rtl/secure_aes_top.sv:258-271 | a ciphertext that the core shows when the device is cleared is in the result buffer again one edge after the next unlock |
| `UnlockTrace.WrittenSinceMeans` | multi_key_top/rtl/secure_aes_top.sv:83-91 | freshness of a word means a write strictly between the two edges |
| `UnlockTrace.AssembledWord` | multi_key_top/rtl/secure_aes_top.sv:85-89 | each assembled word is the data of the last write to its address, address 0 least significant |
| `UnlockTrace.ClearsIsZeroize` | multi_key_top/rtl/platform_unlock_fsm.v:43-117 | while no tampering is latched, auth_zeroize is high exactly when the inputs say so: a zeroize, or before the third commit has passed a write out of range, a commit of stale words or a commit of a wrong key |
| `UnlockTrace.LockInvAlways` | multi_key_top/rtl/secure_aes_top.sv:67-114 | mask, key, pulses and FSM stage of every untampered run, from the marks of its commits |
| `UnlockTrace.UnlockedImpliesAuthentic` | multi_key_top/rtl/platform_unlock_fsm.v:43-117 | soundness: unlocked implies that the inputs contain, after reset or a clear, three ordered commits of the three keys, each from words freshly written since the commit before, and nothing between or since that locks |
| `UnlockTrace.AuthenticMarks` | multi_key_top/rtl/secure_aes_top.sv:67-114 | such inputs clear nothing between the start and the end of the sequence |
| `UnlockTrace.AuthenticImpliesUnlocked` | multi_key_top/rtl/platform_unlock_fsm.v:43-117 | completeness: with such inputs and no latched tamper event the device is unlocked |
| `UnlockTrace.UnlockedExactly` | multi_key_top/rtl/secure_aes_top.sv:67-135 | unlocked if and only if no tamper sample has latched and the inputs contain such a sequence |
| `UnlockTrace.PresentedKey` | multi_key_top/rtl/platform_key_store.v:10-19 | in such a sequence bit j of the platform key of each stage, as a number, is the bit of the data last written to word address j/32 before the commit |
| `SecureAesBlocks.ClearWipes` | multi_key_top/rtl/secure_aes_top.sv:51-289 | for every run and every cycle with zeroize, auth_zeroize or the latch high: nothing is read or started in that cycle, and in the next block, result and key are zero, every mask bit and result_ready are low, and nothing is read |
| `SecureAesBlocks.LockedIsSilent` | multi_key_top/rtl/secure_aes_top.sv:204-289 | a locked device reads out nothing and starts nothing |
| `SecureAesBlocks.WipesExactly` | multi_key_top/rtl/secure_aes_top.sv:50-51 | the clear condition of the buffers, from the inputs alone |
| `SecureAesBlocks.BlockBuffer` | multi_key_top/rtl/secure_aes_top.sv:143-162 | in every cycle of every run the mask bit of each address is set iff a word has been written there since the last clear, the word held is the data of the last such write, zero if there is none, and the mask is full iff all four addresses have been written |
| `SecureAesBlocks.StartNeedsNewBlock` | multi_key_top/rtl/secure_aes_top.sv:148-226 | after a clear there is no aes_next until every address has been written again |
| `SecureAesBlocks.IdleAfter68` | multi_key_top/rtl/secure_aes_top.sv:186-251 | an undisturbed unlocked device of which nothing is asked can take a block after at most 68 edges, whatever it was doing |
| `SecureAesBlocks.ResultOfWordsWritten` | multi_key_top/rtl/secure_aes_top.sv:143-289 | 54 edges after a start that is taken the reads return the words of the ciphertext of the four words last written |
| `SecureAesBlocks.HostEncrypts` | multi_key_top/rtl/secure_aes_top.sv:67-289 | from the inputs alone: an unlock sequence, no zeroize or latched tamper event since, four words written, and a start 68 or more cycles after the unlock; 54 cycles later every read returns the addressed word of the ciphertext of those words |
| `SecureAesHost.RunIsAuthentic` | multi_key_top/rtl/secure_aes_top.sv:56-135 | at every key width a host that writes the words of the three platform keys in order, one cycle each, and commits each makes a clean unlock sequence |
| `SecureAesHost.HostSucceeds` | multi_key_top/rtl/secure_aes_top.sv:67-289 | for every key width and every block there is a run, given explicitly, that unlocks the device and at its end reads the ciphertext of the block |
| `TpmCore.BytesRoundTrip` | scripts/tpm-aes-core.py:94-112 | big-endian bytes and words convert back and forth without loss |
| `TpmCore.MaskedExact` | scripts/tpm-aes-core.py:48-55 | a masked word is the integer modulo 2^32 |
| `TpmCore.ConversionsExact` | scripts/tpm-aes-core.py:94-112 | the words of a block are the big-endian integers of its bytes, four by four, and the words of the key are the integers of the vault |
| `TpmCore.KeyVault.Load` | scripts/tpm-aes-core.py:48-55 | a load changes one word, unless committed or out of range |
| `TpmCore.KeyVault.Commit` | scripts/tpm-aes-core.py:57-62 | commit and its answer |
| `TpmCore.KeyVault.Zeroize` | scripts/tpm-aes-core.py:64-66 | the vault is empty |
| `TpmCore.AESCore.InitKey` | scripts/tpm-aes-core.py:80-82 | the key of the core |
| `TpmCore.AESCore.EncryptBlock` | scripts/tpm-aes-core.py:84-113 | the result is AES-128 of the words of the block under the key words, and the core is idle again; which words they are is `TpmCore.ConversionsExact` |
| `TpmCore.TPM_Core.constructor` | scripts/tpm-aes-core.py:118-127 | the new device |
| `TpmCore.TPM_Core.ReceiveCmd` | scripts/tpm-aes-core.py:129-130 | the command is queued last |
| `TpmCore.TPM_Core.StepOnce` | scripts/tpm-aes-core.py:132-136 | the oldest command is handled and its response queued; nothing happens on an empty queue |
| `TpmCore.TPM_Core.HandleCmd` | scripts/tpm-aes-core.py:138-226 | response and whole new state of one command |
| `TpmCore.TPM_Core.UnlockWord` | scripts/tpm-aes-core.py:167-189 | one activation word: shift, compare, count failures, trap |
| `TpmCore.TPM_Core.CommandUnlocked` | scripts/tpm-aes-core.py:191-224 | one command of an unlocked device, with its error answers |
| `TpmCore.TPM_Core.ZeroizeAll` | scripts/tpm-aes-core.py:228-234 | everything is cleared |
| `TpmCore.TPM_Core.ReadResp` | scripts/tpm-aes-core.py:236-237 | the oldest response is handed out |
| `TpmHistory.UnlockClosedForm` | scripts/tpm-aes-core.py:138-189 | after any history: UNLOCKED iff one of the first three groups of four words since the last ZEROIZE is the activation key, TRAPPED iff three groups all differ, else failure count and shift register are quotient and remainder by four |
| `TpmHistory.SessionClosedForm` | scripts/tpm-aes-core.py:191-234 | vault, core key, core state and result after any history, as functions of the commands since the activation key was complete |
| `TpmHistory.LoadAnswerTruthful` | scripts/tpm-aes-core.py:193-197 | on every unlocked device LOAD_KEY_WORD answers ok, and stores every word if and only if the index is 0 to 3 and the session has no COMMIT_KEY yet |
| `TpmHistory.LoadAnswerUntrue` | scripts/tpm-aes-core.py:48-55 | two devices that answer ok and ignore the word: index 4, and a committed vault |
| `TpmHistory.ReadReturnsCiphertext` | scripts/tpm-aes-core.py:214-219 | READ_RESULT succeeds iff unlocked with an unread accepted block, and returns its AES-128 ciphertext under the key of the session; `TpmHistory.ReadIsCipherOfNumbers` says it in integers |
| `TpmHistory.NumbersHeld` | scripts/tpm-aes-core.py:94-106 | every four integers below 2^32 are held by a packed block |
| `TpmHistory.ReadIsCipherOfNumbers` | scripts/tpm-aes-core.py:84-112 | the bytes read have the big-endian integers of the cipher on 32-bit words, whose key words are the integers in the vault and whose block words are the big-endian integers of the bytes of the block |
| `TpmHistory.AnswersExact` | scripts/tpm-aes-core.py:138-226 | every answer of the device after every history, from the commands alone |
| `TpmHistory.EncryptIsAccepted` | scripts/tpm-aes-core.py:205-212 | ENCRYPT_BLOCK of 16 bytes is accepted iff unlocked and committed, and is then always carried out |
| `TpmHistory.ReadsNeverOutnumberEncryptions` | scripts/tpm-aes-core.py:205-219 | successful reads plus a waiting result never exceed accepted encryptions |
| `TpmHistory.QueuesAreFaithful` | scripts/tpm-aes-core.py:126-136 | under any interleaving of receive, step and read, no command or response is lost, doubled or reordered |
| `TickGen.Log2` | implementations/advanced_uart_tests/rtl/uart_baud_tick_gen.v:33-33 | the loop counts the bits of its argument |
| `TickGen.InstantiatedConstants` | implementations/advanced_uart_tests/rtl/uart_baud_tick_gen.v:35-40 | at the instantiated parameters: 15 accumulator bits, increments 315 and 2517, no overflow of 31 bits in between |
| `TickGen.BaudTickGen.Edge` | implementations/advanced_uart_tests/rtl/uart_baud_tick_gen.v:43-43 | one edge; the sum always fits the register |
| `TickGen.Conservation` | implementations/advanced_uart_tests/rtl/uart_baud_tick_gen.v:43-44 | after n cycles, 2^w * ticks + residue = n * inc, for every width and increment |
| `TickGen.TickRate` | implementations/advanced_uart_tests/rtl/uart_baud_tick_gen.v:43-44 | the tick count is n * inc / 2^w rounded down |
| `TickGen.TickGaps` | implementations/advanced_uart_tests/rtl/uart_baud_tick_gen.v:43-44 | neighbouring ticks are 2^w / inc apart, rounded down or up |
| `Uart.UartTx.constructor` | implementations/advanced_uart_tests/rtl/uart_tx.v:52-56 | the transmitter at power-up |
| `Uart.UartTx.Edge` | implementations/advanced_uart_tests/rtl/uart_tx.v:57-81 | one edge of shift register and state |
| `Uart.UartRx.constructor` | implementations/advanced_uart_tests/rtl/uart_rx.v:58-91 | the receiver at power-up |
| `Uart.UartRx.FilterEdge` | implementations/advanced_uart_tests/rtl/uart_rx.v:64-85 | one edge of synchroniser and filter |
| `Uart.UartRx.FrameEdge` | implementations/advanced_uart_tests/rtl/uart_rx.v:92-125 | one edge of sampling counter, state, data and rx_ready |
| `Uart.UartRx.Edge` | implementations/advanced_uart_tests/rtl/uart_rx.v:64-125 | one edge of the whole receiver |
| `UartLink.SendingEdge` | implementations/advanced_uart_tests/rtl/uart_tx.v:57-87 | i clocks into a frame the transmitter is in frame bit 315*i / 32768 and shows it on the line |
| `UartLink.TickInBit` | implementations/advanced_uart_tests/rtl/uart_rx.v:61-65 | receiver tick j falls into frame bit j/8 except next to bit borders, for every phase of its accumulator |
| `UartLink.FilterEdge` | implementations/advanced_uart_tests/rtl/uart_rx.v:64-85 | the filter's content at every tick of a frame, whatever the line shows next to bit borders |
| `UartLink.ReceivingEdge` | implementations/advanced_uart_tests/rtl/uart_rx.v:92-125 | the receiver's registers at every tick of a frame; rx_ready rises exactly after tick 81, with the byte |
| `UartLink.BytesArrive` | implementations/advanced_uart_tests/rtl/uart_rx.v:63-125 | for any start inputs at any times and any initial phase: the announced bytes are the accepted bytes in order, one rx_ready each, all of them when the transmitter is idle |
| `UartLink.PowerUpIsIdle` | implementations/advanced_uart_tests/rtl/uart_rx.v:58-91 | the power-up registers, with any accumulator phase and any data, satisfy the premise of the link results |
| `UartLink.AnnouncedInFrame` | implementations/advanced_uart_tests/rtl/uart_rx.v:120-125 | a byte is announced while its frame is on the line, and it is then the last one accepted |
| `UartLink.AnnounceTime` | implementations/advanced_uart_tests/rtl/uart_rx.v:61-125 | the cycle in which a byte is announced, exactly, from the phase of the accumulator in the first cycle of its frame |
| `UartLink.FrameTime` | implementations/advanced_uart_tests/rtl/uart_tx.v:65-79 | a frame occupies the transmitter for exactly 1145 clocks, and by then its byte has arrived |
| `UartLink.FrameOnLine` | implementations/advanced_uart_tests/rtl/uart_tx.v:57-87 | the level of the line in every clock of a frame: low start bit, eight data bits least significant first, two high stop bits, bit m from clock m * 32768 / 315 on |
| `UartBridge.AuthUartBridge.constructor` | implementations/advanced_uart_tests/rtl/auth_uart_bridge.v:48-62 | the bridge after reset |
| `UartBridge.AuthUartBridge.IdleEdge` | implementations/advanced_uart_tests/rtl/auth_uart_bridge.v:72-115 | what each opcode sets |
| `UartBridge.AuthUartBridge.LoadEdge` | implementations/advanced_uart_tests/rtl/auth_uart_bridge.v:117-129 | one payload byte, with the counter at its hardware width |
| `UartBridge.AuthUartBridge.SendEdge` | implementations/advanced_uart_tests/rtl/auth_uart_bridge.v:131-165 | the acknowledge and status handshake |
| `UartBridge.AuthUartBridge.Edge` | implementations/advanced_uart_tests/rtl/auth_uart_bridge.v:64-172 | one edge of the bridge, pulses down by default |
| `UartBridge.OctetOfByte` | implementations/advanced_uart_tests/rtl/uart_rx.v:112-118 | the byte on the receive port stands for exactly the bits received |
| `UartBridge.OctetBit` | implementations/advanced_uart_tests/rtl/uart_tx.v:59-60 | bit k of an octet is the binary digit of weight 2^k of its byte |
| `UartBridge.UartTop.constructor` | implementations/advanced_uart_tests/rtl/top.v:56-120 | receiver, transmitter, bridge and controller after reset |
| `UartBridge.UartTop.CoreEdge` | implementations/advanced_uart_tests/rtl/top.v:69-120 | one edge of bridge, controller and transmitter, wired together |
| `UartBridge.UartTop.Edge` | implementations/advanced_uart_tests/rtl/top.v:56-120 | one edge of all four, from the levels of the RX and TAMPER_IN pins |
| `BridgeRuns.ParseExtends` | implementations/advanced_uart_tests/rtl/auth_uart_bridge.v:71-129 | the recursive frame parser, one more byte at a time: payload is never read as an opcode, and a key frame ends after exactly KEY_BYTES bytes |
| `BridgeRuns.ShiftsIn` | implementations/advanced_uart_tests/rtl/auth_uart_bridge.v:119-121 | the shift register holds the big-endian value of the payload so far, with nothing shifted out |
| `BridgeRuns.CountFits` | implementations/advanced_uart_tests/rtl/auth_uart_bridge.v:26-27 | byte_count never overflows its width |
| `BridgeRuns.MatchMeans` | implementations/advanced_uart_tests/rtl/key_activation_compare.v:8-11 | the comparison at KEY_W bits holds iff the key is the platform key modulo 2^KEY_W |
| `BridgeRuns.StageEdge` | implementations/advanced_uart_tests/rtl/platform_unlock_fsm.v:43-117 | the FSM obeys a command one cycle later as the abstract lock does |
| `BridgeRuns.RunFollowsParser` | implementations/advanced_uart_tests/rtl/auth_uart_bridge.v:71-170 | in every run, key port, lock stage, loading state and byte_count are those of the parsed commands driving the abstract lock |
| `BridgeRuns.AnswersInOrder` | implementations/advanced_uart_tests/rtl/auth_uart_bridge.v:131-165 | tx_start only meets an idle transmitter; the bytes given to it are the answers to the commands in order; the bridge listens again exactly when nothing is missing but the byte that tx_start is handing over |
| `BridgeRuns.AnswerEnds` | implementations/advanced_uart_tests/rtl/auth_uart_bridge.v:131-165 | from every reachable state the bridge listens again after an exact number of clocks, at most 2294 |
| `BridgeSessions.BigEndianToBytes` | implementations/advanced_uart_tests/driver_scripts/uart_driver.py:95-95 | the big-endian payload has the value of the key |
| `BridgeSessions.BigEndianDigit` | implementations/advanced_uart_tests/rtl/auth_uart_bridge.v:119-121 | byte i of a payload is the digit of weight 256^(n-1-i) of its value |
| `BridgeSessions.LoadKeyFrameExact` | implementations/advanced_uart_tests/driver_scripts/uart_driver.py:90-97 | load_key writes a frame iff 0 <= key < 2^KEY_W, and the frame is f iff f is 0xA1 and KEY_BYTES bytes of which key is the big-endian value: every payload is the frame of its value |
| `BridgeSessions.FrameDigit` | implementations/advanced_uart_tests/driver_scripts/uart_driver.py:95-98 | byte 1+i of the frame is the digit of weight 256^(KEY_BYTES-1-i) of the key |
| `BridgeSessions.PlatformFrames` | implementations/advanced_uart_tests/driver_scripts/uart_driver.py:90-97 | frames of the three platform keys exist at every width that is a multiple of 8, and they are the only frames of the right keys |
| `BridgeSessions.PlatformKeyValues` | multi_key_top/rtl/platform_key_store.v:10-12 | the platform keys and their frames at 16 bits, and the keys at 128 bits |
| `BridgeSessions.LoadedKeyArrives` | implementations/advanced_uart_tests/driver_scripts/uart_driver.py:90-99 | load_key(k) leaves auth_key_in at k in any run and whatever was there before, for every KEY_W that is a multiple of 8 and at least 16; for which keys it writes a frame is `BridgeSessions.LoadKeyFrameExact` |
| `BridgeSessions.StatusesKeep` | implementations/advanced_uart_tests/rtl/auth_uart_bridge.v:88-96 | any number of status requests leaves the lock as it is |
| `BridgeSessions.StatusesResync` | implementations/advanced_uart_tests/rtl/auth_uart_bridge.v:117-129 | KEY_BYTES status requests bring the parser to the border of a frame whatever came before |
| `BridgeSessions.DriverIsSession` | implementations/advanced_uart_tests/driver_scripts/uart_driver.py:125-165 | reset_to_init and three times apply_key_and_compare write a session, with a status request after zeroize and after every compare |
| `BridgeSessions.SessionUnlocks` | implementations/advanced_uart_tests/driver_scripts/uart_driver.py:90-148 | zeroize and three load-compare rounds, with any number of status requests in every gap, open the lock iff the keys are the three platform keys in order, whatever came before if it ended with a complete frame |
| `BridgeSessions.StatusRoundTrip` | implementations/advanced_uart_tests/driver_scripts/uart_driver.py:27-43 | from_bytes recovers every field that the bridge packed |
| `BridgeSessions.StatusDecodes` | implementations/advanced_uart_tests/driver_scripts/uart_driver.py:27-43 | from_bytes accepts exactly two bytes with header 0xD0, and the fields are the bits of the second |
| `BridgeSessions.DriverVerdict` | implementations/advanced_uart_tests/driver_scripts/uart_driver.py:150-182 | each verdict of classify_stage1, classify_stage2 and classify_stage3 tells exactly the stage of the lock, and "unlocked" an open lock without latched tampering |
| `BridgeSessions.OctetExact` | implementations/advanced_uart_tests/rtl/uart_tx.v:59-60 | the octet on the line determines the byte |
| `BridgeSessions.AnswersAreHeard` | implementations/advanced_uart_tests/rtl/top.v:69-101 | a receiver on the line hears exactly the answers, in order, for any phase |
| `BridgeTiming.KeepsSchedule` | implementations/advanced_uart_tests/rtl/auth_uart_bridge.v:71-165 | in every run the bytes taken, the cycles in which the bridge listens and the time until the transmitter is free are those of a timetable computed from the inputs alone |
| `BridgeTiming.OfferedIsTaken` | implementations/advanced_uart_tests/rtl/auth_uart_bridge.v:72-129 | a byte offered in cycle n is taken if and only if the timetable of the inputs before it listens by n; otherwise it is lost |
| `BridgeTiming.SecondByteLost` | implementations/advanced_uart_tests/rtl/auth_uart_bridge.v:131-165 | after any run that leaves the device at rest: a byte that follows a one-byte command is taken iff it comes at least 1150 cycles after a status request, or 2 after another command |
| `BridgeTiming.BackToBackIsLost` | implementations/advanced_uart_tests/rtl/auth_uart_bridge.v:139-165 | every byte offered 1146 cycles, one frame with its handover, after a status request to a device at rest is lost |
| `BridgeTiming.SilenceSuffices` | implementations/advanced_uart_tests/rtl/auth_uart_bridge.v:131-165 | after 2294 cycles without a byte the bridge listens |
| `UartWire.RegistersAtPowerUp` | implementations/advanced_uart_tests/rtl/top.v:16-79 | the power-up registers are a start state of the system, for any phases of the two receivers |
| `UartWire.LinksInside` | implementations/advanced_uart_tests/rtl/top.v:56-101 | host and device form two serial links around the device core |
| `UartWire.HostParsesAlike` | implementations/advanced_uart_tests/driver_scripts/uart_driver.py:83-123 | the host, from the bytes it sent, knows how many answers are due and whether a key frame is open |
| `UartWire.HostIsHeard` | implementations/advanced_uart_tests/driver_scripts/uart_driver.py:83-123 | a host that starts a byte only inside a key frame or when it has heard every answer: each byte meets a listening bridge, and the bytes taken are the bytes sent, in order, all of them when the line is idle |
| `UartWire.WaitEnds` | implementations/advanced_uart_tests/driver_scripts/uart_driver.py:69-81 | 4585 cycles after its last start such a host has heard every answer |
| `UartWire.HostResyncs` | implementations/advanced_uart_tests/driver_scripts/uart_driver.py:83-88 | after any bytes, KEY_BYTES status requests leave no open key frame, so that a session may follow |
| `UartWire.WireUnlocks` | implementations/advanced_uart_tests/driver_scripts/uart_driver.py:90-148 | over the wire, after any history that ends with a complete frame, zeroize and three load-compare rounds with any number of status requests in every gap open the lock iff the keys are the three platform keys in order |
| `UartWire.WireStatus` | implementations/advanced_uart_tests/driver_scripts/uart_driver.py:83-88 | what read_status returns, when every answer has been heard, is the state of the lock after everything sent before it |
| `UartWire.WireVerdict` | implementations/advanced_uart_tests/driver_scripts/uart_driver.py:125-182 | the status at the end of such a session decodes and is classified "unlocked" iff the keys are right and no tampering is latched when the request is taken; without any tampering, iff the keys are right |
| `UartWire.DriverSession` | implementations/advanced_uart_tests/driver_scripts/uart_driver.py:125-182 | for every run in which the driver sends reset_to_init and three times apply_key_and_compare: the last status says "unlocked" iff the three keys were the platform keys; such runs are constructed in `DriverRuns` |
| `UartWire.LostOnTheWire` | implementations/advanced_uart_tests/rtl/auth_uart_bridge.v:139-165 | a concrete run of the whole system: a host that sends a zeroize command right after a status request has both bytes sent, and the device has taken the first one only |
| `DriverRuns.PatientHost` | implementations/advanced_uart_tests/driver_scripts/uart_driver.py:69-123 | every stream of bytes can be sent by a host that waits after each byte: all is sent, every answer is heard, and the line is idle |
| `DriverRuns.DriverDecides` | implementations/advanced_uart_tests/driver_scripts/uart_driver.py:90-182 | with the frames of any three keys, after any complete frames, such a session exists, its last status decodes, and it says "unlocked", and the lock is open, iff the keys are the platform keys in order |
| `DriverRuns.DriverUnlocks` | implementations/advanced_uart_tests/driver_scripts/uart_driver.py:90-182 | from every power-up state and at every key width that is a multiple of 8 and at least 16 the driver has a session whose last status says "unlocked" |
| `DriverRuns.DriverTranscript` | implementations/advanced_uart_tests/driver_scripts/uart_driver.py:125-148 | what the driver hears in that session, byte for byte: every acknowledgement, and the status after the reset and after each of the three keys |
| `DriverRuns.IllegalRelocks` | implementations/advanced_uart_tests/driver_scripts/uart_driver.py:117-123 | commit_illegal after any complete frames: a lock that is not open falls back to the first stage, an open one stays open, and the host hears one more acknowledgement |

## Left out

- The single-key path (`top/rtl/tpm_aes_top.v` and its unlock FSM, key commit buffer, input
  and result buffers, ROMs): deprecated and subsumed by the multi-key top.
- The bus wrapper `aes.v` and `multi_key_top/rtl/controller_top.v`: register plumbing.
- The copies of the RTL in `aes-core/rtl` and of the S-box tables: the same logic.
- Key lengths of the Python model other than four and eight words: its code has no case for
  them.
- Asynchronous reset, clock domains and four-valued logic: reset is the initial state, and an
  unknown value that can be read is an arbitrary input.
- State encodings that no run reaches (the `default` branches of the FSMs): the states are
  enumerations.
- `rx_idle`, `rx_eop`, LEDs, the heartbeat and the power-on reset counter: not on the command
  path.
- UART parameters other than the instantiated ones: the arithmetic of the tick generator is
  proved for all widths and increments, the link for 12 MHz, 115200 baud and 8 samples a bit,
  with both ends on one clock.
- KEY_W below 9 in the bridge: its shift expression is not legal there.
- Serial port objects, time-outs, sleeps and logging of the driver scripts: foreign I/O; the
  frames they write and the bytes they decode are modelled.
- Printing, VERBOSE output and the response texts of the Python scripts: responses are values.
- Arguments of the device commands of a wrong Python type: an argument is an integer, a byte
  string or absent.
- Test benches, synthesis scripts and reports.
