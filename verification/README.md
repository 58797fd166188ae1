# EROS safety model

EROS runs three RISC-V cores on one bus. They work alone, in triple mode (requests are voted), in
dual mode (requests are compared) or in dual mode with one core trailing the other by N cycles, and
they recover from faults by scrubbing all registers through the voter or by rolling back to a
checkpoint. The firmware carries an AES library. This project models these five parts and proves
what they are for. `dafny verify dfyconfig.toml` checks all of it.

| files | part |
|---|---|
| `aes_field`, `aes_tables`, `aes_spec`, `aes_cipher`, `aes_keys`, `aes_fips` | the block cipher: GF(2^8), S-boxes, the FIPS 197 cipher as functions, the in-place code refined to it, the key schedule, and both pinned byte by byte to the standard |
| `aes_modes_spec`, `aes_modes` | CBC and counter mode for any block function, and the context whose methods overwrite buffers |
| `obi`, `elastic`, `lockstep` | requests and cores, the elastic register and its chain, delayed lockstep as a simulation between two cores |
| `dmr_comparator`, `tmr_voter`, `cpu_wrapper`, `delayed_wrapper` | comparison, voting, routing over whole runs, and the wrapper in delayed mode as the lockstep pair |
| `isolation`, `isolation_control` | the stand-in bus of an isolated core, by itself and driven by the mode controller |
| `registers` | register and CSR numbers of the two assembly routines |
| `tmr_board`, `tmr_solo`, `tmr_follows`, `tmr_handler`, `tmr_recovery`, `tmr_convergence`, `tmr_acknowledge` | the scrubbing handler as a straight-line program of three register files on one voted memory; one fault-free core; three partly wrong cores that follow it; what is repaired and when; what happens without a majority; the handshake with the mode controller |
| `checkpoint` | saving and restoring context and stack, with the two copy loops |
| `safe_fsm`, `safe_paths` | the mode controller with its three triple and three dual machines and the error latch; its whole runs from reset, through recoveries and from mode to mode |

Objects and arrays appear where the source updates state in place: AES buffers and contexts, the
registers of the hardware blocks, the core that executes the assembly routines. Each of their methods
is proved equal to a function of the old state, and the lemmas speak about that function over whole
runs. Cores and buses are abstract deterministic machines, so the results hold for any of them.

Two promises do not hold on all inputs, and the conditions under which they do are proved. Scrubbing
does not repair a core whose saved stack pointer, as that core addresses it, falls into the window of
private registers or is misaligned (`MajorityRepairsIff`, `LostPointer`, `OneFlippedBit`): a misaligned
access is split in two, so that the core falls behind the others. A private frame does not
keep the other cores from being repaired, because the payload of a private store still votes
(`MajorityRepairs`). Cores that agree on nothing but two stack pointers with a public frame end equal
under the same condition and not otherwise (`ConvergesIff`). A checkpoint taken with the stack pointer
at its initial value does not cover the one word it points at (`StackRoundTripIff`).

The error latch is exact while the three machines agree; when they do is proved (`AgreementIff`,
`BootRunsAgree`), and a boot on which they do not and an error is forgotten is given
(`SplitForgetsError`). The isolation port answers every fetch provided isolation does not end right
after a request; under the mode controller it never does (`NeverTooEarly`). The condition of leaving
DMR_SYNC tests the configuration, but the test is always true (`LeavesDualSync`); the model follows the
code. Leaving triple mode, the single machine takes over the running program exactly when the master
does not acknowledge in the very first cycle (`HandoverIff`); otherwise it boots the master anew.

## Model

| member | source | states |
|---|---|---|
| AesField.MultiplyIsGfMul | sw/CB_device/lib/AES/aes.c:319-326 | the shift-and-add multiplication is multiplication of polynomials over GF(2) reduced by x^8+x^4+x^3+x+1, for every byte and each of the four constants of the inverse matrix (FIPS 197 section 4.2) |
| AesField.TimesAdditive | sw/CB_device/lib/AES/aes.c:293-333 | multiplication by each of the constants the code uses distributes over exclusive or |
| AesField.InvMixUndoesMix | sw/CB_device/lib/AES/aes.c:349-365 | the inverse matrix times the matrix is the identity, entry by entry, for all four input bytes |
| AesField.MixUndoesInvMix | sw/CB_device/lib/AES/aes.c:299-365 | and in the other order |
| AesField.MixByteAsCoded | sw/CB_device/lib/AES/aes.c:303-311 | the Tmp/Tm form of one column entry equals the matrix row 02 03 01 01 over GF(2^8) |
| AesField.InvMixByteAsCoded | sw/CB_device/lib/AES/aes.c:360-363 | four products with 0e 0b 0d 09 are the row of the inverse matrix over GF(2^8) |
| AesTables.RSboxUndoesSbox | sw/CB_device/lib/AES/aes.c:78-115 | the inverse table undoes the table on all 256 bytes |
| AesTables.SboxUndoesRSbox | sw/CB_device/lib/AES/aes.c:78-115 | and the other way round, so both are permutations |
| AesTables.SboxIsFips | sw/CB_device/lib/AES/aes.c:78-96 | every table entry is the affine image of the multiplicative inverse of its index (FIPS 197 section 5.1.1) |
| AesSpec.ShiftRowsMoves | sw/CB_device/lib/AES/aes.c:265-291 | row r moves r columns to the left, and back (FIPS 197 section 5.1.2) |
| AesSpec.ShiftRowsByRow | sw/CB_device/lib/AES/aes.c:270-290 | the rotations by rows, done one after the other, add up to the shift of all rows |
| AesSpec.ShiftRowsInverse | sw/CB_device/lib/AES/aes.c:265-408 | the two row shifts cancel in both orders |
| AesSpec.SubBytesInverse | sw/CB_device/lib/AES/aes.c:250-380 | the two substitutions cancel in both orders |
| AesSpec.MixColumnsInverse | sw/CB_device/lib/AES/aes.c:299-365 | the two column mixings cancel in both orders |
| AesSpec.MixColumnAsCoded | sw/CB_device/lib/AES/aes.c:299-312 | a whole column computed through Tmp and Tm is the matrix product of FIPS 197 section 5.1.3 |
| AesSpec.InvRoundsUndoRounds | sw/CB_device/lib/AES/aes.c:459-468 | the descending loop of the inverse cipher undoes the ascending loop of the cipher, for every number of rounds |
| AesSpec.InvCipherUndoesCipher | sw/CB_device/lib/AES/aes.c:412-470 | decryption undoes encryption for every block, every schedule and every number of rounds from 1 up |
| AesSpec.CipherUndoesInvCipher | sw/CB_device/lib/AES/aes.c:412-470 | and encryption undoes decryption, so the cipher is a permutation of blocks |
| AesCipher.SubBytes | sw/CB_device/lib/AES/aes.c:250-260 | in place: the block at the pointer becomes its substitution, every other byte of the array is kept |
| AesCipher.AddRoundKey | sw/CB_device/lib/AES/aes.c:236-246 | in place: the block is added to the round key of that round |
| AesCipher.ShiftRows | sw/CB_device/lib/AES/aes.c:265-291 | the temporaries leave exactly the shifted block |
| AesCipher.MixColumns | sw/CB_device/lib/AES/aes.c:299-312 | the in-place column loop computes the FIPS matrix product |
| AesCipher.InvSubBytes | sw/CB_device/lib/AES/aes.c:370-380 | in place: inverse substitution |
| AesCipher.InvShiftRows | sw/CB_device/lib/AES/aes.c:382-408 | in place: inverse shift |
| AesCipher.InvMixColumns | sw/CB_device/lib/AES/aes.c:349-365 | in place: product with the inverse matrix |
| AesCipher.Cipher | sw/CB_device/lib/AES/aes.c:412-445 | the coded cipher refines the cipher of FIPS 197 section 5.1 for every state and schedule |
| AesCipher.InvCipher | sw/CB_device/lib/AES/aes.c:448-470 | the coded inverse cipher refines FIPS 197 section 5.3 |
| AesKeys.RconHoldsPowers | sw/CB_device/lib/AES/aes.c:119-120 | the constants used are the powers of x in GF(2^8) |
| AesKeys.KeyExpansion | sw/CB_device/lib/AES/aes.c:145-216 | for Nk = 4, 6 and 8 the byte loop fills the schedule with the word recurrence of FIPS 197 section 5.2, with every index in range |
| AesFips.KeyBytesFirst | sw/CB_device/lib/AES/aes.c:152-159 | the first Nk words of the schedule are the key, byte by byte |
| AesFips.KeyBytesNext | sw/CB_device/lib/AES/aes.c:161-215 | byte r of word i is byte r of word i - Nk plus a byte of word i - 1: byte r + 1 (mod 4) substituted, with the round constant in byte 0, every Nk words; byte r substituted in the middle of a 256-bit key; else byte r itself |
| AesFips.CipherIsFips | sw/CB_device/lib/AES/aes.c:412-445 | with the schedule of any key, the cipher runs through a chain of states from the block to the ciphertext: entry r of column c of each state is the matrix row of the substituted entries of columns c + q, plus byte r of word 4 * round + c, with the first and last rounds as in FIPS 197 section 5.1 |
| AesFips.FipsCipherUnique | sw/CB_device/lib/AES/aes.c:412-445 | that chain leaves no choice: a key and a block determine the ciphertext |
| ModesSpec.CbcRoundTrip | sw/CB_device/lib/AES/aes.c:510-538 | CBC decryption with the inverse block function restores every number of whole blocks, from every IV (SP 800-38A section 6.2) |
| ModesSpec.CbcEncryptSplit | sw/CB_device/lib/AES/aes.c:510-523 | encrypting a buffer is encrypting a front part and then the rest from the chaining value that leaves |
| ModesSpec.CbcDecryptSplit | sw/CB_device/lib/AES/aes.c:525-538 | the same for decryption |
| ModesSpec.CbcEncryptBytes | sw/CB_device/lib/AES/aes.c:501-523 | ciphertext block i enciphers the one block whose byte j is data byte j plus byte j of the ciphertext block before, or of the IV |
| ModesSpec.CbcDecryptBytes | sw/CB_device/lib/AES/aes.c:501-538 | plaintext byte j of block i is byte j of the deciphered block plus byte j of the ciphertext block before, or of the IV |
| ModesSpec.ValueOfConcat | sw/CB_device/lib/AES/aes.c:562-572 | the counter is read most significant byte first |
| ModesSpec.IncrementAddsOne | sw/CB_device/lib/AES/aes.c:562-572 | the carry loop adds one to the big-endian counter modulo 256^16 (SP 800-38A appendix B.1) |
| ModesSpec.CounterValue | sw/CB_device/lib/AES/aes.c:553-574 | counter block n is the IV plus n modulo 2^128 |
| ModesSpec.CounterUnique | sw/CB_device/lib/AES/aes.c:553-574 | and it is the only block with that value |
| ModesSpec.CtrBytes | sw/CB_device/lib/AES/aes.c:547-578 | byte i is added to byte i mod 16 of the enciphered block whose value is IV + i/16 mod 2^128 |
| ModesSpec.CtrIsInvolution | sw/CB_device/lib/AES/aes.c:547-578 | the same call from the same IV undoes itself, for every length (SP 800-38A section 6.5) |
| ModesSpec.CtrSplit | sw/CB_device/lib/AES/aes.c:547-578 | one call equals two calls when the first covers whole blocks, the second starting from the counter the first left |
| ModesSpec.CtrNextIvSplit | sw/CB_device/lib/AES/aes.c:553-574 | splitting a call leaves the same counter if and only if the split wastes no key stream block |
| AesModes.DecipherUndoesEncipher | sw/CB_device/lib/AES/aes.c:479-489 | the AES pair is a pair of inverse block functions, as the mode lemmas require |
| AesModes.EncipherIsFips | sw/CB_device/lib/AES/aes.c:479-483 | enciphering gives the ciphertext of FIPS 197 under every key whose schedule the context holds |
| AesModes.DecipherIsFips | sw/CB_device/lib/AES/aes.c:485-489 | deciphering finds the plaintext that FIPS 197 turns into the given block |
| AesModes.AesCbcRoundTrip | sw/CB_device/lib/AES/aes.c:510-538 | CBC with AES itself: decrypting what was encrypted from the same IV restores the buffer |
| AesModes.XorWithIv | sw/CB_device/lib/AES/aes.c:501-508 | adds 16 bytes at a pointer that may lie earlier in the same buffer |
| AesModes.AesContext.Init | sw/CB_device/lib/AES/aes.c:218-221 | the context holds the expanded key |
| AesModes.AesContext.SetIv | sw/CB_device/lib/AES/aes.c:228-231 | the IV is replaced, the schedule kept |
| AesModes.AesContext.InitIv | sw/CB_device/lib/AES/aes.c:223-227 | both |
| AesModes.AesContext.EcbEncrypt | sw/CB_device/lib/AES/aes.c:479-483 | one block of the buffer becomes its FIPS 197 ciphertext under the expanded key, nothing else changes |
| AesModes.AesContext.EcbDecrypt | sw/CB_device/lib/AES/aes.c:485-489 | one block of the buffer becomes the block whose FIPS 197 ciphertext it was, nothing else changes |
| AesModes.AesContext.CbcEncryptBuffer | sw/CB_device/lib/AES/aes.c:510-523 | the buffer part becomes its CBC encryption although the IV pointer moves into it; the context keeps the last ciphertext block |
| AesModes.AesContext.CbcDecryptBuffer | sw/CB_device/lib/AES/aes.c:525-538 | the buffer part becomes its CBC decryption; the context keeps the last ciphertext block |
| AesModes.AesContext.IncrementIv | sw/CB_device/lib/AES/aes.c:562-572 | the loop over bi leaves the incremented counter |
| AesModes.AesContext.CtrXcryptBuffer | sw/CB_device/lib/AES/aes.c:547-578 | byte i of any length is added to byte i mod 16 of the enciphered counter IV + i/16; the IV left is IV + ceil(length/16) |
| Elastic.SngReg.Clock | rtl/obi_sngreg.sv:29-118 | the load, clear and hold logic of the five fields is one register that takes, keeps or empties, and grants exactly when it takes |
| Elastic.PipelinedDelay.Clock | rtl/obi_pipelined_delay.sv:24-56 | the chain of registers clocked together, with grants passing back through all of them |
| Elastic.GrantedIff | rtl/obi_pipelined_delay.sv:24-56 | the core is granted if and only if it requests and some stage is empty or the bus grants |
| Elastic.StepConserves | rtl/obi_pipelined_delay.sv:24-56 | in each cycle delivered ++ in flight afterwards == in flight before ++ accepted |
| Elastic.RunConserves | rtl/obi_pipelined_delay.sv:24-56 | the same over every run, in order, for every depth and grant pattern |
| Elastic.FromReset | rtl/obi_pipelined_delay.sv:24-56 | from an empty chain the delivered requests are a prefix of the accepted ones, at most one chain length behind |
| Elastic.PresentedUntilGranted | rtl/obi_sngreg.sv:38-118 | a presented request is unchanged until granted |
| Elastic.ClearEmpties | rtl/obi_sngreg.sv:34-36 | clear_pipeline empties every stage and shifts the payloads on |
| Elastic.FlowingShifts | rtl/obi_pipelined_delay.sv:24-56 | while the bus takes what it is shown, every stage moves on by one and the core is granted at once |
| Lockstep.LockstepReg.Clock | rtl/lockstep_reg.sv:39-163 | one clock edge of request pipelines and response shift registers, enabled or not |
| Lockstep.FlagsDifference | rtl/dmr_comparator.sv:31-67 | the comparator flags an error exactly when the trailing port differs visibly from the leading core of N cycles ago; otherwise the bus carries that core's request |
| Lockstep.StaysBehind | rtl/lockstep_reg.sv:104-163 | while the ports match, the leading core steps as if alone and all registers stay N cycles behind it |
| Lockstep.Undisturbed | rtl/lockstep_reg.sv:104-163 | the same over every run that matched so far |
| Lockstep.DetectsFirstDifference | rtl/dmr_comparator.sv:31-67 | for any request stream on the trailing port, the first visible difference raises the error in its own cycle and nothing raises it before |
| Lockstep.StaysAligned | rtl/lockstep_reg.sv:104-163 | alignment is kept by every step of the two cores, pipelines, comparator and bus |
| Lockstep.Simulation | rtl/lockstep_reg.sv:104-163 | over every run, with any N from 1 up: trailing core at t + N == leading core at t == the core alone, no error ever, bus requests those of N cycles ago |
| Lockstep.EntersAligned | rtl/lockstep_reg.sv:131-163 | N disabled cycles with both cores asleep in one state and no late response left establish alignment |
| Obi.SeenAlikeMeans | rtl/dmr_comparator.sv:35-40 | requests that are seen alike read and write the same words with the same bytes; seen differently, they differ in kind, lanes, a requested address or a written value |
| DmrComparator.MismatchIsVisible | rtl/dmr_comparator.sv:35-40 | the check fires exactly when the bus could tell the two requests apart |
| DmrComparator.ComparedContains | rtl/dmr_comparator.sv:31-67 | what leaves was requested alike by both cores; any difference zeroes both buses |
| TmrVoter.VoteMasks | rtl/tmr_voter.sv:41-80 | one core, whichever and whatever it shows, cannot change the vote |
| TmrVoter.VotesBitwise | rtl/tmr_voter.sv:41-47 | each voted bit is the bit at least two cores show |
| TmrVoter.VotesLanes | rtl/tmr_voter.sv:41-47 | the same for the byte enables |
| TmrVoter.Checker | rtl/tmr_voter.sv:85-120 | the loops name core i exactly when it differs visibly from the vote; the error is raised only under a voted request |
| TmrVoter.BlamesTheFaulty | rtl/tmr_voter.sv:85-120 | with two healthy cores only the third is ever named, and exactly when it differs visibly |
| TmrVoter.SwitchedOffIsSilent | rtl/tmr_voter.sv:95-118 | with the enable off no core is named and no error raised, whatever the cores show |
| TmrVoter.SilenceMeansAgreement | rtl/tmr_voter.sv:85-120 | no named core means that all three ask the bus for what was voted |
| CpuWrapper.TripledRequests | rtl/safe_cpu_wrapper.sv:259-332 | in triple mode the master's port carries the healthy request, the other ports are zero |
| CpuWrapper.TripledReplies | rtl/safe_cpu_wrapper.sv:364-372 | in triple mode every core sees the responses of the master's port |
| CpuWrapper.TripleMasks | rtl/safe_cpu_wrapper.sv:259-394 | over every run, with any faulty core, any master and any bus: ports, bus and healthy cores behave as one fault-free core alone |
| CpuWrapper.DualContains | rtl/safe_cpu_wrapper.sv:561-612 | in dual mode the master's port carries the master's requests if both masked cores agree, else nothing; the other ports are zero |
| CpuWrapper.DualRequestsAreShared | rtl/safe_cpu_wrapper.sv:259-332 | any request that leaves was issued alike by both masked cores, and the third core has no influence |
| CpuWrapper.DualReplies | rtl/safe_cpu_wrapper.sv:364-393 | in dual mode without delay both masked cores see what the master's port is answered, and the third core its own port |
| CpuWrapper.DualErrorIff | rtl/dmr_comparator.sv:31-67 | the comparator of the pair raises its error exactly when the two cores visibly differ |
| CpuWrapper.DualRunsAsOne | rtl/safe_cpu_wrapper.sv:259-394 | over every run two equal cores in dual mode are one core alone on the master's port: same ports, same bus, no error, whatever the third core shows |
| CpuWrapper.DualStopsFirstDifference | rtl/safe_cpu_wrapper.sv:259-394 | over every run with one arbitrary core in the pair, master or not, the other core and the bus behave as one fault-free core alone up to the first visible difference; that cycle raises the first error and nothing leaves in it |
| CpuWrapper.SingleModeIsDirect | rtl/safe_cpu_wrapper.sv:388-393 | without voter and dual mode every core has its own port in both directions, whoever is the master |
| CpuWrapper.DelayedThirdIsCutOff | rtl/safe_cpu_wrapper.sv:339-344 | in delayed mode a core outside the pair is not answered at all |
| CpuWrapper.AsleepSeesIsolation | rtl/safe_cpu_wrapper.sv:361-363 | an isolated core is answered by its isolation logic, whatever the mode |
| DelayedWrapper.DelayedRequests | rtl/safe_cpu_wrapper.sv:561-678 | in delayed dual mode the master's port carries what the comparator lets through of the lockstep pair, the other ports are idle |
| DelayedWrapper.WrapperIsPair | rtl/safe_cpu_wrapper.sv:337-394 | one clock of wrapper, lockstep registers and cores is one step of the lockstep pair, whatever the third core and the other ports do |
| DelayedWrapper.DelayedSimulation | rtl/safe_cpu_wrapper.sv:599-726 | over every run of the wrapper the leading core runs as if alone, the master's port carries the requests of N cycles ago and no error is raised |
| Isolation.IsolationPort.Clock | rtl/safe_cpu_wrapper.sv:411-428 | the two flip-flops of an isolated fetch port, and the response the core sees |
| Isolation.FedWithWfi | rtl/safe_cpu_wrapper.sv:411-428 | an isolated core is granted each fetch at once and answered in the next cycle with the encoding of wait for interrupt, over every history |
| Isolation.FetchesAreAnswered | rtl/safe_cpu_wrapper.sv:411-428 | granted == answered + remembered, in every legal run, if and only if isolation never ends right after a request; else exactly one fetch is lost for good |
| Isolation.LostFetch | rtl/safe_cpu_wrapper.sv:416-423 | the port by itself does not prevent it: surroundings that end isolation right after a request lose a fetch |
| IsolationControl.NeverTooEarly | rtl/safe_FSM.sv:618-621 | driven by the mode controller, isolation never ends right after a request, for every run, if a sleeping hart requests nothing |
| IsolationControl.IsolationLosesNothing | rtl/safe_cpu_wrapper.sv:361-363 | so every granted fetch is answered once or still remembered, over every run of the controller with arbitrary inputs |
| TmrBoard.Cluster.Run | sw/CB_device/lib/safety/CB_Safety.c:205-390 | three register files run a program step by step on one voted memory; a private access is answered by the core's own registers, while its payload still reaches the voter |
| TmrBoard.PrivateReadsBack | rtl/cpu_private_reg_top.sv:162-206 | a private register reads back the low bit written to it, and a write changes no other |
| TmrBoard.SlotsAsCoded | sw/CB_device/lib/safety/CB_Safety.c:207-300 | where the frame begins and ends, relative to the lowered stack pointer |
| TmrSolo.PushPopSolo | sw/CB_device/lib/safety/CB_Safety.c:218-384 | on one core the pushes and pops change no register, no CSR and no memory outside the frame |
| TmrFollows.VotedIsTrue | rtl/tmr_voter.sv:41-80 | every frame access is the one the voter makes of the three cores, with one core arbitrary, or with one wrong stack pointer anywhere and the data decided bit by bit |
| TmrHandler.FollowsPushPop | sw/CB_device/lib/safety/CB_Safety.c:218-384 | the three cores follow the fault-free one through the pushes and pops, and end with every register and CSR reloaded |
| TmrHandler.ScrubRepairs | sw/CB_device/lib/safety/CB_Safety.c:205-390 | every core that finds its words on the voted bus ends in step with what the voter made of the three copies, stack pointer and CSRs included; memory changes only in the frame; every core in step has dropped its acknowledge bit |
| TmrRecovery.MajorityDecides | sw/CB_device/lib/safety/CB_Safety.c:205-390 | two equal stack pointers with a public frame, everything else arbitrary in all three cores: each core that finds its words, wherever its frame lies, ends with the bitwise majority of the three copies in every register and CSR |
| TmrRecovery.MajorityRepairs | sw/CB_device/lib/safety/CB_Safety.c:205-390 | each register and CSR, sp included, wrong in at most one core, possibly a different one each time: core by core, sp and x2 to x31 are repaired if and only if the core finds its saved sp; a core whose sp was right is repaired as a whole, also when the frame of another is private |
| TmrRecovery.MajorityRepairsIff | sw/CB_device/lib/safety/CB_Safety.c:205-390 | all three cores are repaired if and only if each finds its saved sp on the voted bus in one piece (outside the private window and aligned) |
| TmrRecovery.LostPointer | sw/CB_device/lib/safety/CB_Safety.c:323-326 | whatever the cores hold, a core that does not find its saved sp leaves out of step or with a wrong sp, and out of step if its sp was not aligned |
| TmrRecovery.FaultyCoreRepairedIff | sw/CB_device/lib/safety/CB_Safety.c:205-390 | one core wrong in any way: the others are repaired in any case, and it is if and only if it finds its saved sp; of its other words only those of x1 and the CSRs matter |
| TmrRecovery.StackPointerRepairedIff | sw/CB_device/lib/safety/CB_Safety.c:323-326 | one core wrong in any way: its sp, and with it x2 to x31, is repaired if and only if it finds its saved sp, for every frame |
| TmrRecovery.OneFlippedBit | rtl/include/eros_pkg.sv:181-195 | a single flipped address bit makes the frame of a stack in the RAM private |
| TmrConvergence.ConvergesIff | sw/CB_device/lib/safety/CB_Safety.c:205-390 | with two equal stack pointers whose frame is public, the cores leave in step with equal registers and CSRs if and only if each finds its saved sp, and then with the bitwise majority |
| TmrConvergence.ScrubConverges | sw/CB_device/lib/safety/CB_Safety.c:302-389 | without any agreement, even of stack pointers: three public frames, and a public frame of the one sp that all three reload, end with equal registers and CSRs |
| TmrAcknowledge.AcknowledgeHeld | sw/CB_device/lib/safety/CB_Safety.c:211-389 | for every prefix of the handler: a core with a public frame has its acknowledge bit up from before the first register is saved until all that was pushed is reloaded, and down from then on |
| TmrAcknowledge.ServedIff | sw/CB_device/lib/safety/CB_Safety.c:211-389 | whatever the pace of the instructions, the mode controller has seen all acknowledge and then all release exactly when the last bit is dropped |
| TmrAcknowledge.RecoveryHandshake | rtl/safe_FSM.sv:433-442 | handler and controller together: the resync interrupt is held through the whole handler and released in the cycle after the bits are dropped, with voting resumed; the harts are in step in every cycle, and equal at the end |
| Checkpoint.Cpu.StoreStack | sw/CB_device/lib/safety/CB_Safety.c:597-607 | the loop terminates and copies every word from sp to the initial stack pointer, or nothing when they are equal |
| Checkpoint.Cpu.SaveFile | sw/CB_device/lib/safety/CB_Safety.c:611-746 | all CSRs, x1 to x31 as they were on entry and the resume address reach the save area; all registers end as they began |
| Checkpoint.Cpu.StoreCheckpoint | sw/CB_device/lib/safety/CB_Safety.c:581-751 | the whole context is saved, registers are unchanged, memory changes only in the scratch words and the save area |
| Checkpoint.Cpu.LoadStack | ip/CB_boot_rom/CB_boot_rom.S:343-360 | the loop terminates, restores the stack words and leaves the save area alone, and sp is reloaded |
| Checkpoint.Cpu.HaltBoot | ip/CB_boot_rom/CB_boot_rom.S:196-331 | registers, CSRs and dpc come from the save area on every entry; memory is untouched when no recovery is requested, and otherwise only a stack that is not empty is written; the layout of the stack matters to a recovery only |
| Checkpoint.CheckpointRoundTrip | ip/CB_boot_rom/CB_boot_rom.S:196-363 | save, anything that spares the save area, restore: registers, CSRs, resume address and, for sp below the initial one, every stack word are back |
| Checkpoint.OrdinaryEntryKeepsStack | ip/CB_boot_rom/CB_boot_rom.S:236-239 | with no recovery requested the whole context comes back and no word of memory changes, whatever became of the stack |
| Checkpoint.EmptyStackNotRestored | ip/CB_boot_rom/CB_boot_rom.S:347-347 | with sp at its initial value the word there is not restored: a run that shows it, for every state |
| Checkpoint.StackRoundTripIff | sw/CB_device/lib/safety/CB_Safety.c:597-597 | the stack always comes back if and only if sp was below its initial value |
| Checkpoint.RollbackRepeats | ip/CB_boot_rom/CB_boot_rom.S:196-363 | any number of rounds end in the same context and stack, with the save area intact |
| SafeFsm.Fsm.Clock | rtl/safe_FSM.sv:160-813 | all registers of the controller after one clock edge |
| SafeFsm.StepInStep | rtl/safe_FSM.sv:403-442 | from a common state on the recovery path the three machines stay together or leave together, whatever the inputs; the voter is enabled |
| SafeFsm.PhaseAgreement | rtl/safe_FSM.sv:403-442 | over every run they stay together through any number of recoveries until all leave in one cycle for TMR_IDLE or TMR_END_SYNC |
| SafeFsm.ResyncIsHeld | rtl/safe_FSM.sv:516-526 | the resync interrupt goes to all three harts until every hart has acknowledged and later all have released, and then to none |
| SafeFsm.LatchIsExact | rtl/safe_FSM.sv:799-810 | while the machines agree, the latch bit is set in TMR_SYNC exactly when an error was seen since that state was entered, on the boot path as on any other and through any number of recoveries |
| SafeFsm.LeavesSyncExactly | rtl/safe_FSM.sv:415-422 | for every history in agreement, which state follows TMR_SYNC: a pending error leaves on the first non-critical cycle, a second rising error also in a critical section |
| SafeFsm.NoRecoveryWithoutError | rtl/safe_FSM.sv:415-422 | for every run and each machine, agreeing or not: TMR_SYNCINTC is entered only from TMR_SYNC, with an error now or one seen in TMR_SYNC since which no machine has left that state |
| SafeFsm.AgreementIff | rtl/safe_FSM.sv:364-449 | the machines agree over a whole run if and only if the harts answer alike in every cycle in which a machine looks at its own hart |
| SafeFsm.BootRunsAgree | rtl/safe_FSM.sv:370-392 | from reset, with triple mode configured and halts acknowledged alike, they agree in every cycle of every run |
| SafeFsm.SplitForgetsError | rtl/safe_FSM.sv:799-810 | a run from reset in which the machines split on the boot path and an error in a critical section is forgotten |
| SafeFsm.DualStopsOnFirstError | rtl/safe_FSM.sv:609-621 | over every run with some hart awake, dual mode runs until the first compared error, and from then on exactly the masked harts are isolated |
| SafeFsm.IsolationHolds | rtl/safe_FSM.sv:618-621 | isolation of the masked harts lasts until every hart sleeps, and no longer |
| SafePaths.Climbs | rtl/safe_FSM.sv:160-813 | along each of seven paths and over every run, the machines, the latch and the delay flip-flop stand where the inputs have brought them |
| SafePaths.MetIff | rtl/safe_FSM.sv:160-813 | a run reaches a rung of a path exactly when the conditions for leaving those before occur in it one after the other |
| SafePaths.TripleLifetime | rtl/safe_FSM.sv:166-442 | from reset, over every run: power-on, boot and any number of recoveries of triple mode, with the voter enable, halt requests and resync interrupt in each state |
| SafePaths.DualLifetime | rtl/safe_FSM.sv:562-735 | from reset, over every run: boot and any number of rollbacks of dual mode: isolation until all sleep, the halt request until both acknowledge, the recovery flag until both release, then comparing again, in delayed mode delayed all along |
| SafePaths.RollbackCompletes | rtl/safe_FSM.sv:618-631 | after an error the pair compares again if and only if all harts have slept, then both have acknowledged, then both have released |
| SafePaths.ToTripleOutputs | rtl/safe_FSM.sv:278-412 | from single to triple mode: which harts are halted, interrupted and voted at each step of the switch |
| SafePaths.ToDualOutputs | rtl/safe_FSM.sv:590-608 | from single to dual mode likewise |
| SafePaths.HandoverOutputs | rtl/safe_FSM.sv:424-430 | from triple or dual to single mode the master is interrupted until it acknowledges, and no hart is halted |
| SafePaths.SingleOutputs | rtl/safe_FSM.sv:258-309 | from reset to single mode and to a stop from outside: only the master is halted, until it alone has acknowledged |
| SafePaths.PathsJoin | rtl/safe_FSM.sv:160-449 | every switch ends where the life of its mode goes on and begins where one can stand, so that these runs compose |
| SafePaths.HandoverIff | rtl/safe_FSM.sv:261-273 | leaving triple mode the single machine goes on with the running program if and only if the master's acknowledgement does not come in the first cycle; else it boots the master anew |
| SafePaths.DualEnds | rtl/safe_FSM.sv:609-612 | all harts asleep at the end of the routine, and the start withdrawn, lead back to idle, with the delay cleared |

## Left out

- TmrRecovery.MajorityRepairsIff: leaves out, for the repair of the whole file, the frames in which an edge of the private window lies between the word of sp and those of x1 and the CSRs, because a private register may happen to read as the true value; for sp and x2 to x31 nothing is left out. The true frame, when the word of its sp is public, is public as a whole.
- TmrRecovery.FaultyCoreRepairedIff: leaves out the same frames; TmrRecovery.StackPointerRepairedIff covers sp and x2 to x31 for them.
- TmrRecovery.MajorityRepairs: asks for aligned stack pointers in all three cores, because a core that falls behind may show anything to the voter; with one core wrong in any way TmrRecovery.FaultyCoreRepairedIff does without.
- TmrRecovery.LostPointer: leaves out true stack pointers below 24 and unaligned ones, which could equal a private register's value by chance.
- TmrConvergence.ConvergesIff: asks that the frame of the two equal stack pointers be public; cores whose frames are all private can end equal by chance, with a stack pointer that is none of theirs.
- TmrBoard.Cluster.Run: executes one instruction per step, with private and voted accesses taking equally long; a core that falls behind is no longer followed, it may show anything at an instruction and its registers mean nothing. CSR bits that ignore writes are not modelled.
- Lockstep.Simulation: gives both cores the same interrupt and debug inputs and lets the memory grant in the cycle it sees a request (rtl/memory_sys.sv:38); answers may come at any time.
- Lockstep.EntersAligned: takes both cores asleep in the same state; how software brings them there is not modelled.
- CpuWrapper.TripleMasks: puts the boundary of a core at the system side of its private crossbar; the crossbar itself is not part of this model.
- CpuWrapper.DualContains: is about dual mode without delay; DelayedWrapper covers the delayed mode.
- Isolation.IsolationPort.Clock: is the fetch port; the data port (rtl/safe_cpu_wrapper.sv:433-453) has the same logic with read data zero.
- Checkpoint.Cpu.StoreCheckpoint: asks for a stack pointer not above the initial one and for a save area apart from the stack; above it the copy loop has no end before the address space.
- SafeFsm.Fsm.Clock: covers the registers; the outputs are functions of these and of the inputs, all but the permission of external debug requests.
- SafePaths.TripleLifetime: is about cycles outside critical sections; SafeFsm.LeavesSyncExactly covers those inside.
- SafePaths.Climbs: leaves out inputs that cut a path short, such as a start signal withdrawn or a master changed in the middle of a switch.
- TmrAcknowledge.RecoveryHandshake: asks for public frames, like TmrConvergence.ScrubConverges; a core that saves into its own private registers may hit its acknowledge bit.
- IsolationControl.NeverTooEarly: takes from the core that it requests nothing in a cycle in which it signals sleep.
- SafeFsm.PhaseAgreement: starts where the machines are together; how they get there from TMR_SH_HALT depends on the harts.
- Mutual exclusion of the triple and dual machines: it depends on software clearing the configuration while switching.
- Compile-time selection of the AES key size and modes: Nk is a parameter, all modes are present.
- Timing of AES, and a buffer that overlaps the context.
- Execution before the restore in the debug entry (boot ROM lines 97-107), single boot and the external debugger.
- Safe_Activate and Check_RF, whose register slots are overwritten before they are read.
- CPU internals, bus crossbars, address decoders, register files and memories: abstract machines stand for them.
- Interrupt handlers other than the scrubbing handler, C runtime, build and generator scripts.
- The end-of-routine interrupt pulse and the outstanding-transaction counter of the one-to-n crossbar.
