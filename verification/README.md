# A verified model of tmkms-light

tmkms-light is a remote signer for Tendermint validators. A validator sends it proposals and votes; it signs
them, and it must never sign two different blocks for one height, round and step, not even when it is stopped
and started again. This project models the parts of the signer that carry that promise and the formats it
stores and sends, and proves what they keep.

| module | what it models |
|---|---|
| `ChainState` | the double-sign guard and histories of accepted states |
| `SignerRun` | the signer as a step system with failed writes and crashes between any two steps |
| `Session` | the session object, its request loop and the softsign state file, proved against `SignerRun` |
| `Framing` | payloads behind a two-byte length, over a stream that serves reads in pieces, ends or fails |
| `RemoteState` | persistence from an enclave to a host through that stream, byte by byte, in any interleaving |
| `KeyWrap` | AES key unwrap with padding for 32-byte keys and the wrap it must undo |
| `CloudBackup` | sealing a key to a CPU, backing it up under a cloud key, recovering it elsewhere |
| `BitRegroup`, `BitXor`, `Bech32`, `Bech32Field`, `Bech32Prefix`, `Bech32Text` | base conversion, checksum and encoder of the Bech32 text form; the checksum as a remainder over GF(32) |
| `JournalFormat`, `JournalLog`, `JournalEvent` | the journal export records of the Nitro helper, their reader, and the events and spans written with them |

## What is proved

- **Crash safety.** A run is any list of events: start-up, a request, a file write that works, fails before or
  fails after it took effect, the memory update, the signature, a crash. In every run two signed requests for one
  duty, a proposal, a prevote or a precommit of a height and round, are the same request
  (`SignerRun.NeverSignsTwoBlocks`), and so are the responses the validator is sent over all connections
  (`Session.Serve`, `Session.NothingSentEquivocates`). Signatures come in order, the file is never behind one, and
  at most three states of a round are signed. Acceptance is not transitive, so the proofs use the order that it
  implies. Two signatures of one round for different blocks do occur; they are always a proposal and a precommit,
  and in the sequence of states the file held a nil prevote of that round lies between theirs. Every signature
  comes after a successful write of the state it signs.
- **Persistence across a stream.** At every moment of every interleaving, the states sent by the enclave are
  those the host took followed by those that decode from the bytes in flight. The host never holds anything
  else, never runs ahead, agrees with the enclave when nothing is in flight, and can always get there. A read or
  write that fails ends this, because the frame behind an interrupted one is not read as itself
  (`Framing.NextFrameComesBackExactly`); everything before the first such failure still holds
  (`RemoteState.DamageIsConfined`).
- **Key unwrapping** returns `Ok(k)` if and only if the input is the output of RFC 3394 for `k`, register by
  register, for every block cipher; what is sealed, backed up and recovered is stated in terms of the ciphers.
- **The Bech32 checksum** is the remainder by the BIP 173 polynomial over GF(32). It verifies, is the only one that
  does, and differs whenever a window of up to six values differs, in lists of any length; the encoder is injective
  in prefix and data together.
- **The log format** comes back as it was written, and of a buffer cut anywhere exactly the records that arrived
  come back. The reader stops the program exactly on a priority that is not one byte long
  (`JournalLog.StopsExactlyOnBadPriority`), and a program's own fields can be written as one. They can also take
  the place of an event's metadata; what is read back is stated for every event, and a field prefix, which the
  layer has but does not set, is shown to be exactly what rules this out (`JournalEvent.PrefixProtectsExactly`).

## How the outside world is modelled

- What the operating system, the network and the libraries decide is a parameter: a `Turn` says what one pass of
  the request loop reads and which of its writes fail; a stream carries a plan of how its reads are served. A
  contract holds for all of them.
- Replacing the state file is atomic and durable, as the rename of a temporary file promises. A write that
  reports an error may have taken effect or not.
- The block cipher, the authenticated ciphers, RSA, the curve and the key derivation of the CPU are function
  parameters with the law that decrypting undoes encrypting. The text encoding of a state is a parameter with
  the law that decoding undoes it. UTF-8 validity and lowercasing are parameters too.
- Python integers are unbounded; shifts and masks are defined on natural numbers, and
  `BitRegroup.ShlIsTimes` and `BitRegroup.ShrAndMaskAreQuotientAndRemainder` say what they mean. The integrity
  register of the key wrap is held as its eight big-endian bytes; `KeyWrap.MixIsXor` says that mixing a step
  number into them is the exclusive or of 64-bit numbers.
- `usize` has 64 bits, and a slice is shorter than 2^63 bytes.

Two comments in the source disagree with the code, and the model follows the code: the Nitro state holder says it
updates the host after each signing, while the state is sent before (`src/session.rs:96-108`); the logging layer
says its field prefix defaults to `F`, while its constructor sets none
(`providers/nitro/nitro-helper/src/tracing_layer.rs:47-53`).

## Model

| member | source | states |
|---|---|---|
| `ChainState.AcceptsExactly` | src/chain/state.rs:26-90 | the four checks accept exactly a repetition of the state and later states that do not contradict its block; a refusal is a double sign exactly when it is the block id alone that is at fault |
| `ChainState.RefusalsExactly` | src/chain/state.rs:26-90 | which of the four refusals a state gets, in the order of the checks, and with which values |
| `ChainState.NotAfterIsPartialOrder` | src/chain/state.rs:26-90 | acceptance implies a partial order on states, lexicographic in height, round and step |
| `ChainState.AcceptanceComposesUnlessConflicting` | src/chain/state.rs:64-90 | two acceptances compose exactly when the ends do not name different blocks in one round |
| `ChainState.AcceptanceIsNotTransitive` | src/chain/state.rs:64-82 | in every round, for every two blocks, there is an accepted history whose ends would be refused directly |
| `ChainState.LineIsOrdered` | src/chain/state.rs:85-102 | every history of accepted states is ordered |
| `ChainState.OneBlockPerPoint` | src/chain/state.rs:64-90 | a history holds one state for a height, round and step |
| `ChainState.ConflictNeedsNil` | src/chain/state.rs:64-82 | between two accepted states of a round for different blocks an accepted nil vote lies, at a step strictly between theirs |
| `ChainState.ConflictShape` | src/chain/state.rs:111-135 | with the steps that requests have, those are a proposal, then a nil prevote, then a precommit |
| `ChainState.AtMostThreePerRound` | src/chain/state.rs:111-135 | a history holds at most three states of one height and round |
| `SignerRun.NextKeepsInv` | src/chain/state.rs:93-102 | every step, crash or failed write keeps the invariant that ties signatures, memory and file to one history |
| `SignerRun.NeverEquivocates` | src/session.rs:88-192 | in every run, two signatures for one height, round and step are the same |
| `SignerRun.StateTellsRequest` | src/chain/state.rs:111-135 | the state kept for a request tells its duty, a proposal, prevote or precommit of a height and round, and its block |
| `SignerRun.PermittedExactly` | src/session.rs:56-192 | in terms of two requests: after the one, the other is permitted exactly if it is the same, or a later duty that names no second block in the round, for the configured chain and at most the maximum height |
| `SignerRun.FreshSignerPermits` | providers/softsign/src/state.rs:22-31 | a signer that starts without a file permits everything except a proposed block in round 0 of height 0 |
| `SignerRun.NeverSignsTwoBlocks` | src/session.rs:88-192 | in every run, two signed requests for one duty are the same request, so for the same block |
| `SignerRun.SignsInOrder` | src/session.rs:88-192 | in every run, signatures are made in the order of height, round and step, across restarts |
| `SignerRun.SignedConflictShape` | src/chain/state.rs:49-82 | in every run, signatures of one round for two blocks are a proposal and a precommit, and among the states the file ever held a nil prevote of that round lies after the one and before the other |
| `SignerRun.SignsAtMostThreePerRound` | src/chain/state.rs:111-135 | in every run, at most three different states of a height and round are signed |
| `SignerRun.SignsOnlyWhatIsAllowed` | src/session.rs:56-192 | in every run, each signature answers a permitted request, for the configured chain and with its own height at most the maximum, whose state an earlier event of the run wrote to the file with success |
| `SignerRun.FileCoversSignatures` | providers/softsign/src/state.rs:35-86 | at every moment the file is at or after every signature, so a restart never goes back behind one |
| `SignerRun.StoredRequestCanBeRetried` | src/chain/state.rs:93-102 | a request stored before a crash is accepted again after the restart |
| `Session.TurnEffect` | src/session.rs:88-192 | what one pass does: nothing when refused, at most the file when it cannot be stored, otherwise file, memory and one signature |
| `Session.RoundIsSigned` | src/session.rs:88-192 | a validator that sticks to one block gets its proposal, its prevote and its precommit of a round signed |
| `Session.ToldIsConsistent` | src/session.rs:104-192 | two signature responses that the machine made for one duty are the same response |
| `Session.NothingSentEquivocates` | src/session.rs:88-217 | in every run, from any file and with crashes anywhere, no two signature responses for one duty differ |
| `Session.ConflictDoesOccur` | src/session.rs:144-192 | for every round and two blocks there is a run that signs for both, so the shape theorem is exact |
| `Session.StateHolder.PersistState` | providers/softsign/src/state.rs:56-86 | the file holds the new state or is untouched, and success is reported only when it was replaced |
| `Session.StateHolder.LoadState` | providers/softsign/src/state.rs:22-54 | loading is the start-up step of the step system, which creates a missing file; a file that cannot be read or does not decode gives its own error and stays as it is |
| `Session.Session.constructor` | src/session.rs:39-53 | a session starts in step with the machine it drives |
| `Session.Session.CheckMaxHeight` | src/session.rs:66-73 | fails exactly above a configured maximum, with both heights |
| `Session.Session.CheckUpdateConsensusState` | src/chain/state.rs:93-102 | a refused state changes nothing; an accepted one is in the file before it is in memory, and memory moves only if the write succeeded |
| `Session.Session.HandleSigning` | src/session.rs:89-192 | performs exactly the steps of one pass; which requests are signed, which get error code 1 or 2, and which end the loop with which error |
| `Session.Session.HandleRequest` | src/session.rs:82-217 | one request is read; exactly the answerable ones get one response of their own kind, the others end the loop with their own error; a signature response is one the machine made; any other leaves memory and file unchanged |
| `Session.Session.RequestLoop` | src/session.rs:76-79 | the loop ends only in an error, that of the last pass; every request before it was answered, in order, and the steps performed are those of the passes |
| `Session.Serve` | providers/nitro/nitro-enclave/src/nitro.rs:152-158 | over any number of reconnects, every request but the one that ends a connection is answered on it in order, the steps performed are those of the passes, and no two signatures in the logs of all connections are for one duty and different blocks |
| `Session.StartSession` | providers/softsign/src/main.rs:86-200 | start-up succeeds exactly when the state can be loaded or created, and then continues the run with the start-up step; the file is what that step leaves |
| `Framing.FrameRoundTrip` | src/utils.rs:56-102 | reading takes exactly the frame written, two bytes and its length, and leaves the rest |
| `Framing.FitsExactly` | src/utils.rs:91-93 | the length limit is exactly where two bytes stop telling the length |
| `Framing.FramesRoundTrip` | src/utils.rs:56-102 | any list of payloads comes back in order |
| `Framing.TruncatedStream` | src/utils.rs:63-82 | a stream that ends inside a frame yields all whole payloads, then a non-empty prefix of the cut one or nothing |
| `Framing.PartWrittenFrameSwallowsTheNext` | src/utils.rs:97-99 | what is read after a write that stopped anywhere inside a frame: the next frame, of any length, as the rest of the length or of the payload |
| `Framing.NextFrameComesBackExactly` | src/utils.rs:56-102 | a frame sent after an interrupted write is read as itself exactly if nothing of that write went out |
| `Framing.PlannedWithoutFaults` | src/utils.rs:56-87 | without failing reads the pieces a stream is served in do not matter |
| `Framing.PlannedIsPrefix` | src/utils.rs:66-82 | with failing reads a payload is cut short, never altered |
| `Framing.ByteStream.ReadU16Payload` | src/utils.rs:56-87 | for every plan of pieces and failures, the exact result and the bytes left; on a healthy stream that of reading the whole stream at once |
| `Framing.ByteStream.WriteU16Payload` | src/utils.rs:90-102 | success exactly when the whole frame goes out; too long a payload writes nothing; otherwise exactly the part of the frame that there was room for is left behind |
| `RemoteState.NextKeepsInv` | providers/nitro/nitro-enclave/src/nitro/state.rs:41-55 | every step of enclave, stream and host, a failing read or write included, keeps the bytes in flight equal to the frames of the states not yet taken, up to the first damage |
| `RemoteState.NoFailureNoDamage` | src/utils.rs:56-102 | only a failed read or write damages the stream |
| `RemoteState.DamageIsConfined` | providers/nitro/nitro-helper/src/state.rs:86-125 | in every run, failures included, what the host takes agrees with the states sent whole before the first damage, and the enclave's own history stays in order |
| `RemoteState.PersistIsSteps` | src/chain/state.rs:93-102 | persisting over the stream and updating memory is the steps Offer, Send, Update |
| `RemoteState.FailedPersistIsSteps` | src/chain/state.rs:93-102 | a persist that fails after any number of bytes is the steps Offer, Send, WriteFails, and memory does not move |
| `RemoteState.PassIsSteps` | providers/nitro/nitro-helper/src/state.rs:86-125 | a pass of the host over a frame is a list of Take steps with the same effect |
| `RemoteState.PassesOnFrames` | providers/nitro/nitro-helper/src/state.rs:86-125 | after n passes over frames the host holds the n-th state and the file the last one whose write took effect |
| `RemoteState.HostHoldsWhatItRead` | providers/nitro/nitro-helper/src/state.rs:100-116 | over any bytes, the host ends with the last payload it read that decodes and the file with the last of those whose write had an effect; what does not decode or cannot be read changes neither; and which payloads the loop reads before it stops |
| `RemoteState.HostHoldsNothingElse` | providers/nitro/nitro-helper/src/state.rs:100-116 | host and file are as before or hold what some payload on the stream decodes to |
| `RemoteState.StateSyncer.TakeOne` | providers/nitro/nitro-helper/src/state.rs:101-116 | a pass takes a state exactly if a frame can be read and decodes; otherwise state and file stay as they were |
| `RemoteState.SentIsTakenPlusInFlight` | src/utils.rs:56-102 | while undamaged, the states sent are the states taken followed by those that decode from the bytes in flight |
| `RemoteState.HostNeverInvents` | providers/nitro/nitro-helper/src/state.rs:100-116 | while undamaged, host and file hold only states the enclave started from, accepted or completely sent, and never run ahead of it or of each other |
| `RemoteState.DrainedSidesAgree` | providers/nitro/nitro-helper/src/state.rs:100-116 | with nothing in flight both sides agree, and the file too if its last write succeeded |
| `RemoteState.CanAlwaysDrain` | providers/nitro/nitro-helper/src/state.rs:100-116 | from every undamaged reachable state the host can come to hold exactly what the enclave sent: no interleaving leaves the stream stuck inside a frame |
| `RemoteState.EnclaveHolder.LoadState` | providers/nitro/nitro-enclave/src/nitro/state.rs:32-38 | the enclave starts from the state the host greeted it with |
| `RemoteState.EnclaveHolder.PersistState` | providers/sgx/sgx-app/src/sgx_app/state.rs:34-46 | success exactly if one whole frame of the state could be written and flushed |
| `RemoteState.StateSyncer.SyncToStream` | providers/nitro/nitro-helper/src/state.rs:73-77 | the greeting is one frame of the host's state |
| `RemoteState.StateSyncer.SyncFromStream` | providers/sgx/sgx-runner/src/state.rs:49-55 | one frame is taken and decoded |
| `RemoteState.StateSyncer.PersistState` | providers/nitro/nitro-helper/src/state.rs:128-157 | the file holds the host's state or is untouched; a reported error leaves either possible |
| `RemoteState.StateSyncer.LaunchSyncer` | providers/nitro/nitro-helper/src/state.rs:86-125 | for any stream content, end of stream included, and any pieces it is served in, host and file end where the passes over its payloads put them, and each is as before or a decoding of a payload |
| `KeyWrap.MixIsXor` | providers/sgx/sgx-app/src/sgx_app/cloud/keywrap.rs:34 | mixing a step number into the register bytes is the exclusive or of 64-bit numbers, and its own inverse |
| `KeyWrap.UnwrapStepUndoes` | providers/sgx/sgx-app/src/sgx_app/cloud/keywrap.rs:31-40 | an unwrapping step undoes the wrapping step of the same number |
| `KeyWrap.UnwrapIsInverseOfWrap` | providers/sgx/sgx-app/src/sgx_app/cloud/keywrap.rs:14-46 | unwrapping yields the initial value and a key exactly for the wrap of that key |
| `KeyWrap.UnwrapPadExactly` | providers/sgx/sgx-app/src/sgx_app/cloud/keywrap.rs:69-91 | the result is `Ok(k)` if and only if the input is the wrap of k |
| `KeyWrap.WrapIsRfc` | providers/sgx/sgx-app/src/sgx_app/cloud/keywrap.rs:101-131 | the steps give exactly the output of section 2.2.1 of RFC 3394, stated register by register, and there is no other |
| `KeyWrap.KeyWrapIsRfc` | providers/sgx/sgx-app/src/sgx_app/cloud/keywrap.rs:133-138 | wrapping is that output for the initial value A65959A6 00000020 |
| `KeyWrap.UnwrapIsRfc` | providers/sgx/sgx-app/src/sgx_app/cloud/keywrap.rs:14-46 | unwrapping finds the initial value and the key that the standard would have wrapped |
| `KeyWrap.IdentityWrap` | providers/sgx/sgx-app/src/sgx_app/cloud/keywrap.rs:30-34 | an instance: with the cipher that changes nothing, the initial value comes out xored with 1 to 24 |
| `KeyWrap.IdentityRefusesPlain` | providers/sgx/sgx-app/src/sgx_app/cloud/keywrap.rs:83-90 | and the plain initial value in front of a key is refused |
| `KeyWrap.UnwrapKeyAndIv` | providers/sgx/sgx-app/src/sgx_app/cloud/keywrap.rs:14-46 | the nested loops over an array, downwards with step number n * j + i, return the initial value and key whose output by RFC 3394 is the input |
| `KeyWrap.UnwrapKeyWithPad` | providers/sgx/sgx-app/src/sgx_app/cloud/keywrap.rs:69-91 | a key is returned exactly for its output by RFC 3394 under the padding initial value; a length error exactly for wrong lengths |
| `KeyWrap.WrapKey` | providers/sgx/sgx-app/src/sgx_app/cloud/keywrap.rs:101-138 | the nested loops upwards with a running counter compute the output of RFC 3394 |
| `KeyWrap.WrapIsInjective` | providers/sgx/sgx-app/src/sgx_app/cloud/keywrap.rs:133-138 | different keys have different wraps |
| `CloudBackup.KeyRequestRoundTrip` | providers/sgx/sgx-runner/src/shared.rs:31-61 | a key request survives being stored exactly when its policy is known and its reserved fields are at their default |
| `CloudBackup.SealedExactly` | providers/sgx/sgx-app/src/sgx_app/keypair_seal.rs:13-44 | what sealing stores: the message encrypted under the key derived for a seal request of the signer with this CPU's versions, its request and its nonce |
| `CloudBackup.UnsealedExactly` | providers/sgx/sgx-app/src/sgx_app/keypair_seal.rs:68-93 | what unsealing returns for any data: the decryption under the key derived for the stored request, or an error if it does not authenticate |
| `CloudBackup.UnsealExactly` | providers/sgx/sgx-app/src/sgx_app/keypair_seal.rs:97-117 | a signing key is unsealed exactly if the data decrypts to 32 bytes that belong to the public key it was stored under |
| `CloudBackup.SealSecretRoundTrip` | providers/sgx/sgx-app/src/sgx_app/keypair_seal.rs:13-93 | what was sealed on a CPU is unsealed there |
| `CloudBackup.SealRoundTrip` | providers/sgx/sgx-app/src/sgx_app/keypair_seal.rs:49-117 | a signing key that was sealed is unsealed as that key |
| `CloudBackup.UnsealedKeyMatchesId` | providers/sgx/sgx-app/src/sgx_app/keypair_seal.rs:97-117 | whatever is unsealed, from any data, belongs to the public key it was stored under |
| `CloudBackup.SealBytesRoundTrip` | providers/sgx/sgx-runner/src/shared.rs:120-184 | a cloud payload is printed as it was read, and read as it was printed exactly at its two fixed sizes |
| `CloudBackup.PackageOpens` | providers/sgx/sgx-app/src/sgx_app/cloud.rs:73-107 | a package whose RSA key is sealed to a CPU opens there to a cloud key exactly if the wrapped part is the wrap of that key |
| `CloudBackup.BackupKeyExactly` | providers/sgx/sgx-app/src/sgx_app/cloud.rs:73-112 | any package opens to a cloud key exactly if every layer of it opens |
| `CloudBackup.BackUpExactly` | providers/sgx/sgx-app/src/sgx_app/cloud.rs:113-134 | what is backed up is the key pair encrypted under the cloud key, with its public key as associated data |
| `CloudBackup.RecoverExactly` | providers/sgx/sgx-app/src/sgx_app/cloud.rs:139-173 | for any data, what is recovered is the key pair it decrypts to under the cloud key, sealed to this CPU; data that does not decrypt is refused |
| `CloudBackup.RecoveryGivesBackTheKey` | providers/sgx/sgx-app/src/sgx_app/cloud.rs:73-173 | two packages, each with its own sealed RSA key and wrapping key, wrap one cloud key: a key backed up on one CPU and recovered on the other is unsealed there as the same key; backing up fails only if the cloud cipher cannot seal, recovering only if that CPU cannot |
| `BitRegroup.ShlIsTimes` | script/tmkms-nitro/verify.py:52-53 | a left shift multiplies by a power of two |
| `BitRegroup.ShrAndMaskAreQuotientAndRemainder` | script/tmkms-nitro/verify.py:57-61 | a right shift and a mask are quotient and remainder |
| `BitRegroup.ConvertBits` | script/tmkms-nitro/verify.py:47-67 | for all widths, the loop with its masked accumulator gives what cutting the bits into groups gives, including both ways of failing |
| `BitRegroup.RegroupRoundTripExactly` | script/tmkms-nitro/verify.py:47-67 | regrouping with padding and back without gives the list and a zero for every value's width in the padding, so the list itself exactly when the bits missing to whole groups are fewer than a value has |
| `BitRegroup.RegroupKeepsValue` | script/tmkms-nitro/verify.py:47-67 | as a number in base 2^frombits and 2^tobits the list stays the same, shifted by the bits filled in |
| `BitRegroup.StrictRegroupExactly` | script/tmkms-nitro/verify.py:62-67 | without padding a list is regrouped exactly if it is that number in whole groups and a short rest of zeros |
| `BitRegroup.WiderGroupsDoNotComeBack` | script/tmkms-nitro/verify.py:62-66 | an input of the family that does not come back |
| `BitRegroup.RegroupRoundTrip` | script/tmkms-nitro/verify.py:47-67 | regrouping into narrower groups and back gives the list |
| `BitRegroup.RegroupIsInjective` | script/tmkms-nitro/verify.py:47-67 | different lists stay different |
| `BitRegroup.EightToFiveLength` | script/tmkms-nitro/verify.py:73 | bytes give one 5-bit value for every five bits or part of five |
| `Bech32.Polymod` | script/tmkms-nitro/verify.py:18-27 | the nested loops compute the state of a register fed with the values |
| `Bech32Field.GeneratorsAreMultiples` | script/tmkms-nitro/verify.py:20 | the five constants are the BIP 173 polynomial over GF(32), coefficients 29, 22, 20, 21, 29, 18, times 1, 2, 4, 8 and 16 |
| `Bech32Field.ColumnIsMultiple` | script/tmkms-nitro/verify.py:20 | coefficient by coefficient, as products of field elements |
| `Bech32Field.StepIsTimesX` | script/tmkms-nitro/verify.py:22-26 | a step of the register is multiplication by x and addition of the value, reduced by that polynomial |
| `Bech32Field.PolymodIsRemainder` | script/tmkms-nitro/verify.py:18-27 | the checksum of a list is the remainder of its polynomial behind a leading one |
| `Bech32Field.VerifiesIffRemainderIsOne` | script/tmkms-nitro/verify.py:35-37 | verification is that this remainder is one |
| `Bech32Prefix.ExpansionParts` | script/tmkms-nitro/verify.py:30-32 | the expansion holds the upper part of each character, a zero, and the lower parts |
| `Bech32Prefix.ExpansionIsInjective` | script/tmkms-nitro/verify.py:30-32 | different prefixes have different expansions |
| `Bech32Prefix.PrefixChangeExactly` | script/tmkms-nitro/verify.py:30-37 | whether a changed prefix character is noticed depends on the two characters and the length of the prefix only, with the exact condition |
| `Bech32Prefix.ChangedPrefixIsNoticed` | script/tmkms-nitro/verify.py:30-37 | a change that keeps the upper or the lower part of the character is always noticed |
| `Bech32Prefix.ChangedLetterIsNoticed` | script/tmkms-nitro/verify.py:30-37 | so a lowercase letter changed to another one is always noticed |
| `Bech32.StepIsLinear` | script/tmkms-nitro/verify.py:22-26 | a step of the register is linear over GF(2) |
| `Bech32.StepIsInjective` | script/tmkms-nitro/verify.py:22-26 | a step maps different 30-bit registers to different ones |
| `Bech32.FeedBound` | script/tmkms-nitro/verify.py:18-27 | the register stays below 2^30 throughout |
| `Bech32.SixValuesPack` | script/tmkms-nitro/verify.py:22-26 | up to six 5-bit values lie side by side in an empty register |
| `Bech32.ChecksumIsSound` | script/tmkms-nitro/verify.py:30-44 | for every prefix and every list, the created checksum is six 5-bit values and verifies |
| `Bech32.ChecksumIsTheOnlyOne` | script/tmkms-nitro/verify.py:35-44 | no other six values verify |
| `Bech32.BurstIsDetected` | script/tmkms-nitro/verify.py:18-27 | lists of any length that differ only in a window of up to six values have different states |
| `Bech32.VerifyRejectsBursts` | script/tmkms-nitro/verify.py:35-37 | if one of two such lists verifies, the other does not |
| `Bech32Text.BechEncode` | script/tmkms-nitro/verify.py:69-75 | the encoder, which fails exactly on a list with something that is not a byte |
| `Bech32Text.EncodedVerifies` | script/tmkms-nitro/verify.py:69-75 | the values of an encoded string pass verification |
| `Bech32Text.EncodedBegins` | script/tmkms-nitro/verify.py:69-75 | every encoded key begins with its prefix, the separator and zcjduepq, the amino prefix of an Ed25519 key |
| `Bech32Text.EncodingIsInjective` | script/tmkms-nitro/verify.py:16-75 | different prefixes or different data give different strings |
| `JournalFormat.SanitizedIsClean` | providers/nitro/nitro-helper/src/tracing_layer.rs:218-226 | only capitals, digits and underscores are left of any name, so no newline |
| `Bytes.LowByteFirst` | providers/nitro/nitro-helper/src/tracing_layer.rs:236-240 | a length is written with its low byte first |
| `JournalFormat.SanitizedOrdinaryName` | providers/nitro/nitro-helper/src/tracing_layer.rs:218-226 | an ordinary name keeps every byte, with dots as underscores and letters as capitals |
| `JournalFormat.OtherBytesAreDropped` | providers/nitro/nitro-helper/src/tracing_layer.rs:218-226 | inside a name any other byte is left out without a trace |
| `JournalFormat.Buffer.PutField` | providers/nitro/nitro-helper/src/tracing_layer.rs:229-233 | appends one record and changes nothing before it |
| `JournalFormat.Buffer.PutDebug` | providers/nitro/nitro-helper/src/tracing_layer.rs:206-215 | with its length patched in afterwards, appends the very record that writing the sanitized name and the text directly would |
| `JournalFormat.TruncatedBuffer` | providers/nitro/nitro-helper/src/tracing_layer.rs:305-351 | of a buffer cut anywhere, exactly the leading records that arrived are read |
| `JournalFormat.RecordsRoundTrip` | providers/nitro/nitro-helper/src/tracing_layer.rs:229-353 | fields written are read back, in order |
| `JournalLog.LevelCodes` | providers/nitro/nitro-helper/src/tracing_layer.rs:242-261 | the two level codes are inverse to each other and go from 3 to 7 in the order of severity |
| `JournalLog.KeysSpelled` | providers/nitro/nitro-helper/src/tracing_layer.rs:182-204 | the keys of the metadata and the message, spelled out |
| `JournalLog.LineParsesExactly` | providers/nitro/nitro-helper/src/tracing_layer.rs:379-382 | a text is read as a line number exactly if it is its decimal form below 2^32 with any zeros and at most one plus sign in front |
| `JournalLog.LineRoundTrip` | providers/nitro/nitro-helper/src/tracing_layer.rs:202 | a 32-bit line number is parsed as it was printed |
| `JournalLog.StopsExactlyOnBadPriority` | providers/nitro/nitro-helper/src/tracing_layer.rs:358-366 | the updates stop the program exactly when a priority is not one byte long |
| `JournalLog.Log.Update` | providers/nitro/nitro-helper/src/tracing_layer.rs:355-388 | what each key does to the entry, with undecodable text and unknown levels ignored |
| `JournalLog.NextRecord` | providers/nitro/nitro-helper/src/tracing_layer.rs:309-346 | the index arithmetic of one pass finds the record at the front, in range and without overflow |
| `JournalLog.FromRaw` | providers/nitro/nitro-helper/src/tracing_layer.rs:301-353 | for every byte string the loop ends, and the entry is the default one updated with the fields that parse, in order |
| `JournalLog.MessageComesBack` | providers/nitro/nitro-helper/src/tracing_layer.rs:367-370 | the last message comes back |
| `JournalLog.FieldComesBack` | providers/nitro/nitro-helper/src/tracing_layer.rs:383-386 | every other field comes back under its lowercase name |
| `JournalLog.ItemsComeFromLastFields` | providers/nitro/nitro-helper/src/tracing_layer.rs:355-388 | after any list of fields, each item of the entry is the last usable value under its key |
| `JournalLog.OthersComeFromLastFields` | providers/nitro/nitro-helper/src/tracing_layer.rs:383-386 | the other fields of the entry are exactly those with a text under another key, each with its last text |
| `JournalEvent.PutMetadata` | providers/nitro/nitro-helper/src/tracing_layer.rs:182-204 | appends priority, target, file and line records, prefixed for a span and without priority there |
| `JournalEvent.OnNewSpan` | providers/nitro/nitro-helper/src/tracing_layer.rs:77-94 | the buffer a span keeps is the records of its name, its metadata and its own fields under the prefix of its depth |
| `JournalEvent.SpanRecordsAll` | providers/nitro/nitro-helper/src/tracing_layer.rs:77-94 | a span records its name, target, file, line and each own field under its depth, and nothing else |
| `JournalEvent.NameSuffixSpelled` | providers/nitro/nitro-helper/src/tracing_layer.rs:83 | the key of a span's name, spelled out |
| `JournalEvent.SpanKeysStayApart` | providers/nitro/nitro-helper/src/tracing_layer.rs:146-155 | fields of one name in spans of different depth have different keys, as written and as filed by the reader |
| `JournalEvent.OnEvent` | providers/nitro/nitro-helper/src/tracing_layer.rs:108-134 | the buffer of an event is the records of its open spans from the root on, its metadata and its own fields |
| `JournalEvent.EventIsWellFormed` | providers/nitro/nitro-helper/src/tracing_layer.rs:206-226 | whatever names a program chooses, everything it logs is made of records that parse |
| `JournalEvent.OwnPriorityFieldStopsReader` | providers/nitro/nitro-helper/src/tracing_layer.rs:170-180 | the host stops on an event exactly if an own field, whatever its name, is written under the key of the priority with a text that is not one byte long |
| `JournalEvent.LowercaseNameHasKey` | providers/nitro/nitro-helper/src/tracing_layer.rs:218-226 | every key is written for its own lowercase name, so priority and target are names of reserved keys |
| `JournalEvent.PriorityName` | providers/nitro/nitro-helper/src/tracing_layer.rs:218-226 | an own field named priority stands for the priority when no prefix is set |
| `JournalEvent.LeadingUnderscoreIsDropped` | providers/nitro/nitro-helper/src/tracing_layer.rs:218-226 | underscores and dots in front of a name do not change its key, so many names stand for one key |
| `JournalEvent.EventComesBack` | providers/nitro/nitro-helper/src/tracing_layer.rs:108-134 | level, target, file, line and message read back are those of the last own field with that key, else those of the metadata, whatever the spans wrote; a missing file reads as empty, a missing line as zero |
| `JournalEvent.MetadataComesBack` | providers/nitro/nitro-helper/src/tracing_layer.rs:182-204 | so the metadata comes back if no own field is written under a reserved key |
| `JournalEvent.OwnTargetTakesOver` | providers/nitro/nitro-helper/src/tracing_layer.rs:170-180 | without a prefix it does not always: an own field named target takes the target's place |
| `JournalEvent.PrefixProtectsExactly` | providers/nitro/nitro-helper/src/tracing_layer.rs:65-70 | exactly a field prefix other than CODE keeps every possible own name away from the reserved keys |

## Left out

- Sockets, the secret connection handshake, retries and sleeps, the vsock proxy, command-line entry points and enclave launching: plumbing around the modelled parts.
- Protobuf, JSON, TOML and base64: library encodings, not part of this model; the state encoding is a parameter.
- Signature bytes: the guard compares consensus states, so results are about the states that are signed.
- A stop of enclave and host with bytes still in flight: the enclave does not wait for the host, so nothing beyond the drained-stream theorem holds there.
- RemoteState.StateSyncer.LaunchSyncer: gives the host's values for one connection whose reads do not fail; for failing reads `RemoteState.DamageIsConfined` says what holds.
- The creation of the host's first state file: the same as on the softsign side.
- Zeroizing of secrets and the filling of random nonces: nonces are parameters, memory clearing has no effect on results.
- Attestation documents, certificates and the claim text of the RSA wrapping key: library calls.
- JournalEvent.EventIsWellFormed: asks for a field prefix without a line break, because the format cannot quote one inside a key.
- The printed form of a log entry: it only joins strings.
