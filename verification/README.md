# DogeOS node: a verified model

This project models the stateful and arithmetic core of the DogeOS node in Dafny and proves
properties of the model for all inputs, all runs and all interleavings. Four parts are modelled.

* **L1-fee cache.** `L1FeeCache` is the refresh of the cache as a bounded retry loop under a lock,
  with heads that move between any two reads, reads and loads that fail, and any number of
  refreshers; `L1FeeReads` ties every publication to the reads it rests on. `FeeMaintenance` is the
  task around it: a notification channel that lags, the startup order, the retry timer with its
  backoff. `L1FeeAdmission` is the use of the cache when a transaction is validated,
  `AdmissionExecutor` the two semaphores that bound validation.
* **Blocks.** `WorldState` and `Transitions` are the account state and the one-time fork updates,
  `BlockExecutor` the block executor with its state hook, `CodeWitness` the meter of contract code,
  `DraftBlock`, `PayloadBuilder` and `Payload` the payload builder from one candidate transaction up
  to the finished block, `PayloadExamples` concrete builds at its edges, `L1Order` the consensus rule
  on L1 messages, `PriorityFee` the fee API's reading of the receipts. `Ledger` states what executing
  transactions means in terms of the interpreter's answers alone, and `Selection` which candidates a
  payload takes and how a build ends.
* **Fees and limits.** `BaseFee` is EIP-1559 with an overhead and a fork-dependent clamp, `PoolBaseFee`
  the fee the pool enforces, `GasLimit` the gas-limit ramp and its consensus rule.
* **Codec.** `Rlp` is RLP (Appendix B of the Ethereum Yellow Paper), `L1Message` the RLP and EIP-2718
  codec of the L1 message, `Rejections` its answers to malformed input, `Forced` the decoding of the
  forced list at the payload boundary.

`MachineInts` holds the fixed-width arithmetic: saturating, wrapping and truncating operators are
written out wherever the code uses them. `Transaction` is what the block modules see of a transaction.

Where the code updates state in place the model is a class or a method with a loop, proved equal to a
function of the old state; what the code promises is then proved of that function. The whole
project verifies with `dafny verify dfyconfig.toml`.

## Assumptions

* The interpreter is a function of the state, the transaction, the compression info and the two
  validation checks; a transaction uses at most its gas limit (`BlockExecutor.Sound`) and a code hash
  determines its code (`DraftBlock.ConsistentCode`). What the meter sees of an execution is a list of
  operations. Once a limit is exceeded the execution is halted and dropped, so the operations after
  that point do not matter. Of an execution that a failing database read ends, the list is what came
  before the last point at which the meter could have halted it; if that exceeds a limit, the
  execution was halted there, and the reads that end a halted execution are taken to succeed.
* A head is visible to a head read no later than its notification is sent, and a block hash
  determines its header and state.
* `Transitions.OnlyAtFirstActiveBlock` assumes that no transaction undoes an installed transition,
  `Transitions.OracleNeverGoesBack` that, once both are set, no transaction clears the oracle's flags
  or changes its code. What the contract code allows is not part of this model.
* Database reads fail by a number: the first so many succeed, the next one fails. The first failure
  ends the call, so every pattern of failures is covered.
* The lock, the semaphores, the broadcast channel, the sort, and the commit of a state update by the
  state database behave as their libraries document.
* Arithmetic follows the release build: the manifest does not turn overflow checks on, so plain `+`
  on `u64` wraps. A debug build panics in those places instead.

## Where the code does not meet a stated property

Each of these is proved in both directions or has a proved example.

* `L1Order`: after queue index 2^64 - 1 the order rule accepts index 0 (`WrappedRunIsAccepted`); an
  accepted run counts up exactly while it stays below (`RunCountsUp`).
* `PayloadBuilder`: the builder's saturating gas guard makes the executor's own gas check redundant
  except at a block gas limit of 2^64 - 1, where a sum past it fails the whole build
  (`ExecutorGasCheckIsRedundant`, `Payload.ExecutorRefusesForGasIff`,
  `PayloadExamples.OverflowingGasFailsTheBuild`).
* `PayloadBuilder`: a byte limit of 2^64 - 1 limits nothing (`ByteTestsIff`,
  `PayloadExamples.OverflowingBytesExceedTheLimit`; no real list is that long), and a code budget of
  2^64 - 1 turns nothing away (`CodeWitness.UnlimitedBudget`).
* `Transitions`: with Feynman and GalileoV2 both active the oracle ends on the GalileoV2 code unless
  `isGalileo` was already set while `isFeynman` was not, or the code was another one
  (`OracleEndsOnGalileoV2`, `OracleCanGoBack`).
* `L1FeeAdmission`: nothing is admitted on a cache read that falls between a failed refresh and the
  next publication, but a validation that read the cache earlier can still finish in admission
  after the failure (`EarlierReadIsStillAdmitted`). A balance of 2^256 - 1 passes the saturating cost
  comparison whatever the cost (`CostCheckIff`).
* `PayloadBuilder`: an L1 message that the interpreter refuses is dropped without an error, and the
  payload fails the node's own order rule exactly when messages of the run before and after it were
  executed (`BodyIsWellOrderedIff`, `Payload.PayloadIsWellOrderedIff`,
  `PayloadExamples.RefusedMiddleMessageBreaksTheOrder`).
* `PriorityFee`: the median of an even number of tips lies between the middle two exactly when their
  sum fits 128 bits (`MeanIsBetweenIff`).

## Model

| member | source | states |
|---|---|---|
| BaseFee.NextBaseFeeNeverOverflows | crates/dogeos-reth-evm/src/base_fee.rs:166-183 | for every accepted parent no product, quotient, cast or sum of the rule leaves u64 or u128, so the machine's result is the exact one |
| BaseFee.NextBaseFeeBounds | crates/dogeos-reth-evm/src/base_fee.rs:166-183 | the next fee is the exact EIP-1559 step on the excess plus overhead, cut at the cap, and lies between min(overhead, cap) and the cap |
| BaseFee.FeeByFork | crates/dogeos-reth-evm/src/base_fee.rs:132-183 | the fee in plain arithmetic, with denominator 8, elasticity 2 and a cap of 10 gwei before TsukiV2 and 48, 10 and 420,000 gwei from its activation on |
| BaseFee.ExcessMoveBounds | crates/dogeos-reth-evm/src/base_fee.rs:166-183 | the excess falls by at most 1/D and only under target, and rises only and always above target, by at most one wei or the elasticity-derived share |
| BaseFee.NextBaseFeeMonotone | crates/dogeos-reth-evm/src/base_fee.rs:166-183 | a fuller or dearer parent never has a cheaper child |
| BaseFee.EmptyBlockIsIdleStep | crates/dogeos-reth-evm/src/base_fee.rs:166-183 | an empty block takes exactly floor(excess / D) off the excess |
| BaseFee.IdleShrinks | crates/dogeos-reth-evm/src/base_fee.rs:166-183 | an excess of at least D falls strictly, never below D - 1, and its distance to D - 1 shrinks by (D - 1) / D |
| BaseFee.IdleFixedPoint | crates/dogeos-reth-evm/src/base_fee.rs:417-419 | an excess below D never moves over empty blocks |
| BaseFee.IdleDecay | crates/dogeos-reth-evm/src/base_fee.rs:166-183 | over n empty blocks the distance to D - 1 decays geometrically and the fee never undershoots |
| BaseFee.IdleRunSettles | crates/dogeos-reth-evm/src/base_fee.rs:417-419 | a run of empty blocks ends on overhead + min(initial excess, D - 1), cut at the cap, once the decay is below one wei |
| BaseFee.IdleRunSettlesEventually | crates/dogeos-reth-evm/src/base_fee.rs:417-419 | D blocks for each wei of excess above D - 1 always suffice |
| GasLimit.NextGasLimitVerdict | crates/dogeos-reth-payload/src/builder.rs:170-179 | consensus accepts every computed limit at or above the minimum, and an override exactly when it is in range |
| GasLimit.VerdictIff | crates/dogeos-reth-consensus/src/lib.rs:250-275 | which of its three objections, or none, consensus raises against a limit |
| GasLimit.OverrideOrParentIsKept | crates/dogeos-reth-payload/src/builder.rs:170-179 | an override is taken as it is, and without an override or a target the parent's limit is kept |
| GasLimit.StepCloses | crates/dogeos-reth-payload/src/builder.rs:170-179 | one step closes min(distance, parent / 1024) and never overshoots |
| GasLimit.StepStandsStill | crates/dogeos-reth-payload/src/builder.rs:165-179 | a step changes nothing exactly at the target or from a limit below 1024 |
| GasLimit.RampIsMonotoneAndValid | crates/dogeos-reth-consensus/src/lib.rs:250-275 | every block of the ramp is monotone toward the target and accepted by consensus |
| GasLimit.RampArrives | crates/dogeos-reth-payload/src/builder.rs:170-179 | the ramp is on its target within ceil(distance / floor(min(start, target) / 1024)) blocks and stays |
| GasLimit.RampIsFastest | crates/dogeos-reth-consensus/src/lib.rs:250-275 | no chain of limits that consensus accepts reaches a target sooner than the ramp |
| L1Order.ValidateL1Messages | crates/dogeos-reth-consensus/src/lib.rs:225-247 | accepts exactly the lists that are a run of L1 messages with successive indices followed by other transactions |
| L1Order.RunCountsUp | crates/dogeos-reth-consensus/src/lib.rs:225-247 | an accepted run counts up by one from its first index exactly while it does not pass 2^64 - 1 |
| L1Order.WrappedRunIsAccepted | crates/dogeos-reth-consensus/src/lib.rs:241 | index 0 is accepted right after index 2^64 - 1 |
| L1Order.WellOrderedIffContiguous | crates/dogeos-reth-consensus/src/lib.rs:225-247 | dropping messages from a run keeps it acceptable exactly when the kept ones are a contiguous stretch of it |
| L1Order.DroppedIsWellOrderedIff | crates/dogeos-reth-consensus/src/lib.rs:225-247 | a list that starts with an L1 run, with any of its transactions dropped and others that are not L1 messages appended, is acceptable exactly when no message of the run is dropped between two kept ones |
| Rlp.EncodersFollowTheRule | scripts/tsuki-witness-corpus/header_rlp.py:21-38 | the primitive encoders write what the script's recursive rule writes |
| Rlp.HeaderRoundTrip | crates/dogeos-protocol-types/src/transaction/l1_message.rs:87-91 | decoding an encoded header in front of its payload gives it back and leaves exactly the payload and suffix |
| Rlp.HeaderCanonical | crates/dogeos-protocol-types/src/transaction/l1_message.rs:87-91 | every header the strict decoder accepts is the encoder's own output |
| Rlp.BytesCanonical | crates/dogeos-protocol-types/src/transaction/l1_message.rs:81 | every byte string accepted is the encoder's own output |
| Rlp.UintCanonical | crates/dogeos-protocol-types/src/transaction/l1_message.rs:77-80 | every integer accepted is the encoder's own output, so leading zeros are refused |
| L1Message.LengthsAreExact | crates/dogeos-protocol-types/src/transaction/l1_message.rs:107-154 | the field, RLP and EIP-2718 length functions equal the real lengths |
| L1Message.ScriptAgrees | scripts/tsuki-witness-corpus/l1_message.py:15-52 | the Python script's bytes are the Rust encoder's bytes for every message |
| L1Message.RoundTrip | crates/dogeos-protocol-types/src/transaction/l1_message.rs:75-105 | decoding an encoded message followed by any suffix gives the message and leaves exactly the suffix |
| L1Message.Canonical | crates/dogeos-protocol-types/src/transaction/l1_message.rs:75-105 | whatever decodes is the encoding of what it decodes to, followed by the rest |
| L1Message.DecodeIff | crates/dogeos-protocol-types/src/transaction/l1_message.rs:75-105 | the RLP decoder accepts exactly encodings followed by a rest |
| L1Message.Decode2718Iff | crates/dogeos-protocol-types/src/transaction/l1_message.rs:202-215 | the EIP-2718 decoder accepts exactly the typed and the bare encodings followed by a rest |
| L1Message.EncodingsArePrefixFree | crates/dogeos-protocol-types/src/transaction/l1_message.rs:157-160 | encodings are injective and none is a prefix of another |
| L1Message.RlpEncode | crates/dogeos-protocol-types/src/transaction/l1_message.rs:118-143 | appends exactly the specified encoding to the buffer |
| L1Message.Eip2718Encode | crates/dogeos-protocol-types/src/transaction/l1_message.rs:157-160 | appends the type byte and the encoding |
| L1Message.RlpDecode | crates/dogeos-protocol-types/src/transaction/l1_message.rs:87-105 | the buffer-advancing decoder returns the specified result and, on success, leaves exactly the specified rest |
| Rejections.TruncatedMessage | crates/dogeos-protocol-types/src/transaction/l1_message.rs:87-105 | every proper prefix of an encoded message is reported as too short |
| Rejections.WrongLengthIsReported | crates/dogeos-protocol-types/src/transaction/l1_message.rs:87-105 | well-formed fields under a header with another length are reported with both lengths |
| Rejections.BadFieldsAreReported | crates/dogeos-protocol-types/src/transaction/l1_message.rs:87-105 | fields that do not decode are reported with their own error, whatever length the header announces |
| Rejections.FirstBadFieldIsReported | crates/dogeos-protocol-types/src/transaction/l1_message.rs:75-85 | of the fields up to the value the error of the first bad one is reported |
| Rejections.FirstBadFieldOfTail | crates/dogeos-protocol-types/src/transaction/l1_message.rs:75-85 | and so of the value, the input and the sender |
| Rejections.BadInteger | crates/dogeos-protocol-types/src/transaction/l1_message.rs:77-80 | an integer with too many digits overflows, one with a leading zero is refused |
| Rejections.BadAddress | crates/dogeos-protocol-types/src/transaction/l1_message.rs:81-85 | an address of another length is refused as such |
| Rejections.ListForString | crates/dogeos-protocol-types/src/transaction/l1_message.rs:75-85 | a list in place of a field is reported as one |
| Rejections.LengthInLongForm | crates/dogeos-protocol-types/src/transaction/l1_message.rs:87-91 | a payload length with a leading zero, or one that needs no digits, is refused with the error that names it |
| Rejections.SmallByteInLongForm | crates/dogeos-protocol-types/src/transaction/l1_message.rs:75-91 | a single small byte under a header is refused |
| Rejections.StringIsReported | crates/dogeos-protocol-types/src/transaction/l1_message.rs:87-94 | a string in place of a message is reported as one |
| Rejections.OtherTypeIsReported | crates/dogeos-protocol-types/src/transaction/l1_message.rs:202-215 | every other transaction type is reported |
| Rejections.NothingIsTooShort | crates/dogeos-protocol-types/src/transaction/l1_message.rs:87-91 | empty input is too short |
| Forced.DecodeForcedIff | crates/dogeos-reth-payload/src/forced.rs:7-26 | decoding succeeds exactly when every entry decodes from all of its bytes, with the transactions in order and the bytes kept |
| Forced.FirstErrorWins | crates/dogeos-reth-payload/src/forced.rs:7-26 | the error reported is that of the first entry that does not decode whole |
| Forced.EntryNamesItsDefect | crates/dogeos-reth-payload/src/forced.rs:7-26 | an entry is refused with its decoder's own error, or as of unexpected length when bytes are left over |
| Forced.ForcedL1MessagesRoundTrip | crates/dogeos-reth-payload/src/forced.rs:7-26 | a list of encoded L1 messages decodes to exactly those messages |
| CodeWitness.OpsAreMetered | crates/dogeos-reth-evm/src/code_witness.rs:55-76 | the counters are the exact sums cut at 2^64 - 1, steps never exceed the allowance, and below an unlimited budget a transaction passes exactly when its new code and its steps fit, whatever the order and repetition of its accesses; the limit reported is one that the exact sums exceed |
| CodeWitness.FirstLimitIsKept | crates/dogeos-reth-evm/src/code_witness.rs:55-76 | the limit that is reported is the first one exceeded |
| CodeWitness.AcceptMergesPending | crates/dogeos-reth-evm/src/code_witness.rs:127-163 | accepting merges the pending codes and turns the candidate's bytes into the block's |
| CodeWitness.ResetForgetsCandidate | crates/dogeos-reth-evm/src/code_witness.rs:78-85 | between transactions the meter is a new one on top of the accepted code |
| CodeWitness.InitialOpsRecordLoaded | crates/dogeos-reth-evm/src/code_witness.rs:175-190 | the first hook records exactly the nonempty codes that were loaded, with their sizes, and takes no step |
| CodeWitness.BlockIsAccounted | crates/dogeos-reth-evm/src/code_witness.rs:127-142 | in every reachable state accepted bytes are the sizes over the union of the accepted transactions' codes plus the reservations of their operations, within the budget |
| CodeWitness.ReservedByTransaction | crates/dogeos-reth-evm/src/code_witness.rs:175-190 | whatever a transaction loads and executes, it reserves 23 bytes for each of its authorizations, cut at 2^64 - 1, and nothing else |
| CodeWitness.BlockCountsAuthorizations | crates/dogeos-reth-evm/src/code_witness.rs:78-190 | in every reachable state of a limited meter the accepted bytes are the sizes over the union of the codes that the accepted transactions loaded or recorded, plus 23 for each of their authorizations |
| CodeWitness.AllKeptIff | crates/dogeos-reth-evm/src/code_witness.rs:92-142 | a list is accepted whole exactly when its union fits and every transaction keeps to the step allowance |
| CodeWitness.OrderDoesNotMatter | crates/dogeos-reth-evm/src/code_witness.rs:92-142 | a list accepted whole is accepted whole in every order, with the same block bytes |
| CodeWitness.UnlimitedBudget | crates/dogeos-reth-evm/src/code_witness.rs:55-76 | at a budget of 2^64 - 1 no transaction is turned away for code and the bytes are exact while the sum fits |
| CodeWitness.CodeWitnessHandle.Reserve | crates/dogeos-reth-evm/src/code_witness.rs:55-61 | the handle's new state is the specified one |
| CodeWitness.CodeWitnessHandle.Record | crates/dogeos-reth-evm/src/code_witness.rs:63-76 | the handle's new state is the specified one; a repeated or empty code changes nothing |
| CodeWitness.CodeWitnessHandle.Step | crates/dogeos-reth-evm/src/code_witness.rs:247-258 | counts an opcode, or stops the interpreter before it when a limit is or was exceeded |
| CodeWitness.CodeWitnessHandle.InitialCodes | crates/dogeos-reth-evm/src/code_witness.rs:175-190 | once per transaction, reserves 23 bytes for each authorization and records every loaded code: the pending hashes grow by exactly the nonempty loaded ones |
| CodeWitness.CodeWitnessHandle.BeginTransaction | crates/dogeos-reth-evm/src/code_witness.rs:122-124 | clears everything of the candidate and nothing of the block |
| CodeWitness.CodeWitnessHandle.AcceptTransaction | crates/dogeos-reth-evm/src/code_witness.rs:127-137 | merges the candidate into the block exactly when no limit was exceeded |
| CodeWitness.CodeWitnessHandle.RejectTransaction | crates/dogeos-reth-evm/src/code_witness.rs:140-142 | drops the candidate's accounting |
| Transitions.TransitionEffect | crates/dogeos-reth-evm/src/transitions/mod.rs:26-51 | a transition changes the state exactly when it is not yet installed, sets the code, for Tsuki the nonce 1, and the listed slots of its account, and keeps every balance, other account and other slot |
| Transitions.InstalledIff | crates/dogeos-reth-evm/src/transitions/tsuki.rs:39-65 | what marks a transition as done: the oracle's flag slot, or a token account with a nonce or a code |
| Transitions.OnlyAtFirstActiveBlock | crates/dogeos-reth-evm/src/block/mod.rs:187-224 | in any chain whose transactions never undo an installed transition, a transition acts only at the first block where its fork is active |
| Transitions.PreBlockKeeps | crates/dogeos-reth-evm/src/block/mod.rs:187-224 | the stages of a block keep every balance and all but five slots |
| Transitions.OracleEndsOnGalileoV2 | crates/dogeos-reth-evm/src/transitions/galileo_v2.rs:36-70 | the exact condition under which a block with both forks active ends on the GalileoV2 oracle code |
| Transitions.OracleCanGoBack | crates/dogeos-reth-evm/src/transitions/feynman.rs:38-72 | a state outside that condition in which the Feynman stage writes its older code over the newer one |
| Transitions.OracleNeverGoesBack | crates/dogeos-reth-evm/src/block/mod.rs:187-207 | from a state inside the condition every later block with both forks active ends on the GalileoV2 code, provided the transactions keep the oracle's flags and its code |
| Transitions.Database.CommitAccountUpdate | crates/dogeos-reth-evm/src/transitions/mod.rs:26-51 | commits exactly one account with all listed slots, or nothing when a read fails |
| Transitions.Database.ApplyHardFork | crates/dogeos-reth-evm/src/transitions/tsuki.rs:39-65 | commits the transition's update or nothing, and returns the empty update exactly when it is already installed |
| BlockExecutor.HookFoldsToFinalState | crates/dogeos-reth-evm/src/system_caller.rs:43-93 | in every run, failed calls included, a hook hears exactly the updates committed since it was installed, in order, and folding them over the state then gives the final state |
| BlockExecutor.PreExecutionRunsTheStages | crates/dogeos-reth-evm/src/block/mod.rs:180-231 | the call succeeds exactly when everything the stages read can be read and the EIP-2935 call, made from Feynman on except at block 0, succeeds, with the error of whichever fails first; it leaves the state of the fork stages followed by that call |
| BlockExecutor.InstalledStageIsSilent | crates/dogeos-reth-evm/src/system_caller.rs:43-93 | an installed transition is neither committed nor reported |
| BlockExecutor.RunKeepsGas | crates/dogeos-reth-evm/src/block/mod.rs:233-316 | in every run the gas counter is the sum of the transactions' gas, each receipt carries its running sum, and the block limit holds, so the available-gas subtraction never wraps |
| BlockExecutor.ExecutorGasIsTheHeaders | crates/dogeos-reth-consensus/src/lib.rs:57-78 | the header gas that passes the post-execution check is exactly the executor's |
| BlockExecutor.BlockSucceedsIff | crates/dogeos-reth-evm/src/block/mod.rs:135-165 | a block succeeds exactly when it prepares, has one compression info per transaction, and each transaction executes with its own info in the state its predecessors left |
| Ledger.RunTxBooks | crates/dogeos-reth-evm/src/block/mod.rs:233-316 | a transaction executes exactly when it fits the gas left, is no blob and the interpreter executes it in this state, with this info and the checks of its kind; what the interpreter returned is what is committed, reported, charged and receipted, and a refused transaction changes nothing but the checks |
| Ledger.RunTxsIsBooked | crates/dogeos-reth-evm/src/block/mod.rs:135-165 | whatever a list of transactions leaves is the fold of the interpreter's answers, each asked for in the state its predecessors' updates left, and the list stops at the first refusal with that refusal |
| Ledger.RunTxsSucceedsIffExecutes | crates/dogeos-reth-evm/src/block/mod.rs:135-165 | a list runs to its end exactly when the interpreter executes each transaction after its predecessors |
| Ledger.BlockIsBooked | crates/dogeos-reth-evm/src/block/mod.rs:135-231 | a successful block is the parent state, the transitions, the EIP-2935 call and the fold of the interpreter's answers, and nothing else |
| Ledger.UnpairedInfosFail | crates/dogeos-reth-evm/src/block/mod.rs:135-165 | once every transaction with an info has executed, a missing or a surplus info is the error |
| BlockExecutor.SuccessfulBlockIsAccounted | crates/dogeos-reth-evm/src/block/mod.rs:135-165 | a successful block has one receipt per transaction, in order and of its kind, each with the running gas; no blob is among them, no L1 message pays an L1 fee, no transaction used more than its limit and the block no more than its own |
| BlockExecutor.Executor.ApplyPreExecutionChanges | crates/dogeos-reth-evm/src/block/mod.rs:180-231 | reads the overhead first, runs the active stages in order and then the system call, stopping at the first failure with what was applied so far |
| BlockExecutor.Executor.ExecuteTransactionWithoutCommit | crates/dogeos-reth-evm/src/block/mod.rs:233-290 | checks gas, refuses blobs, sets both checks from the transaction's kind, and changes nothing but the checks |
| BlockExecutor.Executor.CommitTransaction | crates/dogeos-reth-evm/src/block/mod.rs:292-316 | reports, counts, records the receipt and commits |
| BlockExecutor.Executor.ExecuteBlockWithCompressionCache | crates/dogeos-reth-evm/src/block/mod.rs:135-165 | the i-th transaction runs with the i-th info; a missing info is reported after those that have one, a surplus after all |
| DraftBlock.RejectionLeavesNoTrace | crates/dogeos-reth-payload/src/builder.rs:484-498 | a rejected candidate leaves nothing a later one can see, and retrying it at once gives the same verdict |
| DraftBlock.TryDependsOnVisible | crates/dogeos-reth-evm/src/block/mod.rs:268-270 | neither the checks left by the previous transaction nor the meter's leftovers influence a candidate |
| DraftBlock.RejectedCanBeErased | crates/dogeos-reth-payload/src/builder.rs:474-498 | running only the kept candidates gives the same database, receipts, gas and block code, and keeps all of them again |
| DraftBlock.TryKeepsSane | crates/dogeos-reth-payload/src/builder.rs:474-498 | each candidate keeps gas, receipts, transaction list and code accounting consistent and within their limits |
| DraftBlock.ReexecutesStep | crates/dogeos-reth-payload/src/builder.rs:484-498 | executing the transaction list of a draft without a meter succeeds and reaches the draft's database, receipts and gas |
| Selection.TryFollowsRuling | crates/dogeos-reth-payload/src/builder.rs:475-498 | a candidate is kept exactly when the interpreter executes it, its code with the block's is within the budget and its steps within the allowance; a kept one is committed as the interpreter returned it, and every other answer names its cause |
| DraftBlock.BlockBuilder.ExecuteWithCodeBudget | crates/dogeos-reth-payload/src/builder.rs:484-498 | begins, executes, and commits to executor, list and meter together or to none |
| PayloadBuilder.ExecutorGasCheckIsRedundant | crates/dogeos-reth-payload/src/builder.rs:300-310 | past the builder's guard the executor refuses for gas exactly when the limit is 2^64 - 1 and the sum overflows |
| PayloadBuilder.GoodStep | crates/dogeos-reth-payload/src/builder.rs:290-386 | every step of either loop keeps the builder's totals equal to the executor's gas and the bytes of the list, the draft sound, and the accepted operations those of the listed transactions |
| PayloadBuilder.PoolStepWithinDa | crates/dogeos-reth-payload/src/lib.rs:40-51 | below a byte limit of 2^64 - 1 a pool candidate that passes the limit test leaves the list within the limit |
| PayloadBuilder.ForcedDaBytesIsSaturatedSum | crates/dogeos-reth-payload/src/forced.rs:29-35 | the forced bytes are the exact sum cut at 2^64 - 1 |
| PayloadBuilder.ByteTestsIff | crates/dogeos-reth-payload/src/lib.rs:40-51 | the byte tests of both loops compare exact sums, except at a limit of 2^64 - 1, which no saturated sum exceeds |
| PayloadBuilder.ForcedBodyIsNoLonger | crates/dogeos-reth-payload/src/builder.rs:290-329 | what the forced loop commits is never longer than the forced list |
| PayloadBuilder.ForcedBodyIsFiltered | crates/dogeos-reth-payload/src/builder.rs:290-329 | the forced part of a body is the forced list, in order, without exactly the transactions that the interpreter refused |
| PayloadBuilder.BodyIsWellOrderedIff | crates/dogeos-reth-payload/src/builder.rs:290-386 | from a forced list with an L1 run in front, the body passes the order rule exactly when the interpreter refused no L1 message of the run between two that it executed, whatever else was dropped and whatever the pool adds |
| PayloadBuilder.PoolStepAdds | crates/dogeos-reth-payload/src/config.rs:67-75 | a pool candidate is added whole or not at all, and never once a limit of the breaker is passed |
| PayloadBuilder.PoolAccounting | crates/dogeos-reth-payload/src/builder.rs:330-386 | the pool loop grows the list, the executor's gas and the fees by exactly the candidates it committed, in their order and none twice, their gas, and tip times gas |
| Selection.ForcedSelectsExactly | crates/dogeos-reth-payload/src/builder.rs:290-329 | the forced loop adds exactly the transactions that are kept, drops those the interpreter refuses, and stops at the first one with a fault, with that fault |
| Selection.PoolSelectsExactly | crates/dogeos-reth-payload/src/builder.rs:330-386 | the pool loop adds exactly the candidates that fit, come before the breaker and are kept, marks exactly those that are too large, of the wrong kind, over the code budget or invalid for good, and stops at the first cancellation, breaker or fatal error |
| Payload.PayloadIsSound | crates/dogeos-reth-payload/src/builder.rs:181-440 | every payload is within its gas and code limits and, below 2^64 - 1, its byte limit; builder total, executor gas, header gas and last receipt agree; its code bytes are the union of what the system calls and, in order, the listed transactions touch; re-executing its list from the prepared state succeeds with the same database, receipts and gas |
| Payload.ImporterAgrees | crates/dogeos-reth-payload/src/builder.rs:181-440 | a node that starts from the parent state without hook or meter, with a database that answers at least as many reads, prepares and executes every payload to the same database, receipts and gas, and the payload's code bytes are those of this node's execution |
| Payload.PayloadIsWellOrderedIff | crates/dogeos-reth-payload/src/builder.rs:290-386 | a finished payload whose forced list starts with an L1 run passes the consensus order rule exactly when no message of the run was refused between two that were executed |
| Payload.OutcomeFollowsFees | crates/dogeos-reth-payload/src/builder.rs:387-440 | a payload is frozen exactly when the pool was not used, otherwise it beats the best fees strictly; what follows the forced part of its list are candidates of the pool, in order and none twice, and its fees are the sum of their tips times the gas the executor charged for each; an aborted build earned, in the same sense, no more than the best |
| Selection.PreparesIff | crates/dogeos-reth-payload/src/builder.rs:254-271 | a block is prepared exactly when the pre-execution changes succeed and the code of its system calls fits |
| Selection.BuildFollowsFates | crates/dogeos-reth-payload/src/builder.rs:270-440 | how every prepared build ends, and with which error: an undecodable or too long forced list, the first faulty forced transaction, a fatal pool error or a cancellation, fees that do not beat the best, a failed sealing or its code, and otherwise a payload |
| Selection.PayloadIsBooked | crates/dogeos-reth-payload/src/builder.rs:181-440 | every payload's database, gas and receipts are the fold of the interpreter's answers to its transactions over the prepared parent state |
| Payload.PayloadIsAnAcceptedParent | crates/dogeos-reth-consensus/src/lib.rs:172-177 | a payload built on an accepted parent is an accepted parent again, so the fee bounds hold along the whole chain |
| Payload.ExecutorRefusesForGasIff | crates/dogeos-reth-payload/src/builder.rs:273-394 | a build fails for want of gas in the executor exactly when the block gas limit is 2^64 - 1 and a candidate is reached whose gas limit and the gas used so far sum to 2^64 or more |
| Payload.SealedHookFoldsToBlock | crates/dogeos-reth-payload/src/builder.rs:259-264 | with a state-root task waiting, the log the hook holds when it is dropped at sealing is everything the build committed, in order, and folds the parent state to the block's database |
| PayloadExamples.RefusedMiddleMessageBreaksTheOrder | crates/dogeos-reth-payload/src/builder.rs:310-320 | three forced L1 messages of which the middle one is refused give a payload that fails the order rule |
| PayloadExamples.OverflowingGasFailsTheBuild | crates/dogeos-reth-payload/src/builder.rs:300-310 | at a gas limit of 2^64 - 1 two forced transactions, the first using one gas and the second allowing 2^64 - 1, fail the build |
| PayloadExamples.OverflowingBytesExceedTheLimit | crates/dogeos-reth-payload/src/forced.rs:29-35 | at a byte limit of 2^64 - 1 a forced list of 2^64 bytes is built into a payload of 2^64 bytes |
| Payload.PayloadGasLimitVerdict | crates/dogeos-reth-payload/src/builder.rs:237-241 | without an override, and with parent and target at the minimum or above, the payload's gas limit is accepted |
| Payload.RunForcedList | crates/dogeos-reth-payload/src/builder.rs:289-329 | the forced loop computes the specified progress and stops at the first error |
| Payload.RunPoolList | crates/dogeos-reth-payload/src/builder.rs:330-386 | the pool loop computes the specified progress and stops at a cancellation, the breaker or an error |
| Payload.BuildPayload | crates/dogeos-reth-payload/src/builder.rs:181-440 | the whole call returns the specified outcome and, with a payload, the specified block |
| PriorityFee.MaxTxGasUsed | crates/dogeos-reth-rpc/src/priority_fee.rs:120-127 | the loop's result is the largest difference of consecutive cumulative gas |
| PriorityFee.DifferencesRecoverGas | crates/dogeos-reth-rpc/src/priority_fee.rs:120-127 | on the executor's receipts the differences are each transaction's gas |
| PriorityFee.DifferenceIsGas | crates/dogeos-reth-rpc/src/priority_fee.rs:122-126 | the saturating subtraction never saturates on the executor's receipts |
| PriorityFee.LargestTransaction | crates/dogeos-reth-rpc/src/priority_fee.rs:118-127 | the API's value is the true maximum over the block's transactions |
| PriorityFee.AtCapacityIff | crates/dogeos-reth-rpc/src/priority_fee.rs:18-28 | the capacity test is exact but for a limit of 2^64 - 1 |
| PriorityFee.SortedIsUnique | crates/dogeos-reth-rpc/src/priority_fee.rs:30-34 | the order in which tips were collected cannot change the suggestion |
| PriorityFee.MeanIsBetweenIff | crates/dogeos-reth-rpc/src/priority_fee.rs:35-39 | the median of an even list lies between the middle tips exactly when their sum fits 128 bits |
| PriorityFee.SuggestionIsBracketed | crates/dogeos-reth-rpc/src/priority_fee.rs:30-46 | the suggestion lies between the raised least and greatest tips, within the configured minimum and maximum |
| PriorityFee.SuggestionIsRaisedMedian | crates/dogeos-reth-rpc/src/priority_fee.rs:30-46 | the suggestion is eleven tenths of the median, each rounded down, raised to the minimum and cut at the maximum |
| PriorityFee.NoTipsGiveTheMinimum | crates/dogeos-reth-rpc/src/priority_fee.rs:30-33 | without tips the suggestion is the minimum, whatever the maximum |
| L1FeeCache.AdvanceTerminates | crates/dogeos-reth-txpool/src/validator.rs:480-549 | every step of a refresh lowers a rank of at most fourteen and attempts stay between one and three |
| L1FeeCache.FourteenStepsSuffice | crates/dogeos-reth-txpool/src/validator.rs:488-549 | a refresh that holds the lock returns after at most fourteen of its own steps, whatever others do |
| L1FeeCache.FeeCacheCell.Refresh | crates/dogeos-reth-txpool/src/validator.rs:480-549 | what the refresh reads and loads decides what it leaves: it retries while the head moves, at most three times, returns early only for the head that is cached, and otherwise publishes the failure of its last read, its last load, or after three moves the move |
| L1FeeCache.FeeCacheCell.PublishRefresh | crates/dogeos-reth-txpool/src/validator.rs:552-587 | replaces the cache by the result and says whether it is available |
| L1FeeCache.SteadyHeadIsPublished | crates/dogeos-reth-txpool/src/validator.rs:511-549 | if every read finds a head and one attempt sees it stay, that head's load decides the result and no load of a head that moved away shows |
| L1FeeCache.LockIsExclusive | crates/dogeos-reth-txpool/src/validator.rs:480-487 | the lock is taken only while it is free, by a waiting refresh, once for each request |
| L1FeeCache.PublicationIsVerified | crates/dogeos-reth-txpool/src/validator.rs:511-549 | every publication of every run, the first included: a snapshot of a head, and a failure to load it, saw that head canonical in a read made after the load; a reported move saw a head that differs from its target |
| L1FeeReads.PublicationFollowsReads | crates/dogeos-reth-txpool/src/validator.rs:488-587 | under every interleaving each publication follows from the head reads its refresh made under the lock, in order and of the heads at those times, and from its loads |
| L1FeeReads.MovedHeadWasTriedThrice | crates/dogeos-reth-txpool/src/validator.rs:532-549 | a moved head is reported only after six reads in three pairs, between each of which the head changed |
| L1FeeReads.SteadyHeadIsPublishedInRuns | crates/dogeos-reth-txpool/src/validator.rs:511-549 | in every run, a refresh whose reads all succeed and whose head stays during one attempt publishes that head, or the failure to load it |
| L1FeeCache.EveryRunIsGood | crates/dogeos-reth-txpool/src/validator.rs:488-587 | under every interleaving of refreshes and head moves the cache is the last publication, and a returned refresh left it ready for a head it read under the lock, or unavailable |
| L1FeeCache.PublicationsInReadOrder | crates/dogeos-reth-txpool/src/validator.rs:488-549 | no publication rests on a head read older than the publication it replaces |
| L1FeeCache.CacheIsAlwaysGood | crates/dogeos-reth-txpool/src/validator.rs:52-106 | at every time of every run a ready cache holds the exact content of one head |
| L1FeeAdmission.EveryDeskIsGood | crates/dogeos-reth-txpool/src/validator.rs:354-463 | under every interleaving of refreshes, head moves, cache reads and answers, each answer is the verdict on the cache at the time that validation read it |
| L1FeeAdmission.JobIsFixed | crates/dogeos-reth-txpool/src/validator.rs:354-463 | until it is answered a validation keeps its transaction and the cache as it read it, whatever else happens |
| L1FeeAdmission.AdmittedIff | crates/dogeos-reth-txpool/src/validator.rs:339-463 | in every run of refreshes, head moves and overlapping validations, the exact condition of an answer's admission, with fee checking disabled or enabled: timestamp, number and fee inputs are all of the one head cached when the validation read the cache |
| L1FeeAdmission.NothingAdmittedInWindow | crates/dogeos-reth-txpool/src/validator.rs:372-384 | in every such run, no transaction whose cache read falls between a failed refresh and the next publication is admitted, whenever its answer comes |
| L1FeeAdmission.EarlierReadIsStillAdmitted | crates/dogeos-reth-txpool/src/validator.rs:372-388 | a run in which a validation reads the cache, a refresh then fails, and the validation ends in admission after that failure was published |
| L1FeeAdmission.CostCheckIff | crates/dogeos-reth-txpool/src/validator.rs:436-440 | the saturating cost comparison is exact but for a balance of 2^256 - 1 |
| L1FeeAdmission.RefusalNamesItsCause | crates/dogeos-reth-txpool/src/validator.rs:339-463 | which refusal is given in which case, in the order of the checks |
| L1FeeAdmission.Validator.Validate | crates/dogeos-reth-txpool/src/validator.rs:339-463 | the verdict is that of the cache as it was read, though the cache may be replaced meanwhile |
| FeeMaintenance.MaintenanceLoop | crates/dogeos-reth-node/src/pool.rs:92-134 | the loop's delay and deadline are the specified ones for every sequence of refresh results |
| FeeMaintenance.DeadlineIff | crates/dogeos-reth-node/src/pool.rs:92-134 | a deadline is armed exactly while the last refresh failed, after the initial delay doubled once for each failed retry and cut at the maximum |
| FeeMaintenance.StaleOnlyWithCause | crates/dogeos-reth-node/src/pool.rs:61-134 | in every run, if the cache is not ready for the current head then a notification is unsent or pending, a refresh is under way or certain, a deadline is armed, or the task has stopped; the startup refresh makes this hold whether the cache was hydrated before or after subscribing |
| FeeMaintenance.QuiescentIsReady | crates/dogeos-reth-node/src/pool.rs:61-134 | at rest the cache is ready for the latest head |
| FeeMaintenance.NextKeeps | crates/dogeos-reth-node/src/pool.rs:100-118 | every event keeps the cached head one that was canonical no earlier than the last notification taken, including a resubscription after lag |
| FeeMaintenance.EveryRunKeepsInv | crates/dogeos-reth-node/src/pool.rs:61-134 | the invariant of head, channel, cache, task and deadline holds in every reachable state |
| FeeMaintenance.NotificationsAreTakenInOrder | crates/dogeos-reth-node/src/pool.rs:61-118 | a notification is taken only while the channel holds it, in order, each with a refresh; lag is reported exactly when more are pending than it holds, and one refresh then stands for all |
| FeeMaintenance.StartupIsInOrder | crates/dogeos-reth-node/src/pool.rs:61-98 | draining, the startup refresh, the signal and the loop follow one another; the startup refresh begins with nothing pending, its result is what is signalled, and a task stops only when its channel is closed and empty or its signal is not heard |
| FeeMaintenance.EveryRunFollowsLoop | crates/dogeos-reth-node/src/pool.rs:92-134 | in every run the backoff is that of the loop on the refreshes completed so far |
| FeeMaintenance.StaleWhileDrainingHasNotification | crates/dogeos-reth-node/src/pool.rs:219-225 | what hydrating after subscribing adds: even before the startup refresh, a ready cache of another head has a notification unsent or pending |
| FeeMaintenance.TaskConverges | crates/dogeos-reth-node/src/pool.rs:98-134 | once the chain is quiet and the provider works, the task comes to rest within a computed number of steps with the cache ready for the head |
| AdmissionExecutor.EveryRunIsBounded | crates/dogeos-reth-txpool/src/executor.rs:41-93 | under every interleaving permits are conserved, running jobs never exceed min(max_inflight, additional + 1), waiting and running ones never exceed max_inflight, a waiter always has a free worker or a holder, and a caller waits only while its request holds a permit |
| AdmissionExecutor.CancelFreesOnlyWaiting | crates/dogeos-reth-txpool/src/executor.rs:69-87 | cancelling a caller frees a waiting request's permit and never a running job's |
| AdmissionExecutor.RunningJobIsNeverCancelled | crates/dogeos-reth-txpool/src/executor.rs:75-87 | in any run a running job keeps running until it ends, whoever is cancelled, and holds its in-flight permit until it drops it |
| AdmissionExecutor.BusyIff | crates/dogeos-reth-txpool/src/executor.rs:69-74 | a request is turned away exactly when every in-flight permit is held |
| AdmissionExecutor.WorkerIsFreedFirst | crates/dogeos-reth-txpool/src/executor.rs:83-86 | a finished job lets the next one run before it gives its in-flight permit back |
| AdmissionExecutor.DrainsToIdle | crates/dogeos-reth-txpool/src/executor.rs:63-94 | from every reachable state the pool drains without cancellations, and then every permit is free |
| AdmissionExecutor.EveryDrainEndsIdle | crates/dogeos-reth-txpool/src/executor.rs:63-94 | in whatever order jobs start and end, without arrivals and cancellations the pool is empty after exactly its remaining number of steps, and until then some step can be taken |
| AdmissionExecutor.ValidationExecutor.Enter | crates/dogeos-reth-txpool/src/executor.rs:69-74 | takes an in-flight permit without waiting, or answers busy |
| AdmissionExecutor.ValidationExecutor.StartJob | crates/dogeos-reth-txpool/src/executor.rs:75-86 | takes a worker permit and moves both into the job |
| AdmissionExecutor.ValidationExecutor.CancelCaller | crates/dogeos-reth-txpool/src/executor.rs:69-87 | frees the in-flight permit of a waiting request and nothing of a running one |
| AdmissionExecutor.ValidationExecutor.EndJob | crates/dogeos-reth-txpool/src/executor.rs:83-86 | drops the worker permit, then the in-flight permit |
| PoolBaseFee.EnforcedFee | crates/dogeos-reth-txpool/src/maintenance.rs:60-116 | after any run of readable and unreadable heads the enforced fee is the prediction for the last readable one, or the protocol cap if there was none |
| PoolBaseFee.EnforcedFeeIsTheRules | crates/dogeos-reth-txpool/src/maintenance.rs:60-116 | the enforced fee is, in plain arithmetic, the base-fee rule on the last readable head, its overhead and the parameters at its earliest child, and so the fee of every child on the same side of TsukiV2; it is zero for a head without a base fee |
| PoolBaseFee.FailedReadNeverLowers | crates/dogeos-reth-txpool/src/maintenance.rs:75-97 | a head that cannot be read never lowers the enforced fee |
| PoolBaseFee.UnreadFeeCoversEveryBlock | crates/dogeos-reth-txpool/src/maintenance.rs:84-92 | until a head has been read the enforced fee is at least the fee of any possible block |
| PoolBaseFee.DogeosPoolMaintenance.SetBlockInfo | crates/dogeos-reth-txpool/src/maintenance.rs:108-111 | replaces the caller's fee by the kept or predicted one |
| PoolBaseFee.DogeosPoolMaintenance.OnCanonicalStateChanges | crates/dogeos-reth-txpool/src/maintenance.rs:113-116 | applying tips one by one gives the run's fee |

## Left out

- EVM execution, precompiles, the L1 fee formulas, compression, hashing and signature recovery: functions with stated contracts.
- The inspector's choice of which codes to record at each opcode and call: only the list of operations it produces is modelled.
- The `initialized` flag of the meter inside an execution: an execution's operations already contain the initial ones once.
- Decoding of forced transactions other than L1 messages: the rest of the envelope decoder is a function; in `Payload` the decoded list, or its failure, is given.
- State roots, receipt roots, logs and blooms: the post-execution check is modelled for gas only.
- Of `validate_header` only the base-fee cap and the gas bound are used, as assumptions on accepted parents.
- The best-transactions iterator: any sequence of candidates stands for it, so the effect of `mark_invalid` on later candidates is covered but not described.
- Wall-clock time: the breaker's time limit and cancellation strike at any candidate; deadlines keep their delay but not their instant.
- The real child timestamp against the predicted one: a fork that activates between them changes the fee, in the code as in the model.
- PoolBaseFee.EnforcedFee and PoolBaseFee.EnforcedFeeIsTheRules: block hashes are taken to be nonzero, because the zero hash marks a pool that has seen no head.
- L1Message.Decode2718Iff: inputs of 2^63 bytes and more are excluded, as no slice is that long.
- PayloadBuilder.BodyIsWellOrderedIff: forced lists of more than 2^64 L1 messages are excluded, as none fits in memory.
- Payload.PayloadIsSound: at a byte limit of 2^64 - 1 no bound on the bytes is stated, because there is none (`PayloadExamples.OverflowingBytesExceedTheLimit`).
- Payload.ImporterAgrees: the importing node executes without supplied compression infos, as the builder does; that supplied ones equal those computed from the transactions is a property of the compression, which is not part of this model.
- CodeWitness.BlockCountsAuthorizations: meters with a budget of 2^64 - 1 are excluded, as their sums saturate (`CodeWitness.UnlimitedBudget`).
- The semaphore library's own upper bound on permits, and the closed-semaphore answer, which is unreachable because no semaphore is closed.
- RPC modules, networking, genesis parsing, fork identifiers, serialization other than RLP, and node wiring.
