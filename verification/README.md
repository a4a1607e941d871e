# A Dafny model of the preconfirmation client

The client sends Ethereum transactions through a gateway that sells block space in advance. This project models the three parts of it that hold state, arithmetic or concurrency, and proves what they promise.

- **The transaction manager** (`txmgr/txmgr.go`). A call of `Send` prepares and signs one transaction. It then repeats: choose a slot, ask its fee, reserve, submit. When both reservation and submission succeed it waits until the chain passes the slot and looks up the receipt. All calls share one nonce.
- **The event iterators and watchers** (`escrow/Escrow.go`). They consume a channel of logs and a channel of errors through a nondeterministic `select`. The three event types have literally the same code, so one iterator and one watcher stand for all three, with the log type, the event fields and the unpacking function left open.
- **The signed byte strings** (`types/types.go`), with the decoders a gateway needs to reconstruct the request.

## How the model is built

Every remote call can fail or return anything. `Environment.Replies` is one record of answers, and a sequence of records is one behaviour of the outside world. `SendMachine.Step` is one step of one call of `Send`; `SendMachine.Run` folds it over a sequence, so statements about `Run` cover every finite prefix of every run. `Interleaving.ExecAll` lets a schedule pick among any number of such calls; the critical section of signing is one step. `TxMgr.PreconfTxMgr` is the manager in the form the program has: an object with a mutable nonce, loops and early returns. Its methods are proved equal to the machine, step for step. The two loops of `Send` are the methods `ReserveAndSubmit` (with `ReserveSlot` for a pass once the slot is chosen) and `Wait`.

`Iterators` and `Watchers` have the same shape: a step function, runs over arbitrary schedules of producer, user, reader and select choices, and a class whose methods are proved against the step function. A method that is still blocked when its schedule ends says so.

Integers of 32 and 64 bits wrap where the program's do: the nonce going below 0, `head+1`, `slot+1`, `uint32(len(blobs))`. 256-bit numbers are four limbs, updated in place, with the receiver aliasing the arguments.

| file | content |
|---|---|
| `Words.dfy`, `LittleEndian.dfy`, `Uint256.dfy` | machine words, base-256 expansions, in-place 256-bit integers |
| `Preimages.dfy` | the signed byte strings |
| `Fees.dfy` | the base fee recurrence, the fee cap, the deposit |
| `Environment.dfy`, `Slots.dfy`, `Signing.dfy` | candidates and answers, the slot search, crafting and signing |
| `SendMachine.dfy`, `SendSafety.dfy`, `SendProgress.dfy`, `SendAnswers.dfy` | one call of `Send`, its guarantees, how long it takes, how the answers account for it |
| `FavourableRuns.dfy` | runs in which every call succeeds, as witnesses |
| `Interleaving.dfy`, `Gaps.dfy` | many calls and the shared nonce, nonces never accepted |
| `TxMgr.dfy` | the manager object |
| `Feeds.dfy`, `Iterators.dfy`, `Watchers.dfy` | subscriptions and their consumers |

## Where the code falls short of what one would expect

The code is modelled as it is. Where an expected property is false, the exact condition is proved.

- **Fee cap.** Twice the expected base fee F covers the next block and the five after it, for every chain of valid blocks, exactly when F >= 5 wei (`Fees.HeadroomExactly`), and a chain that has once reached 5 wei stays there (`Fees.HeadroomIsKeptExactly`). A sixth full block exceeds it for every F >= 207 (`Fees.SixthBlockExceedsCap`).
- **Reserved gas.** The slot filter compares `candidate.GasLimit`, the reservation asks for `tx.Gas()`. In all environments the request stays within what the slot advertised exactly when the candidate's gas limit is not 0 or no transaction can be made from it at all (`SendSafety.CapacityIsRespectedExactly`).
- **Blob count.** The request names the number of blobs exactly when there are fewer than 2^32 (`SendSafety.RequestsFitTheChosenSlot`).
- **Slots ahead of the head.** The chosen slot is at least two past the head exactly when the head is not 2^64-1, where `head+1` wraps (`Slots.ChosenIsAheadExactly`, `Slots.TopHeadTakesPastSlot`).
- **Waiting.** The head at the end of a successful call is past the slot exactly when the slot is not 2^64-1, where `slot+1` wraps (`SendSafety.ExitHeadIsPastSlotExactly`, `SendSafety.TopSlotEndsAtOnce`).
- **Gaps.** A call keeps its nonce however it ends, and while that nonce is not accepted the transactions with higher ones wait behind it. A nonce can be accepted in no continuation exactly when its call failed to choose a slot or to get a fee (`Gaps.NonceIsLostExactly`, with `Gaps.StepLosesExactly` for the step); otherwise the call can still get it accepted, and if no call failed so, one continuation gets them all accepted (`Gaps.GapsCloseExactly`). Two calls are enough for a gap (`Gaps.FailedCallLeavesGap`).
- **Retries.** Nothing bounds the retry loop but the gateway: it can keep refusing for any number of passes (`SendProgress.RefusalsCanGoOn`). The steps of a call are bounded by its refusals and the slots it waits for (`SendProgress.CallIsBounded`).
- **Dropped logs.** Unlike the iterator, the watcher drops what is in the channel when its select takes an error or a quit, and may still report success (`Watchers.EndBeatsBufferedLog`). The turn that ends the loop drops nothing sent so far exactly when the loop was listening and the channel was empty (`Watchers.NothingIsDroppedExactly`).
- **Nonces.** Two signatures carry the same nonce exactly when they are a multiple of 2^64 apart (`Interleaving.NoncesRepeatExactlyAfterWrap`). The comment on `signWithNextNonce` says that the nonce is not incremented when signing fails; for an unrecognised message the code does not put it back, and one would be skipped (`Signing.SignConsumesExactlyOnSuccess`, `Interleaving.UnrecognisedMessageWouldSkipANonce`). No call ever asks for such a message (`Interleaving.OnlyRecognisedMessagesAreSigned`).

## Model

| member | source | states |
|---|---|---|
| Preimages.AppendUint256 | types/types.go:28-34 | Appending four limbs leaves the existing bytes alone and adds the 32-byte little-endian expansion of the whole 256-bit number |
| Preimages.ReservePreimage | types/types.go:36-45 | The bytes hashed for a reservation are slot, gas limit, deposit, tip and blob count as little-endian numbers of 8, 8, 32, 32 and 8 bytes |
| Preimages.ReserveRoundTrip | types/types.go:36-45 | Decoding the bytes of a reservation gives back every field |
| Preimages.ReserveDecodesOnlyEncodings | types/types.go:36-45 | A byte string decodes to a request if and only if it is that request's encoding, so equal strings mean equal requests |
| Preimages.ReserveLayout | types/types.go:36-45 | Bytes 0 to 8 spell the slot, 8 to 16 the gas limit, 16 to 48 the deposit, 48 to 80 the tip, 80 to 88 the blob count, each little-endian |
| Preimages.AppendUuidToLe | types/types.go:51-58 | The identifier is appended in the swapped byte order, after the existing bytes |
| Preimages.SwapUuidReordersFields | types/types.go:51-58 | The first three fields of the identifier, big-endian in section 4.1.2 of RFC 4122, come out little-endian and the last eight bytes stay |
| Preimages.SwapUuidInvolution | types/types.go:51-58 | Swapping twice gives the identifier back |
| Preimages.SubmitPreimage | types/types.go:60-65 | The bytes hashed for a submission are the 16 swapped identifier bytes and the transaction hash |
| Preimages.SubmitDecodesOnlyEncodings | types/types.go:60-65 | A byte string decodes to an identifier and a hash if and only if it is their encoding |
| Preimages.SubmitLayout | types/types.go:51-65 | The identifier comes first, its fields of 4, 2 and 2 bytes reversed and the rest as it is, and the hash from byte 16 on |
| Preimages.DigestsBind | types/types.go:36-68 | Two different messages, of the same or of different kind, share a digest only by a collision of the hash function |
| Fees.BaseFeeFollowsDemand | txmgr/txmgr.go:236 | The expected base fee rises exactly after a block above target, is unchanged at target, and falls by at most an eighth |
| Fees.NextBaseFeeExactly | txmgr/txmgr.go:236 | With t half the gas limit, the expected fee falls below target by the largest x with 8*t*x at most the fee times the gas missing, rises above target by the largest such x for the gas in excess but at least by 1, and no other number does |
| Fees.HeadroomExactly | txmgr/txmgr.go:226-240 | Twice the expected base fee covers the next block and five more, for all chains, if and only if that fee is at least 5 |
| Fees.HeadroomIsKeptExactly | txmgr/txmgr.go:226-240 | Once a chain's base fee is at least 5, the cap has this headroom at every later block of every continuation, and no lower fee ensures it |
| Fees.SixthBlockExceedsCap | txmgr/txmgr.go:226-240 | From any expected fee of at least 207, six full blocks in a row exceed the cap |
| Fees.SixthBlockMeetsCap | txmgr/txmgr.go:226-240 | From 206, just below, they end exactly at the cap |
| Fees.Deposit | txmgr/txmgr.go:171-176 | The aliased in-place Mul, Mul, Add, Div yields half the exact integer price, without wrapping, below 2^128; twice it is the price minus its parity |
| Slots.Search | txmgr/txmgr.go:122-143 | The loop returns the slot of the first qualifying element in list order, and fails if and only if none qualifies, so the sentinel 0 is sound |
| Slots.FirstFitExactly | txmgr/txmgr.go:122-137 | The element found is the first whose slot is at least head+2, or at least 1 at head 2^64-1, with at least the blobs and the gas asked for |
| Slots.ChosenIsAheadExactly | txmgr/txmgr.go:127 | The first fit is at least two slots past the head if and only if head+1 does not wrap |
| Slots.TopHeadTakesPastSlot | txmgr/txmgr.go:127 | At head 2^64-1 the slot 1 is chosen |
| Slots.GetSlotForCandidate | txmgr/txmgr.go:110-144 | An error exactly if a remote call fails or no slot is numerically ahead with room for the blobs modulo 2^32 and the gas limit, otherwise the slot of the first fit |
| Signing.Craft | txmgr/txmgr.go:264-325 | Crafting is an error exactly when a call it depends on fails and a panic exactly when the fees cannot be computed or do not fit; otherwise the message is a blob transaction exactly when there are blobs, holds the candidate's destination, data and gas limit, or the estimate if there is none, and its caps are twice the expected fees |
| Signing.CraftedCapCoversSixBlocksExactly | txmgr/txmgr.go:301-325 | The fee cap of every crafted transaction covers six blocks for all chains if and only if the expected base fee is at least 5 |
| Signing.SignConsumesExactlyOnSuccess | txmgr/txmgr.go:329-368 | Signing succeeds if and only if a nonce is due, the message is recognised and the signer answers; it then has the signer's hash, uses exactly the nonce due and alters nothing else in the message; a failure leaves that nonce due if and only if the message is recognised |
| SendMachine.StepKeepsInv | txmgr/txmgr.go:147-224 | Every step keeps every event of a call linked to the event it depends on, whatever other calls do to the nonce |
| SendMachine.RunKeepsInv | txmgr/txmgr.go:147-224 | Hence so does every run |
| SendSafety.ReturnedCallEndsWell | txmgr/txmgr.go:157-223 | A call that reaches the receipt lookup ends with choice, quote for that slot, reservation for that slot at that quote, submission of the signed transaction under that reservation's id, a head at or past slot+1, and the lookup of that transaction's hash |
| SendSafety.ReturnedRunEndsWell | txmgr/txmgr.go:147-224 | The same for every run of a call alone, from any counter and against any answers |
| SendSafety.ExitHeadIsThreeLater | txmgr/txmgr.go:127-220 | Unless head+1 or slot+1 wraps, the head at exit is at least three past the head at selection |
| SendSafety.ExitHeadIsPastSlotExactly | txmgr/txmgr.go:206-220 | A call that ends well ended its wait with the head past the slot if and only if slot+1 does not wrap to 0 |
| SendSafety.TopSlotEndsAtOnce | txmgr/txmgr.go:206-220 | Every candidate that can be crafted has a run that ends well for slot 2^64-1 at head 100 |
| SendSafety.ReservationsAreConserved | txmgr/txmgr.go:157-204 | At every moment successful reservations equal submissions attempted, plus one between the two calls; from the wait on exactly one submission was accepted and reservations exceed failed submissions by one |
| SendSafety.SubmissionsUseTheirReservation | txmgr/txmgr.go:186-197 | Every submission carries the one signed transaction, with the candidate's payload, under the id of the reservation just before it |
| SendSafety.NoIdSubmittedTwice | txmgr/txmgr.go:186-201 | If the gateway does not repeat ids, no id is submitted twice |
| SendSafety.RequestsFitTheChosenSlot | txmgr/txmgr.go:122-185 | Every request targets the slot chosen in the same iteration, asks for the gas of the signed transaction, and for no more blobs, and with a non-zero gas limit no more gas, than that slot advertised |
| SendSafety.CapacityIsRespectedExactly | txmgr/txmgr.go:133-181 | No environment makes a call ask for more gas than advertised if and only if the gas limit is not 0 or the candidate cannot be crafted |
| SendSafety.PreparationIsBounded | txmgr/txmgr.go:245-257 | Each attempt takes one or two steps and there are at most thirty, so preparation is over after sixty steps |
| SendSafety.ThirtyAttempts | txmgr/txmgr.go:245-257 | A call fails without a transaction if and only if thirty attempts failed, in crafting or in signing, or the context was done before an attempt; it panics if and only if crafting does; one still preparing is in the attempt after the failed ones |
| SendSafety.HopelessCandidate | txmgr/txmgr.go:245-257 | A candidate that cannot be crafted is tried exactly thirty times, and no nonce is touched |
| SendSafety.SignedBytesCarryTheQuote | txmgr/txmgr.go:165-186 | The bytes signed for any reservation of any run decode to its request, whose deposit is half the exact price of the quote just before it, and deposit plus tip is the price minus its parity |
| SendSafety.SignedSubmissionsNameTheirReservation | txmgr/txmgr.go:186-197 | The bytes signed for any submission of any run decode to the id of the reservation just before it and the hash of the one signed transaction |
| SendAnswers.HolderFails | txmgr/txmgr.go:157-220 | A step of a call that holds a transaction fails it if and only if no slot fits, the fee request fails, or the head cannot be read while waiting |
| SendAnswers.RunIsAccounted | txmgr/txmgr.go:147-224 | In every run the transaction is the one crafted from the answer before it was signed; from the signature on consecutive events record consecutive answers, price by price and id by id; the call returned the receipt of the last of them, failed by the answer after them, or is running with all of them used |
| SendAnswers.EveryCallIsAccounted | txmgr/txmgr.go:147-224 | In every interleaving each call is accounted for in this way by its own answers alone |
| SendSafety.WaitingEnds | txmgr/txmgr.go:206-220 | If the head advances at least once every k polls, the wait is over within k * (slot+1 - head) polls after the first, and with the first where slot+1 wraps to 0 |
| SendProgress.RetryLoopIsPaced | txmgr/txmgr.go:157-204 | A call in the retry loop has made at least three and at most four steps for each lost reservation or failed submission, and those of the pass it is in |
| SendProgress.RefusalsCanGoOn | txmgr/txmgr.go:186-201 | A gateway that offers a slot and refuses every reservation keeps a call in the loop for any number of passes, so no bound holds without one on the refusals |
| SendProgress.StepsAreAccountedFor | txmgr/txmgr.go:147-224 | Whatever the answers, a call still running has made at most sixty steps, four for each refusal and for the last pass, and one for each poll |
| SendProgress.CallIsBounded | txmgr/txmgr.go:147-224 | If the head advances at least once every k answers, the polls are at most k for each number from the head first seen in the wait to slot+1, and one more |
| Interleaving.ReachableInv | txmgr/txmgr.go:334-368 | In every reachable state of any number of calls the counter stands one behind the next nonce, every call is in its invariant, and every signature has one owner |
| Interleaving.NoncesAreConsecutive | txmgr/txmgr.go:334-368 | In every interleaving the k-th signed transaction has the first fetched nonce plus k modulo 2^64, and the backend is asked for a nonce successfully at most once |
| Interleaving.NoncesRepeatExactlyAfterWrap | txmgr/txmgr.go:348 | Two signatures share a nonce if and only if they are a multiple of 2^64 apart |
| Interleaving.CallsHoldDistinctNonces | txmgr/txmgr.go:334-368 | Two calls never hold transactions with the same nonce while at most 2^64 were signed |
| Interleaving.NoIdSubmittedTwiceByAnyCall | txmgr/txmgr.go:186-201 | If the gateway does not repeat ids, no two submissions of any calls in any interleaving use the same id |
| Interleaving.NoncesConsumedAreTransactionsHeld | txmgr/txmgr.go:245-368 | The next nonce counts exactly the calls that hold a transaction: none for a failed preparation, one for a call that fails later |
| Interleaving.OnlyRecognisedMessagesAreSigned | txmgr/txmgr.go:306-357 | The branch that skips the decrement is never reached |
| Interleaving.UnrecognisedMessageWouldSkipANonce | txmgr/txmgr.go:356-357 | If it were, a nonce would be lost |
| Interleaving.ReturnedCallsEndWell | txmgr/txmgr.go:147-224 | Whole-run safety holds for every call in every interleaving |
| Interleaving.LoneThreadIsRun | txmgr/txmgr.go:147-224 | A schedule with a single call is that call's run, so both views of `Send` agree |
| Gaps.AllAreAcceptedExactly | txmgr/txmgr.go:186-201 | While at most 2^64 were signed, the nonces the gateway accepted are among those signed, and are all of them if and only if each call that holds a transaction had exactly one submission accepted, so no acceptance stands in for another |
| Gaps.StepLosesExactly | txmgr/txmgr.go:157-201 | A step stops a call that holds a transaction, without an acceptance, if and only if it is a slot choice that fails or a fee request that fails |
| Gaps.LostExactly | txmgr/txmgr.go:157-201 | In every reachable state a call has so lost its transaction if and only if some turn of the schedule was such a step of that call |
| Gaps.NonceIsLostExactly | txmgr/txmgr.go:157-224 | A nonce held can be accepted in no continuation if and only if at some turn its call failed to choose a slot or to get the fee; all within 2^64 signatures |
| Gaps.HolderRecovers | txmgr/txmgr.go:157-201 | Unless its call gave up, a transaction is at most four further turns of that call from being accepted, with no other call moving |
| Gaps.GapsCloseExactly | txmgr/txmgr.go:157-224 | Within 2^64 signatures, some continuation gets every nonce signed so far accepted if and only if no call failed to choose a slot or to get the fee after signing |
| Gaps.GapIsPermanent | txmgr/txmgr.go:157-224 | While at most 2^64 were signed, the nonce of a call that stopped without an acceptance is never accepted by any continuation |
| Gaps.FailedCallLeavesGap | txmgr/txmgr.go:157-201 | For every candidate that can be crafted, two calls can leave such a gap: the first signs and finds no slot, the second has the next nonce accepted |
| TxMgr.PreconfTxMgr.GetBaseFees | txmgr/txmgr.go:226-240 | An error exactly when a remote call fails; otherwise twice the expected base fee, which is exact by the law without division, and twice the blob base fee; the former covers six blocks for all chains if and only if the expected fee is at least 5 |
| TxMgr.PreconfTxMgr.SignWithNextNonce | txmgr/txmgr.go:334-368 | A success exactly if the nonce is known or fetched, the message recognised and the signer answers: the message with one nonce more than the counter, or the fetched one, and the signer's hash; a failed signing restores a counter that was set |
| TxMgr.PreconfTxMgr.BuildMessage | txmgr/txmgr.go:264-325 | The steps of crafting before the lock, with their early returns, yield the specified message, error or panic |
| TxMgr.PreconfTxMgr.SignMessage | txmgr/txmgr.go:325-368 | The part of crafting under the lock moves the machine by its signing step: a success has the message, the signer's hash and the nonce due, a failure uses no nonce, whether or not the counter was set |
| TxMgr.PreconfTxMgr.Attempt | txmgr/txmgr.go:245-327 | One attempt returns a transaction that has used the nonce due, or fails and leaves the next attempt to make, or ends preparation; without a transaction no nonce is used |
| TxMgr.PreconfTxMgr.Prepare | txmgr/txmgr.go:245-257 | Over up to thirty attempts, a returned transaction has used exactly the nonce due, and an error has used none: a counter that was set is unchanged, one that was not is still unset or stands one below a nonce fetched meanwhile |
| TxMgr.PreconfTxMgr.ReserveSlot | txmgr/txmgr.go:163-204 | The rest of a pass once the slot is chosen quotes the fee answered, asks for the slot with the transaction's gas, the blobs and half of gas * gas price + blobs * blob price as deposit and as tip, and hands the slot over exactly if both reservation and submission succeed |
| TxMgr.PreconfTxMgr.ChooseSlot | txmgr/txmgr.go:158-162 | An error exactly if no slot fits; otherwise the machine goes on to the quote for the slot returned |
| TxMgr.PreconfTxMgr.GetPreconfFee | txmgr/txmgr.go:165-168 | The two prices of the answer in this order, or an error exactly if there is none |
| TxMgr.PreconfTxMgr.ReserveAndSubmit | txmgr/txmgr.go:157-204 | The retry loop ends only with an error or with a submission accepted by the last answer, for the slot it returns |
| TxMgr.PreconfTxMgr.Wait | txmgr/txmgr.go:206-220 | The polling loop ends only with an error, exactly if the last head could not be read, or in the machine's lookup stage with the last head read, not below slot+1 |
| TxMgr.PreconfTxMgr.TransactionReceipt | txmgr/txmgr.go:223 | The receipt or the error that the backend answers |
| TxMgr.PreconfTxMgr.Send | txmgr/txmgr.go:147-224 | A call is a run of the machine on the answers it read, which account for all it did, and returns what the last of them, the receipt lookup, says; a set counter moves by one if and only if a transaction was signed, however the call ends; a call that reaches the lookup went through the whole protocol |
| Iterators.ReachableInv | escrow/Escrow.go:272-313 | In every interleaving logs taken, buffered and pending make up the producer's list, and results match deliveries |
| Iterators.DeliveredIsAPrefix | escrow/Escrow.go:272-309 | Whatever goes wrong, the events delivered are the first of the producer's logs, in order, once each, with Raw equal to the log |
| Iterators.TrueShowsTheEvent | escrow/Escrow.go:280-301 | In every interleaving, after Next has returned true the field Event holds the event delivered last |
| Iterators.NilComesLast | escrow/Escrow.go:304-305 | Without an Unsubscribe, an end with no error means that the producer had sent everything |
| Iterators.FalseWithoutErrorMeansDrained | escrow/Escrow.go:277-291 | If Next returned false and Error is nil, the subscription ended and everything it had sent was delivered |
| Iterators.FalseWithoutErrorMeansComplete | escrow/Escrow.go:272-313 | Without an Unsubscribe, it was the producer's whole list |
| Iterators.DeliversEverything | escrow/Escrow.go:272-309 | With a producer that sends all logs and then signals nil, and logs that unpack, Next is true exactly once per log before it is false, even if the select takes the signal first |
| Iterators.EnoughCallsDeliverEverything | escrow/Escrow.go:272-309 | With such a producer, one call more than there are logs has delivered every log |
| Iterators.ErrorIsExplained | escrow/Escrow.go:282-313 | Error reports an error the subscription raised earlier in the run or the unpacking error of the last log taken |
| Iterators.FailIsForever | escrow/Escrow.go:273-276 | After a failure every later Next returns false, the failure stays the same, and nothing more is delivered |
| Iterators.EndedFeedSendsNothing | escrow/Escrow.go:318-321 | Once the subscription has ended, by Close or otherwise, nothing more is sent: whatever follows, the logs in the channel are all that is still taken, in order, and at most that many events are still delivered |
| Iterators.EveryTurnProgresses | escrow/Escrow.go:272-309 | Every turn but a new call changes nothing or uses up a bounded measure |
| Iterators.BusyRunsAreBounded | escrow/Escrow.go:272-309 | A run without a new call in which every turn changes the state is no longer than the measure it uses up |
| Iterators.SomeTurnIsPossible | escrow/Escrow.go:293-308 | A call in progress is never stuck |
| Iterators.NextReturns | escrow/Escrow.go:272-309 | From every reachable state the call in progress can return within the measure |
| Iterators.FairCallsReturn | escrow/Escrow.go:272-309 | If every k turns let the producer send and finish and the call try both cases, the call returns within k times the measure, whatever else happens in between |
| Iterators.EventIterator.Next | escrow/Escrow.go:272-309 | Next performs exactly the specified turns; after true, one more log was taken and Event holds it with its unpacked fields; after false, none was delivered and there is an error or nothing left; its self-call terminates because `done` was false |
| Iterators.EventIterator.Close | escrow/Escrow.go:318-321 | Close ends a subscription that has not ended, keeps an error not yet read, and drops no log; what can follow is stated by Iterators.EndedFeedSendsNothing |
| Watchers.ForwardsAPrefix | escrow/Escrow.go:361-387 | In every run the sink holds, in order, the first of the logs received; at most one received log is not forwarded; Unsubscribe happens exactly once, at the exit |
| Watchers.NothingIsDroppedExactly | escrow/Escrow.go:361-387 | The turn that ends the loop leaves every log sent so far forwarded if and only if the loop was listening and the channel was empty |
| Watchers.EndBeatsBufferedLog | escrow/Escrow.go:379-384 | The loop can end with nil while a log it was sent is still in the channel |
| Watchers.ExitIsExplained | escrow/Escrow.go:363-384 | The loop ends with an error only for an unpacking error or an earlier subscription error, and with nil only after an earlier quit or end of the feed |
| Watchers.ExitIsFinal | escrow/Escrow.go:361-387 | After the exit nothing is taken, forwarded or unsubscribed again |
| Watchers.QuitStopsTheLoop | escrow/Escrow.go:361-386 | Once the user has quit, the loop is over as soon as a select picks that case, whatever happens before and after it |
| Watchers.FeedEndStopsTheLoop | escrow/Escrow.go:361-386 | Once the feed has ended, the loop is over as soon as a select picks that case, also while it holds an event for a full sink, with the error raised or nil |
| Watchers.SinkIsNeverOverrun | escrow/Escrow.go:373-374 | The loop puts exactly as many events into the sink as the reader's room allowed, less the room left |
| Watchers.AllCanBeForwarded | escrow/Escrow.go:361-387 | With logs that unpack, every reachable state of an open feed can go on to forward all logs and end with nil |
| Watchers.Watcher.Run | escrow/Escrow.go:361-386 | The loop performs exactly the specified turns and returns the specified result |

The twins at lines 417-458, 507-532, 563-604 and 652-677 of `escrow/Escrow.go` have the same code.

## Left out

- HTTP, JSON and URLs, including `getHeadSlot` and the client package: each call is an answer of the environment.
- Keccak, ECDSA and KZG: the hash function is a parameter, the signer answers with a hash or an error and is taken to sign the message it was given, and `MakeSidecar` answers with hashes or an error. A signer that panics is not modelled; it would lose a nonce.
- `EstimateGas` and the blob base fee: arbitrary answers.
- `eip1559.CalcBaseFee` is not part of this repository; the recurrence is taken from the Specification section of EIP-1559, for a parent after the fork. A header without excess blob gas, or one with a gas limit below 2 and gas used, panics.
- `retry.Do` is not part of this repository; it is taken to be a first-success loop of thirty attempts that fails when the context is done. Sleeping is not modelled, and timeouts are errors of the call concerned.
- The event subscription library is not part of this repository; a subscription is taken to signal at most one error and then close its channel, and not to send logs afterwards.
- TxMgr.PreconfTxMgr.Send: the object is proved for calls that have the manager to themselves; concurrent calls are covered by Interleaving on the same machine.
- Error texts, logging, and transaction fields the code does not set, among them the value of a blob transaction.
- The Session, Raw and Caller wrappers, the ABI metadata and the Parse functions of the contract binding: one-line forwards.
- Capacity and slashing on the gateway's side and the balances in the escrow contract: not in this repository.
