# A verified model of the Axelar amplifier core

This project models the parts of the Axelar amplifier where a mistake is hardest to see, and proves what they
promise over all inputs and all runs. It covers

- the verifier daemon's broadcasting: the message queue, the batching event loop on top of it, and the
  account-sequence cache below it;
- multisig signing: signing sessions, the quorum selector, key registration and the bytes fed to the
  verifier-set hash;
- the MultiversX encoding of a verifier set;
- the rewards contract: epochs, tallies, payouts and pool accounting;
- the ABI codec of the interchain token service;
- the block publisher, the event consumer and bounded retries;
- the coordinator's indexed state and the gateway's execute-once store.

Code that changes state step by step is modelled by classes and methods with loops; each is proved equal to a
function on values, and the results over whole runs are lemmas about these functions. Pure code is modelled by
functions. Randomness, clocks, network answers, handler results, signature checks and cancellation are parameters:
a run is an arbitrary sequence of what the code observes. A contract call that fails or panics leaves the store as it
was, as the chain rolls it back.

Files: `Ints`, `Collections` and `ByteStrings` hold shared arithmetic, sums, sorting and byte strings. `ItsWire` and
`SetLayouts` say where every field stands in the encoded bytes, and `Utf8Text` what UTF-8 is. `Submissions` and
`RewardsCalls` say which calls of the two contracts succeed, `Distributions` what distributions pay, and `TallyTerms`
under which parameters. Every other file models the component it is named after. `dafny verify dfyconfig.toml` checks
everything.

## Findings

- An acknowledged message is not always delivered. There are three ways to lose it. The broadcaster takes the whole queue
  out before it sends it, so a batch that the network refuses is gone (`BroadcastLoop.RefusedBatchIsLost`). A message is
  acknowledged before the queue is flushed to make room for it, so when that flush fails the message is neither sent nor
  queued (`BroadcastLoop.FailedFlushDropsMessage`). And a client that no longer waits for its answer ends the run, with
  the messages of all clients still in the queue (`BroadcastLoop.GoneClientAbandonsQueue`).
  `BroadcastLoop.DeliversAllIff` says exactly when every acknowledged message is delivered, and
  `BroadcastLoop.FifoConservation` accounts for each of them in every run.
- The bytes fed to the verifier-set hash do not determine the set, in three ways: address lengths may differ
  (`VerifierSetHash.AddressLengthsCollide`), key types may be mixed (`VerifierSetHash.MixedKeysCollide`), and the map keys
  under which the signers are stored are not hashed at all, while registration does not compare them with the signers'
  addresses (`VerifierSetHash.MapKeysCollide`). Two sets with equal bytes are equal exactly when they have the same map
  keys and agree on the lengths of addresses and public keys (`VerifierSetHash.EqualInputsEqualSetsIff`). A set
  registered under the id of another one replaces it: a completed session is left with a signer that is no participant
  (`CollidingSets.ReplacedSetDisownsSigners`), or a valid signature is refused (`CollidingSets.OtherMapKeysRefuseSigner`).
  `SetIds.IdsAgreeIff` says of whole runs exactly when no set is replaced.
- Taking part in an event more than once can cost a verifier its reward: a participation above the number of events is
  no fraction, and such a verifier is skipped (`RepeatedVote.SecondVoteForfeits`). `RewardsTimeline.RewardedIff` is the
  exact condition.
- `epoch_count` is documented as a maximum, but a count of zero on a pool that was never paid processes epoch 0.
  `RewardsContracts.LimitRespectedIff` gives the exact condition and `ZeroLimitRun.ZeroLimitPaysInARun` a run that pays.
- A block publisher whose client reports a falling height goes back and handles heights again
  (`Publishing.FallingReportRepeatsHeights`). `Publishing.AscendingIffNeverRegains` says of the reported heights alone
  when it does not; `Publishing.AscendingIff` covers cancelled and failing runs as well.

## Model

| member | source | states |
|---|---|---|
| MsgQueues.MsgQueue.constructor | ampd/src/queue/msg_queue.rs:12-17 | a new queue is empty and its gas total is the sum over it |
| MsgQueues.MsgQueue.Push | ampd/src/queue/msg_queue.rs:19-36 | appends the message; fails exactly when the checked sum overflows, and then the message stays queued while the total does not count it |
| MsgQueues.MsgQueue.PopAll | ampd/src/queue/msg_queue.rs:38-44 | returns all messages in order and leaves an empty queue with total zero |
| BroadcastLoop.RunKeeps | ampd/src/queue/queued_broadcaster.rs:96-213 | every interleaving of arrivals, failed estimates, ticks and responses keeps the loop invariant and ends the run |
| BroadcastLoop.FifoConservation | ampd/src/queue/queued_broadcaster.rs:96-213 | in every run the delivered batches, the refused batch, the queue and the dropped message are together the acknowledged messages in order; an error-free run has delivered all of them in non-empty batches with one hash each, and each error leaves undelivered exactly what the clause for it says |
| BroadcastLoop.StepLosesIff | ampd/src/queue/queued_broadcaster.rs:132-196 | one step drops the arriving message exactly when the flush that makes room for it fails, and loses the queue exactly when the broadcaster refuses it |
| BroadcastLoop.RunLosesIff | ampd/src/queue/queued_broadcaster.rs:96-213 | over every run, a message is dropped, and a batch refused, exactly when some event meets that condition or, for a batch, the final flush is refused |
| BroadcastLoop.DeliversAllIff | ampd/src/queue/queued_broadcaster.rs:96-213 | over every run, every acknowledged message is delivered exactly when no event loses messages in one of the three ways and the final flush of a non-empty queue is not refused |
| BroadcastLoop.EndingStepLosesIff | ampd/src/queue/queued_broadcaster.rs:132-196 | a step that ends the loop leaves messages undelivered exactly when its flush is refused, its flush that makes room fails, or its client is gone while messages are queued |
| BroadcastLoop.GoneClientAbandonsQueue | ampd/src/queue/queued_broadcaster.rs:168-193 | an acknowledged message is lost with the queue when another client is gone |
| BroadcastLoop.RefusedBatchIsLost | ampd/src/queue/queued_broadcaster.rs:132-152 | two acknowledged messages are lost on one refused tick |
| BroadcastLoop.FailedFlushDropsMessage | ampd/src/queue/queued_broadcaster.rs:168-188 | an acknowledged message is lost when the flush before it cannot pass on its hash |
| BroadcastLoop.FlushMakesRoom | ampd/src/queue/queued_broadcaster.rs:163-196 | a flush caused by gas leaves an empty queue, and an accepted batch together with the next message reaches the limit |
| BroadcastLoop.BatchesRespectLimit | ampd/src/queue/queued_broadcaster.rs:163-196 | every delivered or refused batch is below the gas limit or a single message, the stored total is the exact sum, and the queue's overflow error is unreachable for all u64 fees and limits |
| BroadcastLoop.GasFlushBound | ampd/src/queue/queued_broadcaster.rs:163-196 | if each flush caused by gas pairs a batch with its successor to reach the limit, twice the total gas is at least the number of such flushes times the limit |
| BroadcastLoop.GasFlushesPaidFor | ampd/src/queue/queued_broadcaster.rs:96-213 | over every run, with any ticks and failing ones included, each flush caused by gas accounts for half a limit of acknowledged gas |
| BroadcastLoop.PairBound | ampd/src/queue/queued_broadcaster.rs:132-213 | k batches whose neighbours reach the limit pairwise carry at least floor(k/2) limits of gas |
| BroadcastLoop.BatchCountBound | ampd/src/queue/queued_broadcaster.rs:96-213 | without ticks, k batches, the final flush and a refused batch included, account for at least floor(k/2) limits of acknowledged gas, in every run |
| BroadcastPlan.RunFollowsPlan | ampd/src/queue/queued_broadcaster.rs:96-213 | over every run the delivered batches, the hashes handed to the confirmer and the refused batch are, in order, those of the batches that go out by the events alone: when the next message would not leave the queue below the limit, on a tick, and at the end |
| BroadcastPlan.HashBelongsToBatch | ampd/src/queue/queued_broadcaster.rs:132-161 | over every run the i-th hash handed on is the one the broadcaster answered with for the i-th delivered batch |
| BroadcastPlan.OnlyLastFails | ampd/src/queue/queued_broadcaster.rs:132-196 | only the last batch of a run can fail |
| BroadcastPlan.TickSends | ampd/src/queue/queued_broadcaster.rs:132-161 | a tick whose broadcast succeeds turns a waiting queue into one delivered batch with its hash, and changes nothing else |
| QueuedBroadcasters.QueuedBroadcaster.constructor | ampd/src/queue/queued_broadcaster.rs:80-94 | starts with an empty queue and a closed channel |
| QueuedBroadcasters.QueuedBroadcaster.Connect | ampd/src/queue/queued_broadcaster.rs:123-130 | handing out a client opens the channel and changes nothing else |
| QueuedBroadcasters.QueuedBroadcaster.BroadcastAll | ampd/src/queue/queued_broadcaster.rs:132-161 | empties a non-empty queue into one batch, hands on its hash, and reports the failing step |
| QueuedBroadcasters.QueuedBroadcaster.HandleArrival | ampd/src/queue/queued_broadcaster.rs:163-196 | refines the arrival step of the state machine: refused estimate, flush to make room, enqueue |
| QueuedBroadcasters.QueuedBroadcaster.HandleEvent | ampd/src/queue/queued_broadcaster.rs:103-117 | refines one step of the state machine |
| QueuedBroadcasters.QueuedBroadcaster.RunLoop | ampd/src/queue/queued_broadcaster.rs:96-121 | the loop and the clean-up compute exactly the run of the state machine; without a client the run is refused |
| AccountSequences.RunKeeps | ampd/src/broadcaster/mod.rs:220-320 | every accepted number is explained by the largest answer or the number before it, in every run |
| AccountSequences.AcceptedCoversAnswer | ampd/src/broadcaster/mod.rs:293-320 | no accepted sequence number is below the chain's answer when it was chosen |
| AccountSequences.AcceptedStrictlyIncrease | ampd/src/broadcaster/mod.rs:220-320 | over any mix of estimates, failed broadcasts and stale or jumping answers, accepted numbers strictly increase |
| AccountSequences.ContiguousIff | ampd/src/broadcaster/mod.rs:220-320 | neighbouring accepted numbers are consecutive exactly when no query between them answered above the local value |
| AccountSequences.RunUsesNumbers | ampd/src/broadcaster/mod.rs:220-320 | over every run the answered queries are those of all estimates and broadcasts, and the accepted numbers are those that follow from the answers and from which broadcasts were accepted |
| AccountSequences.PanicsIff | ampd/src/broadcaster/mod.rs:272-276 | a run panics exactly when a transaction with the largest number is accepted |
| AccountSequences.BasicBroadcaster.AccNumberAndSequence | ampd/src/broadcaster/mod.rs:293-320 | the cache becomes the maximum of itself and the answer; a failed query changes nothing |
| AccountSequences.BasicBroadcaster.Broadcast | ampd/src/broadcaster/mod.rs:220-278 | refines the broadcast step; it succeeds exactly when the query is answered and the chain accepts, records the number used, and otherwise names the step that failed |
| WeightedKeys.HeaviestDominate | contracts/multisig/src/multisig.rs:21-38 | the exchange argument: no set of keys outweighs equally many of the heaviest ones |
| Quorum.CutIsFirst | contracts/multisig/src/multisig.rs:27-36 | the cut is the shortest prefix of the weights that reaches the threshold, or everything |
| Quorum.TakeUntilReached | contracts/multisig/src/multisig.rs:27-36 | the scan with a saturating accumulator cuts exactly where exact arithmetic does and returns the signers with their signatures |
| Quorum.OptimizeSignatures | contracts/multisig/src/multisig.rs:21-38 | the sorted and cut signers with their own signatures, for every iteration order of the map |
| Quorum.CutIsMinimum | contracts/multisig/src/multisig.rs:21-38 | on any weighted keys the cut reaches the threshold if all keys do, and no reaching subset is smaller |
| Quorum.SelectionIsMinimumQuorum | contracts/multisig/src/multisig.rs:21-38 | the selection reaches the threshold if the signatures do, no subset that reaches it is smaller, and otherwise all signatures are returned |
| Quorum.SelectionWeightsIgnoreOrder | contracts/multisig/src/multisig.rs:21-38 | the returned weights are the same for every iteration order of the signature map |
| SigningSessions.AcceptedSubmission | contracts/multisig/src/contract/execute.rs:72-134 | what an accepted submission has passed (signing active, participant, not expired, verified by the key or the external verifier, not a duplicate) and exactly what it changes |
| SigningSessions.RunKeeps | contracts/multisig/src/contract/execute.rs:14-144 | every run of starting, registering and submitting that replaces no set named by a session keeps the session invariant |
| SigningSessions.CompletedIffThresholdReached | contracts/multisig/src/signing.rs:44-57 | in every run that replaces no set named by a session, a session is completed exactly when its distinct stored signers reach the threshold, at the height of the crossing submission, which is not after expiry |
| SigningSessions.CompletionIsFinal | contracts/multisig/src/contract/execute.rs:72-134 | a completion height never changes and a stored signature is never replaced, whatever calls follow and whatever sets they register |
| SigningSessions.CompletionIsFinalInRuns | contracts/multisig/src/contract/execute.rs:72-134 | the same between any two points of any run from an empty store |
| Submissions.ReadIff | contracts/multisig/src/key.rs:271-288 | bytes are a signature exactly if there are 64 of them, or 65 for an ECDSA key, and of the kind that key type and length say |
| Submissions.AcceptedIff | contracts/multisig/src/contract/execute.rs:72-134 | a submission is accepted exactly when signing is active, the session and its set exist, the sender is a participant, the length is admitted, the session has not expired, the key or the external verifier accepts, no signature of the sender is stored, and the signers are participants whose weights sum up; a completed session makes no difference |
| Submissions.RefusedBecause | contracts/multisig/src/contract/execute.rs:72-134 | the error of a refused submission names the first of these conditions that fails |
| Submissions.AcceptedStores | contracts/multisig/src/contract/execute.rs:72-134 | an accepted submission stores the signature, completes a pending session whose signers now reach the threshold, leaves a completed one as it is, and changes nothing else |
| Submissions.AcceptedInRunsIff | contracts/multisig/src/contract/execute.rs:72-134 | in every run that replaces no set named by a session, exactly the authentic submissions before expiry by participants not accepted before succeed, unless the weights overflow, which they cannot if those of the whole set do not |
| Submissions.OtherCallsSucceed | contracts/multisig/src/contract/execute.rs:136-144 | registering a set always succeeds and changes nothing but the set under its id |
| Submissions.StartedIff | contracts/multisig/src/contract/execute.rs:14-70 | a session is started exactly when signing is active, the set is registered and neither counter nor expiry overflows; it is pending, with the next number, its set, message and verifier, and expires the configured number of blocks later |
| Submissions.StartedIsNew | contracts/multisig/src/contract/execute.rs:14-70 | in every run the number of a started session is unused and it has no signatures |
| CollidingSets.ReplacedSetDisownsSigners | contracts/multisig/src/contract/execute.rs:136-144 | a run in which a set registered under the id of another one leaves a completed session with a signer that is no participant |
| CollidingSets.OtherMapKeysRefuseSigner | contracts/multisig/src/contract/execute.rs:72-144 | a run in which the same signers registered under other map keys make a valid signature be refused |
| CollidingSets.CollidingIds | contracts/multisig/src/verifier_set.rs:49-69 | under every digest two sets with different address lengths share an id |
| CollidingSets.MapKeysShareId | contracts/multisig/src/verifier_set.rs:49-69 | under every digest the map keys do not change the id |
| SigningSessions.SignersWeight | contracts/multisig/src/signing.rs:119-130 | the weight of the stored signers, or the panic of an overflowing sum |
| SigningSessions.AgreeingIdsStay | contracts/multisig/src/contract/execute.rs:136-144 | if no id is used for two sets, no set named by a session is replaced |
| SetIds.AgreeIff | contracts/multisig/src/contract/execute.rs:136-144 | no registration replaces a different set exactly when the registered sets agree with the stored ones and there is one set per id |
| SetIds.IdsAgreeIff | contracts/multisig/src/contract/execute.rs:136-144 | without digest collisions among the registered sets, no registration replaces a different set exactly when sets with one input have the same map keys and field lengths |
| SetIds.RegularSetsNeverReplaceEachOther | contracts/multisig/src/contract/execute.rs:136-144 | with one address length and uniform public keys this holds exactly when sets with one input have the same map keys, as they do if every signer is stored under its own address |
| SigningSessions.MultisigContract.RegisterVerifierSet | contracts/multisig/src/contract/execute.rs:136-144 | stores the set under its id and changes nothing else |
| SigningSessions.MultisigContract.StartSigningSession | contracts/multisig/src/contract/execute.rs:14-70 | refines the start step: a fresh id, a pending session with its expiry, or the error with nothing changed |
| SigningSessions.MultisigContract.SaveSignature | contracts/multisig/src/state.rs:42-61 | stores a first signature and refuses a second one of the same signer, changing nothing |
| SigningSessions.MultisigContract.SubmitSignature | contracts/multisig/src/contract/execute.rs:72-134 | refines the submission step, error cases included |
| CompletedSessions.CompletedSessionsYieldMinimumQuorums | contracts/multisig/src/multisig.rs:21-38 | in every run, every completed session yields an optimized selection that reaches the threshold and is the smallest such set of accepted signers |
| VerifierSetHash.HasherInput | contracts/multisig/src/verifier_set.rs:49-65 | the bytes fed to the hasher are the length, the records in order, the threshold and the creation height |
| SetLayouts.NumbersInPreimage | contracts/multisig/src/verifier_set.rs:49-65 | the hashed bytes begin with the number of signers and end with the threshold in 16 bytes and the creation height in 8 |
| SetLayouts.SignerInPreimage | contracts/multisig/src/verifier_set.rs:49-65 | each signer stands behind the signers before it as its address, its public key and its weight in 16 bytes |
| VerifierSetHash.InputDeterminesIff | contracts/multisig/src/verifier_set.rs:49-65 | equal inputs come from equal signer lists, thresholds and heights exactly when the lists agree on the lengths of their fields |
| VerifierSetHash.EqualInputsEqualSetsIff | contracts/multisig/src/verifier_set.rs:49-65 | two sets with equal inputs are equal exactly when they have the same map keys and their ordered listings agree on the lengths of addresses and public keys |
| VerifierSetHash.WellKeyedInputsEqualSetsIff | contracts/multisig/src/verifier_set.rs:49-65 | if both sets store their signers under their own addresses, exactly when the lengths agree |
| VerifierSetHash.PreimageInjective | contracts/multisig/src/verifier_set.rs:49-65 | equal inputs come from equal signer lists, thresholds and heights, given one address length and uniform keys |
| VerifierSetHash.EqualInputsEqualSets | contracts/multisig/src/verifier_set.rs:49-65 | sets of one address length and uniform public keys with equal inputs are equal exactly when their map keys are, and always if both store signers under their own addresses |
| VerifierSetHash.MapKeysCollide | contracts/multisig/src/verifier_set.rs:49-65 | one signer under two map keys makes two sets with one input |
| VerifierSetHash.AddressLengthsCollide | contracts/multisig/src/verifier_set.rs:49-65 | without a common address length two different sets share an input |
| VerifierSetHash.MixedKeysCollide | contracts/multisig/src/verifier_set.rs:49-65 | with mixed key types two different sets with positive weights share an input even with one address length |
| VerifierSetHash.ShiftExists | contracts/multisig/src/verifier_set.rs:49-65 | such sets exist, already with addresses of one byte |
| MvxSigners.EncodedInput | ampd/src/mvx/mod.rs:26-43 | the buffer built by the loop is the length-prefixed encoding of signers, threshold and nonce |
| SetLayouts.NumbersInEncoding | ampd/src/mvx/mod.rs:26-43 | the encoding begins with the number of signers in 4 bytes and ends with the length of the threshold in 4 bytes, the threshold and the nonce |
| SetLayouts.SignerFieldsInEncoding | ampd/src/mvx/mod.rs:26-43 | each signer stands behind the signers before it as its key, the length of its weight in 4 bytes, and its weight |
| SetLayouts.FieldsOfSet | ampd/src/mvx/mod.rs:55-71 | the encoded threshold reads as that of the set and has no leading zero; the nonce is 32 bytes that read as the creation height |
| MvxSigners.UniquelyDecodable | ampd/src/mvx/mod.rs:26-43 | for fewer than 2^32 signers equal byte strings come from equal signers, weights, threshold and nonce |
| MvxSigners.CompactRoundTrip | ampd/src/mvx/mod.rs:73-82 | the compact form has no leading zero and reads back as the number |
| MvxSigners.CompactVec | ampd/src/mvx/mod.rs:73-82 | stripping leading zeros of the 32-byte form yields the compact form |
| MvxSigners.CanonicalUnique | ampd/src/mvx/mod.rs:73-82 | a number has one form without leading zeros |
| MvxSigners.ConvertAll | ampd/src/mvx/mod.rs:46-53 | converts every signer, or fails when some key is not Ed25519 |
| MvxSigners.FromVerifierSet | ampd/src/mvx/mod.rs:55-71 | the converted signers sorted by key, or the panic exactly when some key is not Ed25519 |
| MvxSigners.SortedByKey | ampd/src/mvx/mod.rs:46-71 | the encoded signers are those of the set with their keys and weights, in ascending order of the keys |
| MvxSigners.EncodingIgnoresListing | ampd/src/mvx/mod.rs:55-71 | with distinct keys the result does not depend on the order of the map |
| MvxSigners.FromSetFits | ampd/src/mvx/mod.rs:46-87 | a set of well-formed Ed25519 keys with fewer than 2^32 signers fits the length prefixes |
| MvxSigners.EqualEncodingsEqualSets | ampd/src/mvx/mod.rs:26-87 | sets with equal encodings have the same keys with the same weights, the same threshold and height |
| AbiParams.Layout | contracts/interchain-token-service/src/abi.rs:13-14 | heads and tails lie where "Formal Specification of the Encoding" of the Solidity ABI puts them |
| AbiParams.DecodeEncoded | contracts/interchain-token-service/src/abi.rs:148-187 | decoding an encoded parameter list returns it |
| AbiParams.DecodedIsEncoded | contracts/interchain-token-service/src/abi.rs:148-187 | validated decoding, modelled as read, encode again and compare, yields values of the expected types and accepts nothing but encodings |
| ItsCodec.MessageRoundTrip | contracts/interchain-token-service/src/abi.rs:89-206 | decoding an encoded message returns it, for empty and non-empty optional bytes and all 256-bit amounts |
| ItsWire.MessageOnTheWire | contracts/interchain-token-service/src/abi.rs:14-138 | an encoded message is, byte for byte, its type number 0, 1 or 5, its fields in the order in which the struct declares them, the offsets of the dynamic fields, and these with their lengths and padding |
| ItsWire.HubOnTheWire | contracts/interchain-token-service/src/abi.rs:14-243 | the same for the hub messages 3, 4 and 6, nested message included |
| ItsWire.DecodesIffOnTheWire | contracts/interchain-token-service/src/abi.rs:140-290 | a payload decodes to a message exactly when it is these bytes |
| ItsWire.EncodedFields | contracts/interchain-token-service/src/abi.rs:89-138 | every field of a message stands at its declared place, reached through its offset if it is dynamic |
| ItsWire.EncodedHubFields | contracts/interchain-token-service/src/abi.rs:210-243 | the same for hub messages |
| ItsWire.DecodedFields | contracts/interchain-token-service/src/abi.rs:140-290 | an accepted payload carries every field of the decoded message at its declared place |
| ItsWire.DecodeTransfer | contracts/interchain-token-service/src/abi.rs:147-165 | the bytes of any fields decode to a transfer with these fields, unless an address or the amount is empty |
| ItsWire.DecodeDeploy | contracts/interchain-token-service/src/abi.rs:166-178 | the bytes of any fields decode to a deployment with these fields, unless a text is not UTF-8, the decimals exceed a byte or a text is empty |
| ItsWire.DecodeLink | contracts/interchain-token-service/src/abi.rs:179-202 | the bytes of any fields decode to a link with these fields, unless a token address is empty |
| ItsWire.DecodeRoutedBytes | contracts/interchain-token-service/src/abi.rs:252-271 | the bytes of any chain name and payload decode to a routed message, type 3 to the hub and 4 from it, unless the name is invalid or the payload does not decode, and then with that error |
| ItsWire.DecodeMetadata | contracts/interchain-token-service/src/abi.rs:272-285 | the bytes of any fields decode to token metadata, unless the decimals exceed a byte or the address is empty |
| ItsWire.RefusedByType | contracts/interchain-token-service/src/abi.rs:140-290 | a payload shorter than a word, and one of another type, is refused as such |
| Utf8Text.Utf8Iff | contracts/interchain-token-service/src/abi.rs:14-71 | the byte strings admitted for `string` fields are exactly the encodings of sequences of Unicode scalar values |
| Utf8Text.TextIsUnique | contracts/interchain-token-service/src/abi.rs:14-71 | different texts have different encodings |
| ByteStrings.MostSignificantFirst | contracts/interchain-token-service/src/abi.rs:14-71 | numbers are read with the most significant byte first |
| ByteStrings.LexIff | contracts/multisig/src/verifier_set.rs:13-20 | byte strings are ordered by their first difference, a prefix first |
| ItsCodec.DecodedMessageIsEncoded | contracts/interchain-token-service/src/abi.rs:140-206 | every payload accepted as a message is the encoding of what it decodes to |
| ItsCodec.RoutedRoundTrip | contracts/interchain-token-service/src/abi.rs:212-272 | the two routed hub messages return chain name and nested message |
| ItsCodec.HubRoundTrip | contracts/interchain-token-service/src/abi.rs:210-310 | decoding an encoded hub message returns it, nested message included |
| ItsCodec.DecodedHubIsEncoded | contracts/interchain-token-service/src/abi.rs:245-290 | every payload accepted as a hub message is the encoding of what it decodes to |
| ItsCodec.DecodesIffEncoding | contracts/interchain-token-service/src/abi.rs:210-290 | a payload decodes to a hub message exactly when it is its encoding |
| ItsCodec.EncodingInjective | contracts/interchain-token-service/src/abi.rs:210-243 | equal encodings come from equal hub messages |
| ItsCodec.NeverBoth | contracts/interchain-token-service/src/abi.rs:140-290 | no payload is accepted by both decoders; each refuses the other's by message type |
| Epochs.CurrentIsExact | contracts/rewards/src/state.rs:219-245 | from a sound checkpoint no `expect` fires and the multiplication does not saturate |
| Epochs.CurrentIsTheEpochContaining | contracts/rewards/src/state.rs:219-245 | the current epoch is the unique one that contains the height, and is sound as a checkpoint |
| Epochs.CurrentMonotone | contracts/rewards/src/state.rs:219-245 | epochs never go back as the height grows |
| Epochs.RebaseKeepsEpochs | contracts/rewards/src/state.rs:219-245 | taking the current epoch as checkpoint leaves every later epoch unchanged |
| Epochs.UpdateNeverSkipsEpochs | contracts/rewards/src/contract/execute.rs:161-191 | a parameter update keeps the checkpoint sound and moves the epoch number by at most one, by one exactly when the new duration has passed, and then the new epoch begins with the update; it fails only if the new end overflows |
| Epochs.NoEpochInThePast | contracts/rewards/src/state.rs:219-245 | a height before the checkpoint has no epoch and takes no update |
| Tallies.QualifiesByFraction | packages/axelar-wasm-std/src/threshold.rs:43-50 | cross multiplication compares the participation fraction with the threshold |
| Tallies.SplitIsFair | contracts/rewards/src/state.rs:152-182 | each of n qualifying verifiers gets floor(R/n), the total is at most R with a rest below n, and nobody is paid exactly when n is 0 or R < n |
| RewardMaps.MergeConserves | contracts/rewards/src/contract/execute.rs:231-249 | merging two reward maps loses and invents nothing |
| RewardMaps.MergeRewards | contracts/rewards/src/contract/execute.rs:231-249 | adds key by key in any order, failing exactly when some sum exceeds 128 bits |
| RewardsContracts.WindowBounds | contracts/rewards/src/contract/execute.rs:65-79 | processing starts right behind the last paid epoch and stops two epochs before the current one |
| RewardsContracts.DistributionPaysItsEpochs | contracts/rewards/src/contract/execute.rs:59-107 | a distribution takes out of the pool exactly the sum of what the processed epochs' tallies pay, and moves the watermark |
| RewardsContracts.CumulatedConserves | contracts/rewards/src/contract/execute.rs:109-129 | the cumulated rewards add up to the payouts of the single epochs |
| RewardsContracts.LimitRespectedIff | contracts/rewards/src/contract/execute.rs:65-79 | the number of processed epochs respects the limit, except exactly for a limit of zero on a pool never paid |
| RewardsContracts.ZeroLimitPaysEpochZero | contracts/rewards/src/contract/execute.rs:65-79 | on a pool never paid a limit of zero processes epoch 0 exactly from epoch 2 on |
| ZeroLimitRun.ZeroLimitPaysInARun | contracts/rewards/src/contract/execute.rs:18-159 | a run in which a limit of zero pays out epoch 0 |
| RewardsContracts.MoreIsExact | contracts/rewards/src/contract/execute.rs:83-93 | `can_distribute_more` is set exactly when another distribution at the same height finds epochs to process |
| Distributions.WindowIff | contracts/rewards/src/contract/execute.rs:65-79 | with a positive limit, 10 by default, there is something to process exactly when an unpaid epoch is at least two before the current one; then as many epochs as asked for or as are due are processed, from the first unpaid one on |
| Distributions.DistributesIff | contracts/rewards/src/contract/execute.rs:59-107 | a distribution with a positive limit succeeds exactly when such an epoch exists and the balance covers what the epochs to process pay; it takes exactly that and moves the watermark behind them |
| Distributions.DistributionPaysShares | contracts/rewards/src/contract/execute.rs:59-129 | such a distribution pays each verifier the sum of its shares of the processed epochs |
| Distributions.EveryoneGetsItsShares | contracts/rewards/src/contract/execute.rs:109-129 | cumulated over any epochs, each verifier gets its rounded-down share of every epoch that rewards it |
| Distributions.SettledIff | contracts/rewards/src/contract/execute.rs:95-107 | rewards can be taken out exactly when the balance covers them; otherwise the error says whether an amount or the sum overflows |
| Distributions.DistributionsCatchUp | contracts/rewards/src/contract/execute.rs:59-107 | after any run, distributions with positive limits at one height that the balance covers pay exactly as many epochs as they ask for together or as are due, however the limits are split; once they ask for enough, the watermark is two epochs before the current one |
| Distributions.UndatedIsRefused | contracts/rewards/src/contract/execute.rs:65-67 | a distribution of a missing pool, or before its checkpoint, is refused as such |
| RewardsContracts.StepTouchesOnePool | contracts/rewards/src/contract/execute.rs:18-224 | a call changes no other pool, watermark or account |
| RewardsContracts.BalanceIsDepositsMinusPayouts | contracts/rewards/src/contract/execute.rs:59-107 | in every run the balance is deposits minus payouts, and epochs are paid once each, oldest first, without gaps, up to the watermark |
| RewardsContracts.EpochArithmeticNeverPanics | contracts/rewards/src/state.rs:219-245 | in every run no `expect` of the epoch arithmetic can fire, at any height |
| RewardsCalls.CreatesIff | contracts/rewards/src/contract/execute.rs:131-159 | after any run a pool is created exactly when it does not exist, without a balance and in epoch 0, which begins with its creation |
| RewardsCalls.FirstEpochs | contracts/rewards/src/state.rs:219-245 | the n-th epoch of a new pool begins n durations after its creation |
| RewardsCalls.AddsIff | contracts/rewards/src/contract/execute.rs:209-224 | after any run rewards are added exactly when the pool exists and its balance does not overflow |
| RewardsCalls.RecordsIff | contracts/rewards/src/contract/execute.rs:18-39 | after any run a participation is recorded exactly when the pool exists and the height is not before its checkpoint; pools and watermarks do not change |
| RewardsCalls.UpdatesIff | contracts/rewards/src/contract/execute.rs:161-207 | after any run parameters are updated exactly when the pool exists, the height is not before its checkpoint and the epoch end does not overflow; balances, events and watermarks do not change |
| RewardsStorage.CumulateRewards | contracts/rewards/src/contract/execute.rs:109-129 | the rewards of all epochs of the range with a tally, or an overflow exactly when the exact sums do not fit |
| RewardsStorage.Total | contracts/rewards/src/contract/execute.rs:103-103 | the sum of the rewards, in any order |
| RewardsStorage.RewardsContract.CreatePool | contracts/rewards/src/contract/execute.rs:131-159 | refines the creation step; an existing pool is refused |
| RewardsStorage.RewardsContract.UpdatePoolParams | contracts/rewards/src/contract/execute.rs:161-207 | refines the update step, with the current epoch's tally re-parameterised |
| RewardsStorage.RewardsContract.AddRewards | contracts/rewards/src/contract/execute.rs:209-224 | refines the deposit step, with its overflow |
| RewardsStorage.RewardsContract.RecordParticipation | contracts/rewards/src/contract/execute.rs:18-57 | refines the recording step: events keep the epoch of their first sighting |
| RewardsStorage.RewardsContract.DistributeRewards | contracts/rewards/src/contract/execute.rs:59-107 | refines the distribution step and returns its payout |
| RewardsTimeline.TalliesCount | contracts/rewards/src/contract/execute.rs:18-57 | in every run each tally counts exactly the events first seen in its epoch and each verifier's participations in them |
| RewardsTimeline.RewardedIff | contracts/rewards/src/state.rs:172-182 | in every run a verifier is rewarded for an epoch exactly when it took part at least once, not more often than there are events, and in the required share |
| RewardsTimeline.TooManyVotesForfeit | contracts/rewards/src/state.rs:172-182 | taking part more often than there are events forfeits the reward |
| RepeatedVote.SecondVoteForfeits | contracts/rewards/src/contract/execute.rs:18-57 | a run in which one vote earns the reward and the same vote once more loses it |
| RewardsTimeline.NewEventsAreUnpaid | contracts/rewards/src/contract/execute.rs:15-39 | with heights that do not go back, a new event is accepted and lands at least two epochs after every paid one |
| RewardsTimeline.PaidEpochsAreClosed | contracts/rewards/src/contract/execute.rs:15-207 | a paid epoch stays paid, and no later call adds an event to it or changes the parameters it was paid under |
| TallyTerms.StepTerms | contracts/rewards/src/contract/execute.rs:18-207 | one call changes the parameters of a tally exactly when it updates the pool's parameters in the epoch of the tally, and a new tally starts in the current epoch under the parameters of the pool |
| TallyTerms.CurrentTallyHasCurrentTerms | contracts/rewards/src/contract/execute.rs:18-207 | in every run with heights that do not go back, no epoch after the current one has a tally and the tally of the current epoch has the parameters of the pool |
| RewardsTimeline.PaidParticipationChangesIff | contracts/rewards/src/contract/execute.rs:18-57 | in the tally of a paid epoch a verifier's participation changes exactly when the verifier votes on an event first seen in that epoch, and then by one up to the largest 64-bit number |
| RewardsTimeline.LateVotesAreNeverPaid | contracts/rewards/src/contract/execute.rs:59-129 | after any further calls, what a distribution pays, or why it fails, does not depend on the tally of an epoch already paid |
| BlockStreams.EventPlaces | ampd/src/event_sub.rs:126-148 | every event of a block appears at its place: begin-block, then transaction by transaction, then end-block |
| BlockStreams.CutAtBlockEnd | ampd/src/event_processor.rs:158-168 | cutting whole blocks behind an end marker leaves whole blocks |
| Publishing.OnlyWholeBlocks | ampd/src/event_sub.rs:108-124 | whatever the polls report and however the run ends, only whole blocks are published |
| Publishing.PublishesWhatItHandles | ampd/src/event_sub.rs:56-124 | with a subscriber, one block is published per handled height, in the same order |
| ChainEvents.BlockHolds | ampd/src/event_sub.rs:108-148 | a block of the chain holds, between its markers, every event of its results at its place and nothing else |
| ChainEvents.FramedIsBlock | ampd/src/event_sub.rs:108-148 | what is sent for a block is that block |
| Publishing.PublishesTheChain | ampd/src/event_sub.rs:56-148 | over every run with subscribers, failing and cancelled ones included, the published stream is the blocks of the handled heights in order, with all their events |
| Publishing.BlockFailsIff | ampd/src/event_sub.rs:108-148 | a block fails exactly when the client does not answer or one of its events cannot be decoded; without subscribers nothing is published and nothing fails |
| Publishing.FailsBecause | ampd/src/event_sub.rs:74-106 | a poll fails exactly when the latest height is not answered or, with its error, when the next block to handle cannot be published |
| Publishing.SweepIsConsecutive | ampd/src/event_sub.rs:85-106 | one call handles consecutive heights and continues behind the last of them, cancelled or not |
| Publishing.EveryHeightOnce | ampd/src/event_sub.rs:56-106 | if reported heights never decrease, every height from the start is handled exactly once in ascending order |
| Publishing.CatchesUp | ampd/src/event_sub.rs:56-106 | and, undisturbed, all heights up to the last reported one have been handled |
| Publishing.NoHeightSkipped | ampd/src/event_sub.rs:56-106 | for any reported heights, cancellations and errors, no height between the start and the highest handled one is left out |
| Publishing.AscendingIff | ampd/src/event_sub.rs:56-106 | for every run, cancelled and failing ones included, heights are handled in ascending order exactly when none is handled after a fall of the reported heights |
| Publishing.AscendingIffNeverRegains | ampd/src/event_sub.rs:56-106 | undisturbed, heights are handled in ascending order exactly when no report rises from below a height that an earlier one has risen to |
| Publishing.FallingReportRepeatsHeights | ampd/src/event_sub.rs:85-106 | reports 7, 5, 7 from height 5 on make it handle 5, 6, 7, 6, 7 |
| Publishing.EventPublisher.ProcessBlock | ampd/src/event_sub.rs:108-124 | sends begin marker, events and end marker, nothing without subscribers, and nothing on an error |
| Publishing.EventPublisher.ProcessBlocksFrom | ampd/src/event_sub.rs:85-106 | the loop computes the sweep, with early return on cancellation and on errors |
| Publishing.EventPublisher.RunLoop | ampd/src/event_sub.rs:56-72 | the loop computes the run over any sequence of polls |
| Retrying.WithRetry | ampd/src/asyncutil/future.rs:6-41 | calls until the first success, at least once and at most the maximum, and returns the last outcome |
| Consuming.EventsInMessagesOut | ampd/src/event_processor.rs:63-140 | the handled events are the stream's, once each and in order, and the broadcast messages are the handler's outputs for them in order; after a refused message a proper prefix |
| Consuming.EndsExactlyWhen | ampd/src/event_processor.rs:63-168 | the loop ends in the first round that closes or breaks the stream, has a message refused, or is a block end or timeout under a cancelled token |
| Consuming.EndsIn | ampd/src/event_processor.rs:63-168 | the loop takes rounds up to the first one that is broken or closed, is a timeout or a block end under a cancelled token, or has a message refused; a broken stream and a refused message are errors, the others are not |
| Consuming.SentUpToRefused | ampd/src/event_processor.rs:111-140 | a refused message ends the loop with exactly the messages before it sent |
| Consuming.MessagesOfFirstSuccess | ampd/src/event_processor.rs:111-140 | the messages of an event are those of the first successful attempt among at most the maximum, none without a success |
| Consuming.StopsOnBlockBoundary | ampd/src/event_processor.rs:59-109 | a consumer stopped by the token, not on a timeout or a closed stream, has handled whole blocks only |
| Consuming.Consumer.HandleEvent | ampd/src/event_processor.rs:111-140 | a handler that keeps failing is skipped; messages go out in order until one is refused |
| Consuming.Consumer.ConsumeEvents | ampd/src/event_processor.rs:63-109 | the loop computes the run of the state machine |
| ClientCalls.SentIsAcknowledged | ampd/src/event_processor.rs:111-140 | a consumer has sent exactly the messages that were acknowledged to it |
| ClientCalls.LoopAcks | ampd/src/queue/queued_broadcaster.rs:163-196 | a running broadcaster has acknowledged exactly the arrivals it answered with Ok |
| BlockPipeline.BatchesInterleaveClients | ampd/src/queue/queued_broadcaster.rs:40-61 | the batches of an error-free broadcaster shared by any number of consumers are an interleaving of what they have sent, each consumer's messages in order and once |
| BlockPipeline.ClientHandlesWholeBlocks | ampd/src/event_processor.rs:59-109 | a consumer that subscribed between two blocks and is stopped by the token has handled whole blocks only and sent everything its handler produced for them |
| BlockPipeline.ClientHandlesTheChain | ampd/src/event_processor.rs:59-109 | such a consumer has handled exactly the blocks of consecutive handled heights of the chain, with all their events |
| BlockPipeline.WholeBlocksEndToEnd | ampd/src/event_processor.rs:59-109 | publisher, any number of consumers and the broadcaster together: handled blocks are whole and are the chain's, with all their events, and an error-free broadcaster's batches interleave the handlers' outputs for them |
| UniqueMaps.SavedIff | contracts/coordinator/src/state.rs:25-36 | a save succeeds exactly when no other key holds the value, and keeps map and index inverse to each other |
| Coordinators.RegisteredIffSomeChain | contracts/coordinator/src/state.rs:25-66 | after every run a prover is registered exactly when some chain maps to it, never for two chains |
| Coordinators.Coordinator.UpdateVerifierSets | contracts/coordinator/src/state.rs:95-129 | any sequence of updates leaves map and index with exactly each prover's latest set |
| Coordinators.DiffReplaces | contracts/coordinator/src/state.rs:100-126 | removing stale and adding missing verifiers replaces the prover's set and nothing else |
| Coordinators.Coordinator.IsProverRegistered | contracts/coordinator/src/state.rs:38-47 | true exactly when some chain maps to the prover |
| Coordinators.Coordinator.SaveProverForChain | contracts/coordinator/src/state.rs:59-66 | succeeds exactly when no other chain has the prover; a failure changes nothing |
| Coordinators.Coordinator.UpdateVerifierSetForProver | contracts/coordinator/src/state.rs:95-129 | the two loops leave the new set for the prover, other provers untouched, and the index in agreement |
| PubKeys.RegistersIffUnheld | contracts/multisig/src/state.rs:98-113 | a well-signed registration succeeds exactly when nobody holds the key, the sender included; the index never refuses afterwards; a length that the key type does not admit is a format error |
| PubKeys.KeysHaveOneOwner | contracts/multisig/src/contract/execute.rs:146-169 | after every run no key is held twice and every held key was proved to belong to its holder |
| PubKeys.KeyRegistry.RegisterPubKey | contracts/multisig/src/contract/execute.rs:146-169 | refines the registration step, error cases included |
| Gateways.ExecutedOnceAsApproved | contracts/axelarnet-gateway/src/state.rs:90-133 | over every run each id is executed at most once, and with the message first approved for it |
| Gateways.ApprovalComesFirst | contracts/axelarnet-gateway/src/state.rs:116-133 | every execution comes after an approval of the same id and message |
| Gateways.StatusesMoveForward | contracts/axelarnet-gateway/src/state.rs:65-133 | statuses never go from executed back to approved, and no stored message is replaced |
| Gateways.SucceedsIff | contracts/axelarnet-gateway/src/state.rs:65-133 | after any run a message is marked as executed exactly when it has been approved, has not been executed and passes the caller's check, and stays approved if the check refuses it; an approval is accepted exactly when it is the first or repeats it |
| Gateways.ExecutedIff | contracts/axelarnet-gateway/src/state.rs:116-133 | over every run a message has been executed exactly when, after its approval, some caller's check accepted it |
| Gateways.Gateway.SaveUniqueRoutableMsg | contracts/axelarnet-gateway/src/state.rs:65-77 | stores a first message under an id and refuses a second one |
| Gateways.Gateway.SaveExecutableMsg | contracts/axelarnet-gateway/src/state.rs:90-100 | approves a new message, accepts an identical one without effect, refuses a different one |
| Gateways.Gateway.MarkAsExecuted | contracts/axelarnet-gateway/src/state.rs:116-133 | executes an approved message that passes the check and returns it; all other cases change nothing |

## Left out

- Cryptography and hashing: verification is a predicate, digests are left out, and only the hashed bytes are modelled. The session results ask that no call replaces a set that a session names; `SetIds.IdsAgreeIff` and `SetIds.RegularSetsNeverReplaceEachOther` say which registered sets ensure this, given a digest that has no collision among them.
- `alloy`: decoding with validation is modelled as reading by the Solidity ABI specification, with offsets as full words, encoding the result again and comparing it with the input; this comparison is where strictness comes from. The library itself is not part of this model.
- ItsCodec.HubRoundTrip: holds for encodings shorter than 2^256 bytes, because a longer one has offsets that do not fit a word.
- ItsCodec.MessageRoundTrip: the same bound on the length of the encoding.
- The storage library: an indexed map is a primary map plus an index, updated as the library documents it, and a failed save is rolled back with the call.
- Heights of blocks are unbounded; the panic of incrementing the largest height is not modelled.
- A subscriber that joins in the middle of a block, and the lag of a full broadcast channel other than as a stream error.
- Fee estimation in floating point, fee denominations and balance checks of the broadcaster.
- Proxies of verifiers, the configured reward denomination and the tokens attached to messages of the rewards contract.
- Routing between gateway, router and nexus, payload checks, and the hub logic of the interchain token service beyond its codec.
- Chain-specific verifiers, handlers, XRPL contracts, permissions, queries, events and migrations: they dispatch calls and compare fields, and keep no state that the results above depend on.
- Timing, interval resets and scheduling: represented by the arbitrary order of what a run observes.
