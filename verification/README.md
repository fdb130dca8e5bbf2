# The mesh and identity protocols, verified

A Dafny model of the protocol and storage state machines of the OxPulse mesh (`mesh-core`) and device
identity (`identity`) packages, and proofs about every run of them.

- **Ratchet** (`ReplayWindow`, `KeySchedule`, `RecvKeyCache`, `RatchetSession`, `RatchetRuns`): the receiver keeps a
  replay bitmap, a rolling map of key buffers and two chain keys, and zeroes buffers in place. It is proved to be a
  function of the delivered set and the newest derived counter; whole runs of reordered, repeated and dropped frames follow.
- **Handshake** (`NoiseCrypto`, `NoiseXx`, `NoiseAgreement`): Noise XX with an ML-KEM exchange, as mutable objects
  against value-level messages. Honest runs agree on everything; on an arbitrary network equal hashes mean equal
  transcripts, or a hash collision that is pointed out.
- **Frames** (`Frame`, `Reassembler`, `FrameRuns`, `FrameStreams`, `FrameOverlap`): soundness on arbitrary bytes, what the
  transport's reader makes of lost, permuted and duplicated chunks, exactly when that is what was sent, and exactly
  when two overlapping sends both arrive. `EndToEnd` joins them to the ratchet.
- **Stores** (`Tables`, `Mailbox`, `Outbox`, `OutboxDrainer`): index-ordered eviction, one bounded put under three stores, and
  the drain loop cut at its awaits with other callers interleaved.
- **Duplicates** (`Bits`, `Bloom`, `Dedupe`, `Router`): the bit array, the LRU, and what the two let through over runs with reloads.
- **Identity** (`DeviceIdentity`, `IdentityRuns`): the disk as rows that change one atomic step at a time, any step faulting or
  being the last.
- **Sealed key** (`WrappingKey`, `SealedKey`, `SealedRuns`, `SealedPaths`, `SealedExact`, `SealedOwners`, `SealedCalls`): mints and boots under the
  lock, interleaved with restores and other callers that take none, every call resolving the wrapping key for itself;
  what is served stays readable, and a pair that opens stays openable, exactly on the disks described.
- **Connections** (`Mesh`, `MeshInvariant`, `MeshTransport`, `MeshRuns`, `MeshAcceptance`,
  `MeshEntries`, `Tofu`): handlers and suspended continuations over the shared
  maps, verdicts, timeouts, sending, and pinned keys.
- **Geohash** (`Geohash`): interval halving over the reals against a decoder.

Classes carry the source's fields; their methods are proved against specification functions, and the run theorems
are about those. Cryptographic primitives are arbitrary functions. What is assumed of them is stated where it is used:
the AEAD opens what it sealed, DH commutes, ML-KEM decapsulates what it encapsulated. `SuitesExist` and
`PrimitivesExist` show the assumptions can be met. AES key wrap (section 2.2 of RFC 3394) is symbolic: unwrapping succeeds under the wrapping key alone.
Clocks, randomness and the outcome of every storage or radio call are parameters or events, so a proof is for all of them unless
its row says otherwise.

## Where the code and its description differ

- The comments at `session-ratchet.ts:69-73` and `182-186` say every counter the window accepts has a key. It has one only up to
  16 past the newest derived counter (`AWindowedCounterWithoutKey`); `GenuineArrivalIsExact` gives the exact condition.
- `frame.ts` accepts a chunk whose total is 0; such a chunk numbered 0 is returned as a frame of its own.
- A chunk longer than 255 bytes is written with a wrapped length byte and refused by the reader, so MTUs of 5 to 259 are the useful ones.
- Handshake payloads of 541 to 1500 bytes in messages 1 and 2 are written but refused by the reader.
- A duplicate that arrives after its frame is complete starts a new frame, and can end up in the next one (`LateDuplicateSpoilsTheNext`).
- A mark lost to a storage error lets the drainer send an entry again (`LostMarkSendsTwice`). An entry enqueued again under
  the same id during its send is marked sent although the new bundle was not sent (`ReplacedInFlight`).
- `device-identity.ts:1323-1325` says that with no identity loaded there is nothing live to overwrite. A key still served from the cache can
  be: the mint of a second owner then replaces its only copy (`AnotherOwnerOverwrites`; `WhoMayOverwrite` and `TheLiveKeyStays` say when not).
- `device-identity.ts:1197-1199` says the wrapping key must not be resolved beside an unlocked call that makes one. Restores, the Noise
  key pair and the profile seed resolve it without the lock. On a disk with neither wrapping key, overlapping calls lose a
  served key (`OverlappingMintIsLost`) or lock out a restored pair (`OverlappingRestoreLocksOut`); one call alone settles the disk.
- `device-identity.ts:352-354` says recovery cannot make things worse. It overwrites the wrapping key of rows written since, also
  after a failure that was not the key's (`RecoveryLosesARow`, `RecoveryLocksOutARestore`). `DurableExactly` and `OpensExactly` say when.
- `device-identity.ts:213-216` and `225-226` have an unreadable legacy key reach the path that makes a new one, since a new device has nothing
  to lose. On a device whose only key is the legacy one, another call may copy that over the new key: a served key is lost
  (`AMissedLegacyKeyLosesARow`) or a restored pair locked out (`AMissedLegacyKeyLocksOut`).
- A boot that overlaps a restore can make the replaced identity live after the restore is over (`ABootOutlivesARestore`).
- `acceptPeer` is described as coming after the SAS check. It accepts a handshake that has no SAS yet (`AcceptedBeforeItsSession`).
  Where two addresses carry one peer id, the case of `transport.ts:683-695`, it can accept another handshake than the one
  shown (`AnotherIsAccepted`), or none (`TheShownOneIsStuck`); `AcceptingAListedId` says exactly when it accepts the one shown.
  A SAS read before a reconnect is not the one accepted (`AnotherSasAfterAReconnect`); it is exactly while its line is listed (`AcceptsWhatWasRead`).
- `initiateHandshake` enters its state over one that is there: an accepted inbound handshake is lost with no disconnect
  (`AnAcceptedOneIsReplaced`; `ReplacedExactly` says when).
- `transport.ts:717` serialises the writes of one `sendFrame`, but two calls to one peer interleave, and then a frame is lost
  or mixed (`BothArriveExactly`, `InterleavedMix`).
- Frames that fail to open still move the key cache ahead: 24 keys for each (`KeysHeldAreBounded`, `ForgeriesMakeItGrow`).

## Model

| member | source | states |
|---|---|---|
| Replay.ReplayWindow.CanAccept | packages/mesh-core/src/crypto/session-ratchet.ts:97-104 | accepts a counter exactly when it is not among those seen and at most 63 behind the newest |
| Replay.ReplayWindow.Commit | packages/mesh-core/src/crypto/session-ratchet.ts:106-126 | for any counter, the bitmap goes on representing the committed counters of the window; the contract says exactly when it stays within 64 bits |
| Replay.ReplayWindow.CheckAndAccept | packages/mesh-core/src/crypto/session-ratchet.ts:128-133 | accepts and records in one call; a refused counter changes nothing |
| Replay.ReplayWindow.BitmapFits | packages/mesh-core/src/crypto/session-ratchet.ts:94-126 | the bitmap is below 2^64 exactly when it has no bit above 63, as after any run of checkAndAccept |
| Replay.VerdictsAreTheSlidingWindow | packages/mesh-core/src/crypto/session-ratchet.ts:85-133 | over any sequence of counters each verdict is the sliding window of section 3.4.3 of RFC 4303 on the set accepted before |
| Replay.NoCounterAcceptedTwice | packages/mesh-core/src/crypto/session-ratchet.ts:93-133 | no run accepts a counter twice |
| KeyCache.RecvKeyCache.Fill | packages/mesh-core/src/crypto/session-ratchet.ts:242-251 | every key up to the bound is derived and every chain key stepped past is zeroed, keeping the representation: keys are exactly lowestCounter..highestDerived, entry c is the frame key of the c-th chain key, both chain buffers are where they should be, no buffer is shared |
| KeyCache.RecvKeyCache.Get | packages/mesh-core/src/crypto/session-ratchet.ts:259-273 | a key exactly for the retained counters and up to 16 past the newest derived one |
| KeyCache.RecvKeyCache.PruneOlderThan | packages/mesh-core/src/crypto/session-ratchet.ts:275-295 | wipes and drops exactly the keys older than counter - 63, moves the lower chain key with them and derives 8 ahead |
| KeyCache.RecvKeyCache.OnlyLiveBuffersHoldKeyMaterial | packages/mesh-core/src/crypto/session-ratchet.ts:203-304 | every buffer the cache ever held is zero, except the live keys and the two chain keys |
| Ratchet.RatchetSession.Encrypt | packages/mesh-core/src/crypto/session-ratchet.ts:368-398 | writes frame number sendCounter of the send chain and zeroes the chain key it used |
| Ratchet.RatchetSession.Decrypt | packages/mesh-core/src/crypto/session-ratchet.ts:402-441 | the receiving half as one function of the delivered set, the newest derived key and the frame; after counter c nothing older than c - 63 is retained |
| Ratchet.RatchetSession.Create | packages/mesh-core/src/crypto/session-ratchet.ts:316-332 | both chain keys must have 32 bytes; a session starts at counter 0 with nothing delivered |
| Ratchet.RatchetSession.FromCompromisedState | packages/mesh-core/src/crypto/session-ratchet.ts:343-362 | a receiver resumed at a counter, with an empty window |
| RatchetRuns.NoCounterDecryptsTwice | packages/mesh-core/src/crypto/session-ratchet.ts:402-441 | over any serial run of arbitrary frames no counter decrypts twice |
| RatchetRuns.DeliveredIsDecrypted | packages/mesh-core/src/crypto/session-ratchet.ts:402-441 | the delivered set is exactly the counters that decrypted, whatever failed in between |
| RatchetRuns.GenuineArrivalIsExact | packages/mesh-core/src/crypto/session-ratchet.ts:368-441 | in a run that is otherwise arbitrary, forgeries included, a genuine frame yields its own plaintext if and only if its counter has not decrypted, is at most 63 behind every one that has, and at most 16 past the newest derived key; otherwise it throws and the receiver is unchanged |
| RatchetRuns.ExpectedArrivalDecrypts | packages/mesh-core/src/crypto/session-ratchet.ts:402-441 | whatever came in between, a genuine frame decrypts that is new, at most 63 behind, and among the first 24 or at most 24 past a decrypted one |
| RatchetRuns.GenuineRunIsExact | packages/mesh-core/src/crypto/session-ratchet.ts:368-441 | on runs of genuine frames alone that condition is exact |
| RatchetRuns.BoundedReorderingLosesNothing | packages/mesh-core/src/crypto/session-ratchet.ts:182-201 | under bounded reordering, with any number of frames the AEAD rejects in between, every genuine frame decrypts at its first arrival and only then |
| RatchetRuns.KeysHeldAreBounded | packages/mesh-core/src/crypto/session-ratchet.ts:69-79 | on any run at most 72 keys are held, plus 24 for every frame whose AEAD failed |
| RatchetRuns.ForgeriesMakeItGrow | packages/mesh-core/src/crypto/session-ratchet.ts:259-273 | frames that reach ahead and fail do make the cache hold 24 more each |
| RatchetRuns.AWindowedCounterWithoutKey | packages/mesh-core/src/crypto/session-ratchet.ts:69-73 | the documented claim that every counter the window accepts has a key is false: counter 24 in a fresh session |
| KeySchedule.SuitesExist | packages/mesh-core/src/crypto/session-ratchet.ts:159-178 | what is assumed of the AEAD can be met |
| NoiseCrypto.HkdfExpand | packages/mesh-core/src/crypto/noise-xx.ts:98-112 | the loop yields the two or three HKDF blocks (section 4.3 of the Noise framework) |
| NoiseCrypto.NoiseState.MixHash | packages/mesh-core/src/crypto/noise-xx.ts:125-130 | the object mixes as the symmetric state of section 5.2 does |
| NoiseCrypto.NoiseState.MixKey | packages/mesh-core/src/crypto/noise-xx.ts:132-139 | chaining key and 16-byte cipher key from HKDF, nonce back to 0 |
| NoiseCrypto.NoiseState.EncryptAndHash | packages/mesh-core/src/crypto/noise-xx.ts:149-159 | seals under the handshake hash and mixes the ciphertext; clear before the first key |
| NoiseCrypto.NoiseState.DecryptAndHash | packages/mesh-core/src/crypto/noise-xx.ts:161-172 | opens and mixes, or refuses and mixes nothing |
| NoiseCrypto.DecryptsInStep | packages/mesh-core/src/crypto/noise-xx.ts:149-172 | a receiver in the same symmetric state recovers the plaintext and stays in the same state |
| NoiseCrypto.PrimitivesExist | packages/mesh-core/src/crypto/noise-xx.ts:72-112 | what is assumed of DH, AEAD, HKDF and ML-KEM can be met |
| NoiseXx.NoiseXxHandshake.WriteMessage | packages/mesh-core/src/crypto/noise-xx.ts:227-242 | the object follows the value-level handshake on every write, in and out of order |
| NoiseXx.NoiseXxHandshake.ReadMessage | packages/mesh-core/src/crypto/noise-xx.ts:244-259 | the same for every read, including reads that fail after mixing |
| NoiseXx.NoiseXxHandshake.WriteMsg1 | packages/mesh-core/src/crypto/noise-xx.ts:286-303 | message 1: e and the ML-KEM public key |
| NoiseXx.NoiseXxHandshake.ReadMsg1 | packages/mesh-core/src/crypto/noise-xx.ts:305-324 | reads message 1 |
| NoiseXx.NoiseXxHandshake.WriteMsg2 | packages/mesh-core/src/crypto/noise-xx.ts:326-372 | message 2: e, ee, the KEM ciphertext, s, es |
| NoiseXx.NoiseXxHandshake.ReadMsg2 | packages/mesh-core/src/crypto/noise-xx.ts:374-410 | reads message 2; state mixed before a failure stays mixed |
| NoiseXx.NoiseXxHandshake.WriteMsg3 | packages/mesh-core/src/crypto/noise-xx.ts:412-442 | message 3: s, se |
| NoiseXx.NoiseXxHandshake.ReadMsg3 | packages/mesh-core/src/crypto/noise-xx.ts:444-468 | reads message 3 |
| NoiseAgreement.Message1 | packages/mesh-core/src/crypto/noise-xx.ts:286-324 | a payload of message 1 is read back exactly up to 540 bytes, and refused as too large above |
| NoiseAgreement.Message2 | packages/mesh-core/src/crypto/noise-xx.ts:326-410 | the same for message 2, and both sides then share keys, hash and ML-KEM secret |
| NoiseAgreement.Message3 | packages/mesh-core/src/crypto/noise-xx.ts:412-468 | the same for message 3 up to 1500 bytes; each side knows the other's static keys |
| NoiseAgreement.HonestHandshakeSucceeds | packages/mesh-core/src/crypto/noise-xx.ts:227-284 | messages delivered in order: every read returns the written payload, send and receive keys are crossed, hashes and SAS strings are equal |
| NoiseAgreement.EqualHashMeansAgreement | packages/mesh-core/src/crypto/noise-xx.ts:125-130 | over an arbitrary network, two completed sides with equal handshake hashes saw the same three messages, or a named pair of hash inputs collides |
| Frame.ChunkFrame | packages/mesh-core/src/frame.ts:28-54 | the chunk writer produces exactly the chunks of the payload, or the error of an empty, too long or too finely cut one |
| Reassembler.FrameReassembler.PushWithType | packages/mesh-core/src/frame.ts:68-115 | the object follows the value-level reassembler, errors included |
| Reassembler.AllFilled | packages/mesh-core/src/frame.ts:94-107 | the pigeonhole behind the hole test |
| Reassembler.OneChunk | packages/mesh-core/src/frame.ts:68-115 | one chunk continues the history, completes exactly the frame returned, or is refused for a stated reason; the hole error means some number is at or beyond the total |
| FrameRuns.EveryFrameIsMadeUp | packages/mesh-core/src/frame.ts:68-115 | on any stream a returned frame is the in-order concatenation of exactly the numbers 0..total-1 with one total and type, if and only if its total is at least 1 |
| FrameRuns.ZeroTotalIsReturned | packages/mesh-core/src/frame.ts:68-115 | a lone chunk 0 of 0 is returned as a frame that makes nothing up |
| FrameRuns.OversizedChunkIsRefused | packages/mesh-core/src/frame.ts:28-54 | a chunk longer than its length byte can say is refused by the reader: the exact condition on the MTU |
| FrameRuns.Incoming.HandleIncomingChunk | packages/mesh-core/src/transport.ts:974-991 | a reassembler that threw is replaced and the chunk dropped; the reader goes on |
| FrameRuns.FramesNeedTheirFirstChunk | packages/mesh-core/src/frame.ts:68-115 | on any stream at most as many frames come out as chunks numbered 0 go in |
| FrameStreams.StreamIsForetold | packages/mesh-core/src/transport.ts:974-991 | for sendings whose chunks arrive in any order, lost or duplicated, what each yields is told from the numbers that arrive and the slots they fill |
| FrameStreams.StreamRoundTrip | packages/mesh-core/src/transport.ts:974-991 | each sending yields its own frame and nothing else if and only if every frame completes once - after a refused first chunk, from the rest - and no left-over part changes a later frame; the stream then reads as the list sent |
| FrameStreams.ListIsRightExactly | packages/mesh-core/src/transport.ts:974-991 | the whole list read is the list sent exactly when the numbers foretell it; where that is so although the stream does not go through, one frame was lost and another came more than once |
| FrameStreams.WithoutDuplicates | packages/mesh-core/src/transport.ts:974-991 | without duplicates, whatever is lost or reordered, the list is right if and only if the stream goes through |
| FrameStreams.RightByChance | packages/mesh-core/src/transport.ts:974-991 | with them it can be right by chance |
| FrameStreams.EarlyDuplicatesAreHarmless | packages/mesh-core/src/frame.ts:28-115 | duplicates before a frame is complete never do harm |
| FrameStreams.LateDuplicateSpoilsTheNext | packages/mesh-core/src/frame.ts:87-92 | a duplicate after completion makes the reader return a payload nobody sent |
| FrameStreams.ADuplicateMakesUpForARefusal | packages/mesh-core/src/transport.ts:983-988 | a refused first chunk is made up for exactly when it comes again |
| FrameStreams.ChunksReadBack | packages/mesh-core/src/frame.ts:28-115 | what the writer produces for any payload that fits, the reader reads back |
| FrameOverlap.BothArriveExactly | packages/mesh-core/src/transport.ts:714-720 | two sends whose writes interleave in any way: both frames come out if and only if one send had written its last chunk before the other wrote its first |
| FrameOverlap.InterleavedLosesOne | packages/mesh-core/src/transport.ts:714-720 | interleaved, they bring at most one frame |
| FrameOverlap.InterleavedMix | packages/mesh-core/src/transport.ts:714-720 | which may be neither, but half of each |
| EndToEnd.SentFramesArrive | packages/mesh-core/src/transport.ts:670-721 | frames sealed, chunked, sent one after another, reassembled and opened: where the chunks go through, under bounded reordering, each first arrival yields its plaintext |
| Tables.EvictionDropsTheOldest | packages/mesh-core/src/mailbox/inbox.ts:126-145 | walking the time index and deleting n rows leaves the others, and every deleted row precedes every kept one in (time, id) order |
| Tables.EvictionIsDetermined | packages/mesh-core/src/mailbox/inbox.ts:126-145 | nothing else satisfies that description |
| Mailbox.BoundedStore.PutBounded | packages/mesh-core/src/mailbox/inbox.ts:103-148 | count, evict the excess from the front of the index, put: the whole new store |
| Mailbox.PutIsBounded | packages/mesh-core/src/mailbox/spool.ts:95-133 | after any put into any store with cap at least 1 the row is there and the store within the cap; exactly the excess is evicted; a cap of 0 alone is exceeded |
| Mailbox.BoundedStore.EvictExcess | packages/mesh-core/src/mailbox/inbox.ts:269-303 | leaves the newest rows up to a caller's cap; a negative cap is an error |
| Mailbox.BoundedStore.EvictOlderThan | packages/mesh-core/src/mailbox/inbox.ts:305-320 | removes exactly the rows stamped at or before the cutoff |
| Mailbox.BoundedStore.Recent | packages/mesh-core/src/mailbox/spool.ts:191-206 | the newest rows, newest first, and no left-out row newer than a listed one |
| Mailbox.Inbox.Put | packages/mesh-core/src/mailbox/inbox.ts:99-148 | refines the bounded put |
| Mailbox.Inbox.MarkConsumed | packages/mesh-core/src/mailbox/inbox.ts:228-242 | sets one flag and changes nothing else |
| Mailbox.Spool.Put | packages/mesh-core/src/mailbox/spool.ts:91-133 | refines the bounded put |
| Mailbox.Spool.DecrementHops | packages/mesh-core/src/mailbox/spool.ts:252-275 | decrements in place, or deletes at zero |
| Mailbox.HopBudget | packages/mesh-core/src/mailbox/spool.ts:243-275 | over any run of decrements an entry lasts exactly its hop budget |
| Outbox.Outbox.Enqueue | packages/mesh-core/src/outbox.ts:99-147 | refines the bounded put with a fresh pending entry |
| Outbox.Outbox.NextPending | packages/mesh-core/src/outbox.ts:149-160 | the pending entry with the least id, or none exactly when none is pending |
| Outbox.Outbox.MarkSent | packages/mesh-core/src/outbox.ts:162-164 | marks in place; a missing id is no error |
| Outbox.Outbox.MarkFailed | packages/mesh-core/src/outbox.ts:166-177 | counts the attempt; terminal at the eighth |
| Outbox.Outbox.ClearFailed | packages/mesh-core/src/outbox.ts:191-205 | removes exactly the failed entries |
| Outbox.Outbox.EvictOlderThan | packages/mesh-core/src/outbox.ts:230-256 | removes exactly the entries attempted and old; an inverted key range is an error |
| Drainer.OutboxDrainer.OnOnline | packages/mesh-core/src/outbox-drainer.ts:57-61 | a second online event during a drain is dropped |
| Drainer.OutboxDrainer.OnAnswer | packages/mesh-core/src/outbox-drainer.ts:62-66 | takes the next pending entry or ends the cycle |
| Drainer.OutboxDrainer.OnMark | packages/mesh-core/src/outbox-drainer.ts:67-75 | marks and goes round again, or stops at a failure or after 50 |
| Drainer.OutboxDrainer.OnReject | packages/mesh-core/src/outbox-drainer.ts:76-80 | any rejection ends the cycle |
| Drainer.EveryRunIsGood | packages/mesh-core/src/outbox-drainer.ts:57-81 | over every interleaving pending entries have failed fewer than 8 times and failed ones exactly 8 |
| Drainer.SendsAreBounded | packages/mesh-core/src/outbox-drainer.ts:57-81 | sends that return, over all cycles, are at most the attempts left at the start plus 8 per enqueue plus the marks lost |
| Drainer.SentOncePerEnqueue | packages/mesh-core/src/outbox-drainer.ts:51-55 | at most one successful send of an id per enqueue, up to lost marks |
| Drainer.LostMarkSendsTwice | packages/mesh-core/src/outbox-drainer.ts:67-68 | a lost mark does send twice |
| Drainer.FiftyPerCycle | packages/mesh-core/src/outbox-drainer.ts:20-21 | a cycle makes at most 50 sends |
| Drainer.SentMeansDelivered | packages/mesh-core/src/outbox-drainer.ts:13-15 | while no entry is replaced in flight, an entry is marked sent only if a send of its own bundle returned ok |
| Drainer.MarkIsRightExactly | packages/mesh-core/src/outbox-drainer.ts:63-71 | a mark is on the bundle handed over if and only if that is the one last enqueued under the id during the send |
| Drainer.ReplacedInFlight | packages/mesh-core/src/outbox-drainer.ts:63-71 | replaced in flight, a bundle is marked sent that was never handed over |
| Drainer.DrainingLosesNothing | packages/mesh-core/src/outbox.ts:207-228 | while only the drainer writes, no id is lost or appears and bundles stay |
| Drainer.HealthyCycleDeliversInOrder | packages/mesh-core/src/outbox-drainer.ts:62-75 | with a bridge that accepts, n turns send exactly the n pending entries of least id |
| Dedupe.DedupeCache.MarkSeen | packages/mesh-core/src/dedupe.ts:32-43 | after any history the cache is the newest distinct keys by last mark, capacity many (one for capacity 0) |
| Dedupe.DedupeCache.HasSeen | packages/mesh-core/src/dedupe.ts:28-30 | seen exactly when fewer than capacity other keys were marked since |
| Dedupe.SeenLatelyIsCached | packages/mesh-core/src/dedupe.ts:14-43 | the two descriptions of an LRU agree on every history |
| Dedupe.KeyIsInjective | packages/mesh-core/src/dedupe.ts:24-26 | composite keys do not clash when channel ids hold no NUL |
| Dedupe.NulKeysClash | packages/mesh-core/src/dedupe.ts:24-26 | with a NUL they do |
| Bloom.BloomDedup.MarkSeen | packages/mesh-core/src/mailbox/dedup-bloom.ts:186-197 | sets exactly the probe bits of the id in the byte array, in bounds |
| Bloom.BloomDedup.HasSeen | packages/mesh-core/src/mailbox/dedup-bloom.ts:166-178 | true exactly when every probe bit is set |
| Bloom.BloomDedup.Open | packages/mesh-core/src/mailbox/dedup-bloom.ts:112-153 | takes the stored bits over exactly when the parameters are unchanged |
| Bloom.BloomDedup.Flush | packages/mesh-core/src/mailbox/dedup-bloom.ts:199-208 | what is saved is the whole filter |
| Router.FilterIsTheUnionOfProbes | packages/mesh-core/src/mailbox/dedup-bloom.ts:160-197 | after any marks the set bits are exactly the probes of the ids marked |
| Router.Subscription.OnBleFrame | packages/mesh-core/src/router.ts:159-216 | the handler gets a frame, and the inbox a put, exactly when neither cache remembers it, and both then do |
| Router.Subscription.RunPut | packages/mesh-core/src/router.ts:189-213 | the put keeps its own copy of the frame under the message id, or fails alone |
| Router.NoMsgIdTwice | packages/mesh-core/src/router.ts:159-216 | no message id reaches the handler twice, whatever the LRU evicts and the hash is, across flushed reloads with equal parameters |
| Router.ChangedParametersForget | packages/mesh-core/src/mailbox/dedup-bloom.ts:134-152 | after a reload with other parameters the next frame passes |
| Router.WithoutAFilter | packages/mesh-core/src/router.ts:178-183 | without a filter a frame is dropped exactly while fewer than 5000 other keys have passed since |
| Router.SameKeySameBytes | packages/mesh-core/src/router.ts:160-169 | the LRU tells frames apart by message id and channel bytes and by nothing else |
| Geohash.EncodeGeohash | packages/mesh-core/src/channel.ts:30-68 | the halving loop returns the letters of its own choices, five bits to a letter |
| Geohash.OnlyOneCode | packages/mesh-core/src/channel.ts:30-68 | a point lies in the decoded cell of exactly one code of each length, the encoder's |
| Geohash.CodeIsACell | packages/mesh-core/src/channel.ts:30-68 | the cell holds the point and measures 360/2^ceil(5p/2) by 180/2^floor(5p/2) |
| Geohash.SameCodeSameCell | packages/mesh-core/src/channel.ts:30-68 | two points share a code exactly when they share the cell |
| Geohash.LongerCodesExtend | packages/mesh-core/src/channel.ts:30-68 | a longer code extends a shorter one |
| Geohash.OnTheMap | packages/mesh-core/src/channel.ts:30-68 | for in-range points the open ends of the outermost cells do not matter |
| Geohash.TheAlphabet | packages/mesh-core/src/constants.generated.ts:35 | the alphabet of the repository has 32 different letters |
| DeviceIdentity.Device.AdoptLegacyWrappingKey | packages/identity/src/device-identity.ts:220-267 | adopts the legacy key, copied forward when possible, and never throws |
| DeviceIdentity.Device.GetOrCreateWrappingKey | packages/identity/src/device-identity.ts:269-342 | resolves to a key that is on disk, filling at most an empty row |
| DeviceIdentity.Device.UnwrapIdentityWith | packages/identity/src/device-identity.ts:864-953 | checks both wrapped halves against the key and the seed against the record |
| DeviceIdentity.Device.RecoverWithLegacyKey | packages/identity/src/device-identity.ts:356-385 | overwrites the wrapping key row only after the legacy key has unwrapped the record |
| DeviceIdentity.Device.PersistIdentity | packages/identity/src/device-identity.ts:760-840 | saves the pair atomically under a key that is on disk |
| DeviceIdentity.Device.MintIdentityWithStorageFallback | packages/identity/src/device-identity.ts:595-623 | an unpersisted identity when storage is unavailable or full |
| DeviceIdentity.Device.GetOrCreateDeviceIdentity | packages/identity/src/device-identity.ts:420-581 | whatever faults or cuts: the disk stays safe, a pair is never touched, a seedless record stays until a whole pair replaces it, persisted means on disk; with working storage a safe pair always loads |
| DeviceIdentity.Device.ReplaceDeviceIdentity | packages/identity/src/device-identity.ts:1769-1878 | the disk stays safe exactly when nothing was saved or the caller's halves belong together |
| DeviceIdentity.Device.ClearDeviceIdentity | packages/identity/src/device-identity.ts:1015-1035 | rows go in an order that is safe at every cut; at the end nothing is left |
| IdentityRuns.Live | packages/identity/src/device-identity.ts:429-581 | over any history of boots, restores, wipes and reloads, each with arbitrary faults and cuts, the disk is safe; undisturbed, every persisted result is the identity on disk |
| IdentityRuns.IdentityForLife | packages/identity/src/device-identity.ts:429-581 | without restore or wipe all persisted results are the same identity, and a record once there is never lost |
| IdentityRuns.LoadsIffSafe | packages/identity/src/device-identity.ts:864-953 | safe is exactly what loading needs |
| WrappingKey.StepKeeps | packages/identity/src/device-identity.ts:269-342 | a segment of a wrapping-key call on a disk with a key, or one to adopt, writes and returns no other key, whatever else it faults on |
| SealedCalls.SealedKeys.ResumeWrappingKey | packages/identity/src/device-identity.ts:269-342 | load, adopt or make: one segment at a time, against the value-level call |
| SealedCalls.SealedKeys.FromCache | packages/identity/src/device-identity.ts:1167-1177 | serves the cache for the current owner and epoch only, and under one wrapping key what is served and on disk is readable |
| SealedCalls.SealedKeys.EnterMint | packages/identity/src/device-identity.ts:1262-1276 | the same behind the lock; a miss starts a mint |
| SealedCalls.SealedKeys.OnLoaded | packages/identity/src/device-identity.ts:1278-1286 | a row of another owner counts as absent |
| SealedCalls.SealedKeys.OnUnwrapped | packages/identity/src/device-identity.ts:1286-1296 | what is found is handed out and cached, and on disk while its epoch is current; a row under another wrapping key throws |
| SealedCalls.SealedKeys.OnWrapped | packages/identity/src/device-identity.ts:1300-1327 | goes on to save exactly when the epoch has not moved and no other owner is live; otherwise the scalar is handed out unsaved |
| SealedCalls.SealedKeys.RowCommits | packages/identity/src/device-identity.ts:1332-1337 | the row is on disk and the mint about to publish it, or nothing is written and the mint is over |
| SealedCalls.SealedKeys.OnSaved | packages/identity/src/device-identity.ts:1329-1339 | caches after the row is written, under the entry epoch; what is handed out is on disk |
| SealedCalls.SealedKeys.ReplaceDeviceIdentity | packages/identity/src/device-identity.ts:1773-1776 | a restore forgets the live identity and the cached wrapping key and resolves the key anew, without the lock |
| SealedCalls.SealedKeys.OnPairSaved | packages/identity/src/device-identity.ts:1802-1811 | the pair lands in one step, under the key that this restore resolved |
| SealedCalls.SealedKeys.OnSealedDeleted | packages/identity/src/device-identity.ts:1844-1846 | takes the row that is there, which then counts as deleted until the invalidation |
| SealedCalls.SealedKeys.OnSealedLoaded | packages/identity/src/device-identity.ts:1843-1847 | decides to delete a foreign row; the delete itself falls on whatever row is there by then (`TheDeleteTakesANewRow`) |
| SealedCalls.SealedKeys.CloseRestore | packages/identity/src/device-identity.ts:1854-1877 | the invalidation, last: nothing is served from the cache after it |
| SealedCalls.SealedKeys.Open | packages/identity/src/device-identity.ts:864-953 | opens only a record whose own pair is there, under the key given |
| SealedCalls.SealedKeys.OnOpened | packages/identity/src/device-identity.ts:448-476 | an identity is loaded only when its own pair is on disk under the key resolved; otherwise recovery, or the replacement of a seedless one |
| SealedCalls.SealedKeys.OnRetried | packages/identity/src/device-identity.ts:356-385 | the legacy key is adopted only once it has opened the record |
| SealedCalls.SealedKeys.OnMinted | packages/identity/src/device-identity.ts:528-563 | a seedless replacement invalidates before it deletes; any other new identity goes live |
| SealedKey.EveryRunKeepsInv | packages/identity/src/device-identity.ts:1262-1339 | over every interleaving of mints, boots, restores and other callers of the wrapping key the cache, the row and all suspended calls fit together |
| SealedRuns.OneKeyThroughout | packages/identity/src/device-identity.ts:269-385 | on a sound disk with a wrapping key row (or, while no call takes an unreadable legacy row for an absent one, with the legacy key alone), the key on disk, the cached handle, every suspended call and the row served from agree on one wrapping key, over every interleaving |
| SealedRuns.WhatIsServedIsDurable | packages/identity/src/device-identity.ts:1167-1208 | on a sound disk with a wrapping key row (or, while no call takes an unreadable legacy row for an absent one, with the legacy key alone), a key the session would serve is on disk, under the wrapping key the next session resolves, exactly when no mint stands between write and cache entry, unless a restore has just deleted that very row |
| SealedRuns.WhatIsHandedOutIsDurable | packages/identity/src/device-identity.ts:1286-1339 | on a sound disk with a wrapping key row (or, while no call takes an unreadable legacy row for an absent one, with the legacy key alone), a scalar about to be handed out can be read by the next session while its epoch is current; one found under another key is refused |
| SealedRuns.ThePairAlwaysOpens | packages/identity/src/device-identity.ts:1769-1811 | on a sound disk with a wrapping key row (or, while no call takes an unreadable legacy row for an absent one, with the legacy key alone), restores overlapping boots, mints and each other leave a pair that opens under a key on disk |
| SealedRuns.StepKeepsAll | packages/identity/src/device-identity.ts:269-385 | no step of any call, whatever fails, brings a second wrapping key where there is one in its row |
| SealedExact.DurableExactly | packages/identity/src/device-identity.ts:220-342 | over all runs, whatever fails, what is served stays readable if and only if the disk has a wrapping key row, and no record that recovery would open under another key |
| SealedExact.OpensExactly | packages/identity/src/device-identity.ts:1769-1811 | over all runs, whatever fails, the pair on disk opens if and only if the disk has a wrapping key row, no record that recovery would open under another key, and a pair that opens to begin with |
| SealedExact.DurableWhileLegacyReads | packages/identity/src/device-identity.ts:220-342 | over the runs in which no call takes an unreadable legacy row for an absent one, a wrapping key in either row is enough, and one is needed |
| SealedExact.OpensWhileLegacyReads | packages/identity/src/device-identity.ts:1769-1811 | the same for the pair |
| SealedExact.AMissedLegacyKeyLosesARow | packages/identity/src/device-identity.ts:220-230 | on a disk with the legacy key alone: a mint cannot read it and wraps under a key of its own, and another call then copies the legacy key over that |
| SealedExact.AMissedLegacyKeyLocksOut | packages/identity/src/device-identity.ts:220-230 | the same with a restore: its pair ends up under a key that is nowhere on disk |
| SealedExact.OverlappingMintIsLost | packages/identity/src/device-identity.ts:1773-1776 | with no key on disk a mint and a restore each make one: the row of the served key ends up under the key overwritten, and the restore is gone |
| SealedExact.OverlappingRestoreLocksOut | packages/identity/src/device-identity.ts:1773-1776 | the other order: the restored pair ends up under a key that is nowhere on disk |
| SealedExact.RecoveryLosesARow | packages/identity/src/device-identity.ts:356-385 | a boot that fails to open its record for a moment overwrites the wrapping key of a row still served |
| SealedExact.RecoveryLocksOutARestore | packages/identity/src/device-identity.ts:356-385 | the same while a restore saves its pair under the key overwritten |
| SealedOwners.TheNextSessionReadsIt | packages/identity/src/device-identity.ts:1262-1296 | the next session reads the row if and only if it is under the key that the disk resolves |
| SealedOwners.ServedAfterAReload | packages/identity/src/device-identity.ts:1262-1296 | on a sound disk with a wrapping key row (or, while no call takes an unreadable legacy row for an absent one, with the legacy key alone), the session after a reload at any moment serves the same key, and starts on a sound disk again |
| SealedOwners.ALoneCallSettles | packages/identity/src/device-identity.ts:309-342 | one wrapping-key call that runs alone makes any disk sound from then on |
| SealedOwners.WhoMayOverwrite | packages/identity/src/device-identity.ts:1309-1327 | another owner's mint overwrites a served key exactly when no identity is live or its own is |
| SealedOwners.TheLiveKeyStays | packages/identity/src/device-identity.ts:1311-1327 | the live identity's key keeps being served and on disk while no restore starts, and readable where there is one wrapping key |
| SealedOwners.AnotherOwnerOverwrites | packages/identity/src/device-identity.ts:1323-1336 | with no live identity the only copy of a served key is overwritten |
| SealedOwners.ARestoreDeletes | packages/identity/src/device-identity.ts:1843-1875 | between a restore's delete and its invalidation a served key has no copy |
| SealedOwners.TheDeleteTakesANewRow | packages/identity/src/device-identity.ts:1856-1866 | a delete decided on a foreign row takes the row the restored owner has minted since, while its key is served |
| SealedOwners.TheLiveIdentityWasWhole | packages/identity/src/device-identity.ts:429-581 | whatever restores overlap a boot, the identity it makes live is one whose whole pair was on disk at some moment |
| SealedOwners.TheLiveIdentityIsOnDisk | packages/identity/src/device-identity.ts:429-581 | from a moment with no boot or restore under way and no one live, until a restore starts, the live identity is the one on disk |
| SealedOwners.ABootOutlivesARestore | packages/identity/src/device-identity.ts:429-581 | a restore is over and its pair on disk, and the boot it overlapped makes the identity it replaced live |
| Mesh.RoleFor | packages/mesh-core/src/transport.ts:784-793 | lexicographic comparison |
| Mesh.RolesDiffer | packages/mesh-core/src/transport.ts:784-793 | two peers with ids of equal length take the same role only if the ids are equal |
| Transport.MeshTransport.TransitionVerdict | packages/mesh-core/src/transport.ts:103-110 | moves pending only |
| Transport.MeshTransport.FailHandshake | packages/mesh-core/src/transport.ts:769-778 | rejects what the device has now, if pending |
| Transport.MeshTransport.OnConnection | packages/mesh-core/src/transport.ts:421-446 | a disconnect leaves no handshake of the device, an inbound connection registers it; no other device is touched |
| Transport.MeshTransport.InitiateHandshake | packages/mesh-core/src/transport.ts:800-844 | after the identity load: a handshake is entered only for a device still connected, and no other device is touched |
| Transport.MeshTransport.OnHandshakeFrame | packages/mesh-core/src/transport.ts:993-1065 | routes a handshake frame to its state or to the responder path |
| Transport.MeshTransport.Respond | packages/mesh-core/src/transport.ts:1023-1054 | creates the responder state unless the device went; an existing one is never replaced |
| Transport.MeshTransport.AdvanceHandshake | packages/mesh-core/src/transport.ts:851-881 | three strikes, out-of-state drops, reply or finish; no other handshake is touched |
| Transport.MeshTransport.AfterReply | packages/mesh-core/src/transport.ts:890-963 | a failed write or split rejects; otherwise finishes |
| Transport.MeshTransport.FinishHandshake | packages/mesh-core/src/transport.ts:917-963 | session, SAS, strikes reset, key checked against its pin; a changed key is flagged and moves neither pin nor verdict |
| Transport.MeshTransport.CheckHandshakeTimeouts | packages/mesh-core/src/transport.ts:515-533 | afterwards no connected device has a stalled handshake |
| Transport.MeshTransport.GetPendingHandshakes | packages/mesh-core/src/transport.ts:620-634 | lists exactly the pending states with a SAS and a key, in the order of the map |
| Transport.MeshTransport.Decide | packages/mesh-core/src/transport.ts:637-663 | acceptPeer and rejectPeer move at most the verdict of the first state with the peer id |
| Transport.MeshTransport.SendFrame | packages/mesh-core/src/transport.ts:670-711 | picks the device and checks acceptance and session |
| Transport.MeshTransport.OnSessionFrame | packages/mesh-core/src/transport.ts:1067-1072 | a session frame is opened exactly when one could be sent to that device, which is connected except inside a stopMesh |
| Transport.MeshTransport.StopMeshClears | packages/mesh-core/src/transport.ts:582-596 | the second half of stopMesh |
| MeshRuns.VerdictMovesAtMostOnce | packages/mesh-core/src/transport.ts:98-110 | over every interleaving a verdict moves at most once, away from pending |
| MeshRuns.EveryRunKeepsInv | packages/mesh-core/src/transport.ts:342-533 | every device with a handshake is connected except inside a stopMesh; three strikes mean no longer pending; session, SAS and key come together; at most 1000 pins |
| MeshRuns.NoHandshakeOutlivesADisconnect | packages/mesh-core/src/transport.ts:377-446 | whatever is suspended when a disconnect comes, the device has no handshake until it reconnects |
| MeshRuns.TickRejectsTheStalled | packages/mesh-core/src/transport.ts:515-533 | after a tick no connected pending state without a session is older than 15 s, and nothing else changed |
| MeshRuns.StaleFallbackNeverChosen | packages/mesh-core/src/transport.ts:697-703 | the disconnected fallback of sendFrame is dead code except inside a stopMesh |
| MeshRuns.AcceptedByTheUser | packages/mesh-core/src/transport.ts:637-647 | an accepted state was accepted by a named event of the run that found it pending and first under the peer id |
| MeshRuns.AcceptedOnce | packages/mesh-core/src/transport.ts:637-647 | only one event accepts a state |
| MeshRuns.NothingIsSentUnaccepted | packages/mesh-core/src/transport.ts:670-711 | a frame leaves only under a session whose state the user accepted at a named event; the session existed then exactly if it was shown then |
| MeshRuns.NothingIsOpenedUnaccepted | packages/mesh-core/src/transport.ts:1067-1080 | a session frame is opened only under a state the user accepted at a named event, and handed on under the peer id that was accepted; the session existed then exactly if it was shown then |
| MeshAcceptance.AcceptingAListedId | packages/mesh-core/src/transport.ts:637-647 | accepting the id of a listed handshake accepts that handshake if and only if no earlier map entry carries the id; otherwise the earlier entry is judged, and nothing at all moves if that one is no longer pending |
| MeshAcceptance.ShownBeforeAccepted | packages/mesh-core/src/transport.ts:620-647 | whoever accepts only ids that are shown, at moments when no two handshakes carry one id, accepts only states that were themselves shown, with session, SAS and key |
| MeshAcceptance.IdsStayUnique | packages/mesh-core/src/transport.ts:800-844 | while every peer id is met under one device address alone, no two handshakes carry one id |
| MeshAcceptance.ShownBeforeAcceptedByName | packages/mesh-core/src/transport.ts:620-647 | so there, accepting only ids that are shown is enough |
| MeshAcceptance.AnotherIsAccepted | packages/mesh-core/src/transport.ts:683-695 | two addresses under one id, one handshake shown: accepting its id accepts the other, which was not shown, and frames go to it once it completes with any key |
| MeshAcceptance.TheShownOneIsStuck | packages/mesh-core/src/transport.ts:637-645 | once that other one has timed out, accepting the id that is shown moves nothing |
| MeshAcceptance.AcceptedBeforeItsSession | packages/mesh-core/src/transport.ts:636-647 | acceptPeer does not look at the SAS: accepted early, a peer can be sent frames although nothing was ever shown |
| MeshEntries.ReplacedExactly | packages/mesh-core/src/transport.ts:800-844 | the handshake of a device stops being its handshake exactly when the device goes, the mesh stops, or an outbound initiation ends while the device is connected |
| MeshEntries.InitiatingReplaces | packages/mesh-core/src/transport.ts:830-838 | that initiation replaces whatever is there, accepted or not, by a fresh pending state; the old one is no device's any more |
| MeshEntries.AnAcceptedOneIsReplaced | packages/mesh-core/src/transport.ts:830-838 | a run in which an accepted handshake is replaced with no disconnect, and sends to the connected peer fail |
| MeshEntries.AcceptsWhatWasRead | packages/mesh-core/src/transport.ts:620-647 | where ids are unique, the handshake accepted is the one read, with its SAS and key, if and only if the line read is still in the list |
| MeshEntries.WhatWasReadIsAccepted | packages/mesh-core/src/transport.ts:620-647 | a SAS read earlier is the one accepted where since then the device has neither gone nor been initiated to, the mesh not stopped, and the handshake not completed again |
| MeshEntries.AnotherSasAfterAReconnect | packages/mesh-core/src/transport.ts:620-647 | after a reconnect under the same id acceptPeer accepts a SAS and key that are not those read |
| Tofu.TofuStore.TofuCheck | packages/mesh-core/src/transport.ts:206-222 | trusted exactly on first meeting or an equal key; a mismatch changes nothing |
| Tofu.EvictionKeepsTheLatest | packages/mesh-core/src/transport.ts:158-165 | eviction leaves at most 1000 pins and drops none seen later than one it keeps |
| Tofu.OneCheck | packages/mesh-core/src/transport.ts:206-222 | one check: what it pins, that the checked peer survives, and that a pin goes only from a full store of pins seen at least as late |
| Tofu.EveryRunIsBounded | packages/mesh-core/src/transport.ts:158-222 | at most 1000 pins over every run |
| Tofu.PinnedKeyNeverChanges | packages/mesh-core/src/transport.ts:206-222 | on any run and with any clock a pinned key and its first-seen time never change while the entry remains |

## Left out

- Overlapping `decrypt` calls: one decrypt is one step; two calls on one counter can both pass the window before either commits.
- Internals of SHA-256, HKDF, AES-GCM, AES-KW, X25519, Ed25519, ML-KEM and murmur3, and any probabilistic claim about them.
- `snapshotRecvChain` and key extraction for tests.
- BLE, GATT, IndexedDB and fetch plumbing: only the effect of each call as an atomic step or an outcome.
- The retry of a mailbox put after a quota error: both of its handlers can fire, so its effect depends on the database engine.
- Connection backoff, MAC rotation, the peer registry, MTU and reassembler caches, metrics, listeners, and the error field shown to the user.
- Transport.MeshTransport.SendFrame: stops at the decision where to send; the chunk writes after it are not part of it (what they carry is in `EndToEnd`, and how those of two calls interleave in `FrameOverlap`).
- Transport.MeshTransport.AdvanceHandshake: whether a read succeeds, completes or fails is an outcome of the event, not computed from the bytes.
- Router.Subscription.OnBleFrame: the SSE source, which passes neither cache, is not part of it.
- Geohash.EncodeGeohash: real arithmetic; every midpoint at the precisions in use is exact in binary floating point. `neighboringChannelIds` is not part of this model.
- IdentityRuns.Live: calls follow one another in one tab (boots and restores that overlap are in `SealedRuns`); a wipe overlapping a boot is not covered, nor are CryptoKey handles, extractability and structured-clone probing beyond one capability flag.
- SealedKey.EveryRunKeepsInv: one tab with Web Locks, so that mints and boots exclude each other; no wipe overlapping another call; a
  wrapping key row that is neither a key nor bytes is covered in `DeviceIdentity` alone, and a key that cannot be stored counts as a failed copy.
- SealedRuns.OneKeyThroughout: with the legacy key alone on disk, for runs in which no call takes an unreadable legacy row for an absent one, because
  other runs break it (`SealedExact.AMissedLegacyKeyLosesARow`); `SealedExact.DurableExactly` and `OpensExactly` range over all runs.
- SealedRuns.WhatIsServedIsDurable: the same.
- SealedRuns.WhatIsHandedOutIsDurable: the same.
- SealedRuns.ThePairAlwaysOpens: the same.
- SealedOwners.ServedAfterAReload: the same.
- SealedExact.DurableWhileLegacyReads: for those runs alone, as its name says; likewise `OpensWhileLegacyReads`.
- Drainer.SentOncePerEnqueue: one drainer on the store; two tabs draining the same database are not covered.
- Tofu.EveryRunIsBounded: working storage; that the peer just checked survives needs a clock that does not go back.
- The X25519 Noise key pair, the profile seed and the room-host seed, except that a wipe removes them.
- Bundle composition, the wire codec and the token client, which are not part of this model.
