# Pizzini: a verified model

Pizzini is an end-to-end encrypted messenger: a Rust crypto core (`crypto-core/`) around libsignal, and
a Swift app (`pizzini/pizzini/`) that owns contacts, groups, delivery tokens and the outbox. This project
models the parts whose correctness the code itself decides, and proves what they promise.

How it is laid out:

| files | what they model |
|---|---|
| `EditDistance` | the optimal-string-alignment table behind the duress-passcode guard |
| `Wire`, `Hex`, `Bits` | byte readers and writers, the snapshot cursor, hexadecimal addresses, eight-bit facts |
| `PreKeyBundle`, `BundleGrammar` | the prekey-bundle codec, and the texts it accepts |
| `DeviceStore`, `DeviceLaws`, `Snapshot`, `SnapshotLaws`, `SnapshotGrammar`, `SnapshotIo`, `StoreRuns` | the device store and what its operations mean, its versioned snapshot and the blobs it loads, and whole runs with reloads |
| `Padding`, `SealedSender`, `SealedLaws` | length-hiding padding, the constant-time contact gate, sealed send and receive, the caller-buffer protocol |
| `Outbound`, `OutboundLaws`, `TokenSafety`, `RatchetEffects`, `RatchetSafety`, `RatchetRuns`, `OutboxHonesty`, `OutboundStore` | the outbound pipeline as a state machine, what each operation delivers, its safety theorems, and the mutable form |
| `DecoyLimiter`, `Reconnect`, `Chunking` | decoy rate limit, reconnect backoff, attachment chunking |
| `GroupKeys`, `GroupLaws`, `GroupKeySafety`, `GroupKeyStore` | group membership, who may change it, and sender-key distribution |
| `GroupBinding` | how distribution ids bind to groups |
| `ContactCard`, `Hashcash` | the contact-card parser and printer, the proof of work |

Code that updates state in place is a class or a method with loops, proved against a function on values;
the laws are then lemmas about that function over all inputs and all runs. libsignal, BLAKE3, the clock,
the relays and the disk are parameters: record parsers, a `Crypto` record of primitives, a hash function,
and an `Env` per operation saying whether sealing, the session write and the broadcast succeed.

Where a promise is not met by the code, the code is modelled as it is, a lemma exhibits the failure, and
another says exactly when the promise holds:

- A ratchet step comes to be shared exactly through a restart that finds it on the wire, or in a row that
  may still be sent, but not on disk (`SharedStepHasCause`, `RestartIsSafeIff`). One-to-one operations never
  leave it so between operations (`StepsAreNeverShared`).
- A text send writes its outbox row before the session. A crash after the row, and before either the
  session write or, that write having failed, the row's failure mark, does leave it so, and every other crash
  point does not (`CrashSafeIff`); attachment chunks behave the same (`ChunkCrashSafeIff`), and a frame
  without a row may be cut short anywhere (`RowlessCrashIsHarmless`).
- Group frames and legs do not wait for the session write (`GroupControlSafeIff`, `GroupLegSafeIff`).
- Rotating the sender key before answering an invitation can leave a removed member with the current key,
  exactly when the rotation sent the key to someone (`RotateWhileInvitedIff`, `RotateWhileInvitedLeaks`).
- `mySkdmRecipients` records a member once the key is sealed, even if no relay took the frame
  (`BroadcastHonestIff`, `RecordedButNeverSent`).
- A `RotateSenderKey` operation binds its distribution id without the cross-group collision check
  (`RotateKeepsDisjointIff`); the second gate still keeps messages out of two groups (`AtMostOneGroupAdmits`).
- A distribution id that returns to use ages from its old place in the history, not from the new one
  (`ReusedIdAgesEarly`, a case of the general law `RememberedFor`).
- A sender key from an identity longer than 65535 bytes is stored but not indexed
  (`OversizedSenderKeyIsNotIndexed`, with `InstallSenderKeyInv` for the exact bound).
- A token is carried twice only after an install made that very token mintable again: it had been carried, or
  another contact could mint it (`TokensAreNeverReused`, `InstallIsSafeIff`). The delivery handler does not
  test this.

Where the code and its own documentation disagree, the code is followed:

- The bundle layout comment speaks of version 2; the writer and parser use version 3
  (crypto-core/src/store.rs:215).
- The reconnect comment lists five waits up to 60 seconds; the code schedules four, 5, 10, 20 and 40, and
  asks for a manual reconnect at the fifth failure (pizzini/pizzini/ChatStore.swift:348-391).
- The contact-card comment asks for 66 lower-case hexadecimal characters; upper case is accepted, and so
  are pairs with a sign such as `+f` and `-0` (`AcceptedIdentityText`, `SignedIdentityIsAccepted`).
- The rollback comment says an index is consumed only if a frame reached the wire; a text send that fails
  to persist, or finds no relay, keeps it (`TextBurnsIndex`).
- The comment on the wrapping nonce suggests it prevents an endless loop; without a passing nonce the
  counter wraps and the loop goes on (crypto-core/src/hashcash.rs:41-44).

## Model

| member | source | states |
|---|---|---|
| `EditDistance.OsaDistance` | pizzini/pizzini/AppPasscode.swift:187-212 | the in-place table returns the least cost over all restricted edit scripts between the two strings |
| `EditDistance.FillRow` | pizzini/pizzini/AppPasscode.swift:196-210 | the next row joins the rows of the table that hold least costs |
| `EditDistance.BestCell` | pizzini/pizzini/AppPasscode.swift:199-207 | the value computed for a cell is the least cost for its two prefixes |
| `EditDistance.CellIsLeast` | pizzini/pizzini/AppPasscode.swift:199-208 | the cell formula is both reached by a script and a lower bound for every script |
| `EditDistance.DistanceSymmetric` | pizzini/pizzini/AppPasscode.swift:187-212 | the distance is symmetric |
| `EditDistance.WithinOneTypo` | pizzini/pizzini/AppPasscode.swift:173-180 | distance at most one is exactly equality or one insertion, deletion, substitution or adjacent swap |
| `EditDistance.DuressTooSimilarToReal` | pizzini/pizzini/AppPasscode.swift:178-180 | the guard rejects exactly the equal passcodes and those one typo away, in either direction |
| `Wire.Cursor.Take` | crypto-core/src/store.rs:1639-1648 | takes exactly the next bytes or fails, and shrinks the buffer accordingly |
| `Wire.Cursor.U16Blob` | crypto-core/src/store.rs:1658-1661 | reads a two-byte length prefix and that many bytes |
| `Wire.Cursor.U32Blob` | crypto-core/src/store.rs:1662-1665 | reads a four-byte length prefix and that many bytes |
| `Wire.Cursor.Count` | crypto-core/src/store.rs:1674-1682 | reads a count and rejects one larger than the bytes left |
| `Wire.U32RoundTrip` | crypto-core/src/store.rs:1655-1657 | big-endian 32-bit encoding reads back |
| `Wire.U32IsBigEndian` | crypto-core/src/store.rs:1655-1657 | most significant byte first |
| `Wire.ReadBlob32Inverse` | crypto-core/src/store.rs:1662-1665 | a blob is read only from its own encoding |
| `Wire.ReadCountMeaning` | crypto-core/src/store.rs:1674-1682 | a count is accepted exactly if that many bytes are left |
| `Wire.ReadBlob32Of` | crypto-core/src/store.rs:1626-1665 | a written 32-bit blob reads back and leaves what follows |
| `Hex.HexLower` | crypto-core/src/store.rs:1457-1464 | the formatting loop computes the lower-case hexadecimal text |
| `Hex.LowerInjective` | crypto-core/src/store.rs:1450-1464 | distinct identities have distinct addresses |
| `PreKeyBundle.EncodeBundle` | crypto-core/src/store.rs:1509-1538 | the writer produces the bundle layout |
| `PreKeyBundle.DecodeBundle` | crypto-core/src/store.rs:1559-1618 | the cursor parser is the decoding function |
| `PreKeyBundle.BundleRoundTrip` | crypto-core/src/store.rs:1509-1618 | decoding an encoded bundle gives back every field |
| `PreKeyBundle.AcceptedBundlesArePrefixFree` | crypto-core/src/store.rs:1559-1618 | no accepted byte string is a strict prefix of another |
| `PreKeyBundle.OnlyWholeBundlesDecode` | crypto-core/src/store.rs:1559-1618 | every strict prefix and every strict extension of an encoded bundle is rejected |
| `PreKeyBundle.FlagByteIsNotCanonical` | crypto-core/src/store.rs:1574-1581 | any non-zero one-time flag decodes to the same bundle, so re-encoding is not the identity |
| `BundleGrammar.DecodeIff` | crypto-core/src/store.rs:1559-1618 | the decoder accepts exactly version three, a device id in range, an optional one-time key behind any non-zero flag, keys that all parse, a 33-byte verify key, and nothing after it |
| `BundleGrammar.LayoutIsText` | crypto-core/src/store.rs:1509-1538 | what the writer produces is such a text with the flag at one |
| `DeviceStore.Device.Register` | crypto-core/src/store.rs:573-586 | lists a peer once, drops an identity too long for its prefix |
| `DeviceStore.Device.Forget` | crypto-core/src/store.rs:588-598 | unlists the peer and empties its session |
| `DeviceStore.Device.Initiate` | crypto-core/src/store.rs:532-566 | performs session initiation, whose meaning is `DeviceLaws.InitiateMeaning`, or changes nothing |
| `DeviceStore.Device.InstallSender` | crypto-core/src/store.rs:626-668 | stores the sender key and notes it in the index |
| `DeviceStore.Device.Publish` | crypto-core/src/store.rs:466-525 | files three fresh keys under the next ids, which skip zero on wrap-around |
| `DeviceLaws.InitiateMeaning` | crypto-core/src/store.rs:532-566 | a session is initiated exactly when the bundle decodes to the identity asked for and libsignal accepts it; that session is stored, that identity pinned, the peer listed, and nobody else's session or pin moves |
| `DeviceLaws.ForgetMeaning` | crypto-core/src/store.rs:588-598 | the peer is unlisted with no live session; everyone else keeps listing, session and pin |
| `DeviceLaws.RegisterMeaning` | crypto-core/src/store.rs:573-584 | the identity is listed once and last, exactly if it fits its prefix |
| `DeviceLaws.EncryptMeaning` | crypto-core/src/store.rs:811-866 | encrypting needs a live session and replaces that one only |
| `DeviceLaws.DecryptMeaning` | crypto-core/src/store.rs:1000-1051 | decrypting stores the session, pins the sender and removes exactly the one-time key it spent |
| `DeviceLaws.PublishMeaning` | crypto-core/src/store.rs:466-525 | the three keys are found under the ids the counters showed, every other key is kept, each counter is at the next id |
| `DeviceLaws.NextIdMeaning` | crypto-core/src/store.rs:1424-1427 | one more, and one after the largest |
| `DeviceLaws.InstallSenderMeaning` | crypto-core/src/store.rs:626-740 | a sender key is stored for its sender and id only, and indexed exactly if the identity fits |
| `DeviceLaws.AdvanceSenderMeaning` | crypto-core/src/store.rs:676-718 | advancing a chain needs the chain |
| `DeviceStore.InitiateInv` | crypto-core/src/store.rs:532-566 | session initiation keeps the index and store in agreement |
| `DeviceStore.RegisterInv` | crypto-core/src/store.rs:573-585 | registration keeps the invariant |
| `DeviceStore.ForgetInv` | crypto-core/src/store.rs:588-597 | forgetting a peer keeps the invariant |
| `DeviceStore.InstallSenderKeyInv` | crypto-core/src/store.rs:626-740 | a sender key whose identity fits the prefix keeps index and store in agreement |
| `DeviceStore.OversizedSenderKeyIsNotIndexed` | crypto-core/src/store.rs:650-740 | an identity past 65535 bytes leaves a stored key the index does not name |
| `DeviceStore.DecryptInv` | crypto-core/src/store.rs:978-1051 | a decryption from a listed peer keeps the invariant |
| `SnapshotIo.Serialize` | crypto-core/src/store.rs:1093-1223 | the writer produces the layout, and no length prefix overflows on a reachable store |
| `SnapshotIo.CollectSessions` | crypto-core/src/store.rs:1162-1177 | gathers exactly the non-empty sessions of the listed peers, in order |
| `SnapshotIo.CollectSenders` | crypto-core/src/store.rs:1197-1214 | gathers exactly the indexed sender keys that are stored |
| `SnapshotIo.Deserialize` | crypto-core/src/store.rs:1225-1417 | the cursor-driven loader is the loading function, for every byte string |
| `SnapshotIo.KeepSession` | crypto-core/src/store.rs:1299-1359 | a damaged session record costs its peer and not the store |
| `SnapshotLaws.SnapshotRoundTrip` | crypto-core/src/store.rs:1093-1417 | loading a snapshot of a reachable store succeeds and restores everything but empty sessions, for any key order |
| `SnapshotLaws.SecondVersionLoads` | crypto-core/src/store.rs:1225-1417 | the version-2 layout loads as the same store without sender keys |
| `SnapshotLaws.FirstVersionLoads` | crypto-core/src/store.rs:1225-1383 | the version-1 layout loads as the same store without certificate and sender keys |
| `SnapshotLaws.TrustedPeersAreIntact` | crypto-core/src/store.rs:1280-1365 | for any blob that loads, trusted peers are the listed ones minus those named in a skipped record, and each with a record has its session stored and its own identity pinned |
| `SnapshotGrammar.LoadIff` | crypto-core/src/store.rs:1225-1417 | the loader accepts exactly the snapshots of versions one to three; any identity, key, certificate or sender key that does not parse, any count past the end and any truncation refuses the blob, and only session records may be damaged |
| `SnapshotGrammar.SectionIff` | crypto-core/src/store.rs:1674-1682 | a counted section is read exactly from its count and that many element texts |
| `SnapshotLaws.ReloadInv` | crypto-core/src/store.rs:1225-1417 | a reloaded store satisfies the invariant again |
| `StoreRuns.StepInv` | crypto-core/src/store.rs:532-1417 | every public operation keeps the invariant: sends and receives through the sealed pipeline on any bytes, reloads included |
| `StoreRuns.StepPins` | crypto-core/src/store.rs:532-1417 | every operation keeps every pinned identity the one its address names |
| `StoreRuns.LoadedPins` | crypto-core/src/store.rs:1335-1359 | whatever bytes load, the pins they load are right |
| `StoreRuns.EveryRunIsSafe` | crypto-core/src/store.rs:532-1417 | in every run from a fresh store, whatever envelopes arrive, each live session is listed, the sender-key index names exactly the stored keys, everything fits its prefix, every pinned identity is the one its address names, and the snapshot loads back |
| `Padding.PadPlaintext` | crypto-core/src/store.rs:160-186 | refuses exactly the plaintexts over 262140 bytes, else pads to the least bucket that fits |
| `Padding.PaddingRoundTrip` | crypto-core/src/store.rs:160-208 | every plaintext up to the limit comes back |
| `Padding.UnpadIff` | crypto-core/src/store.rs:192-208 | unpadding finds exactly what stands behind a truthful length prefix |
| `Padding.SizeRevealsOnlyTheBucket` | crypto-core/src/store.rs:148-186 | plaintexts of one bucket have one padded size |
| `Padding.CtByteEq` | crypto-core/src/store.rs:1469-1479 | the branch-free comparison is 1 exactly on equality |
| `Padding.CtPeerContains` | crypto-core/src/store.rs:1487-1493 | the branch-free membership test is list membership |
| `SealedSender.CertificateStaysFresh` | crypto-core/src/store.rs:748-800 | a certificate in use has more than the refresh margin left and is the cached one |
| `SealedLaws.CertificateMeaning` | crypto-core/src/store.rs:748-795 | the cached certificate, untouched, exactly while it has more than seven days left, else one minted for thirty days and cached; none under a clock before 2020 |
| `SealedSender.ReadyCertificate` | crypto-core/src/store.rs:748-795 | the cached certificate if it has margin left, else a minted one, else the store unchanged |
| `SealedSender.SealSucceedsIff` | crypto-core/src/store.rs:811-866 | sealing succeeds exactly when the clock is sane, a certificate is at hand or mintable, the plaintext is at most 262140 bytes, the session is live and the primitives succeed |
| `SealedSender.SendInv` | crypto-core/src/store.rs:811-866 | sending keeps the store invariant and the peers, however far it gets |
| `SealedLaws.SendStepsOneSession` | crypto-core/src/store.rs:811-866 | a sealed message steps exactly the recipient's session, to the record libsignal gave |
| `SealedSender.Send` | crypto-core/src/store.rs:811-866 | the stateful send is the send function: certificate, padding, ratchet step, sealing |
| `SealedSender.Receive` | crypto-core/src/store.rs:920-1088 | the stateful receive is the receive function, on every path; `SealedLaws` says what that is |
| `SealedSender.OnlyTrustedEnvelopesAct` | crypto-core/src/store.rs:920-980 | exactly non-peers and failing certificates are bad signatures, those change nothing, and any change came from a listed peer with a valid certificate |
| `SealedLaws.ReceiveAcceptsIff` | crypto-core/src/store.rs:920-1088 | a message is accepted exactly when it passes every gate and decrypts to well-padded bytes or is a repetition, and then names the envelope's sender |
| `SealedLaws.ReceiveStepsIff` | crypto-core/src/store.rs:978-1051 | the ratchet steps exactly when every gate is passed and the ciphertext is new |
| `SealedLaws.AcceptedIdIsTheSenders` | crypto-core/src/store.rs:990-1063 | every accepted message, repeated or not, carries the id the sending end put in |
| `SealedLaws.RedeliveredMessageIsNamed` | crypto-core/src/store.rs:1052-1066 | an envelope delivered again is reported as the same message, with no bytes and no change |
| `SealedSender.OtherSessionsUntouched` | crypto-core/src/store.rs:978-1051 | no session but the sender's is touched |
| `SealedSender.ReceiveInv` | crypto-core/src/store.rs:920-1088 | receiving keeps the store invariant and the peers |
| `SealedSender.SealedMessageArrives` | crypto-core/src/store.rs:811-1088 | any plaintext up to 262140 bytes is sealed, and received with the same sender, message id and bytes |
| `SealedSender.CopyOrSizeOut` | crypto-core/src/lib.rs:262-279 | the bytes if they fit, else only the size, with the buffer unchanged |
| `SealedSender.PeekBoundsReceive` | crypto-core/src/store.rs:883-910 | the peeked sizes bound what the receive yields, so the guard after decryption cannot fire |
| `SealedLaws.PeekOfEnvelope` | crypto-core/src/store.rs:883-910 | the sizes advertised for an envelope of a given sender and ciphertext |
| `SealedSender.SealReceiveInto` | crypto-core/src/lib.rs:1196-1296 | too-small exactly when the peeked sizes exceed the buffers, and then the store is unchanged and the sizes are advertised; on success the buffers hold the message |
| `SealedSender.ReceiveWithRetry` | crypto-core/src/lib.rs:1224-1273 | a retry with the advertised sizes always fits and the ratchet steps at most once |
| `TokenSafety.MintSpends` | pizzini/pizzini/ChatStore.swift:2878-2897 | minting takes exactly the minted token out of the contact's reach |
| `TokenSafety.RollbackUndoesMint` | pizzini/pizzini/ChatStore.swift:2913-2927 | rolling back the latest mint restores the cursor exactly |
| `TokenSafety.StepKeepsInv` | pizzini/pizzini/ChatStore.swift:2878-2927 | for every token, every operation keeps: at most one send carries it, at most one contact may mint it, nobody may once it is carried, unless the operation makes it mintable again |
| `TokenSafety.TokensAreNeverReused` | pizzini/pizzini/ChatStore.swift:2266-2927 | over any interleaving of all operations, no token is carried twice and a carried index within the current chain's length is below the cursor, unless an earlier install made that very token mintable again |
| `TokenSafety.InstallKeepsInvIff` | pizzini/pizzini/ChatStore.swift:2962-2990 | installing a chain keeps the invariant of a token exactly when it does not make it mintable again |
| `TokenSafety.InstallIsSafeIff` | pizzini/pizzini/ChatStore.swift:2962-2990 | after an install, some later sends carry a token twice exactly when the install made it mintable again |
| `TokenSafety.GroupLegKeepsInv` | pizzini/pizzini/ChatStoreGroups.swift:664-731 | queueing a delayed group leg keeps token safety |
| `TokenSafety.FireKeepsInv` | pizzini/pizzini/ChatStoreGroups.swift:708-731 | firing a delayed leg later keeps token safety |
| `TokenSafety.NoticeCursorFollowsFrame` | pizzini/pizzini/ChatStore.swift:4830-4893 | an ACK moves the cursor, by one, exactly when its frame went out; likewise a read receipt |
| `TokenSafety.WalkCursorFollowsFrame` | pizzini/pizzini/ChatStore.swift:4741-4778 | so does each entry of the retry walk |
| `TokenSafety.TextBurnsIndex` | pizzini/pizzini/ChatStore.swift:2305-2423 | a text send gives its index back exactly when sealing failed |
| `TokenSafety.AttachmentNeverRunsDry` | pizzini/pizzini/ChatStore.swift:2607-2658 | once the up-front check passes no chunk finds the chain empty |
| `OutboundLaws.TextOutcome` | pizzini/pizzini/ChatStore.swift:2266-2423 | which frame, token, step and row a text leaves, in every case of sealing, session write and relays, and what it does not touch |
| `OutboundLaws.AttachmentShips` | pizzini/pizzini/ChatStore.swift:2607-2715 | with tokens for all, every chunk before the first that fails has its row, step and token and, where a relay was ready, its frame, in order; no chunk after it leaves anything |
| `OutboundLaws.ShortChainShipsNothing` | pizzini/pizzini/ChatStore.swift:2600-2621 | without tokens for all of it an attachment does nothing |
| `OutboundLaws.NoticeOutcome` | pizzini/pizzini/ChatStore.swift:4830-4893 | an ACK or receipt goes out under the cursor's token when sealed, saved and relayed, and only then is the token spent |
| `OutboundLaws.RefreshOutcome` | pizzini/pizzini/ChatStore.swift:3022-3060 | a refresh request spends its token whatever follows, and goes out when sealed, saved and relayed |
| `OutboundLaws.SeedOutcome` | pizzini/pizzini/ChatStore.swift:3062-3134 | a chain seed goes out without a token |
| `OutboundLaws.RetryDue` | pizzini/pizzini/Outbox.swift:166-174 | a row is due while unsettled, with fewer than ten retries, after thirty seconds and after a minute for each retry made |
| `OutboundLaws.UserRetryOutcome` | pizzini/pizzini/ChatStore.swift:861-896 | a user's retry resends the stored bytes under the cursor's token and counts |
| `OutboundLaws.WalkTreatsEach` | pizzini/pizzini/ChatStore.swift:4741-4778 | every row of a walk is resent once if due, stocked and relayed, and every other row is left alone |
| `OutboundLaws.ExpireMeaning` | pizzini/pizzini/ChatStore.swift:4733-4739 | a row fails exactly if unsettled and older than its time to live |
| `OutboundLaws.CollectMeaning` | pizzini/pizzini/ChatStore.swift:4780-4791 | a row is dropped exactly if delivered, or else failed, more than a day before |
| `OutboundLaws.AckOutcome` | pizzini/pizzini/ChatStore.swift:4690-4722 | an ACK marks a row delivered exactly if it comes from the row's recipient |
| `OutboundLaws.GroupControlOutcome` | pizzini/pizzini/ChatStoreGroups.swift:2191-2310 | a group control frame takes token and step and goes out if a relay is ready, the disk not asked |
| `OutboundLaws.GroupLegOutcome` | pizzini/pizzini/ChatStoreGroups.swift:664-707 | a group leg is sealed, stored and queued under its token |
| `OutboundLaws.FireOutcome` | pizzini/pizzini/ChatStoreGroups.swift:708-731 | a queued leg makes one attempt, on the wire if a relay is ready |
| `OutboundLaws.FireMarksRow` | pizzini/pizzini/ChatStoreGroups.swift:708-731 | its row is marked relayed exactly if it went out and is still there |
| `OutboundLaws.ChainOutcome` | pizzini/pizzini/ChatStore.swift:2962-2990 | an installed chain starts at its first index, a dropped one is gone, no other contact notices |
| `OutboundLaws.RestartOutcome` | pizzini/pizzini/ChatStore.swift:3895-3923 | a restart reads the ratchet back from disk, and a session write that worked is read back whole |
| `RatchetSafety.DirectStepKeeps` | pizzini/pizzini/ChatStore.swift:2305-2423 | every one-to-one operation and restart keeps: each ciphertext sent or still waiting has its step on disk, and one step has one ciphertext |
| `RatchetSafety.StepsAreNeverShared` | pizzini/pizzini/ChatStore.swift:2305-2720 | over every run of one-to-one operations with any failures and restarts, two frames for one peer at one step are the same ciphertext and each frame's step is on disk |
| `RatchetSafety.NoticeKeeps` | pizzini/pizzini/ChatStore.swift:3365-3430 | ACKs and receipts keep ratchet safety |
| `RatchetSafety.RefreshKeeps` | pizzini/pizzini/ChatStore.swift:3022-3060 | refresh requests keep ratchet safety |
| `RatchetSafety.SeedKeeps` | pizzini/pizzini/ChatStore.swift:3062-3134 | chain-seed deliveries keep ratchet safety |
| `RatchetSafety.RetryWalkKeeps` | pizzini/pizzini/ChatStore.swift:4729-4823 | the retry walk keeps ratchet safety |
| `RatchetRuns.StepOnce` | pizzini/pizzini/ChatStore.swift:2305-2720 | every operation but a restart, group control, legs and firing included, keeps every live step passed in memory and one ciphertext to a step |
| `RatchetRuns.RestartOnceIff` | pizzini/pizzini/ChatStore.swift:2346-2359 | a restart keeps that for a step exactly when it does not find it off disk |
| `RatchetRuns.SharedStepHasCause` | pizzini/pizzini/ChatStore.swift:2305-2720 | in every run of all operations a step is shared on the wire only if some earlier restart found that very step off disk |
| `RatchetRuns.RestartIsSafeIff` | pizzini/pizzini/ChatStore.swift:2346-2359 | after a restart, some later operations share a step exactly when the restart found it off disk |
| `RatchetRuns.GroupControlSafeIff` | pizzini/pizzini/ChatStoreGroups.swift:2191-2310 | a restart after a group control frame can lead to a shared step exactly when the frame went out |
| `RatchetRuns.GroupLegSafeIff` | pizzini/pizzini/ChatStoreGroups.swift:664-707 | a restart after queueing a group leg can exactly when something was sealed |
| `RatchetRuns.CrashSafeIff` | pizzini/pizzini/ChatStore.swift:2305-2402 | after a crash at any point of a text send and a restart, some later operations share a step exactly when the crash fell after the row was written and before the session or the row's failure mark was |
| `RatchetRuns.ChunkCrashSafeIff` | pizzini/pizzini/ChatStore.swift:2630-2708 | the same for a crash at any point of any chunk of an attachment |
| `RatchetRuns.UncrashedText` | pizzini/pizzini/ChatStore.swift:2305-2402 | the last crash point is the completed send |
| `RatchetRuns.CrashKeepsTokens` | pizzini/pizzini/ChatStore.swift:2305-2402 | token safety survives a crash at any point of a text send |
| `RatchetRuns.RowlessCrashIsHarmless` | pizzini/pizzini/ChatStore.swift:4850-4893 | a frame without a row may be cut short anywhere without a step ever being shared |
| `OutboxHonesty.RelayedMeansOnWire` | pizzini/pizzini/ChatStore.swift:2386-2402 | over every run that draws new message ids, group legs included, a row marked relayed has its bytes on the wire and a delayed leg finds its own bytes in its row |
| `OutboxHonesty.StepLegs` | pizzini/pizzini/ChatStoreGroups.swift:664-731 | every operation with new ids keeps each leg's row, if still there, holding the leg's bytes |
| `OutboundStore.ChatStore.MintDeliveryToken` | pizzini/pizzini/ChatStore.swift:2878-2897 | returns the cursor's token and advances it, or nothing exactly when there is no chain or it is spent |
| `OutboundStore.ChatStore.RollbackDeliveryToken` | pizzini/pizzini/ChatStore.swift:2913-2927 | undoes the latest mint, else does nothing |
| `OutboundStore.ChatStore.PersistSession` | pizzini/pizzini/ChatStore.swift:3895-3923 | on success the disk has the in-memory ratchet, on failure nothing changes |
| `OutboundStore.ChatStore.SendMessage` | pizzini/pizzini/ChatStore.swift:2266-2423 | performs the text-send step and keeps token and ratchet safety |
| `OutboundStore.ChatStore.ShipPreparedAttachment` | pizzini/pizzini/ChatStore.swift:2581-2720 | the chunk loop performs the attachment step, stopping at the first failure, and keeps both |
| `OutboundStore.ChatStore.EmitNotice` | pizzini/pizzini/ChatStore.swift:4830-4893 | performs the ACK or receipt step and keeps both |
| `OutboundStore.ChatStore.SendRefreshRequest` | pizzini/pizzini/ChatStore.swift:3022-3060 | performs the refresh-request step and reports success as the source does |
| `OutboundStore.ChatStore.SendSeedDelivery` | pizzini/pizzini/ChatStore.swift:3062-3134 | performs the seed-delivery step and reports success as the source does |
| `OutboundStore.ChatStore.RetryByUser` | pizzini/pizzini/ChatStore.swift:861-896 | performs the user-retry step and keeps both |
| `OutboundStore.ChatStore.MarkExpired` | pizzini/pizzini/ChatStore.swift:4733-4739 | the loop fails exactly the expired rows |
| `OutboundStore.ChatStore.DropStale` | pizzini/pizzini/ChatStore.swift:4780-4791 | the loop drops exactly the rows delivered, or else failed, more than 24 hours ago |
| `OutboundStore.ChatStore.RunRetryWalk` | pizzini/pizzini/ChatStore.swift:4729-4790 | expires, retries in order, drops the rows settled more than 24 hours ago, and keeps both |
| `DecoyLimiter.Decoys.Emit` | pizzini/pizzini/ChatStore.swift:2169-2198 | the stateful gate is the decision function |
| `DecoyLimiter.DecideKeepsInv` | pizzini/pizzini/ChatStore.swift:2169-2198 | one request keeps admitted decoys spaced and cooled down |
| `DecoyLimiter.DecoysAreRateLimited` | pizzini/pizzini/ChatStore.swift:2143-2198 | for any requests under a non-decreasing clock and any budget, no 60-second window exceeds it and one peer's decoys are six hours apart |
| `DecoyLimiter.AdmittedIff` | pizzini/pizzini/ChatStore.swift:2169-2198 | a request is admitted exactly when its peer was admitted none in six hours and fewer than the budget were in sixty seconds |
| `Reconnect.Reconnector.OnTransition` | pizzini/pizzini/ChatStore.swift:1572-1640 | performs the transition step |
| `Reconnect.Reconnector.OnForceReconnect` | pizzini/pizzini/ChatStore.swift:1651-1667 | performs the manual-reconnect step |
| `Reconnect.StepKeepsInv` | pizzini/pizzini/ChatStore.swift:348-391 | every event keeps: backoff is min(5·2^streak, 60), manual is required iff the streak is at least 5, no retry is pending then |
| `Reconnect.EveryRunIsBounded` | pizzini/pizzini/ChatStore.swift:1572-1667 | in every run that holds, and the retries since a reset are a prefix of 5, 10, 20, 40 seconds |
| `Reconnect.TransitionMeaning` | pizzini/pizzini/ChatStore.swift:1572-1640 | what reaching a relay, a first failure, a repeated one and any other transition do |
| `Reconnect.OtherEventsMeaning` | pizzini/pizzini/ChatStore.swift:1600-1667 | a retry that fires dials exactly if still failed; a manual reconnect forgets the failures and dials unless connected |
| `Reconnect.StreakCountsFailures` | pizzini/pizzini/ChatStore.swift:1572-1667 | in every run the streak is the number of failures since the last reset |
| `Chunking.Cut` | pizzini/pizzini/ChatStore.swift:2509-2527 | refuses exactly past the cap, else the chunks concatenate to the file, all but the last full, the empty file being one empty chunk |
| `Chunking.CutIsUnique` | pizzini/pizzini/ChatStore.swift:2509-2527 | there is only one such cut |
| `GroupKeySafety.DrainKeepsMid` | pizzini/pizzini/GroupApply.swift:151-400 | whatever an apply drains, a removed holder of the current key leaves a rotation or a clear pending |
| `GroupKeySafety.PostMutationKeeps` | pizzini/pizzini/ChatStoreGroups.swift:1988-2055 | the hook re-establishes that only active members hold the current key |
| `GroupKeySafety.EnsureKeeps` | pizzini/pizzini/ChatStoreGroups.swift:2068-2100 | sending the key to members who lack it keeps the invariant |
| `GroupKeySafety.StepKeeps` | pizzini/pizzini/ChatStoreGroups.swift:77-2100 | every handler keeps it, except a rotation that sends the key to someone while the invitation is pending |
| `GroupKeySafety.StepRecovers` | pizzini/pizzini/ChatStoreGroups.swift:1988-2055 | from any chain, sound or not, every handler keeps it or starts a sound one, save that same rotation |
| `GroupKeySafety.CurrentKeyStaysInside` | pizzini/pizzini/ChatStoreGroups.swift:77-2272 | between handlers of every run, `mySkdmRecipients` names only peers the current key was sealed to, and everyone it was sealed or sent to is an active member unless this very chain was started by a rotation that sent its key out while the invitation was pending |
| `GroupKeySafety.RecordFollowsSealing` | pizzini/pizzini/ChatStoreGroups.swift:77-2272 | in every run, with no proviso, the recipient record follows the sealing of the current key |
| `GroupKeySafety.RemovalStartsFreshChain` | pizzini/pizzini/GroupApply.swift:532-569 | removing a member starts a new chain whose key that member is not sent |
| `GroupKeySafety.HookReachesEveryone` | pizzini/pizzini/ChatStoreGroups.swift:1988-2100 | when every seal succeeds the hook leaves no other active member without the key |
| `GroupKeySafety.BroadcastsReachEveryone` | pizzini/pizzini/ChatStoreGroups.swift:1259-1363 | so do a rotation, a resend and an acceptance, on the wire when a relay is ready |
| `GroupKeySafety.BroadcastHonestIff` | pizzini/pizzini/ChatStoreGroups.swift:2230-2272 | the recipient record stays within the peers actually sent the key exactly when a relay is ready or nobody new is sealed to |
| `GroupKeySafety.RecordedButNeverSent` | pizzini/pizzini/ChatStoreGroups.swift:1259-1312 | rotating with no relay records members who were sent nothing, and a later key exchange does not repair it |
| `GroupKeySafety.RecordIsHonestUnlessOffline` | pizzini/pizzini/ChatStoreGroups.swift:2230-2272 | in every run the record names only peers sent the current key, unless some handler had no relay ready while this very chain was in place |
| `GroupKeySafety.RotateWhileInvitedIff` | pizzini/pizzini/ChatStoreGroups.swift:1259-1312 | after a rotation while invited, some incoming operations leave a removed member with the current key exactly when the rotation sent the key to someone |
| `GroupKeySafety.RotateWhileInvitedLeaks` | pizzini/pizzini/ChatStoreGroups.swift:2021-2028 | every member sent that key, the last admin included, can be removed and keep it |
| `GroupKeySafety.MutateGoverned` | pizzini/pizzini/GroupApply.swift:429-598 | every accepted operation leaves an active admin and at most fifty active members |
| `GroupKeySafety.GroupStaysGoverned` | pizzini/pizzini/GroupApply.swift:403-598 | so does every run |
| `GroupLaws.OutsidersChangeNothing` | pizzini/pizzini/GroupApply.swift:403-421 | an operation of anyone but an active admin changes nothing; a member may only announce its own key |
| `GroupLaws.AdminOperationApplies` | pizzini/pizzini/GroupApply.swift:403-598 | an active admin's operation applies exactly when its target allows it |
| `GroupLaws.MutateMeaning` | pizzini/pizzini/GroupApply.swift:429-598 | what an applied operation does to its target's row, and to no other |
| `GroupLaws.RowsChangeByAuthority` | pizzini/pizzini/GroupApply.swift:403-598 | in every state a member's row changes only by an operation of someone who was an active admin just before it, or by that member's enrolment, which moves only its status |
| `GroupLaws.EffectsHaveCause` | pizzini/pizzini/GroupApply.swift:532-569 | a rotation is asked for exactly if someone else was removed while we were a member, a clear exactly if we were removed |
| `GroupLaws.HookMeaning` | pizzini/pizzini/ChatStoreGroups.swift:1988-2100 | where the hook leaves our chain and exactly whom it seals the key to, in every case |
| `GroupLaws.SendKeyMeaning` | pizzini/pizzini/ChatStoreGroups.swift:1259-1363 | a rotation seals a new key, a resend the current one, to exactly the other members it can |
| `GroupLaws.InviteMeaning` | pizzini/pizzini/ChatStoreGroups.swift:206-273 | an invitation adds a row exactly for an admin inviting a contact who is not a member, while there is room |
| `GroupLaws.AdministrationMeaning` | pizzini/pizzini/ChatStoreGroups.swift:286-436 | removal, promotion and demotion happen exactly for an admin and a member, and never to the last admin |
| `GroupLaws.CreateMeaning` | pizzini/pizzini/ChatStoreGroups.swift:77-196 | when a group is created, who is in it as what, and whom our key is sealed to |
| `GroupLaws.NoRemovalNoRotation` | pizzini/pizzini/ChatStoreGroups.swift:1988-2055 | operations that remove nobody leave our chain in place |
| `GroupLaws.InvitationMeaning` | pizzini/pizzini/ChatStoreGroups.swift:1569-1655 | an invitation is taken up exactly when it lists us, comes from an active admin of its list and is within the limit |
| `GroupLaws.AcceptMeaning` | pizzini/pizzini/ChatStoreGroups.swift:444-463 | accepting clears the invitation and leaves us with a chain; otherwise nothing happens |
| `GroupLaws.LeaveMeaning` | pizzini/pizzini/ChatStoreGroups.swift:471-570 | declining drops exactly an open invitation; leaving drops the group after a last chain |
| `GroupLaws.KeyMeaning` | pizzini/pizzini/ChatStoreGroups.swift:1702-1781 | a member's key is taken exactly from an active member, and enrols it |
| `GroupKeyStore.GroupStore.BroadcastKey` | pizzini/pizzini/ChatStoreGroups.swift:2230-2272 | the loop over recipients is one broadcast |
| `GroupKeyStore.GroupStore.RunPostMutation` | pizzini/pizzini/ChatStoreGroups.swift:1988-2055 | performs the hook: clear, pending, rotation or reciprocal key |
| `GroupKeyStore.GroupStore.HandleGroupOp` | pizzini/pizzini/ChatStoreGroups.swift:1381-1500 | applies, drains, runs the hook once and keeps the invariant; `GroupLaws` says which operations apply |
| `GroupKeyStore.GroupStore.InviteToGroup` | pizzini/pizzini/ChatStoreGroups.swift:206-273 | performs the invitation step, refusing a peer who is not a contact, and keeps the invariant |
| `GroupKeyStore.GroupStore.RemoveFromGroup` | pizzini/pizzini/ChatStoreGroups.swift:286-326 | performs the removal step and keeps the invariant |
| `GroupKeyStore.GroupStore.AdministerGroup` | pizzini/pizzini/ChatStoreGroups.swift:334-436 | performs a local rename, promotion or demotion, under the same authority, and keeps the invariant |
| `GroupKeyStore.GroupStore.HandleKeyDistribution` | pizzini/pizzini/ChatStoreGroups.swift:1755-1781 | enrols the sender, answers with our key and keeps the invariant |
| `GroupKeyStore.GroupStore.RotateMyGroupChain` | pizzini/pizzini/ChatStoreGroups.swift:1259-1312 | performs the rotation step in every state, and keeps the invariant unless it sends the key out while the invitation is pending |
| `GroupKeyStore.GroupStore.ResendMyKeys` | pizzini/pizzini/ChatStoreGroups.swift:1324-1363 | performs the resend step and keeps the invariant |
| `GroupKeyStore.GroupStore.AcceptGroupInvitation` | pizzini/pizzini/ChatStoreGroups.swift:444-463 | clears the flag, enrols our chain unless one exists, and keeps the invariant |
| `GroupKeyStore.GroupStore.CreateNewGroup` | pizzini/pizzini/ChatStoreGroups.swift:77-196 | creates the group, or refuses exactly when no relay is ready, the name is empty, the cap is passed, an invitee repeats, is not a contact or is us |
| `GroupBinding.InstallKeepsDisjoint` | pizzini/pizzini/ChatStoreGroups.swift:1702-1781 | installing a key keeps each sender's ids bound in at most one group |
| `GroupBinding.GrowthKeepsDisjoint` | pizzini/pizzini/Group.swift:502-522 | so does any install whatever it evicts from the history |
| `GroupBinding.RotateKeepsDisjointIff` | pizzini/pizzini/GroupApply.swift:457-468 | a rotation operation does exactly when its id collides with no other group |
| `GroupBinding.StepKeepsUniqueIff` | pizzini/pizzini/ChatStoreGroups.swift:1676-1781 | any event keeps a sender's id in at most one group exactly unless it is that sender's colliding rotation to that id |
| `GroupBinding.RunKeepsUnique` | pizzini/pizzini/ChatStoreGroups.swift:1676-1781 | along every run a sender's id stays bound in at most one group, superseded ids included, unless that sender, a member of a known group, rotated to that id while it was bound in another |
| `GroupBinding.AtMostOneGroupAdmits` | pizzini/pizzini/ChatStoreGroups.swift:1825-1839 | disjoint or not, at most one group admits a message |
| `GroupBinding.RecheckIsRedundantIff` | pizzini/pizzini/ChatStoreGroups.swift:1825-1839 | the recheck never rejects what the per-group gate accepts exactly when bindings are disjoint |
| `GroupBinding.GateDecidesAlone` | pizzini/pizzini/ChatStoreGroups.swift:1789-1839 | along every run admission of a sender and id implies membership and the per-group gate, and is implied by them unless that sender collided on that id |
| `GroupBinding.CollidingRotateSilencesBoth` | pizzini/pizzini/GroupApply.swift:457-467 | a colliding rotation silences the id in both groups |
| `GroupBinding.RememberedFor` | pizzini/pizzini/Group.swift:498-532 | the general law: after k rotations to new ids the first is accepted exactly while k is within what its place in the history leaves |
| `GroupBinding.RemembersFourRotations` | pizzini/pizzini/Group.swift:498-532 | an id new to the history is accepted for exactly four further rotations to new ids |
| `GroupBinding.ReusedIdAgesEarly` | pizzini/pizzini/Group.swift:502-510 | an id already in the history is accepted for four rotations less one for each entry after its old place |
| `GroupBinding.RunTidy` | pizzini/pizzini/Group.swift:498-522 | in every run every history stays within its depth and names no id twice |
| `GroupBinding.BindMeaning` | pizzini/pizzini/Group.swift:502-522 | binding moves one sender's id and keeps the one it replaces; every other sender is as before |
| `GroupBinding.MembershipMeaning` | pizzini/pizzini/GroupApply.swift:499-560 | a removed or dropped sender is admitted under no id, one added again starts with none, and nobody else notices |
| `GroupBinding.InstallMeaning` | pizzini/pizzini/ChatStoreGroups.swift:1702-1781 | a key is installed exactly for a member of a known group whose id is free, and changes that group and id only |
| `GroupBinding.Bindings.HandleKeyDistribution` | pizzini/pizzini/ChatStoreGroups.swift:1702-1781 | installs exactly for a member of a known group whose id does not collide, keeps disjointness, and what it installs is admitted |
| `GroupBinding.Bindings.RecordSuperseded` | pizzini/pizzini/Group.swift:502-511 | appends the old id once and drops the oldest past the depth |
| `GroupBinding.Bindings.FindCollision` | pizzini/pizzini/ChatStoreGroups.swift:1676-1693 | finds a binding of the id in another group exactly when there is one |
| `ContactCard.Validate` | pizzini/pizzini/ContactCard.swift:83-178 | accepts exactly the texts of the grammar within the input bounds, with the card they denote |
| `ContactCard.ParseMeaning` | pizzini/pizzini/ContactCard.swift:110-178 | the parser finds a card exactly when the text is one, and that card |
| `ContactCard.DecodeHex` | pizzini/pizzini/ContactCard.swift:145-154 | the two-character loop is the pair decoder |
| `ContactCard.PairMeaning` | pizzini/pizzini/ContactCard.swift:147-154 | a pair is two digits, or a sign and one digit |
| `ContactCard.PrintThenValidate` | pizzini/pizzini/ContactCard.swift:20-178 | printing then validating a well-formed card returns it and nothing else |
| `ContactCard.ReprintIsStable` | pizzini/pizzini/ContactCard.swift:20-178 | for every accepted input, the parsed card is well formed and its re-print validates to it |
| `ContactCard.AcceptedIdentityText` | pizzini/pizzini/ContactCard.swift:135-154 | an accepted identity text is all hexadecimal digits exactly when it holds no sign |
| `ContactCard.SignedIdentityIsAccepted` | pizzini/pizzini/ContactCard.swift:135-154 | signs do occur in accepted identity texts |
| `Hashcash.ZeroBitsMeaning` | crypto-core/src/hashcash.rs:58-69 | at least k leading zero bits is exactly a big-endian value below 2^(8·len−k) |
| `Hashcash.LeadingZeroBits` | crypto-core/src/hashcash.rs:58-69 | the counting loop decides that for every k |
| `Hashcash.Verify` | crypto-core/src/hashcash.rs:50-56 | decides whether challenge and nonce hash below the threshold |
| `Hashcash.Compute` | crypto-core/src/hashcash.rs:35-46 | returns the least passing nonce, and terminates whenever some 64-bit nonce passes |
| `Hashcash.ImpossibleDifficulty` | crypto-core/src/hashcash.rs:35-46 | a difficulty past the hash width has no solution |

## Left out

- libsignal, BLAKE3, Argon2id, ML-KEM and XEd25519: parameters here, with the assumptions each theorem names (records re-parse to themselves, an opened sender is named by its key's own serialization, decryption yields no more bytes than its input, the two ends agree on one envelope).
- Null checks, zeroization and timing of the C interface; `inner_mut`, which hands out the raw libsignal store.
- Sizes past 32 bits: snapshots and counts are assumed to fit (`Fits` in `Snapshot`); a length prefix overflow is therefore shown unreachable rather than modelled as an abort.
- Hashcash.LeadingZeroBits: does not model overflow of the 32-bit count, which needs half a gigabyte of zero bytes.
- Deleting and re-pairing a contact, which replaces its session and with it the meaning of a step.
- The receiving half of the ratchet: a ratchet step here is a sending step, and receiving neither repeats nor skips one.
- Outbox and contact rows that fail to reach SQLCipher: row writes are taken as written through, as the app treats them.
- Crash points inside retries, which seal nothing, and inside group operations; each of those is one step.
- Signature, epoch, parent-digest and member-root gates of group operations, and how the pending queue is filled: an apply is any sequence of operations that passed them, in which each still meets authorisation and its own checks.
- Own group operations are taken to apply and to drain nothing, since no queued operation can name a parent just signed; key creation and signing succeed.
- Bootstrap snapshots that list one identity twice: members are a map from identity to row.
- OutboxHonesty.RelayedMeansOnWire: assumes each message id an operation draws is new; ids are 16 random bytes.
- RatchetSafety.StepsAreNeverShared: is about one-to-one traffic; `RatchetRuns.SharedStepHasCause` covers group fan-out, whose frames do not wait for the session write.
- Message text, files, thumbnails, receipts' contents and the chat log: a body is opaque bytes.
- Decoding of invitations and group envelopes, group message fan-out contents, attachment reassembly, search, settings, views, Tor, push, the transparency log, build scripts and the C header.
- Unicode: a Swift character is a code point here, and whitespace and compatibility normalisation are parameters.
- Distinct error reasons where only success and failure decide what happens next.
