# popcorn: verified models of the secure channel, session placement, keyboard input and socket lifecycles

A Dafny model of four components of popcorn, the remote-browser service, and proofs of what they promise
over whole runs. `dafny verify dfyconfig.toml` checks the project.

- **Noise IK channel** (`packages/trusted-liveview/noise.js`). `SymbolicCrypto` gives hash, HMAC, Diffie-Hellman
  and AEAD as injective symbolic values over real byte sequences; a box opens only under its own key, nonce and
  associated data. `Ciphers`, `Handshake` and `Peers` are the two handshake sides of
  `Noise_IK_25519_ChaChaPoly_SHA256`, and `NoiseReference` is the same handshake written a second time over the
  primitives alone, after the Noise Protocol Framework and RFC 5869; `NonceDiscipline` follows every key and nonce; `RecordLayer`,
  `NoiseChannels` and `Session` are fragmentation, the asynchronous receive pipeline and delivery over an
  arbitrary network; `Base64Url` is the text encoding of section 5 of RFC 4648.
- **Placement and deadlines** (`services/`). `Placement` (control plane), `Allocation` (pool manager),
  `TtlExtension` (the three-store saga) and `TtlController` are transition systems whose steps are the awaits, with
  a failure possible at each; `RegionRefinement` joins the first two; `AnalyticsCache` is the stale-while-refresh
  cache with its overlapping loads.
- **Keyboard** (`images/minimal-vnc-desktop/kbd/`). `Keystrokes`, `AutoSpace`, `ValueDiff` and `EditContext` turn
  soft-keyboard events into Backspaces and text for a remote field edited at its end.
- **Sockets** (same directory). `Signal` is the focus socket with its HTTP bridge, `ControlMux` the control
  multiplexer, `FbTargets` the framebuffer arithmetic over the reals.

Components that change state step by step are written twice: a step function on values, about which the lemmas
quantify over every run, and a class with the source's fields and loops whose methods are proved to take exactly
those steps. For each component some lemmas say what never happens and others what an operation answers, so that
neither a step that does too much nor one that does nothing satisfies them.

Where a promised property does not hold of the code, the first lemma named below is an input or a run that fails and
the second the exact condition:

- ids containing NUL can share a prologue (`PrologueCollidesOnNulIds`; an id pair is the only one with its prologue
  exactly when `PrologueIdentifiesIff` says so of the pair itself);
- a lost reply, a lost acknowledgement or a failed compensation can leave a session placed twice or a row without a
  region (`LostReplyPlacesTwice`, `LostAckOrphansTheRow`; `SettledPlacement`, `PlacementHoldsIff`);
- a fleet request that throws after taking a server strands it (`ThrowingRequestStrands`; `FailedCallsGiveBack`);
- a kill deletes by id whatever record is there (`OverlappingKillsLoseARecord`; `KillRemovesOther`, and
  `UndoingDeletesOwn` for the kills the control plane sends to undo an allocation), and an extension writes its record
  back even after a kill (`ExtensionRevivesDeadRecord`; `ExtensionRewritesIff`);
- a write that takes effect and then throws, a Redis rollback that fails or a lost reply can leave a later store ahead
  of an earlier one after a failed extension (`FaultsBreakTheOrder`; `SagaOrderIff`);
- a composition that ends with data in mirror mode types its text a second time (`MirrorCompositionDoubles`), a delete
  that shrinks nothing or a deferred Backspace on a non-empty buffer deletes too much (`DeletesOnMirroredText`), and a
  space stripped in mid-composition is lost (`StrippedWhileComposing`); exactly when: `StepInStepIff`;
- a re-composed word of another length is not replaced cleanly (`ShorterRecomposeDuplicates`; `RecomposeReplacesIff`);
- counting code units over-deletes astral characters outside the emoji ranges, contrary to the comment above
  `backspaceCountFor` (`AstralIdeographOverDeletes`; `CountIsRightIff`), and without a segmenter emoji as well
  (`FallbackOverDeletesEmoji`; `FallbackIsRightIff`);
- a virtual socket can receive a message before its `onopen` (`MessageMayPrecedeOnOpen`; `MessagePrecedesOnOpenIff`);
- a fractional framebuffer cap can be exceeded or drift (`FractionalCapExceeded`, `FractionalCapDrifts`,
  `FractionalCapShortens`; `CssFitsIff`, `ClipReappliesIff`, `FillReappliesIff`).

## Model

| member | source | states |
|---|---|---|
| Ciphers.NonceFor | packages/trusted-liveview/noise.js:49-54 | refuses exactly the counters that are not safe integers; otherwise the loop yields four zero bytes and the counter little-endian |
| Ciphers.SafeIntegerBoundDecides | packages/trusted-liveview/noise.js:50 | the 2^56 comparison never decides; the largest usable counter is 2^53 - 1 |
| Ciphers.LittleEndianRoundTrip | packages/trusted-liveview/noise.js:52 | reading the bytes back gives the number, for every width that holds it |
| Ciphers.NonceDecodes | packages/trusted-liveview/noise.js:49-54 | the last eight nonce bytes decode to the counter, the first four are zero |
| Ciphers.NonceInjective | packages/trusted-liveview/noise.js:49-54 | two usable counters with one nonce are equal |
| Ciphers.DecryptEncrypt | packages/trusted-liveview/noise.js:66-81 | a peer in the same state opens every box and both counters move together; a box is the plaintext plus 16 bytes and at most 65535 |
| Ciphers.EncryptOkIff | packages/trusted-liveview/noise.js:66-73 | sealing fails exactly on a plaintext over 65519 bytes or a counter past 2^53 - 1, a keyless state passes text through, and the counter moves exactly with a box |
| Ciphers.CipherState.EncryptWithAd | packages/trusted-liveview/noise.js:66-73 | one step of the cipher on values; an error leaves key and nonce unchanged |
| Ciphers.CipherState.DecryptWithAd | packages/trusted-liveview/noise.js:74-81 | one step of the cipher on values; a failed decrypt leaves the nonce unchanged |
| Ciphers.DecryptAndHashInverts | packages/trusted-liveview/noise.js:92-93 | reading back what an identical symmetric state wrote leaves both states identical |
| Ciphers.SymmetricState.Write | packages/trusted-liveview/noise.js:92 | encryptAndHash: new hash, cipher and output are those of the value function |
| Ciphers.SymmetricState.Read | packages/trusted-liveview/noise.js:93 | decryptAndHash, including the unchanged state after a failed open |
| Ciphers.SymmetricState.MixKeyWith | packages/trusted-liveview/noise.js:91 | chaining key and fresh cipher at nonce zero are those of the value function, which `MixKeyIsHkdf` pins to HMAC |
| Ciphers.SymmetricState.SplitKeys | packages/trusted-liveview/noise.js:94 | two distinct fresh ciphers carrying the two HKDF outputs in order |
| NoiseReference.MixKeyIsHkdf | packages/trusted-liveview/noise.js:91 | the new chaining key is block 1 and the cipher key block 2 of the HKDF expansion of RFC 5869 from the extraction HMAC(chaining key, input) |
| NoiseReference.SplitIsHkdf | packages/trusted-liveview/noise.js:94 | the two transport keys are blocks 1 and 2 of the extraction from the chaining key and no input, in that order |
| Handshake.ChannelsNeverShareAPrologue | packages/trusted-liveview/noise.js:101-105 | an `rfb` prologue is never a `control` prologue, whatever the ids |
| Handshake.SamePrologueIff | packages/trusted-liveview/noise.js:104 | two prologues are equal exactly when channels and the NUL-joined ids are |
| Handshake.PrologueIdentifiesIff | packages/trusted-liveview/noise.js:101-105 | an accepted prologue belongs to one pair of ids and one channel if and only if the session id has no NUL after its first octet and the pod uid none before its last |
| Handshake.NulFreeIdsIdentify | packages/trusted-liveview/noise.js:101-105 | two NUL-free ids share their prologue with no other ids whatever |
| Handshake.PrologueInjective | packages/trusted-liveview/noise.js:101-105 | prologues determine both ids and the channel when session ids, or pod uids, carry no NUL |
| Handshake.PrologueCollidesOnNulIds | packages/trusted-liveview/noise.js:103-104 | two different accepted id pairs with one prologue |
| Handshake.StartShape | packages/trusted-liveview/noise.js:118-130 | a well-formed initiator always produces a message of 96 or 128 bytes: ephemeral, sealed static key, sealed payload |
| Handshake.AcceptIffMatching | packages/trusted-liveview/noise.js:159-178 | the responder accepts an honest initiator's message if and only if prologue, pod key pair, client key pair and payload are the same on both sides |
| Handshake.Agreement | packages/trusted-liveview/noise.js:118-178 | matching peers finish: 48-byte reply accepted, equal transcripts, each send key and nonce the other's receive key and nonce, nonces zero |
| Handshake.ResponseBinding | packages/trusted-liveview/noise.js:131-143 | if the initiator accepts a reply given to any message, that message was its own, the configurations match and the keys are crossed |
| Handshake.CrossChannelRefused | packages/trusted-liveview/bootstrap.js:50-53 | a message for `rfb` is always produced and always refused by a responder for `control` |
| NoiseReference.StartIsNoise | packages/trusted-liveview/noise.js:118-130 | the message is the ephemeral key, then the static key and the payload, each sealed at nonce zero under block 2 of its agreements with the hash of everything said before as associated data; written over HMAC, SHA-256 and the AEAD alone |
| NoiseReference.StaticFieldKey | packages/trusted-liveview/noise.js:124-125 | the first field key down to HMAC: the second block extracted from the protocol name and the first agreement |
| NoiseReference.ReplyIsNoise | packages/trusted-liveview/noise.js:159-178 | the reply is the ephemeral key and an empty field under all four agreements; the client sends under block 1 and the pod under block 2 of the final extraction |
| NoiseReference.RefusalTells | packages/trusted-liveview/noise.js:159-174 | every mismatch with an honest initiator is answered with its own error: which check fails first decides |
| Peers.NoiseIKInitiator.Create | packages/trusted-liveview/noise.js:106-117 | succeeds exactly when the constructor's checks pass, with a missing binding secret read as empty |
| Peers.NoiseIKInitiator.Start | packages/trusted-liveview/noise.js:118-130 | message, stored state and ephemeral are those of the handshake function |
| Peers.NoiseIKInitiator.Finish | packages/trusted-liveview/noise.js:131-143 | keys are those of the handshake function; no state or a wrong length is refused unchanged; success forgets the state, failure keeps it as advanced |
| Peers.Respond | packages/trusted-liveview/noise.js:159-178 | response, keys, acceptance and error are those of the handshake function |
| NonceDiscipline.SealLogDistinct | packages/trusted-liveview/noise.js:66-73 | a cipher state never uses a key and nonce pair twice, refused messages included |
| NonceDiscipline.HandshakeUsesAreOnTheWire | packages/trusted-liveview/noise.js:118-178 | the three key and nonce pairs of the handshake are those of the three sealed fields actually on the wire |
| NonceDiscipline.KeyLevels | packages/trusted-liveview/noise.js:44-48 | handshake keys sit at HMAC depths 2, 4 and 8 and transport keys at depth 10, so no two coincide |
| NonceDiscipline.NoNonceReuse | packages/trusted-liveview/noise.js:49-95 | over one whole session of matching peers, handshake and any plaintexts in both directions, no pair seals twice |
| NonceDiscipline.ResponderNeverReuses | packages/trusted-liveview/noise.js:159-178 | whoever sent the message a responder accepted, its reply and everything it sends afterwards use no pair twice, and its two transport keys differ |
| NonceDiscipline.RepliesShareNoKey | packages/trusted-liveview/noise.js:159-178 | two replies of one responder with different ephemerals, to any accepted messages, a replay included, share no key |
| NonceDiscipline.SessionsShareKeyIff | packages/trusted-liveview/noise.js:118-178 | openings by any clients towards any pods share a key of their handshake or transport if and only if their first Diffie-Hellman agreements coincide |
| NonceDiscipline.SessionsShareNoKey | packages/trusted-liveview/noise.js:118-178 | with different client ephemerals, unless each is the other pod's own secret, they share none |
| NonceDiscipline.NoReuseAcrossSessions | packages/trusted-liveview/noise.js:49-178 | over two whole such sessions of matching peers no key and nonce pair is used twice |
| RecordLayer.FragmentsPartition | packages/trusted-liveview/noise.js:238-245 | fragments join to the input, number max(1, ceil(n/65519)) and each fits one message |
| RecordLayer.SealAllAt | packages/trusted-liveview/noise.js:238-245 | the k-th ciphertext of a send is the k-th fragment sealed at the starting nonce plus k |
| RecordLayer.SendSealsAll | packages/trusted-liveview/noise.js:238-245 | a send seals every fragment unless the counter runs out, and then all that it still can |
| RecordLayer.OpensOnlyNext | packages/trusted-liveview/noise.js:198-207 | the only frame that opens at nonce n is the n-th record the peer sent, and it yields that fragment |
| RecordLayer.DeliveredIsPrefix | packages/trusted-liveview/noise.js:181-247 | under every network behaviour that forges no box and every interleaving, what `onmessage` got is a prefix of the fragments sent |
| RecordLayer.FailStop | packages/trusted-liveview/noise.js:191-197 | once failed, a channel stays failed and delivers nothing more |
| RecordLayer.FailedIsInert | packages/trusted-liveview/noise.js:191-209 | what was not decrypted when a channel failed never is, and nothing more is queued |
| RecordLayer.FailedCloses | packages/trusted-liveview/noise.js:191-197 | after any events a failed channel is closing or closed |
| RecordLayer.ReadyStateAdvances | packages/trusted-liveview/noise.js:187-247 | the ready state never moves back |
| RecordLayer.LinkFailsIff | packages/trusted-liveview/noise.js:198-215 | whatever the network puts next, the channel fails and closes exactly when it is not the peer's next record, and then delivers nothing of it |
| RecordLayer.NothingBeforeHandler | packages/trusted-liveview/noise.js:224-236 | nothing is delivered or scheduled before a handler is installed |
| RecordLayer.NewChannelWaits | packages/trusted-liveview/noise.js:182-217 | a new channel delivers nothing until a handler is installed, whatever was kept from the handshake |
| RecordLayer.DrainLoopEnds | packages/trusted-liveview/noise.js:227-236 | for any behaviour of the handler: which messages one drain hands over, what is left, whether the handler stays and whether another drain is scheduled |
| RecordLayer.StallsIff | packages/trusted-liveview/noise.js:219-237 | a channel with messages and a handler is left without a drain exactly by a handler that throws with messages left over and was not set again, until the next message or handler |
| RecordLayer.NeverStalled | packages/trusted-liveview/noise.js:219-237 | over every run in which no handler throws, messages with a handler always have a drain scheduled |
| RecordLayer.SettlingDelivers | packages/trusted-liveview/noise.js:198-237 | from any state of a faithful channel, finishing the conversions, installing a handler and running the drain delivers every record that arrived |
| RecordLayer.LosslessDelivery | packages/trusted-liveview/noise.js:181-247 | over an in-order lossless network the channel never fails, and it has delivered every record that arrived once its queues are empty, which finishing the conversions and installing a handler makes them |
| RecordLayer.HandOverReplaysAll | packages/trusted-liveview/noise.js:285-313 | however frames arrive and convert before the awaited chain has drained, the first is the response and the new channel starts with exactly the later ones, in order |
| RecordLayer.HandOverFailsIff | packages/trusted-liveview/noise.js:290-307 | the hand-over fails exactly when some frame that arrived was not bytes |
| NoiseChannels.NoiseChannel.constructor | packages/trusted-liveview/noise.js:182-217 | the replay loop queues the handshake-phase records in order on an open, unfailed channel |
| NoiseChannels.NoiseChannel.Send | packages/trusted-liveview/noise.js:238-245 | refused unless open; otherwise the loop seals the fragments in order and reports failure exactly when some fragment was not sealed |
| NoiseChannels.NoiseChannel.EndLink | packages/trusted-liveview/noise.js:202-208 | a finished conversion decrypts, queues and schedules a drain, or rejects the chain, as the step function says |
| NoiseChannels.NoiseChannel.Drain | packages/trusted-liveview/noise.js:227-236 | the microtask loop, for any behaviour of the handler including uninstalling itself and throwing |
| NoiseChannels.NoiseChannel.ObserveRejection | packages/trusted-liveview/noise.js:191-197 | a rejected chain fails the channel once, empties the pending plaintexts and closes it |
| Session.AcceptedSessionDelivers | packages/trusted-liveview/noise.js:252-316 | if the initiator accepted a reply to any message, both directions deliver only prefixes of what the peer sent, with the records kept from before the hand-over replayed first |
| Session.AcceptedSessionLosesNothing | packages/trusted-liveview/noise.js:252-316 | over an in-order lossless network from the reply on, the accepted channel never fails and, once its conversions finish and a handler is installed, has delivered every record that arrived, the handshake-phase ones first |
| Base64Url.BytesToBase64Url | packages/trusted-liveview/noise.js:38-41 | the character loop and rewriting compute the specified encoding |
| Base64Url.PackUnpack | packages/trusted-liveview/noise.js:33-41 | bytes split into six-bit digits and repacked are the same bytes, short tails included |
| Base64Url.UnpackPack | packages/trusted-liveview/noise.js:35-36 | digits survive packing exactly when the spare bits of the last digit are zero |
| Base64Url.EncodeIsDigits | packages/trusted-liveview/noise.js:38-41 | rewriting and stripping `btoa` output leaves exactly the URL-safe digits |
| Base64Url.RoundTrip | packages/trusted-liveview/noise.js:33-41 | decoding an encoding returns the bytes if and only if they are non-empty; length ceil(4n/3); only URL-safe characters |
| Base64Url.DecodeDomain | packages/trusted-liveview/noise.js:33-37 | a non-empty URL-safe text decodes unless its length is 1 modulo 4, and re-encodes to itself exactly when canonical |
| Placement.SettledPlacement | services/control-plane/index.ts:518-606 | once all overlapping calls are done, the regions holding the id are exactly the acknowledged row's and those where a fault left something, two disjoint sets |
| Placement.PlacementHoldsIff | services/control-plane/index.ts:518-606 | the id is held by exactly the row's region if and only if no fault left anything behind, or the lost acknowledgement was followed by a failed compensation and nothing else |
| Placement.LeaksAreFaults | services/control-plane/index.ts:526-604 | the regions where something was left are exactly those of an allocation whose reply was lost or a compensation that failed |
| Placement.OneRegionHoldsTheSession | services/control-plane/index.ts:518-606 | without faults the regions holding the id are exactly the row's region, if there is a row |
| Placement.OneWinner | services/control-plane/index.ts:541-600 | at most one caller is told 200, and a row exists exactly when one was, unless an acknowledgement was lost |
| Placement.AnswerMovesOn | services/control-plane/index.ts:518-606 | each answer moves its call to the next await or to its status, by what it says and what region or row already hold, and leaves fewer answers to wait for; any other event moves nothing |
| Placement.CallsStayInList | services/control-plane/index.ts:524-539 | every call of every run stays within its list of regions |
| Placement.RequestBegins | services/control-plane/index.ts:505-518 | a new call starts with its check, or ends at once without regions |
| Placement.CompensationIsOwn | services/control-plane/index.ts:601-605 | a compensating delete removes the compensating call's own allocation and keeps every other call's; `RegionRefinesCompensation` says the same of the awaits it consists of |
| Placement.LostReplyPlacesTwice | services/control-plane/index.ts:525-539 | a run with one lost allocation reply that ends with two regions holding the id |
| Placement.LostAckOrphansTheRow | services/control-plane/index.ts:549-605 | a run with one lost insert acknowledgement that ends with a row for a region holding nothing |
| Placement.ControlPlane.RouteSession | services/control-plane/index.ts:505-617 | the region loop is a run of the steps; the attempts are the leading regions with what each answered; 503 exactly when there is no region or every one refused, 409 exactly when a row existed, 200 exactly for a grant whose insert committed, and where row and grant are left |
| Placement.ControlPlane.TryRegions | services/control-plane/index.ts:524-539 | regions are asked in order and the first that grants the id ends the loop; a region that holds the id, a lost reply of this call included, refuses |
| Placement.ControlPlane.AllocateInRegion | services/control-plane/index.ts:526-539 | one allocation extends the run by its event and advances only this call |
| Placement.ControlPlane.CreateRow | services/control-plane/index.ts:549-566 | the insert extends the run by its event and ends in 200 or in compensation |
| Placement.ControlPlane.DeleteRegional | services/control-plane/index.ts:602-604 | the compensation extends the run by its event and ends in 500 |
| Allocation.RecordsNameDistinctServers | services/pool-manager/index.ts:279-446 | over every interleaving of allocations, failures, kills, extensions and reclaims no two records name one server |
| Allocation.FailedCallsGiveBack | services/pool-manager/index.ts:427-445 | over every such interleaving the server a failed call took has been asked to shut down if and only if the fleet request that took it returned |
| Allocation.ThrowingRequestStrands | services/pool-manager/index.ts:298-300 | a run in which a fleet request throws after taking a server that nobody then shuts down |
| Allocation.RecordsRemovedByOwner | services/pool-manager/index.ts:393-436 | over allocations and the kills that undo them a record disappears only by a step of the call that stored it or of the kill that undoes that call, so a loser never deletes the winner's |
| Allocation.SuccessIsKept | services/pool-manager/index.ts:393-426 | over allocations and the kills that undo them a successful call keeps its record until its own kill deletes it and its server until its own kill shuts it down, and it is the only standing success for its id |
| Allocation.UndoingDeletesOwn | services/control-plane/index.ts:601-604 | a kill that undoes a granted allocation, at any point before its delete, still finds that allocation's record: it never removes another's |
| Allocation.KillRemovesOther | services/pool-manager/index.ts:722-749 | any kill costs another allocation its record exactly when the record changed since the kill read it |
| Allocation.OverlappingKillsLoseARecord | services/pool-manager/index.ts:722-749 | a run in which the later delete of two overlapping kills removes the record of a new allocation |
| Allocation.ExtensionRewritesIff | services/pool-manager/index.ts:527-563 | what an extension writes back changes the records exactly when the record it read is gone or replaced, and then a removed one returns or another's is lost |
| Allocation.ExtensionRevivesDeadRecord | services/pool-manager/index.ts:527-563 | a run in which a kill falls between an extension's read and its write, and the record of a server already shut down is back |
| Allocation.ReallocatesExpired | services/pool-manager/index.ts:668-690 | the reallocation of an expired session, for every outcome of every await: its success does not depend on the old record, which is gone in every case; the new record names the new server, and no other session's record changes |
| Allocation.AloneIsScript | services/pool-manager/index.ts:279-446 | for every outcome of every await: when an uninterrupted call succeeds, which server it takes, which record remains, and what it asks to shut down |
| Allocation.PoolManager.CreateSession | services/pool-manager/src/services/session-db.ts:156-182 | true exactly when the record was absent and all writes replied; the record remains exactly then or after a lost reply or failed rollback |
| Allocation.PoolManager.TryAllocate | services/pool-manager/index.ts:283-426 | the duplicate check and the try block for every outcome of every await: the server held, the flag set and the record left when it ends or throws |
| Allocation.PoolManager.CleanUp | services/pool-manager/index.ts:427-444 | the catch block removes the record only when the flag says it was created, and always gives the server back |
| Allocation.PoolManager.AllocateSessionLocally | services/pool-manager/index.ts:279-446 | the flag-steered catch block is the run of the script; with working cleanup a failure leaves the records as they were; other ids untouched |
| RegionRefinement.RegionRefinesAllocation | services/pool-manager/index.ts:279-446 | in every run of allocations and the kills that undo them the step that ends a call is one atomic allocation of the control plane's model, granted only to an id the region does not hold and refused otherwise |
| RegionRefinement.RegionRefinesCompensation | services/pool-manager/index.ts:722-749 | the last of the three awaits of an undoing delete is one atomic compensation of the control plane's model: the region holds the id for the compensating call until then and for nobody afterwards |
| RegionRefinement.OtherStepsCorrespond | services/pool-manager/index.ts:279-446 | a step that neither grants the id nor deletes it changes nothing in what the control plane's model says the region holds |
| TtlExtension.NewDeadlineIsLater | services/control-plane/index.ts:657-668 | an extension never moves the deadline back and ends after now |
| TtlExtension.NewDeadlineIsTight | services/control-plane/src/ttl.ts:46-50 | the extension counts from now or the old deadline, whichever is later, to the millisecond |
| TtlExtension.ExtensionIsAdmitted | services/control-plane/index.ts:651-668 | refused with nothing written exactly when it asks for nothing, for more than the maximum or for a deadline further off than that; otherwise all stores end at the new deadline if all writes succeed |
| TtlExtension.SagaKeepsOrder | services/control-plane/index.ts:670-725 | with no-effect failures and working rollbacks every intermediate state keeps Postgres >= Redis >= annotation; 200 leaves all three new, failure leaves all as before |
| TtlExtension.SagaSucceedsIff | services/control-plane/index.ts:684-725 | 200 exactly when every write and the reply succeeded |
| TtlExtension.SagaReports | services/control-plane/index.ts:670-725 | 500 exactly when the first write threw, 502 for every later failure |
| TtlExtension.RegionalReports | services/pool-manager/index.ts:527-569 | 404, 409, 502 or 200 by which check or write failed first |
| TtlExtension.SagaEnds | services/control-plane/index.ts:670-725 | with any outcome of every write and of the call, which of the three stores end at the new deadline |
| TtlExtension.SagaOrderIff | services/control-plane/index.ts:684-715 | with any outcome of every write and of the call, the final order is broken exactly when the annotation moved and Redis was rolled back, or Redis moved and Postgres was rolled back, written out as outcomes |
| TtlExtension.FaultsBreakTheOrder | services/pool-manager/index.ts:548-562 | four inputs, one for each way of breaking the order |
| TtlExtension.HistoryAgrees | services/control-plane/index.ts:657-725 | over any sequence of extensions the three stores agree after each and the deadline never moves back |
| TtlExtension.SessionStores.ExtendLocalSessionTtl | services/pool-manager/index.ts:527-563 | status, every intermediate state and the final state of the regional handler |
| TtlExtension.SessionStores.ExtendRoutedSessionTtl | services/control-plane/index.ts:651-725 | status, every intermediate state and the final state of the whole saga |
| TtlController.ExpiryIsAllocationPlusTtl | services/ttl-controller/controller.go:34-54 | the two times returned lie one fallback period apart, and an explicit deadline wins |
| TtlController.ExpiryIsAnnotated | services/ttl-controller/controller.go:34-54 | the expiry is the explicit annotation if it says something, else the allocation annotation and one fallback period, with the allocation time reported; each failure has its own error |
| TtlController.ReconcileIsExact | services/ttl-controller/controller.go:73-118 | deletes exactly an allocated live server whose deadline is not after now; a requeue lands on the deadline; a readable live server is never ignored |
| TtlController.ReconcileFromAnnotations | services/ttl-controller/controller.go:58-119 | from the annotations alone: deletes exactly an allocated live server whose deadline is not after now, requeues one with a later deadline for that moment, ignores all others, missing and unreadable metadata included |
| TtlController.GameServerTTLReconciler.ReconcileOne | services/ttl-controller/controller.go:58-119 | one pass removes exactly this server, only if its annotations give a deadline not after now, requeues exactly when not yet expired, and errs exactly on a failed read or delete |
| TtlController.PassesAnswer | services/ttl-controller/controller.go:97-118 | a due pass deletes unless the delete call fails; any other waits for the deadline, or for an earlier requeue still outstanding |
| TtlController.DeletesOnTime | services/ttl-controller/controller.go:97-113 | a server found deleted after any run of passes and deadline changes was deleted by one pass of it, issued at or after the deadline in force when that pass read the server |
| TtlController.NextTimerDeletes | services/ttl-controller/controller.go:97-118 | of two timer passes with no change of deadline between them the second deletes |
| TtlController.IdlePassesBounded | services/ttl-controller/controller.go:97-118 | k changes of deadline allow at most k + 1 timer passes that do not delete, timers of earlier requeues included |
| TtlController.ExtensionCostsAPass | services/ttl-controller/controller.go:97-118 | an extension seen by a watch pass still costs one idle pass of the old timer, so the bound is reached |
| AnalyticsCache.GetAnswersItsWindow | services/control-plane/index.ts:858-869 | after any history a get serves a value loaded for its window or awaits a running load of it; when the value is expired such a load is running |
| AnalyticsCache.GetServesHeld | services/control-plane/index.ts:858-869 | after any history a get serves exactly the value held for its window, starts a load exactly when that is not fresh and none is running, changes nothing when it is fresh, and leaves other windows alone |
| AnalyticsCache.ServedWasLoaded | services/control-plane/index.ts:830-843 | what is held for a window is what a load of that window returned, expiring its period after that load |
| AnalyticsCache.FailureKeepsOld | services/control-plane/index.ts:844-852 | after a failed load the old value is back with no load running, or the key is free |
| AnalyticsCache.TtlBands | services/control-plane/index.ts:806-810 | a minute for a week and more, half a minute for a day and more, else a quarter |
| AnalyticsCache.MappedLoadsAreRunning | services/control-plane/index.ts:826-856 | a mapped entry's `inFlight` is always unsettled |
| AnalyticsCache.LoadedFitsAndStays | services/control-plane/index.ts:831-843 | right after a successful load: at most sixteen windows, the loaded one newest and good for its period, and the most recent others in their old order |
| AnalyticsCache.RunKeepsInv | services/control-plane/index.ts:803-869 | map order, entries, heap and pending loads stay consistent over every interleaving |
| AnalyticsCache.HistoricalAnalyticsCache.GetAnalytics | services/control-plane/index.ts:858-869 | new cache and reply of one get |
| AnalyticsCache.HistoricalAnalyticsCache.OnLoaded | services/control-plane/index.ts:831-843 | the delete, set and eviction loop as one step |
| AnalyticsCache.HistoricalAnalyticsCache.OnFailed | services/control-plane/index.ts:844-852 | a failed refresh restores the old entry or drops the key |
| Keystrokes.FindCut | images/minimal-vnc-desktop/kbd/ime-input.js:73-80 | the scan stops at the longest common prefix, one earlier exactly when that would split a pair of the old text |
| Keystrokes.DiffTransforms | images/minimal-vnc-desktop/kbd/ime-input.js:73-92 | one run of Backspaces and one insertion turn any old text into any new text behind any base |
| Keystrokes.DiffIsMinimal | images/minimal-vnc-desktop/kbd/ime-input.js:73-82 | no end-anchored edit erases or types less, but for the one unit of the surrogate step |
| Keystrokes.DiffKeepsPairs | images/minimal-vnc-desktop/kbd/ime-input.js:77-80 | for well-formed texts neither tail nor the kept prefix splits a surrogate pair |
| Keystrokes.CountIsRightIff | images/minimal-vnc-desktop/kbd/keys.js:40-71 | the count never deletes too little, and is right exactly when no cluster outside the emoji ranges uses a surrogate pair |
| Keystrokes.HasEmojiScalarIff | images/minimal-vnc-desktop/kbd/keys.js:62 | the test on code units holds exactly when some Unicode scalar of the text is in the four ranges of the expression |
| Keystrokes.PairEncodes | images/minimal-vnc-desktop/kbd/keys.js:62 | a surrogate pair stands for the scalar it encodes |
| Keystrokes.AstralIdeographOverDeletes | images/minimal-vnc-desktop/kbd/keys.js:40-71 | for the single ideograph U+20000 two Backspaces are counted where one is needed |
| Keystrokes.FallbackIsRightIff | images/minimal-vnc-desktop/kbd/keys.js:65 | without a segmenter the count never deletes too little, and is right exactly when every emoji cluster is one unit and no other uses a surrogate pair |
| Keystrokes.FallbackOverDeletesEmoji | images/minimal-vnc-desktop/kbd/keys.js:65 | for the single emoji U+1F600 the fallback counts two |
| Keystrokes.BackspaceCountFor | images/minimal-vnc-desktop/kbd/keys.js:63-71 | zero for nothing, the code units without a segmenter, else the loop over clusters sums one per emoji cluster and the length of every other |
| AutoSpace.FilterStripsOneSpaceIff | images/minimal-vnc-desktop/kbd/autospace.js:21-52 | text is unchanged exactly when inactive or of neither shape; otherwise it loses one space at an end |
| AutoSpace.MemoryIsHistory | images/minimal-vnc-desktop/kbd/autospace.js:21-52 | after any calls the memory is the last character let through and the time of the last call that let punctuation through |
| AutoSpace.LoneSpaceStrippedIff | images/minimal-vnc-desktop/kbd/autospace.js:21-52 | after any calls a lone space is taken out exactly when the last character let through was punctuation, less than 100 ms ago |
| AutoSpace.PunctuationIsSet | images/minimal-vnc-desktop/kbd/autospace.js:15 | the punctuation after which a space is suspect |
| AutoSpace.AutoSpaceFilter.FilterText | images/minimal-vnc-desktop/kbd/autospace.js:21-52 | the character loop and both memory fields after one call |
| ValueDiff.StepInStepIff | images/minimal-vnc-desktop/kbd/ime-input.js:275-380 | for any keyboard, one event keeps remote == base + lastSentValue if and only if it is faithful: its Backspaces delete what they were counted for, no delete falls on mirrored text, no space is stripped in mid-composition, no composition ends with data in mirror mode, and an adopted value is the remote's |
| ValueDiff.RemoteFollowsBuffer | images/minimal-vnc-desktop/kbd/ime-input.js:275-380 | any sequence of faithful events keeps it |
| ValueDiff.InputShowsValue | images/minimal-vnc-desktop/kbd/ime-input.js:275-380 | a faithful input that brings text leaves the text in front alone, and the remote is that text followed by exactly the new value |
| ValueDiff.StrippedInputSettles | images/minimal-vnc-desktop/kbd/ime-input.js:344-374 | when an auto-space is stripped the remote is the old text, or for a replacement the text in front, followed by the new text without that one space, and the buffer settles |
| ValueDiff.RemoteShowsLastValue | images/minimal-vnc-desktop/kbd/ime-input.js:275-380 | over any run of such inputs and of compositions the text in front never moves and the remote is that text followed by the last value |
| ValueDiff.InputRemembers | images/minimal-vnc-desktop/kbd/ime-input.js:344-374 | the filter sees and remembers exactly what an input adds or retypes |
| ValueDiff.BackspaceAnswers | images/minimal-vnc-desktop/kbd/ime-input.js:318-333 | a bare delete, a Backspace on an empty field and a timer in its field each send one Backspace, and nothing else does |
| ValueDiff.ProxyMatchesIff | images/minimal-vnc-desktop/kbd/ime-input.js:518-552 | the field's own value stays lastSentValue except exactly when a composition ends in mirror mode with text mirrored; what ends a deferred Backspace and a composition |
| ValueDiff.UnitsAreExact | images/minimal-vnc-desktop/kbd/ime-input.js:73-92 | for a keyboard that counts and deletes code units every run of Backspaces is exact |
| ValueDiff.ClusterCountExactIff | images/minimal-vnc-desktop/kbd/keys.js:63-71 | with the code's cluster count a run of Backspaces is exact if and only if the count is right for every cluster or nothing stands in front |
| ValueDiff.MirrorCompositionDoubles | images/minimal-vnc-desktop/kbd/ime-input.js:536-551 | a composed U+6C34 in mirror mode is on the remote twice once its composition has ended |
| ValueDiff.DeletesOnMirroredText | images/minimal-vnc-desktop/kbd/ime-input.js:318-333 | on a mirrored "a" a delete event that shrank nothing and a timer's Backspace each put the remote out of step |
| ValueDiff.StrippedWhileComposing | images/minimal-vnc-desktop/kbd/ime-input.js:344-354 | an auto-space stripped in mid-composition puts the remote out of step |
| ValueDiff.ProxyInput.OnProxyInput | images/minimal-vnc-desktop/kbd/ime-input.js:275-380 | every branch of the handler: new remote, field, buffer, filter memory and base, with the Backspace count of any keyboard |
| ValueDiff.ProxyInput.SendDiff | images/minimal-vnc-desktop/kbd/ime-input.js:73-92 | the diff sender's effect on remote and filter memory, with the Backspace count of any keyboard |
| ValueDiff.ProxyInput.ClearProxy | images/minimal-vnc-desktop/kbd/ime-input.js:571-577 | the buffer empties and what is on the remote settles |
| ValueDiff.ProxyInput.OnCompositionEnd | images/minimal-vnc-desktop/kbd/ime-input.js:518-552 | Android only notes the end; mirror mode sends the data once more and empties the field, but not lastSentValue |
| ValueDiff.ProxyInput.OnDeleteKey | images/minimal-vnc-desktop/kbd/ime-input.js:418-429 | Backspace on an empty field goes to the remote at once |
| ValueDiff.ProxyInput.OnTimer | images/minimal-vnc-desktop/kbd/ime-input.js:756-764 | a deferred Backspace goes out once, and only in the field that had the key |
| ValueDiff.ProxyInput.Adopt | images/minimal-vnc-desktop/kbd/ime-input.js:591-604 | a seeded or adopted value becomes field and baseline and sends nothing |
| EditContext.WithholdingEqualsMirroring | images/minimal-vnc-desktop/kbd/ime-input.js:607-716 | for end-anchored compositions from an empty buffer, withholding and mirroring leave the same remote if and only if the committed text has no auto-space shape or the filter is off |
| EditContext.ComposedTextIsSent | images/minimal-vnc-desktop/kbd/ime-input.js:607-716 | a composition mirrored from an empty buffer adds exactly its final text to the remote and leaves fresh state |
| EditContext.WithheldTextIsSent | images/minimal-vnc-desktop/kbd/ime-input.js:700-716 | a withheld composition sends its text once when it ends, through the filter |
| EditContext.CommitAnswers | images/minimal-vnc-desktop/kbd/ime-input.js:672-698 | outside a composition the range is erased and the text, less an auto-space, follows; a word is noted exactly when its last character is no boundary |
| EditContext.UpdateSplices | images/minimal-vnc-desktop/kbd/ime-input.js:616-626 | an update of a known buffer replaces exactly the range it names and erases as many units |
| EditContext.RangeIsClipped | images/minimal-vnc-desktop/kbd/ime-input.js:616-626 | what a range names beyond the buffer is not erased |
| EditContext.CommittedWordIsSent | images/minimal-vnc-desktop/kbd/ime-input.js:672-689 | keys committed one by one reach the remote in order and mark an unfinished word |
| EditContext.RecomposeReplacesIff | images/minimal-vnc-desktop/kbd/ime-input.js:652-659 | a re-composed word replaces the committed one exactly when it has its length, or is longer with nothing before it |
| EditContext.FirstTextAnswers | images/minimal-vnc-desktop/kbd/ime-input.js:652-697 | the first text of a composition erases a committed word exactly when it hands it back whole, its own range otherwise |
| EditContext.RecomposedTextIsSent | images/minimal-vnc-desktop/kbd/ime-input.js:652-716 | a word handed back and then edited is erased once, and the remote ends with the final text |
| EditContext.ShorterRecomposeDuplicates | images/minimal-vnc-desktop/kbd/ime-input.js:652-659 | behind "x" the word "te" committed and re-composed as "t" leaves "xtt" |
| EditContext.EditContextInput.OnTextUpdate | images/minimal-vnc-desktop/kbd/ime-input.js:607-698 | every branch of the handler on buffer, flags, deferred Backspace, memory and remote |
| EditContext.EditContextInput.OnCompositionEnd | images/minimal-vnc-desktop/kbd/ime-input.js:700-716 | withheld text goes out once through the filter and the state is fresh |
| EditContext.DeferredDeletesIff | images/minimal-vnc-desktop/kbd/ime-input.js:628-638 | a deferred delete key costs the remote one character, when its timer fires in the same field, exactly when every update since, through any compositions begun and ended, came outside them and changed nothing |
| EditContext.DeleteKeyAnswers | images/minimal-vnc-desktop/kbd/ime-input.js:728-764 | a Backspace on an empty buffer deletes at once, any other delete key waits, and a timer in another field drops it |
| EditContext.PhantomsChangeNothing | images/minimal-vnc-desktop/kbd/ime-input.js:628-638 | outside a composition an update that neither erases nor types changes nothing, and only such a one spares a deferred key |
| EditContext.EditContextInput.OnDeleteKey | images/minimal-vnc-desktop/kbd/ime-input.js:728-746 | a Backspace on an empty buffer goes out at once, any other delete key is deferred |
| EditContext.EditContextInput.OnTimer | images/minimal-vnc-desktop/kbd/ime-input.js:756-764 | a deferred Backspace goes out once, and only in the field that had the key |
| Signal.NeverStranded | images/minimal-vnc-desktop/kbd/signal.js:120-216 | after the first connect exactly one of current socket and armed reconnect holds, the current socket still has its handlers, and backoff stays in range |
| Signal.StateKeepsFlowing | images/minimal-vnc-desktop/kbd/signal.js:55-99 | once the current socket has gone down a poll is due or under way, and stays so along every continuation in which no socket opens and no poll URL throws |
| Signal.BridgeEndsIff | images/minimal-vnc-desktop/kbd/signal.js:44-99 | with no socket open the bridge stops exactly when one opens or the poll URL throws |
| Signal.PollsTakeTurns | images/minimal-vnc-desktop/kbd/signal.js:59-99 | a due timer polls once the socket has had its time, and each poll that ends makes another due |
| Signal.AppliedExactly | images/minimal-vnc-desktop/kbd/signal.js:81-173 | after any history the core is given exactly the frames of the current socket and the current answers with data while none is open |
| Signal.ReconnectDials | images/minimal-vnc-desktop/kbd/signal.js:120-195 | the first connect and every armed reconnect dial one new socket, or arm another when that throws |
| Signal.ConnectWaitsForSocket | images/minimal-vnc-desktop/kbd/signal.js:120-121 | a connect asked for while a socket is open or opening changes nothing |
| Signal.BackoffGrows | images/minimal-vnc-desktop/kbd/signal.js:190-195 | after n failures in a row the backoff is 2^n times what it was, at most ten seconds, once a socket has ever opened |
| Signal.OpenSettles | images/minimal-vnc-desktop/kbd/signal.js:139-146 | the open of the current socket stops the bridge for good, with no poll left that could be applied, and resets the backoff |
| Signal.DownIsFinal | images/minimal-vnc-desktop/kbd/signal.js:174-185 | a socket that goes down is heard of once; a replaced one changes nothing else |
| Signal.StalledConnectCloses | images/minimal-vnc-desktop/kbd/signal.js:130-135 | a connect that stalls is closed once, and no other socket |
| Signal.SilentSocketCloses | images/minimal-vnc-desktop/kbd/signal.js:109-118 | an open socket that has fallen silent is closed |
| Signal.LateOpenCloses | images/minimal-vnc-desktop/kbd/signal.js:139-141 | a replaced socket that opens late is closed and changes nothing else |
| Signal.NothingStaleApplied | images/minimal-vnc-desktop/kbd/signal.js:81-92 | every applied frame came from the latest socket dialled; every applied snapshot was requested after the last open and applied with no socket open |
| Signal.ReplacedSocketIsMute | images/minimal-vnc-desktop/kbd/signal.js:156-157 | once a later socket has been dialled, a frame of an earlier one is never applied |
| Signal.OnePollInFlight | images/minimal-vnc-desktop/kbd/signal.js:59-94 | at most one current-generation poll is in flight and the flag says whether one is |
| Signal.OldPollNeverApplied | images/minimal-vnc-desktop/kbd/signal.js:44-48 | a poll of an earlier generation is never applied after any continuation |
| Signal.AnsweredOnce | images/minimal-vnc-desktop/kbd/signal.js:78-93 | a poll is answered once |
| Signal.UnarmedIsNothing | images/minimal-vnc-desktop/kbd/signal.js:55-135 | timers that are not armed and polls that are not answered do nothing |
| Signal.FocusSignal.HandleOpen | images/minimal-vnc-desktop/kbd/signal.js:139-146 | one open callback, on the current or a replaced socket |
| Signal.FocusSignal.HandleDown | images/minimal-vnc-desktop/kbd/signal.js:174-185 | one close or error callback, on the current or a replaced socket |
| Signal.FocusSignal.Kick | images/minimal-vnc-desktop/kbd/signal.js:201-216 | backoff reset, overdue connect given up, with its close callback at once for a virtual socket, idle channel reconnected at once |
| Signal.KickBackoff | images/minimal-vnc-desktop/kbd/signal.js:201-216 | after a kick the backoff is the minimum, doubled once for a virtual socket given up after a first open and once for a dial that threw, and a reconnect is armed only in the latter case |
| Signal.KickDials | images/minimal-vnc-desktop/kbd/signal.js:201-216 | a kick dials exactly when there is no socket or the one there is overdue |
| Signal.FocusSignal.PollBridge | images/minimal-vnc-desktop/kbd/signal.js:59-69 | one firing of the poll timer |
| Signal.FocusSignal.HandlePollDone | images/minimal-vnc-desktop/kbd/signal.js:70-75 | the end of a poll re-arms the bridge only if the poll is of the current generation |
| Signal.FocusSignal.HandlePollData | images/minimal-vnc-desktop/kbd/signal.js:81-92 | one poll answer, ignored, stopping the bridge or applied |
| ControlMux.EnvelopesInOrder | images/minimal-vnc-desktop/kbd/liveview-transport.js:68-137 | each channel carries `hello` first and then items in submission order; every submission is sent, waiting or shed; none of the latest sixty-four is ever shed; an open channel leaves nothing waiting |
| ControlMux.EmittedIsOnTheWire | images/minimal-vnc-desktop/kbd/liveview-transport.js:74-137 | in every reachable state each envelope counted as emitted stands on the wire of some channel |
| ControlMux.SocketsBehave | images/minimal-vnc-desktop/kbd/liveview-transport.js:28-164 | a virtual socket gets `onopen` at most once, never while connecting and with one sent or queued while open, `onclose` exactly once if closed, and messages only of its kind, while open and before any `onclose` |
| ControlMux.StatesMoveForward | images/minimal-vnc-desktop/kbd/liveview-transport.js:28-114 | a virtual socket's state never moves back along any continuation of any history |
| ControlMux.MessageMayPrecedeOnOpen | images/minimal-vnc-desktop/kbd/liveview-transport.js:96-102 | a history in which a message is delivered before `onopen` |
| ControlMux.OpenSocketsOnOpen | images/minimal-vnc-desktop/kbd/liveview-transport.js:96-102 | in every reachable state an open socket has had `onopen` exactly when none is queued for it |
| ControlMux.NobodyWaitsAlone | images/minimal-vnc-desktop/kbd/liveview-transport.js:60-137 | in every reachable state a registered socket that still connects, and an envelope just submitted without a channel, have a connect under way |
| ControlMux.NewSocketOpens | images/minimal-vnc-desktop/kbd/liveview-transport.js:60-102 | on an open channel a new socket is open at once with its `onopen` queued, without one it waits for a connect |
| ControlMux.OnOpenTellsOnce | images/minimal-vnc-desktop/kbd/liveview-transport.js:100 | the `onopen` microtask runs once and tells only a socket that is still open |
| ControlMux.UnregisteredAreLeft | images/minimal-vnc-desktop/kbd/liveview-transport.js:96-164 | sockets no longer registered are neither opened by a connect nor given a frame |
| ControlMux.ChannelsEnd | images/minimal-vnc-desktop/kbd/liveview-transport.js:77-114 | the end of a channel takes every registered socket down and changes nothing else |
| ControlMux.ConnectSettles | images/minimal-vnc-desktop/kbd/liveview-transport.js:74-102 | a connect that succeeds opens every registered socket that waited, and one that fails takes them all down |
| ControlMux.ClosingOneClosesAll | images/minimal-vnc-desktop/kbd/liveview-transport.js:40-44 | closing one socket closes the shared channel, or takes every registered socket down at once |
| ControlMux.DownClosesRegistered | images/minimal-vnc-desktop/kbd/liveview-transport.js:104-114 | `down` closes each registered socket not yet closed with one `onclose`, forgets the channel, and touches no other socket |
| ControlMux.DeliversToAddressed | images/minimal-vnc-desktop/kbd/liveview-transport.js:159-164 | a frame goes once to each open socket of its kind, in order of registration, and changes nothing else |
| ControlMux.MessagePrecedesOnOpenIff | images/minimal-vnc-desktop/kbd/liveview-transport.js:96-102 | a delivery precedes `onopen` exactly when that microtask is still queued |
| ControlMux.EncryptedControlManager.Send | images/minimal-vnc-desktop/kbd/liveview-transport.js:125-137 | emits on an open channel, else queues, sheds the oldest beyond 64 in a loop and connects |
| ControlMux.EncryptedControlManager.OnChannel | images/minimal-vnc-desktop/kbd/liveview-transport.js:74-85 | `hello`, the flush loop and the opening of views as one step |
| ControlMux.EncryptedControlManager.OpenAllViews | images/minimal-vnc-desktop/kbd/liveview-transport.js:96-102 | exactly the connecting views become open with one `onopen` queued |
| ControlMux.EncryptedControlManager.Down | images/minimal-vnc-desktop/kbd/liveview-transport.js:104-114 | channel and views are forgotten first, then every snapshotted view not yet closed gets one `onclose` |
| ControlMux.DownAllIsRun | images/minimal-vnc-desktop/kbd/liveview-transport.js:104-114 | what `down` does is a run of single callbacks, so the results over all histories cover it |
| ControlMux.EncryptedControlManager.CloseSocket | images/minimal-vnc-desktop/kbd/liveview-transport.js:40-44 | no effect once closing; otherwise the channel closes or everything goes down |
| ControlMux.EncryptedControlManager.DeliverFrame | images/minimal-vnc-desktop/kbd/liveview-transport.js:159-164 | a frame goes in order to the open views of its kind and to no other |
| FbTargets.FbTargetModule.FbTarget | images/minimal-vnc-desktop/kbd/fbtarget.js:17-35 | framebuffer is CSS size times scale; scale is the largest integer up to the request keeping both products within 4096, or 1; of the admissible requests exactly those up to it are within |
| FbTargets.FbTargetModule.SetFbScale | images/minimal-vnc-desktop/kbd/fbtarget.js:10-13 | the request rounded to the nearest integer, and 1 below one half |
| FbTargets.WithinLimitIsDownward | images/minimal-vnc-desktop/kbd/fbtarget.js:33 | factors within the limit form an initial range, so counting down finds the maximum and the framebuffer method's last clause holds |
| FbTargets.WithinLimitIff | images/minimal-vnc-desktop/kbd/fbtarget.js:33 | the limit is 4096 on either product |
| FbTargets.CssAnswers | images/minimal-vnc-desktop/kbd/fbtarget.js:17-28 | whole pixels nearest the request without a positive cap, and the smaller of request and cap on each axis when clipping |
| FbTargets.ShrinkIsLargest | images/minimal-vnc-desktop/kbd/fbtarget.js:25 | the fill factor is the largest one up to 1 under which both axes fit the cap |
| FbTargets.CssFitsIff | images/minimal-vnc-desktop/kbd/fbtarget.js:22-28 | clipping always fits; filling fits an axis exactly when the cap admits a pixel and the proportional length does not round above its floor |
| FbTargets.WholeCapFits | images/minimal-vnc-desktop/kbd/fbtarget.js:22-28 | a cap in whole pixels is respected in both modes |
| FbTargets.FractionalCapExceeded | images/minimal-vnc-desktop/kbd/fbtarget.js:25-26 | an input for which a fractional cap is exceeded |
| FbTargets.OneAxisIsTight | images/minimal-vnc-desktop/kbd/fbtarget.js:25-26 | when filling shrinks, one axis equals its rounded cap, and for whole caps the cap itself |
| FbTargets.FillKeepsAspect | images/minimal-vnc-desktop/kbd/fbtarget.js:25-26 | each axis is within half a pixel of proportional, or 1 when that is below a half |
| FbTargets.ClipReappliesIff | images/minimal-vnc-desktop/kbd/fbtarget.js:19-23 | in clip mode the result is a fixed point exactly when each cap did not bind or does not round down |
| FbTargets.FillReappliesIff | images/minimal-vnc-desktop/kbd/fbtarget.js:19-26 | in fill mode, from request and cap: exactly when no axis rounds over its cap by so much that fitting again costs the other axis more than half a pixel |
| FbTargets.WholeCapReapplies | images/minimal-vnc-desktop/kbd/fbtarget.js:19-28 | with a whole-pixel cap or none, re-applying the computation changes nothing |
| FbTargets.FractionalCapDrifts | images/minimal-vnc-desktop/kbd/fbtarget.js:19-23 | an input for which re-applying with a fractional cap changes the width |
| FbTargets.FractionalCapShortens | images/minimal-vnc-desktop/kbd/fbtarget.js:19-26 | an input for which re-applying in fill mode changes the size |

## Left out

- The primitives (X25519, ChaCha20-Poly1305, SHA-256, HMAC) are symbolic: low-order points, collisions and computational assumptions are not modelled, and the network may forge no new box under a session key.
- Ids are octet strings, the UTF-8 encoding of JavaScript strings being outside the model; keys arrive as bytes, so the base64url parsing of constructor arguments is proved only in `Base64Url`.
- `join` and `equal` are sequence concatenation and equality; constant-time comparison is not modelled.
- Timeouts, URL checks and stage callbacks of `openNoiseWebSocket`, the responder written in Go, and errors raised by the underlying socket's `send`.
- Promise continuations are steps that may run in any order the code allows; finer microtask order and the duration of Blob conversion are not distinguished.
- Request validation, authentication, region selection, telemetry and the payment routes of both services; the model starts where a call has its list of regions.
- Placement.SettledPlacement: a compensating delete and a region's allocation are one step each, as `RegionRefinement` shows for runs of the pool manager in which every kill undoes a granted allocation; kills, extensions and reclaims from elsewhere are covered by `Allocation` alone.
- Allocation.ExtensionRewritesIff: an extension's two writes are free to repeat, its checks and the expiry check before a reclaim are left to the caller, and a record is its server's name.
- Storage: the session store sets a record only if absent, the Postgres insert is unique because the session id is the primary key, and the fleet never hands out an allocated server; the mirrored secondary Redis is not modelled.
- TtlExtension.HistoryAgrees: extensions of one session run one at a time; two overlapping extensions are not modelled, nor are the lookups answered 404 or 409 before the first write in the control plane.
- TtlController.IdlePassesBounded: a timer pass whose delete call fails is retried by the controller's own back-off and counts as a watch-driven pass here; annotations are assumed parseable, times are unbounded integers.
- Keystrokes.CountIsRightIff: grapheme segmentation is an arbitrary partition into clusters, and one Backspace is taken to delete one emoji cluster or one code point.
- ValueDiff.StepInStepIff: how many Backspaces are counted and what they delete is a parameter, tied to the code's count by `ClusterCountExactIff`; caret keys, Enter, Tab and focus changes are one event that leaves the buffer with any remote text; an Android composition is never withheld, since nothing sets the flag that says so.
- EditContext.WithholdingEqualsMirroring: one Backspace deletes one code unit; the local echo and the browser's own buffer, which equals the shadow buffer between events, are not modelled.
- The iOS path outside mirror mode (`iosWord`, the chew buffer) and the rest of `onProxyBeforeInput`, whose effects are single Backspaces and insertions without a mirrored buffer.
- Signal.NeverStranded: a callback runs to its end before the next one, but for the close of a virtual socket inside a kick; other handlers that re-enter the module are not modelled, and times appear only as the outcome of the comparisons made with them.
- ControlMux.EncryptedControlManager.Down: the method's callbacks do not re-enter it; a `down` nested in a callback is covered by the step model, where any snapshotted view may be closed next.
- ControlMux.EnvelopesInOrder: envelopes are their submission numbers; JSON, envelope types, the geometry and snapshot requests, and connectors yielding a channel that is not open are outside the model.
- FbTargets: real arithmetic instead of floating point; NaN and infinities do not occur.
