# sigsig, modelled and proved

A Dafny model of the parts of sigsig, a Signal client, whose correctness depends on order, state
or bytes: the WebSocket multiplexer and its receive loop, the send pipeline over the session
store, the attachment and provisioning frames, the provisioning reconnect loop, the handler
registry, and persistence. `dafny verify dfyconfig.toml` checks all of it.

| file | what it models |
|---|---|
| `WsMux.dfy` | the shared state of one socket, as a value with one function per atomic update and as the class `BaseWs` whose methods perform them in place |
| `WsProtocol.dfy` | senders, reader, keepalive, `close()` calls and the receive loop as a step machine over that state, with its inductive invariant |
| `WsTheorems.dfy`, `WsEndings.dfy` | what follows over whole runs; how calls and tasks end |
| `Receive.dfy`, `Arrivals.dfy`, `ReceiveLoop.dfy`, `Padding.dfy` | envelope to event, what each envelope gives told field by field, the loop with its handlers and acks, message padding |
| `SignalStore.dfy`, `Send.dfy`, `GroupSend.dfy` | the store's sessions and identities, delivery to one recipient, group fan-out |
| `StoreEffects.dfy` | what deliveries leave in the store: where a failing one stops, when it changes nothing, identity keys |
| `Conversation.dfy` | many messages to one device, received in order through the socket |
| `Compose.dfy`, `AttachmentsApi.dfy`, `EndToEnd.dfy`, `Messages.dfy` | building the content, uploading attachments, sender and receiver composed, the parsed messages |
| `Buckets.dfy`, `Cbc.dfy`, `Attachments.dfy`, `ProvisioningCipher.dfy` | bucket sizes, CBC and PKCS#7, the two encrypted frames |
| `Base64.dfy`, `LinkUrl.dfy` | unpadded base64 and the link URL |
| `Provisioning.dfy` | waiting for the primary to scan |
| `Handlers.dfy` | the registry, refining one flat list of registrations |
| `StoreBlob.dfy`, `SessionFile.dfy` | serialising the store, saving the session file |

## How the model is built

A task switch can happen only at an `await`, so each stretch between two awaits is one step and
steps of different tasks interleave freely. The machine allows some interleavings that asyncio
does not (for example a switch inside a send that would not have waited); what is proved holds
for all of them. The reader is taken to have made its first step. Cancellation is two steps: a
request, which completes a pending future at once, and the delivery at the task's next resumption.

Libraries are values holding functions, used under the laws their `Lawful` predicates state: a
block cipher is a permutation for each key, a codec's decoder inverts its encoder, key agreement
commutes, the ratchet reports a missing session only when there is none and goes ahead only with an
identity key the store trusts. `EndToEnd.Paired` is the ratchet's law between the two ends of a
session for one message, `Conversation.InStep` for many in order (`ToyInStep` shows it can be met),
and `StoreEffects.Forward` says that a successful operation moves a session record forward.
Randomness, clocks and the network are parameters.

## Where the code and its documentation differ

The model follows the code.

- `_send_request` does not look at the closed flag, so a request sent after the reader has ended,
  for instance on a malformed frame with the connection still open, waits until it is cancelled
  (`WsTheorems.StrandedExample`, `StrandedForever`). `WaiterWokenIffEarly` and `AnswerableIff`
  say exactly which calls are affected; while nothing but `close()` cancels the reader it is those
  made with the closed flag set (`AnswerableIffOpen`). The keepalive task tests the flag and never is.
- `close()` re-raises the exception of a reader or keepalive task that died, before it closes the
  connection (`CloseRaisesExample`, `CloseRaisesIffTaskDied`).
- A message whose source, sealed sender or reported destination does not parse as a service id
  gives no event, although it is acked (`Receive.RaisesIff` says when this happens).
- `handlers.py` announces that handler exceptions are raised after the fan-out; they are only logged.
- A delivery that fails half way may have advanced or created sessions: all-or-nothing holds on the
  wire (`DeliverAllOrNothing`), not in the store. `HalfwayExample` is such a delivery, and
  `DeliveryKeepsStoreIff` says exactly when a delivery leaves the store's tables as they were.
- The provisioning wait may end after its deadline, since the listening cap is computed before
  connecting and the connection is closed before the clock is read again. `LateExample` is a case;
  `SessionLateIff` and `OverrunsIff` say when it happens, and `WaitForEnvelope` bounds it by the
  last attempt's connecting and closing times. With 120 seconds or less left, an attempt that
  times out always overruns (`LastAttemptOverruns`).

## Model

| member | source | states |
|---|---|---|
| WsMux.BaseWs.BeginRequest | src/sigsig/transport/ws.py:169-174 | takes the next id, creates its future and enters it in the table |
| WsMux.BaseWs.EndRequest | src/sigsig/transport/ws.py:178-179 | leaves the table without that id and changes nothing else |
| WsMux.BaseWs.OnResponse | src/sigsig/transport/ws.py:215-226 | completes the future of that id if it is in the table and pending, else changes nothing |
| WsMux.BaseWs.OnRequest | src/sigsig/transport/ws.py:197-214 | appends the push to the queue |
| WsMux.BaseWs.FailWaiters | src/sigsig/transport/ws.py:233-235 | fails every waiting future that is still pending and no other |
| WsMux.BaseWs.FinishReader | src/sigsig/transport/ws.py:231-238 | fails all waiters, empties the table, sets closed, queues the sentinel |
| WsMux.BaseWs.ReadLoop | src/sigsig/transport/ws.py:186-238 | run alone, the reader handles frames up to the first malformed one and always ends with its final block |
| WsMux.BaseWs.Next | src/sigsig/transport/ws.py:259-263 | takes the oldest item |
| WsProtocol.StepInv | src/sigsig/transport/ws.py:133-263 | every step of every task keeps the table, sweep, answer, queue, log and close invariants |
| WsTheorems.IdsNeverRepeat | src/sigsig/transport/ws.py:138-174 | over any run the ids handed out strictly increase |
| WsTheorems.CompletedOnce | src/sigsig/transport/ws.py:169-238 | over any run a completed future keeps its result and an ended call its end; histories only grow |
| WsTheorems.ReturnsOwnResponse | src/sigsig/transport/ws.py:169-226 | a call that returns normally returns the first response with its own id read after it registered |
| WsTheorems.ResponseCompletesOnlyItsOwn | src/sigsig/transport/ws.py:215-226 | duplicate, unknown and id-0 responses complete nobody; any other completes only its own future |
| WsEndings.NoWaiterLost | src/sigsig/transport/ws.py:169-238 | after the reader's end one step ends each call registered before it: uncancelled, with its response if that came and else with "websocket closed"; cancelled, as cancelled |
| WsEndings.EndsForAReason | src/sigsig/transport/ws.py:169-238 | a call ends cancelled only if it was cancelled, and with "websocket closed" only for a future failed by the reader's end |
| WsEndings.ResumedCallEnds | src/sigsig/transport/ws.py:175-179 | how a waiting call ends whenever it resumes |
| WsEndings.SweptKeepaliveEnds | src/sigsig/transport/ws.py:246-253 | the keepalive task ends by itself when its call is swept uncancelled |
| WsEndings.KeepaliveAfterItsCall | src/sigsig/transport/ws.py:242-253 | an answered keepalive sleeps again while the socket is open; one whose send raised dies |
| WsEndings.KeepaliveSends | src/sigsig/transport/ws.py:242-253 | asleep, uncancelled and on an open socket its next step registers a call; closed it ends, cancelled it ends as cancelled |
| WsEndings.KeepaliveDiesExample | src/sigsig/transport/ws.py:242-253 | a keepalive killed by its own send while the reader reads on is reachable |
| WsEndings.InterruptCancels | src/sigsig/transport/ws.py:169-179 | cancelling a call marks it and cancels the pending future it waits on, nothing else |
| WsEndings.ReaderDiesIffMalformed | src/sigsig/transport/ws.py:186-238 | over any run the reader is dead exactly when it read a malformed frame, and that was its last |
| WsEndings.ReaderEnds | src/sigsig/transport/ws.py:227-238 | a closed socket ends the reader normally, a cancellation as cancelled |
| WsEndings.CancelledLoopStops | src/sigsig/receive.py:50-65 | a cancelled receive loop acks the request in hand and stops |
| WsEndings.AbandonedForever | src/sigsig/receive.py:50-65 | once stopped it takes and acks nothing more, in every continuation |
| WsTheorems.WaiterWokenIffEarly | src/sigsig/transport/ws.py:169-238 | after the reader's end an uncancelled waiting call can resume if and only if it registered before |
| WsTheorems.KeepaliveNeverStuck | src/sigsig/transport/ws.py:242-253 | no reachable state after the reader's end has an unresolved keepalive future |
| WsTheorems.StrandedForever | src/sigsig/transport/ws.py:169-179 | a call registered after the reader's end waits for ever in every continuation that does not cancel it |
| WsTheorems.StrandedExample | src/sigsig/transport/ws.py:192-196 | such a state is reachable: a malformed frame, then a request |
| WsTheorems.AnswerableIff | src/sigsig/transport/ws.py:169-226 | a call can return normally in some continuation if and only if the reader was reading and uncancelled when it registered |
| WsTheorems.AnswerableIffOpen | src/sigsig/transport/ws.py:169-179 | if only close() cancels the reader, a call can return normally if and only if the closed flag was clear |
| WsTheorems.YieldsRequestsInOrder | src/sigsig/transport/ws.py:257-263 | the requests yielded are a prefix of the REQUEST frames read, all of them once the iterator ends; after the reader's end it never waits |
| WsTheorems.LoopDrains | src/sigsig/receive.py:50-65 | after the reader's end the receive loop, left alone, runs to its own end having consumed every request, whichever handlers and acks raise |
| WsTheorems.OneAckPerRequest | src/sigsig/receive.py:50-65 | one ack attempt with status 200 and the request's id per consumed request, in order, before the next request is started |
| WsTheorems.CloseRaisesIffTaskDied | src/sigsig/transport/ws.py:151-158 | close() past its awaits raised if and only if the reader or the keepalive task died; otherwise both tasks are over and no early call is unresolved |
| WsTheorems.CloseRaisesExample | src/sigsig/transport/ws.py:151-158 | a close() that raised without reaching the socket is reachable: a malformed frame, then close() |
| WsEndings.CloseReturnsFromSocket | src/sigsig/transport/ws.py:151-158 | a close() returns only by the step that closes the connection |
| WsEndings.CloseProgresses | src/sigsig/transport/ws.py:151-158 | each step of a close() gets it further, and closing the connection returns |
| WsTheorems.CloseNeverDeadlocks | src/sigsig/transport/ws.py:151-158 | a waiting close() can go on, or one step of the task it cancelled lets it |
| Padding.StripPadding | src/sigsig/receive.py:96-103 | returns q when the input is q, 0x80 and zeros, and the input itself when it has no such form |
| Padding.PaddingUnique | src/sigsig/receive.py:96-103 | that form is unique |
| Padding.StripPad | src/sigsig/send.py:51-54 | stripping inverts padding for every body |
| Padding.PaddedLength | src/sigsig/send.py:51-54 | the length is 79 modulo 80, except that a body of length 79 modulo 80 fills its block |
| Receive.EventsFromContent | src/sigsig/receive.py:218-322 | one event for every content, by its kind, or the error of an unparsable destination |
| Receive.DispatchEnvelope | src/sigsig/receive.py:106-215 | the store and events of an envelope, for every type and failure |
| Receive.HandleRequest | src/sigsig/receive.py:68-93 | which pushes are ignored, and what the others give |
| Receive.RaisesIff | src/sigsig/receive.py:106-322 | handling an envelope raises exactly when its source, the sender under its seal or a reported destination is no service id |
| Receive.ExactlyOneEvent | src/sigsig/receive.py:106-322 | every other envelope gives exactly one event, delivery receipts without source or device none |
| Arrivals.ContentTells | src/sigsig/receive.py:218-322 | a content gives the one event that tells of it, field by field, for every kind |
| Arrivals.SealedArrives | src/sigsig/receive.py:136-163 | a sealed message is ascribed to the account and device under the seal, whatever source the envelope names |
| Arrivals.SealedFails | src/sigsig/receive.py:145-153 | a seal that does not open gives one error with the envelope's own source and device |
| Arrivals.DirectArrives | src/sigsig/receive.py:165-203 | types 1 and 3 are opened by their own operation and ascribed to the envelope's source and device |
| Arrivals.DirectFails | src/sigsig/receive.py:186-194 | a failed decryption gives one error from that source and device |
| Arrivals.NamelessFails | src/sigsig/receive.py:165-175 | without source or device one error, and the store is left alone |
| Arrivals.DeliveryReceiptArrives | src/sigsig/receive.py:122-134 | a delivery receipt from source and device for the client's timestamp, if any |
| Arrivals.OtherTypesUnknown | src/sigsig/receive.py:205-215 | any other type is passed on as it came |
| Arrivals.OnlyMessagePutsCount | src/sigsig/receive.py:76-90 | only a PUT to the message path carries an envelope; the others do nothing |
| Arrivals.ClassNames | src/sigsig/handlers.py:43-46 | each event's class is its own |
| ReceiveLoop.RunReceiveLoop | src/sigsig/receive.py:42-65 | over any list of pushes: the store folded through them, every event's handlers started in order, one ack with status 200 per push, whatever raises and whatever any task does to the registry meanwhile |
| ReceiveLoop.EventReachesItsHandlers | src/sigsig/handlers.py:39-51 | an event starts the handlers of its class and then those of Event, once per registration |
| Handlers.HandlerRegistry.Register | src/sigsig/handlers.py:30-31 | appends to the flat list; every per-class list stays its filter |
| Handlers.HandlerRegistry.Unregister | src/sigsig/handlers.py:33-37 | removes the first match from the flat list, or nothing |
| Handlers.HandlerRegistry.Dispatch | src/sigsig/handlers.py:39-55 | starts exactly the handlers registered when the event arrived, whatever handlers and other tasks register or remove meanwhile, in any order, and whichever raise |
| Handlers.OfRemove | src/sigsig/handlers.py:33-37 | removing the first matching registration is removing the first match from its class's list |
| Handlers.RemovesFirst | src/sigsig/handlers.py:33-37 | unregistering takes out the first occurrence and nothing else |
| Handlers.LogsEachRaise | src/sigsig/handlers.py:50-55 | the exceptions logged are those of the handlers that raised, in order |
| Handlers.StartedOncePerRegistration | src/sigsig/handlers.py:39-51 | a handler is started as often as it is registered under the event's classes |
| Handlers.NewHandlerStartsAtEndOfItsClass | src/sigsig/handlers.py:30-48 | class order first, registration order within a class |
| SignalStore.AddressInjective | rust/sigsig_libsignal/src/lib.rs:363-368 | the address strings that key the tables determine name and device |
| SignalStore.IdentityPart.SaveIdentity | rust/sigsig_libsignal/src/lib.rs:189-203 | reports replacement exactly when a different key was last saved there |
| SignalStore.IdentityPart.IsTrustedIdentity | rust/sigsig_libsignal/src/lib.rs:205-215 | trusts exactly a first sight or the last saved key |
| SignalStore.LastSavedIs | rust/sigsig_libsignal/src/lib.rs:189-215 | the last saved key is that of the save no later save for the address follows |
| SignalStore.NeverSaved | rust/sigsig_libsignal/src/lib.rs:205-215 | there is none exactly when the address was never saved |
| SignalStore.Store.EncryptTo | rust/sigsig_libsignal/src/lib.rs:604-648 | fails with "not found" without a session, else replaces that address's record |
| SignalStore.MissingSession | rust/sigsig_libsignal/src/lib.rs:604-648 | without a session the error says "not found" and the store is left alone |
| SignalStore.Store.ProcessPreKeyBundle | rust/sigsig_libsignal/src/lib.rs:542-602 | creates the session of the bundle's device, or fails and leaves the tables alone |
| Send.ParsePreKeyBundle | src/sigsig/send.py:226-252 | what the listed devices parse to, in their order, or the first error |
| Send.ParsedNamesEveryDevice | src/sigsig/send.py:226-252 | a bundle that parses has one entry per listed device, in order, with its ids and the one identity key |
| Send.ParsesIff | src/sigsig/send.py:231-251 | a device parses exactly when it has a Kyber key and its fields decode |
| Send.FirstBadDevice | src/sigsig/send.py:231-251 | the error of a bundle is that of its first device that does not parse |
| Send.ParsesUploadedKeys | src/sigsig/keys/upload.py:15-39 | keys uploaded in this form and listed per device parse back to the same bytes, field by field |
| Send.EncryptWithRetry | src/sigsig/send.py:167-173 | encrypts, installing the bundle and retrying exactly on a missing session |
| Send.EncryptForDevices | src/sigsig/send.py:162-184 | the messages for all devices in order, or the first error, and the store it leaves |
| Send.DeliverToOne | src/sigsig/send.py:148-195 | the store, the PUT made and the exception raised by one delivery |
| Send.OneMessagePerDevice | src/sigsig/send.py:162-184 | one message per device but the skipped one, in order, with its device and registration ids |
| Send.DeliverAllOrNothing | src/sigsig/send.py:148-195 | no PUT if anything before it raised; otherwise one, and the delivery returns exactly when it is accepted |
| Send.MessagesForDevices | src/sigsig/send.py:159-184 | a PUT has one message per listed device, in the bundle's order, except none for our own device on a message to ourselves |
| Send.EveryDeviceOfOthers | src/sigsig/send.py:159-184 | to anyone else every device gets one, at the same index |
| Send.EncryptAllTouches | src/sigsig/send.py:162-184 | only the listed devices' sessions and identities change, no session is lost, each messaged device has one |
| Send.MissesIff | src/sigsig/send.py:167-173 | the retry is taken exactly for a valid device without a session |
| Send.ExistingSessionKept | src/sigsig/send.py:167-173 | a device with a session is encrypted to without using its bundle |
| Send.RetriesOnce | src/sigsig/send.py:167-173 | without a session: the bundle's own error if it cannot be installed, else the outcome of encrypting once more |
| Send.InstallsOnlyWithoutSession | src/sigsig/send.py:162-184 | a delivery processes bundles only where there is no session, and none twice |
| StoreEffects.FailsIffStops | src/sigsig/send.py:162-184 | encrypting fails exactly when it stops at a device: those before it went through, and the store is what its failure left |
| StoreEffects.DeliveryKeepsStoreIff | src/sigsig/send.py:148-195 | a delivery leaves the tables as they were exactly when there is no bundle, no device to encrypt for, or the first one neither encrypts nor installs |
| StoreEffects.HalfwayExample | src/sigsig/send.py:162-195 | a delivery that makes no PUT and has advanced a session |
| StoreEffects.IdentitiesStay | rust/sigsig_libsignal/src/lib.rs:189-215 | over any deliveries a known identity key is never replaced |
| StoreEffects.KeyChangeBlocksDelivery | src/sigsig/send.py:162-195 | if a device without a session is known under another identity key than the bundle's, nothing is PUT |
| StoreEffects.DeliveryTrustsBundle | src/sigsig/send.py:162-184 | after a PUT every messaged device new to the store is known by the bundle's identity key |
| GroupSend.SendToMembers | src/sigsig/send.py:130-145 | every member but us is attempted in order whatever fails; store and PUTs are those of the fold of single deliveries |
| GroupSend.EachOtherMemberOnce | src/sigsig/send.py:130-132 | each member is attempted as often as listed, except our own account, never |
| GroupSend.EverybodyWithoutUs | src/sigsig/send.py:130-132 | without an account of our own everybody listed is attempted |
| GroupSend.MemberIsTarget | src/sigsig/send.py:130-132 | a member who is not us is attempted right after the targets listed before |
| GroupSend.TargetsInOrder | src/sigsig/send.py:130-132 | attempts keep the members' order |
| GroupSend.DeliveriesWellFormed | src/sigsig/send.py:130-145 | each delivery makes one PUT, to its own target and with the common timestamp, or, exactly when it raised before that, none |
| GroupSend.GroupOnlyAtTargets | src/sigsig/send.py:130-145 | no other account's sessions or identities change, whichever deliveries fail |
| Compose.BuildTextContent | src/sigsig/send.py:57-79 | the padded content with every field and pointer, or the first error |
| Compose.BuiltIff | src/sigsig/send.py:57-79 | building succeeds exactly when timer and revision fit 32 bits and every attachment can be uploaded; a field that does not fit is refused before any upload |
| Compose.FirstRefusedUpload | src/sigsig/send.py:74-76 | the error is that of the first attachment refused; those before it stay on the CDN |
| Compose.PointersRecover | src/sigsig/send.py:74-76 | after a build every pointer downloads to its attachment with its metadata |
| AttachmentsApi.Cdn.UploadAttachment | src/sigsig/attachments_api.py:46-76 | the blob is stored and the pointer filled, or the error of the first step that fails |
| AttachmentsApi.UploadThenDownload | src/sigsig/attachments_api.py:46-98 | downloading the pointer gives the original bytes, metadata equal up to absent and empty |
| AttachmentsApi.DownloadRefusals | src/sigsig/transport/cdn.py:59-74 | only CDNs 0, 2 and 3 are asked, and only for what they hold |
| AttachmentsApi.UploadSucceedsIff | src/sigsig/attachments_api.py:46-76 | an upload succeeds exactly for a CDN 3 form, an accepted blob and fields that fit 32 bits |
| AttachmentsApi.UploadRefusals | src/sigsig/attachments_api.py:46-76 | which error each refusal is, and that nothing reaches the CDN before the blob is accepted |
| EndToEnd.MessagesCarry | src/sigsig/send.py:162-184 | each message of a delivery holds, under the matching type, a ciphertext of the plaintext made from its device's session |
| EndToEnd.RelayedMessage | src/sigsig/receive.py:165-203 | relayed to the other end of that session it decrypts to the plaintext by the operation of its type |
| EndToEnd.SentIsReceived | src/sigsig/receive.py:68-269 | every message sent to one recipient arrives as exactly one event with the same text, timestamp, timer, group and attachments |
| EndToEnd.GroupSentIsReceived | src/sigsig/send.py:112-145 | the same for every target of a group send whose PUT was made, whoever else failed |
| EndToEnd.GroupMemberReceives | src/sigsig/send.py:112-145 | and so for every listed member who is not us |
| Conversation.ConversationArrives | src/sigsig/send.py:148-195 | any number of messages to one device, opened in order, become their events in order, whatever else the sender's store goes through |
| Conversation.ArrivesOverSocket | src/sigsig/receive.py:42-65 | in every reachable state of the socket the requests consumed have become the first events of the conversation, all of them once the loop has ended |
| Messages.ParsePrinted | src/sigsig/types.py:51-67 | parsing inverts the wire form of a service id |
| Messages.ParseForms | src/sigsig/types.py:51-60 | what each accepted form means, and that anything else is refused |
| Buckets.BucketHolds | src/sigsig/attachments.py:39-45 | the bucket is at least the size and at least 541 |
| Buckets.BucketMonotone | src/sigsig/attachments.py:39-45 | larger plaintexts never get smaller buckets |
| Buckets.SmallestBucket | src/sigsig/attachments.py:39-45 | 541 for every size up to 541 |
| Buckets.OverheadBelowFivePercent | src/sigsig/attachments.py:39-45 | above 541 the bucket is less than 21/20 of the size |
| Buckets.BucketExactly | src/sigsig/attachments.py:39-45 | above 541 it is 1.05^e rounded down, for the least e with 1.05^e at least the size |
| Buckets.BucketIdempotent | src/sigsig/attachments.py:39-45 | a bucket size is its own bucket |
| Cbc.RoundTrip | src/sigsig/crypto/aes.py:12-34 | CBC decryption inverts encryption for every block permutation |
| Cbc.ChainEquations | src/sigsig/crypto/aes.py:12-22 | the ciphertext satisfies the standard's block equations |
| Cbc.XorBitwise | src/sigsig/crypto/aes.py:12-22 | the chaining operation sets each bit where its operands differ |
| Cbc.PadBytes | src/sigsig/crypto/aes.py:18-19 | padding is as many bytes as are missing, each of that value |
| Cbc.Pkcs7Exact | src/sigsig/crypto/aes.py:33-34 | unpadding accepts exactly the padded strings and inverts padding |
| Cbc.OpenRefuses | src/sigsig/crypto/aes.py:25-34 | a wrong key or IV length or broken blocks are refused |
| Cbc.OpenSeal | src/sigsig/crypto/aes.py:12-34 | opening inverts sealing for every length |
| Attachments.RoundTrip | src/sigsig/attachments.py:48-95 | decrypting with the blob's key, digest and declared size gives the plaintext |
| Attachments.DecryptEncrypt | src/sigsig/attachments.py:48-95 | for any declared size it gives that much of the zero-padded plaintext |
| Attachments.KeyAndMac | src/sigsig/attachments.py:48-68 | the 64-byte key is cipher key and MAC key, and the blob is IV, ciphertext and the MAC over both |
| Attachments.BlobLength | src/sigsig/attachments.py:48-68 | 48 + 16 (bucket / 16 + 1) bytes, so only the bucket shows |
| Attachments.AcceptedBlob | src/sigsig/attachments.py:71-95 | a blob is accepted exactly with a 64-byte key, its own digest, a right MAC and a ciphertext that opens |
| Attachments.AcceptsOnlyTheOriginal | src/sigsig/attachments.py:71-95 | short of a SHA-256 collision only the original blob is accepted under its key and digest |
| ProvisioningCipher.RoundTrip | src/sigsig/crypto/provisioning_cipher.py:50-95 | the secondary opens what the primary sealed, for every length |
| ProvisioningCipher.Refusals | src/sigsig/crypto/provisioning_cipher.py:77-94 | why a body is refused, in the order it is examined |
| ProvisioningCipher.AcceptedFrame | src/sigsig/crypto/provisioning_cipher.py:70-95 | a body is accepted exactly when it is version, IV, ciphertext and the MAC over them, and the ciphertext opens |
| Base64.DecodeEncode | src/sigsig/send.py:182-182 | decoding inverts encoding |
| Base64.GroupBits | src/sigsig/send.py:182-182 | a group holds its bytes most significant first, zero bits filling up the last character |
| Base64.EncodePrintable | src/sigsig/send.py:182-182 | nothing but the alphabet and padding is printed |
| Base64.RestoreUnpadded | src/sigsig/keys/upload.py:15-17 | stripping removes only padding, which restoring to a multiple of four puts back |
| Base64.DecodeUnpadded | src/sigsig/send.py:227-228 | decoding with the padding restored inverts the unpadded printer |
| LinkUrl.QuoteForm | src/sigsig/provisioning/qr.py:42-47 | letters, digits and _.-~ stand for themselves, other bytes are percent-encoded |
| LinkUrl.QuotedHasNoSeparator | src/sigsig/provisioning/qr.py:42-47 | quoted fields contain no raw separator |
| LinkUrl.UrlInjective | src/sigsig/provisioning/qr.py:31-47 | the URL determines session uuid and key |
| LinkUrl.ReadsBack | src/sigsig/provisioning/qr.py:31-47 | split and unquoted, it gives the uuid under "uuid" and the base64 of the tagged key under "pub_key" |
| Provisioning.ReadEnvelope | src/sigsig/provisioning/flow.py:138-161 | an envelope comes back exactly when the first two pushes of the connection make one in time |
| Provisioning.WaitForEnvelope | src/sigsig/provisioning/flow.py:108-135 | terminates; every dial is before the deadline, every listen capped, connections are closed once and in turn, a normal return is the first two pushes of the last connection, whose URL was the last shown, a failed dial or close raises, and the end is at most the last attempt's connecting and closing past the deadline |
| Provisioning.SessionLateIff | src/sigsig/provisioning/flow.py:117-135 | the wait ends after its deadline exactly when it started late or some attempt made ends late |
| Provisioning.OverrunsIff | src/sigsig/provisioning/flow.py:119-135 | an attempt ends late only if connecting and closing exceed the time beyond the attempt timeout, and then whenever its listen times out |
| Provisioning.LastAttemptOverruns | src/sigsig/provisioning/flow.py:126-129 | with 120 seconds or less left, an attempt that times out ends late |
| Provisioning.LateExample | src/sigsig/provisioning/flow.py:117-135 | a wait that ends 42 ms late |
| Provisioning.AllClosedBeforeNextDial | src/sigsig/provisioning/flow.py:124-135 | at each dial every earlier connection has been closed exactly once |
| Provisioning.ListenEnds | src/sigsig/provisioning/flow.py:138-161 | the four ways a listen ends and when, by what the first two pushes and the socket do |
| Provisioning.TurnEnds | src/sigsig/provisioning/flow.py:119-135 | what one attempt comes to, failed dials and closes included, and when it is over |
| Provisioning.LinkedIffFirstSuccess | src/sigsig/provisioning/flow.py:117-135 | the loop returns an envelope exactly when some attempt in time succeeds and closes cleanly after attempts that came back empty |
| Provisioning.RaisedIffFirstBreak | src/sigsig/provisioning/flow.py:117-135 | it raises exactly when some attempt in time, after ones that came back empty, fails to connect, raises while listening or fails to close |
| StoreBlob.CollectListing | rust/sigsig_libsignal/src/lib.rs:155-171 | every listing of a map, in any order, collects back to it |
| StoreBlob.UuidRoundTrip | rust/sigsig_libsignal/src/lib.rs:141-170 | a uuid survives its byte form |
| StoreBlob.BlobRoundTrip | rust/sigsig_libsignal/src/lib.rs:106-172 | loading a serialised store gives back identity, registration id and all six tables for every iteration order |
| SessionFile.SigsigStore.Snapshot | src/sigsig/session/store.py:90-93 | refreshes the blob and nothing else |
| SessionFile.SaveAndReload | src/sigsig/session/store.py:81-93 | a store saved and loaded has every table of the live one |
| SessionFile.TmpNameAppends | src/sigsig/session/store.py:132-132 | the temporary name is the name followed by .tmp, so never the target |
| SessionFile.Directory.SaveSessionFile | src/sigsig/session/store.py:129-135 | in every state along the way the target holds the complete old or the complete new text, the latter readable by the owner only |

## Left out

- Buckets.PaddedSize: exact rationals as the docstring describes; `math.log` and `math.pow` round, and the float result can differ at a bucket's edge.
- Provisioning.WaitForEnvelope: requires each connection to take at least a millisecond; with a clock that stands still the loop need not end.
- Cancelling a `close()` call, a second iterator over `requests()`, and a task cancelled before its first step (except the keepalive task).
- In `Conversation`, messages delivered out of order, lost or to several devices of one sender at once, and pushes of other senders in between.
- asyncio scheduling beyond atomic steps, fairness, and wall time; nothing is said about how soon a step is taken.
- Text of log lines and of the exceptions carried in events, apart from the test for "not found".
- Library internals: Double Ratchet, PQXDH, sealed sender, zkgroup, AES, HMAC, SHA-256, HKDF, X25519; their laws are stated in `Lawful` and `Paired`.
- A session record the library holds but reports as not found (for instance a stale unacknowledged one); sessions are taken to be usable.
- Protobuf, JSON, pydantic and bincode wire formats, and missing JSON keys; percent-encoding is modelled on UTF-8 bytes.
- HTTP, CDN and TLS clients, status-code mapping, the account attribute builders, CLI, QR rendering, group credential fetch.
- Prekey generation and the use of prekeys on decryption; the receiving store is a value of any type with decrypt operations.
- Disk errors while saving: the steps are those of a run without them, and a crash leaves one of the states between them.
