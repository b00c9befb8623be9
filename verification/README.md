# Secure Comm Firmware: a verified model of the message path

Two kinds of program exchange end-to-end encrypted messages: ESP32 devices (`main/`) and a relay
(`server/relay_server.py`) that forwards their frames without being able to read them. A device opens a pairwise
session with each provisioned peer by exchanging signed hellos, then sends counter-numbered AES-GCM boxes. This
project models that path, from the octets that are hashed to the lines on the wire, and proves what it is for.

`dafny verify dfyconfig.toml` checks everything.

## How the files fit together

- `Bytes`, `Encoding`, `Crypto`: C strings and `strcmp`, the canonical byte strings and the fixed buffers they are
  built in, and the cryptographic operations over ideal primitives. Keys, signatures and sealed boxes are terms of
  free datatypes; session-id octets come from an arbitrary function, so nothing assumes that two ids differ.
- `Sessions`, `CounterText`, `Protocol`: the eight-slot table as a class that refines a bounded map, the decimal
  counter text, and each critical section of `main/protocol.c` as a function on the table.
- `Device`: one boot as a state machine. The receiver and console tasks interleave at the critical sections;
  between two of them a task holds what it copied under the lock. `StepKeepsInv` is the invariant of every step.
- `Firmware`: `main/protocol.c` as a class over the session manager, one method per stretch between two points where
  the other task may run. Each method's new state is the state machine's step, so every theorem about runs holds of
  every interleaving of these methods.
- `DeviceSafety`, `Acceptance`, `Outcomes`: what every interleaving of a boot guarantees, which frames are acted on, and
  what each operation refuses, changes and sends, told from its arguments and the table before it.
- `Reinstall`, `NonceReuse`, `Replay`, `ReinstallExample`, `Noise`: exactly when a boot can repeat a nonce or deliver a
  message twice, a run that does, and which frames leave no trace.
- `Network`, `EndToEnd`, `ReorderExample`: any number of devices and restarts with a relay that drops, duplicates,
  reorders and invents frames, and a run that shows why order is promised session by session.
- `Handshake`, `StartUp`, `Channel`, `Conversation`: over in-order links, the hello exchange stops in agreement
  whatever else the devices do meanwhile, and from then on everything sent is delivered.
- `Relay`, `RelayLedger`, `RelayExample`, `RelayServer`: the relay as a state machine whose steps run between two
  suspension points, the conservation and order results, and the imperative handlers that refine it. `RelayAccess` says
  who is let in and which lines pass; `RelayOrder` exactly when a link in order can still be brought out of order.
- `Lanes`, `RelayedChannel`, `RelayedHandshake`: the relay as the link between two devices, and completeness and
  agreement through it. `TextCodec` and `HelloCodec` show that the texts of the frames can be parsed as these assume.
- `Lines`, `FrameSizes`, `Literal`: line framing, buffer and frame sizes, and the escaper of the configuration tool.

## Where the code and its documentation part

The documentation says that replaying a signed hello must not reset established counters (`README.md:530`) and that
the counters prevent nonce reuse (`README.md:23`). The duplicate test (`main/protocol.c:384-387`) compares only with
the handshake that is installed at the moment. A copy of the installed hello is harmless (`HelloHandledTwice`, `Noise`).
A copy of a hello whose handshake has since been replaced is installed again and does restart the counters.
`ReinstallExample` is such a run.

The exact conditions are these. A boot can come to repeat a (key, nonce) pair if and only if some hello it accepts
restarts a transmit key that has sealed something, or that a suspended send has captured (`NonceReuse.NonceSafetyIff`).
It can come to deliver a message twice if and only if some hello it accepts restarts a receive key that has delivered
something (`Replay.ReplaySafetyIff`). Boots that never install a replaced handshake again, which `clean` marks, are among
the safe ones. Claims about one installed session need no hypothesis.

The order in which messages of one key arrive can differ from the order in which they were sealed, if the sender has
installed the same handshake twice and so sealed in two sessions under that key (`ReorderExample`). Session by session
the order is kept without any hypothesis (`EndToEndIntegrity`).

The relay is not always an in-order link. A frame forwarded while its recipient's registration is suspended at the status
drain overtakes the popped offline frames, and so can one that is queued while an earlier registration of a recipient
that is no longer registered still holds frames (`RelayExample` has both runs). A registration that ends while it is
suspended takes its frames with it. A link is settled when what is written, held and queued is in order, only one
registration holds frames, and nothing is queued behind it, so that no resumption can reorder anything.
`StepStaysSettledIff` says for every event exactly when the link to a recipient stays settled, `CalmRunIff` says it for
every run, and `RelayIsAnInOrderLink` is what those runs give. `OrderIsSafeIff` is the exact condition on the frames
themselves: a link in order stays so under any registrations if and only if the blocks of frames that are held and queued
commute, as they do on a settled link.

## Model

| member | source | states |
|---|---|---|
| Bytes.StrLessIsStrictTotalOrder | main/crypto_engine.c:114-120 | On C strings `strcmp(a, b) < 0` is a strict total order, so two different devices always disagree about who is low. |
| Bytes.StrLessIsDictionaryOrder | main/crypto_engine.c:114 | On C strings `strcmp(a, b) < 0` if and only if there is a place up to which they agree and at which a ends or has the smaller octet. |
| Bytes.BigEndianAt | main/crypto_engine.c:174-177 | The octet the shift loops store at distance i from the end is octet i of the counter. |
| Bytes.BigEndianRoundTrip | main/crypto_engine.c:174-177 | A counter is read back from its big-endian octets. |
| Bytes.CounterOctetsInjective | main/crypto_engine.c:201-203 | Two 64-bit counters with equal octets are equal. |
| Encoding.EncodeIdPrefixFree | main/crypto_engine.c:51-69 | The length octet makes an id self-delimiting whatever follows it. |
| Encoding.HelloInjective | main/crypto_engine.c:71-103 | Equal hello strings have equal ids, ephemeral keys and boot nonces. |
| Encoding.TranscriptInjective | main/crypto_engine.c:105-159 | A transcript determines its two ends up to their order. |
| Encoding.TranscriptSymmetric | main/crypto_engine.c:114-120 | Both ends of a handshake compute the same transcript. |
| Encoding.AadInjective | main/crypto_engine.c:161-193 | Equal associated data have equal ids, session id and counter. |
| Encoding.NonceInjective | main/crypto_engine.c:195-204 | Under one session id, GCM nonces are equal only for equal counters. |
| Encoding.HelloLayout | main/crypto_engine.c:71-103 | A hello string is version 1, each id behind its length octet, the key at the next 65 octets, the boot nonce at the last 16. |
| Encoding.AadLayout | main/crypto_engine.c:161-193 | The associated data are version 1, each id behind its length octet, the session id, and the counter with its high octet first, each at its place. |
| Encoding.NonceLayout | main/crypto_engine.c:195-204 | The GCM nonce has 12 octets: four of the session id, then eight that read as the counter, high octet first. |
| Encoding.TranscriptLayout | main/crypto_engine.c:105-159 | At whichever end it is built, a transcript holds version 1, then the end whose id comes first in the dictionary order, then the other. |
| Encoding.FormatsFitAndAreDisjoint | main/crypto_engine.c:78-181 | The three formats have 86..146, 167..227 and 21..81 octets, fit buffers of 192, 320 and 128, and never coincide. |
| Encoding.ToolIdsAreEncodable | tools/configure_device.py:13 | Every id the provisioning pattern matches is accepted by append_id and is a C string. |
| Encoding.AppendBytes | main/crypto_engine.c:35-49 | Appends all of the data, or, exactly when it does not fit, nothing. |
| Encoding.AppendId | main/crypto_engine.c:51-69 | Succeeds exactly on an id of 1 to 31 octets that fits behind its length octet; then appends the two, otherwise reports failure. |
| Encoding.BuildHello | main/crypto_engine.c:71-103 | The hello string is built unless an id has a bad length; the 192-octet buffer never is the reason. |
| Encoding.BuildTranscript | main/crypto_engine.c:105-159 | The transcript is built, low end first, unless an id has a bad length. |
| Encoding.BuildAad | main/crypto_engine.c:161-193 | The associated data are built in the caller's buffer, counter big-endian. |
| Encoding.BuildGcmNonce | main/crypto_engine.c:195-204 | The nonce array is four session-id octets and the counter. |
| Crypto.DerivationMirrors | main/crypto_engine.c:497-508 | For distinct ids, each end's transmit key is the other's receive key, the ids agree, and the two directions differ. |
| Crypto.DerivationParts | main/crypto_engine.c:479-508 | The session id is what the derivation function gives for the transcript and the secret; the end whose id comes first in the dictionary order sends with the low-to-high key and receives with the other. |
| Crypto.KeyDeterminesPeer | main/crypto_engine.c:479-508 | A device's transmit or receive key determines the handshake it came from. |
| Crypto.SharedKeyPairsEnds | main/crypto_engine.c:497-508 | If a receive key of one device is a transmit key of another, the two hold the two ends of one handshake. |
| Crypto.DecryptInvertsEncrypt | main/crypto_engine.c:519-640 | A sealed box opens to its text under the same key, ids, session id and counter, and under no others. |
| Crypto.EncryptMessage | main/crypto_engine.c:519-579 | The wrapper seals exactly for a nonzero counter and valid ids, with the nonce and associated data it built. |
| Crypto.DecryptMessage | main/crypto_engine.c:581-640 | The wrapper opens what that sealing produced and nothing else. |
| Crypto.DeriveKeys | main/crypto_engine.c:422-517 | The derivation fails exactly on an invalid point or id and selects the keys by role. |
| Crypto.SignHelloMessage | main/crypto_engine.c:324-374 | Signs the canonical hello of this boot for the given peer. |
| Crypto.VerifyHelloMessage | main/crypto_engine.c:376-420 | Accepts exactly the named peer's signature over exactly these values. |
| Sessions.ProvisionedPeersAlwaysFit | main/session_manager.c:45-66 | With at most eight provisioned peers a slot is found for each, by pigeonhole. |
| Sessions.ToMapAt | main/session_manager.c:36-40 | The slot scan and the map agree on every id. |
| Sessions.ToMapSize | main/session_manager.c:56-63 | With distinct used ids, the map is full exactly when every slot is used. |
| Sessions.ToMapUpdate | main/session_manager.c:57-61 | Writing a free slot or the id's own slot updates one key and keeps ids distinct. |
| Sessions.SessionManager.Find | main/session_manager.c:30-43 | Finds the id's slot, or nothing exactly when the map has no such key. |
| Sessions.SessionManager.GetOrCreate | main/session_manager.c:45-66 | Fails exactly if no used slot has the id and the id is too long or all slots are used; otherwise returns the slot of the id, as it was or, if new, cleared; no other slot changes, and the map is refined. |
| Sessions.SessionManager.Store | main/protocol.c:397-406 | A write through a session pointer changes one key and no other slot. |
| CounterText.CounterRoundTrip | main/protocol.c:445-450 | Every counter from 1 to 2^64-1 prints into the 24-octet buffer and parses back to itself. |
| CounterText.ParseIff | main/protocol.c:445-450 | A counter is taken from a text if and only if the text is white space, an optional sign, one or more digits and nothing else, of a value from 1 to 2^64-1, negated modulo 2^64 after a minus sign. |
| CounterText.PrintHasNoLeadingZero | main/protocol.c:266 | What is printed is digits only, without a leading zero. |
| Protocol.AcceptHelloTouchesOneSlot | main/protocol.c:371-408 | The critical section of handle_hello either installs or leaves the session as it was, in the sender's slot only. |
| Protocol.MarkKeepsSession | main/protocol.c:164-171 | Noting a sent hello changes no session. |
| Device.StepKeepsInv | main/protocol.c:100-531 | Every event of either task keeps the device invariant: keys derive from stored values, windows match deliveries, counters bound seals. |
| Device.RunKeepsInv | main/app_main.c:63-153 | So does every interleaving of the receiver and the console. |
| DeviceSafety.StoredSessionsDerive | main/protocol.c:384-406 | In every reachable state an established slot holds the derivation from its stored values, so the session-id comparison of the duplicate test is implied by the other two. |
| DeviceSafety.StoredValuesWereSigned | main/protocol.c:339-406 | In every reachable state the peer values of an established slot came in a hello among the events received, signed by that peer for this very device. |
| DeviceSafety.InstallsWereBrought | main/protocol.c:339-406 | So did those of every handshake the boot ever installed, also the replaced ones. |
| DeviceSafety.SessionsOnlyOpen | main/protocol.c:371-408 | No event ends a session, and none changes two slots. |
| DeviceSafety.NoPeerIsTurnedAway | main/protocol.c:372-376 | In every reachable state used ids are provisioned ids, and every provisioned peer has or gets a slot. |
| DeviceSafety.SessionsAreReplayFree | main/protocol.c:481-526 | While a message is being opened the second guard is bound to succeed; the window is the last delivered counter; delivered counters strictly increase per installed session. |
| NonceReuse.NonceReuseIffRestart | main/protocol.c:384-406 | As long as every key was used in one session, and whatever the console is in the middle of: a hello opens a way to a repeated key and nonce, along some run without a further hello, if and only if it restarts a key that has sealed something or been captured. |
| NonceReuse.NonceSafetyIff | main/protocol.c:209-226 | For every boot and interleaving: no hello restarts a used key if and only if at no point the device could go on, without a further hello, to repeat a key and nonce. |
| NonceReuse.RestartFreeRunsHaveUniqueNonces | main/protocol.c:209-226 | Over every boot in which no hello restarts a used key, no two sealed messages, nor the one whose key is held by a suspended send, share key and GCM nonce. |
| NonceReuse.RestartLeadsToReuse | main/protocol.c:384-406 | After a hello that restarts a used key, the console alone can repeat a key and nonce. |
| NonceReuse.NonceUniqueness | main/protocol.c:209-226 | So no two do over a boot in which no replaced handshake is installed again. |
| Replay.ReplayIffReopened | main/protocol.c:384-406 | As long as every delivery belongs to one session: a hello opens a way to a second delivery, along some run without a further hello, if and only if it restarts a key that has delivered something. |
| Replay.ReplaySafetyIff | main/protocol.c:481-526 | For every boot and interleaving: no hello restarts a heard key if and only if at no point a message could come to be delivered twice without a further hello. |
| Replay.ReopenFreeRunsHaveNoReplay | main/protocol.c:481-526 | Over every boot in which no hello restarts a heard key, no receive key and counter is delivered twice. |
| Replay.ReopeningLeadsToReplay | main/protocol.c:384-406 | After a hello that restarts a heard key, a kept frame is delivered again. |
| Replay.ReplayFreedom | main/protocol.c:481-526 | So none is over a boot in which no replaced handshake is installed again. |
| Replay.DeliveredCopyRejected | README.md:526 | As long as every delivery belongs to one session, a copy of any delivered frame changes nothing. |
| Replay.ReplayIffReinstall | main/protocol.c:384-406 | A copy of a delivered frame is delivered right after a hello if and only if that hello reinstalls the handshake of that message. |
| ReinstallExample.ReplayedHelloRepeatsNonce | README.md:530 | Old hello, new hello, old hello again, one message after each: two messages share key and nonce, for every boot and every two handshakes of one peer. |
| ReinstallExample.ExampleBoot | main/protocol.c:384-387 | Such a boot and such handshakes exist. |
| Acceptance.HelloAcceptedIff | main/protocol.c:294-369 | A hello reaches the critical section exactly when a provisioned peer signed these values for this device and the point is valid. |
| Acceptance.HelloHandledTwice | main/protocol.c:378-395 | A hello that was handled and answered does nothing when it comes again: no counter moves and no reply is due. |
| Acceptance.DeliveredIffGenuine | main/protocol.c:435-531 | A data frame is delivered exactly when its counter text spells a counter past the window and its box is what the other end of the session seals with that counter; then only that window moves, to that counter. |
| Acceptance.OldSessionIsDead | README.md:528-529 | Once another handshake is installed, nothing sealed under the former keys is delivered. |
| Outcomes.HelloResults | main/protocol.c:294-376 | In every reachable state, which error a hello meets, check by check in the order of the code, and that a reply is due unless the slot holds these very values and its own hello was sent. |
| Outcomes.HelloOutcome | main/protocol.c:371-408 | A refused hello changes nothing; an accepted one leaves a session it already is as it was, and otherwise installs its values, the keys derived from them and zero counters, and keeps hello_sent; no other slot changes. |
| Outcomes.DataResults | main/protocol.c:435-512 | Which error a data frame meets, in the order of the code, and that it is delivered if and only if its box is one for the key, nonce and associated data of its own fields. |
| Outcomes.SendResults | main/protocol.c:190-284 | Which error protocol_send_message returns, in the order of the code. |
| Outcomes.SendOutcome | main/protocol.c:198-244 | A send that gets to the counter uses up one, whether or not the encryption works, and changes nothing else; what it seals has that counter and the session's key and id. |
| Outcomes.SentFrameIsDelivered | main/protocol.c:228-531 | The frame of a send, given to a peer with the mirrored session and an older window, delivers exactly the text, with that counter, and moves the window to it. |
| Noise.NoiseIsInvisible | main/protocol.c:335-517 | Rejected frames (hellos that fail a check or find no slot, data frames that fail a check, are behind the window, of another session or not authentic), copies of delivered data and copies of the installed hello, inserted anywhere in a run in which no hello restarts a heard key, leave table and deliveries as without them. |
| Noise.NoiseIsInvisibleFromBoot | main/protocol.c:335-517 | The same for a whole boot, for sealed messages as well. |
| Network.NetRunInv | main/crypto_engine.c:324-420 | For every run of many devices against an untrusted relay, each held handshake has an author boot and each delivery an origin. |
| Network.VerifiedHelloHasAuthor | main/protocol.c:339-351 | A hello that verifies was made by one boot of its author, for this device, with these values. |
| Network.RelayCanReplay | README.md:526-530 | The relay of this model is strong: what a device once signed or sealed can arrive at any later point, anywhere, in a frame of any other fields. |
| EndToEnd.IncreasingSubset | main/protocol.c:489-493 | Two increasing message sequences, one contained in the other, form a subsequence. |
| EndToEnd.EndToEndIntegrity | main/protocol.c:426-531 | Without any hypothesis on the run: what is delivered under one installed session was sealed by one boot of that peer, for this device, with the same counter and text; counters increase; what was sealed in any one session of the sender arrives as a subsequence of it; nothing is reflected. |
| EndToEnd.OneInstallKeepsOrder | main/protocol.c:426-531 | If the sending boot installed the receiving boot once, all that is delivered is a subsequence of all it sealed under the key. |
| ReorderExample.DeliveredOutOfOrder | main/protocol.c:384-406 | A run of a whole network in which x, y, z are sealed under one key in two sessions and z, y are delivered, which is no subsequence. |
| ReorderExample.ExampleCast | main/protocol.c:384-387 | The devices and keys such a run needs exist. |
| Handshake.DeliverEffect | main/protocol.c:384-395 | Delivering a hello: the held values become those of the frame, and a reply is due unless they were held and the opening hello was sent. |
| Handshake.OwnHelloIsAccepted | main/protocol.c:100-174 | The hello a boot makes passes every check at the peer it is for. |
| Handshake.ExchangeTerminates | main/protocol.c:384-421 | However the moves of the exchange are interleaved with data frames, messages and the hellos of other peers, there are no more of them than the measure of the link they start from. |
| Handshake.AsideKeepsLink | main/protocol.c:190-284 | What comes between moves the exchange neither forward nor back: its conditions and its measure stay. |
| Handshake.RoomIsKept | main/protocol.c:372-376 | With at most eight peers, nothing that comes between takes the peer its slot. |
| Handshake.ExchangeCanFinish | main/protocol.c:384-421 | From every link that meets the conditions there is a schedule that brings it to rest. |
| Handshake.QuietEndsAgree | main/protocol.c:384-421 | When nothing is pending at either end, keys mirror and session ids are equal. |
| Handshake.ExchangeEndsInAgreement | main/protocol.c:384-421 | Every run, with whatever came between, that has come to rest has reached agreement. |
| Handshake.RestartLeadsToAgreement | main/protocol.c:389-395 | If one device restarts while the other stays up, the link with its opening hello again meets the conditions of the exchange results. |
| Handshake.FirstContactLeadsToAgreement | main/protocol.c:176-188 | So does the link of two devices that have just greeted each other. |
| Handshake.OneHelloIsEnough | main/protocol.c:176-188 | So does one on which only one of the two opening hellos left. |
| StartUp.StartUpReachesEveryPeer | main/protocol.c:176-188 | Start-up signs a hello for every provisioned peer and leaves exactly those whose hello the transport took with a slot, the hello noted and no session. |
| StartUp.StartedDevicesAgree | main/protocol.c:176-188 | Two started devices, at least one hello of which left, can come to rest, do so within the measure, and then agree. |
| Channel.ReceiverAccepts | main/protocol.c:445-531 | A frame of the session with a counter past everything accepted is accepted, whatever the gap. |
| Channel.NothingIsRefused | main/protocol.c:445-531 | At no point of a channel run is a frame refused: receiving and opening it delivers its message. |
| Channel.Completeness | main/protocol.c:223-531 | With mirrored sessions and an in-order lossless channel, an emptied channel means delivered equals sent, in order, whatever failed sends skipped and whatever else the devices did. |
| Conversation.AgreementOpensChannel | main/protocol.c:397-406 | Two ends that agree, of which the receiver has heard nothing in the session, meet the conditions of the channel result. |
| Conversation.StartedDevicesCanTalk | main/protocol.c:176-531 | From start-up on: after any exchange that has come to rest, whatever came between, everything put on the link is delivered, once and in order. |
| Conversation.SomeExchangeComesToRest | main/protocol.c:176-188 | An exchange that this result is about exists for every two started devices. |
| RelayedChannel.PathRunRefines | server/relay_server.py:68-95 | A run over the relay that is calm for the receiver is a run of an in-order lossless channel, whatever else happens at the relay. |
| RelayedChannel.RelayedCompleteness | server/relay_server.py:47-95 | Through such a run, once drained, the messages delivered in the session are exactly those sent, in order. |
| RelayedHandshake.PairRunRefines | server/relay_server.py:68-95 | A run over the relay that is calm for both devices is a run of the hello exchange over lossless in-order links. |
| RelayedHandshake.RelayedAgreement | main/protocol.c:384-421 | Through such a run the exchange has no more moves than its measure, and at rest keys mirror and session ids are equal. |
| RelayedHandshake.StartedPairIsInOrder | main/protocol.c:176-188 | Two devices that have just started, over a relay that has accepted nothing from one for the other, meet its conditions. |
| Lanes.UploadMovesNothing | server/relay_server.py:87-95 | A line read from its sender goes from what is sent to what is accepted, without changing what is on the way. |
| Lanes.ReadingTakesOldest | server/relay_server.py:94 | What a receiver reads next from a sender is the oldest line on the way. |
| TextCodec.Base64Injective | main/protocol.c:20-39 | Base64 texts of octet strings of one length tell them apart. |
| TextCodec.TextTellsMessage | main/protocol.c:246-281 | Two messages of a session with one frame text are one message. |
| TextCodec.TextsAreACodec | main/protocol.c:246-281 | For every session, the texts the firmware builds can be parsed back, pass the relay and name their ends. |
| HelloCodec.TextTellsHello | main/protocol.c:120-162 | Two hellos of two devices with one text are one hello. |
| HelloCodec.TextsAreACodec | main/protocol.c:120-162 | The hello texts of every two devices can be parsed back, pass the relay and name their ends. |
| Firmware.ProtocolEngine.FindPeer | main/peer_store.c:5-18 | The scan finds exactly the provisioned ids. |
| Firmware.ProtocolEngine.AuthenticateHello | main/protocol.c:294-369 | The checks in the code's order give the specified result and error. |
| Firmware.ProtocolEngine.AcceptHandshake | main/protocol.c:371-408 | The critical section of handle_hello over the slot array is the specified table change. |
| Firmware.ProtocolEngine.ReceiveHello | main/protocol.c:286-417 | handle_hello up to its unlock is the state machine's hello event. |
| Firmware.ProtocolEngine.SendReply | main/protocol.c:419-421 | The reply is this boot's hello, and is the state machine's reply event. |
| Firmware.ProtocolEngine.MarkReply | main/protocol.c:164-171 | The marking after a reply. |
| Firmware.ProtocolEngine.HandleHello | main/protocol.c:286-424 | handle_hello from start to end is the three events in a row; it returns its own error or that of a reply it could not send. |
| Firmware.ProtocolEngine.SendHello | main/protocol.c:100-162 | An unprovisioned peer gets nothing; any other gets this boot's hello. |
| Firmware.ProtocolEngine.MarkHello | main/protocol.c:164-171 | The marking after that hello. |
| Firmware.ProtocolEngine.Greet | main/protocol.c:100-174 | protocol_send_hello from start to end: the hello is noted exactly if the transport took it. |
| Firmware.ProtocolEngine.SendHelloToAll | main/protocol.c:176-188 | Every provisioned peer is greeted, in order; a failure does not stop the others and is what the call returns. |
| Firmware.ProtocolEngine.TakeCounter | main/protocol.c:190-226 | The errors of protocol_send_message, the guard at 2^64-1, and the next counter taken with the key captured. |
| Firmware.ProtocolEngine.SealMessage | main/protocol.c:228-284 | The frame carries the box sealed with the captured key and counter; a failing encryption or transport is what is returned. |
| Firmware.ProtocolEngine.SendMessage | main/protocol.c:190-284 | A frame leaves if and only if the text, session, counter and ids allow it and the library works; it is from this device to the peer, with the session id and the next counter of the table before the call, and the box sealed with them under its transmit key; the state is that of the two events in a row, and the first error is returned. |
| Firmware.ProtocolEngine.ReceiveData | main/protocol.c:426-497 | handle_data up to its first unlock, with its errors (`Outcomes.DataResults` lists them; `CounterText.ParseIff` is what it takes for a counter). |
| Firmware.ProtocolEngine.OpenMessage | main/protocol.c:499-531 | Decryption with its errors and the second critical section. |
| Firmware.ProtocolEngine.HandleData | main/protocol.c:426-531 | handle_data from start to end delivers what it decrypts and nothing else, and returns the error of its checks or of decryption. |
| Relay.StepKeepsInv | server/relay_server.py:47-164 | Every step of every handler keeps the relay invariant. |
| Relay.RegistryInvariant | server/relay_server.py:50-92 | In every interleaving: registered connections are open and carry the identity they are filed under, registered recipients have empty queues, and the queue of an unregistered one is the last 100 frames accepted since it was last registered. |
| Relay.CleanupSparesNewer | server/relay_server.py:155-159 | A handler on its way out never removes another connection's registration. |
| Relay.ForwardsGoToOpenConnections | server/relay_server.py:55-95 | What forward_frame writes goes to the connection the recipient is registered on, which neither its handler nor a later registration has closed. |
| RelayAccess.EntryIffRegistration | server/relay_server.py:112-128 | Of all events, only a registration makes an entry in the registry, and it does if and only if its handler is new, the certificate identity is nonempty and on the allow-list, and the claim is that identity. |
| RelayAccess.RegisterOutcome | server/relay_server.py:47-57 | Such a registration takes the entry over, closes the connection that had it and no other, and empties that one queue into its own hands. |
| RelayAccess.RefusalOutcome | server/relay_server.py:112-126 | Any other registration of a new connection ends its handler, which is broken exactly if an authorized certificate comes with an unhashable claim, and changes nothing else. |
| RelayAccess.AcceptedIffForwarded | server/relay_server.py:78-85 | Of all events, only a forwarded line adds to what is accepted for a recipient, and it does if and only if its connection serves, its type is supported, it names the certificate identity as sender and that recipient, who is on the allow-list, and it has at most 4096 octets. |
| RelayAccess.ForwardOutcome | server/relay_server.py:78-95 | Such a line is written to the connection of a registered recipient or appended to the queue of an unregistered one, and no other book or queue moves; any other line ends its handler and leaves all books, queues and entries alone. |
| RelayAccess.FramedIsLine | server/relay_server.py:87 | What is passed on of a line is the part up to its last octet that is no CR or LF, and one LF. |
| RelayAccess.ResumeOutcome | server/relay_server.py:58-65 | A suspended registration can always resume; it then writes all it popped to its own connection, in order, and serves. |
| RelayAccess.FinishOutcome | server/relay_server.py:155-160 | A handler that ends removes the entries of its own connection only, touches no queue, and closes its connection alone, and that unless it is broken. |
| RelayAccess.FinishLoses | server/relay_server.py:62-65 | The frames its suspended registration had popped are lost; no other book changes. |
| RelayAccess.AllowListHolds | server/relay_server.py:68-128 | In every interleaving: only nonempty identities on the allow-list are registered, suspended or served; frames are accepted and queued for allowed recipients only, from allowed senders only; and every frame written went to a connection of its recipient and had been accepted for it. |
| RelayLedger.RelayConserves | server/relay_server.py:47-95 | In every interleaving and for each recipient, accepted frames are, as a multiset, written, queued, held by a suspended registration, evicted, and lost with an ended one. |
| RelayLedger.AcceptKeepsOrderIff | server/relay_server.py:88-94 | For one frame and the present moment: what is written, held and queued stays in order if and only if no suspended registration holds a different frame for the registered recipient, or the queue of the unregistered one has room. |
| RelayLedger.AcceptStaysSettledIff | server/relay_server.py:88-94 | A settled link stays settled if and only if, besides, no registration holds frames of an unregistered recipient. |
| RelayLedger.FinishStaysSettledIff | server/relay_server.py:155-159 | The end of a handler keeps a settled link settled if and only if it takes no popped frames with it. |
| RelayLedger.StepStaysSettledIff | server/relay_server.py:47-164 | Every event keeps a settled link settled if and only if it is calm. |
| RelayLedger.CalmRunIff | server/relay_server.py:47-164 | The calm runs are exactly those that keep the link settled throughout. |
| RelayOrder.OrderIsSafeIff | server/relay_server.py:47-65 | A link in order stays in order under all connections, registrations and resumptions if and only if the blocks held and queued for its recipient commute. |
| RelayOrder.ResumeKeepsOrderIff | server/relay_server.py:62-65 | A resumption keeps the order if and only if its frames commute with those of earlier registrations. |
| RelayOrder.SettledIsInterchangeable | server/relay_server.py:50-65 | On a settled link they do. |
| RelayLedger.CalmRunStaysSettled | server/relay_server.py:58-95 | Calm runs keep written, held and queued frames in the order of acceptance. |
| RelayLedger.RelayIsAnInOrderLink | server/relay_server.py:58-95 | In a calm run, what was accepted from a sender is what was written to the successive connections of the recipient and then what is on its way, in order, and the sender a frame claims is the certificate identity of the connection it came in on. |
| RelayExample.ForwardDuringRegistrationOvertakes | server/relay_server.py:58-65 | A concrete run in which frames accepted as x, y are written as y, x. |
| RelayExample.QueueBehindRegistrationOvertakes | server/relay_server.py:58-92 | A second run in which y, queued while an earlier registration holds x, is written before x though it overtook nothing when it was accepted, and nothing was evicted or lost. |
| RelayServer.Server.RegisterClient | server/relay_server.py:47-128 | The registration checks, then takeover of the entry, popping of the queue and closing of the connection taken over from, in one step (`RelayAccess` says what that step admits and does). |
| RelayServer.Server.FinishRegistration | server/relay_server.py:62-65 | The popped frames are written one by one, in order. |
| RelayServer.Server.Enqueue | server/relay_server.py:27-29 | The bounded queue drops its oldest entry when full. |
| RelayServer.Server.ForwardFrame | server/relay_server.py:68-95 | The checks in order, then a write or an append with no suspension between (`RelayAccess` says what that step accepts and does). |
| RelayServer.Server.Cleanup | server/relay_server.py:155-160 | The end of a handler, at whatever point it comes: popped frames are gone, its own entry is removed, and its connection is closed unless the device_id made the cleanup raise. |
| Lines.WriteAllSends | main/tls_transport.c:18-39 | However writes are split and retried, success means all of the data went out, failure a proper prefix of it. |
| Lines.WriteFailsIff | main/tls_transport.c:18-39 | A write fails if and only if the connection breaks before it has taken all of the data; what it had taken by then is what went out. |
| Lines.SendLineSends | main/tls_transport.c:111-125 | A line sent is the line and its terminator; a failed send puts a proper prefix of the line and terminator on the wire, and never the terminator. |
| Lines.SendLinesJoins | main/tls_transport.c:111-125 | Lines sent successfully are on the wire, each with its terminator; when sending fails, a proper prefix of that is. |
| Lines.RelayPassesLines | server/relay_server.py:87 | The relay's strip-and-terminate step leaves a sequence of lines as it is. |
| Lines.ReadsOneLine | main/tls_transport.c:127-161 | The bounded reader returns the next line, terminated, and leaves the rest, whatever stalls come between octets. |
| Lines.ReadsUntilFull | main/tls_transport.c:133-160 | A line longer than the buffer is cut where the buffer is full: its first octets but the CRs, terminated, and the rest stays unread. |
| Lines.ReadsUntilClosed | main/tls_transport.c:136-147 | When the connection closes within a line, what has come of it, without CRs, is returned as its length; if nothing has come, the closing code is. |
| Lines.ReadsAllLines | main/app_main.c:68-81 | The receiver's loop returns the lines one by one and then stops. |
| Lines.FramingRoundTrip | main/tls_transport.c:18-161 | Sending, relaying and reading give back exactly the lines, for every schedule at both ends. |
| Lines.Connection.SendAll | main/tls_transport.c:18-39 | The cursor loop is the specified write. |
| Lines.Connection.SendOneLine | main/tls_transport.c:111-125 | A line and its terminator, the second only after the first. |
| Lines.Connection.ReadOneLine | main/tls_transport.c:127-161 | The reader in the caller's buffer: its text, length, terminator and what it leaves, at end of stream and on over-long lines as well. |
| FrameSizes.SignatureFitsIff | main/protocol.c:137-141 | A signature fits its base64 buffer exactly up to 141 octets. |
| FrameSizes.HellosFit | main/protocol.c:120-162 | Every hello fits its buffers, the sender's and the relay's limits and the receiver's buffer, even if ids need escapes. |
| FrameSizes.DataFramesFit | main/protocol.c:246-281 | So does every data frame, for every message limit from 32 to 1024 and every counter. |
| FrameSizes.FrameIsCarriable | main/protocol.c:56-71 | The text of every frame the firmware builds is a line both transports carry: no control characters, not empty, short enough for the relay and the receiver. |
| FrameSizes.FramesTravel | main/tls_transport.c:18-161 | Any sequence of such frames, sent, relayed and read under any schedules, arrives text by text. |
| Literal.ReplacementsAreOnePass | tools/configure_device.py:20-25 | The four successive replacements are one pass over the characters. |
| Literal.SplitLinesLosesNothing | tools/configure_device.py:17 | Splitting with line ends kept loses nothing, for every line break Python knows. |
| Literal.SplitLinesIff | tools/configure_device.py:17 | The split is the one way to cut the text into pieces that each have a break at their end at most, CR LF counting as one and never falling apart, and of which all but the last have one. |
| Literal.BuildCStringLiteral | tools/configure_device.py:16-29 | The loop builds the specified literals. |
| Literal.LiteralRoundTrip | tools/configure_device.py:16-29 | Read as adjacent C string literals, the output is the input, for every text. |

## Left out

- The insides of SHA-256, ECDH, HKDF, ECDSA, AES-GCM and the random generator: ideal terms stand for them. An ECDH
  secret is named by the unordered pair of public keys, so fresh ephemeral keys are distinct by assumption.
- Key zeroisation, and allocation failures inside cJSON and mbedTLS other than a failing encryption.
- JSON and base64 parsing: frames carry their decoded fields, and a signature that does not decode is one of the
  signature terms. The printed texts, base64 included, are modelled, and shown to fit and to tell frames apart.
- TLS set-up, certificates, Wi-Fi, time synchronisation, NVS, OTA, the file server, PKI generation and build scripts.
- Console parsing, help text, logging, and the dispatch of `status` and `error` frames in `protocol_handle_line`.
- Liveness under an unfair scheduler, and anything probabilistic.
- EndToEnd.OneInstallKeepsOrder: needs that the sending boot installed the receiving boot's handshake once;
  ReorderExample shows the need, and EndToEndIntegrity is what holds without it.
- NonceReuse.NonceUniqueness: a corollary for boots in which no replaced handshake is installed again; NonceSafetyIff
  is the exact statement.
- Replay.ReplayFreedom: a corollary under the same hypothesis; ReplaySafetyIff is the exact statement.
- Channel.Completeness: the sender's configured message limit is at most the receiver's, because a receiver refuses
  a longer text; every device of one build has the same limit.
- Handshake.ExchangeTerminates: for one pair of devices, with no restart and no console hello to each other.
- Firmware.ProtocolEngine.SendHelloToAll: every failure of signing or sending counts as one error code.
- Conversation.StartedDevicesCanTalk: data frames of the two to each other before their exchange has come to rest are
  not among what is delivered.
- RelayedChannel.RelayedCompleteness: the two devices stay on the connections of one session; what a device does when
  its connection closes is to restart.
- Lines.FramingRoundTrip: lines are not empty and fit the reader's buffer. The receiver takes an empty line for the
  end of the connection, and a longer one is cut; the reader itself is modelled on those inputs too.
- RelayServer.Server.FinishRegistration: a handler that ends while its frames are being flushed counts as having
  written them, and frames written to a connection that has been closed count as written; socket failures are not
  modelled.
- RelayServer.Server.Cleanup: the error line sent to a rejected client is not modelled.
- RelayServer.Server.ForwardFrame: JSON that does not parse is an unsupported payload, and the sender's own wait for
  the recipient's drain is not a step, since it changes nothing.
- Literal.LiteralRoundTrip: C trigraphs, which current compilers do not replace by default, are not read.
