# AeroDesk: verified core models

A Dafny 4.11 model of the parts of AeroDesk whose correctness does not rest on one branch: the
file-transfer protocol with both of its ends, the streaming code that must not depend on how its
input is cut, the bitstream and pixel codecs, the privacy-screen rasteriser, the SIP link's
reconnect logic and the ICE candidate order. Check everything with

    dafny verify dfyconfig.toml --resource-limit 2000000 --verification-time-limit 0

## How it is laid out

Each operation is written once as a function on values, and, where the program updates objects in
place, a second time as a class whose methods are proved to compute exactly that function. The
theorems about runs are stated on the functions.

| file | what it holds |
|---|---|
| `Bytes.dfy` | bytes, fixed widths, little-endian integers, quotient and remainder |
| `FileProtocol.dfy`, `TransferSpec.dfy` | messages, constants and every operation of the file-transfer state machine |
| `PeerRuns.dfy`, `SendRuns.dfy` | invariants of one end over every sequence of calls and messages |
| `FileSends.dfy`, `FileReceives.dfy`, `SenderTicks.dfy`, `FileTicks.dfy` | what each call, message and tick leaves behind, on the fields and with limits and times written out |
| `FileDelivery.dfy` | a whole transfer: lossy bursts, then repair |
| `FileOutcomes.dfy` | what the history says of sends over whole runs |
| `FileAnnounce.dfy` | lost announcements are made again and taken |
| `SendLosses.dfy` | the one step that loses an accepted send, on the fields of the object |
| `FileNetwork.dfy`, `FileAcks.dfy`, `FileRepair.dfy` | two ends over a network that loses, repeats and reorders; reply chains; repair |
| `FileRecommit.dfy` | how often one id can be committed |
| `FileWitnesses.dfy` | concrete runs: a lost send, an id committed twice, a chain of three messages |
| `TransferObjects.dfy` | the classes `FileTransfer`, `Sender`, `Receiver` and the data channel |
| `TransferAgent.dfy` | the agent's event loop around a `FileTransfer` object |
| `Turn.dfy`, `TurnRuns.dfy`, `TurnObjects.dfy` | TURN over TCP: framing, channel table, round trip, from bound peers and from a new transport |
| `Resampler.dfy` | the windowed linear resampler against the ideal one |
| `Pcmu.dfy` | the 48 kHz to 8 kHz packetiser |
| `StartCodes.dfy`, `AnnexB.dfy`, `Keyframe.dfy` | start-code cutting, length-prefixed form, parameter-set injection |
| `Adrec.dfy` | reading a recording that may have been cut short |
| `Dib.dfy`, `DibRows.dfy` | the Windows clipboard bitmap, as written here and as written by other programs |
| `Wrapping.dfy`, `LineBreaks.dfy`, `Privacy.dfy` | text layout and rasterising of the privacy screen |
| `SipLink.dfy`, `SipLinkObject.dfy` | the resident SIP link |
| `Candidates.dfy` | usable addresses and their order |

## Assumptions

- File transfer: session ids carry the process they come from and a counter, and the two ends are
  different processes; a file does not change while it is being sent (its content is fixed when it
  takes the slot); SHA-256 is an uninterpreted function; one clock reading in milliseconds per
  operation; whether the channel accepts a message, a chunk can be read or a file can be stored is
  an arbitrary input; the iteration order of hash maps is an arbitrary input.
- The network is a set of everything ever sent: any message may be delivered at any time, any
  number of times, or never.
- The repair and delivery theorems drive the sending half of `tick` and the receiving half of
  `handle_data`; the receiver's own once-a-second Nack repetition is not part of them.
- File names: paths are Unix paths, with '/' as the only separator.
- TURN: what a CreatePermission or ChannelBind transaction returns and what it leaves in the frame
  buffer, and what a Data indication contains, are inputs. The exact size range also uses that the
  data of an indication is a slice of the packet behind an attribute header.
- Audio: `f32` and `f64` are real numbers.
- `usize` products of picture sizes do not overflow; a text privacy frame has a buffer of at least
  4wh bytes and 4wh is at most 2^32, which is what the program's 32-bit index arithmetic needs.
- The glyph table of the privacy screen is a parameter: any function from a character, a row and a
  column to a bit.
- SIP: whether a UA can be started and which events it offers are inputs; `attempt as i32 - 1`
  wraps as in a release build.

## What came out false or narrower than it sounds

- Conservation of accepted sends fails for exactly one step: a clipboard image that takes the slot
  from a regular send that failed and has no record in the book (`SendLosses.LosesIff`).
  `FileWitnesses.ImageLosesSend` is a run of three calls that gets there. In the agent's order of
  events, tick and then clipboard poll, that state is never met (`AgentConserves`).
- An id may be committed more than once and have several success records: `CommittedTwice` is such a
  run. The commits of an id never outnumber the receivers made for it (`CommitsBounded`), and a
  second commit needs meta data accepted after the first one (`RecommitNeedsMeta`).
- A TURN payload comes back through the TCP framing if and only if it has 16 to 65531 bytes and fits
  the receive buffer together with its four-byte header (`RoundTripIff`): with the buffers of 2000
  and 2048 bytes that the program passes, 16 to 1996 and 16 to 2044 bytes.
- Units cut from an Annex B stream are the joined ones if and only if none is empty, none contains a
  start code after its first byte, and none of two bytes or more ends in zero before a three-byte
  start code (`SplitInvertsJoinIff`).
- A clipboard bitmap gives its picture back if and only if the width is below 2^31 and there are
  fewer than 2^31 rows, or exactly 2^31 that read the same in reverse order (`Dib.RoundTripIff`).
- The resampler follows the ideal one only until a trim cuts past the read position, and
  `OvertakenIff` says exactly when that is.
- A recording is read back whole if and only if every payload length fits 32 bits (`WholeIffFits`).
- The units that the encoder's splitter returns are all of the data from the first start code on if
  and only if no start code is followed directly by another one or by the end (`SplitCovers`).
- The comments call the two SIP back-off rules alike. They agree exactly on the first five attempts;
  from the sixth on one is capped at 30 seconds and the other stays at 32 (`DelaysAgreeIff`), and the
  capped one falls back to one second when the attempt number no longer fits 31 bits
  (`RestartDelayIs`).

## Model

| member | source | states |
|---|---|---|
| FileProtocol.ChunkBounds | crates/aerodesk-core/src/file_transfer.rs:1197-1205 | every valid chunk index addresses a non-empty slice of at most one chunk length inside the content |
| FileProtocol.FileName | crates/aerodesk-core/src/file_transfer.rs:52-65 | on Unix paths, a file name taken from a path is never empty, a dot name or a path with a separator |
| FileProtocol.FileNameIsLast | crates/aerodesk-core/src/file_transfer.rs:52-65 | the name taken from a path is its last component, whatever comes before it and with or without a separator behind it |
| FileProtocol.SafeFileName | crates/aerodesk-core/src/file_transfer.rs:52-65 | the name a receiver stores under holds no Unix separator and is no dot name, so that on Unix it cannot leave the receive directory |
| FileProtocol.Nameless | crates/aerodesk-core/src/file_transfer.rs:1053-1056 | a path without a last name is announced as "file", and such a name in meta data leaves nothing to store under |
| PeerRuns.OldestIsEarliest | crates/aerodesk-core/src/file_transfer.rs:948-959 | the acknowledgement chosen to be forgotten is one of the earliest that the iteration meets, and one is chosen exactly when it meets any |
| PeerRuns.OldestIsFirst | crates/aerodesk-core/src/file_transfer.rs:949-959 | among equally early acknowledgements the one met first is forgotten |
| PeerRuns.RememberBounded | crates/aerodesk-core/src/file_transfer.rs:900-910 | remembering an id keeps at most 64 ids and brings in no other id |
| PeerRuns.OnDoneMove | crates/aerodesk-core/src/file_transfer.rs:840-968 | finishing a receive leaves the sending side alone and the receive tables well-formed and bounded |
| PeerRuns.OnMetaMove | crates/aerodesk-core/src/file_transfer.rs:725-790 | accepting meta data keeps at most 16 receivers, each with as many counted chunks as set flags |
| PeerRuns.OnChunkMove | crates/aerodesk-core/src/file_transfer.rs:792-838 | a chunk, repeated or not, keeps the count equal to the number of set flags |
| PeerRuns.RetryMove | crates/aerodesk-core/src/file_transfer.rs:493-517 | repeating Nacks leaves the sending side alone and the tables well-formed |
| SendRuns.SndTickMove | crates/aerodesk-core/src/file_transfer.rs:1141-1240 | a sender tick changes nothing but the cursor, the resend stack and the timers, keeps cursor and stack in range without repetitions, and ends the send only on a failed read |
| SendRuns.StartNextKeeps | crates/aerodesk-core/src/file_transfer.rs:353-381 | advancing the queue fills the slot or empties the queue, keeps the order of acceptance and loses no accepted send |
| SendRuns.SendFileKeeps | crates/aerodesk-core/src/file_transfer.rs:274-293 | accepting a file keeps every invariant of the sending side and conservation |
| SendRuns.CancelSendKeeps | crates/aerodesk-core/src/file_transfer.rs:564-576 | cancelling keeps every invariant and leaves no accepted send, the cancelled one included, unaccounted for |
| SendRuns.CancelSendIdKeeps | crates/aerodesk-core/src/file_transfer.rs:317-330 | cancelling by id, active or queued, keeps every invariant and leaves no accepted send unaccounted for |
| SendRuns.OnAckKeeps | crates/aerodesk-core/src/file_transfer.rs:640-680 | an acknowledgement or refusal keeps the invariants, completion stickiness among them |
| SendRuns.OnNackKeeps | crates/aerodesk-core/src/file_transfer.rs:683-703 | a Nack leaves a resend stack without repetitions and with valid indices only |
| SendRuns.TickKeeps | crates/aerodesk-core/src/file_transfer.rs:425-517 | a tick keeps every invariant and leaves no refused or broken send in the slot |
| SendRuns.HandleDataKeeps | crates/aerodesk-core/src/file_transfer.rs:629-723 | no message can break an invariant of the state machine |
| SendRuns.StepKeeps | crates/aerodesk-core/src/file_transfer.rs:241-723 | every call and every message keeps the invariant of one end |
| SendRuns.RunKeepsInv | crates/aerodesk-core/src/file_transfer.rs:241-723 | over every run the tables stay bounded, an empty slot means an empty queue, regular sends start in the order accepted minus the dropped ones, and completion is reported exactly when a regular send was answered since the last one started |
| SendRuns.AgentConserves | crates/aerodesk-agent/src/file_transfer.rs:74-89 | in the agent's order of events every accepted send is always exactly one of active without a record, queued, or logged |
| SendRuns.TickClears | crates/aerodesk-core/src/file_transfer.rs:468-478 | right after a tick the slot holds nothing that failed |
| FileSends.StartsFirst | crates/aerodesk-core/src/file_transfer.rs:353-381 | from an empty slot the first queued file that exists, opens and has 1 byte to 1 GiB is started untouched under its queued id; each one before it gets a failure record, and the rest stay queued |
| FileSends.SendFileIff | crates/aerodesk-core/src/file_transfer.rs:274-293 | a file is accepted exactly when it exists with 1 byte to 1 GiB and either fewer than 64 wait behind an active send or nothing is active and it opens; what changes then and that nothing changes otherwise |
| FileSends.SendImageIff | crates/aerodesk-core/src/file_transfer.rs:589-609 | an image is accepted exactly when the slot is free or confirmed and it has 1 byte to 16 MiB; an observed completion and the queue stay |
| FileSends.CancelEffect | crates/aerodesk-core/src/file_transfer.rs:564-576 | cancelling offers one Cancel to the channel, adds one record that the send was cancelled and moves the queue on |
| FileSends.CancelIdEffect | crates/aerodesk-core/src/file_transfer.rs:317-330 | of the queue exactly the first item with the id is taken out and recorded as cancelled, and nothing happens when there is none |
| FileSends.AnswerEffect | crates/aerodesk-core/src/file_transfer.rs:640-680 | an accepting Done for the active send confirms it and adds exactly one success record with its id, name, size and path; a refusing one marks it failed and adds no record |
| FileSends.NackEffect | crates/aerodesk-core/src/file_transfer.rs:683-703 | the stack after a Nack holds what it held, then what was asked for with a valid index, each once; other sends and confirmed ones are not touched |
| FileSends.RequestEffect | crates/aerodesk-core/src/file_transfer.rs:708-721 | a request for a file does nothing unless requests are allowed |
| FileSends.TickEffect | crates/aerodesk-core/src/file_transfer.rs:453-478 | a tick records a failed send once and moves the queue on, lets a confirmed send make way exactly when others wait, and otherwise leaves the slot to its sender |
| FileOutcomes.SuccessIff | crates/aerodesk-core/src/file_transfer.rs:640-680 | over every run a send has a success record exactly when an earlier step delivered a positive Done for it while it was active |
| FileOutcomes.HistoryIsNewest | crates/aerodesk-core/src/file_transfer.rs:384-407 | over every run the history is the newest 200 of the records written since it was last cleared, or all of them |
| SenderTicks.BurstSends | crates/aerodesk-core/src/file_transfer.rs:1196-1223 | a burst sends the chunks from the cursor on in order, until 32 are out, one is refused, one cannot be read or none is left, and only a failed read ends the send |
| SenderTicks.TickSends | crates/aerodesk-core/src/file_transfer.rs:1141-1240 | on an accepting channel a due tick sends the meta data if it is due, then one resent chunk, or else up to 32 further chunks, or else a Done if that is due; with all fields afterwards |
| SenderTicks.AnnouncesIff | crates/aerodesk-core/src/file_transfer.rs:1150-1171 | if the channel takes the first message, meta data goes out first exactly when none went out before or the last is a second old |
| SenderTicks.RefusedLosesNothing | crates/aerodesk-core/src/file_transfer.rs:1141-1240 | on a channel that refuses everything nothing goes out and no progress is lost |
| SenderTicks.SilentWhen | crates/aerodesk-core/src/file_transfer.rs:1142-1147 | a confirmed sender, and one whose three seconds are not over, does nothing |
| FileReceives.MetaMakesIff | crates/aerodesk-core/src/file_transfer.rs:725-790 | meta data makes an empty receiver exactly when there is a directory or it is an image, the name is usable, the size within its limit, the chunk count right and fewer than 16 are received; nothing else changes |
| FileReceives.ChunkEffect | crates/aerodesk-core/src/file_transfer.rs:792-838 | a chunk that fits is written at 8192 times its index, all other bytes stay, and only its first arrival is counted |
| FileReceives.CancelEffect | crates/aerodesk-core/src/file_transfer.rs:1015-1022 | a cancelled receive is dropped with one record, and an unknown id changes nothing |
| FileReceives.DoneUnknown | crates/aerodesk-core/src/file_transfer.rs:840-867 | a positive Done for an id that is not being received is always answered with whether it is known to be stored |
| FileReceives.DoneEffect | crates/aerodesk-core/src/file_transfer.rs:868-1013 | a Done for a receive drops it if failed, stores, records and acknowledges it if intact, drops it silently if it cannot be stored, and otherwise asks for its first 512 gaps or gives it up |
| FileReceives.ForgetsEarliest | crates/aerodesk-core/src/file_transfer.rs:949-959 | past 64 remembered acknowledgements exactly one of the earliest is forgotten |
| FileTicks.TickReceiver | crates/aerodesk-core/src/file_transfer.rs:425-517 | over a tick a receiver is dropped with one failure record exactly when it is five minutes old, or its repair is a second overdue and nothing is missing; an overdue one with gaps is restamped, and any other is untouched |
| FileTicks.TickAsks | crates/aerodesk-core/src/file_transfer.rs:493-517 | if the channel accepts, each overdue receiver with gaps has its first 512 gaps asked for in order |
| FileTicks.TickForgets | crates/aerodesk-core/src/file_transfer.rs:442-452 | a tick forgets exactly the acknowledgements that are an hour old |
| SendLosses.RunTraced | crates/aerodesk-core/src/file_transfer.rs:241-723 | over every run regular sends in the slot or the queue were accepted and images were not, what failed is over, and the logged sends are those with a record in the book |
| SendLosses.LostIffUnlogged | crates/aerodesk-core/src/file_transfer.rs:589-609 | on the fields of the object: displacing the send in the slot loses an accepted send exactly when it is a regular one that failed and has no record |
| SendLosses.LosesIff | crates/aerodesk-core/src/file_transfer.rs:589-609 | in every run a step loses an accepted send exactly when it is a clipboard image that takes the slot from a failed regular send without a record |
| FileWitnesses.ImageLosesSend | crates/aerodesk-core/src/file_transfer.rs:589-609 | a file sent, refused by its receiver and displaced by an image before the next tick is neither active nor queued nor logged |
| FileNetwork.ChunkHolds | crates/aerodesk-core/src/file_transfer.rs:804-822 | storing a genuine chunk makes its slice right and leaves every other held slice right |
| FileNetwork.AllHeld | crates/aerodesk-core/src/file_transfer.rs:873-885 | a buffer with as many counted chunks as there are chunks is the whole content |
| FileNetwork.CommitGood | crates/aerodesk-core/src/file_transfer.rs:894-967 | what is committed is the sender's content and is acknowledged only when it is committed |
| FileNetwork.OnDoneGood | crates/aerodesk-core/src/file_transfer.rs:840-893 | every positive acknowledgement comes from a commit, now or earlier |
| FileNetwork.WorldStepKeeps | crates/aerodesk-core/src/file_transfer.rs:629-1013 | one step of either end, delivering any message of the network or none, keeps both halves of the two-party invariant |
| FileNetwork.WorldRunKeeps | crates/aerodesk-core/src/file_transfer.rs:629-1013 | the two-party invariant holds in every state of every run |
| FileNetwork.CommittedIsSent | crates/aerodesk-core/src/file_transfer.rs:725-1013 | whatever was lost, repeated, reordered, cancelled or expired, a buffer committed under an id is what the other end started under it |
| FileNetwork.SuccessIsTruthful | crates/aerodesk-core/src/file_transfer.rs:640-680 | a success in the history or a positive acknowledgement of a send exists only if the other end has committed that id |
| FileAnnounce.RunAnnounceable | crates/aerodesk-core/src/file_transfer.rs:1026-1116 | in every state of every run what is in a slot has a size within its limit and a name that the receiver takes as it is |
| FileAnnounce.AnnouncedAgain | crates/aerodesk-core/src/file_transfer.rs:1150-1171 | in every state of every run, whatever was lost, the next due tick that gets a message through announces the send, and delivering that to an end with room makes a receiver of the size and digest of the content |
| FileRecommit.ApplyStep | crates/aerodesk-core/src/file_transfer.rs:725-1013 | whatever a call or message does, a commit uses up the receiver of its id, and a receiver is made by meta data for that id only |
| FileRecommit.CommitsBounded | crates/aerodesk-core/src/file_transfer.rs:725-1013 | in every state of every run the commits of an id, and the receiver it may still have, are no more than the receivers made for it |
| FileRecommit.RecommitNeedsMeta | crates/aerodesk-core/src/file_transfer.rs:725-790 | between two commits of an id, meta data that the other end sent for it was accepted again |
| FileWitnesses.CommittedTwice | crates/aerodesk-core/src/file_transfer.rs:725-967 | a run in which repeated meta data, chunk and Done commit the same id twice, with two success records |
| FileAcks.ReplyShape | crates/aerodesk-core/src/file_transfer.rs:629-723 | a delivered message causes at most one immediate reply, only a positive Done causes any, and a positive reply means the id is or was held |
| FileAcks.HoldsForeignIds | crates/aerodesk-core/src/file_transfer.rs:774-789 | an end holds receivers and acknowledgements only for ids of the other end |
| FileAcks.ChainsAreShort | crates/aerodesk-core/src/file_transfer.rs:840-866 | a chain of replies, whatever happens in between, has at most three messages |
| FileAcks.ThreeIsReached | crates/aerodesk-core/src/file_transfer.rs:842-864 | the three replies that make the longest chain: acknowledgement, refusal of the late acknowledgement, silence |
| FileWitnesses.ThreeInARun | crates/aerodesk-core/src/file_transfer.rs:842-864 | a run of the two ends whose last states carry a chain of three replies, so that the bound is attained |
| FileRepair.IdleRound | crates/aerodesk-core/src/file_transfer.rs:1172-1188 | a tick refused by the channel changes neither the receiver's buffer nor the resend stack |
| FileRepair.ResendRound | crates/aerodesk-core/src/file_transfer.rs:1175-1187 | an accepted resend fills exactly one gap and pops exactly one index |
| FileRepair.NackRound | crates/aerodesk-core/src/file_transfer.rs:970-1013 | an accepted Done with gaps left is answered by one Nack that puts the first 512 gaps on the stack |
| FileRepair.CommitRound | crates/aerodesk-core/src/file_transfer.rs:873-967 | an accepted Done with no gap left commits the content and confirms the sender |
| FileRepair.RepairOnTrack | crates/aerodesk-core/src/file_transfer.rs:1172-1239 | under any back-pressure accepted ticks, Nacks, resends and remaining gaps always balance, so no index is lost |
| FileRepair.RepairCommits | crates/aerodesk-core/src/file_transfer.rs:1172-1239 | with m gaps and no lost message the content is committed exactly when m + ceil(m/512) + 1 ticks got a chunk or a Done through, after exactly ceil(m/512) Nacks and m resends |
| FileRepair.RepairTerminates | crates/aerodesk-core/src/file_transfer.rs:1172-1239 | repair terminates: when the channel accepts and the first Done is due, m gaps are repaired and the content committed after exactly m + ceil(m/512) + 1 ticks |
| FileDelivery.AllTaken | crates/aerodesk-core/src/file_transfer.rs:792-838 | any selection of what a sender sends before its Done, in any order and number, leaves what the receiver holds right |
| FileDelivery.BurstsEnd | crates/aerodesk-core/src/file_transfer.rs:1196-1223 | after ceil(n/32) ticks for n remaining chunks all have gone out, and the receiver lacks exactly those that never arrived |
| FileDelivery.AnnouncedUnderWay | crates/aerodesk-core/src/file_transfer.rs:725-790 | an announcement that has made its receiver puts a transfer under way with nothing received |
| FileDelivery.DeliveredAfterLoss | crates/aerodesk-core/src/file_transfer.rs:1141-1240 | a whole transfer: whatever was lost, repeated or reordered of the bursts, the content is committed after exactly m + ceil(m/512) + 1 further rounds without loss, m being the number of chunks that never arrived |
| TransferObjects.Sender.ReadChunk | crates/aerodesk-core/src/file_transfer.rs:1118-1139 | a chunk that can be read is the slice of the content at its index |
| TransferObjects.Sender.SendMeta | crates/aerodesk-core/src/file_transfer.rs:1150-1171 | meta data is sent first and again after a second, and the state changes only when the channel accepts it |
| TransferObjects.Sender.SendResend | crates/aerodesk-core/src/file_transfer.rs:1175-1188 | the index on top of the stack is removed only after its chunk was accepted |
| TransferObjects.Sender.SendBurst | crates/aerodesk-core/src/file_transfer.rs:1196-1223 | at most 32 chunks go out in order and the cursor counts the accepted ones |
| TransferObjects.Sender.Tick | crates/aerodesk-core/src/file_transfer.rs:1141-1240 | the object's tick is the specified sender step |
| TransferObjects.Sender.AddResends | crates/aerodesk-core/src/file_transfer.rs:688-693 | the stack after a Nack is the specified one: new valid indices, none twice |
| TransferObjects.Receiver.Store | crates/aerodesk-core/src/file_transfer.rs:792-838 | a chunk is written in place and only its first arrival counted |
| TransferObjects.Receiver.Missing | crates/aerodesk-core/src/file_transfer.rs:971-977 | the missing indices are the unset flags in increasing order |
| TransferObjects.FileTransfer.constructor | crates/aerodesk-core/src/file_transfer.rs:222-239 | a new state machine is valid and is the initial value |
| TransferObjects.FileTransfer.PushRecord | crates/aerodesk-core/src/file_transfer.rs:384-407 | the history keeps the newest 200 records |
| TransferObjects.FileTransfer.SendFile | crates/aerodesk-core/src/file_transfer.rs:274-293 | refuses, queues or starts exactly as specified and stays valid |
| TransferObjects.FileTransfer.PushQueue | crates/aerodesk-core/src/file_transfer.rs:333-350 | queues at the end under a new id unless 64 are waiting |
| TransferObjects.FileTransfer.SendClipboardImage | crates/aerodesk-core/src/file_transfer.rs:589-609 | takes a free or confirmed slot and keeps an observed completion |
| TransferObjects.FileTransfer.StartNextQueued | crates/aerodesk-core/src/file_transfer.rs:353-381 | starts the first queued file that opens under its queued id and logs those before it |
| TransferObjects.FileTransfer.CancelSend | crates/aerodesk-core/src/file_transfer.rs:564-576 | tells the receiver, logs the send and starts the next |
| TransferObjects.FileTransfer.CancelSendId | crates/aerodesk-core/src/file_transfer.rs:317-330 | cancels the active or queued send of that id and says whether there was one |
| TransferObjects.FileTransfer.SendComplete | crates/aerodesk-core/src/file_transfer.rs:262-267 | reports the specified completion |
| TransferObjects.FileTransfer.Advance | crates/aerodesk-core/src/file_transfer.rs:454-478 | drives the slot: failure is logged, a confirmed send makes way when others wait |
| TransferObjects.FileTransfer.OnMeta | crates/aerodesk-core/src/file_transfer.rs:725-790 | creates a receiver in exactly the cases the specification allows |
| TransferObjects.FileTransfer.OnChunk | crates/aerodesk-core/src/file_transfer.rs:792-838 | stores a chunk for a known id and touches no other receiver |
| TransferObjects.FileTransfer.RequestResend | crates/aerodesk-core/src/file_transfer.rs:970-1013 | puts the receiver back and asks for its first 512 gaps, or gives it up when there are none |
| TransferObjects.FileTransfer.FindOldest | crates/aerodesk-core/src/file_transfer.rs:902-906 | finds the first of the earliest entries in iteration order |
| TransferObjects.FileTransfer.Acknowledge | crates/aerodesk-core/src/file_transfer.rs:949-959 | remembers the id within the bound |
| TransferObjects.FileTransfer.CommitReceived | crates/aerodesk-core/src/file_transfer.rs:894-967 | commits, records and acknowledges as specified, or does nothing when it cannot store |
| TransferObjects.FileTransfer.OnDone | crates/aerodesk-core/src/file_transfer.rs:840-893 | acknowledges, refuses, repairs or commits as specified |
| TransferObjects.FileTransfer.OnAck | crates/aerodesk-core/src/file_transfer.rs:646-677 | confirms or fails the active send and makes the completion stick |
| TransferObjects.FileTransfer.OnNack | crates/aerodesk-core/src/file_transfer.rs:683-703 | adds the asked-for chunks and has Done repeated |
| TransferObjects.FileTransfer.OnCancel | crates/aerodesk-core/src/file_transfer.rs:1015-1022 | drops and logs the receiver of a cancelled send |
| TransferObjects.FileTransfer.HandleData | crates/aerodesk-core/src/file_transfer.rs:629-723 | the object handles every message as specified and stays valid |
| TransferObjects.FileTransfer.ExpireReceivers | crates/aerodesk-core/src/file_transfer.rs:427-441 | of the receivers the iteration reaches, exactly those older than five minutes are dropped and logged |
| TransferObjects.FileTransfer.RetryNacks | crates/aerodesk-core/src/file_transfer.rs:495-516 | of the receivers the iteration reaches, exactly those that waited a second have their Nack repeated |
| TransferObjects.FileTransfer.Tick | crates/aerodesk-core/src/file_transfer.rs:425-517 | the object's tick is the specified one and stays valid |
| TransferAgent.HandleEvent | crates/aerodesk-agent/src/file_transfer.rs:65-71 | a message keeps the invariant of every run and loses no accepted send |
| TransferAgent.CancelActive | crates/aerodesk-agent/src/file_transfer.rs:79-87 | the timed cancel keeps the object sound |
| TransferAgent.TickOnce | crates/aerodesk-agent/src/file_transfer.rs:88-88 | a tick keeps the object sound and leaves nothing failed in the slot |
| TransferAgent.PollClipboard | crates/aerodesk-agent/src/file_transfer.rs:134-149 | a clipboard image offered to a slot without a failed send loses no accepted send |
| TransferAgent.AgentRound | crates/aerodesk-agent/src/file_transfer.rs:74-89 | a whole round of the agent keeps the object sound: bounds, order, stickiness and conservation |
| Turn.TakeFromStream | crates/aerodesk-core/src/turn_client.rs:619-635 | from the front of a framed stream exactly the first packet is cut, or nothing is lost |
| Turn.FragmentationIrrelevant | crates/aerodesk-core/src/turn_client.rs:589-616 | however a stream of packets is cut by reads and pauses, the deliveries are those of the packets one by one |
| Turn.EnsurePeerKeeps | crates/aerodesk-core/src/turn_client.rs:344-370 | the two channel maps stay inverse, existing bindings stay, and no number is asked for twice |
| TurnRuns.BindsIff | crates/aerodesk-core/src/turn_client.rs:344-370 | a channel is reported exactly when the peer is bound already or both transactions succeed and one of the 0x4000 numbers is left; a new peer gets the next number, and a failure leaves both maps as they were |
| Turn.EachDelivered | crates/aerodesk-core/src/turn_client.rs:373-401 | packets one by one: payloads of at least 16 bytes that fit the length field and, behind their header, the receive buffer are delivered as those of their peers |
| Turn.RoundTrip | crates/aerodesk-core/src/turn_client.rs:373-459 | for every receive buffer, payloads of 16 to 65531 bytes that fit it behind their header, sent to bound peers and returned unchanged, come back as the same sequence under every fragmentation |
| Turn.RoundTripIff | crates/aerodesk-core/src/turn_client.rs:373-459 | for every receive buffer, every list of sends to bound peers and every fragmentation, what was sent comes back if and only if every payload has 16 to 65531 bytes and fits the buffer behind its header |
| TurnRuns.FromEmptyTable | crates/aerodesk-core/src/turn_client.rs:344-459 | from a new transport, a list of sends with succeeding transactions comes back under every fragmentation exactly when every payload is of such a size and there are at most 0x4000 peers |
| Turn.DeliverIs | crates/aerodesk-core/src/turn_client.rs:384-424 | which packets are delivered, from whom and which of their bytes, by their first bytes: channel data of a known number, cut to what arrived, or the data of an indication |
| Turn.Recovers | crates/aerodesk-core/src/turn_client.rs:589-628 | a frame shorter than any TURN message costs what is in the buffer and nothing of what comes later |
| Turn.EndIsReported | crates/aerodesk-core/src/turn_client.rs:589-616 | without a whole frame in the buffer the end of the stream, like a failure, is reported and the buffer kept |
| Turn.DeliveriesFit | crates/aerodesk-core/src/turn_client.rs:384-424 | whatever is read and however, deliveries with their headers never take up more bytes than there were |
| Turn.FirstNotCarried | crates/aerodesk-core/src/turn_client.rs:619-628 | with a buffer of at least four bytes, a payload of another size that is read in one piece is dropped with everything behind it or comes back different |
| TurnObjects.TurnTransport.EnsurePeer | crates/aerodesk-core/src/turn_client.rs:344-370 | the object binds as specified and keeps the table invariant |
| TurnObjects.TurnTransport.SendTo | crates/aerodesk-core/src/turn_client.rs:373-380 | writes one framed ChannelData message exactly when the peer could be bound |
| TurnObjects.TurnTransport.SendRaw | crates/aerodesk-core/src/turn_client.rs:444-459 | a packet goes out behind its two-byte length |
| TurnObjects.TurnTransport.TakeTcpFrame | crates/aerodesk-core/src/turn_client.rs:619-635 | cuts the specified frame off the buffer |
| TurnObjects.TurnTransport.RecvTcpFrame | crates/aerodesk-core/src/turn_client.rs:589-616 | reads the stream at most once and copies the frame, cut to the caller's buffer |
| TurnObjects.TurnTransport.RecvPacket | crates/aerodesk-core/src/turn_client.rs:384-424 | puts the payload of the specified delivery at the front of the caller's buffer |
| Resampler.LineBetween | crates/aerodesk-core/src/audio_sink.rs:88-93 | the interpolated, truncated sample lies between its two neighbours, so the clamp never acts |
| Resampler.SampleAt | crates/aerodesk-core/src/audio_sink.rs:88-93 | the ideal sample lies between the two input samples around it |
| Resampler.LinearlyInterpolated | crates/aerodesk-core/src/audio_sink.rs:88-93 | the ideal sample is the mean of the two inputs around the position, weighted by how near they are and rounded towards zero; at a whole position it is the input |
| Resampler.WindowIsNewest | crates/aerodesk-core/src/audio_sink.rs:38-47 | after any pushes, reads and resets the window holds the newest 4000 samples, or all there are since the last reset |
| Resampler.RefinesIdeal | crates/aerodesk-core/src/audio_sink.rs:38-94 | since the last reset and until a trim overtakes the reader, the n-th audible sample is the interpolation of the whole input at n times the ratio |
| Resampler.DisplacedIdeal | crates/aerodesk-core/src/audio_sink.rs:38-94 | also after a trim has overtaken the reader, the n-th audible sample since the last reset is the interpolation at n times the ratio plus what trimming had skipped by then, which never becomes less |
| Resampler.CopiesAtRatioOne | crates/aerodesk-core/src/audio_sink.rs:38-94 | at ratio one the resampler puts out its input unchanged |
| Resampler.PlaysThrough | crates/aerodesk-core/src/audio_sink.rs:38-94 | as many reads as the input covers each put out a sample and overtake nothing |
| Resampler.StarvedIff | crates/aerodesk-core/src/audio_sink.rs:84-87 | silence is put out exactly when the next ideal position is not covered by the input |
| Resampler.ChunkingIrrelevant | crates/aerodesk-core/src/audio_sink.rs:38-94 | two runs over the same input, cut and interleaved differently, put out the same samples |
| Resampler.OvertakenIff | crates/aerodesk-core/src/audio_sink.rs:41-46 | a push overtakes the reader exactly when its trim cuts past the read position |
| Resampler.StepPush | crates/aerodesk-core/src/audio_sink.rs:38-47 | trimming keeps every earlier sample exact and the window a suffix of the input of at most 4000 samples |
| Resampler.Resampler.PushSamples | crates/aerodesk-core/src/audio_sink.rs:38-47 | the object's window is the specified one |
| Resampler.Resampler.NextSample | crates/aerodesk-core/src/audio_sink.rs:84-94 | the object reads in bounds and returns the specified sample or silence |
| Resampler.Resampler.FillI16 | crates/aerodesk-core/src/audio_sink.rs:56-71 | every channel of a frame gets the frame's sample in order, and what does not make up a frame is silent |
| Resampler.FillContinues | crates/aerodesk-core/src/audio_sink.rs:55-94 | filling a buffer reads on where the run stands: the run's next outputs in order, then 0 for every frame that finds the window starved |
| Resampler.Resampler.Reset | crates/aerodesk-core/src/audio_sink.rs:50-53 | the window is empty again |
| Pcmu.AveragesInInstalments | crates/aerodesk-codec/src/audio.rs:267-274 | averaging piece by piece with the remainder carried over is averaging the whole |
| Pcmu.AverageIs | crates/aerodesk-codec/src/audio.rs:267-274 | an average is the sum of six samples divided by six and rounded towards zero |
| Pcmu.QuantizeIs | crates/aerodesk-codec/src/audio.rs:233-236 | a captured sample is scaled to 16 bits, rounded towards zero and clipped at full scale |
| Pcmu.SendsIff | crates/aerodesk-codec/src/audio.rs:221-291 | a tick sends a frame exactly when its time has come and 160 averaged samples are there, and sets the next time 20 ms or 5 ms later |
| Pcmu.NothingLost | crates/aerodesk-codec/src/audio.rs:221-291 | after any run the samples put into frames followed by the waiting ones are the averages of all input, with fewer than six samples left over |
| Pcmu.FrameContents | crates/aerodesk-codec/src/audio.rs:275-288 | frame k has timestamp 160 k and the averages from that offset, or 160 zeros when muted, and frames are at least 20 ms apart |
| Pcmu.ChunkingIrrelevant | crates/aerodesk-codec/src/audio.rs:221-291 | how the input was spread over ticks changes no frame that was not muted |
| Pcmu.RealAudioSender.Downsample | crates/aerodesk-codec/src/audio.rs:268-274 | the loop averages all whole groups and keeps the remainder |
| Pcmu.RealAudioSender.SendTick | crates/aerodesk-codec/src/audio.rs:221-291 | the object's tick is the specified one |
| AnnexB.SplitInvertsJoin | crates/aerodesk-codec/src/mux.rs:81-132 | units that are not empty, hold no start code and do not end in zero come back exactly from any mix of three- and four-byte start codes |
| AnnexB.SplitInvertsJoinIff | crates/aerodesk-codec/src/mux.rs:81-132 | any list of units joined with any mix of start codes comes back exactly when no unit is empty, none has a start code behind its first byte, and none of two bytes or more ends in zero before a three-byte start code |
| AnnexB.AvccRoundTrip | crates/aerodesk-codec/src/mux.rs:135-142 | reading four-byte lengths gives the units back |
| AnnexB.AnnexbNalus | crates/aerodesk-codec/src/mux.rs:81-132 | the cutting loops compute the specified units |
| AnnexB.AnnexbToAvcc | crates/aerodesk-codec/src/mux.rs:135-142 | the converted stream reads back as the units of the input |
| Keyframe.SplitUnits | crates/aerodesk-codec/src/encode.rs:45-75 | every piece begins with a start code, has a type byte and holds no further start code |
| Keyframe.SplitCovers | crates/aerodesk-codec/src/encode.rs:45-75 | the pieces concatenate to the data from the first start code on exactly when no unit is empty |
| Keyframe.TypeInHeader | crates/aerodesk-codec/src/encode.rs:45-75 | the type is read from its bits of the header whatever the others are, and the parameter sets are those of the codec |
| Keyframe.ParamSetsAre | crates/aerodesk-codec/src/encode.rs:251-279 | all parameter sets of a frame are cached, in their order |
| Keyframe.InjectedKinds | crates/aerodesk-codec/src/encode.rs:266-276 | if a frame begins with a start code, the types after injection are the cached types followed by the frame's |
| Keyframe.InjectedHasParams | crates/aerodesk-codec/src/encode.rs:266-276 | whatever a frame begins with, with the cached sets before it it carries a parameter set |
| Keyframe.CacheIsFirst | crates/aerodesk-codec/src/encode.rs:256-265 | the cache holds the parameter sets of the first key frame that carried any, and nothing before that |
| Keyframe.EveryKeyframeCarries | crates/aerodesk-codec/src/encode.rs:251-279 | from the first key frame with parameter sets on every key frame is sent with some |
| Keyframe.OutputIs | crates/aerodesk-codec/src/encode.rs:251-279 | a packet goes out unchanged, except that a key frame without parameter sets after one with some gets exactly those of the first such frame before it |
| Keyframe.FfmpegEncoder.SplitAnnexb | crates/aerodesk-codec/src/encode.rs:45-75 | the splitting loops compute the specified units and types |
| Keyframe.FfmpegEncoder.KeyframeData | crates/aerodesk-codec/src/encode.rs:251-279 | the object sends and caches as specified |
| Adrec.ReadCut | crates/aerodesk-codec/src/mux.rs:44-69 | from a cut packet stream exactly the packets wholly before the cut are read |
| Adrec.CutLosesOnlyTheTail | crates/aerodesk-codec/src/mux.rs:35-72 | a recording cut anywhere after its magic gives back every packet that lies wholly before the cut, with kind, codec, key-frame bit, time and payload, and nothing else |
| Adrec.WholeIsLargest | crates/aerodesk-codec/src/mux.rs:44-69 | the packets that lie wholly before a cut are computed from it as the largest number of leading packets that fit |
| Adrec.NoPacketsWithoutMagic | crates/aerodesk-codec/src/mux.rs:38-43 | a file is read exactly when it begins with the magic |
| Adrec.WholeIffFits | crates/aerodesk-sfu/src/recorder.rs:393-409 | an uncut recording reads back whole exactly when every payload length fits its 32-bit field |
| Adrec.ReadAdrec | crates/aerodesk-codec/src/mux.rs:35-72 | the reading loop computes the specified result |
| Dib.RoundTrip | crates/aerodesk-core/src/clipboard.rs:276-349 | every picture whose sides fit 31 bits comes back from its bitmap with all alphas 255 |
| Dib.ComesBack | crates/aerodesk-core/src/clipboard.rs:276-349 | a picture of exactly 2^31 rows comes back with its rows in reverse order, one of fewer rows as it was |
| Dib.RoundTripIff | crates/aerodesk-core/src/clipboard.rs:276-349 | a picture comes back exactly when its sides fit 31 bits, or it has 2^31 rows that read the same in reverse order |
| Dib.FlipKeepsImage | crates/aerodesk-core/src/clipboard.rs:303-309 | for 24 and 32 bits per pixel, reversing the rows and negating the height leaves the decoded picture as it is |
| Dib.DecodedSize | crates/aerodesk-core/src/clipboard.rs:284-291 | no decoded width exceeds 2^31 - 1 and no decoded height 2^31 |
| DibRows.RowsDecode | crates/aerodesk-core/src/clipboard.rs:276-320 | every uncompressed bitmap of 24 or 32 bits, top or bottom row first, decodes to the pixels of its rows, whatever its header holds behind the first words and whatever the row padding holds |
| DibRows.DecodesOnly | crates/aerodesk-core/src/clipboard.rs:276-299 | nothing decodes but uncompressed bitmaps of one plane and 24 or 32 bits |
| Dib.ChannelBack | crates/aerodesk-core/src/clipboard.rs:310-317 | each colour channel is found where the encoder put it, bottom row first and in BGR order |
| Dib.DibToRgba | crates/aerodesk-core/src/clipboard.rs:276-320 | the decoding loops compute the specified picture or reject what the specification rejects |
| Dib.RgbaToDib | crates/aerodesk-core/src/clipboard.rs:323-349 | the encoding loops compute the specified bitmap |
| Wrapping.WrappedShowsPrefix | crates/aerodesk-agent/src/privacy.rs:108-128 | the lines concatenate to a prefix of the text without newlines, to all of it below the line limit, and none is empty or too long |
| Wrapping.WrapSegment | crates/aerodesk-agent/src/privacy.rs:111-123 | a segment is cut greedily into full lines, stopping at the line limit |
| Wrapping.Wrap | crates/aerodesk-agent/src/privacy.rs:108-128 | the layout loop computes the specified lines |
| LineBreaks.CharactersPlaced | crates/aerodesk-agent/src/privacy.rs:108-128 | every character but newlines stands where a cursor puts it that starts a line at a newline behind a begun line and at a character for which the line is full |
| LineBreaks.LinesCounted | crates/aerodesk-agent/src/privacy.rs:108-128 | as many lines are shown as that cursor begins, up to the limit |
| Privacy.CellsDisjoint | crates/aerodesk-agent/src/privacy.rs:132-145 | no pixel lies in the cells of two characters |
| Privacy.OneCharacter | crates/aerodesk-agent/src/privacy.rs:132-176 | a text pixel belongs to one character only, so glyphs never paint over each other |
| Privacy.NothingClipped | crates/aerodesk-agent/src/privacy.rs:102-145 | in a frame of at least one cell every character cell lies inside the frame |
| Privacy.Centred | crates/aerodesk-agent/src/privacy.rs:132-145 | lines and block are centred up to the pixels that halving loses, and cells follow each other without gaps |
| Privacy.CellSize | crates/aerodesk-agent/src/privacy.rs:100-106 | characters are at least 16 pixels high, and 352 rows have room for 22 lines |
| Privacy.NextBlock | crates/aerodesk-agent/src/privacy.rs:155-176 | the scaled block of a glyph bit covers exactly the pixels that divide down to that bit |
| Privacy.PixelShown | crates/aerodesk-agent/src/privacy.rs:96-178 | after painting a pixel is text exactly when it lies in some character's cell at a set bit, and all zero otherwise |
| Privacy.RoomUsed | crates/aerodesk-agent/src/privacy.rs:100-106 | the layout uses exactly as many columns and lines as fit the frame, and at least one of each |
| Privacy.DrawGlyph | crates/aerodesk-agent/src/privacy.rs:151-178 | the nested loops paint exactly the glyph's pixels inside the frame and change no other byte |
| Privacy.DrawLines | crates/aerodesk-agent/src/privacy.rs:132-145 | all characters are drawn in their cells, lines centred |
| Privacy.Paint | crates/aerodesk-agent/src/privacy.rs:96-145 | the frame is blanked as far as the buffer goes, then exactly the text pixels are set; bytes beyond the frame stay |
| SipLink.RestartDelayIs | crates/aerodesk-core/src/sip_link.rs:455-461 | restart delays double from 1 to 16 seconds, then stay 30, and wrap to 1 beyond 2^31 attempts |
| SipLink.DelaysAgreeIff | crates/aerodesk-core/src/sip_link.rs:576-579 | the two back-off rules agree exactly on the first five attempts, and the other one stays within 1 to 32 seconds |
| SipLink.RunKeepsInv | crates/aerodesk-core/src/sip_link.rs:310-580 | over every run: reconnecting means a scheduled retry, connecting or online means a UA, stopped means no UA, no retry and no events, delays are 1 to 32 seconds, and UAs were only started when none ran |
| SipLink.EventEffect | crates/aerodesk-core/src/sip_link.rs:485-574 | what each event makes of status, attempt, retry time and UA, with the delays written out |
| SipLink.RetryIsScheduled | crates/aerodesk-core/src/sip_link.rs:455-468 | over every run, while the link is reconnecting, its retry is due the delay of the attempt after the call in which that attempt failed |
| SipLink.AtMostOneRuns | crates/aerodesk-core/src/sip_link.rs:443-453 | in such a log never more than one UA runs |
| SipLink.PollRetriesIffDue | crates/aerodesk-core/src/sip_link.rs:333-358 | a poll retries exactly when the link is reconnecting and its time has come, re-registering a live UA and starting one otherwise |
| SipLink.KeepsTrying | crates/aerodesk-core/src/sip_link.rs:443-468 | however often the UA cannot be started, the link stays scheduled, counts the attempts and waits the delay of each |
| SipLink.DrainForwards | crates/aerodesk-core/src/sip_link.rs:470-483 | draining forwards call events in order up to the end of the UA |
| SipLink.PollForwards | crates/aerodesk-core/src/sip_link.rs:470-572 | a poll queues exactly the call events among the first 32 offered, up to the end of the UA |
| SipLink.RetryEffect | crates/aerodesk-core/src/sip_link.rs:333-358 | a poll with no event pending changes nothing unless a retry is due; then a running UA registers again and a dead one is started, with what each outcome leaves |
| SipLinkObject.SipCallLink.Start | crates/aerodesk-core/src/sip_link.rs:310-319 | the object starts as specified and leaves a running link alone |
| SipLinkObject.SipCallLink.Stop | crates/aerodesk-core/src/sip_link.rs:322-330 | the object drops UA, retry and events |
| SipLinkObject.SipCallLink.Poll | crates/aerodesk-core/src/sip_link.rs:333-358 | the object polls as specified |
| SipLinkObject.SipCallLink.SpawnUa | crates/aerodesk-core/src/sip_link.rs:443-453 | the object holds the UA it started or schedules a retry |
| SipLinkObject.SipCallLink.ScheduleRetry | crates/aerodesk-core/src/sip_link.rs:455-468 | the object schedules as specified |
| SipLinkObject.SipCallLink.DrainEvents | crates/aerodesk-core/src/sip_link.rs:470-483 | the loop handles the specified events and no more than 32 |
| SipLinkObject.SipCallLink.OnEvent | crates/aerodesk-core/src/sip_link.rs:485-574 | the object handles each event as specified |
| SipLinkObject.SipCallLink.TakeEvents | crates/aerodesk-core/src/sip_link.rs:305-307 | hands over the queued events and empties the queue |
| Candidates.MappedAlike | crates/aerodesk-core/src/net_ifaces.rs:68-90 | an IPv4 address is judged the same when it comes mapped into IPv6 |
| Candidates.UsableBlocks | crates/aerodesk-core/src/net_ifaces.rs:68-96 | the IPv4 addresses that are offered are those outside six blocks, given by their numbers |
| Candidates.RankOfPrefix | crates/aerodesk-core/src/net_ifaces.rs:48-111 | every name with a tunnel, bridge or container prefix ranks last and every one with a physical prefix first, whatever follows |
| Candidates.UsableV6Blocks | crates/aerodesk-core/src/net_ifaces.rs:68-101 | which IPv6 addresses are usable, by their first groups |
| Candidates.RankOtherwise | crates/aerodesk-core/src/net_ifaces.rs:48-111 | any other name ranks between |
| Candidates.RankIgnoresCase | crates/aerodesk-core/src/net_ifaces.rs:48-63 | upper and lower case make no difference to the rank |
| Candidates.StableSortUnique | crates/aerodesk-core/src/net_ifaces.rs:124-125 | there is only one stable sort by rank |
| Candidates.SortedIsStable | crates/aerodesk-core/src/net_ifaces.rs:124-125 | the sorted list is in rank order and keeps the order within a rank |
| Candidates.CandidateOrder | crates/aerodesk-core/src/net_ifaces.rs:118-132 | each usable address is offered exactly once and nothing else is, ordered by the lowest rank of an interface reporting it and then by the first report at that rank |
| Candidates.SortByRank | crates/aerodesk-core/src/net_ifaces.rs:125-125 | a stable sort |
| Candidates.Order | crates/aerodesk-core/src/net_ifaces.rs:118-132 | filter, sort and deduplication loops compute the specified list |

## Left out

- Clipboard text (`send_clipboard`, its eight repetitions and size limit) and incoming clipboard text: a counter and a timer beside the protocol.
- User-facing messages, progress and status values, log lines, the `detail` and time of history records, and reason texts of refusals.
- The setters `set_recv_dir`, `set_allow_request`, `clear_history` and the take methods: the first two are steps of the run model, none is a method of the class.
- File storage: that a committed buffer reaches the disk through a temporary file and a rename is one success bit.
- The agent's once-a-second throttle and echo suppression for clipboard images: whether a round offers an image is an input.
- JSON and binary encoding of file messages: `protocol::file` is not part of this model, messages are a datatype.
- Receiver-side Nack repetition inside the repair theorem: it is part of `tick` and of the run and network theorems, not of the exact repair count.
- The lost progress of a receiver that is evicted or refused for lack of room: `FileDelivery.DeliveredAfterLoss` covers a transfer for which the other end makes a receiver, and no theorem promises that every send ends.
- TURN over UDP, authentication, refresh, request transactions and the STUN attribute codec.
- The `fill_f32` variant of the resampler, volume and mute of the audio sink: a division by a constant around `fill_i16`.
- The Opus branch of the audio sender and the per-sample mu-law table.
- Floating-point rounding in the resampler and the quantiser.
- MP4 extradata and muxing, H.264/H.265 parameter lookup, and file-system errors other than the end of the file when reading a recording.
- FFmpeg, the encoder's pixel conversion and key-frame requests.
- Windows clipboard calls, PNG conversion, and compressed or masked bitmaps, which the decoder rejects.
- The control messages and glyph tables of the privacy screen.
- SIP commands to a live UA, configuration parsing, redirect targets and joining the UA thread; several clock readings within one poll are one reading.
- Library internals: the standard library's stable sort is replaced by an insertion sort with the same contract, and hash sets by sets.
- WebRTC sessions, publisher and viewer loops, dashboards and platform adapters.
