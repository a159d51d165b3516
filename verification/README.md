# nullseal: verified model

This project models the parts of nullseal that decide what travels, in what order, under which nonce, and what
ends up on disk, and proves what they promise. Every file is one component; `dafny verify dfyconfig.toml` checks all
of them.

## What is modelled

**Resumable peer-to-peer transfer.** `SenderEngine` and `ReceiverEngine` are the two window engines as classes, each
method proved against a step function; `ReceiverAnswers` says exactly when the receiver speaks. `WindowProtocol` puts
them at the two ends of a data plane that loses, repeats and reorders, with control messages handled in the order they
were emitted; `TransferProgress` puts them on ordered channels and settles when a transfer finishes. `Codec`, `Crypto`,
`SenderAdapter` and `ReceiverAdapter` add bytes: slicing, one nonce per chunk, framing, and the refinement to "the
payload arrives". `Relay` is the embedded relay, `ReceiveLoop` the recipient's loop that truncates and rebuilds after a
drop, and `Resume` the whole system with a channel that may be cut anywhere; `ResumeProgress` shows it in step with the
bare engines and settles when it finishes, `ResumeVerdict` what the final checksum makes of any run, and
`RelayedResume` puts the relay beside it. `Connection` is the retry machine and the drive loops around it;
`ConnectionTraces` says what the machine remembers and emits over all event traces.

**Folder sync.** `FrameProtocol` and `SyncTcp` are the frames and the sealed, length-prefixed wire; `RelPaths` says
which peer-supplied paths are accepted and where they land; `TransferEngine` holds the pure decisions. `SyncReceiver`
and `SyncSender` are the two parties as classes; the sync root is a map from paths to bytes, and every step is given
what the file system refuses during it. `SyncSafety` is what the receiver guarantees against any peer; `SyncHello`,
`SyncAnswers` and `SyncSenderAnswers` are what either side starts on, answers and counts, against any peer.
`SyncProtocol` is both parties together, move by move: one stage per point of a run, a lemma per move, and a measure.
`SyncRuns` is every run of them, with frames that may fail to encode, and what a run leaves behind; `SyncFailures` holds
the configurations that fail or never settle although nothing goes wrong.

**Times and listings.** `CivilDate` is the expiry text; `Walker` the workspace listing over any tree and any ignore
predicate, `WalkerLinks` the symbolic links it reports apart, and `Ordering` the byte order of paths.

The cipher, the hash and the JSON text of control frames are parameters of which only "opening undoes sealing" (with a
16-byte tag) and "parsing undoes printing" are used; where content identity is needed the hash is assumed
injective, and for the oversized delete list printing is assumed to print every path.

## What turned out not to hold

Each of these names the lemma with the failing case, the lemma with the exact condition, or one lemma that is both.

- The window invariant needs acknowledgements and resend requests to be handled in emission order. The sender's loops
  receive them on separate queues and look at acknowledgements first. Against a receiver that asks for a resend, which
  takes a timer tick or a lost chunk, that order inverts the window and the sender falls silent
  (`AcksFirstInvertsWindow`, and exactly when one acknowledgement does it: `AckKeepsWindowIff`). Within one
  connection between two of these command-line programs it does not happen: their receive loops never tick and their
  channel is ordered, so every control message is an acknowledgement (`AcksFirstIsEmissionOrder`).
- `batch <= window` is sufficient for progress but not necessary; `FinishesIff` has the exact condition.
- Resume needs the recipient's last acknowledgement to have reached the relay before the sender reads the checkpoint.
  Otherwise the recipient, which truncates but never refuses, is left with a hole (`LateAckLeavesHole`); the exact
  guard is that the announced resume point is within what is held (`AnnouncementFitsIff`). The final checksum catches
  what slips through (`HoleIsCaught`).
- A settled reconnect need not complete the transfer: a re-join drains other queues, not that of acknowledgements, so
  the sender may find some of an earlier connection there. The exact condition is that each of them, when its turn
  comes, names a chunk the sender has sent by then (`ReconnectCompletesIff`, over whole histories `ResumeCompletesIff`,
  for the bare engines `FinishesWithStaleIff`); otherwise the sender falls silent for good. The condition always holds
  while the recipient itself never dropped (`UndroppedResumeCompletes`), and it fails after the recipient started over
  and an acknowledgement beyond the new window was left unread (`StaleAckStalls`).
- A re-join that overtakes the retry timer of an established session disarms it with nothing else armed
  (`OvertakenRetryIsStuck`, `StaysMovingIff`).
- The drive loops' budget counts only from the first round in which a channel came up, and anew after each progress
  (`LoopGivesUpExactly`).
- A comment in `src/commands/share.rs` explains the all-sent latch by a request that rewinds `sent_through`; with an
  honest receiver and ordered control that does not happen (`SentThroughNeverFalls`).
- The connection machine's `Stopped` is not terminal: both-ready restarts it. The terminal phases still react to a few
  events (`TerminalIgnoresIff`).
- An end frame with bytes behind it is accepted (`ReencodesIff`); an empty sync message is written but refused by the
  reader (`ReadsBackIff`), which no sealed frame is.
- A sync run aborts when the *destination* holds a stale file whose name the path rules refuse (a backslash in a name,
  say), even when nothing is to be deleted (`BackslashAtTheDestinationFails`, `CalmRunSucceedsIff`).
- The sender names all stale files in one frame, unlike the file lists, which go in batches. A destination with enough of
  them makes that frame exceed its limit: the send fails without an abort and the other side sees the connection close,
  on this run and every re-run, even when nothing is to be deleted (`CrowdedDestinationFails`, `OversizedDeleteFails`,
  `CalmRunSucceedsIff`). A batch of 512 long paths can exceed the limit too; the same condition covers it.
- A re-run is not idle when a source file's name ends in `.nullseal-part`: the destination discards it and never lists
  it, so it travels every time (`PartNameIsSentAgain`, `SecondRunSendsNothingIff`).
- Expiry texts stop sorting by time at the year 10000 (`IsoOrderHoldsIff`).

## Model

| member | source | states |
|---|---|---|
| `SenderEngines.SenderEngine.Open` | src/p2p/sender_engine.rs:32-39 | opening at a resume point resets the window there and emits the announcement followed by one window |
| `SenderEngines.SenderEngine.Ack` | src/p2p/sender_engine.rs:42-47 | an acknowledgement only ever raises `base` (with the 64-bit wrap of `through + 1`) and refills the window |
| `SenderEngines.SenderEngine.Request` | src/p2p/sender_engine.rs:50-57 | a resend request is exactly an opening at the requested chunk |
| `SenderEngines.SenderEngine.Pump` | src/p2p/sender_engine.rs:60-71 | the loop sends chunk after chunk while the unsigned `next - base` is below the window, and the end marker once |
| `SenderEngines.StreamIsUnbroken` | src/p2p/sender_engine.rs:32-71 | over every series of calls on a new engine: its cursor is where a reader of everything it emitted stands, and every chunk emitted continues from there, so between two announcements none is skipped or repeated |
| `SenderEngines.SentThroughIsLastEmitted` | src/p2p/sender_engine.rs:78-80 | `sent_through` is the last chunk emitted since the last announcement, or the one before the announced resume point, or nothing at the beginning |
| `SenderEngines.AckKeepsWindowIff` | src/p2p/sender_engine.rs:42-47 | exact: an acknowledgement keeps `base <= next` iff it names a chunk already sent (or wraps); otherwise the window is inverted and, unless the overshoot and the window together wrap, the sender falls silent |
| `SenderEngines.PumpIsIdempotent` | src/p2p/sender_engine.rs:60-71 | after a pump the window is full or everything was sent, the end marker is not repeated, and pumping again does nothing |
| `SenderEngines.OpenSendsOneWindow` | src/p2p/sender_engine.rs:32-39 | an opening sends the announcement, exactly the chunks `from .. min(total, from + window)` in order, and the end marker iff they reach the total |
| `SenderEngines.OpenBeyondTotalEnds` | src/p2p/sender_engine.rs:32-39 | an opening beyond the total announces it and sends the end marker at once |
| `ReceiverEngines.ReceiverEngine.ReceiveChunk` | src/p2p/receiver_engine.rs:46-63 | the four cases of an arriving chunk: done, duplicate, gap, expected (with the batch acknowledgement) |
| `ReceiverEngines.ReceiverEngine.Tick` | src/p2p/receiver_engine.rs:71-89 | the periodic acknowledgement and the debounced stall request |
| `ReceiverEngines.ReceiverEngine.ReceiveEnd` | src/p2p/receiver_engine.rs:92-102 | completion iff contiguous through the total, otherwise a request for the gap |
| `ReceiverEngines.ReceiverEngine.EmitAck` | src/p2p/receiver_engine.rs:104-108 | an acknowledgement names the last contiguous chunk and is remembered |
| `ReceiverEngines.ReceiverEngine.ControlActivity` | src/p2p/receiver_engine.rs:66-68 | control traffic moves only its own timestamp |
| `ReceiverEngines.RunIsHonest` | src/p2p/receiver_engine.rs:46-108 | over every input sequence, honest or not: chunks are delivered once and in order, acknowledgements name only delivered chunks, nothing follows completion, and completion happens only on an end frame naming where the engine stands |
| `ReceiverEngines.HonestDeliveries` | src/p2p/receiver_engine.rs:46-63 | the delivered indices are an unbroken range from the start |
| `ReceiverEngines.HonestMeans` | src/p2p/receiver_engine.rs:46-108 | what each action says in terms of the deliveries before it |
| `ReceiverEngines.HonestAcksIncrease` | src/p2p/receiver_engine.rs:104-108 | acknowledgements strictly increase |
| `ReceiverEngines.CompletionMeansEverything` | src/p2p/receiver_engine.rs:92-102 | with an honest sender, completion means every chunk from the resume point to the total was delivered |
| `ReceiverAnswers.EngineAnswers` | src/p2p/receiver_engine.rs:46-108 | exact, at every position of every input sequence: the answer to each chunk, end frame, tick and control message, told from what the engine said before and its clocks |
| `ReceiverAnswers.ClocksMean` | src/p2p/receiver_engine.rs:46-108 | over every input sequence each clock shows the time of the last input that reset it: an acknowledgement, a delivery or a request on a tick, a control message |
| `WindowProtocol.StepKeepsInv` | src/p2p/sender_engine.rs:32-71 | every step of both engines over a data plane that loses, repeats and reorders keeps `base <= expected <= next == min(total, base + window)`, and moves none of them back |
| `WindowProtocol.WindowHolds` | src/p2p/sender_engine.rs:60-71 | the same over whole runs from any resume point: the unsigned `next - base` never wraps and never exceeds the window |
| `WindowProtocol.SentThroughNeverFalls` | src/commands/share.rs:603-650 | with an honest receiver `sent_through` never falls, gap requests included, so the all-sent state cannot un-happen |
| `WindowProtocol.AcksFirstInvertsWindow` | src/commands/share.rs:730-749 | false without emission order: for every batch within the window and every payload of one batch more than the window holds in whole batches, a run of an honest pair that handles acknowledgements before requests puts `base` ahead of `next`, with chunks left, no control message left and the sender silent |
| `WindowProtocol.ShippedWindowInverts` | src/commands/share.rs:730-749 | with the window 256 and the batch 64, every payload of at least 320 chunks has such a run, if the receiver asks for a resend |
| `TransferProgress.FinishesIff` | src/p2p/receiver_engine.rs:56-62 | exact in all four parameters: every run over ordered channels without timer ticks that cannot go on has completed, iff the batch fits the window, or the rest fits one window, or one acknowledgement is enough |
| `TransferProgress.RunsAreShort` | src/p2p/sender_engine.rs:60-71 | every such run takes at most two messages per missing chunk, one per acknowledgement that an earlier connection left behind, and one more |
| `TransferProgress.FinishesWithStaleIff` | src/p2p/sender_engine.rs:42-71 | exact: when the sender's queue begins with acknowledgements of an earlier connection, every run that cannot go on has completed iff each of them, when its turn comes, names a chunk sent by then; if one does not, no run ever completes |
| `TransferProgress.ShippedConstantsFinish` | src/commands/get.rs:999-999 | with the window 256 and the batch 64 every run that cannot go on has delivered everything, from every resume point |
| `TransferProgress.RestIsQuiet` | src/p2p/sender_engine.rs:60-71 | a run can go on as long as anything is in flight |
| `TransferProgress.AcksFirstIsEmissionOrder` | src/commands/share.rs:730-749 | over ordered channels and without timer ticks every control message of every run is an acknowledgement, so taking acknowledgements first is taking the oldest |
| `Codec.EncodeChunk` | src/p2p/codec.rs:25-31 | a one, the index in eight bytes most significant first, the ciphertext; it decodes to the same index and ciphertext |
| `Codec.EncodeEnd` | src/p2p/codec.rs:34-39 | a two and the total in eight bytes most significant first; it decodes to the same total |
| `Codec.DecodeChunkBytes` | src/p2p/codec.rs:42-53 | decoding undoes encoding of a chunk for every 64-bit index |
| `Codec.DecodeEndBytes` | src/p2p/codec.rs:54-60 | decoding undoes encoding of an end frame, whatever bytes follow it |
| `Codec.ReencodesIff` | src/p2p/codec.rs:42-63 | exact: decoding then encoding gives the frame back iff it is not an end frame with bytes behind it |
| `Codec.DecodeCases` | src/p2p/codec.rs:42-63 | the exact inputs of each result and each of the three errors |
| `Bytes.BeRoundTrip` | src/p2p/codec.rs:28-28 | big-endian writing then reading is the identity below the word range |
| `Bytes.BeCanonical` | src/p2p/codec.rs:49-49 | big-endian reading then writing is the identity |
| `Bytes.XorCancel` | src/crypto.rs:222-230 | the bytewise exclusive or cancels |
| `Bytes.XorMeans` | src/crypto.rs:222-230 | exclusive or: unchanged against zero, zero against itself, and each bit set iff exactly one of the two is |
| `Bytes.BytesAreDigits` | src/p2p/codec.rs:25-39 | byte `i` of a big-endian number is its digit of weight 256 to the power of the bytes behind it |
| `Bytes.BitOfDigit` | src/crypto.rs:222-230 | a bit of such a byte is the bit of the number at that weight |
| `Crypto.DeriveNonce` | src/crypto.rs:222-230 | the nonce of index 0 is the base; any other keeps the first four bytes and differs from the base, bit by bit, exactly where the big-endian index has a one |
| `Crypto.NonceInjective` | src/crypto.rs:222-230 | no two of the 2^64 indices share a nonce under one base |
| `Crypto.ChunkCountIsCeiling` | src/crypto.rs:141-145 | chunk `i` exists and starts inside the payload iff `i` is below the count |
| `Crypto.PrefixGrows` | src/p2p/sender_adapter.rs:143-147 | slice `i` is exactly what extends the prefix before it to the prefix after it |
| `Crypto.PrefixOfAll` | src/crypto.rs:141-145 | the prefix of no chunks is empty and that of all chunks is the payload |
| `Crypto.StreamCipher.EncryptChunk` | src/crypto.rs:200-208 | seals under the nonce of the current index and advances it, or fails and leaves it |
| `Crypto.StreamCipher.SkipTo` | src/crypto.rs:217-219 | the next chunk uses this index |
| `Crypto.StreamDecryptor.DecryptChunkAt` | src/crypto.rs:288-297 | opens under the nonce of the given index, the same derivation as the sender |
| `SenderAdapters.SenderAdapter.Start` | src/p2p/sender_adapter.rs:66-71 | emits what opening the engine asks for, in order, up to the first chunk that does not seal |
| `SenderAdapters.SenderAdapter.OnAck` | src/p2p/sender_adapter.rs:74-83 | the same for an acknowledgement; finishes on the last one; nothing once finished |
| `SenderAdapters.SenderAdapter.OnRequest` | src/p2p/sender_adapter.rs:86-93 | the same for a resend request |
| `SenderAdapters.SenderAdapter.ApplyAll` | src/p2p/sender_adapter.rs:116-123 | the queue grows by exactly the frames of the actions before the first failure |
| `SenderAdapters.SenderAdapter.Apply` | src/p2p/sender_adapter.rs:125-165 | one action: the announcement, or chunk `i` sliced in bounds and sealed under nonce `i`, or the end frame |
| `SenderAdapters.SenderAdapter.CipherAlign` | src/p2p/sender_adapter.rs:167-171 | the cipher is at the chunk about to be sealed |
| `SenderAdapters.SenderAdapter.Drain` | src/commands/share.rs:635-700 | every queued binary frame handed to the channel is faithful to the payload |
| `SenderAdapters.EmissionsAreFaithful` | src/p2p/sender_adapter.rs:125-165 | whatever the engine asks for, every frame decodes to an index with the encryption of exactly that slice under that nonce, or to the total |
| `SenderAdapters.EmissionStops` | src/p2p/sender_adapter.rs:125-165 | each action before the first chunk that cannot be sealed is one announcement or frame, and nothing follows that chunk |
| `SenderAdapters.PumpStaysWithin` | src/p2p/sender_engine.rs:60-71 | the engine never names a chunk that does not exist, so slicing stays in bounds |
| `SenderAdapters.OneNonceOneFrame` | src/p2p/sender_adapter.rs:167-171 | across all rewinds two chunk frames under one nonce are the same frame |
| `ReceiverAdapters.ReceiverAdapter.OnFrame` | src/p2p/receiver_adapter.rs:58-76 | decodes, feeds the engine, applies its actions; undecodable frames are dropped |
| `ReceiverAdapters.ReceiverAdapter.Tick` | src/p2p/receiver_adapter.rs:79-85 | applies the engine's timer actions |
| `ReceiverAdapters.ReceiverAdapter.ApplyAll` | src/p2p/receiver_adapter.rs:113-125 | the outputs are those of the actions, in order |
| `ReceiverAdapters.ReceiverAdapter.Apply` | src/p2p/receiver_adapter.rs:127-149 | one action: decrypt at its own index, acknowledge, request or finish |
| `ReceiverAdapters.FaithfulFrame` | src/p2p/receiver_adapter.rs:58-76 | one honest frame extends the text by exactly the chunk waited for, or by nothing |
| `ReceiverAdapters.FrameSpeaks` | src/p2p/receiver_adapter.rs:58-149 | exact: a frame brings out what its engine says, a delivery only if the chunk opens under its own nonce, and then the text it opens to |
| `ReceiverAdapters.FrameIsHeard` | src/p2p/receiver_adapter.rs:58-76 | the engine hears each frame that decodes, at its time, and no other |
| `ReceiverAdapters.DeliversThePayload` | src/p2p/receiver_adapter.rs:58-149 | refinement: from whatever honest frames, in any order, with repeats, at any times and with any timer ticks between them, the delivered text is the payload from the resume point to where the receiver stands; finished means all of it |
| `ReceiveLoops.ReceiveLoop.BeginAttempt` | src/commands/get.rs:934-938 | a new attempt keeps the committed plaintext and has no adapter |
| `ReceiveLoops.ReceiveLoop.OnMetadata` | src/commands/get.rs:964-1002 | an announcement truncates the buffer to its resume point and rebuilds decryptor and engine there; one that does not parse, or whose salt or base has the wrong length, ends the attempt |
| `ReceiveLoops.ReceiveLoop.OnBinaryData` | src/commands/get.rs:1003-1034 | a frame appends what the adapter delivers; without a completion the loop goes on, with one it finishes with the hash of the buffer iff none or that one was announced, and reports a mismatch otherwise |
| `ReceiveLoops.ReceiveLoop.Commit` | src/commands/get.rs:1009-1033 | outputs are appended in order, with the same three outcomes |
| `ReceiveLoops.CompletedComesLast` | src/commands/get.rs:1024-1032 | returning on completion loses no delivery: none follows it |
| `ReceiveLoops.CompletesIff` | src/commands/get.rs:1024-1032 | a frame completes exactly when it brings the engine to its end |
| `Resume.ResumeIsSafe` | src/commands/get.rs:985-1034 | over any number of drops, lost acknowledgements, fresh keys and recipient restarts, with settled reconnects: the buffer is a prefix of the payload, the checkpoint is within it, and on completion the buffer is the payload |
| `Resume.SettledStepKeepsResume` | src/commands/share.rs:581-597 | each step, reconnects with the checkpoint included, keeps that |
| `Resume.AnnouncementFitsIff` | src/commands/get.rs:985-1001 | exact: after an announcement the buffer ends where the next chunk begins iff the resume point is within what is held |
| `Resume.GuardedResumeIsSafe` | src/commands/get.rs:985-1034 | without any timing assumption the same safety holds for runs whose announcements meet that guard |
| `ResumeProgress.ReconnectFinishes` | src/commands/share.rs:581-749 | liveness: after a settled reconnect whose queued acknowledgements come in turn, every run of the holding connection that cannot go on has delivered the payload, whenever batch, window and the rest are finishable |
| `ResumeProgress.ReconnectIsShort` | src/commands/share.rs:635-749 | whatever is queued, every run of a holding connection takes at most four steps per missing chunk, two per queued acknowledgement, and three |
| `ResumeProgress.ReconnectCompletesIff` | src/commands/share.rs:581-749 | exact: a settled reconnect that holds always completes iff every acknowledgement in the sender's queue, read in turn, names a chunk sent by then; if one does not, it never completes |
| `ResumeProgress.ResumeCompletesIff` | src/commands/get.rs:985-1034 | the same after any history of cuts, losses, unread acknowledgements, fresh keys and restarts, for every batch within the window |
| `ResumeProgress.UndroppedResumeCompletes` | src/local_server.rs:132-139 | as long as the recipient itself never dropped, every settled reconnect that holds completes the transfer: what the relay passed on is within its checkpoint |
| `ResumeProgress.StaysInStep` | src/commands/share.rs:635-749 | every step of a holding connection, announcement, bytes, relay and acknowledgements of earlier connections included, is a step of the two bare engines over ordered channels, the announcement's arrival, or a hop of an acknowledgement |
| `ResumeProgress.StaleAckStalls` | src/commands/share.rs:509-514 | that condition can fail, because a re-join does not drain the queue: for every multiple of the batch beyond the window and below the chunk count, a history of settled steps leaves its acknowledgement unread, the recipient starts over, and the connection never completes |
| `Resume.LateAckLeavesHole` | src/local_server.rs:132-139 | false without atomic reconnects: for every payload of at least one batch, an acknowledgement reaching the relay after the sender read the checkpoint leads to a buffer with a hole |
| `ResumeVerdicts.FinishesIffWhole` | src/commands/get.rs:1024-1032 | exact, in any state of any run, for a hash that tells contents apart: the loop finishes iff the message completes the receiver and the buffer is the payload, and reports a mismatch iff it completes over anything else |
| `ResumeVerdicts.SettledCompletionFinishes` | src/commands/get.rs:985-1034 | over any settled history a completion finishes with the payload's hash, and no message mismatches |
| `ResumeVerdicts.HoleIsCaught` | src/commands/get.rs:1024-1032 | the run with the hole never finishes: however long its connection holds, a completion is a mismatch |
| `RelayedResumes.RunAgrees` | src/local_server.rs:76-180 | over every joint run of the peers and the relay, the relay's checkpoint is the one the peers are told, and the peers' part is a run of `Resume` |
| `RelayedResumes.EveryRunIsRelayed` | src/local_server.rs:76-180 | and every run of `Resume` is the peers' part of one |
| `RelayedResumes.ReconnectResumesAtLargestAck` | src/commands/share.rs:509-533 | in every joint run a sender that re-joins resumes at what its join was answered with: the largest acknowledgement the relay saw since a recipient last dropped, or zero |
| `Relay.Relay.OnJoin` | src/local_server.rs:76-111 | a join registers, arms its role, is answered, and broadcasts both-ready with the next generation iff both are armed |
| `Relay.Relay.OnAck` | src/local_server.rs:129-142 | an acknowledgement only raises the checkpoint |
| `Relay.Relay.OnDisconnect` | src/local_server.rs:156-180 | a drop disarms its role; a recipient's drop clears the checkpoint |
| `Relay.GenerationCountsBroadcasts` | src/local_server.rs:101-109 | the generation is the number of both-ready broadcasts, and each carries its own |
| `Relay.ArmedMeans` | src/local_server.rs:85-109 | a role is armed iff it joined since the last broadcast and has not dropped since |
| `Relay.BothRejoinBetweenBroadcasts` | src/local_server.rs:98-109 | between two broadcasts each role joined again |
| `Relay.CheckpointIsLargestAck` | src/local_server.rs:129-173 | the checkpoint is the largest acknowledgement since the recipient last dropped, or zero |
| `Relay.JoinIsAnswered` | src/local_server.rs:85-109 | in every history each join of a known role is answered once and first: with the number of broadcasts so far, the largest acknowledgement that stands, and who is present; only the next broadcast can follow |
| `Relay.OthersAreQuiet` | src/local_server.rs:76-180 | nothing else is ever said, but the role of a registered socket that disconnects |
| `Relay.RolesMean` | src/local_server.rs:76-180 | the relay knows of each socket the role it last joined in, until it disconnects |
| `Relay.DropsIff` | src/local_server.rs:156-180 | a drop of a role is the disconnection of a socket whose last join was in it |
| `Relay.PresentMeans` | src/local_server.rs:85-173 | a role is present iff it joined and has not dropped since |
| `Connection.ConnectionMachine.HandleEvent` | src/p2p/connection.rs:107-223 | every event takes the machine to the specified state and actions |
| `Connection.ConnectionMachine.ScheduleRetry` | src/p2p/connection.rs:225-243 | counts one attempt per scheduled retry and stops past the budget |
| `Connection.ConnectionMachine.ArmRetry` | src/p2p/connection.rs:245-252 | arms one timer with the delay of the attempt, or the last one |
| `Connection.ConnectionMachine.OnRetryTimer` | src/p2p/connection.rs:254-279 | dials or joins, and arms the deadline only if it is not running |
| `Connection.ConnectionMachine.RetryManually` | src/p2p/connection.rs:281-300 | resets the budget and starts over unless the session ended |
| `Connection.ConnectionMachine.FailedRound` | src/commands/share.rs:535-548 | one failed round of the drive loops: fail, bail when stopped, fire the timer, re-join |
| `Connection.ConnectionMachine.RunRound` | src/commands/share.rs:579-749 | a whole round: the channel may come up, chunks may move, and then it fails |
| `Connection.ConnectionMachine.Report` | src/commands/share.rs:737-737 | progress is reported only while attempts are counted |
| `Connection.BuildPcCarriesLargest` | src/p2p/connection.rs:128-163 | in every trace, what is built resumes at the largest offset any join has reported |
| `Connection.LargestOffsetIsLargest` | src/p2p/connection.rs:136-138 | that offset is the maximum of all joins so far |
| `Connection.BudgetHolds` | src/p2p/connection.rs:225-252 | in every trace, a reconnecting machine is within its budget and each armed delay is the one of its attempt |
| `Connection.StaysMovingIff` | src/p2p/connection.rs:128-152 | exact: of all events only a re-join that overtakes the retry timer of an established session leaves a reconnecting machine with nothing armed |
| `Connection.AlwaysMoves` | src/p2p/connection.rs:205-279 | in every trace without that, a reconnecting machine has a timer or deadline armed |
| `Connection.OvertakenRetryIsStuck` | src/p2p/connection.rs:128-152 | that state is reachable under every budget, and then neither timer event moves the machine |
| `Connection.TerminalIgnoresIff` | src/p2p/connection.rs:225-304 | exact list of what a completed or expired machine still reacts to; no failure, timer or manual retry is on it |
| `Connection.RetryClimbs` | src/p2p/connection.rs:165-243 | without progress or manual retry the attempt count never falls once a channel has opened, and the stop comes exactly at increment `max_retries + 1` |
| `Connection.LoopGivesUpExactly` | src/commands/share.rs:535-548 | exact, for any failures and any progress between them: the drive loop gives up in the first round that completes `max_retries + 1` consecutive failed rounds since the last progress, counted from the first in which a channel came up (from the start if one had before), and never if there is none |
| `ConnectionTraces.AttemptsAreFailuresSinceRelief` | src/p2p/connection.rs:128-243 | in every trace the attempt count is the number of failures counted since the last progress, manual retry, join before any peer, or peer that came back after the stop |
| `ConnectionTraces.FlagsMean` | src/p2p/connection.rs:107-300 | in every trace each flag is set iff something set it and nothing has cleared it since: socket, peer, owed join, retry timer, deadline, pending retry |
| `ConnectionTraces.PhaseMeans` | src/p2p/connection.rs:107-300 | in every trace the phase is the one the last event led to that leads to one |
| `ConnectionTraces.GenerationMeans` | src/p2p/connection.rs:128-163 | in every trace the generation is the one last reported |
| `ConnectionTraces.SpeaksExactly` | src/p2p/connection.rs:107-300 | exact, in every trace: when each action is emitted and with which value |
| `FrameProtocol.EncodeFrame` | src/transfer/protocol.rs:172-188 | encodes iff the payload prints and is at most a megabyte, as tag 1 or 2, its length in four bytes most significant first, and the payload; with the exact error otherwise |
| `FrameProtocol.DecodeFindsFirst` | src/transfer/protocol.rs:195-225 | the first frame of a buffer is found with its exact length, whatever follows |
| `FrameProtocol.StrictPrefixWaits` | src/transfer/protocol.rs:195-215 | every strict prefix of one frame asks for more |
| `FrameProtocol.DecodeCases` | src/transfer/protocol.rs:195-225 | the exact verdict on every buffer, with the literal tags, limit and length |
| `FrameProtocol.VerdictIsStable` | src/transfer/protocol.rs:195-225 | a frame found or an error raised never changes when bytes are appended |
| `FrameProtocol.ChunkFramesAreCanonical` | src/transfer/protocol.rs:195-225 | a decoded chunk frame was the only encoding of its data |
| `FrameProtocol.PeelingIsExact` | src/transfer/protocol.rs:195-225 | a concatenation of frames cut anywhere in one more peels into exactly those frames and the cut one |
| `FrameProtocol.MessageIsExact` | src/transfer/protocol.rs:231-240 | a message decodes when it is one whole encoding; one byte less or more is refused |
| `FrameProtocol.MessageRoundTrip` | src/transfer/protocol.rs:231-240 | decoding a message inverts encoding, and its length is within the frame limit |
| `RelPaths.ValidateRelPath` | src/transfer/engine.rs:47-77 | accepts or refuses with the first reason in the program's order |
| `RelPaths.FaultIsThere` | src/transfer/engine.rs:47-77 | a refusal names a defect the path has |
| `RelPaths.DrivePrefixIff` | src/transfer/engine.rs:47-77 | a drive is one ASCII letter and a colon |
| `RelPaths.ValidatePathComponent` | src/transfer/engine.rs:88-97 | accepts exactly the accepted paths of one component |
| `RelPaths.AcceptedIsProper` | src/transfer/engine.rs:47-77 | the empty and absolute checks are implied by the component check |
| `RelPaths.AcceptedIff` | src/transfer/engine.rs:47-77 | exact: accepted iff there is no nul and on both path conventions the path denotes, under every root, the root followed by its own components |
| `RelPaths.SyncIsConfined` | src/transfer/engine.rs:99-108 | the sync root is one level below the output directory, every accepted path lies strictly below it, and distinct paths resolve to distinct names |
| `RelPaths.JoinUndoesSplit` | src/transfer/engine.rs:68-75 | splitting at slashes loses nothing |
| `RelPaths.SplitUndoesJoin` | src/transfer/engine.rs:68-75 | slash-free components are found again |
| `TransferEngine.SenderEngine.ManifestBatches` | src/transfer/engine.rs:165-177 | the loop cuts the list into batches, the empty list into one empty batch |
| `TransferEngine.SenderEngine.OnManifestAck` | src/transfer/engine.rs:180-201 | the plan, the skipped count and the sorted delete list of the diff; skipped and planned add up to the manifest |
| `TransferEngine.SenderEngine.OnFileFail` | src/transfer/engine.rs:225-231 | retry on a path's first failure, give up on its second |
| `TransferEngine.ReceiverEngine.OnManifest` | src/transfer/engine.rs:278-287 | accumulates paths up to the first unsafe one; complete on the last batch |
| `TransferEngine.ReceiverEngine.AckBatches` | src/transfer/engine.rs:299-311 | the answer in batches, by the same rule |
| `TransferEngine.ReceiverEngine.DeleteDecision` | src/transfer/engine.rs:334-353 | the gate in the program's order: unsafe path, not requested, fat-finger guard, prune |
| `TransferEngine.BatchesAreLossless` | src/transfer/engine.rs:165-177 | batches concatenate to the list, fit 512 entries, and say `more` on all but the last |
| `TransferEngine.BatchesAreFull` | src/transfer/engine.rs:165-177 | as few batches as 512 entries each allow, all but the last full |
| `TransferEngine.FoldingIsLossless` | src/transfer/engine.rs:278-287 | folding the batches of safe paths gives exactly the list's paths, complete after the last batch and not before |
| `TransferEngine.BatchesAreSafeIff` | src/transfer/engine.rs:278-282 | a list is safe iff every batch of it is |
| `TransferEngine.PlannedIff` | src/transfer/engine.rs:185-194 | exact: an entry travels unless the last word of the peer's list about its path is its hash |
| `TransferEngine.PlanKeepsOrder` | src/transfer/engine.rs:180-194 | the plan is the manifest without what the peer holds, in order, each entry where it stood |
| `TransferEngine.DeletesAreNamedOnce` | src/transfer/engine.rs:195-201 | each stale path is named once, in byte order |
| `TransferEngine.DeletesAreTheStale` | src/transfer/engine.rs:195-200 | exact: the delete list is what the peer holds and the source does not, sorted; it never names a source file |
| `TransferEngine.PrunesIff` | src/transfer/engine.rs:334-353 | exact condition under which the requested paths, and only they, are removed; otherwise why they are kept, and the first refused path is the one named |
| `TransferEngine.ManifestGathers` | src/transfer/engine.rs:278-287 | a batch adds its paths up to the first refused one, whose path and defect the error names; the list ends with the last batch if none is |
| `SyncTcp.ByteSource.ReadExact` | src/commands/sync_tcp.rs:194-213 | short reads are reassembled; a stream that ends early is reported |
| `SyncTcp.WriteMessage` | src/commands/sync_tcp.rs:174-187 | appends one length-prefixed message, or refuses it for its length |
| `SyncTcp.ReadMessage` | src/commands/sync_tcp.rs:194-213 | what is read depends only on the bytes of the stream, not on how they are cut into segments |
| `SyncTcp.ReadsBackIff` | src/commands/sync_tcp.rs:174-213 | exact: of what the writer accepts, a message is read back iff it is not empty |
| `SyncTcp.MessageCases` | src/commands/sync_tcp.rs:194-213 | the exact reading of every stream, with the literal limit |
| `SyncTcp.Sealer.Seal` | src/commands/sync_flow.rs:86-97 | the index in front of the ciphertext under its nonce; the index advances iff sealing succeeds |
| `SyncTcp.Unsealer.Unseal` | src/commands/sync_flow.rs:110-120 | opens under the index on the wire |
| `SyncTcp.OpeningUndoesSealing` | src/commands/sync_flow.rs:86-120 | unsealing inverts sealing, with an overhead of 24 bytes |
| `SyncTcp.NoncesNeverRepeat` | src/commands/sync_flow.rs:86-97 | of all messages one sealer emits no two used the same nonce |
| `SyncTcp.TcpWire.Send` | src/commands/sync_tcp.rs:253-256 | the stream grows by exactly the framed, sealed frame, or not at all |
| `SyncTcp.TcpWire.Recv` | src/commands/sync_tcp.rs:258-272 | one receive, with the poisoning of the wire |
| `SyncTcp.LegitimateFramesFit` | src/commands/sync_tcp.rs:62-72 | a frame that encodes is, once sealed, non-empty and within the limit, which is reached exactly by the largest frame |
| `SyncTcp.FrameArrives` | src/commands/sync_tcp.rs:253-272 | one frame through the wire arrives and leaves the rest of the stream |
| `SyncTcp.WireIsFaithful` | src/commands/sync_tcp.rs:253-272 | the frames sent are the frames received, in order, leaving what follows them |
| `SyncTcp.PoisonsIff` | src/commands/sync_tcp.rs:258-272 | exact: a receive poisons the wire iff it was poisoned or read a whole message that does not open |
| `SyncTcp.ReceiveFails` | src/commands/sync_tcp.rs:258-272 | what a receive without a frame reports: a wrong password iff the wire is poisoned, a protocol error for a message that opens to no frame, otherwise what was wrong with the message |
| `SyncTcp.NothingTooLongGoesOut` | src/commands/sync_tcp.rs:174-187 | nothing longer than a message with its prefix goes out, whatever the cipher makes of a frame |
| `SyncTcp.PoisonIsFinal` | src/commands/sync_tcp.rs:258-262 | a poisoned wire yields no frame and reads no byte, ever |
| `SyncReceivers.ScanDest` | src/commands/sync_flow.rs:153-184 | lists every real file once, with its hash, in byte order |
| `SyncReceivers.ListingIs` | src/commands/sync_flow.rs:153-184 | exactly the real files, with their hashes |
| `SyncReceivers.PartNames` | src/commands/sync_flow.rs:817-822 | a part file is its path with `.nullseal-part` behind it, and nothing else is one |
| `SyncReceivers.PruneExtras` | src/commands/sync_flow.rs:844-852 | leaves exactly the part files, the archive's files and what could not be removed |
| `SyncReceivers.SyncReceiver.ResolveSyncRoot` | src/commands/sync_flow.rs:492-586 | the hello checks in order, then the root, the part files and the scan, each of which may fail; on success the parts are gone and the rest is listed |
| `SyncReceivers.SyncReceiver.DiscardStaleParts` | src/commands/sync_flow.rs:205-233 | removes exactly the part files, or stops at one that cannot be removed, with those listed before it gone |
| `SyncReceivers.SyncReceiver.ReceiveManifest` | src/commands/sync_flow.rs:596-616 | one batch; the answer goes out once, after the last |
| `SyncReceivers.SyncReceiver.ReceiveFileBegin` | src/commands/sync_flow.rs:617-650 | opens an empty part file for a safe path |
| `SyncReceivers.SyncReceiver.ReceiveChunk` | src/commands/sync_flow.rs:651-668 | appends to the part file and to what is hashed |
| `SyncReceivers.SyncReceiver.ReceiveFileEnd` | src/commands/sync_flow.rs:669-698 | commits or rejects, and answers |
| `SyncReceivers.SyncReceiver.CommitPart` | src/commands/sync_flow.rs:776-815 | moves the part file into place iff flush, hash and rename succeed; otherwise removes it |
| `SyncReceivers.SyncReceiver.PruneListed` | src/commands/sync_flow.rs:824-840 | removes the listed files that can be and counts them |
| `SyncReceivers.SyncReceiver.ReceiveDelete` | src/commands/sync_flow.rs:699-726 | acts on the gate's decision |
| `SyncReceivers.SyncReceiver.Halt` | src/commands/sync_flow.rs:752-757 | leaving the loop removes the unfinished part file |
| `SyncReceivers.SyncReceiver.OnFrame` | src/commands/sync_flow.rs:593-750 | one frame, or the end of the connection, in every phase |
| `SyncReceivers.SyncReceiver.Answer` | src/commands/sync_flow.rs:596-616 | answers go out one after the other; the first that does not encode ends the run without an abort, and the part file is removed |
| `SyncReceivers.SyncReceiver.Receive` | src/commands/sync_flow.rs:593-757 | one frame with its answers, some of which may fail to go out |
| `SyncSafety.HandlingTouches` | src/commands/sync_flow.rs:593-757 | the same for a step whose answers may fail to go out |
| `SyncSafety.StepTouches` | src/commands/sync_flow.rs:593-757 | one step changes a real path only by a verified commit of the file open there or a requested, safe, listed deletion |
| `SyncSafety.EndCommits` | src/commands/sync_flow.rs:776-815 | a commit writes at most the begun path, and only the bytes received for it since it was begun, if they have the announced hash |
| `SyncSafety.DeleteRemoves` | src/commands/sync_flow.rs:699-726 | a delete removes at most listed paths, when asked for on this side |
| `SyncSafety.AtomicCommit` | src/commands/sync_flow.rs:563-759 | for every peer, every fault, every answer that fails to go out, and every step: a real path holds its prior bytes or exactly the chunks between a received `FileBegin` that names it, with no other begun since, and a `FileEnd` of their hash; a prior file is gone only by a requested deletion of safe paths naming it |
| `SyncHellos.HelloStartsIff` | src/commands/sync_flow.rs:492-586 | exact, for every peer: a hello starts a waiting receiver iff it is of version 1, for a sync, names one accepted component, and the file system lets the folder be made, cleared and listed; then it answers a hello of version 1 |
| `SyncHellos.HelloRefused` | src/transfer/engine.rs:112-124 | a hello of another version or mode ends a waiting receiver with the error that says so and one abort, and touches no file |
| `SyncHellos.FolderRefused` | src/commands/sync_flow.rs:503-527 | so does a missing folder name or one that is not a single accepted component |
| `SyncHellos.HelloFails` | src/commands/sync_flow.rs:529-586 | what each refusal of the file system leaves of a good hello, and which one is worth an abort |
| `SyncHellos.WrongHelloEndsTheRun` | src/commands/sync_flow.rs:492-506 | over every run whose first hello is of another version or mode: it ends there, with that error and the files as they were, whatever follows |
| `SyncHellos.GreetingBegins` | src/commands/sync_flow.rs:277-290 | a sender first says a hello of version 1 for a sync, with its folder, and then its whole list |
| `SyncHellos.SenderHelloIff` | src/commands/sync_flow.rs:300-312 | exact: a listening sender goes on after a hello iff it is of version 1 and for a sync; otherwise it ends with the error that says so and one abort |
| `SyncAnswers.RunningAnswers` | src/commands/sync_flow.rs:593-749 | exact, for every peer, state and refusal of the file system: how a running receiver answers each frame, which ones end it, with which error and with or without an abort |
| `SyncAnswers.OthersAnswered` | src/commands/sync_flow.rs:492-540 | and what one that does not run says |
| `SyncAnswers.UnsayableEnds` | src/commands/sync_flow.rs:612-612 | an answer that does not encode ends the run and is the first thing of its step that is not said |
| `SyncAnswers.SummaryCounts` | src/commands/sync_flow.rs:670-690 | over every run against every peer the summary counts the files moved into place, their bytes, and the ones that replaced a file |
| `SyncAnswers.LandingIsThere` | src/commands/sync_flow.rs:776-815 | what is counted and answered with an ok is there: all that came for the file, under its name, and no part file |
| `SyncAnswers.ReplacesMeans` | src/commands/sync_flow.rs:617-650 | over every run: an open file counts as a replacement iff its path held something when it was begun |
| `SyncAnswers.DeletesAreCounted` | src/commands/sync_flow.rs:699-720 | acted on, the listed files that can be removed go and are counted; otherwise all are counted as kept and none goes |
| `SyncAnswers.OthersDeleteNothing` | src/commands/sync_flow.rs:593-749 | nothing else touches either count |
| `SyncAnswers.PartIsCleared` | src/commands/sync_flow.rs:752-757 | a file that stops being open leaves no part file, unless it cannot be removed |
| `SyncAnswers.StuckStays` | src/commands/sync_flow.rs:824-840 | nothing goes that the file system does not let go, unless it is a part file moved into place |
| `SyncSenders.SyncSender.Greet` | src/commands/sync_flow.rs:277-290 | says the hello and all batches, up to the first that does not encode |
| `SyncSenders.SyncSender.SendOneFile` | src/commands/sync_flow.rs:429-465 | header, every piece, and the hash of what was sent, up to the first frame that does not encode |
| `SyncSenders.SyncSender.BeginFile` | src/commands/sync_flow.rs:346-404 | sends the next planned file, or the delete list and the summary |
| `SyncSenders.SyncSender.Answered` | src/commands/sync_flow.rs:298-344 | starts once hello and list are both in |
| `SyncSenders.SyncSender.OnVerdict` | src/commands/sync_flow.rs:357-387 | next file, one more try, or abort |
| `SyncSenders.SyncSender.OnFrame` | src/commands/sync_flow.rs:298-427 | one frame, or the end of the connection, in every phase |
| `SyncSenderAnswers.ListeningAnswers` | src/commands/sync_flow.rs:295-344 | while it listens: the peer's list is gathered batch by batch, and with the hello and the last batch in, the sender plans; anything else ends it without a word |
| `SyncSenderAnswers.VerdictAnswers` | src/commands/sync_flow.rs:357-387 | a file that landed is counted with its bytes and the next follows; one that was rejected is sent again, once for each name, and then aborts the run |
| `SyncSenderAnswers.ClosingAnswers` | src/commands/sync_flow.rs:406-425 | the peer's count of deletions settles how many stale files are left; a late verdict is ignored |
| `SyncSenderAnswers.SendsTheFile` | src/commands/sync_flow.rs:346-465 | a file is its header, its bytes in order and their hash; after the last come the stale names, if any, and the counts |
| `SyncSenderAnswers.UnsayableEnds` | src/commands/sync_flow.rs:277-290 | a frame that does not encode ends the sender and is the first thing of its step that is not said |
| `SyncRuns.SyncNeverSticks` | src/commands/sync_flow.rs:265-427 | every run of both parties, whatever the file system refuses and whatever frame does not encode: no unexpected frame, always a move until both are done, and a bounded number of moves |
| `SyncRuns.EachFileAtMostTwice` | src/commands/sync_flow.rs:346-388 | in every such run each planned file is begun at most twice, and no other file ever |
| `SyncRuns.SyncEndsTogether` | src/commands/sync_flow.rs:563-759 | both sides succeed or both fail |
| `SyncRuns.CalmRunSucceedsIff` | src/commands/sync_flow.rs:265-427 | exact: with a file system that refuses nothing, an ended run succeeded iff every source path and every stale destination path is one the receiver accepts and every frame either side has to say encodes: the greeting, the answers, the planned files, the delete list, both summaries |
| `SyncRuns.SuccessMirrors` | src/commands/sync_flow.rs:397-427 | after a success every real path is settled, both sides report the same counts, the deleted count is exactly the stale files that could be removed, and sent plus skipped is the source |
| `SyncRuns.SuccessDelivers` | src/transfer/engine.rs:180-194 | after every successful run each real source path holds bytes of the source's hash |
| `SyncRuns.SuccessSpares` | src/transfer/engine.rs:195-200 | after every successful run any other real path is as before, or gone only when pruning was due; in a calm run exactly then |
| `SyncRuns.CalmRunMirrors` | src/commands/sync_flow.rs:699-726 | a calm ended run that prunes, of accepted names and encodable frames, under a hash that tells contents apart, leaves exactly the source files |
| `SyncRuns.SecondRunSendsNothingIff` | src/commands/sync_flow.rs:261-264 | exact: of a success followed by a success over what it left, the second sends no file iff no source name looks like a part file; then no file is ever begun and everything is skipped |
| `SyncRuns.SecondRunChangesNothing` | src/commands/sync_flow.rs:261-264 | after a calm success a second one leaves every real file as it is and, when pruning, deletes nothing |
| `SyncRuns.TurnLeads` | src/commands/sync_flow.rs:265-759 | every turn of either side, failing sends included, leads to a state with fewer turns left |
| `SyncFailures.UnsafeNameFails` | src/commands/sync_flow.rs:699-726 | a name either side holds and the receiver refuses fails every run |
| `SyncFailures.BackslashAtTheDestinationFails` | src/transfer/engine.rs:58-60 | a destination holding one file with a backslash in its name fails every run, with nothing to delete |
| `SyncFailures.OversizedDeleteFails` | src/commands/sync_flow.rs:389-396 | when the stale names alone are longer than a frame, every run fails, prune or not |
| `SyncFailures.CrowdedDestinationFails` | src/commands/sync_flow.rs:389-396 | such a destination: 4900 files with unremarkable names of 220 characters |
| `SyncFailures.PartNameIsSentAgain` | src/commands/sync_flow.rs:153-184 | a source of one file whose name ends like a part file: every success after a success sends it again |
| `SyncProtocol.ReceiverLeads` | src/commands/sync_flow.rs:593-750 | every receiver move leads to a later stage of the run |
| `SyncProtocol.SenderLeads` | src/commands/sync_flow.rs:298-427 | every sender move leads to a later stage of the run |
| `SyncProtocol.HearsFail` | src/transfer/engine.rs:225-231 | a first rejection sends the file once more |
| `SyncProtocol.HearsFailAgain` | src/commands/sync_flow.rs:368-380 | a second one aborts |
| `SyncProtocol.CommitLands` | src/commands/sync_flow.rs:776-815 | a commit lands the source bytes of that file and changes no other real path |
| `CivilDate.DaysToYmd` | src/commands/share.rs:1687-1703 | the two loops compute the specified date for every day count |
| `CivilDate.YmdIsTheDay` | src/commands/share.rs:1687-1703 | that date is valid and its Gregorian day number from 1970-01-01, in closed form, is the count |
| `CivilDate.YmdUndoesDayNumber` | src/commands/share.rs:1687-1707 | and every valid date is what its day number converts to |
| `CivilDate.DayNumberOrders` | src/commands/share.rs:1687-1707 | the day number orders dates as the calendar does |
| `CivilDate.IsoPreservesOrder` | src/commands/share.rs:1679-1684 | through year 9999 the texts compare as the times |
| `CivilDate.Year10000SortsFirst` | src/commands/share.rs:1679-1684 | the first text of year 10000 comes before the last of year 9999 |
| `CivilDate.IsoOrderHoldsIff` | src/commands/share.rs:1679-1684 | exact: the texts of all times below a horizon compare as the times iff the horizon is no later than year 10000 |
| `CivilDate.IsoReadsBack` | src/commands/share.rs:1679-1684 | every text reads back: its digits are a calendar date and a time of day that together are the second it was made from; through year 9999 it has 20 characters |
| `Walker.WalkSummary.WalkDir` | src/walker.rs:101-155 | the recursion in name order pushes exactly the listing of the tree, links apart |
| `Walker.Walk` | src/walker.rs:68-78 | the result is that listing, sorted by path |
| `Walker.WalkListsExactlyTheVisible` | src/walker.rs:68-155 | exact: strictly sorted, and exactly the files and directories such that neither they nor anything above them is ignored or a symbolic link, each with its own size, mode and kind |
| `WalkerLinks.WalkSkipsExactlyTheLinks` | src/walker.rs:130-134 | exact: the links skipped, each once and sorted, are those not ignored in the root or in a listed directory |
| `Walker.DirectoriesComeFirst` | src/walker.rs:72-76 | closed under parents, each directory before its contents |
| `Walker.RelOfIsInjective` | src/walker.rs:119-123 | different nodes have different relative paths |
| `Ordering.SortOrders` | src/walker.rs:76-77 | sorting sorts |
| `Ordering.PrefixIsLess` | src/walker.rs:73-75 | a path comes before everything it is a proper prefix of |
| `Ordering.LessIff` | src/commands/sync_flow.rs:153-160 | the byte order: after a common beginning the first ends where the second goes on, or has the smaller character |
| `Ordering.StrictOrderIsUnique` | src/commands/sync_flow.rs:153-160 | a strictly sorted list is determined by its elements |

## Left out

- AES-GCM, PBKDF2, SHA-256 and Base64: parameters with the contracts named above; key derivation and salts are not
  modelled beyond being carried.
- Runs with a frame that does not decrypt: an honest frame always opens. The adapter drops any other although its engine
  has moved on, so the buffer lacks that chunk; `FrameSpeaks` and `FinishesIffWhole` hold for such frames too.
- JSON of control and announcement frames, including field names and the order of batches' fields: an abstract pair.
- 64-bit overflow of the receiver's `expected` and its signed cast, of `chunk_index + 1`, and 32-bit overflow of the
  attempt count; the sender's wrapping subtraction and `through + 1` are modelled.
- WebRTC, ICE, TURN, Socket.IO, mDNS, the HTTP API and the online signalling server: only the channels and the
  embedded relay appear. The signalling server's source is not part of this model.
- Timer ticks in the drive loops: the command-line loops never call `tick`; the engine's own `Tick` is modelled.
- Prompts, sleeps, progress lines, logging, summaries' formatting, command-line flags, `check` and `manage`.
- The text of abort reasons and of unexpected-frame labels: short tokens instead of the formatted messages.
- The `ignore` crate's pattern matching (any predicate on path and kind) and the `zip` archive.
- Unix permission bits beyond being carried, file modes on commit, symbolic links inside the destination, and directory
  creation and removal (a path's parents are taken to exist once creating the part file succeeds).
- Other processes changing the source or the destination during a run; the source's bytes and read boundaries are fixed
  for a run.
- Bounded socket buffers: the two parties' channels are unbounded queues.
- Sends that fail for another reason than a frame that does not encode (a broken connection, a cipher that fails).
- The TCP handshake, its magic and its accept loop.
- WindowProtocol.WindowHolds: control messages are handled in emission order, because with the program's two queues the
  property is false.
- Resume.ResumeIsSafe: reconnects are atomic with respect to acknowledgements, because otherwise the property is false;
  `GuardedResumeIsSafe` has no such assumption.
- Resume.LateAckLeavesHole: needs a payload of at least one batch that one window covers; smaller transfers have no
  acknowledgement to be late.
- ResumeProgress.ReconnectCompletesIff: with a batch beyond the window it is stated for the parameters for which a clean
  connection finishes; exactly which those are is `FinishesIff`.
- SyncRuns.CalmRunMirrors: equal contents need a hash without collisions and no source name ending like a part file;
  `SuccessDelivers` states the hash equality without the first.
- SyncRuns.SyncNeverSticks: both parties are honest and the channels reliable; a lost connection on one side appears as
  the other side ending. Against any peer only `SyncSafety` speaks.
- SyncFailures.OversizedDeleteFails: the printed delete list is taken to be at least as long as its paths together.
- ReceiveLoops.ReceiveLoop.OnMetadata: a salt or base that is not Base64 counts as one of the wrong length.
- RelPaths.SyncIsConfined: lexical; a file system that ignores case or normalises names may merge distinct names.
- Codec.EncodeChunk: indices are below 2^64, the program's word.
