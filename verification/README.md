# A verified model of the relay's reliable-stream core

The relay carries TCP connections through HTTP polls. Each connection is a *session* with a
frame stream in both directions; a *carrier client* with many poll workers drains sessions
into batches, and an *exit server* routes the frames, talks to the upstreams and answers each
poll with a batch of its own. This project models that core in Dafny and proves what its
comments and design count on.

## How it is laid out

| file | what it models |
|---|---|
| `Prelude`, `Frames` | options, bytes, sequence arithmetic; the frame and its payloads |
| `TxSpec`, `Drains` | the sending half of a session as values: writers, the chunking drain, snapshots and rollback |
| `RxSpec` | the receiving half as values: in-order reassembly |
| `Sessions` | the session object, its drain and delivery loops proved against the two files above |
| `Senders` | one session's sending side over its whole life |
| `RxLoops` | the receive goroutine, its inbox and its channel, interleaved with `Stop` and `CloseRx` |
| `VirtualConns` | the connection face of a session: `Read` with its leftover buffer, `Write` |
| `LateCopies` | a rolled-back batch that reaches the peer after all: exactly when it does no harm |
| `EndToEnd` | sender, network, receiver and reader together, late copies included |
| `FrameCodec`, `BatchCodec` | the wire format, in-place writers and offset parsers |
| `CarrierSpec`, `Carriers` | the client's batch scheduling as values, and the client object over real sessions |
| `CarrierRuns` | any number of poll workers interleaved with writers, late callbacks and clean-up |
| `CarrierRefines` | an uninterrupted poll of those runs does what the client object does |
| `FleetRuns` | those runs with each session's stream end to end |
| `Blacklists` | how long a failing endpoint stays out of rotation |
| `Endpoints`, `Polls` | the round-robin picker, the idle-slot semaphore, and one whole poll |
| `ExitSpec`, `Exits` | the exit's drain under budgets and its tables as values, and the server object |
| `ExitRuns` | the exit over all interleavings of requests, upstream readers, callbacks and clean-up |
| `ExitRefines` | an uninterrupted drain of those runs does what the server object does |
| `RelayRuns` | client and exit together: both directions of a session reassembled at the other end |
| `Tunnels` | one request at the exit: SYNs before data, then draining, waiting and coalescing |
| `Fronting` | choosing fronting hosts from their probes |

The pattern is the same throughout. What an operation does is a function on values; the
object's methods change fields in loops as the Go code does and are proved equal to that
function; what the code promises is proved about the function, about every run of a step
machine, or both. In the machines each critical section is one step, except the drains, which
hold their lock over several steps while writers go on between them. History fields (the log
of counted frames, the holder of a session, the frames ever sent) are written but never read
by a step.

Blocking calls report that they would block (`WouldBlock`, `NothingYet`); clocks, dial
results, HTTP outcomes, random ids and what a `select` picks are parameters. `sort.Slice` and
map iteration are any order that satisfies their contract.

## Results worth knowing

- **Rollback is not always exact.** The comment at `core/internal/session/session.go:281-289`
  promises that a rolled-back drain leaves the session as it was. The code puts the whole
  pre-drain buffer in front of whatever the buffer holds now, so a drain that left a tail
  behind duplicates that tail. `Drains.RollbackExactIffFits` says exactly when the promise
  holds - the buffer fits the frame limit times the chunk size - and
  `Drains.PartialRollbackDuplicates` is an input for which it does not. The client drains at
  most 8 frames of 256 KiB per session, so a failed poll with more than 2 MiB buffered is such
  a case. Stream results that involve rollback carry "the drain had emptied the buffer" as a
  hypothesis on the rollbacks of the run.
- **Rollback reuses sequence numbers.** If a rolled-back batch reaches the peer after all, the
  peer takes its numbers, and drops other frames that carry them. `LateCopies.RetransmissionIff`
  and `LateCopies.LateCopyDeliversAllIff` say exactly when this does no harm: nothing was
  written before the batch was sent again, or the bytes drained are a positive multiple of the
  chunk size, so that new bytes start a new frame. `EndToEnd.LateCopyLosesBytes` is an input
  for which bytes are lost. `EndToEnd.StreamSafety` admits late copies under this condition,
  asked of every drain that follows a rollback (`Resumable`), and `FleetRuns.EveryStreamIsSafe` carries it to every session
  of the client under any number of poll workers.
- **Such late copies are not ruled out.** The comment at `core/internal/carrier/client.go:1250-1253`
  has only undelivered batches rolled back. `Polls.RolledBackThoughTaken` gives the exact polls
  in which the server may have the batch all the same, and `Polls.RolledBackThoughAnswered` those
  in which one of the answers would have kept it, had it come last: the first of two possible
  attempts got an answer it could not read and no second attempt delivered.
  `Polls.TakesBackAnAnsweredBatch` is one.
- **A batch can be kept for nothing.** An empty answer of any status counts as delivered
  (`core/internal/carrier/client.go:842-847`), and the exit also answers a batch it cannot decode
  with an empty 204 (`core/internal/exit/exit.go:331-338`). `Polls.KeptThoughNeverTaken` gives the
  exact polls in which that may have happened, and `EndToEnd.KeptForNothing` what it means: the
  stream never gets past the first frame of that batch.
- **`CloseRx` can race with a delivery.** The comment at `core/internal/exit/exit.go:651-657`
  says so; the idle clean-up at `core/internal/exit/exit.go:864-866` calls it all the same.
  `RxLoops.CloseRxSafeIffNotSending` gives the exact states in which a send on the closed
  channel can follow, and `RxLoops.CloseRxCanPanic` is a run that gets there.
- The "fewer than two kept" fallback of the host selection cannot be reached
  (`Fronting.MostAreKept`).

## Model

| member | source | states |
|---|---|---|
| `TxSpec.EmittedShape` | core/internal/session/session.go:336-399 | Frame i of a drain written directly: byte range [i*p, (i+1)*p) of the buffer, consecutive numbers, SYN and target on frame 0 only, FIN and no payload on the last only |
| `TxSpec.EmittedCount` | core/internal/session/session.go:310-399 | How many frames n steps of the drain loop produce, and that something is left exactly when n is short of the count |
| `TxSpec.EmittedConserves` | core/internal/session/session.go:340-377 | Emitted payloads followed by the remaining buffer are the old buffer |
| `TxSpec.EmittedFits` | core/internal/session/session.go:340-377 | No payload is longer than the chunk size |
| `TxSpec.FullBeforeLast` | core/internal/session/session.go:340-377 | No frame is sent short of the chunk size while bytes for a later one are waiting |
| `TxSpec.EmittedCompose` | core/internal/session/session.go:269-279 | Emitting m frames and then n is emitting m + n, and leads to the same state |
| `TxSpec.AdvancedFields` | core/internal/session/session.go:336-399 | Identity and close request are untouched, the number advances by the frames emitted, SYN is cleared by the first frame, a FIN leaves nothing pending |
| `TxSpec.WritersAppend` | core/internal/session/session.go:132-201 | Any run of writes and closes only appends what it was taken for and only ever closes |
| `Drains.DrainContract` | core/internal/session/session.go:294-412 | Conservation, chunk bound, exact frame count min(k, max(syn, ceil(len/p)) + fin), never above the reserved capacity, and at least one frame exactly when HasPendingTx held |
| `Drains.DrainComplete` | core/internal/session/session.go:336-410 | A drain loop that stopped at its limit or with nothing pending has produced exactly the specified frames |
| `Drains.DrainEmptiesIffFits` | core/internal/session/session.go:340-387 | The drain empties the buffer if and only if the buffer fits the frame limit times the chunk size |
| `Drains.BytesLeft` | core/internal/session/session.go:340-387 | n frames leave nothing of a buffer of at most n chunks, and all but n chunks of a longer one |
| `Drains.DrainThenRest` | core/internal/session/session.go:269-279 | A capped drain followed by an uncapped one emits what one uncapped drain emits |
| `Drains.SplittingDoesNotMatter` | core/internal/session/session.go:269-279 | Any run of capped drains emits a prefix of one uncapped drain, the whole of it once nothing is pending, and that is reached after at most one call per frame |
| `Drains.RollbackResult` | core/internal/session/session.go:418-456 | Exact effect of a rollback after any drain and any writes: old buffer, then the undrained tail a second time, then the new bytes; SYN, FIN and number restored |
| `Drains.RollbackExactIffFits` | core/internal/session/session.go:281-293 | The documented exactness holds if and only if the drain fitted its limits |
| `Drains.UnchangedRetransmission` | core/internal/session/session.go:414-456 | With nothing written or closed in between, rollback is a perfect undo and the same limits give the identical frames |
| `Drains.PartialRollbackDuplicates` | core/internal/session/session.go:425-434 | Counterexample: after a partial drain the bytes on the wire are 1 2 3 2 3 |
| `LateCopies.ResendIff` | core/internal/session/session.go:414-456 | Frames rolled back come first again, unchanged, if and only if nothing was taken since, or their bytes fill their last chunk and they do not end the stream |
| `LateCopies.RetransmissionIff` | core/internal/session/session.go:414-456 | For every failed drain that had emptied the buffer and every run of writers: the next drain begins with the failed frames if and only if nothing was taken since or the drained bytes are a positive multiple of the chunk size |
| `LateCopies.LateCopyHarmlessIff` | core/internal/session/session.go:496-550 | A peer that gets the first copy and then the second gets every byte, each once, if and only if resending was safe |
| `LateCopies.LateCopyDeliversAllIff` | core/internal/carrier/client.go:1250-1273 | The same for a failed poll: after the failed batch and its retransmission the peer has every accepted byte if and only if nothing was taken in between or the drained bytes are a positive multiple of the chunk size |
| `Sessions.Session.constructor` | core/internal/session/session.go:79-95 | A new session: empty buffers, number 0, SYN wanted or not |
| `Sessions.Session.Stop` | core/internal/session/session.go:99-101 | The session is marked stopped |
| `Sessions.Session.EnqueueTx` | core/internal/session/session.go:132-150 | Would block above 8 MiB while open and drops after a close, the buffer untouched in both cases; otherwise the bytes are appended and the queue age is stamped once; the close request is not touched |
| `Sessions.Session.EnqueueInitialData` | core/internal/session/session.go:168-185 | Taken without condition while the SYN is pending; otherwise would block above 8 MiB while open and drops after a close; accepted bytes are appended, others leave no trace |
| `Sessions.Session.RequestClose` | core/internal/session/session.go:189-201 | The close is requested and the buffer unchanged; the queue age is stamped once |
| `Sessions.Session.CloseRx` | core/internal/session/session.go:204-211 | Closes the channel unless a close was already claimed |
| `Sessions.Session.HasPendingTx` | core/internal/session/session.go:214-218 | True exactly when a SYN, bytes or a due FIN are waiting |
| `Sessions.Session.DrainSyn` | core/internal/session/session.go:340-361 | The SYN phase is one step of the frame stream |
| `Sessions.Session.DrainChunks` | core/internal/session/session.go:363-377 | The chunk loop continues the stream until the buffer is empty or the limit is hit |
| `Sessions.Session.DrainFin` | core/internal/session/session.go:389-399 | The FIN comes last, and only when nothing is before it and the limit allows |
| `Sessions.Session.DrainTx` | core/internal/session/session.go:294-412 | Frames, new state, snapshot and stamps of a drain, as the specification says, within the reserved capacity |
| `Sessions.Session.RollbackDrain` | core/internal/session/session.go:418-456 | The new sending state is the specified rollback; the queue age is the one of the snapshot or the one set since, whichever is older |
| `Sessions.Session.Collect` | core/internal/session/session.go:512-530 | The locked part of a delivery collects exactly the payloads that have become deliverable |
| `Sessions.Session.DeliverRx` | core/internal/session/session.go:496-550 | New receive state, payloads put on the channel (fewer if Stop is noticed), closing, when the session is stopped, and when the loop must exit; an old frame changes nothing, an early one is only parked, a due one is handed over at once and moves the stream on |
| `Senders.NextFrameOk` | core/internal/session/session.go:336-399 | One more frame keeps the stream well-shaped |
| `Senders.WrittenOk` | core/internal/session/session.go:132-201 | Writers keep the stream well-shaped |
| `Senders.DrainedOk` | core/internal/session/session.go:294-412 | A drain keeps it well-shaped and only appends to it |
| `Senders.RolledBackOk` | core/internal/session/session.go:418-456 | Undoing a batch keeps it well-shaped if its drain emptied the buffer |
| `Senders.OneWellShapedStream` | core/internal/session/session.go:132-456 | Over every life of a session the counted frames are one well-shaped stream of exactly the accepted bytes |
| `Senders.LifeOfASession` | core/internal/session/session.go:132-456 | Spelled out: numbers 0, 1, 2, ..., one SYN first with the target, at most one FIN and that last, FIN only after every accepted byte, nothing pending then |
| `Senders.WrittenThenClosed` | core/internal/session/session.go:132-412 | Writes that are taken, a close, and one uncapped drain: the payloads are the arguments one after the other, numbered from 0, SYN and target on the first, and the last frame is a bare FIN |
| `RxSpec.AcceptCatchesUp` | core/internal/session/session.go:496-535 | One arrival, old, early, due or after the close, keeps reassembly exact and hands over exactly what became deliverable |
| `RxSpec.ReassemblyRefinesInOrder` | core/internal/session/session.go:496-550 | For every arrival sequence drawn from one stream, in any order and with duplicates, delivery equals the in-order payloads, rxSeq is the least number missing (or just past the FIN) and the queue is exactly what lies beyond |
| `RxSpec.ArrivalOrderIrrelevant` | core/internal/session/session.go:496-550 | Delivered payloads, rxSeq, closedness and, while open, what is parked depend only on which frames arrived |
| `RxSpec.SecondCopyHarmless` | core/internal/session/session.go:501-510 | A batch that arrives twice leaves the receiver, its parked frames included, exactly where one copy would |
| `RxLoops.ClosedOnceByExit` | core/internal/session/session.go:106-128 | In every interleaving, CloseRx included, the channel is closed at most once and is closed when rxLoop has exited |
| `RxLoops.NoSendAfterOwnClose` | core/internal/session/session.go:99-128 | In every run without CloseRx nothing is sent on the closed channel |
| `RxLoops.CloseRxSafeIffNotSending` | core/internal/session/session.go:204-211 | A later panic is possible if and only if CloseRx is called while payloads without a FIN are still being sent |
| `RxLoops.CloseRxCanPanic` | core/internal/exit/exit.go:651-657 | Such a state is reached and the panic follows: a frame arrives, its delivery starts, CloseRx closes the channel, the payload is sent all the same |
| `RxLoops.DataStep` | core/internal/session/session.go:106-128 | Every step of the loop keeps: payloads sent plus payloads about to be sent are the in-order payloads of the frames taken |
| `VirtualConns.PeelConserves` | core/internal/socks/conn.go:35-91 | A read takes a prefix of the waiting bytes and keeps the rest in order; it fills the buffer or leaves nothing over |
| `VirtualConns.VirtualConn.Read` | core/internal/socks/conn.go:35-91 | Returned bytes plus what still waits are what waited before, whichever timer fires; exactly when it returns data, end of file, an idle timeout - which requests the close - or a missed deadline |
| `VirtualConns.VirtualConn.Write` | core/internal/socks/conn.go:93-103 | Reports all bytes written, and appends them unless the session drops them |
| `EndToEnd.SendKeepsLine` | core/internal/carrier/client.go:1250-1273 | No sender step takes back a frame that the network may still deliver, those of rolled-back batches included |
| `EndToEnd.StepInv` | core/internal/session/session.go:106-550 | The joint invariant of sender, network, receiver and reader |
| `EndToEnd.LineIsAccepted` | core/internal/session/session.go:414-456 | The stream as the peer may have seen it - frames sent for good, then those rolled back and still to be sent again - carries a prefix of the accepted bytes |
| `EndToEnd.StreamSafety` | core/internal/session/session.go:106-550 | In every run with losses, duplicates, reorderings, commits, rollbacks, late copies of rolled-back batches and kills, the bytes read are a prefix of the bytes accepted, given that rollbacks undo emptying drains and that a batch is sent again as it was unless none of it reached the peer or ever does |
| `EndToEnd.EndOfStreamMeansComplete` | core/internal/session/session.go:389-399 | When the reader sees end of stream and nobody stopped the receiver, it has read every accepted byte but those behind the line, and all of them if no rolled-back batch waits to be sent again or none has arrived |
| `EndToEnd.KeptForNothing` | core/internal/carrier/client.go:842-847 | A batch that is kept although none of it has reached the peer and no earlier copy is about ends the stream there: in every later run no byte of it, or behind it, is ever read |
| `EndToEnd.LateCopyLosesBytes` | core/internal/carrier/client.go:1250-1253 | Counterexample: a rolled-back batch that arrives after all makes the peer drop a byte written later |
| `FrameCodec.ParseUndoesWire` | core/internal/frame/frame.go:54-126 | Parsing a legal frame's bytes followed by anything gives the frame and its length |
| `FrameCodec.WireUndoesParse` | core/internal/frame/frame.go:89-126 | Whatever is accepted is a legal frame whose bytes are the consumed prefix |
| `FrameCodec.ParsesIffWirePrefix` | core/internal/frame/frame.go:54-126 | Accepting a frame is the same as the data starting with that frame's bytes |
| `FrameCodec.WireFields` | core/internal/frame/frame.go:54-85 | Where each field lies in a frame's bytes: id, eight-byte number, flags, target length, target, four-byte payload length, payload |
| `FrameCodec.BeDigits` | core/internal/frame/frame.go:68-85 | Numbers are written with their base-256 digits, most significant first |
| `FrameCodec.AppendMarshal` | core/internal/frame/frame.go:54-85 | Fails exactly for a target above 255 bytes or a payload above 10 MiB; otherwise the old prefix is kept and 30 bytes plus target and payload are added, in place if there is room |
| `FrameCodec.WriteFields` | core/internal/frame/frame.go:68-85 | The cursor writes fill exactly the frame's bytes and touch nothing else |
| `FrameCodec.Unmarshal` | core/internal/frame/frame.go:89-126 | The cursor parser computes the specified parse; each error exactly for its shortage: fewer than 30 bytes, than the target needs, than the payload needs, or a payload above 10 MiB |
| `BatchCodec.UnslotSlots` | core/internal/frame/crypto.go:283-308 | Reading back packed slots gives the same frames |
| `BatchCodec.DecodeUndoesBody` | core/internal/frame/crypto.go:283-308 | The plaintext parser undoes the packing, for at most 65535 legal frames |
| `BatchCodec.BodyLayout` | core/internal/frame/crypto.go:147-184 | Where a frame lies in a body: client, two-byte count, the slots before it, its four-byte length, its bytes, the slots after it |
| `BatchCodec.AcceptedIsEncodable` | core/internal/frame/crypto.go:283-308 | Whatever is accepted can be packed again, and that packing decodes to the same batch |
| `BatchCodec.AcceptedIffLooselyPacked` | core/internal/frame/crypto.go:283-308 | A plaintext decodes to a batch if and only if it is the client id, the count, and for each of at most 65535 legal frames a length, the frame and slack within that length, followed by ignored bytes |
| `BatchCodec.BatchRoundTrip` | core/internal/frame/crypto.go:147-309 | Decoding an encoded batch gives back client id and frames, for any sealing, compression and text encoding that satisfy their inverse laws |
| `BatchCodec.PlainSize` | core/internal/frame/crypto.go:153-160 | The precomputed size is exactly what will be written |
| `BatchCodec.Pack` | core/internal/frame/crypto.go:147-184 | Fails exactly for more than 65535 frames or one that cannot be marshalled; otherwise the buffer is filled exactly, without growing |
| `BatchCodec.EncodeBatch` | core/internal/frame/crypto.go:147-218 | The same failures, by the limits 65535, 255 and 10 MiB; otherwise the body is sealed behind flag 2 compressed if it has at least 512 bytes and that makes it shorter, and behind flag 0 as it is if not |
| `BatchCodec.DecodeSlots` | core/internal/frame/crypto.go:290-307 | The offset loop computes the specified unpacking |
| `BatchCodec.DecodeBatch` | core/internal/frame/crypto.go:228-309 | Empty for an empty body; each layer that fails is reported as itself; flags 0, 1 and 2 are read as plain, flate and zstd and no others |
| `CarrierSpec.BatchContract` | core/internal/carrier/client.go:1175-1248 | At most 48 frames (144 when busy), 1 to 8 per session, each session once and never one in flight, snapshots exactly of the sessions taken, all others untouched, only empty sessions dropped from the ready set |
| `CarrierSpec.NothingHeldBack` | core/internal/carrier/client.go:1204-1235 | A session in the batch gives eight frames, or the batch is full at 48 (144 when busy), or it has nothing more to send; every frame with bytes behind it carries 256 KiB |
| `CarrierSpec.LeftOutOnlyIfFull` | core/internal/carrier/client.go:1175-1246 | A waiting session is left out only of a batch with exactly 48 frames, 144 with 24 sessions or more |
| `CarrierSpec.SynFirst` | core/internal/carrier/client.go:1237-1246 | If a waiting SYN session gets no frame, no session without a pending SYN gets one |
| `CarrierSpec.OldestFirstWithinAPass` | core/internal/carrier/client.go:1187-1246 | Within a pass no waiting session left out is strictly older than one drained |
| `CarrierSpec.LeftOut` | core/internal/carrier/client.go:1204-1246 | A pass leaves an eligible session out only when the frames ran out, and then drained only sessions ahead of it |
| `CarrierSpec.FailedPoll` | core/internal/carrier/client.go:1250-1286 | Drain, roll back, release: no session forgotten or held, and each as before if and only if its drain emptied its buffer |
| `CarrierSpec.RollbackForgetsNone` | core/internal/carrier/client.go:1254-1286 | A rolled-back batch leaves no session with pending frames outside the ready set |
| `Carriers.Client.NewSession` | core/internal/carrier/client.go:462-486 | A registered, ready session that wants its SYN |
| `Carriers.Client.ReadyRefs` | core/internal/carrier/client.go:1187-1202 | Exactly the ready registered sessions, once each, oldest first; unknown ids leave the set |
| `Carriers.Client.DrainSession` | core/internal/carrier/client.go:1204-1235 | One turn does to the table, the batch and the session what the specification says, which `CarrierSpec.NothingHeldBack` spells out |
| `Carriers.Client.DrainAll` | core/internal/carrier/client.go:1175-1248 | The whole two-pass drain computes the specified batch: at most 48 frames, 144 when busy, and a waiting session is left out only if there are exactly that many |
| `Carriers.Client.RollbackDrained` | core/internal/carrier/client.go:1254-1273 | Every snapshotted session still registered is restored and ready |
| `Carriers.Client.ReleaseInFlight` | core/internal/carrier/client.go:1275-1286 | The sessions are free, and ready if they have more to send |
| `Carriers.Client.GcDoneSessions` | core/internal/carrier/client.go:1325-1339 | The sessions whose FIN was sent and that are closed or 30 seconds past it are stopped and leave the table and the ready set; all others are untouched |
| `CarrierRuns.StepHeld` | core/internal/carrier/client.go:704-718 | Every step keeps: in flight is exactly what the outstanding polls hold, and no two hold the same |
| `CarrierRuns.StepNoneForgotten` | core/internal/carrier/client.go:470-479 | Every step keeps: a registered session with pending frames is ready, in flight or about to be called back |
| `CarrierRuns.StepAnswered` | core/internal/carrier/client.go:704-718 | Every step keeps: a session has a batch out exactly while one poll answers for it, with that batch's own snapshot |
| `CarrierRuns.PollsHoldWhatIsInFlight` | core/internal/carrier/client.go:1175-1286 | Over all interleavings: in flight is the union of the outstanding polls, no session is in two, none is stranded |
| `CarrierRuns.UndoIsRollback` | core/internal/carrier/client.go:1254-1273 | A poll's rollback is the session's own rollback of the batch that is out |
| `CarrierRuns.EverySessionOneStream` | core/internal/carrier/client.go:704-932 | Over all interleavings whose rollbacks undo emptying drains, every session sends one well-shaped stream of exactly its accepted bytes |
| `CarrierRefines.WholeDrain` | core/internal/carrier/client.go:1175-1248 | A poll worker that nobody interrupts can take exactly the batch the client object takes, and leaves the tables as it does |
| `CarrierRefines.FailedPollRuns` | core/internal/carrier/client.go:1250-1286 | If its poll then fails it gets to where the object's rollback and release get, callbacks run |
| `CarrierRefines.KeptPoll` | core/internal/carrier/client.go:1275-1286 | If its poll counts as delivered it gets to where the object's release gets |
| `FleetRuns.StepsAreLegal` | core/internal/carrier/client.go:704-718 | Whatever a poll worker does to a session is a step that session allows: it drains only with no batch out, and commits or rolls back only one that is |
| `FleetRuns.StepMirrors` | core/internal/carrier/client.go:704-932 | Under every step of the client the table entry of a session and the sending end of its stream move alike |
| `FleetRuns.EveryStreamIsSafe` | core/internal/carrier/client.go:704-932 | For every session, with any number of poll workers interleaved with writers, callbacks, clean-up, arrivals, late copies, receive loops and readers: the bytes read are a prefix of the bytes that session accepted |
| `FleetRuns.EndedStreamsAreComplete` | core/internal/session/session.go:389-399 | In the same runs, a stream that ended, was not stopped at its receiver and has no batch waiting to be sent again was read completely |
| `RelayRuns.DrawnReassembles` | core/internal/session/session.go:496-550 | Whatever is drawn from one line of frames, in any order and any number of times, reassembles to the payloads of the line's beginning |
| `RelayRuns.ArrivedIsDelivered` | core/internal/session/session.go:496-550 | Once the first n frames of a line have arrived, in any order and company, all their bytes have been handed over; behind a FIN no more |
| `RelayRuns.UpstreamIsSafe` | core/internal/exit/exit.go:488-541 | For every run of a client and every run of the exit: what a session object of that client was given reassembles to a prefix of the bytes accepted by the client's session of the same id |
| `RelayRuns.DownstreamIsSafe` | core/internal/exit/exit.go:689-781 | Whichever frames of a session object's responses arrive, in any order and any number of times, reassemble to a prefix of what its upstream delivered, and to all of it if the end is seen |
| `Endpoints.RingTurns` | core/internal/carrier/client.go:964-988 | Each pick turns the scan order by one |
| `Endpoints.RoundRobinIsFair` | core/internal/carrier/client.go:964-988 | With a fixed set of k endpoints in rotation any k picks return each exactly once from any cursor; no endpoint exactly when none is in rotation |
| `Endpoints.StepSlots` | core/internal/carrier/client.go:990-1036 | Every reservation and return keeps counters equal to the holders and within the cap |
| `Endpoints.HoldersBound` | core/internal/carrier/client.go:990-1036 | Standing polls number at most buckets times slots |
| `Endpoints.IdleSlotSemaphore` | core/internal/carrier/client.go:719-792 | The same over every interleaving of polls, failovers and returns |
| `Endpoints.ResolveIdleSlots` | core/internal/carrier/client.go:353-417 | At least one slot, and at least two when there is a single bucket |
| `Endpoints.EndpointPool.PickRelayEndpoint` | core/internal/carrier/client.go:964-988 | The scan returns the first endpoint in rotation from the cursor, or -1, and moves the cursor past it |
| `Endpoints.EndpointPool.PickIdleEndpoint` | core/internal/carrier/client.go:995-1019 | The same among endpoints with a free slot, which it takes |
| `Endpoints.EndpointPool.MarkSuccess` | core/internal/carrier/client.go:1055-1072 | That endpoint is healthy again, no other changes |
| `Endpoints.EndpointPool.MarkFailure` | core/internal/carrier/client.go:1122-1156 | That endpoint's failure count rises by one from its old value or the floor, whichever is more, and it is out for the time that count selects; no other changes |
| `Endpoints.EndpointPool.MarkLocalFailure` | core/internal/carrier/client.go:1080-1099 | That endpoint is out for 15 seconds, marked as only locally unreachable, its failure count reset; no other changes |
| `Endpoints.EndpointPool.ResetLocalFailures` | core/internal/carrier/client.go:1038-1053 | Exactly the endpoints marked as only locally unreachable are healthy again, and they are counted |
| `Blacklists.TtlGrows` | core/internal/carrier/client.go:1158-1172 | More failures never mean a shorter time out, and it is between 3 seconds and an hour |
| `Blacklists.TtlTable` | core/internal/carrier/client.go:1158-1172 | The ladder itself: 3, 6, 12, 24, 48 seconds, 5 and 30 minutes, then an hour |
| `Blacklists.OnlySinceSuccess` | core/internal/carrier/client.go:1055-1072 | One success wipes out everything before it |
| `Blacklists.FailuresAddUp` | core/internal/carrier/client.go:1122-1142 | After any run of failures of any kinds the count is the maximum of what the start and each floor account for |
| `Blacklists.OutExactlyThatLong` | core/internal/carrier/client.go:1122-1172 | After a success and then n ordinary failures an endpoint is out of rotation exactly until the n-th step of the ladder has passed since the last of them |
| `Blacklists.FloorsSkipTheRamp` | core/internal/carrier/client.go:1101-1120 | A quota or authorisation failure means at least five minutes, a rate limit at least 24 seconds, whatever came before |
| `Blacklists.OutageLeavesNoTrace` | core/internal/carrier/client.go:1038-1099 | When the network is back an endpoint that only its absence had marked is healthy, and one that failed otherwise is not |
| `Endpoints.EndpointPool.ReleaseBucketSlot` | core/internal/carrier/client.go:1023-1036 | Gives back one slot of the endpoint's bucket, never below zero |
| `Polls.PicksIfAny` | core/internal/carrier/client.go:964-1036 | The picker picks an endpoint in rotation - for an idle poll one with a free slot - and none exactly when there is none |
| `Polls.AttemptMarks` | core/internal/carrier/client.go:812-920 | What one attempt leaves behind, outcome by outcome: a 403 or a hard error page five minutes out, a 429 at least 24 seconds, other failures at least 3 and one failure more, a local outage exactly 15 seconds, success only for an empty or a good answer, nothing for a request not built or cancelled |
| `Polls.TriesWhatItCan` | core/internal/carrier/client.go:755-932 | An endpoint is tried if and only if one can be picked; a second if and only if there are several, the first outcome is one of those listed and one can be picked then; the batch counts as delivered if and only if the last outcome is one of those listed |
| `Polls.RolledBackThoughAnswered` | core/internal/carrier/client.go:1250-1253 | A batch is taken back although one of the answers would have kept it as the last one, if and only if the first of two possible attempts got an answer it could not read and no second attempt delivered |
| `Polls.TakesBackAnAnsweredBatch` | core/internal/carrier/client.go:812-885 | Counterexample: two endpoints, the first answer too large, the second attempt lost |
| `Polls.KeptThoughNeverTaken` | core/internal/carrier/client.go:842-932 | A batch may be kept though the server never took it in exactly the polls that end with anything but a readable batch |
| `Polls.RolledBackThoughTaken` | core/internal/carrier/client.go:1250-1253 | It may be taken back though the server took it in exactly the polls that built a request and did not keep it, read errors and foreign pages included |
| `Polls.Poller.PickNext` | core/internal/carrier/client.go:763-792 | A slot still held is given back before the next endpoint is picked, by the picker of the poll's kind |
| `Polls.Poller.MarkOutcome` | core/internal/carrier/client.go:793-932 | Each outcome marks its endpoint as the specification says, which `Polls.AttemptMarks` spells out |
| `Polls.Poller.TryEndpoints` | core/internal/carrier/client.go:755-932 | The loop computes the specified attempts: picks, marks, outcome, slot held and number of tries; at most one slot is held throughout |
| `Polls.Poller.Settle` | core/internal/carrier/client.go:704-718 | The deferred end of a poll: an undelivered batch is taken back, then the sessions are freed |
| `Polls.Poller.PollOnce` | core/internal/carrier/client.go:704-932 | A whole poll: the oldest-first batch is kept if the specified attempts deliver it and taken back otherwise, the sessions are freed, and every slot is back |
| `Polls.PollFreesItsSessions` | core/internal/carrier/client.go:1275-1286 | Either way the in-flight set is what it was |
| `ExitSpec.TurnBound` | core/internal/exit/exit.go:741-752 | One turn adds at most its cap of frames, at most 8 * 256 KiB, and a first reply at most the initial size plus cap - 1 bytes |
| `ExitSpec.DrainWithinBudget` | core/internal/exit/exit.go:689-781 | Frame cap of 48 or 144 kept; the byte budget is overshot by less than one session's burst, and not at all once used up |
| `ExitSpec.ResponseByteBound` | core/internal/exit/exit.go:382-417 | However many drains are coalesced, session payload is at most 22 MiB - 1 + 8 * 256 KiB |
| `ExitSpec.DrainKeepsTables` | core/internal/exit/exit.go:689-781 | A drain serves only the asking client, each session once and at most 8 frames, keeps the tables in agreement, strands nobody despite caps and budget breaks, keeps first replies small and marks them urgent |
| `ExitSpec.LeftOut` | core/internal/exit/exit.go:730-752 | A session with frames to send gets none only because a budget ran out, and then only sessions before it in the order were served |
| `ExitSpec.LeftOutOnlyBehindOlder` | core/internal/exit/exit.go:705-781 | Every ready session of the client with frames to send is served, unless a budget ran out and none served is younger |
| `ExitSpec.NothingHeldBack` | core/internal/exit/exit.go:730-781 | A session served in k places - eight, or what is left of 48 or 144 - fills them or has nothing more to send, and gives at least what they hold at 256 KiB each, on a first reply at least the initial size; frames but the last are full |
| `ExitSpec.LeftOutOnlyIfSpent` | core/internal/exit/exit.go:730-735 | A waiting session of the client is left out only if the drain has exactly 48 frames, 144 with 24 sessions or more, or at least the byte budget |
| `ExitSpec.AgesAfter` | core/internal/exit/exit.go:730-781 | A drain forgets the queue age of exactly those sessions that it served and that have nothing more to send; all others keep theirs |
| `ExitSpec.ActivityAfter` | core/internal/exit/exit.go:752-775 | A drain records activity now for the sessions it served and no others; a served session stays ready exactly while it has more to send |
| `Exits.Server.OpenSession` | core/internal/exit/exit.go:605-618 | Registration puts the session, its owner, upstream, first-reply mark and activity into the tables together |
| `Exits.Server.RouteIncoming` | core/internal/exit/exit.go:488-532 | A frame reaches a session if and only if the session is the sender's or a SYN whose dial connects opens it; otherwise a reset or version answer is queued for the sender, or nothing after a failed dial |
| `Exits.Server.QueueRST` | core/internal/exit/exit.go:546-552 | One reset is appended to that client's queue |
| `Exits.Server.QueueVersionResponse` | core/internal/exit/exit.go:554-564 | One answer is appended to that client's control queue |
| `Exits.Server.Touch` | core/internal/exit/exit.go:534-540 | Activity is recorded only while the session is registered |
| `Exits.Server.ReadyRefs` | core/internal/exit/exit.go:711-729 | The client's own ready sessions once each, oldest first; unknown ids leave the set |
| `Exits.Server.DrainTurn` | core/internal/exit/exit.go:741-778 | One session's turn, first-reply chunking and bookkeeping included, does what the specification says, which `ExitSpec.NothingHeldBack` spells out |
| `Exits.Server.TakeControl` | core/internal/exit/exit.go:692-703 | Control replies, then resets, of this client only, and its queues are emptied |
| `Exits.Server.Upstream` | core/internal/exit/exit.go:623-646 | Data read from an upstream is appended unless the session is blocked or closed, and the session is ready then |
| `Exits.Server.DrainAll` | core/internal/exit/exit.go:689-781 | The whole drain computes the specified reply, tables and queue ages, over all ready sessions of the client, oldest first |
| `Exits.Server.GcDoneSessions` | core/internal/exit/exit.go:783-796 | The sessions whose FIN was sent and that are closed or 30 seconds past it are stopped and leave every table; all others are untouched |
| `Exits.Server.GcIdleSessions` | core/internal/exit/exit.go:817-870 | Exactly the sessions without activity for 600 seconds leave every table; they are closed and stopped afterwards, and the sessions that stay are untouched |
| `Tunnels.SynReaches` | core/internal/exit/exit.go:350-371 | A SYN reaches a session if and only if its client has it registered, or it or a SYN before it opens it |
| `Tunnels.OtherReaches` | core/internal/exit/exit.go:350-371 | Any other frame reaches a session if and only if its client has it registered or a SYN of the batch, wherever it stands, opens it |
| `Tunnels.BatchActivity` | core/internal/exit/exit.go:534-540 | A batch makes active now exactly the sessions its frames reach; no other activity changes |
| `Tunnels.RouteBatch` | core/internal/exit/exit.go:350-371 | Each frame reaches a session exactly then, and it is the one the server has registered for this client; frames sent with their own SYN get that SYN's session; no session is replaced, the sessions reached are active now and no others, and the tables are those of routing SYNs first |
| `Tunnels.CoalesceSnoc` | core/internal/exit/exit.go:396-417 | The response after one more wake-up is the response so far plus that round, unless the budget is used up |
| `Tunnels.DrainsMore` | core/internal/exit/exit.go:396-417 | What one more drain adds: what was queued for the client, then frames of its sessions for what 22 MiB still leave |
| `Tunnels.FedOneTakes` | core/internal/exit/exit.go:623-646 | What an arrival does: it is appended, and its session ready, unless that is unknown, closed or has more than 8 MiB buffered |
| `Tunnels.FedInTurn` | core/internal/exit/exit.go:623-646 | Arrivals are taken one after the other |
| `Tunnels.MadeOfOwnFrames` | core/internal/exit/exit.go:396-417 | Whatever other requests do to the tables between a handler's drains, every frame of its response was queued for its client or comes from a session that was its client's at the time of one of the drains |
| `Tunnels.Feed` | core/internal/exit/exit.go:639-646 | Data arriving while the handler waits is taken by its sessions, in order |
| `Tunnels.DrainMore` | core/internal/exit/exit.go:407-412 | One more drain of the server as it stands, over the client's ready sessions oldest first, within what is left of the budget; what it yields is appended |
| `Tunnels.Await` | core/internal/exit/exit.go:382-384 | The handler drains at once and on each wake-up until it has something or the wait is over |
| `Tunnels.Gather` | core/internal/exit/exit.go:382-417 | It coalesces further drains only if not urgent, with enough frames and budget left, and stops no sooner than burst or budget end |
| `Tunnels.StopsShaped` | core/internal/exit/exit.go:382-417 | If only upstream data arrives between its drains, the frames of a handler that stops are what was queued for the client, then frames of that client's sessions, at most 22 MiB - 1 + 8 * 256 KiB of them |
| `Tunnels.Respond` | core/internal/exit/exit.go:378-449 | If only upstream data arrives in between, the response is what draining the server at once and on each wake-up yields; it waits only while it has nothing, and goes on to coalesce exactly if it is not urgent, has more than 4 frames and less than 22 MiB, until bursts or budget end; it starts with what was queued for the client, and the rest are frames of its own sessions with at most 22 MiB - 1 + 8 * 256 KiB of payload; after a response with frames exactly the finished sessions leave |
| `ExitRuns.StepAgree` | core/internal/exit/exit.go:534-540 | Every step of every request keeps the table domains equal |
| `ExitRuns.StepBound` | core/internal/exit/exit.go:605-618 | Every step keeps each registered object under its own id and owner |
| `ExitRuns.StepRemembered` | core/internal/exit/exit.go:752-762 | Every step keeps: a registered session with pending frames is ready or about to be called back, also between drain, check and removal |
| `ExitRuns.ClientsAreIsolated` | core/internal/exit/exit.go:488-541 | Over all interleavings: frames in a client's responses are from its own sessions or answer its own frames, and what a session object accepted came from its owner's batches |
| `ExitRuns.TablesAlwaysAgree` | core/internal/exit/exit.go:605-618 | Over all interleavings, clean-ups included: sessions, owners, upstreams and activity have one domain, first replies lie within it, and no session is stranded |
| `ExitRuns.ResponsesCarryOneStream` | core/internal/exit/exit.go:689-781 | Over all interleavings: one session object's frames over all responses are numbered from 0, its FIN last, and carry a prefix of what its upstream delivered |
| `ExitRefines.WholeDrain` | core/internal/exit/exit.go:689-781 | A drain of the machine that nobody interrupts can give exactly the response the server object gives, control frames first, and leaves the tables as it does |
| `Fronting.MiddleRank` | core/internal/carrier/fronting.go:91-98 | The middle of the sorted samples is a sample; more than half are no larger and no more than half are smaller |
| `Fronting.SortedIsSorted` | core/internal/carrier/fronting.go:95-97 | The sorted copy is an ascending rearrangement of the samples |
| `Fronting.Sort` | core/internal/carrier/fronting.go:95-97 | The copy is sorted in place |
| `Fronting.Latency` | core/internal/carrier/fronting.go:91-98 | Such a middle sample, zero without samples |
| `Fronting.SelectIndexes` | core/internal/carrier/fronting.go:201-240 | The choice is the specified one in every branch |
| `Fronting.SuccessesSplit` | core/internal/carrier/fronting.go:206-211 | The successes are the probes with a sample, each as often as it occurs, in their order |
| `Fronting.MostAreKept` | core/internal/carrier/fronting.go:229-239 | With three successes and a positive median strictly more than half of the successful hosts are kept, at least two, so the fallback is unreachable |
| `Fronting.NoneDropped` | core/internal/carrier/fronting.go:201-228 | Otherwise every successful host is kept in order, and every host when there is only one or none succeeded |
| `Fronting.KeptIffFast` | core/internal/carrier/fronting.go:229-239 | Kept then are exactly the successful hosts no slower than three times the median |
| `Fronting.FastestAreKept` | core/internal/carrier/fronting.go:229-239 | Every fastest host is kept, whichever branch is taken |
| `Fronting.OnlySuccessesKept` | core/internal/carrier/fronting.go:201-240 | A host that failed its probes is never kept while any succeeded |

## Left out

- 64-bit wrap-around of `txSeq` and `rxSeq`: both are natural numbers; the codec states where a number must fit 64 bits.
- Slice aliasing: payloads are values, so the zero-copy sharing of `txBuf` with drained frames is not captured.
- AES-GCM, zstd, flate and base64: one abstract pair each, with the inverse law as a hypothesis of the round trip.
- HTTP, TLS, dialing, DNS, proxies, logging, statistics, configuration, the apps: I/O or user interface.
- Wake-ups: that no wake-up is lost is not claimed, and is not so, as a worker takes its wake channel after looking for work.
- A response fitting the client's 32 MiB cap after base64: only the payload bound is proved.
- One upstream per session id: lookup and registration are separate sections, so two requests may both open one; `ExitRuns` allows it.
- Teardown by reset: the exit treats a reset frame like any other, and the client's `routeRx` and `Shutdown` are not modelled.
- Completeness of the downstream: a drained response can be dropped on disconnect, so only prefix safety is claimed there.
- Idle backoff, quota reset times, dial suppression windows, the probe that notices the network is back: parameters or absent.
- Freshness of random session ids: `CarrierRuns` registers an id at most once.
- Overflow of `3 * median` and of latencies: durations are unbounded integers.
- Parallel routing of SYNs: `Tunnels.RouteBatch` routes them one after another; `ExitRuns` has the interleavings.
- Sessions.Session.EnqueueTx: a blocked writer is a `WouldBlock` result instead of a wait on the condition variable.
- VirtualConns.VirtualConn.Write: reports bytes dropped after a close as written, as the code does.
- Polls.Poller.TryEndpoints: which log line or statistics counter an outcome touches is not modelled, only the endpoint's health; endpoint URLs are taken as non-empty.
- Exits.Server.RouteIncoming: the lookup and the registration are one section here; `ExitRuns` separates them.
- Tunnels.Respond: a client that disconnects while the handler waits ends the request without a response; that return is not modelled. Other requests may queue resets, drain or clean up while it waits; its wake-ups carry only upstream data, so a reset in the middle of a response is outside it and `Tunnels.StopsShaped`, and within `Tunnels.MadeOfOwnFrames`, `ExitSpec.ResponseByteBound` and `ExitRuns`. Which wake-ups arrive before the deadlines, and with what data, is a parameter.
- Tunnels.StopsShaped: as for `Tunnels.Respond`, the tables change between drains only by upstream data.
- RelayRuns.UpstreamIsSafe: that a client's batches bring the exit what its sessions got to the network is a hypothesis (`Brought`), because what carries them is the environment.
- EndToEnd.StreamSafety: a rollback of a drain that left a tail, and a late copy outside `Resumable`, are excluded, because bytes are then duplicated or lost (see above).
- Fronting.Sort: the sorting library is an insertion sort; only its result matters.
