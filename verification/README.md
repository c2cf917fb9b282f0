# Verified models of parts of Veloren

Veloren's `network` crate moves messages between two participants, and its `common` crate holds
the region map, the A* search and the spiral iterator. This project models these parts in Dafny and
proves what they are for. Code that changes state in place is modelled by classes and loops, each
proved against a specification function; the theorems are lemmas about these functions, for all
inputs, all runs and all reachable states.

`dafny verify dfyconfig.toml` checks everything.

## The files

| file | what it holds |
|---|---|
| `Types.dfy`, `Vek.dfy`, `Arithmetic.dfy`, `Bytes.dfy` | value types, integer vectors, quotients, little-endian numbers |
| `Protocols.dfy` | the TCP and UDP wire formats, as readers and writers over byte buffers |
| `Message.dfy`, `Prios.dfy` | fragmentation of messages; the priority scheduler `PrioManager` |
| `Scheduling.dfy`, `Flushing.dfy`, `Prices.dfy` | fairness, starvation, draining, the points after a call; when flush notifications fire; the table of prices |
| `Reassembly.dfy`, `Delivery.dfy`, `EndToEnd.dfy` | the receiver; the system of sender, wire and receiver; the delivery theorem |
| `Sending.dfy`, `Closing.dfy`, `Participant.dfy` | the managers of a participant as steps, their invariant, and as classes |
| `StreamLife.dfy`, `Receiver.dfy` | the life of streams over whole runs: ids, message numbers, how they are shut and closed; what the receiver knows |
| `FrameOrder.dfy`, `Genuine.dfy`, `Clashes.dfy` | the order of the frames of each stream; whose bytes a stream receives; what clashes do |
| `OverTheWire.dfy` | the runs of the system and the TCP format together |
| `Channel.dfy`, `StreamIds.dfy` | the handshake of two peers, and the stream ids that follow from it |
| `Regions.dfy` | regions by key: tether, entity sets, event logs |
| `RegionIndex.dfy`, `RegionTick.dfy`, `RegionMap.dfy` | the insertion-ordered storage with neighbour indices; one tick; the class `RegionMap` |
| `Astar.dfy`, `SearchTree.dfy`, `SearchCompleteness.dfy`, `SearchCycles.dfy`, `AstarSearch.dfy` | the resumable A* search, its invariants, negative costs, and the class `Astar` |
| `PathFinding.dfy`, `MovedTarget.dfy` | walkable paths through a world of blocks; a target that moves while it is searched for |
| `Spiral.dfy` | the spiral iterator |

## Main results

* **Delivery.** In any run of a sender, a wire and a receiver that ends with nothing queued, every
  stream has received exactly its non-empty messages, byte for byte and in order, *if and only if*
  no turn started a message while another one with the same message id was emitted in part. Streams may
  have been opened by either side. Message ids count per stream but the receiver's table is keyed by the
  id alone, so two streams of different priorities can clash: their first messages do if that of the more
  urgent one is longer than a fragment. Then a message is lost, and a stream may even be handed the
  beginning of its own message with the end of the other one (`Clashes.dfy`). What a stream receives is
  part of what was posted on it as long as no fragment arrives where its id stands for another message
  (`Genuine.dfy`).
* **Scheduling.** Weighted fairness over any stretch, a bound on waiting computed from the points,
  the exact number of turns until the queues are empty, the exact points after each call, and the exact
  fate of every flush sender: it fires once, or is overwritten by another request for its stream, or goes
  on waiting. Each of the 64 prices is 100 times the fifth root of 2 to the power of the priority, rounded.
* **Closing.** In every run, the frames of a closed stream are the one that opens it, all fragments of
  all messages accepted on it, in order, and `CloseStream`. When `send_mgr` leaves its loop, nothing is
  left behind if and only if its last call had turns enough for all that was there and no message was
  accepted after that call. A participant that was closed for an error accepts none; one that was closed
  without an error can, on streams it opens afterwards. Streams are closed in the order in which this was
  asked for, messages are numbered from 0 on each stream, and a stream takes messages exactly until its
  close is begun or `close_api` is called. A stream that `close_api` shuts first is never closed
  (`StreamLife.dfy`).
* **Handshake.** Every maximal run of two peers ends connected exactly if their builds match and
  just one of them starts, and all that the two send is known; the stream ids handed out afterwards are
  disjoint under an exact condition.
* **Regions.** The neighbour indices survive insertions and swap-removals; a tick puts every entity
  where the tether rule says, in one region only, with logs that are the exact difference.
* **A\*.** `came_from` is a tree for non-negative costs, and for fixed costs without a cycle of negative
  total; without that two iterations can make it a cycle. When a search gives up with `None`, whatever
  goals it had before, a goal can be reached if and only if it had been expanded before the call, when it
  was no goal; for goals that never change none can be reached. So `find_path` misses a target that moves
  back to a place the search has expanded. Polling in slices is one long search, and a path that is
  returned can be walked: every step has the floor and the free blocks that `PathFinding.CanWalk` lists.

## Where the code and its documentation differ

The models follow the code.

* `TETHER_LENGTH` is documented as a distance outside the region's border; the code measures from
  the region's lower left corner (`Regions.TetherFromCorner`). The subtraction may also wrap around
  (`Regions.OverflowExample`); then an entity stays in a region far away from it.
* `find_path` is documented to return a path if one was found. It also returns a fallback path, which
  ends at a node *next to* the one that came closest (`AstarSearches.ReturnedPath`).
* `find_path` is meant to be resumed while its target moves, but then returns an incomplete path to a
  target that can be reached if the search had expanded it earlier (`MovedTarget.MovedTargetMissed`).
* A message without a single byte is accepted, takes a turn, and is never delivered, because
  `fill_next` emits no frame for it. All delivery results are about non-empty messages, and enough
  empty ones make `send_mgr` leave its loop early (`Scheduling.SilentNotDrained`).
* A comment in `fill_frames` says that a message is pushed back so that all messages of a priority
  take turns; the code pushes it to the front, so they are sent one after the other.
* A step of `find_path` that drops two blocks does not look at the block that the walker's head would
  pass first; a step straight down is listed, but never possible (`PathFinding.StepsExactly`,
  `PathFinding.NeverStraightDown`).
* A payload of 65536 bytes or more does not survive the 16-bit length field
  (`Protocols.StreamRoundTrip` is an equivalence for that reason); `fill_next` never makes one.

## Model

| member | source | states |
|---|---|---|
| `Bytes.ReadBack` | network/src/types.rs:168-172 | a number that fits in k bytes is read back from its little-endian bytes |
| `Bytes.WriteBack` | network/src/types.rs:168-172 | any bytes are written back from the number they stand for |
| `Bytes.LEAt` | network/src/types.rs:168-172 | byte i is the digit that stands for 256 to the power of i |
| `Protocols.EncodeLayout` | network/src/protocols.rs:253-309 | the bytes of each frame, one by one: tags 1 to 8, where each field lies, and the low two bytes of a payload's length |
| `Protocols.ParseEncode` | network/src/protocols.rs:117-208 | any frame whose payload fits is read back from its encoding, whatever follows, and exactly its bytes are used |
| `Protocols.ParsePrefix` | network/src/protocols.rs:70-90 | a reader reports nothing for a proper prefix of a packet |
| `Protocols.EncodeParse` | network/src/protocols.rs:117-208 | whatever is read under a known tag is written back as the very bytes it was read from |
| `Protocols.StreamPrefix` | network/src/protocols.rs:107-209 | cut the byte stream anywhere: the frames that arrived completely are read, and no others |
| `Protocols.StreamRoundTrip` | network/src/protocols.rs:117-310 | parsing the concatenated encodings gives back the list if and only if every payload fits |
| `Protocols.FormatsAgree` | network/src/protocols.rs:352-447 | a UDP reader sees in a datagram what a TCP reader sees in the same bytes if and only if the tag is known, or there are exactly the 32 bytes the TCP reader guesses |
| `Protocols.DatagramRoundTrip` | network/src/protocols.rs:352-528 | a datagram decodes to its frame exactly if the payload fits, and panics the reader otherwise |
| `Protocols.Wire.ReadExact` | network/src/protocols.rs:70-89 | takes exactly n bytes off the front, or nothing if fewer have arrived |
| `Protocols.TcpWriteFrame` | network/src/protocols.rs:253-309 | the calls for one frame append its encoding to the wire |
| `Protocols.TcpWriteToWire` | network/src/protocols.rs:231-310 | the writer appends the encodings of all frames, in order |
| `Protocols.TcpReadSetup` | network/src/protocols.rs:124-144 | reads handshake and init frames field by field as the format says, or asks to shut down |
| `Protocols.TcpReadControl` | network/src/protocols.rs:145-171 | the same for shutdown, stream and header frames |
| `Protocols.TcpReadData` | network/src/protocols.rs:172-183 | the same for data frames, whose payload is as long as the length field says |
| `Protocols.TcpReadRaw` | network/src/protocols.rs:184-200 | the same for raw frames, and the 32-byte guess under an unknown tag |
| `Protocols.TcpReadFrame` | network/src/protocols.rs:107-208 | one turn takes the first frame off the stream and leaves the rest |
| `Protocols.TcpReadFromWire` | network/src/protocols.rs:91-209 | the reader produces exactly the frames that arrived completely |
| `Protocols.TcpTransfer` | network/src/protocols.rs:91-310 | writer and reader together: frames arrive unchanged if and only if all payloads fit |
| `Protocols.UdpFillBuffer` | network/src/protocols.rs:466-530 | copying the fields into the buffer in place leaves the frame's encoding in front |
| `Protocols.UdpWriteToWire` | network/src/protocols.rs:451-530 | every datagram decodes to its frame although all are assembled in the same buffer |
| `Protocols.FitsBufferExactly` | network/src/protocols.rs:453-527 | the frames that the 2000-byte buffer holds: all but data frames of more than 1981 bytes and raw frames of more than 1997 |
| `Message.FillNext` | network/src/message.rs:59-84 | extends the frames by the header, once, and the next 1400 bytes, advances the cursor, and tells when the message is used up |
| `FrameOrder.FragmentsAre` | network/src/message.rs:56-84 | an empty message becomes no frame at all; any other one a header and its bytes in pieces of 1400, each with its place in the message |
| `OverTheWire.FragmentsFit` | network/src/message.rs:56-80 | every fragment fits both wire formats |
| `Prios.BestOf` | network/src/prios.rs:187-201 | the queued priority with the fewest points, the lowest number among equals |
| `Prios.Next` | network/src/prios.rs:187-201 | the choice of the next turn, and none exactly if nothing is queued |
| `Prios.EnqueueValid` | network/src/prios.rs:149-167 | a new message keeps: only the front of a queue is sent in part, flushes wait only for queued streams |
| `Prios.ServeCounts` | network/src/prios.rs:226-256 | a turn lowers the message count of a stream exactly when it uses up one of its messages |
| `Prios.TurnValid` | network/src/prios.rs:226-264 | a turn keeps the same invariant |
| `Prios.IdleTurns` | network/src/prios.rs:258-263 | leaving the loop early when nothing is queued changes nothing |
| `Prios.PrioManager.constructor` | network/src/prios.rs:51-145 | starts with empty queues, no points and no streams |
| `Prios.PrioManager.Accept` | network/src/prios.rs:149-168 | queues one message and keeps `queued` and `sid_owned` in agreement with the queues |
| `Prios.PrioManager.Register` | network/src/prios.rs:170-183 | keeps the flush sender while the stream has queued messages, else fires it at once |
| `Prios.PrioManager.Tick` | network/src/prios.rs:147-184 | drains the messages first and the flush requests after them |
| `Prios.PrioManager.CalcNextPrio` | network/src/prios.rs:187-201 | finds that priority in whatever order the hash set is visited |
| `Prios.PrioManager.PopFront` | network/src/prios.rs:231-235 | charges the priority and takes its first message out |
| `Prios.PrioManager.Release` | network/src/prios.rs:243-253 | the last message of a stream removes its entry and fires its flush |
| `Prios.PrioManager.Finish` | network/src/prios.rs:236-253 | the end of a turn that used up its message |
| `Prios.PrioManager.PushFront` | network/src/prios.rs:254-256 | the message that is not used up goes back to the front |
| `Prios.PrioManager.TakeTurn` | network/src/prios.rs:226-256 | one turn of the chosen priority: points, queues, frames and flushes |
| `Prios.PrioManager.Round` | network/src/prios.rs:224-264 | one round of the loop, with the reset of the points when nothing is queued; what that amounts to for a call is `Scheduling.PointsAfter` |
| `Prios.PrioManager.FillFrames` | network/src/prios.rs:217-266 | the whole call: new state, frames and flushes are those of the specification, with consistent bookkeeping |
| `Scheduling.PointsAfter` | network/src/prios.rs:224-264 | the points after a call: all forgotten if it had more turns than there were fragments queued, else every turn was charged |
| `Scheduling.ForgottenExactly` | network/src/prios.rs:257-262 | a call forgets all points if and only if it has more turns than there are fragments queued |
| `Prices.PricesNearest` | network/src/prios.rs:42-49 | each of the 64 prices is the integer nearest to 100 times the fifth root of 2 to the power of the priority |
| `Scheduling.FillIsRun` | network/src/prios.rs:217-266 | every call is a run of sends, flush requests and turns, so results about runs hold between and within calls |
| `Scheduling.PointsPaid` | network/src/prios.rs:227-231 | while a priority stays queued the points are not reset: every turn is charged in full |
| `Scheduling.Fairness` | network/src/prios.rs:187-264 | over any stretch with p and q queued, p gets at most what q gets plus one turn and the initial difference |
| `Scheduling.ThroughputHalves` | network/src/prios.rs:1-6 | the documented halving of throughput every five priorities, up to one percent and two turns |
| `Scheduling.NoStarvation` | network/src/prios.rs:187-256 | a queued priority is served within a number of turns computed from the points, whatever else arrives |
| `Scheduling.TurnWorks` | network/src/prios.rs:226-256 | each turn does one fragment of the outstanding work |
| `Scheduling.DrainedExactly` | network/src/prios.rs:217-266 | the queues are empty after n turns if and only if n is at least the number of fragments |
| `Scheduling.SilentMeansDrained` | network/src/participant.rs:210-240 | a call that emits no frame leaves nothing behind if and only if only empty messages were queued, and no more than turns; otherwise all its turns went to empty messages |
| `Scheduling.SilentNotDrained` | network/src/participant.rs:210-240 | at any priority, as many empty messages at the front as there are turns hide everything behind them |
| `Flushing.FireStep` | network/src/prios.rs:243-253 | the step that takes a stream's last message fires its flush, and no other step does |
| `Flushing.OverwriteStep` | network/src/prios.rs:170-183 | a second request for a stream with queued messages drops the sender that waits |
| `Flushing.FlushExactlyOnce` | network/src/prios.rs:170-253 | over any run, a flush sender fires once if and only if its stream has nothing queued before it is asked for again; it is lost if and only if the stream is asked for again before that; else it goes on waiting |
| `Reassembly.ReceiveFragment` | network/src/participant.rs:382-433 | the frames of one turn move the receiver's entry along with the sender's cursor, and the last one delivers |
| `Reassembly.ReceiveAppend` | network/src/participant.rs:307-441 | handling frames one after the other composes |
| `Reassembly.DeafGetsNothing` | network/src/participant.rs:405-433 | a stream that is being closed, or is unknown, gets no more messages until it is opened again |
| `Reassembly.ShutdownDeafens` | network/src/participant.rs:434-438 | after `Shutdown` no stream gets anything, until it is opened again |
| `Receiver.OnlyWholeMessages` | network/src/participant.rs:382-403 | whatever frames arrive, only messages of exactly the length that their header announced are handed to a stream |
| `Receiver.StreamsKnown` | network/src/participant.rs:333-381 | at every moment of any run the receiver knows exactly the streams that are open, with the priority and the promises they were opened with, and each takes messages |
| `Delivery.TurnMoves` | network/src/prios.rs:226-256 | what a turn does to sender and receiver together |
| `Delivery.StepKeeps` | network/src/participant.rs:382-414 | every step without a clash keeps: the receiver's table holds exactly the messages emitted in part, and nothing is lost |
| `EndToEnd.Conservation` | network/src/participant.rs:382-414 | at every moment of a clash-free run, a stream was given what it got followed by what is still queued |
| `EndToEnd.ClosedComplete` | network/src/participant.rs:353-381 | in a clash-free run, a closed stream has received everything |
| `EndToEnd.StepTally` | network/src/participant.rs:382-403 | in every run, the messages delivered, those half put together and the headers that overwrote a used entry are together no more than the messages started |
| `Genuine.OnlyPosted` | network/src/participant.rs:382-414 | in any run in which no fragment arrives where its id stands for another message, a stream receives whole messages posted on it, each at most once, in order |
| `Genuine.ClashFreeStrayFree` | network/src/participant.rs:382-414 | without clashes no fragment does that |
| `EndToEnd.ClashLoses` | network/src/participant.rs:389 | a clash overwrites a table entry that is still in use |
| `EndToEnd.DeliveryExactly` | network/src/participant.rs:382-414 | after a run that drains, every stream got exactly its non-empty messages in order if and only if the run was clash-free |
| `EndToEnd.OnePrioClashFree` | network/src/prios.rs:226-256 | streams of a single priority never clash |
| `EndToEnd.OnePrioDelivers` | network/src/prios.rs:217-266 | then as many turns as there are fragments deliver everything |
| `Clashes.ClashExample` | network/src/participant.rs:382-403 | for any two streams of different priorities, a first message of two fragments and a first message of the other stream end in a loss |
| `Clashes.MixedMessage` | network/src/participant.rs:382-414 | if both are of the same length and of two fragments, the second stream is handed the beginning of its own message and the end of the other one |
| `Clashes.FirstMessagesLost` | network/src/api.rs:663-790 | a participant does this with the first two streams it opens: everything accepted is sent, and a message is lost |
| `Clashes.FirstMessagesMixed` | network/src/api.rs:663-790 | and in three turns a message arrives that nobody sent |
| `OverTheWire.ThroughTheWire` | network/src/protocols.rs:117-310 | the frames of any run survive encoding, cutting the byte stream, and decoding, and with the streams its own side opened they bring the receiver to the same state |
| `Participant.SendSide.Open` | network/src/participant.rs:526-560 | opening a stream hands out the next id and sends `OpenStream`; the run so far stays a legal run of the system |
| `Participant.SendSide.OpenedByPeer` | network/src/participant.rs:333-352 | messages can be sent back on a stream that the other side opened; if the user cannot be told of it, it is dropped, which asks for it to be closed |
| `Closing.NextIsNew` | network/src/participant.rs:520-558 | in every reachable state the next id is in use only if the other side has used it |
| `StreamLife.OpenedInOrder` | network/src/participant.rs:526-560 | in every run the streams this side tells the other one of are those asked for, in order, with their priority and promises and consecutive ids from the offset on |
| `Participant.SendSide.Send` | network/src/api.rs:778-790 | accepts the message under the next message id, counts it and posts it, or reports that the stream is closed |
| `StreamLife.MessagesNumbered` | network/src/api.rs:663-790 | in every reachable state the messages accepted on a stream are numbered 0, 1, 2 and so on, and its counter is their number |
| `StreamLife.ShutExactly` | network/src/api.rs:778-782 | in every reachable state the streams that accept nothing are exactly those whose close was begun and those that were open when `close_api` was called |
| `Participant.SendSide.Drop` | network/src/api.rs:943-963 | dropping a stream asks for it to be closed, unless it already is; afterwards it is shut or waits to be closed |
| `StreamLife.DroppedIsShut` | network/src/api.rs:943-963 | in every reachable state a dropped stream is shut or waits to be closed |
| `StreamLife.DroppedGetsClosed` | network/src/participant.rs:645-697 | in every run without `close_api` the streams dropped are exactly those closed, being closed and waiting to be closed |
| `StreamLife.ClosedInOrder` | network/src/participant.rs:645-697 | in every run the streams closed, being closed and waiting are those asked to be closed, in the order of the requests |
| `StreamLife.NeverClosed` | network/src/participant.rs:736-752 | a stream that `close_api` shuts before it was asked to be closed is never closed, though its owner drops it later |
| `Participant.SendSide.StartClosing` | network/src/participant.rs:665-680 | stops the API and asks for a flush |
| `Participant.SendSide.EndClosing` | network/src/participant.rs:681-697 | sends `CloseStream` once the flush has fired; nothing of the stream is queued or posted then, and the stream is closed |
| `Participant.SendSide.CloseApi` | network/src/participant.rs:736-752 | with or without an error every stream that is open is shut, and after an error none is opened; what was posted is still sent |
| `Participant.SendSide.Round` | network/src/participant.rs:210-227 | one round of `send_mgr` hands the frames of a fill to the channel, and is a legal stretch of the run; it forgets the points exactly if it has turns to spare |
| `Participant.FrameHandler.HandleFrame` | network/src/participant.rs:333-440 | one turn of `handle_frames_mgr`: reassembly table, streams, deliveries and the flags the API sees; after `Shutdown` no stream takes messages |
| `Participant.FrameHandler.HandleFrames` | network/src/participant.rs:307-441 | the manager does to its state what the receiver of the theorems does; it reports the streams opened up to the first `Shutdown`, and that disconnects it |
| `Participant.FrameHandler.CloseApi` | network/src/participant.rs:736-752 | closes every stream for sending and forgets it |
| `Participant.FrameHandler.StopReceiving` | network/src/participant.rs:665-672 | before its wait a local close sets `send_closed` and stops the stream from receiving, but keeps it and leaves the others alone |
| `Participant.FrameHandler.Forget` | network/src/participant.rs:689-690 | after the wait the stream is forgotten |
| `Closing.FillRuns` | network/src/participant.rs:210-227 | a round of `send_mgr` is a legal run of the system of sender, wire and receiver |
| `Closing.DoKeeps` | network/src/participant.rs:526-752 | every step of the managers keeps: messages on their way are unsent and of open streams, a flush is waited for or done with nothing of its stream left, closed streams stay closed |
| `Closing.NetRunLegal` | network/src/participant.rs:526-697 | a run of the managers is a legal run of the system, so the delivery theorems apply to it |
| `Closing.GuardsSuffice` | network/src/participant.rs:651-697 | in every reachable state whatever the channels allow is a legal step, which does to the fields what the managers do |
| `Closing.ReadyToFinish` | network/src/participant.rs:681-697 | in every reachable state in which `CloseStream` is about to be sent, nothing of the stream is queued or posted |
| `Closing.GracefulClose` | network/src/participant.rs:651-697 | in a clash-free run, once `CloseStream` is out, the peer's stream has received exactly the non-empty messages accepted on it |
| `FrameOrder.FramesInOrder` | network/src/prios.rs:226-256 | at every moment of any run the frames of a stream are the one that opens it, if this side did, and the first fragments of its messages in order; those to come are the rest |
| `FrameOrder.CloseComesLast` | network/src/participant.rs:651-697 | in any run, clashes or not, the frames of a closed stream are the one that opens it, if this side did, all fragments of all messages accepted on it in order, and `CloseStream` |
| `Closing.CloseCompletes` | network/src/participant.rs:674-697 | one fill with enough turns fires the flush that the close waits for |
| `Closing.ExitMeansDrained` | network/src/participant.rs:210-240 | when `send_mgr` leaves its loop nothing is queued or on its way if and only if the turns of its last call were enough for all the fragments that were there and no message was accepted after that call |
| `Closing.MuteRun` | network/src/participant.rs:736-752 | in every run that follows a call of `close_api`, for an error or not, no message is accepted until this side opens another stream |
| `Closing.FailedMuteRun` | network/src/participant.rs:736-752 | in every run that follows a call for an error no message is accepted at all |
| `Closing.FailedExit` | network/src/participant.rs:210-240 | if the participant was closed for an error before the last call, its turns alone decide |
| `Closing.LateMessage` | network/src/participant.rs:526-560 | otherwise a stream opened after `close_api` can leave a message behind, though the last call emitted nothing and had turns enough |
| `Closing.SilentExit` | network/src/participant.rs:231-240 | that last call emitted nothing: it was enough if and only if just empty messages were there, at most as many as turns |
| `Channel.FrameHandler` | network/src/channel.rs:161-296 | sends and decides what the steps of the protocol do, for any two received frames or a closed connection |
| `Channel.Terminates` | network/src/channel.rs:161-296 | no run of two peers has more than six steps |
| `Channel.MatchMove` | network/src/channel.rs:161-296 | between matching peers, what is on the links is what was sent and not yet taken |
| `Channel.Outcomes` | network/src/channel.rs:161-296 | the outcome of every maximal run, for any two peers: connected, failed on both sides, or both waiting |
| `Channel.ConnectedExactly` | network/src/channel.rs:161-296 | both know each other and have different offsets if and only if the builds match and just one side starts |
| `Channel.AllSent` | network/src/channel.rs:161-355 | all that either side sends in any maximal run: handshake, pid and secret if the builds match; else the handshake if it starts, and a complaint about the magic number or the version if the other one starts and this is a debug build |
| `StreamIds.IdsNeverCollide` | network/src/participant.rs:520-558 | after the handshake the ids that the two sides hand out are disjoint exactly as long as the first side has not used up its half, or the second has opened nothing |
| `Spiral.PosAtIndex` | common/src/spiral.rs:25-38 | the closed form walks each ring in order |
| `Spiral.IndexInjective` | common/src/spiral.rs:25-43 | no point comes twice |
| `Spiral.RingByRing` | common/src/spiral.rs:25-30 | a ring is finished before the next one starts |
| `Spiral.SquarePrefix` | common/src/spiral.rs:25-43 | the first (2r+1)^2 items are exactly the points of the square of radius r |
| `Spiral.DiscInPrefix` | common/src/spiral.rs:15-18 | the disc lies within the items that are taken, whatever the sign of the radius |
| `Spiral.Spiral2d.Next` | common/src/spiral.rs:25-43 | the n-th item is the point of index n |
| `Spiral.Spiral2d.Radius` | common/src/spiral.rs:15-18 | from any point of the iteration, the points of the disc among the next (2r+1)^2, each once |
| `Spiral.Disc` | common/src/spiral.rs:15-18 | exactly the points with x^2 + y^2 < (r+1)^2, each once |
| `Regions.StaysNear` | common/src/region.rs:149-154 | an entity left in its region is in the region of its position or next to it, if and only if the subtraction does not overflow |
| `Regions.StaysExactly` | common/src/region.rs:149-158 | who is left in a region, in blocks: those in its square of 512 blocks, and those at most 16 blocks away from its corner in both directions |
| `Regions.OverflowExample` | common/src/region.rs:151-154 | across the whole width of the world the distance wraps around and the entity stays far away |
| `Regions.TetherFromCorner` | common/src/region.rs:51-54 | who is kept is within the tether of the border, and exactly who of those is switched all the same |
| `Regions.TetherExample` | common/src/region.rs:51-54 | an entity one block outside the border, far within the tether, is switched all the same |
| `Regions.ClearLogs` | common/src/region.rs:109-116 | cleared logs are the difference between a state and itself |
| `Regions.EnterLogged` | common/src/region.rs:205-218 | adding a new entity keeps the logs exact |
| `Regions.LeaveLogged` | common/src/region.rs:187-194 | removing an entity keeps the logs exact |
| `Regions.TransferLogged` | common/src/region.rs:181-186 | moving an entity keeps the logs exact; a region created by the move logs no origin |
| `Regions.TransferLocated` | common/src/region.rs:181-186 | a move keeps every entity in exactly one region |
| `Regions.DropLogged` | common/src/region.rs:195-201 | dropping a region without entities and events loses nothing |
| `Regions.EventsReplay` | common/src/region.rs:36-44 | replaying a region's log turns its entities before the tick into those after it |
| `Regions.MovePaired` | common/src/region.rs:181-218 | each departure to another region has exactly one entry there, with the origin unless the region was created for it |
| `RegionIndex.LinksSymmetric` | common/src/region.rs:283-292 | an entry holds the index of the neighbour in that direction, and links go both ways |
| `RegionIndex.PatchRound` | common/src/region.rs:284-292 | one round of the loops over the directions rewrites exactly the entries that lead to the key |
| `RegionIndex.RemovedLinkedBut` | common/src/region.rs:314-334 | after the swap-removal all entries are right except those for the removed region |
| `RegionMaps.RegionMap.constructor` | common/src/region.rs:93-102 | starts empty and consistent |
| `RegionMaps.RegionMap.Insert` | common/src/region.rs:277-300 | adds an empty region at the end, with all neighbour entries right |
| `RegionMaps.RegionMap.Relink` | common/src/region.rs:339-348 | gives the named neighbours a new entry for the way back |
| `RegionMaps.RegionMap.RemoveIndex` | common/src/region.rs:311-350 | removes the region at an index and puts the last one in its place, with all neighbour entries right, also if the two are neighbours |
| `RegionMaps.RegionMap.Remove` | common/src/region.rs:303-307 | removes a region by key if it exists |
| `RegionMaps.RegionMap.AddEntity` | common/src/region.rs:205-218 | enters an entity in the region of its position, which is created if need be |
| `RegionMaps.RegionMap.Leave` | common/src/region.rs:41-44 | takes an entity out of the region at an index and logs it |
| `RegionMaps.RegionMap.ClearEvents` | common/src/region.rs:109-116 | clears every log and nothing else |
| `RegionMaps.RegionMap.AddNew` | common/src/region.rs:118-127 | adds the untracked entities |
| `RegionMaps.RegionMap.ScanRegion` | common/src/region.rs:132-168 | lists, for one region, exactly the entities to move and to remove |
| `RegionMaps.RegionMap.Collect` | common/src/region.rs:131-176 | lists each such entity of the map once, with a valid index, and the regions that are empty |
| `RegionMaps.RegionMap.MoveListed` | common/src/region.rs:181-186 | moves exactly the listed entities while regions are appended |
| `RegionMaps.RegionMap.RemoveListed` | common/src/region.rs:187-194 | removes exactly the listed entities |
| `RegionMaps.RegionMap.Prune` | common/src/region.rs:195-202 | afterwards no region is without both entities and events, and nothing is lost |
| `RegionMaps.RegionMap.Tick` | common/src/region.rs:106-203 | the entities tracked are those with a position that live or were tracked, each in one region, the one the tether rule says, with logs that are the exact difference; no region is left without entities and events; no lookup by index or key fails |
| `RegionMaps.RegionMap.FindRegion` | common/src/region.rs:226-265 | finds the entity's region for any query position, and scans all regions only if it is in none of the nine around it |
| `RegionTick.NextPlacesNear` | common/src/region.rs:149-158 | after a tick every entity is in one of these nine regions exactly if the distance to the region it was left in does not overflow, so no scan is needed |
| `RegionTick.NextPlacesExactly` | common/src/region.rs:118-168 | who is tracked after a tick, and where: in the region whose square of 512 blocks they are in, or still in their former one, which they leave exactly if they are outside its square and more than 16 blocks away from its corner |
| `RegionTick.TickTwice` | common/src/region.rs:106-203 | a second tick with the same positions moves nobody |
| `RegionTick.PhasesCompose` | common/src/region.rs:118-194 | adding, moving and removing as listed amounts to the places after the tick |
| `RegionTick.MovedAt` | common/src/region.rs:181-186 | working through the list from its end moves exactly the listed entities |
| `RegionTick.ListOne` | common/src/region.rs:139-167 | the decision about one entity keeps the lists exact |
| `RegionTick.AscendingWalk` | common/src/region.rs:132-138 | a bit set is walked through in ascending order, every member once |
| `Astars.PollsCompose` | common/src/astar.rs:111-176 | polling a and then b iterations is polling a + b: same state, same outcome |
| `Astars.PollCounts` | common/src/astar.rs:122-176 | a call that is to be continued has done all its iterations, an exhausted one the last one of the search, any other one fewer |
| `Astars.ListHeapIsLawful` | common/src/astar.rs:22-28 | the laws that the search asks of its heap can be met |
| `SearchTrees.RelaxTree` | common/src/astar.rs:128-153 | one neighbour keeps `came_from` a tree with the start as its root, for a non-negative cost |
| `SearchTrees.TraceIsWalk` | common/src/astar.rs:181-189 | the path to any visited node leads from the start along neighbours |
| `SearchTrees.TraceExists` | common/src/astar.rs:181-189 | following `came_from` from any node comes to an end |
| `SearchTrees.TraceUnique` | common/src/astar.rs:181-189 | and the path is determined by its end |
| `SearchTrees.TraceCost` | common/src/astar.rs:133-136 | the score of a node is an upper bound for the length of the path to it |
| `SearchTrees.RelaxNearest` | common/src/astar.rs:141-144 | `cheapest_node` has the visited node of the lowest heuristic cost as a neighbour |
| `SearchTrees.NegativeCycle` | common/src/astar.rs:111-189 | with a negative cost two iterations of `poll` bring a search into a state in which two nodes come from each other, and then no path can be reconstructed |
| `SearchCycles.PathsEnd` | common/src/astar.rs:111-189 | with fixed closures and no cycle of negative total cost, following `came_from` from any visited node ends at the start after any number of iterations, within the score |
| `SearchCycles.NotUnder` | common/src/astar.rs:128-136 | then a node is never made cheaper from one of those that came from it, nor the start from any |
| `SearchCycles.RelaxExactly` | common/src/astar.rs:128-136 | making a node cheaper by way of another one keeps `came_from` a tree if and only if that one did not come from it |
| `SearchCycles.NonNegativeSuffices` | common/src/astar.rs:133-136 | costs that are not negative are such a case |
| `SearchCompleteness.RelaxQueue` | common/src/astar.rs:146-151 | a node is queued when it is first visited and never again |
| `SearchCompleteness.TurnExplored` | common/src/astar.rs:122-154 | every visited node is queued, or expanded with all its neighbours visited |
| `SearchCompleteness.RunExplored` | common/src/astar.rs:122-176 | this holds until a goal is found, in any number of iterations and whatever the goals are; no goal is expanded, and only what was not expanded before is found |
| `SearchCompleteness.RunTree` | common/src/astar.rs:122-176 | whole runs keep the tree, and what is found is visited and a goal |
| `SearchCompleteness.NoneIsUnreachable` | common/src/astar.rs:155-162 | `None` means, whatever goals the search had before, that a goal can be reached if and only if it had been expanded before the call |
| `SearchCompleteness.FoundIsNew` | common/src/astar.rs:124-127 | a node that was expanded is never found any more |
| `SearchCompleteness.NeverExhausted` | common/src/astar.rs:167-173 | no node is expanded twice: more iterations than reachable nodes are never used up |
| `SearchCompleteness.FoundIsReachable` | common/src/astar.rs:125-126 | what is found is a goal, can be reached, and had not been expanded before |
| `SearchCompleteness.SearchDecides` | common/src/astar.rs:111-176 | on a finite graph with iterations enough a goal is found if and only if one can be reached |
| `SearchCompleteness.ResumedDecides` | common/src/astar.rs:111-176 | a resumed search of a finite graph with iterations enough finds a goal if and only if one can be reached that it had not expanded before |
| `SearchCompleteness.RunCosts` | common/src/astar.rs:133-136 | with fixed costs every score covers the predecessor's score and the edge, after any run |
| `SearchCompleteness.RunNearest` | common/src/astar.rs:141-144 | the closest node is tracked over whole runs |
| `SearchCompleteness.RunKeepsFirst` | common/src/astar.rs:141-144 | over whole runs the node next to what came closest is given up only for something that came closer still |
| `SearchCompleteness.RunRanks` | common/src/astar.rs:137-151 | final scores are the way so far plus the heuristic, and no node is queued below its current estimate |
| `SearchCompleteness.TakesLeast` | common/src/astar.rs:22-28 | the entry taken is one of the least cost in the queue, and not below the current estimate of its node |
| `AstarSearches.Astar.constructor` | common/src/astar.rs:81-109 | a new search satisfies all invariants |
| `AstarSearches.Astar.Reach` | common/src/astar.rs:135-151 | the updates for a cheaper neighbour, field by field |
| `AstarSearches.Astar.ExpandNode` | common/src/astar.rs:128-153 | the loop over the neighbours |
| `AstarSearches.Astar.ReconstructPathTo` | common/src/astar.rs:181-189 | terminates with the path from the root of the tree to the node |
| `AstarSearches.Astar.Iterate` | common/src/astar.rs:124-164 | one iteration ends the search or goes on with the same outcome to come |
| `AstarSearches.Astar.Poll` | common/src/astar.rs:111-176 | new state and result are those of the specification, the path belongs to the result, and the invariants are kept, the one about the expanded nodes until a goal is found, also if the goal changes between polls |
| `AstarSearches.ReturnedPath` | common/src/astar.rs:111-189 | every path returned is empty, or leads from the start along neighbours within its score, to the goal found or next to the node that came closest |
| `PathFinding.GroundIsClosest` | common/src/path.rs:459-469 | the place found is the closest one to stand on, upwards first, and none is found only if there is none in reach |
| `PathFinding.GetWalkableZ` | common/src/path.rs:459-469 | the loop over the heights finds that place |
| `PathFinding.StepsExactly` | common/src/path.rs:480-545 | one can step from one place to another if and only if both have a floor, they are one block apart sideways and at most two in height, two blocks are free at both ends and, before a climb, all that is passed on the way up, for a drop a third block at the new place |
| `PathFinding.NeverStraightDown` | common/src/path.rs:503 | the direction straight down is never taken |
| `PathFinding.WalkIsWalkable` | common/src/path.rs:524-545 | along neighbours every node can be stood on and every step can be walked in that sense |
| `PathFinding.ClimbCosts` | common/src/path.rs:556-566 | for the same distance from the line a climb of two blocks costs exactly 10 more than any other step, and the others cost the same |
| `PathFinding.StrayCosts` | common/src/path.rs:556-566 | any other step costs 1 and 1/40 for each block of distance |
| `PathFinding.Transition` | common/src/path.rs:556-566 | every step costs at least 1, which is what the search needs |
| `PathFinding.HeuristicIs` | common/src/path.rs:476 | the heuristic is the straight distance to the target in all three directions |
| `PathFinding.CallDecides` | common/src/path.rs:569-574 | what any call means, of a new or a resumed search and for any targets so far: it gives up on a target that can be reached exactly if the search had expanded that before, it finds no target that it had expanded, and it runs out of iterations only if all 25000 may be used up |
| `PathFinding.CallCounts` | common/src/path.rs:569-574 | a call does 100 iterations unless it ends the search, and a search 25000 in all its calls |
| `PathFinding.FindPath` | common/src/path.rs:449-592 | every path can be walked from where its search was begun, also if it was resumed with another target; a complete one ends at the target; an incomplete one is returned although the target can be reached exactly if the search had expanded it before the call, or has used up its iterations; the search is kept exactly if no path is returned |
| `MovedTarget.MovedTargetMissed` | common/src/path.rs:388-592 | in a corridor of 150 blocks, a target that moves to where the search began is missed by the second call, though it can be reached |
| `PathFinding.PollFor` | common/src/path.rs:574-592 | the result of a poll is turned into a path and whether it is complete, with the same meaning |

## Left out

- The asynchronous runtime, sockets, timers, locks, metrics and logging: a channel is a first-in first-out sequence, and the work of a manager between two suspension points is one step.
- bincode and lz4 (`network/src/message.rs`): a message is an opaque sequence of bytes.
- `network/src/scheduler.rs`: connecting, listening and takeover of channels.
- Several channels per participant: frames go to one channel that is up.
- The two directions of a connection at once: the system of sender, wire and receiver follows the messages of one side, on the streams that either side opened; those of the other side are another such system.
- A close from remote while the same stream is being closed locally, which the source marks as a race.
- The overflow of the 32-bit points of the scheduler under load that never ends: points are natural numbers.
- The oneshot senders of flush requests are numbers that are handed out once each.
- Lost and reordered datagrams, and the size of the receive buffer: the UDP model is about the bytes of single datagrams.
- The 32-bit overflow of the spiral's counters and of heights tried around a position.
- Rounding of `f32`: costs are real numbers, and a score that is absent stands for `f32::MAX`.
- The order of the entries within a region's log, and the order in which regions are created in a tick: the logs are described by how often each entry occurs.
- That A* finds shortest paths: it does not, as a node is never queued again when a cheaper way to it appears.
- `specs` storages: positions are a map from ids to positions after the cast to `i32`, and `alive` is the set of living entities.
- `region_in_vd` and `regions_in_vd`, `Route`, `Chaser` and `Ray`: float geometry and randomness.
- `common/src/hierarchical.rs`, which is not part of the crate.
- Outgoing messages and regions are values that are replaced, not objects that are shared.
- Priorities of 64 and more, which the type of a priority excludes: `Participant::open` does not check them, and the access to the queue panics.
- Participant.SendSide.Open: assumes a channel that takes the frame, as with none the source drops the new stream, and that the other side has not used the same id, which `StreamIds.IdsNeverCollide` is about.
- Participant.SendSide.OpenedByPeer: assumes an id that is not in use; the source would replace the entry.
- Participant.SendSide.Send: assumes that the stream has sent fewer than 2^64 - 1 messages.
- Participant.SendSide.Round: filling and sending is one step; the source fires flushes while it fills, before the frames are sent.
- Participant.FrameHandler.HandleFrame: a frame that panics the participant is excluded by its precondition.
- Protocols.UdpFillBuffer: a frame that does not fit the 2000-byte buffer panics the source and is excluded by its precondition.
- RegionMaps.RegionMap.Insert: inserting an existing region panics the source and is excluded; the tick is proved never to do it.
- RegionMaps.RegionMap.RemoveIndex: removing a region with entities panics the source and is excluded; the tick is proved never to do it.
- Astars.PollsCompose: is about closures that do not change between the polls; with changing ones only the tree is kept.
- AstarSearches.Astar.Poll: non-negative costs are a precondition, because the closures may change between polls; for closures that do not, `SearchCycles.PathsEnd` needs less.
- PathFinding.FindPath: the world does not change while one search goes on.
- PathFinding.Transition: the distance to the straight line and the square root are parameters.
