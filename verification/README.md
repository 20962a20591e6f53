# Lingo, verified

A Dafny model of Lingo, a game-server cluster in Go made of a center, gates and worker clusters, and proofs of
what its parts promise. Each operation that the source runs on mutable state is a method on a class, proved
against a specification on values; the properties of all inputs, runs and interleavings are lemmas about those
specifications.

- **Frames and streams** (`Wire`, `Buffers`, `Streams`, `Links`, `Packages`, `Relays`). `Wire` says what the frames
  in a sequence of bytes are. The `Buffer` class decodes in place, with the source's int16 sizes, its stale size
  after a one-byte tail and its partial frames. The receiving loops are specified on sequences of chunks and proved
  on the buffer; the relay is followed from end to end.
- **Packer** (`Packers`, `PackerIO`). Reflected values are a datatype of types and values; `PackerIO` writes to and
  reads from mutable buffers as the source does.
- **Timers** (`TimerQueues`, `Timeouts`, `FiringTimes`, `RepeatingTimers`, `BaseTimers`). What the callback of a timeout
  pushes is an arbitrary function of the entry called. Timeouts carry the number of their push, which stands for
  their callback, and the timer a ghost history of pushes and calls.
- **Sessions** (`Protocol`, `GateModel`, `SessionSystem`, `SessionSafety`, `GateTables`, `ManyGates`, `SessionWire`,
  `SharedClusters`, `EndToEnd`, `Downstream`, `ReplyStreams`, `Gates`). A gate, its connections and the clusters behind
  them are a state machine over events in any order. A connection is a FIFO that its loss discards; a new connection is
  a new identity. `ManyGates` lifts the machine to several gates before the same clusters. `SessionWire` connects its
  messages with the bytes on a connection, and `SharedClusters` those of several gates with one table; `EndToEnd`
  follows a client's bytes through all of it, and `Downstream` and `ReplyStreams` follow the replies.
- **Center** (`CenterModel`, `CenterSafety`, `CenterRuns`, `Centers`). The parts of registrations and of S_Register
  interleave freely, except those that one lock or one connection keeps apart.

## Findings

Where code and intention part, the model follows the code and the lemmas say exactly where.

- `PopServerData` and `PopTranData` compute `size + 8` in int16, `PopClientData` `size + 4`, and `PackData` `8 + sz`.
  The limits are 32759, 32763 and 32759 bytes, not 32767 (`PackDataIsExact`, `GroupRefinesOneByOne`,
  `TranGroupAgrees`). A relayed body holds at most 32757 bytes (`RelayLimitIsExact`).
- The draining loops give up on a frame that is cut by a chunk (`DrainingNeedsAlignment`); the batching loops give up
  when a pop finds fewer than 8 bytes (`ChunkingIsTransparent`).
- The id of a relayed packet is computed in 8 bits (`TranGroupAgrees`, `PackageFields`).
- `ParserPackage` does not undo `PackPackage` (`ParserPackageIsNoInverse`).
- A callback that pushes a negative delay can displace an expired timeout (`NegativeDelayOvertakes`), which then misses
  its tick (`CalledOnTheDueTick`).
- A timer with repeat 0 never ends, and one below -1 fires once (`FiresWithoutDrift`).
- A bool is packed as true whatever its value (`MessageRoundTrip`).
- A string that is cut off is read as zeros, as many as it should have had bytes (`OddSizes`, `AnyLink`).
- A connection that was refused for its id takes the one that has it out of the group (`DuplicateTakesTheOther`,
  `DisconnectIsExact`).
- Clients can send data of 0, 1 or 32760 to 32763 bytes, which the gate accepts and no cluster understands
  (`MessageIsExact`): the short ends the cluster's loop, the long panics in the gate (`UnfitDataEndsTheLoop`).
  An empty message is not a heartbeat but takes the next one's size for its id (`EmptyMessageIsRelayed`).
- A client that pops a group of replies when its buffer holds a single byte panics (`ChunkedReplies`).
- A closed client stays in the gate's table for good if it ever sent its first package (`ClosedStayIfVerified`).
- Servers of types up to 2 are not announced to gates that registered before them (`LowTypesAreNotAnnounced`).
- A link that claimed a taken id, or whose id has been given out again, can take others out of the center's table
  (`EnterDisplaces`, `LeaveIsExact`).

## Model

| member | source | states |
|---|---|---|
| Wire.CutIsExact | utils/buffer.go:110-147 | For arbitrary bytes: the frames a group decoder cuts off, encoded again, are exactly the bytes it consumed, and every one of them has an accepted size |
| Wire.CutJoins | utils/buffer.go:110-147 | For arbitrary bytes: encodings of the frames cut off, followed by what is left, are the bytes there were |
| Wire.CutIsUnique | utils/buffer.go:110-147 | Any well-sized frames followed by anything that does not begin with a whole frame are cut into exactly those frames and that rest |
| Wire.EncodedIsWhole | utils/data.go:8-17 | An encoded frame is recognised, read back as itself, and ends where its encoding ends, whatever follows |
| Wire.Shift | utils/buffer.go:119-143 | What is decoded from a position on does not depend on the bytes before it |
| Wire.PrefixCut | utils/buffer.go:110-147 | Of any prefix of a stream of frames exactly the frames completed in it are decoded, and what stays, with the future bytes, is the stream of the others |
| Buffers.NextServerPacket | utils/buffer.go:120-142 | One round of the loop decodes the frame at the reader if a whole one with an accepted size is there; otherwise it stops, and whether with an error depends on the size read, or on the previous one after a one-byte tail |
| Buffers.NextTranPacket | utils/buffer.go:217-236 | The same for the relaying decoder, which ends in a panic where the other returns an error |
| Buffers.NextClientPacket | utils/buffer.go:184-200 | The same for the replies a client decodes |
| Buffers.ScanServerGroup | utils/buffer.go:117-146 | On arbitrary bytes: terminates without an index out of range; the packets are the views of the whole frames at the front, and the position is that of the first byte after them |
| Buffers.ScanTranGroup | utils/buffer.go:213-239 | The same for the relaying decoder, with its 8-bit message id |
| Buffers.ScanClientGroup | utils/buffer.go:180-202 | The same for the replies, which need no 8 bytes to start with |
| Buffers.Buffer.constructor | utils/buffer.go:23-28 | A new buffer holds nothing |
| Buffers.Buffer.Clear | utils/buffer.go:30-32 | The buffer holds nothing |
| Buffers.Buffer.Take | utils/buffer.go:43-48 | `Buffer()`: returns exactly the bytes held, which are then gone |
| Buffers.Buffer.PushData | utils/buffer.go:54-63 | The content grows by exactly the pushed bytes, however often the array has to grow |
| Buffers.Buffer.Compact | utils/buffer.go:126-127 | Moving the tail to the front in place drops exactly the first `n` bytes |
| Buffers.Buffer.PopClientData | utils/buffer.go:68-95 | Server, id and payload of the first frame, which leaves the buffer; too short, incomplete and panicking input told apart exactly, with the int16 limit 32763, and then nothing changes |
| Buffers.Buffer.PopServerData | utils/buffer.go:149-177 | The packet of the first frame, which leaves the buffer; the failures told apart exactly, with the int16 limit 32759, and then nothing changes |
| Buffers.Buffer.PopTranData | utils/buffer.go:242-270 | The same, with the message id kept in the payload |
| Buffers.Buffer.PopServerGroup | utils/buffer.go:110-147 | Total on arbitrary bytes: either it fails and the content is unchanged, or it returns the packets of all whole frames at the front and keeps exactly what follows them |
| Buffers.Buffer.PopTranGroup | utils/buffer.go:205-240 | The same for relayed packets; a bad size panics |
| Buffers.Buffer.PopClientGroup | utils/buffer.go:179-203 | The same for replies, from any number of bytes |
| Streams.ProcessConserves | utils/clientlink.go:49-66 | Whatever bytes arrive and however pops are scheduled, a batching loop that still runs has lost and invented none: the frames delivered, encoded, and the bytes left are the bytes that arrived |
| Streams.ChunkingIsTransparent | utils/clientlink.go:49-66 | For every stream of frames, every split into chunks and every schedule of pops: the loop survives if and only if each pop finds 8 bytes; frames come in order; after a last pop they are exactly those completed, and the buffer holds exactly the bytes after them |
| Streams.ProcessByLengths | gate/tran_conn.go:123-143 | On a stream of frames, survival of the batching loop and the frames it delivers depend on the lengths of frames and chunks alone |
| Streams.LastPopDelivers | gate/tran_conn.go:128-142 | A schedule that feeds every pop and ends with one delivers all frames completed by then, none of them lost to earlier pops |
| Streams.ReceiveConserves | utils/serverlink.go:115-127 | Whatever bytes arrive, a draining loop that still runs has lost and invented none |
| Streams.DrainingNeedsAlignment | utils/serverlink.go:115-127 | A draining loop survives if and only if every chunk ends between two frames; then it delivers everything, and otherwise a first part |
| Streams.GroupRefinesOneByOne | utils/buffer.go:110-177 | On all bytes the group decoder accepts: repeating the one-frame decoder gives the same frames and residue if and only if no frame is larger than 32759 bytes |
| Streams.TranGroupAgrees | utils/buffer.go:205-270 | On all bytes the relaying group decoder accepts: repeating `PopTranData` never panics, finds the same sessions, options and payloads, the same ids exactly where the payload begins with 0, and leaves the same rest, if and only if no frame is larger than 32759 bytes |
| Links.DropTranCut | utils/buffer.go:242-270 | What that statement calls repeated popping is just that: the packet `PopTranData` returns, then those of the bytes it leaves, until it fails |
| Streams.CutHeaderIsKept | utils/buffer.go:119-129 | A tail of 1 to 7 bytes after whole frames yields no packet and is kept, also the single byte that is judged by the size of the frame before it |
| Streams.GroupFailsExactly | utils/buffer.go:110-147 | On all bytes, whole frames and a rest that begins with none: the decoder fails exactly on less than 8 bytes, or when the rest neither is nothing nor looks cut, which its size alone decides, also a bad one |
| Streams.FailingPopDeliversNothing | utils/clientlink.go:53-57 | A pop that fails delivers nothing, not even the whole frames in front of where it fails |
| Streams.DrainingDelivers | utils/serverlink.go:115-127 | A draining loop delivers exactly the frames completed up to the chunk at which it ends |
| Streams.MisalignedLoses | utils/serverlink.go:115-127 | A chunk that ends within a frame costs it a frame |
| Links.ClientLink.Round | utils/clientlink.go:49-66 | One chunk taken from the channel: the packets of the frames it completes are passed to the sink and counted |
| Links.ClientLink.Processing | utils/clientlink.go:49-66 | The loop calls its sink with exactly what the run on byte sequences delivers, counts it, and leaves exactly what that run leaves |
| Links.TranLink.Round | gate/tran_conn.go:128-142 | The same for one chunk at the gate |
| Links.TranLink.Processing | gate/tran_conn.go:123-143 | The same for the loop at the gate |
| Links.DropFrame | utils/buffer.go:172-175 | Dropping the first frame leaves the other frames and the same rest |
| Links.ServerReceiver.DrainOne | utils/serverlink.go:118-125 | One pop of the inner loop, which shrinks the buffer or fails and changes nothing |
| Links.ServerReceiver.Drain | utils/serverlink.go:117-126 | The inner loop ends, and has passed on all whole frames, also when a last one fails |
| Links.ServerReceiver.Reading | utils/serverlink.go:84-129 | Over all chunks read, the loop calls its sink with exactly what the run on byte sequences delivers |
| Links.ClientReceiver.Drain | gate/ws.go:177-187 | The inner loop ends, and has passed on all whole client messages |
| Links.ClientReceiver.Round | gate/ws.go:152-188 | Text is skipped; before the first package only one of 8 bytes counts, which admits or ends; after it a binary message is drained |
| Links.ClientReceiver.Reading | gate/ws.go:145-189 | Over all websocket messages the loop passes on exactly what the specified visit does, and ends when that does |
| Links.FirstPackageDecides | gate/ws.go:160-173 | Before a first message of 8 bytes all is skipped; with a signal of 0 it admits the client and the rest of its messages count, with any other its connection ends |
| Links.IdleIsNotHeard | gate/ws.go:160-173 | A client that never sends such a message is not heard |
| Packages.PackDataFrame | utils/data.go:8-17 | For every length: the encoder panics exactly when the capacity overflows int16, and otherwise writes the payload whole behind its header, also when the size does not fit |
| Packages.PackDataIsExact | utils/data.go:8-17 | For every length: the group decoder gives back just the frame that was packed if and only if the payload has 2 to 32759 bytes |
| Packages.PackClientDataFrame | utils/data.go:19-27 | The same for replies |
| Packages.PackClientDataIsExact | utils/data.go:19-27 | For every length: a client decodes just the reply that was packed if and only if it has 2 to 32761 bytes |
| Packages.PackClientFrame | message/pack_msg.go:25-33 | For every length: a client message is written whole behind a header whose size may have wrapped |
| Packages.PackClientIsExact | message/pack_msg.go:25-33 | For every length: the gate decodes just the message that was packed if and only if its body has at most 32761 bytes |
| Packages.ServerPackageView | message/pack_msg.go:18-23 | A package sent between servers is received with the same session, option, id and data |
| Packages.PackageFields | utils/data.go:37-43 | Id and data are found again in a packed message; the 8-bit id is right if and only if the id is below 256 |
| Packages.ShortIdOfPackage | utils/buffer.go:195-195 | For every id the group decoders' is 16 times its high byte plus its low byte, on 8 bits |
| Packages.PackedBytes | utils/data.go:8-17 | The bytes of a frame between servers: size, session and option, each most significant byte first, and the payload |
| Packages.PackedReplyBytes | utils/data.go:19-27 | The bytes of a reply: size, session, payload |
| Packages.PackedMessageBytes | message/pack_msg.go:25-33 | The bytes of a client's message: size, server type, id, data |
| Packages.OneFrameIsPopped | utils/buffer.go:68-270 | What popping a whole frame of any size comes to, whatever follows it: sizes from 2 to 32759, from 0 to 32759, and from 0 to 32763 are accepted, all others panic |
| Packages.NegativeSizePanics | utils/buffer.go:68-270 | A negative size makes all three decoders of one frame panic |
| Packages.ParserPackageSkips | message/pack_msg.go:8-16 | What `ParserPackage` makes of any package: the id, and the data without its first two bytes, or nothing of less than 4 bytes |
| Packages.ParserPackageIsNoInverse | message/pack_msg.go:8-16 | `ParserPackage` gives back what `PackPackage` packed if and only if the id is 0 and the data empty: it skips two bytes too many |
| Relays.GateReceives | gate/ws.go:174-188 | The gate's loop survives if and only if every websocket message ends between two of the messages its client sends; it always passes on a first part of them, and when all have come, all of them if and only if it survives |
| Relays.GateReceivesComplete | gate/ws.go:174-188 | The first part passed on is all that is complete up to the websocket message at which the loop ends |
| EndToEnd.DataIsWhatWasSent | gate/gate.go:194-222 | From before its first message to a server type until it closes or the connection is lost, and whatever all others do, the payloads a client sends to that type are exactly the data of its session on one connection, in order |
| EndToEnd.UpstreamIsTransparent | gate/gate.go:194-222 | From the websocket to the cluster, whatever bytes have come so far and in whatever chunks: the data the cluster has decoded for a session, on a connection that carries links, breaks and the frames of all clients, is a first part of what its client sent to that type, in order and byte for byte; and all of it when all has come, the websocket messages are aligned, and the last of the pops, each of 8 bytes or more, is done |
| EndToEnd.OneMessageArrives | gate/gate.go:194-222 | A run in which all this is so: a client is accepted and sends its first package, a connection comes up, and any message of up to 32757 bytes is written there behind the link and decoded by the cluster |
| Relays.RelayLimitIsExact | gate/gate.go:194-222 | A message of any length arrives at the cluster as it was sent if and only if its id is not 0, which the gate takes for a heartbeat, and its body has at most 32757 bytes |
| Relays.DownstreamIsTransparent | gate/gate.go:245-260 | However a cluster's bytes for all clients are cut and batched: the gate's loop survives if and only if each pop finds 8 bytes, and the replies to a session, of the packets completed, reach whoever is written them in order and byte for byte |
| Downstream.RepliesReachTheirClient | gate/gate.go:245-260 | In every run of fewer than 2^24 registrations, with packets from any connections in between its steps: a client is written exactly the packets for clients that carry an id it has been given, in order, from when it has that id until it closes |
| Downstream.IdsAreNotShared | gate/gate.go:62-66 | In every run no id is ever given to two clients, so that no other client gets them |
| Downstream.DownstreamIsTransparent | gate/gate.go:245-260 | From a cluster's bytes, in any chunks and pops, to the client: from its first package until it closes, what a client is written from one connection is exactly what the cluster has written there for the client's ids, in order and byte for byte, of all that has been handled |
| Downstream.RepliesAreRead | utils/buffer.go:179-203 | In whatever chunks the gate's bytes come to it, a client that pops groups of replies decodes exactly those written to it, in order; it survives if and only if no pop finds a single byte |
| ReplyStreams.ChunkedReplies | utils/buffer.go:179-203 | For every stream of replies and every schedule of chunks and pops of groups: the client survives if and only if no pop finds a single byte, and after a last pop it has exactly the replies completed, and the bytes after them in its buffer |
| ReplyStreams.RepliesConserve | utils/buffer.go:179-203 | Whatever bytes arrive, a client that still runs has lost and invented none |
| ReplyStreams.ReplyFailsExactly | utils/buffer.go:179-203 | On all bytes, whole replies and a rest that begins with none: the decoder panics exactly when the rest neither is nothing nor looks cut |
| Packers.RoundTrip | packer/packer.go:94-152 | A value of a plain type is given back, with exactly the bytes after it left, if it is faithful; otherwise another value comes back or the parser panics |
| Packers.ElemsRoundTrip | packer/packer.go:57-61 | The same for the elements of a slice |
| Packers.FieldsRoundTrip | packer/packer.go:42-46 | The same for the fields of a struct |
| Packers.MessageRoundTrip | packer/packer.go:84-92 | For every message of the portable types and every suffix: parsing gives the message back and leaves exactly the suffix if and only if all bools are true and all strings and slices shorter than 32768 |
| Packers.EncodingsArePrefixFree | packer/packer.go:50-82 | If encodings of two messages of one type, each with something after it, are equal, so are the messages and what follows them |
| Packers.InnerSliceIsLost | packer/packer.go:10-48 | A slice inside a value is not written: for every content and suffix it comes back, with the suffix left, if and only if it is empty and the suffix is, too |
| Packers.FloatsAndBytesAreLost | packer/packer.go:20-31 | An unsigned byte panics; a float of any width and content, with any suffix, does not come back with the suffix left |
| Packers.IntBytes | packer/packer.go:12-37 | Byte by byte, what an integer of any width and sign is packed as: two's complement, most significant byte first |
| Packers.FlatBytes | packer/packer.go:20-41 | What a bool, a float, a string and an inner slice are packed as |
| Packers.StructLayout | packer/packer.go:42-46 | The bytes of a struct with a number and a string |
| Packers.SliceLayout | packer/packer.go:56-61 | The bytes of a slice with two numbers |
| Packers.MissingIntBytes | packer/packer.go:100-131 | A number of which bytes are missing is read as 0, and takes those there are |
| Packers.AnyFlatByte | packer/packer.go:96-99 | Any byte but 0 is read as true, and 0 or none as false; a float is zero and takes none |
| Packers.OddSizes | packer/packer.go:132-145 | Without a size strings and slices are empty, a negative one panics, and a string that is cut off is zeros |
| PackerIO.PackTo | packer/packer.go:10-48 | Writing a value appends to the buffer exactly the bytes of the specification, or panics when that does |
| PackerIO.PackFieldsTo | packer/packer.go:42-46 | The loop over the fields of a struct writes their encodings in order |
| PackerIO.PackElemsTo | packer/packer.go:59-61 | The loop over the elements of a slice writes their encodings in order |
| PackerIO.PackMessageTo | packer/packer.go:50-82 | The loop over the fields of a message writes its encoding |
| PackerIO.PackFieldTo | packer/packer.go:56-64 | A slice is written with its length, here and only here |
| PackerIO.ParseFrom | packer/packer.go:94-152 | Reading takes from the reader exactly what the specification takes, and gives its value or panics with it |
| PackerIO.ParseFieldsFrom | packer/packer.go:146-150 | The same for the loop over the fields |
| PackerIO.ParseElemsFrom | packer/packer.go:142-144 | The same for the loop over the elements |
| TimerQueues.InsertSorts | timer/timer_queue.go:18-39 | A new entry keeps the queue sorted by delay, and by time of push on ties |
| TimerQueues.TimerQueue.FindLonger | timer/timer_queue.go:24-30 | The loop finds the place of the first item that waits longer |
| TimerQueues.TimerQueue.PlaceAt | timer/timer_queue.go:31-36 | Appending and shifting puts the item in at that place, all others in their order |
| TimerQueues.TimerQueue.Push | timer/timer_queue.go:18-39 | The queue becomes the old one with the entry inserted behind all that do not wait longer |
| TimerQueues.TimerQueue.Pop | timer/timer_queue.go:41-48 | The first item leaves the queue |
| Timeouts.TickCallsTheExpired | timer/timer.go:93-111 | One tick calls exactly the entries that had expired when they were counted, by remaining delay and then time of push, if and only if no callback pushes a timeout that overtakes the last of them |
| Timeouts.NonNegativeNeverOvertakes | timer/timer.go:104-110 | Callbacks that push no negative delay overtake nothing |
| Timeouts.NegativeDelayOvertakes | timer/timer.go:104-110 | A callback that pushes the delay -1 has it called in the same tick in place of an expired entry |
| Timeouts.CallsTheFrontExactly | timer/timer.go:104-110 | The calling loop calls the entries at the front of the queue, in order, if and only if nothing overtakes |
| Timeouts.ExpiredFirst | timer/timer.go:95-103 | The entries counted as expired are exactly the first ones of the queue |
| FiringTimes.CalledOnTheDueTick | timer/timer.go:55-111 | In a run with any delays, every timeout is called exactly once, on tick max(1, ceil(delay/precision)) after its push, and is in the queue exactly once until then, if and only if on no tick a callback pushes a timeout that overtakes the last entry expired on it |
| FiringTimes.NonNegativeIsOnTime | timer/timer.go:55-111 | So it is in every run whose callbacks push no negative delays |
| FiringTimes.OvertakenMissesItsTick | timer/timer.go:104-110 | Where something overtakes, a timeout due on that tick is not called on it |
| FiringTimes.RunIsSteady | timer/timer.go:68-118 | In every run, whatever is pushed: the queue is sorted, and every timeout pushed is either queued, once, or has been called, once, never both |
| FiringTimes.EveryTickCallsTheExpired | timer/timer.go:93-111 | Every tick of every run calls exactly the entries expired on it, in order, if and only if on that tick no callback pushes a timeout that overtakes the last of them |
| FiringTimes.RunIsGood | timer/timer.go:68-118 | As long as nothing overtakes: remaining delays are exact, nothing overdue waits, and all calls were on their due ticks |
| FiringTimes.DecrementedIsGood | timer/timer.go:95-103 | Counting leaves at the front exactly the entries due on this tick |
| FiringTimes.PopLoopIsGood | timer/timer.go:104-110 | The calling loop empties the front while callbacks push, and keeps all else |
| RepeatingTimers.FiresWithoutDrift | timer/timer.go:77-91 | After n ticks a timer has fired min(n, floor(n*precision/interval)) times, but no more often than it repeats; it is gone exactly from its last firing on; the current interval is measured exactly. Repeat 0 never ends, and below -1 fires once |
| RepeatingTimers.PassStaysInRange | timer/timer.go:77-91 | With intervals not shorter than ticks, every tick ends with 0 < pass <= interval |
| RepeatingTimers.AdvanceIsExact | timer/timer.go:78-90 | A timer fires on a tick exactly when one more whole interval has gone by |
| BaseTimers.BaseTimer.constructor | timer/timer.go:25-37 | A new timer has no timers and no timeouts |
| BaseTimers.BaseTimer.SetTimer | timer/timer.go:120-138 | A timer is entered with its whole interval ahead, into an empty table when ticking has to be started |
| BaseTimers.BaseTimer.KillTimer | timer/timer.go:43-49 | The timer leaves the table, and no other |
| BaseTimers.BaseTimer.TickTimer | timer/timer.go:78-90 | One round of the loop over the timers advances just that one, and takes it out when its last repeat fires |
| BaseTimers.BaseTimer.TickTimers | timer/timer.go:77-91 | Every timer advances exactly once, in whatever order, and those that fire are those whose interval is over |
| BaseTimers.BaseTimer.SetTimeOut | timer/timer.go:55-66 | The timeout is pushed as of now |
| BaseTimers.CountExpired | timer/timer.go:94-103 | All delays shrink by one tick, and the count is the number that have none left |
| BaseTimers.BaseTimer.StopTimer | timer/timer.go:51-53 | Ticking stops, so that the next timer or timeout starts from an empty table |
| BaseTimers.BaseTimer.CallExpired | timer/timer.go:104-110 | The calling loop, with the callbacks' own pushes in the middle of it, comes to the specified clock |
| BaseTimers.BaseTimer.Ticking | timer/timer.go:75-112 | One tick: every timer advances once, and the timeouts make one tick of the specified clock |
| Protocol.PhaseIsShape | gate/gate.go:76-84 | A sequence of messages is never out of order for a session if and only if its traffic has the shape link, data, at most one break |
| Protocol.ApplyAgrees | cluster/cluster.go:225-247 | Processing the next message of a connection keeps the table in agreement with what has come by it |
| Protocol.ReplayAgrees | cluster/cluster.go:223-248 | So does processing all that is left |
| GateModel.SessionIdFields | gate/gate.go:62-66 | An id modulo 256 is its gate, and the rest is the number of the registration modulo 2^24 |
| GateModel.SessionIdsAreUnique | gate/gate.go:62-66 | Ids of registrations on any gates are equal if and only if the gates are, and the registrations are a multiple of 2^24 apart |
| GateModel.RegisterIsSound | gate/gate.go:62-66 | A registration keeps all ids distinct and all live clients findable |
| GateModel.BreaksOneByOne | gate/gate.go:78-83 | Breaks can be sent one after the other in any order |
| GateModel.DisconnectIsSound | gate/gate.go:262-282 | The loss of a connection keeps the group up and routes fresh |
| GateModel.DisconnectIsForgotten | gate/gate.go:262-282 | Afterwards neither the group nor any live client refers to the connection |
| GateModel.DuplicateTakesTheOther | gate/server_manage.go:29-43 | An instance of that: a connection refused because its id is taken, when it is lost, takes out the one that has it |
| GateTables.DisconnectIsExact | gate/server_manage.go:37-72 | A loss leaves all other instances in the group if and only if the entry under the connection's type and id is its own or none |
| GateTables.FoundWhileLive | gate/gate.go:50-84 | After any run, the present id of a client names its gate, and leads to it if and only if the client is live |
| GateTables.ClosedStayIfVerified | gate/gate.go:62-77 | After any run, a closed client is still in the table if and only if it sent a first package: closing takes out only the id it got then |
| GateTables.ConnectJoins | gate/server_manage.go:29-62 | A new connection leaves the group complete if and only if none that is up has its type and id |
| GateTables.ConnectIsExact | gate/server_manage.go:29-62 | A new connection takes no instance out of the group, and becomes one if and only if there was none of its type and id |
| GateTables.DisconnectKeepsComplete | gate/server_manage.go:37-72 | The loss of a connection takes no other out of a complete group |
| GateTables.GroupIsExact | gate/server_manage.go:45-79 | In every run in which no connection comes with the type and id of one that is up, the instances that can be picked are exactly the connections that are up |
| SessionSafety.EveryRunIsSafe | gate/gate.go:62-84 | In every run of a gate, its connections and clusters with fewer than 2^24 registrations, the whole invariant holds |
| SessionSafety.StepKeepsInv | gate/gate.go:194-290 | Every event keeps it: connections, first packages, messages, closings, single breaks, connects, disconnects and deliveries, in any interleaving |
| SessionSafety.SentKeepsInv | gate/gate.go:194-222 | A client message leaves every session where it should stand on every connection |
| SessionSafety.ClosedKeepsInv | gate/gate.go:76-84 | So does a closing, whose breaks are still to be sent |
| SessionSafety.BreakKeepsInv | gate/gate.go:79-83 | So does each of these breaks |
| SessionSafety.DisconnectedKeepsInv | gate/gate.go:262-282 | So does the loss of a connection and of all that is in its FIFO |
| SessionSafety.DeliveredKeepsInv | cluster/cluster.go:223-248 | So does the processing of one message, in the table that several connections share |
| SessionSafety.TrafficHasShape | gate/gate.go:76-84 | In every reachable state a session's traffic on a connection is a link, then data, then at most one break |
| SessionSafety.DataMeetsItsSession | cluster/cluster.go:223-248 | Whenever data reaches the head of a FIFO, its session is in the cluster's table, bound to that connection, with its client's address |
| SessionSafety.ReplayGivesTheLocated | cluster/cluster.go:223-248 | Processing what is left in a FIFO binds to the connection exactly the sessions of the clients located there, or closed and with their break not yet sent |
| SessionSafety.RoutingIsSticky | gate/gate.go:194-222 | From the first message to a server type until the client closes or the connection is lost, all of the client's messages to that type, whatever else happens, go to that one instance, in order |
| SessionWire.SessionsSurviveTheWire | gate/gate.go:209-218 | However the bytes a gate writes are cut and batched: messages that can be sent are received in order as long as every pop finds 8 bytes, and when all bytes are popped exactly the messages written are received if and only if they all can be sent and every pop found 8 bytes |
| SessionWire.UnfitDataEndsTheLoop | gate/gate.go:209-218 | Data the gate accepts and cannot relay, behind messages that can be sent: of fewer than 2 bytes, it has ended the cluster's loop once all its bytes are there and popped, whatever comes behind it; of more than 32759, it panics before it is written |
| Relays.EmptyMessageIsRelayed | gate/ws.go:177-187 | A client can bring the short case about: an empty message takes the size of the next one for its id, which is not 0, so that its empty payload is relayed |
| SessionWire.MessageIsExact | cluster/cluster.go:225-243 | For every length: a message is understood as what was sent if and only if it is a link with at most 32751 bytes of address, data of 2 to 32759 bytes, or a break |
| SessionWire.MessageBytes | message/gate_msg.go:12-18 | The option and the payload bytes of links, data and breaks, for every session and address |
| SessionWire.PacketKinds | cluster/cluster.go:223-245 | Every packet: without the option for servers it is data, with it and the id 5 a break, and with ids other than 4 and 5 it is ignored |
| SessionWire.AnyLink | cluster/cluster.go:227-234 | Every link: it panics exactly at a negative size of its address, and what is missing of the address is filled with zeros |
| SessionWire.StreamOfFrames | gate/tran_conn.go:46-50 | Whatever is written for messages is the encodings of their frames; if they can be sent, these are well-sized and decode to them |
| ManyGates.GatesDoNotInterfere | cluster/cluster.go:223-248 | Gates with distinct ids below 256 share clusters without interfering: however their steps interleave, each sees in its share of the tables just the run it would make alone, and is safe in it |
| ManyGates.DataMeetsItsSessionAmongMany | cluster/cluster.go:223-248 | In the shared tables, too, data always finds its session bound to the connection it comes by, with the address of its client at the gate it comes from |
| SharedClusters.PacketsMeetTheirSessions | cluster/cluster.go:223-248 | In every run of several gates before the same clusters, with each gate's bytes in any chunks and pops: when the next packet decoded from a connection is data, its session is in the shared table, bound to that connection, with the address of that gate's client |
| SharedClusters.GroupIsDeliveries | utils/clientlink.go:60-62 | A group of packets decoded from one gate's bytes does to the shared table what as many deliveries do |
| SharedClusters.DecodedInOrder | utils/clientlink.go:49-66 | Whatever has come of a gate's bytes, the packets decoded are understood as the first messages written, in order |
| SessionWire.Cluster.OnClientMessage | cluster/cluster.go:223-248 | A packet changes the table as its message should, or not at all when it is no message |
| SessionWire.Cluster.OnGroup | utils/clientlink.go:60-62 | A group of packets changes the table as replaying their messages does |
| Gates.TranConn.Send | gate/tran_conn.go:46-50 | A message is appended to the FIFO if the connection was made |
| Gates.WSConn.SetLocation | gate/ws.go:53-56 | The client is bound to the connection for that type, and no other binding changes |
| Gates.WSConn.LeaveLocation | gate/ws.go:62-69 | The binding goes if it is to this very connection, and no other |
| Gates.Server.PushServer | gate/server_manage.go:29-35 | An instance is entered unless its id is taken |
| Gates.Server.RemoveServer | gate/server_manage.go:37-43 | Whatever instance has that id leaves |
| Gates.Server.GetInstance | gate/server_manage.go:22-27 | Some instance if there is one |
| Gates.ServerGroup.PushServer | gate/server_manage.go:50-62 | The group becomes the specified one, with a table for a type not seen before |
| Gates.ServerGroup.RemoveServer | gate/server_manage.go:64-72 | The instance with the connection's type and id leaves, and no other |
| Gates.ServerGroup.GetServer | gate/server_manage.go:74-79 | Some instance of that type, and none only if there is none |
| Gates.Gate.Register | gate/gate.go:62-66 | The state after is that of the registration step of the model |
| Gates.Gate.CreateWS | gate/gate.go:136-142 | A new client makes the step of an accepted connection |
| Gates.Gate.FirstPackage | gate/ws.go:160-173 | The first package makes the step of a second registration |
| Gates.Gate.OnClientMessage | gate/gate.go:194-222 | The handler makes the message step for the instance it picked, and picks one whenever there is one |
| Gates.Gate.OnTranMessage | gate/gate.go:245-260 | A reply is written to the live client its session leads to in the table, and to no other; nothing else changes |
| Gates.Gate.RemoveClientLink | gate/gate.go:76-84 | The handler makes the closing step and all of its breaks |
| Gates.Gate.OnTranConnected | gate/gate.go:284-290 | The handler makes the connecting step |
| Gates.Gate.OnTranDisconect | gate/gate.go:262-282 | The handler, with its loop over all clients, makes the disconnecting step |
| CenterSafety.NoAnnouncementIsMissed | center/center.go:43-64 | However registrations of gates and of servers interleave under their two locks, a tabled gate whose registration is complete has been sent the present record of every tabled server of a type above 2 whose S_Register is complete |
| CenterSafety.RecordsAreGenuine | center/center.go:107-123 | Every record sent names a server's own type and id and an address it has set: nothing is sent before |
| CenterSafety.LowTypesAreNotAnnounced | center/center.go:62-64 | For types up to 2 the guarantee fails: a run in which a registered gate is never told |
| CenterSafety.StepKeepsInv | center/center.go:39-136 | Every sub-step, of any link, keeps the invariant behind both |
| CenterSafety.OthersAreGenuine | center/servers.go:50-81 | A registering gate reads the record of every ready tabled server of a type above its own, and none but true ones |
| CenterSafety.EntriesAreFiledRight | center/servers.go:112-123 | In every run each entry sits under its own type and id |
| CenterSafety.EnterAdmits | center/servers.go:33-48 | A link is in the table after registering if and only if it did not claim a taken id; it has the next id, the claimed one, or 0 if it was refused |
| CenterSafety.RefusedSparesAll | center/servers.go:38-42 | A refused link takes no other out of the table when it unregisters, if no entry is under 0 |
| CenterRuns.RefusedLeavesNoTrace | center/servers.go:38-42 | In every run with at most 255 registrations of a type for a fresh id, whatever other ids are claimed: a refused link is not in the table and takes no other out |
| CenterRuns.InboxIsExact | center/servers.go:91-95 | In every run a link has been sent exactly the records of the sends to it that took place, once each, in order |
| CenterRuns.OnlyGatesAreTold | center/center.go:62-64 | In every run a link that is no gate is sent no record |
| CenterRuns.AddressIsLatest | utils/serverlink.go:53-57 | In every run a link's address is the one its last S_Register has set |
| CenterRuns.OthersAreExact | center/servers.go:50-81 | A registering gate reads exactly the records of the ready tabled servers of types above 1 |
| CenterSafety.EnterDisplaces | center/servers.go:33-48 | A registration pushes another link out of the table if and only if it is of its type and the counter has come round to its id |
| CenterSafety.LeaveIsExact | center/servers.go:104-110 | Unregistering leaves all other links in the table if and only if the entry under the link's id is its own or none |
| CenterSafety.IdsAreExclusive | center/servers.go:112-123 | Without claimed ids and with at most 255 registrations of a type, its connected servers are all in the table under distinct ids from 1 to 255, and unregistering one takes out just that one |
| Centers.ServerLink.SetIpPort | utils/serverlink.go:53-57 | Address and readiness are set, nothing else |
| Centers.Server.PushServer | center/servers.go:113-123 | A link without an id gets the next one modulo 256; one with an id is put under it |
| Centers.Server.RemoveServer | center/servers.go:104-110 | Whatever link has that id leaves |
| Centers.Servers.PushServer | center/servers.go:33-48 | The tables become those of the registration step; a claimed id that is taken is answered with 0 |
| Centers.Servers.RemoveServer | center/servers.go:60-66 | The tables become those of the unregistration step |
| Centers.Center.Register | center/center.go:107-114 | The first part of a registration makes its step: entry and id |
| Centers.Center.GetOtherServer | center/servers.go:50-58 | The loops collect exactly the records the model reads |
| Centers.Center.SetAddress | center/center.go:51-51 | The first part of an S_Register makes its step |
| Centers.Center.GatesToTell | center/center.go:62-64 | The second part is for all tabled gates, or for none when the type is not announced |
| Centers.Center.SendRecord | center/servers.go:91-95 | A record is appended to what one gate has been sent |
| Centers.Center.UnRegister | center/center.go:125-136 | The state after is that of the unregistration step |

## Left out

- Sockets, dialing, accept and read loops, handshake bytes, websocket calls, sleeps and logging: only the bytes, their
  order and the order of events are modelled.
- Dropped chunks: a full channel loses a chunk, which breaks framing; the model's channels do not overflow.
- Races of Go's memory model: handlers under one lock are one step, and `Gate.Register`, which reads the counter again
  after adding to it, is one step as well.
- Reconnects: a `TranConn` that connects again uses a closed channel and stays marked as connected; the model has a new
  connection instead.
- Sending on a connection between its loss and `OnTranDisconect`, which panics in the source: a loss is one step here,
  and a break still to be sent to a lost connection is dropped.
- A gate's id is fixed for a run (`gateId`): `OnServerConnected` sets it again when the center is reached again, and the
  model assumes that it gets the same one.
- Gates with a sink, `TcpConn` (its location methods do nothing), `GateMessage` with `NetShutDown`, `SendClientLink`,
  and the `Links` table of `WSConn`.
- `Cluster.UnRegister`: it compares sessions with connections and so removes nothing; no cleanup is claimed.
- Clusters without a sink, which ignore all messages, and the sink's callbacks.
- Center messages other than S_Register, random choice of a server, and the empty table the center creates when it looks
  for gates before there are any.
- Concurrent changes of the center's maps while they are read: reading the ready servers and looking up the gates are
  one step each.
- The state after a panic. Most end the process; one in a client's loop is recovered by the HTTP server that runs it,
  and leaves the lock of `OnClientMessage` locked.
- What is still in the channel of a batching loop that gave up.
- int64 wrap-around of timer delays and of `pass`, and of `repeat` below the smallest integer.
- Goroutines that `SetTimer` and `KillTimer` start, and the stop channel: both take effect where they are called. What
  callbacks of repeating timers push is pushed before the tick; pushes by other goroutines happen between ticks.
- `Buffer()` returns the array itself in the source; the model returns its bytes, so that later pushes do not show.
- `packer`: other kinds (maps, pointers, arrays) and destinations that are not zero before they are parsed.
- `PopGateData`, which repeats `PopTranData`; `ListenServer`, `deepcopy`, `worker`, and helpers for ports and addresses.
