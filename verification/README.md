# dill: a model and its proofs

dill is a small publish/subscribe logging system. Agents (`libdill/src/log.cpp`) connect to a server,
publish under a channel name and post logs and registers; the server keeps for each channel a bounded
buffer of logs, a map of registers and a set of subscribers; subscribers get the buffered logs and the
registers when they attach and everything new from then on; `dlv` shows what arrives.

The project models this as one closed system in layers, each a Dafny module in a file of its name:

- `Wire`: the record of a parcel and its bytes; `Deflate` and `Inflate` on byte arrays.
- `Framing`, `NetIo`: frames on a byte stream; the client's exact reads and the server's
  `async_read_some`, as a specification and as an object that updates its buffers in place.
- `Eviction`: the byte budget of a channel with its 32-bit accounting.
- `ServerModel`, `ServerProofs`: the server as a state machine (`Step`, `Run`) and what all its runs keep.
- `Demux`, `Convergence`, `Completeness`: what one connection sees of one channel, compared with an
  independent machine (`Cell`), what a subscriber ends up with, and when it misses nothing.
- `ServerObjects`: `Connection`, `ChannelData` and `DillServer` with their fields, each method proved to
  make exactly the state machine's step.
- `AgentModel`, `AgentObject`: the agent's locked queue, driven by posts and callbacks in any order.
- `Subscriber`: what the subscriber makes of each parcel it reads.
- `System`, `Calls`, `EndToEnd`, `Registers`: agents, server and subscribers joined by transports, from the
  calls of `post` to the events that callbacks get.
- `ChannelList`, `ChannelPage`: the viewer's pairing of pages with channels, and one page.

The environment is an adversary: any client may send any parcel at any time, connections come and go,
reads are cut anywhere, callbacks come in any order unless a statement says otherwise. A connection is
an abstract identity; every interleaving is a sequence of events. Some properties one might expect do
not hold of the code without a condition; each of these is proved to hold exactly when the condition
does: the eviction buffer is the longest fitting suffix (`Eviction.RefinesExactlyWhen`, broken by
`Overflows`), a subscriber is sent every log from its attach on
(`Completeness.NothingMissedExactlyWhen`, broken by `Oversize`), queued posts belong to the session (`AgentModel.CurrentExactlyWhenTimely`, broken by `StalePost`), the send
buffer holds one write (`AgentModel.SingleExactlyInTurn`, broken by `EarlyReply`), and an incremental
refresh shows the directory (`ChannelList.IncrementalExactly`).

Assumptions of the closed system (`System`, `EndToEnd`, `Registers`): a transport delivers, in order and
capped, what each side hands to `asyncWriteParcel`, until the connection is given up (`Framing` proves
this of the readers at both ends; a send buffer with one write at a time is what
`AgentModel.SingleExactlyInTurn` is about); every client is an agent or a subscriber, and a subscriber sends
AVAILCH, SUBSCRIBE and UNSUBSCRIBE with any contents; a post is given C strings; an agent's channel name
is what it was constructed with. Posts need not be one step: the look at `_loggable`, the reading of
`_channel_id` and the locked section may have any other steps between them. What an agent writes while it
has no connection is lost. The theorems about the server alone assume none of this.

Clocks, the enumeration order of the register map and uninitialised fields are parameters.

Two pairs of constants look alike and are not the same: `DILL_SUBSCRIBE` 0 and
`DILL_UNSUBSCRIBE` 1 (`libdill/inc/dill_subscriber.h:34-35`) select the request of the client's interface;
on the wire the codes of `libdill/src/protocol.h:36-43` are used, and the model follows the wire.

## Model

| member | source | states |
|---|---|---|
| `EndToEnd.EventsArePosts` | libdill/src/log.cpp:80-115 | in every run of any agents, one server and any subscribers, posts overtaken by other steps included: each log event that a callback gets for a channel since its connection last attached tells of a call of `post` in that run, by an agent publishing under that channel's name, with the priority, seconds, fraction, tag and message of the call, both strings cut to 23766 bytes; no two tell of the same call; those of one session come in the order of acceptance; and when all that was sent has been read there is one for each log sent |
| `EndToEnd.EventsAreAccepted` | libdill/src/subscribe.cpp:163-217 | the same seen from the posts that agents accepted: one event for one post, in order of acceptance within a session, none told of twice over all sessions |
| `Calls.PostsAreCalls` | libdill/src/log.cpp:95-112 | in every run, each post an agent accepted carries the op, time, tag and message of a call of `post` by that agent, a different call for each |
| `Calls.LoggableExactlyWhenRoom` | libdill/src/server_conn.cpp:115-134 | whatever happens in between: an agent that is still in the session when it reads the answer to its PUBLISH is loggable after it if and only if, when the server received the PUBLISH, the directory had the name or was not full |
| `Registers.RegistersArrive` | libdill/src/subscribe.cpp:189-205 | in every run of any agents, one server and any subscribers: once a client attached to a channel has read all it was sent, the table of latest contents that its callback can build from register events is exactly the channel's `Registers` |
| `EndToEnd.SentArePosts` | libdill/src/server_channel.cpp:95-131 | in every such run, the logs a connection was sent for a channel since it last attached are, one for one, capped posts accepted by agents publishing under its name, in order of acceptance within a session, none twice |
| `EndToEnd.TakenWasPosted` | libdill/src/server_conn.cpp:95-114 | any log or register that a channel takes from any connection is the capped form of a post that the connection's agent accepted, and the channel bears the agent's name |
| `EndToEnd.SourcesGrow` | libdill/src/log.cpp:103-112 | of two parcels that agents' connections delivered, the later one of a session is the later post, and two are never the same post |
| `EndToEnd.EventsAreLogs` | libdill/src/subscribe.cpp:163-205 | the log events for a channel id among all events of a callback are those of the logs with that id that were read, one for one, in order |
| `System.AlwaysOk` | libdill/src/log.cpp:80-199 | in every run of the closed system: every parcel the server received is the next capped parcel its client wrote; an agent connection starts with its PUBLISH, and what follows are posts the agent accepted, in order, none on two connections; all it ever accepted or prepared bears the id of the channel with the agent's name |
| `System.ReceiverOk` | libdill/src/server_conn.cpp:115-134 | the server step that consumes the next parcel of a connection keeps that connection's part of the system invariant; for the first parcel, the PUBLISH, this is the grant of the channel of that name |
| `System.InSessionOk` | libdill/src/log.cpp:103-182 | any part of a post by any thread, or a completion, inside a session keeps that: what is written has just come to the front of the queue and was on no connection before |
| `System.PublisherStep` | libdill/src/log.cpp:80-155 | every step of an agent keeps all accepted and prepared posts under the id of its channel, because an id granted to a name stays that name's |
| `System.StepAdvances` | libdill/src/log.cpp:103-182 | a step appends to the accepted posts, never moves the front of the queue back, and writes at most the post that has just come to the front |
| `Registers.RegistersWerePosted` | libdill/src/server_channel.cpp:59-62 | in every such run, a channel's `Registers` has exactly the names of the REGISTER parcels it took, each with the content of the last of that name; and that one comes from a call of `post` with op 255 by an agent publishing under the channel's name, the tag of which, cut, is the name and the message, cut, the content |
| `Registers.RegistersAreLatest` | libdill/src/server_channel.cpp:59-62 | any sequence of updates leaves exactly the names set, each with the content it was last set to |
| `Registers.TablesConverge` | libdill/src/server_channel.cpp:55-132 | the same for every run of the server alone in which no register string holds a NUL or exceeds 23766 bytes |
| `Registers.TableIsFold` | libdill/src/subscribe.cpp:189-205 | capping and the C strings of events lose nothing of such registers: the table built from events is the fold of the parcels for the channel |
| `Registers.StepPlain` | libdill/src/server_channel.cpp:59-62 | the server makes no register string that it was not given: every register it stores or writes is again free of NULs and within the cap |
| `Registers.AnswerRead` | libdill/src/subscribe.cpp:206-213 | a client that reads the answer to its AVAILCH has the exact number of channels, the capped name of the one it asked for if there are any, and waits no longer |
| `Wire.SizeBounds` | libdill/src/protocol.h:84-88 | a wire size lies in 17..47549, so the 16-bit total never wraps, it is the number of bytes written, and a frame fits the 65538-byte buffers |
| `Wire.RoundTrip` | libdill/src/protocol.h:57-113 | reading memory that starts with a written record gives op, id and both timestamps unchanged and of each string the first 23766 bytes, or all if there are fewer, whatever follows the record |
| `Wire.RecordBytes` | libdill/src/protocol.h:84-113 | byte for byte: the op first, the three numbers lowest byte first at 1, 5 and 9, then for each string its 16-bit length and its first bytes, 23766 at most |
| `Wire.ReadsAnyRecord` | libdill/src/protocol.h:57-81 | a record whose strings exceed the cap is read back whole |
| `Wire.OpBytes` | libdill/src/protocol.h:36-43 | the parcels taken for logs are those with op 0 to 4, data those and 255; the other codes are 249 to 254 |
| `Wire.RelayExact` | libdill/src/protocol.h:84-88 | a record found in memory is re-encoded byte for byte if and only if neither string exceeds the cap |
| `Wire.RelayLossless` | libdill/src/protocol.h:84-113 | capping is idempotent and does not change the bytes: only the first hop can shorten a string |
| `Wire.EncodeInjective` | libdill/src/protocol.h:84-113 | two parcels have the same bytes if and only if they agree up to the cap |
| `Wire.RecordLayout` | libdill/src/protocol.h:69-78 | the length and text fields of a record are found at the offsets where the advancing pointer looks for them |
| `Wire.Deflate` | libdill/src/protocol.h:84-113 | returns the number of bytes of the encoding, for a null buffer too; otherwise the buffer holds the encoding at the given place and is unchanged elsewhere |
| `Wire.Inflate` | libdill/src/protocol.h:57-81 | yields the parcel that the bytes hold; the 16-bit value returned is the record's size if and only if that size is below 65536 |
| `Framing.FramesInMaximal` | libdill/src/client_netio.cpp:171-196 | the frames counted in the first m bytes of a stream are all that fit there, and one more would not |
| `Framing.ChunkingIrrelevant` | libdill/src/client_netio.cpp:118-124 | for every byte stream, also a malformed one, the client ends in the same state however the stream is cut into chunks |
| `Framing.ClientDecodesStream` | libdill/src/client_netio.cpp:150-196 | however a stream of frames is chunked and wherever it is cut off, the client hands over exactly the parcels of the frames that arrived whole |
| `Framing.ClientReceivesCapped` | libdill/src/client_netio.cpp:118-134 | any list of parcels written by dill is received as the list of its capped parcels, under every chunking |
| `Framing.ServerReadsStream` | libdill/src/server_conn.cpp:40-93 | for every pattern of reads, short and failing ones included, the server handles exactly the parcels whose two reads were whole, up to the first that was not; it keeps the connection if and only if the reads so far are a beginning of the one sequence that ends on every frame part |
| `Framing.DrainStream` | libdill/src/client_netio.cpp:171-196 | reading what has arrived of a stream of frames, from any state between frames, adds the parcels of the whole frames and nothing else |
| `Framing.DrainPush` | libdill/src/client_netio.cpp:118-124 | reading what has arrived and then what arrives next is the same as reading it all at once |
| `NetIo.Endpoint.ReadFinished` | libdill/src/client_netio.cpp:171-196 | a completed read of the asked-for number of bytes updates buffer and reader as specified: a length, low byte first, is how many bytes are asked for next; a content is inflated and handed over as one more parcel |
| `NetIo.Endpoint.BytesArrive` | libdill/src/client_netio.cpp:118-124 | the in-place client reader, after any chunk, is in the state that draining the specification reader gives |
| `NetIo.Endpoint.ReadSomeFinished` | libdill/src/server_conn.cpp:48-93 | one `async_read_some` of the in-place server reader does what the specification does and keeps the connection exactly for a whole read |
| `NetIo.Endpoint.WriteParcel` | libdill/src/server_conn.cpp:237-246 | the send buffer starts with the record's length, low byte first, and the record; the receive side is untouched |
| `Eviction.FitExact` | libdill/src/server_channel.cpp:69-77 | a buffer is what dropping from the front leaves if and only if it is the longest suffix of the history whose wire total is at most the capacity |
| `Eviction.EvictExact` | libdill/src/server_channel.cpp:69-77 | the eviction loop keeps the accounting exact and leaves the longest suffix that makes room for the new parcel |
| `Eviction.ArchiveKeepsFit` | libdill/src/server_channel.cpp:63-93 | one log takes the longest fitting suffix of a history to that of the longer history, with exact accounting, and is stored if and only if it is not larger than the whole buffer |
| `Eviction.BufferRefines` | libdill/src/server_channel.cpp:63-93 | after any history the buffer is its longest suffix of at most `Capacity` wire bytes, `Used` is that total, and there are at most `Capacity`/17 parcels, when the capacity lies more than 47549 below 2^32 |
| `Eviction.RefinesExactlyWhen` | libdill/src/server_channel.cpp:69-84 | the refinement holds for all histories if and only if `Capacity` + 47549 < 2^32 |
| `Eviction.Overflows` | libdill/src/server_channel.cpp:69-84 | for every larger capacity, a history after which the buffer holds more bytes than the capacity |
| `Eviction.BufferIsSuffix` | libdill/src/server_channel.cpp:69-84 | with or without wrap-around, the buffer is some suffix of the history |
| `Eviction.AlwaysCongruent` | libdill/src/server_channel.cpp:69-84 | for any capacity `Used` equals the wire total of the buffer modulo 2^32 |
| `Eviction.CapableOfAny` | libdill/src/server_channel.cpp:79-84 | a buffer with room for the largest parcel stores every log, wrap-around or not |
| `ServerProofs.StepInv` | libdill/src/server_conn.cpp:95-206 | accept, any parcel on any connection, and disconnect all keep: ids are positions, names are distinct C strings, at most `_maxchannels` channels; subscribers are live subscriber-mode connections; stored parcels are logs with the channel's id |
| `ServerProofs.ReachableInv` | libdill/src/server_netio.cpp:160-254 | those three facts in every state that any sequence of events leads to |
| `ServerProofs.RunExtends` | libdill/src/server_netio.cpp:160-170 | over any run: the directory grows only at its end and keeps ids and names, a mode once set stays, written output is only appended to, and a dead connection never changes |
| `ServerProofs.GrantIsForever` | libdill/src/server_conn.cpp:115-134 | the one parcel written back for a PUBLISH has op 250 (REPLY_FULL) if and only if the name is absent and the directory full; otherwise it has op 249 (REPLY_OK), and the id in it is the id of that name after every further run, for every later PUBLISH by anyone |
| `ServerProofs.GrantStep` | libdill/src/server_conn.cpp:115-134 | everything a PUBLISH changes: an absent name becomes an empty channel at the end unless the directory is full, the connection notes its name and is written one parcel without timestamps and strings, and nobody else is touched |
| `ServerProofs.ReportedNamesStay` | libdill/src/server_conn.cpp:145-151 | the one parcel written back for an AVAILCH has op 251, the id asked for, the exact count and, if there are channels, the name; and every id below the count keeps its name in every further run |
| `ServerProofs.AvailStep` | libdill/src/server_conn.cpp:145-151 | everything an AVAILCH changes: that parcel and the connection's mode |
| `ServerProofs.AttachStep` | libdill/src/server_channel.cpp:107-132 | everything a SUBSCRIBE changes: the connection joins the subscribers and is written the stored logs in order and then each register once, as op 255 with the channel's id and no timestamps |
| `ServerProofs.DetachStep` | libdill/src/server_conn.cpp:165-177 | everything an UNSUBSCRIBE changes: the connection leaves the subscribers; nothing is written |
| `ServerProofs.AcceptStep` | libdill/src/server_netio.cpp:43-62 | an accept adds a connection without mode, name and output, and changes nothing else |
| `ServerProofs.DisconnectStep` | libdill/src/server_netio.cpp:236-254 | a disconnect takes the connection out of every channel and changes nothing else |
| `ServerProofs.ModeByOp` | libdill/src/server_conn.cpp:183-206 | the first parcel with op 0 to 4, 254 or 255 makes a connection a publisher, one with 251 to 253 a subscriber, for good; others leave it open |
| `ServerProofs.NothingElse` | libdill/src/server_conn.cpp:95-206 | any parcel with an op its mode does not know, or with the id of no channel, changes nothing but the mode |
| `ServerProofs.FanOut` | libdill/src/server_channel.cpp:55-105 | a parcel with op 0 to 4 or 255 from a publisher changes no other channel and no subscription; a register is set and a taken log is the last one stored; if taken it is written once to each current subscriber and to nobody else; a log is taken, when sums cannot wrap, if and only if it is not larger than the buffer |
| `ServerProofs.DisconnectIsFinal` | libdill/src/server_netio.cpp:236-254 | after `disconnect(conn)` and any further run no channel mentions the connection and it is never written to again, although only subscriber-mode connections are looked for |
| `Demux.Demultiplexed` | libdill/src/server_conn.cpp:95-181 | over every run, for each connection and channel id: output, stored logs, registers and subscription are those of an independent machine that replays only the channel's updates and the connection's own attach and detach steps |
| `Demux.Isolated` | libdill/src/server_conn.cpp:100-114 | two runs with the same updates of a channel and the same subscription steps of a connection send it the same for that channel, whatever else differs |
| `Demux.SilentWhileDetached` | libdill/src/server_channel.cpp:134-138 | in every run from a state in which a connection is not subscribed to a channel, it is sent nothing for that channel until it subscribes to it |
| `Demux.StepShows` | libdill/src/server_conn.cpp:95-181 | one server step changes what a connection sees of a channel exactly as the independent machine does |
| `Demux.SnapshotData` | libdill/src/server_channel.cpp:107-132 | an attach writes data of that channel only |
| `Convergence.SubscribersConverge` | libdill/src/server_channel.cpp:55-138 | in every reachable state, for every attached connection: all REGISTER parcels ever written to it for the channel fold to `Registers`, and `Buffers` is a suffix of the logs written to it for the channel |
| `Convergence.CellConverges` | libdill/src/server_channel.cpp:55-138 | the same through any mix of duplicate subscribes, unsubscribes, re-subscribes and oversize logs, with the suffix found within what was sent since the last attach |
| `Convergence.SnapshotFolds` | libdill/src/server_channel.cpp:112-131 | whatever a receiver was sent before, the snapshot brings its register map to the channel's, for any enumeration order |
| `Convergence.StoredAreLast` | libdill/src/server_channel.cpp:63-93 | what a channel stores is a suffix of its log history, for every capacity |
| `Convergence.ChannelsKeepLongestFit` | libdill/src/server_channel.cpp:63-93 | in every reachable server state each channel stores the longest fitting suffix of all logs it was given, exactly accounted, if the capacity cannot make sums wrap |
| `Convergence.HeardExactly` | libdill/src/server_channel.cpp:95-131 | the logs a connection was sent since it last attached, attached still or not, stand at strictly increasing positions of the channel's history |
| `Completeness.NothingMissed` | libdill/src/server_channel.cpp:79-104 | with a capacity of at least 47549 the logs a connection was sent since its last attach are exactly those it is owed: what was stored then, and each log from then on while it is attached; wrap-around or not |
| `Completeness.OwedIsSuffix` | libdill/src/server_channel.cpp:107-118 | what an attached connection is owed is an unbroken end of all logs the channel ever took, for any capacity |
| `Completeness.SubscribersMissNothing` | libdill/src/server_channel.cpp:95-131 | the same for every connection, attached still or not, after every run of the server |
| `Completeness.NothingMissedExactlyWhen` | libdill/src/server_channel.cpp:79-93 | in all runs of the server every connection is sent exactly the logs it is owed since it last attached, if and only if the buffer size is at least 47549 or there can be no channels |
| `Completeness.HearsAsCell` | libdill/src/server_channel.cpp:95-131 | a connection of the server was sent what it is owed exactly when the independent machine that replays its trace was |
| `Completeness.Oversize` | libdill/src/server_channel.cpp:90-92 | for every smaller buffer size, a run of the server (accept, PUBLISH, accept, SUBSCRIBE, a log of 47549 bytes) after which the attached subscriber was not sent the log it is owed |
| `ServerObjects.ChannelData.constructor` | libdill/src/server_channel.cpp:36-42 | a new channel is empty, with the given id, name and capacity |
| `ServerObjects.ChannelData.UpdateChannel` | libdill/src/server_channel.cpp:55-105 | the loop over the deque reaches the state the specification gives, and every subscriber is written the parcel exactly once if it was taken, else nothing |
| `ServerObjects.ChannelData.AttachSubscriber` | libdill/src/server_channel.cpp:107-132 | the connection is a subscriber and has been written the stored logs in order, then each register once; nothing else of the channel changed |
| `ServerObjects.ChannelData.DetachSubscriber` | libdill/src/server_channel.cpp:134-138 | the connection is not a subscriber; nothing else of the channel changed |
| `ServerObjects.ChannelData.Size` | libdill/src/server_channel.cpp:66 | `deflate(0)` is the size that would be written |
| `ServerObjects.DillServer.constructor` | libdill/src/server_netio.cpp:64-95 | a new server is the initial state of the state machine |
| `ServerObjects.DillServer.OnAcceptFinished` | libdill/src/server_netio.cpp:43-62 | a new connection is held in mode unknown: the Accept step |
| `ServerObjects.DillServer.FindChannelByName` | libdill/src/server_netio.cpp:179-192 | the position of the first channel of that name, or the number of channels |
| `ServerObjects.DillServer.FindOrCreate` | libdill/src/server_netio.cpp:160-192 | the id of the channel of that name, created at the end if it is absent and there is room; None if there is none |
| `ServerObjects.DillServer.DetachEverywhere` | libdill/src/server_netio.cpp:240-247 | the connection is detached from every channel, all else is unchanged |
| `ServerObjects.DillServer.Disconnect` | libdill/src/server_netio.cpp:236-254 | the objects do the Disconnect step of the state machine, and the server no longer holds the connection |
| `ServerObjects.DillServer.DecideMode` | libdill/src/server_conn.cpp:183-206 | the mode is that of the first parcel that tells, and it stays; nothing else of the state changes |
| `ServerObjects.DillServer.UpdateData` | libdill/src/server_conn.cpp:105-114 | a log or register for a channel that exists does the state machine's step on the objects |
| `ServerObjects.DillServer.Publish` | libdill/src/server_conn.cpp:115-134 | a PUBLISH does the state machine's step on the objects: name looked up, created if need be, reply written |
| `ServerObjects.DillServer.ReportAvailable` | libdill/src/server_conn.cpp:145-151 | an AVAILCH writes back the parcel with the count, and the name if there are channels |
| `ServerObjects.DillServer.Subscribe` | libdill/src/server_conn.cpp:152-164 | a SUBSCRIBE does the state machine's step on the objects for some enumeration of the registers |
| `ServerObjects.DillServer.Unsubscribe` | libdill/src/server_conn.cpp:165-177 | an UNSUBSCRIBE does the state machine's step on the objects |
| `ServerObjects.DillServer.OnPublisherParcel` | libdill/src/server_conn.cpp:95-138 | every parcel in publisher mode, unknown ids and ops included, does the state machine's step on the objects |
| `ServerObjects.DillServer.OnSubscribeParcel` | libdill/src/server_conn.cpp:140-181 | every parcel in subscriber mode does the state machine's step on the objects |
| `ServerObjects.DillServer.OnParcel` | libdill/src/server_conn.cpp:76-87 | a parcel on any held connection, mode set by the first that decides it, does exactly the Receive step and keeps the invariant of all objects |
| `AgentModel.AlwaysConserved` | libdill/src/log.cpp:103-199 | in every interleaving of posts and callbacks, spurious ones included: `_pending_logwrites` if and only if the queue is not empty; all posts queued are, in order, those popped or dropped in earlier epochs, popped since, and still queued; the log writes are those popped and the front of the queue |
| `AgentModel.SentConserves` | libdill/src/log.cpp:157-182 | a completed write pops the parcel that was written and writes the next, keeping all of that |
| `AgentModel.CurrentExactlyWhenTimely` | libdill/src/log.cpp:80-112 | in every state of a run a non-empty queue implies `_loggable` and bears the id of the latest REPLY_OK, if and only if each post that enters the queue still finds its session and each REPLY_OK with a new id finds the queue empty |
| `AgentModel.StalePost` | libdill/src/log.cpp:82-112 | a run of a transport that is well-behaved in that sense and yet breaks it: while a post stands between its look at `_loggable` and its lock, another post's write fails; the first is then queued and written without a session |
| `AgentModel.AtomicPostsAreLicensed` | libdill/src/log.cpp:80-112 | with atomic posts, in every run whatever: a non-empty queue implies `_loggable`, and no log is written between losing a session and the next REPLY_OK |
| `AgentModel.NothingBeforeGrant` | libdill/src/log.cpp:80-87 | no log is queued or written before the first REPLY_OK, in any interleaving of split posts and callbacks |
| `AgentModel.SilentBeforeGrant` | libdill/src/log.cpp:118-155 | with split posts, in runs that pass the guard, no log is written between losing a session and the next REPLY_OK |
| `AgentModel.WritesCarryId` | libdill/src/log.cpp:103-112 | in every run that passes the guard of `CurrentExactlyWhenTimely`, each event writes at most one parcel, and a log only while granted and under the id of the latest REPLY_OK |
| `AgentModel.NothingOldIsWritten` | libdill/src/log.cpp:184-199 | what is written since the last I/O error is a prefix of what was accepted since: nothing accepted before it |
| `AgentModel.SingleExactlyInTurn` | libdill/src/log.cpp:103-112 | in every run, spurious callbacks included, at most one write is ever outstanding on the single send buffer if and only if each post that enters the queue comes after the completion of the connection's request and of any log cut short by a failure, and each connection is made after those and with an empty queue |
| `AgentModel.OrderlySafe` | libdill/src/log.cpp:103-182 | with atomic posts and a transport that completes only writes that are outstanding, connects successfully only when the agent is offline and after the completions of the last connection's writes, and dispatches a REPLY_OK once per connection, after its request's completion, there is always at most one write outstanding and the queue is of the current session; failures may come at any time and any number of times |
| `AgentModel.AbortedWrite` | libdill/src/client_netio.cpp:171-219 | the assumptions on the transport admit a failure while the request is being written, followed by its completion or its abort |
| `AgentModel.EarlyReply` | libdill/src/log.cpp:132-155 | a run with an atomic post in which the reply is dispatched before the completion of the request: two writes are outstanding on the one buffer |
| `AgentObject.LogAgent.constructor` | libdill/src/log.cpp:64-73 | a new agent is in the start state |
| `AgentObject.LogAgent.Post` | libdill/src/log.cpp:80-115 | true if and only if the agent was loggable; then the queue has at its end the parcel with exactly the arguments and the agent's channel id, and a write is pending; otherwise nothing changes |
| `AgentObject.LogAgent.PostLook` | libdill/src/log.cpp:82-86 | the unlocked look at `_loggable`: returns it and changes no field |
| `AgentObject.LogAgent.PostFill` | libdill/src/log.cpp:95-101 | the thread's parcel has op, tag, message and time of the call and the channel id of that moment; no field changes |
| `AgentObject.LogAgent.PostEnd` | libdill/src/log.cpp:103-112 | the locked section queues the parcel that thread made, however much has happened since |
| `AgentObject.LogAgent.EnqueueLocked` | libdill/src/log.cpp:103-112 | the locked section appends the parcel and starts a write if and only if none was pending |
| `AgentObject.LogAgent.OnConnected` | libdill/src/log.cpp:125-141 | writes the PUBLISH request for the agent's channel, or does what an I/O error does |
| `AgentObject.LogAgent.OnParcelRead` | libdill/src/log.cpp:143-155 | REPLY_OK makes the agent loggable under that id; any other parcel does what an I/O error does |
| `AgentObject.LogAgent.OnParcelSent` | libdill/src/log.cpp:157-182 | `pop_front` is reached only on a non-empty queue; a success drops the front and writes the next if there is one, a failure does what an I/O error does |
| `AgentObject.LogAgent.OnIoError` | libdill/src/log.cpp:184-199 | the agent is not loggable, the queue is dropped whole and nothing is pending |
| `Subscriber.SubscriberClient.OnParcelRead` | libdill/src/subscribe.cpp:163-217 | with a callback registered, a parcel with op 0 to 4 adds exactly one log event with its fields, one with op 255 one register event, others none; without one there are none; op 251, and nothing else, stores count and name and ends the call |
| `ChannelList.ViewerChannels.RefreshChannelData` | dlv/dlv_app.cpp:229-265 | the nested loops compute, for a full refresh, for each first entry of a name the page of the last old entry that had one; for an incremental one, the old list and the names that the server answers with, asked one after the other |
| `ChannelList.ViewerChannels.PairBack` | dlv/dlv_app.cpp:255-262 | gives the page to the first entry of that name and touches no other |
| `ChannelList.ViewerChannels.SubscribeChannel` | dlv/dlv_app.cpp:213-227 | true if and only if the id is known and the request succeeded; then that entry has the page, or none after an unsubscribe, and the name stays |
| `ChannelList.ViewerChannels.IsChannelSubscribed` | dlv/dlv_app.cpp:267-277 | true if and only if there is an entry of that name and the first such has a page |
| `ChannelList.SurvivorsKeepPages` | dlv/dlv_app.cpp:246-264 | with distinct names, a full refresh leaves each surviving channel its page and each new one none |
| `ChannelList.RefreshSharesNothing` | dlv/dlv_app.cpp:246-264 | for any names, if no two channels shared a page before a full refresh, none do after it |
| `ChannelList.IncrementalExactly` | dlv/dlv_app.cpp:239-245 | an incremental refresh leaves the old list as its beginning, and shows the reported names if and only if the old names are the first of them |
| `ChannelList.PageForFinds` | dlv/dlv_app.cpp:246-264 | the page found for a name is that of its last paired entry, and none if it has none |
| `ChannelList.LastPairedIsLast` | dlv/dlv_app.cpp:246-264 | no entry of the name after its last paired entry has a page, and none at all if there is no such entry |
| `ChannelPage.DlvChannelPage.OnAppenLog` | dlv/dlv_channelpage.cpp:200-207 | the log is stored, and shown as the last row if it passes the level; all else stays, and the page stays what its history makes it |
| `ChannelPage.DlvChannelPage.OnUpdateRegister` | dlv/dlv_channelpage.cpp:209-221 | the register map stays a bijection onto the rows, rows in order of first update since the last clear, each with its latest content |
| `ChannelPage.DlvChannelPage.OnPriorityFilterChanged` | dlv/dlv_channelpage.cpp:299-309 | after a new level the rows are the stored logs that pass it, in order |
| `ChannelPage.DlvChannelPage.OnLogClear` | dlv/dlv_channelpage.cpp:236-250 | no log, no row and no register is left, stored or shown; the level stays |
| `ChannelPage.DlvChannelPage.ResetLogContent` | dlv/dlv_channelpage.cpp:252-276 | the rows go, and the stored logs only if asked |
| `ChannelPage.DlvChannelPage.ResetRegisterContent` | dlv/dlv_channelpage.cpp:278-297 | rows and map of the registers go together |
| `ChannelPage.SeenAreLatest` | dlv/dlv_channelpage.cpp:209-221 | a name has a row if and only if it was updated since the last clear, and one row only |
| `ChannelPage.FilteredExactly` | dlv/dlv_channelpage.cpp:303-308 | the rows are the stored logs at the passing positions, one for one |
| `ChannelPage.PassingExactly` | dlv/dlv_channelpage.cpp:303-308 | the passing positions are increasing, and a position is among them if and only if its log has at least the level |

## Left out

- Sockets, name resolution, `io_service`, threads, sleeps and the order of destructors: library behaviour; steps and in-order transports stand for them.
- Bytes of overlapping `async_write` calls through one `_wtbuf`: the code reuses the buffer while earlier writes may be in flight, so the server's output is stated as the sequence of `asyncWriteParcel` calls. Only the agent's buffer has a claim of its own.
- Handlers that run after their connection was deleted, a second scheduled disconnect of one connection, and a new connection at the address of a deleted one: a connection is a fresh identity and is disconnected at most once.
- AVAILCH for a channel that is not there, on a server that has channels: the source assigns a null pointer to a string, so no step is defined (`ServerModel.Enabled`).
- `inflate` beyond the end of the receive buffer, when the lengths inside a parcel lie: the reader loses `defined`, and the object's methods require that it does not happen.
- A frame whose announced length differs from its content's, seen by the server: the server's theorem is about well-formed streams; for the client chunking is proved irrelevant for any bytes.
- Big-endian platforms: the pointer casts are modelled as little-endian.
- The blocking calls of `subscribe.cpp` (number of channels, names, subscribe requests): they wait on a condition without a predicate, so replies cannot be matched with requests. The requests themselves are parcels that any subscriber may send at any time.
- Formatting of register values, the wrapper functions, the global singletons, the server's event callback and traces: thin.
- A publisher that names a channel other than its own: the server does not check it. `System.AlwaysOk` shows that the closed system's agents never do.
- The rest of `dlv`: widgets, column widths, row colours and labels, dialogs, the recording stub; and `tools`, the build files.
- AgentObject.LogAgent.Post: taken as one step; a post that other steps overtake between its look at `_loggable`, its reading of `_channel_id` and its lock is `PostLook`, `PostFill` and `PostEnd`.
- ChannelPage.DlvChannelPage.OnPriorityFilterChanged: the selection of the box and its handler are one step, so rows added between the two are not modelled.
- NetIo.Endpoint.ReadSomeFinished: the calls into the server that follow a whole parcel are `ServerObjects.DillServer.OnParcel`, which works on connections without buffers.
