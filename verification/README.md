# A model of the SOCKS version 5 proxy

The proxy is one thread around an event loop, resolver threads beside it, and
for each client a state machine over two linear buffers. This project models
its layers and proves that they agree at every step, for every client, every
origin, every way the network cuts streams, and every interleaving.

| file | what it models |
|---|---|
| `Path.dfy` | runs of a transition system |
| `Buffer.dfy`, `Stream.dfy` | the linear buffer as a bounded FIFO; the consume loop the parsers share |
| `GreetingParser.dfy`, `AuthParser.dfy`, `RequestParser.dfy` | the byte-fed parsers (RFC 1928, RFC 1929) and the messages sent back |
| `Pop3Sniffer.dfy` | the credential tracker over the relayed traffic (RFC 1939) |
| `Parameters.dfy` | the table of users |
| `Interest.dfy`, `SelectorTable.dfy`, `Selector.dfy` | interests, the selector's table, capacity, dispatch pass, queue of jobs |
| `Relay.dfy` | the COPY state: two buffers, four flags, two interests |
| `Session.dfy`, `StateMachine.dfy` | one connection: the step functions, and the engine over the table of states |
| `Handlers.dfy` | the handlers on structures changed in place, tied to the step functions |
| `SessionSafety.dfy`, `SessionAnswers.dfy`, `SessionAuth.dfy`, `SessionReply.dfy`, `SessionProgress.dfy`, `SessionCopy.dfy` | what holds over every life of a session |
| `Server.dfy` | all sessions, the selector's table, the resolver threads and the queue, as one protocol |
| `ServerPass.dfy` | a pass of the selector, and a drain of its queue, as runs of that protocol |
| `ServerAstray.dfy`, `ServerLimits.dfy`, `ServerMisdelivery.dfy` | descriptors that do not fit eight bits: when the server's invariant survives, how it fails, and how many sessions keep clear of them |
| `SessionList.dfy` | the linked list of sessions and the counters |

Where the source changes a structure in place the model is a class with the
same fields. Each class carries a ghost `view`, the abstract value its
invariant ties to the fields, and each method says which function of the old
value the new one is. The theorems are about those functions.

The network is nondeterministic. A receive into n bytes yields 1 to n bytes, an
end of file, a reset or an error (into no room, never data); a send of n > 0
bytes takes 1 to n of them, fails, or meets a connection that was reset and so
ends the process by SIGPIPE; shutdown, connect and SO_ERROR answer what they
like. Histories of bytes received and sent, shutdowns, and jobs removed and
delivered are part of the states that the theorems are about.

## What the code does that its users may not expect

Each of these is kept as the code has it, shown by a lemma with a concrete run
or input, and met by an exact condition.

- Authentication is safe whatever else happens: no answer of the network, the
  resolver or the origins, no descriptor and no order of events takes a session
  past it (`StepKeepsAuth`, `AuthenticationIsNeverSkipped`). Likewise replies are
  whole, success is reported only after a connection seen with error 0, and a
  relay begins behind such replies and loses no byte (`StepKeepsReplies`,
  `EveryReplyIsWhole`, `RelayingIsEarned`). The items below do not touch that.
- A request that names a host of length zero writes through a null pointer
  (state `Faulted`); `RefusesByFirstOffence` says exactly when.
- A connect that ends at once leaves an origin descriptor the selector does not
  know. Refused, the reply goes out and the teardown aborts
  (`RefusedAddressAborts`); connected, the session is stuck for ever
  (`ConnectedAtOnceIsStuck`, `NumericConnectedAtOnceIsStuck`); with a second
  address, the client's readiness is taken for the origin's
  (`SecondAddressMisfires`), unless the origin is ready first
  (`SecondAddressRecoversIff`); with a second that connects at once, success is
  reported over a socket the selector does not know (`SuccessWithoutConnection`,
  `ResolvedKeepsKnownIff`).
- The reply is put in the buffer on every call of request_write
  (`OneSendOneReply`, `ShortSendRepeatsReply`), so 500 sends of one byte bring
  it past the buffer's end (`ReplyOverrunsItsBuffer`,
  `WrongVersionThenByteByByte`).
- SIGPIPE is not handled and every send passes no flag, so a send to a connection
  that the peer has reset ends the process.
- The tracker writes past a credential array at 100 bytes (`ReadUserLine`,
  `ReadPassLine`), which ends the process as the Makefile builds it.
- `StepKeepsInvIffCopesWith` has the exact condition of these: over every
  state and event a session's invariant survives iff none of them happens. They
  harm no other session but by an abort (`RunKeepsInvOf`), and `StepHandles` and
  `AbortsIff` say exactly when that is. A missing handler is never met
  (`EveryInterestHasItsHandler`), and the jobs of the resolvers are delivered
  once (`EachJobIsDeliveredOnce`), whatever is answered.
- The peer's descriptor passes through eight bits in COPY
  (`PeerWokenIffDescriptorIsShort`). An origin with a longer one never gets a
  byte (`LongOriginGetsNothing`), and another session may be made to wait for an
  event it has no handler for, which aborts the process (`LongDescriptorAborts`),
  or be closed while its resolution runs and have the answer given to the next
  client (`LongDescriptorMisdelivers`).
  `CopySurvivesIff` has the exact condition for one event of a relay, and all
  runs keep the invariant iff descriptors stay below 256
  (`InvariantIffDescriptorsAreShort`). Two descriptors a session and a table of
  500 sessions allow more than that; with k descriptors open beside them, n
  sessions at a time do not if 2n + k is at most 256 (`FewSessionsAreShort`).
- Bytes that the client sends beyond its request stay in the buffer that the
  origin's bytes go through, and so return to the client; a relay entered with
  such bytes can end with nothing to wait for, and only such a relay can
  (`StallFreeIffNothingLeftOver`).
- A send that takes some, not all, of a buffer filled to its limit re-arms a
  read without room, which is then taken for an end of file
  (`PartialSendFakesEndOfFile`); so does a leftover that fills its buffer
  (`FullLeftoverFakesEndOfFile`). Nothing else does: `StepKeepsRoomIff` for a
  step, `RoomOverRunsIff` for runs.
- A whole message that the client sent ahead waits until another byte comes
  (`RequestSentAheadWaits`), and is served iff one does
  (`WaitingRequestIsServedIff`, `WellBehavedClientReachesCopy`).
- Adding or dropping both interests at once is not union or difference
  (`AdditiveIsUnion`, `ReductionIsDifference`); the program adds and drops one.
- selector_register takes a descriptor equal to the table's size as fitting;
  harmless iff the table was asked for with 512 elements or more
  (`EveryDescriptorInBounds`).
- The relay receives up to 5000 bytes at once and the tracker keeps the first 4096
  of them (`SeesFirstParts`), so a dialog can go by unseen (`LateCommandIsMissed`,
  `CuttingMatters`); cut into chunks of at most 4096 it never does
  (`TracksDialogInChunks`).
- After "-ERR" the tracker does not restore its count of missing characters, so
  it follows the second attempt that headers/pop3_sniffer.h:40-43 describes iff
  the text in between begins a match and breaks it off, as any text with a "u"
  does (`CommandAfterErrIsFoundIff`, `SecondAttemptIsTracked`,
  `CommandAfterErrIsMissed`).

## Model

| member | source | states |
|---|---|---|
| Buffers.Buffer.constructor | src/buffer.c:30-35 | a new buffer is the empty FIFO of the given capacity |
| Buffers.Buffer.Reset | src/buffer.c:24-28 | any buffer, whatever its state, becomes the empty FIFO of its capacity |
| Buffers.Buffer.CanWrite | src/buffer.c:37-40 | true iff the FIFO has room |
| Buffers.Buffer.CanRead | src/buffer.c:49-52 | true iff the FIFO is not empty |
| Buffers.Buffer.WriteAdv | src/buffer.c:61-67 | the bytes stored at the write position join the end of the FIFO; a negative count changes nothing |
| Buffers.Buffer.ReadAdv | src/buffer.c:69-79 | exactly the first bytes leave the FIFO, and an emptied buffer is rewound; a negative count changes nothing |
| Buffers.Buffer.Read | src/buffer.c:81-91 | the oldest byte leaves the FIFO and is returned; an empty one yields 0 and is unchanged |
| Buffers.Buffer.Write | src/buffer.c:93-99 | one byte joins the FIFO if there is room and is dropped otherwise |
| Buffers.Buffer.Compact | src/buffer.c:101-114 | the overlapping move to the base keeps the unread bytes and frees all the room |
| Buffers.BoundedFifo | src/buffer.c:61-114 | any sequence of appends, consumptions and compactions: what was taken out, then what is left, is what was there, then what was put in; well-formedness is kept |
| Streams.ConsumeSplit | src/auth_parser.c:14-27 | feeding a stream in two parts is feeding the first, then the second unless the parser stopped |
| Streams.ConsumeBufStep | src/greeting_parser.c:12-24 | one turn of the consume loop over a buffer: one byte read and fed, then stop or go on |
| Streams.ChunkIndependence | src/request_parser.c:17-32 | for every cutting of the stream into receivable chunks, the parser reached and the unread suffix are those of one pass over the whole |
| GreetingParsers.ParseIsMeaning | src/greeting_parser.c:12-66 | the byte automaton yields, on every stream, the closed-form reading of section 3 of RFC 1928 |
| GreetingParsers.AcceptsExactlyTheWireLanguage | src/greeting_parser.c:26-66 | done with these methods and this suffix unread iff the stream is their encoding followed by the suffix; counts 1 to 255, no index wrap |
| GreetingParsers.AcceptedInAnyCutting | src/greeting_parser.c:12-24 | the same iff for every cutting of the stream into receivable chunks |
| GreetingParsers.GreetingParser.constructor | src/greeting_parser.c:4-10 | a new parser waits for the version |
| GreetingParsers.GreetingParser.Init | src/greeting_parser.c:4-10 | whatever it held, the parser waits for the version again |
| GreetingParsers.GreetingParser.FeedByte | src/greeting_parser.c:26-66 | the structure with its 8-bit index and array follows the abstract parser byte by byte |
| GreetingParsers.GreetingParser.ConsumeByte | src/greeting_parser.c:17-18 | one byte leaves the buffer and is fed |
| GreetingParsers.GreetingParser.ConsumeBuffer | src/greeting_parser.c:12-24 | the loop leaves parser and buffer as the shared consume function does |
| GreetingParsers.FillMsg | src/greeting_parser.c:68-79 | two bytes, version and method, join the buffer, or -1 and no change iff fewer than two are free |
| AuthParsers.ParseIsMeaning | src/auth_parser.c:14-96 | the byte automaton yields, on every stream, the closed-form reading of section 2 of RFC 1929 |
| AuthParsers.AcceptsExactlyTheWireLanguage | src/auth_parser.c:29-96 | done with this pair and this suffix unread iff the stream is their encoding followed by the suffix; lengths 1 to 255 |
| AuthParsers.AcceptedInAnyCutting | src/auth_parser.c:14-27 | the same iff for every cutting of the stream into receivable chunks |
| AuthParsers.AuthParser.constructor | src/auth_parser.c:5-12 | a new parser waits for the version |
| AuthParsers.AuthParser.Init | src/auth_parser.c:5-12 | whatever it held, the parser waits for the version again |
| AuthParsers.AuthParser.Store | src/auth_parser.c:55-61 | a credential byte is appended, and the complete credential is terminated inside its array |
| AuthParsers.AuthParser.FeedByte | src/auth_parser.c:29-96 | the structure with its two arrays follows the abstract parser byte by byte |
| AuthParsers.AuthParser.ConsumeByte | src/auth_parser.c:19-20 | one byte leaves the buffer and is fed |
| AuthParsers.AuthParser.ConsumeBuffer | src/auth_parser.c:14-27 | the loop leaves parser and buffer as the shared consume function does |
| AuthParsers.FillMsg | src/auth_parser.c:98-106 | version and status join the buffer iff two bytes are free; otherwise false, where the source writes past its end |
| RequestParsers.ParseIsMeaning | src/request_parser.c:17-135 | the byte automaton yields, on every stream, the closed-form reading of section 4 of RFC 1928 |
| RequestParsers.AcceptsExactlyTheWireLanguage | src/request_parser.c:34-135 | done with this address type, address, port (256*hi+lo) and suffix unread, and reply "succeeded", iff the stream is their encoding followed by the suffix |
| RequestParsers.RefusesByFirstOffence | src/request_parser.c:38-89 | refused iff some field offends, with the code of the first that does; a fault, the write through a null pointer, iff the request names an empty host |
| RequestParsers.RefusalHasCode | src/request_parser.c:34-135 | from any state before a stop, a refusal never carries "succeeded" |
| RequestParsers.ReceivedIsParse | src/request_parser.c:17-32 | receiving chunk by chunk is one pass over the concatenation |
| RequestParsers.AcceptedInAnyCutting | src/request_parser.c:17-32 | acceptance iff encoding, for every cutting of the stream |
| RequestParsers.RefusedInAnyCutting | src/request_parser.c:17-32 | refusal and its code depend on the whole stream only, for every cutting |
| RequestParsers.RequestParser.constructor | src/request_parser.c:7-15 | a new parser waits for the version |
| RequestParsers.RequestParser.Init | src/request_parser.c:7-15 | whatever it held, the parser waits for the version again, keeping only the reply code |
| RequestParsers.RequestParser.SetReply | src/origin_connect_stm.c:96 | only the reply code changes |
| RequestParsers.RequestParser.SetAtyp | src/origin_connect_stm.c:172-178 | only the address type changes |
| RequestParsers.RequestParser.FeedByte | src/request_parser.c:34-135 | the structure with its address array follows the abstract parser byte by byte |
| RequestParsers.RequestParser.ReadAddressByte | src/request_parser.c:91-112 | length byte, address byte, terminator at the index past the address, and the fault on length zero |
| RequestParsers.RequestParser.ReadAddressType | src/request_parser.c:65-89 | the array allocated for each address type, or the refusal |
| RequestParsers.RequestParser.ConsumeByte | src/request_parser.c:21-29 | one byte leaves the buffer and is fed, and fed again when it completes the request |
| RequestParsers.RequestParser.ConsumeBuffer | src/request_parser.c:17-32 | the loop leaves parser and buffer as the shared consume function does |
| RequestParsers.FillMsg | src/request_parser.c:137-158 | the ten-byte form of section 6 of RFC 1928 joins the buffer, and nothing else in it changes, iff ten bytes are free; otherwise false, where the source writes past its end |
| Pop3Sniffers.SeekThroughFiller | src/pop3_sniffer.c:54-73 | through text that does not contain the command word, in any case, the match count stays below the word, and a final newline brings it to 0 |
| Pop3Sniffers.PassCommandWord | src/pop3_sniffer.c:54-73 | filler followed by the command word leads to the reading of the credential |
| Pop3Sniffers.ReadUserLine | src/pop3_sniffer.c:75-93 | a line of any length: stored whole iff shorter than 100 bytes, otherwise the terminator falls outside the array |
| Pop3Sniffers.ReadPassLine | src/pop3_sniffer.c:116-132 | likewise for the password line |
| Pop3Sniffers.ReadOk | src/pop3_sniffer.c:34-52 | the greeting "+OK" in any case starts the search for USER |
| Pop3Sniffers.CheckAnswer | src/pop3_sniffer.c:134-151 | when "+OK" comes before a complete, possibly scattered, "-ERR", the tracker ends successful with both credentials untouched |
| Pop3Sniffers.TracksDialog | src/pop3_sniffer.c:34-151 | a dialog of section 7 of RFC 1939 ends successful with exactly the two credentials stored |
| Pop3Sniffers.TracksDialogInChunks | src/copy_stm.c:184-206 | the same for every cutting of the dialog into chunks of at most 4096 bytes |
| Pop3Sniffers.SeesFirstParts | src/copy_stm.c:192-202 | whatever the chunks, the tracker ends as if fed the first 4096 bytes of each, one after the other |
| Pop3Sniffers.LateCommandIsMissed | src/copy_stm.c:192-202 | a dialog received in one chunk whose USER comes after 4096 bytes leaves the tracker looking for it, both credentials unseen |
| Pop3Sniffers.CuttingMatters | src/copy_stm.c:192-202 | such a dialog of at most 5000 bytes, which the relay receives at once: cut in two it is tracked, whole it is not |
| Pop3Sniffers.CommandAfterErrIsMissed | src/pop3_sniffer.c:144-148 | after "-ERR" the count of missing characters is not restored: through text that restarts no match, the next "USER " leaves the tracker still looking for it, the counter wrapped to 251 |
| Pop3Sniffers.BrokenMatchRestores | src/pop3_sniffer.c:62-72 | a match broken off, or text that starts one, puts the count of missing characters right again |
| Pop3Sniffers.CommandAfterErrIsFoundIff | src/pop3_sniffer.c:54-73 | after "-ERR" and any filler: the next "USER " is recognised if and only if a match was begun and broken off in the filler, that is, it holds a u |
| Pop3Sniffers.SecondAttemptIsTracked | src/pop3_sniffer.c:134-151 | when it is, the whole second attempt is tracked: the tracker ends successful with its two credentials |
| Pop3Sniffers.Pop3Sniffer.constructor | src/socksv5_server.c:59-64 | a zeroed tracker: every counter 0, no credential arrays, idle |
| Pop3Sniffers.Pop3Sniffer.Reinit | src/pop3_sniffer.c:21-32 | whatever it held, the tracker has two fresh arrays and starts afresh, but for its second match count, which stands |
| Pop3Sniffers.Pop3Sniffer.ReadOkMsg | src/pop3_sniffer.c:34-52 | the 8-bit counters move as the abstract tracker says |
| Pop3Sniffers.Pop3Sniffer.ReadCommandByte | src/pop3_sniffer.c:54-73 | the 8-bit counters move as the abstract tracker says, wrap-around included |
| Pop3Sniffers.Pop3Sniffer.ReadUserByte | src/pop3_sniffer.c:75-93 | the array holds the credential so far, terminated when its line ends |
| Pop3Sniffers.Pop3Sniffer.ReadPassByte | src/pop3_sniffer.c:116-132 | the array holds the credential so far, terminated when its line ends |
| Pop3Sniffers.Pop3Sniffer.CheckResponse | src/pop3_sniffer.c:134-151 | the two match counters move as the abstract tracker says |
| Pop3Sniffers.Pop3Sniffer.ParseByte | src/pop3_sniffer.c:153-181 | the structure follows the abstract tracker byte by byte |
| Pop3Sniffers.Pop3Sniffer.ConsumeByte | src/pop3_sniffer.c:185-186 | one byte leaves the tracker's buffer and is parsed |
| Pop3Sniffers.Pop3Sniffer.ConsumeBuffer | src/pop3_sniffer.c:183-196 | the loop leaves tracker and buffer as the shared consume function does |
| Pop3Sniffers.Pop3Sniffer.Copy | src/copy_stm.c:192-202 | as much as fits joins the tracker's buffer |
| Pop3Sniffers.Pop3Sniffer.Sniff | src/copy_stm.c:184-206 | started at the first bytes, fed until it stops, blind to what does not fit |
| Parameters.CStr | src/parameters.c:188 | what strcmp compares: the bytes before the first terminator |
| Parameters.TerminatorIsNotSeen | src/parameters.c:188 | the parser's terminated array compares as the credential itself |
| Parameters.AddUserOnlyExtends | src/parameters.c:60-72 | after any add_user a pair is accepted iff it was before, or it is the new one and the addition succeeded |
| Parameters.Params.constructor | src/parameters.c:11 | the table starts empty |
| Parameters.Params.AddUser | src/parameters.c:60-72 | the table grows by exactly the pair while it has fewer than 10 entries and both strings fit 50 bytes; -2 and -1 otherwise |
| Parameters.Params.AuthenticateUser | src/parameters.c:184-192 | true iff some entry is exactly the pair |
| Interests.AdditiveIsUnion | src/selector.c:433-462 | adding interest is set union iff it is not both flags at once onto exactly one |
| Interests.ReductionIsDifference | src/selector.c:464-493 | dropping interest is set difference iff it is not both flags at once from a non-empty mask |
| SelectorTables.PowerAboveIsLeast | src/selector.c:171-179 | the shift loop finds the least power of two above n |
| SelectorTables.CapacityBounds | src/selector.c:171-187 | the capacity is at most 1025, and exceeds n iff n is at most 1024 |
| SelectorTables.EveryDescriptorInBounds | src/selector.c:288-305 | every valid descriptor indexes inside a fresh table iff it was asked for with at least 512 elements; the program asks for 1024 |
| SelectorTables.AppearsByRegister | src/selector.c:333-374 | a descriptor absent before a callback and present after it was registered by it |
| SelectorTables.PassChained | src/selector.c:513-545 | each callback of a pass finds the table as all those before it left it |
| SelectorTables.PassSafety | src/selector.c:513-545 | whatever the callbacks do, each goes to a descriptor registered at that moment with that interest and reported ready, in slot order, at most one read and then one write per slot |
| SelectorTables.PassServesSlot | src/selector.c:520-544 | no slot is skipped: between the calls to lower slots and those to higher ones come exactly the calls the slot is due |
| SelectorTables.ServedAfterAbsence | src/selector.c:513-545 | a descriptor missing at one callback and served later was registered anew in between |
| SelectorTables.NoCallAfterTeardown | src/selector.c:534-542 | a descriptor unregistered by its callback is not served again in the pass; no write follows the read that closed it |
| SelectorTables.TornDownSessionIsNotServed | src/socksv5_server.c:111-135 | a callback that ends in the teardown of its session leaves neither descriptor to be served again in the pass |
| SelectorTables.DeliveredAtMostOnce | src/selector.c:547-569 | while block callbacks change the table, each queued job is delivered at most once, to the descriptor it names, registered at that moment |
| Selectors.Selector.NextCapacity | src/selector.c:171-187 | the loop computes the specified capacity |
| Selectors.Selector.GrowTo | src/selector.c:198-204 | old slots are kept and new ones are unused, whatever realloc left in them |
| Selectors.Selector.EnsureCapacity | src/selector.c:244-286 | success gives a slot to n, keeps every old slot and marks new ones unused; MAXFD exactly above 1024 |
| Selectors.Selector.New | src/selector.c:288-305 | null iff more than 1024 elements are asked for; otherwise an empty table of the specified capacity, in bounds for ever from 512 elements on |
| Selectors.Selector.constructor | src/selector.c:288-305 | an empty table |
| Selectors.Selector.ItemsMaxFd | src/selector.c:209-221 | the highest used descriptor, or 0 |
| Selectors.Selector.UpdateFdSets | src/selector.c:223-237 | both sets agree with the table again when only one descriptor was out of step |
| Selectors.Selector.Register | src/selector.c:333-374 | the representation invariant is kept, and the table gains exactly that entry, or nothing with the right error; an access past the table is reported |
| Selectors.Selector.Occupy | src/selector.c:354-370 | slot, sets and maximum take the new entry |
| Selectors.Selector.UnregisterFd | src/selector.c:376-410 | the invariant is kept, the entry is gone, its slot blank and the maximum recomputed; an unknown descriptor is refused; an access past the table is reported |
| Selectors.Selector.Vacate | src/selector.c:404-406 | the slot is blank and the maximum is again the highest used descriptor |
| Selectors.Selector.StoreInterest | src/selector.c:427-428 | slot and sets take the interest |
| Selectors.Selector.SetInterest | src/selector.c:412-431 | the invariant is kept and only that interest changes; an access past the table is reported |
| Selectors.Selector.SetInterestAdditive | src/selector.c:433-462 | likewise for the addition, sets in step; an access past the table is reported |
| Selectors.Selector.SetInterestReduction | src/selector.c:464-493 | likewise for the reduction, sets in step; an access past the table is reported |
| Selectors.Selector.Callback | src/socksv5_server.c:178-208 | any sequence of selector operations keeps the invariant and does to the table what it says |
| Selectors.Selector.HandleIteration | src/selector.c:513-545 | over the mutable structure, with callbacks changing the table being walked, the calls made and the table left are those of the specified pass |
| Selectors.Selector.HandleSlot | src/selector.c:520-543 | one slot of the walk makes exactly its due calls |
| Selectors.Selector.NotifyBlock | src/selector.c:572-596 | the job goes to the front of the queue |
| Selectors.Selector.HandleBlockNotifications | src/selector.c:547-569 | each queued job is visited once, the queue ends empty, and deliveries and table are those specified |
| Relays.EntryIsSound | src/request_stm.c:73-81 | the relay invariant holds at entry, whatever the two buffers hold |
| Relays.StepKeepsSound | src/copy_stm.c:34-175 | any receive, send, end of file or error keeps conservation, and one that stays in COPY keeps the whole invariant |
| Relays.ConservationOverRuns | src/copy_stm.c:34-175 | over every run, the ending step included: bytes sent, then bytes waiting, are the bytes there at entry, then those received, in each direction |
| Relays.FourCombinations | src/copy_stm.c:77-105 | the flags take four combinations only, and DONE is returned exactly at the last |
| Relays.NeverSendsNothing | src/copy_stm.c:135-138 | a write is dispatched only when there are bytes to send |
| Relays.DoneDelivers | src/copy_stm.c:145-161 | done with one end seen closed: all its bytes reached the other end, which was shut down exactly once |
| Relays.FinishedIsDrained | src/copy_stm.c:77-105 | the step that finishes leaves nothing of the closed end's bytes waiting |
| Relays.MeasureDrops | src/copy_stm.c:163-168 | after the first end of file every event that stays in COPY lowers the measure |
| Relays.HalfClosedTerminates | src/copy_stm.c:163-168 | so at most that many events follow it |
| Relays.StepKeepsTight | src/copy_stm.c:70-75 | a step that stays in COPY keeps write interest exactly where bytes wait |
| Relays.CouplingOverRuns | src/copy_stm.c:70-75 | entered with both buffers empty: over every run write interest exactly where bytes wait, every open direction waited for, never nothing to wait for |
| Relays.LeftoverStalls | src/copy_stm.c:84-91 | with bytes left over from the request, a three-event run ends in COPY with nothing to wait for |
| Relays.StallFreeIffNothingLeftOver | src/copy_stm.c:34-175 | no run can stall iff the client had sent nothing beyond its request |
| Relays.StepKeepsRoomIff | src/copy_stm.c:145-168 | from a state where every read waited for has room, a step that stays in COPY keeps that if and only if it is not a send of some, not all, of a buffer filled to its limit whose source is open |
| Relays.RoomOverRunsIff | src/copy_stm.c:34-175 | over every run from the entry: no read is ever waited for without room if and only if neither buffer was full at entry and no such send was made |
| Relays.NoRoomNoData | src/copy_stm.c:56-60 | a read without room yields no data, so an end of file or an error is seen |
| Relays.FullLeftoverFakesEndOfFile | src/copy_stm.c:77 | a leftover that fills its buffer: the origin is waited for at once, and whatever recv answers is taken for an end of file or an error |
| Relays.CompleteSendsLeaveRoom | src/copy_stm.c:145-168 | while sends take all they are offered, a relay entered with both buffers empty waits for reads with a whole buffer free only |
| Relays.PartialSendFakesEndOfFile | src/copy_stm.c:77 | a run of two events to such a send: the read made then sees an end of file or an error, the peer still open |
| Sessions.ConnectArrival | src/origin_connect_stm.c:14-37 | the entry action stays in ORIGIN_CONNECT or redirects to REQUEST_WRITE |
| Sessions.Arrive | src/stm.c:49-54 | an entry action stays or redirects to a state of higher rank, which bounds the recursion of jump |
| SessionSafety.GreetingReadKeeps | src/greeting_stm.c:28-60 | any greeting, any cut, any error: the invariant is kept |
| SessionSafety.GreetingWriteKeeps | src/greeting_stm.c:79-108 | any send: the invariant is kept, the request reached only without the password method on offer |
| SessionSafety.AuthReadKeeps | src/auth_stm.c:25-66 | any credentials, any cut, any error: the invariant is kept |
| SessionSafety.AuthWriteKeeps | src/auth_stm.c:68-97 | any send: the invariant is kept, the request reached only with an accepted pair |
| SessionSafety.RequestReadKeeps | src/request_stm.c:28-58 | the invariant is kept iff the name is not empty and an address given as a number is answered "in progress" |
| SessionSafety.RequestWriteKeeps | src/request_stm.c:60-93 | the invariant is kept iff ten bytes are free |
| SessionSafety.VerifyKeeps | src/origin_connect_stm.c:200-241 | every outcome of the pending connect keeps the invariant |
| SessionSafety.ConnectBlockKeeps | src/origin_connect_stm.c:160-197 | the invariant is kept iff there is no address or the first is answered "in progress" |
| SessionSafety.LaterAddressesDoNotHelp | src/origin_connect_stm.c:171-188 | after a first address with another answer no later one restores the invariant |
| SessionSafety.CopyKeeps | src/copy_stm.c:34-206 | a relayed event keeps the session's invariant iff no credential overruns the tracker's array |
| SessionSafety.StepKeepsInvIffCopesWith | src/socksv5_server.c:178-208 | for every state and every event the selector can dispatch, the session's invariant survives iff the request names a host, an address tried first is answered "in progress", a reply finds ten bytes free, no send meets a connection that was reset, and no credential overruns the tracker's array |
| SessionSafety.NewSessionIsInv | src/socksv5_server.c:57-97 | it holds of a new session |
| SessionSafety.InterestHasHandler | src/stm.c:67-115 | read or write interest, or an outstanding resolution, means that the current state has that handler |
| SessionSafety.AlwaysWaiting | src/socksv5_stm.c:18-64 | a live session has an event to wait for, but in COPY after a client that sent bytes beyond its request |
| SessionSafety.ResolvingIsQuiet | src/origin_connect_stm.c:110-127 | while a resolution is outstanding: ORIGIN_CONNECT, no client interest, no origin descriptor, no other event possible |
| SessionSafety.HandlersClimb | src/socksv5_stm.c:18-64 | each handler returns its own state or one of higher rank, and COPY only from REQUEST_WRITE or COPY |
| SessionSafety.JumpClimbs | src/stm.c:38-56 | redirections settle at the state asked for or above |
| SessionSafety.StatesClimb | src/stm.c:58-120 | a session that lives on is in the same state or in one of strictly higher rank |
| SessionSafety.JumpOpensAtMostOnce | src/origin_connect_stm.c:23-25 | no redirection opens a second socket or resolution, and only ORIGIN_CONNECT starts one |
| SessionSafety.StepEffects | src/origin_connect_stm.c:110-197 | a registered origin stays, a resolution starts below ORIGIN_CONNECT only, and its answer ends it |
| SessionSafety.OneSendOneReply | src/request_stm.c:65-83 | when one send takes ten bytes the reply was sent exactly once |
| SessionSafety.ShortSendRepeatsReply | src/request_stm.c:65 | when it takes fewer, the rest stays and the next call puts a second copy behind it |
| SessionSafety.CopyIsEarned | src/request_stm.c:73-81 | COPY is entered only from a drained reply of success over a registered connection seen with error 0 |
| SessionSafety.OnlyRepliesLeadToCopy | src/request_stm.c:81 | only a write to the client in REQUEST_WRITE leads to COPY |
| SessionSafety.RefusedAddressAborts | src/origin_connect_stm.c:94-97 | an only address refused at once: the reply goes out, then the teardown aborts the process |
| SessionSafety.ConnectedAtOnceIsStuck | src/origin_connect_stm.c:90-100 | an only address that connects at once: the session stays in ORIGIN_CONNECT and no event can be dispatched to it any more |
| SessionSafety.NumericConnectedAtOnceIsStuck | src/origin_connect_stm.c:68-78 | likewise when the request names the address itself |
| SessionSafety.SecondAddressMisfires | src/origin_connect_stm.c:171-188 | a first address refused, a second pending: the client's writability is taken for the origin's, and success reported |
| SessionSafety.SecondAddressRecoversIff | src/origin_connect_stm.c:171-241 | such a session recovers iff the next write dispatched is that of the origin, or getsockopt fails |
| SessionAnswers.StepHandles | src/socksv5_server.c:178-208 | any event the selector can dispatch, with any answer: the process ends exactly when the request names no host, a credential overruns the tracker's array, the reply has no room, a send meets a connection that was reset (SIGPIPE, which src/main.c:100-101 does not handle), or a session whose socket the selector does not know ends after its reply or a failed getsockopt; otherwise the session waits only for what its state handles |
| SessionAnswers.HandlerHandles | src/socksv5_stm.c:18-64 | the same for each handler: its outcome is fit to stay or to enter the state it returns |
| SessionAnswers.HandledHasHandler | src/stm.c:67-115 | so interest, or an outstanding resolution, means that the state has that handler |
| SessionAnswers.AwaitingIsQuiet | src/origin_connect_stm.c:110-127 | a session whose resolution is outstanding waits for nothing else and has no socket |
| SessionAnswers.HandledEffects | src/origin_connect_stm.c:110-197 | whatever is answered: a registered origin stays, a resolution starts below ORIGIN_CONNECT only, and its answer ends it |
| SessionAuth.StepKeepsAuth | src/socksv5_server.c:178-208 | any event whatever, dispatchable or not, with any answer, keeps this: a session in or past REQUEST_READ is authorised, one before holds what its state has established |
| SessionAuth.JumpKeepsAuth | src/stm.c:38-56 | redirections keep it |
| SessionAuth.HandlerIsFit | src/socksv5_stm.c:18-64 | every handler leaves the session fit to stay in its state or to enter the one it returns |
| SessionAuth.AuthUnderMoreUsers | src/parameters.c:60-72 | adding users keeps it |
| SessionReply.StepKeepsReplies | src/socksv5_server.c:178-208 | any event whatever, dispatchable or not, with any answer, keeps this: before REQUEST_WRITE nothing was sent in answer to a request; in REQUEST_WRITE the bytes sent, to either end, and those waiting are whole copies of the reply, "succeeded" only after a connection seen with error 0; COPY began behind whole replies of success and loses no byte |
| SessionReply.JumpKeepsReplies | src/stm.c:38-56 | redirections keep it |
| SessionReply.HandlerIsFit | src/socksv5_stm.c:18-64 | every handler leaves the session fit to stay in its state or to enter the one it returns |
| SessionReply.StepConserves | src/copy_stm.c:34-175 | whatever recv and send return, also more bytes than there is room for, a step of the relay loses no byte and makes none up |
| SessionReply.SameRepliesHold | src/copy_stm.c:38-75 | interests, flags and shutdowns set from outside do not touch it |
| SessionReply.WalkEnds | src/origin_connect_stm.c:171-188 | the walk over the addresses ends at a socket that the selector does not know iff some address connects at once after none or some refused |
| SessionReply.ResolvedKeepsKnownIff | src/origin_connect_stm.c:160-197 | after the answer to a resolution the client is written to over a registered socket only, if and only if it is not a refused address followed, behind any more, by one that connects at once |
| SessionReply.StepKeepsKnown | src/origin_connect_stm.c:200-241 | every other event that the selector can dispatch keeps that, so a reply of success goes out over a registered socket |
| SessionReply.SuccessWithoutConnection | src/origin_connect_stm.c:171-188 | a first address refused, a second that connects at once: the client is told of success over a socket that the selector does not know |
| SessionCopy.CopyStepIsRelayStep | src/copy_stm.c:34-206 | an event of a session in COPY is the relay's step, the tracker beside it |
| SessionCopy.CopyRunIsRelayRun | src/copy_stm.c:34-206 | a session's life in COPY is a run of the relay, so all that is proved of runs holds of it |
| SessionCopy.SessionNeverStalls | src/copy_stm.c:70-75 | from an entry with nothing left over, a session in COPY is coupled and never stalls |
| SessionCopy.TrackerFollows | src/copy_stm.c:64-66 | the tracker ends where feeding it the origin's traffic in order does |
| SessionCopy.SessionTracksCredentials | src/copy_stm.c:184-206 | a POP3 dialog over the origin's descriptor leaves its credentials in the tracker |
| SessionProgress.GreetingIsServed | src/greeting_stm.c:28-108 | a greeting in any pieces is answered with the selected method and leads to the state that method asks for |
| SessionProgress.LoginIsServed | src/auth_stm.c:25-97 | an accepted pair in any pieces leads to REQUEST_READ, the user recorded |
| SessionProgress.RequestIsHeard | src/request_stm.c:28-58 | a valid request in any pieces sets the session out to its origin: a pending connect, or a resolution |
| SessionProgress.RequestIsServed | src/request_stm.c:28-93 | a valid request in any pieces, numeric or a name, leads to COPY once the connect succeeds, one reply sent |
| SessionProgress.WellBehavedClientReachesCopy | src/socksv5_server.c:178-208 | end to end: from a new session, any well-behaved client in any cutting, also sending ahead, with answers taken whole or byte by byte, reaches COPY with its address, its ten-byte reply sent once and exactly the bytes beyond its request left over |
| SessionProgress.MessageIsRead | src/request_parser.c:17-32 | a message that waits in part or in whole in the buffer, then comes in pieces, is read to its end, and exactly what came beyond waits |
| SessionProgress.OnlyNewBytesMoveAReader | src/request_stm.c:28-58 | a session that waits for a message lives on only by receiving at least one more byte of its client |
| SessionProgress.RequestSentAheadWaits | src/request_stm.c:28-58 | a client that sent its request with its greeting and then waits is not served: the request lies unread, and only its own next byte can change that |
| SessionProgress.WaitingRequestIsServedIff | src/request_stm.c:28-58 | a request wholly sent ahead can still be served if and only if the next event is the arrival of more bytes |
| SessionProgress.ShortSendTakesTenBytes | src/request_stm.c:65-86 | a send of one byte costs the buffer ten bytes of room |
| SessionProgress.ReplyOverrunsItsBuffer | src/request_stm.c:65 | after 500 sends of one byte the next reply is written past the buffer's end |
| SessionProgress.WrongVersionThenByteByByte | src/request_stm.c:46-86 | a run from a new session to that write: a greeting, one byte of a wrong version, and 500 sends of one byte |
| SessionProgress.OffendingRequestIsRefused | src/request_stm.c:46-51 | a request with an offending field is answered with the code of the first one and closed |
| SessionProgress.FailedConnectIsReported | src/origin_connect_stm.c:209-219 | a failed connect is answered with the code of section 6 of RFC 1928 for its error and closed |
| SessionProgress.UnresolvedNameIsReported | src/origin_connect_stm.c:166-168 | a name without addresses is answered "host unreachable" and closed |
| SessionProgress.UnknownUserIsTurnedAway | src/auth_stm.c:49-51 | a pair the table does not accept is answered [1, 1] and closed |
| SessionProgress.NoMethodIsTurnedAway | src/greeting_stm.c:63-77 | a greeting without an acceptable method is answered [5, 255] and closed |
| Handlers.Receive | src/auth_stm.c:30-36 | recv into the free part of a buffer appends exactly the bytes received |
| Handlers.GreetingStm.constructor | src/socksv5_server.c:57-93 | the structure over the session's two buffers |
| Handlers.GreetingStm.Init | src/greeting_stm.c:16-26 | shows the session after the entry action |
| Handlers.GreetingStm.SelectMethod | src/greeting_stm.c:63-77 | the early-exit scan: password if offered anywhere, else no authentication if offered, else none acceptable |
| Handlers.GreetingStm.Read | src/greeting_stm.c:28-60 | structure, buffers and selector show the session after the step, and no other descriptor changes |
| Handlers.GreetingStm.Consumed | src/greeting_stm.c:40-53 | the same for the part after the parser |
| Handlers.GreetingStm.Answer | src/greeting_stm.c:43-51 | client interest to write, the answer in the buffer, or an error without room |
| Handlers.GreetingStm.Write | src/greeting_stm.c:79-108 | structure, buffers and selector show the session after the step |
| Handlers.AuthStm.constructor | src/socksv5_server.c:57-93 | the structure over the session's two buffers |
| Handlers.AuthStm.Init | src/auth_stm.c:13-23 | shows the session after the entry action |
| Handlers.AuthStm.Read | src/auth_stm.c:25-66 | structure, buffers and selector show the session after the step against the current table of users, the overrun without room included |
| Handlers.AuthStm.ParseReceived | src/auth_stm.c:38 | the consume call shows the session with its parser advanced |
| Handlers.AuthStm.Consumed | src/auth_stm.c:39-59 | the same for the part after the parser |
| Handlers.JudgedIsConsumed | src/auth_stm.c:39-59 | the step is the look-up, then the status |
| Handlers.AuthStm.Judge | src/auth_stm.c:39-53 | a parsed pair is looked up, and nothing but status and user changes |
| Handlers.AuthStm.Answer | src/auth_stm.c:54-57 | client interest to write, the status in the buffer iff two bytes are free |
| Handlers.AuthStm.LookUp | src/auth_stm.c:41 | the terminated arrays are looked up as the parsed credentials |
| Handlers.AuthStm.Authenticate | src/auth_stm.c:40-51 | success and the user recorded iff the table accepts the parsed pair |
| Handlers.AuthStm.Write | src/auth_stm.c:68-97 | structure, buffers and selector show the session after the step |
| Handlers.RequestStm.constructor | src/socksv5_server.c:83-93 | the structure without an origin descriptor |
| Handlers.RequestStm.SetInterestOf | src/selector.c:412-431 | only that end's interest changes |
| Handlers.RequestStm.SetReply | src/origin_connect_stm.c:96 | only the reply code changes |
| Handlers.RequestStm.ReadInit | src/request_stm.c:15-25 | shows the session after the entry action |
| Handlers.RequestStm.Read | src/request_stm.c:28-58 | structure, buffer and selector show the session after the step, the write through null included |
| Handlers.RequestStm.Consumed | src/request_stm.c:39-51 | the same for the part after the parser |
| Handlers.RequestStm.Write | src/request_stm.c:60-93 | the reply is put in, sent and counted out as the step says, the overrun without room included |
| Handlers.RequestStm.PutReply | src/request_stm.c:65 | the reply joins the buffer iff ten bytes are free |
| Handlers.RequestStm.SendWaiting | src/request_stm.c:67-93 | what waits is sent and counted out |
| Handlers.ReplyStepStatus | src/request_stm.c:65 | the step aborts for lack of room alone |
| Handlers.RequestStm.SendReply | src/request_stm.c:71-72 | the bytes taken are counted out |
| Handlers.RequestStm.ReplySent | src/request_stm.c:73-87 | the state that follows a drained or an undrained reply |
| Handlers.RequestStm.EnterCopy | src/request_stm.c:74-81 | both ends are read, or an error iff the origin is not registered |
| Handlers.RequestStm.ReadOrigin | src/request_stm.c:78-80 | the origin is read iff the selector knows it |
| Handlers.RequestStm.ConnectThroughIp | src/origin_connect_stm.c:39-108 | registered for writing iff in progress; refused: the reply code and the client's interest |
| Handlers.RequestStm.AwaitConnect | src/origin_connect_stm.c:69-72 | the new descriptor is registered for writing |
| Handlers.RequestStm.Refused | src/origin_connect_stm.c:73-107 | the reply code and the client's interest, nothing else |
| Handlers.RequestStm.ConnectInit | src/origin_connect_stm.c:14-37 | the entry action by address type, a resolver started exactly for a name, nothing when an origin exists |
| Handlers.RequestStm.TryAddress | src/origin_connect_stm.c:172-187 | one address: either it settles the walk, or only the client's interest changed |
| Handlers.RequestStm.TryAll | src/origin_connect_stm.c:171-188 | the loop over the addresses finds the first not refused at once |
| Handlers.RequestStm.ConnectBlock | src/origin_connect_stm.c:160-197 | structure and selector show the session after the whole walk |
| Handlers.RequestStm.GiveUp | src/origin_connect_stm.c:191-196 | client interest to write and "host unreachable" |
| Handlers.RequestStm.VerifyConnection | src/origin_connect_stm.c:200-241 | interests and reply of every outcome, also for a session whose socket the selector does not know |
| Handlers.RequestStm.CodeOf | src/origin_connect_stm.c:209-228 | the code of each socket error |
| Handlers.PeerWokenIffDescriptorIsShort | src/copy_stm.c:38-75 | after a receive the peer waits to be written iff its descriptor fits the eight bits it passes through |
| Handlers.ReadIsRelayed | src/copy_stm.c:34-111 | when the other end's descriptor fits eight bits, the table after copy_read is that of the relay's step, every other entry as before |
| Handlers.WriteIsRelayed | src/copy_stm.c:114-175 | likewise after copy_write |
| Handlers.CopyStm.constructor | src/copy_stm.c:21-32 | the structure over both buffers, for any two descriptors |
| Handlers.CopyStm.Init | src/copy_stm.c:21-32 | all four flags up |
| Handlers.CopyStm.CheckCloseConnection | src/copy_stm.c:177-182 | DONE iff all four flags are down |
| Handlers.CopyStm.Read | src/copy_stm.c:34-111 | for any descriptors: buffers, flags and tracker after copy_read are those of the relay's step, the table is exactly the one the narrowed descriptor gives, an unknown one is an error, and the shutdown is issued on the narrowed descriptor iff an end of file leaves nothing to deliver; when it fits, interests too are the relay's |
| Handlers.CopyStm.DataRead | src/copy_stm.c:60-75 | the same for bytes received |
| Handlers.CopyStm.EndRead | src/copy_stm.c:77-104 | the same for an end of file or a reset |
| Handlers.CopyStm.ReceiveData | src/copy_stm.c:56-68 | the bytes join the right buffer, and the tracker sees the origin's |
| Handlers.CopyStm.Watch | src/copy_stm.c:64-66 | the tracker sees bytes of the origin's descriptor only |
| Handlers.CopyStm.Received | src/copy_stm.c:70-75 | source no longer read, the descriptor of the peer's low eight bits to be written, an error if none is registered there |
| Handlers.CopyStm.EndOfFile | src/copy_stm.c:83-104 | flags of an end of file, and the shutdown on the descriptor of the peer's low eight bits iff nothing is left to deliver |
| Handlers.CopyStm.StopReading | src/copy_stm.c:83-91 | neither end is read any more, the ended one not written |
| Handlers.CopyStm.Write | src/copy_stm.c:114-175 | for any descriptors, likewise for copy_write, whatever send returned; the shutdown is issued on the written end itself iff its last byte went out and its source is closed |
| Handlers.CopyStm.Took | src/copy_stm.c:138-172 | the same for a send that took something |
| Handlers.Front | src/copy_stm.c:132-134 | the bytes handed to send are the oldest ones |
| Handlers.CopyStm.CountOut | src/copy_stm.c:144 | exactly the bytes taken leave the right buffer, the tracker untouched |
| Handlers.CopyStm.SendData | src/copy_stm.c:135-144 | exactly the bytes taken leave the right buffer, shown to the tracker when the origin took them |
| Handlers.CopyStm.BytesGone | src/copy_stm.c:145-169 | flags, table and outcome after a send |
| Handlers.CopyStm.Emptied | src/copy_stm.c:145-161 | flags, table and outcome after a send that drained the buffer |
| Handlers.CopyStm.CloseEnd | src/copy_stm.c:150-160 | the drained end of a closed source is shut down |
| Handlers.CopyStm.ReadAgain | src/copy_stm.c:163-168 | the descriptor of the source's low eight bits is read again iff the source is open |
| StateMachines.StateAt | src/socksv5_stm.c:18-64 | the rows are in the order of the enumeration |
| StateMachines.TableDescribesHandlers | src/socksv5_stm.c:18-64 | each row sits at its state's number and names exactly the handlers the step functions have |
| StateMachines.StateMachine.constructor | src/socksv5_server.c:86-90 | the machine of a new session passes its own check |
| StateMachines.StateMachine.Init | src/stm.c:11-25 | accepted iff every row sits at its number and the initial state is below the last |
| StateMachines.StateMachine.HandleFirst | src/stm.c:27-36 | the initial state is entered once, at the first event |
| StateMachines.StateMachine.JumpTo | src/stm.c:38-56 | the recursion terminates and settles as specified |
| StateMachines.StateMachine.Enter | src/stm.c:47-50 | state and data after the entry action, and the state it asks for |
| StateMachines.StateMachine.Handle | src/stm.c:58-120 | the abort for a missing handler happens exactly where the specified step aborts |
| StateMachines.StateMachine.Dispatch | src/socksv5_server.c:178-208 | one callback of the selector takes the session through exactly one specified step, teardown included |
| Servers.AcceptKeeps | src/socksv5_server.c:16-43 | an accept keeps the server sound: sessions, table, threads, queue and history agree, and every interest is handled |
| Servers.AddUserKeeps | src/parameters.c:60-72 | adding a user keeps it |
| Servers.ThreadEndsKeeps | src/selector.c:572-596 | a resolver thread that ends and queues its job, at any moment, keeps it |
| Servers.LockKeeps | src/selector.c:552-568 | taking and releasing the mutex keeps it |
| Servers.UpdateKeeps | src/socksv5_server.c:111-135 | putting back a session that acted on its own descriptors, or tearing it down, keeps it |
| Servers.PeerIsReached | src/copy_stm.c:38-54 | while registered descriptors are below 256, every COPY event acts on its own peer |
| Servers.StepKeeps | src/selector.c:513-545 | an event that acts on the session's own descriptors and does not abort keeps it |
| Servers.DispatchKeeps | src/selector.c:513-545 | while registered descriptors are below 256: dispatching any enabled event to any session, whatever is answered, aborts exactly as the session's step does, and otherwise keeps it |
| Servers.JobFindsItsSession | src/selector.c:555-561 | a queued job finds, through its descriptor, the very session that asked, alive, in ORIGIN_CONNECT, quiet and able to take it |
| Servers.DeliverKeeps | src/selector.c:553-566 | one delivery, whatever the addresses answer, removes the first job, notifies its owner and keeps it |
| Servers.ActKeeps | src/main.c:116-122 | any possible action aborts exactly in those cases, and otherwise keeps it |
| Servers.RunKeeps | src/main.c:116-122 | every interleaving of accepts, dispatches, resolver threads, drains and user additions, with descriptors below 256 and any answers, keeps it up to an abort |
| Servers.ActKeepsInvOf | src/main.c:116-122 | a session's own invariant is kept by every action whose answers to that session the source copes with, whatever the others get |
| Servers.RunKeepsInvOf | src/main.c:116-122 | likewise over every run |
| Servers.GoodRunKeeps | src/main.c:116-122 | when the source copes with the answers to all sessions, nothing aborts and all keep their invariants |
| Servers.NewServerIsInv | src/main.c:116 | all of it holds at the start, whatever the listening sockets |
| Servers.EveryInterestHasItsHandler | src/stm.c:67-115 | over every run with descriptors below 256, whatever is answered and up to an abort: no registered descriptor waits for an event its session's state does not handle |
| Servers.AbortsIff | src/stm.c:67-115 | and the next action ends the process iff it is a dispatch in one of the cases of SessionAnswers.Aborts, SIGPIPE and the overrun of the tracker included |
| Servers.GoAstrayKeepsAuth | src/copy_stm.c:74-75 | interest added to a descriptor of another session takes no session past its authentication |
| Servers.RunKeepsAuth | src/main.c:116-122 | over any actions whatever, no session is further than what it has shown of itself allows |
| Servers.AuthenticationIsNeverSkipped | src/auth_stm.c:38-58 | over every run, with any descriptors and any answers: a session that may request offered method 0 and not 2, or named a pair the table accepts now |
| Servers.GoAstrayKeepsReplies | src/copy_stm.c:74-75 | interest added to a descriptor of another session changes nothing of what was answered |
| Servers.RunKeepsReplies | src/main.c:116-122 | over any actions whatever, every session has answered as its state says |
| Servers.RelayingIsEarned | src/request_stm.c:73-81 | over any actions whatever, with any descriptors and any answers: a session that relays was entered over a registered connection seen with error 0, the reply bytes it sent, to either end, are whole replies of success, and it conserves the bytes it relays |
| Servers.EveryReplyIsWhole | src/request_stm.c:60-93 | over any actions whatever: the bytes sent in answer to a request, to either end (request_write may run on the origin's descriptor), then those waiting, are whole copies of the ten-byte reply, "succeeded" only after a connection seen with error 0 |
| Servers.RunKeepsKnown | src/main.c:116-122 | over every run with descriptors below 256 in which the resolver does not mislead this session, whatever else is answered: it writes to its client over a registered socket only |
| Servers.SuccessIsOverRegistered | src/origin_connect_stm.c:221-231 | over such a run a reply of success goes out over a registered origin; SessionReply.ResolvedKeepsKnownIff has the exact condition |
| Servers.EachJobIsDeliveredOnce | src/selector.c:547-596 | over every run with descriptors below 256, whatever is answered and up to an abort: the jobs delivered are the jobs removed, no session's twice, and a queued job's descriptor is its owner's |
| Servers.NoSessionIsForgotten | src/socksv5_stm.c:18-64 | over every run with descriptors below 256 in which the source copes with the answers to this session, whatever the others get: up to an abort it has a descriptor waited for, or a resolution running or queued, unless it relays with leftover bytes |
| ServerAstray.ToleratesIff | src/selector.c:433-462 | interest added to a session from outside leaves its invariant iff it waits for that already, or relays with bytes for that end, or still hears it |
| ServerAstray.AstrayIsInvIff | src/copy_stm.c:70-75 | a session whose interest did not reach the other end keeps its invariant iff that end need not be woken, and no interest of its own repairs it |
| ServerAstray.DisturbSurvivesIff | src/selector.c:433-462 | interest that lands on a registered descriptor leaves the server's invariant iff its owner tolerates it |
| ServerAstray.AstrayEnds | src/copy_stm.c:74-76 | interest for an unregistered descriptor tears the session down, and the rest stands |
| ServerAstray.CopySurvivesIff | src/copy_stm.c:34-175 | for every COPY event, with any descriptors and any leftover: the server's invariant survives iff the source copes with the event and the peer's descriptor is at most 255, or the session ends or asks for no interest, or the low eight bits name no registered descriptor, or neither the session nor their owner minds |
| ServerAstray.DataSurvivesIff | src/copy_stm.c:38-75 | so for the first bytes relayed to an end: iff no credential overruns the tracker's array and its descriptor is at most 255 or the low bits name none that is registered, and with its session iff it is at most 255 |
| ServerAstray.CopyBeginsSilent | src/request_stm.c:73-81 | COPY is entered over a registered origin that is only read |
| ServerAstray.GoAstrayStaysSilent | src/copy_stm.c:34-175 | interest that goes astray never reaches a descriptor above 255 |
| ServerAstray.LongOriginGetsNothing | src/copy_stm.c:39-75 | over every run, with any answers and any descriptors: an origin whose descriptor is above 255 never waits to be written in COPY, and nothing its client sends reaches it |
| ServerLimits.InvariantIffDescriptorsAreShort | src/copy_stm.c:38-75 | the invariant holds over every run with descriptors below a limit if and only if the limit is at most 256 |
| ServerLimits.LongDescriptorBreaks | src/main.c:51 | a run to an origin on descriptor 256, whose low bits are those of the listening socket: a byte of the client waits, the origin does not, and the invariant is broken |
| ServerLimits.LongDescriptorAborts | src/stm.c:84-86 | a run that aborts the process, by none of the cases of SessionAnswers.Aborts: an origin 256 above the descriptor of a session that has just been accepted |
| ServerLimits.LiftEvents | src/socksv5_server.c:178-208 | what leads one session on, event by event, is a run of the server that leaves every other session alone |
| ServerLimits.PairIsReached | src/socksv5_server.c:178-208 | any two descriptors can come to be those of a relaying session |
| ServerLimits.TableIsBounded | src/socksv5_server.c:16-43 | a server has two registered descriptors a session at most, and one fewer while an origin is still to be opened |
| ServerLimits.FewSessionsAreShort | src/main.c:51 | when the kernel hands out the lowest free descriptor, at most n sessions live at a time and at most k other descriptors are open, with 2n + k at most 256: every run is one with descriptors below 256 |
| ServerMisdelivery.AskerComes | src/origin_connect_stm.c:110-127 | a session can be accepted on any free descriptor and brought to wait for a resolution, everything else left alone |
| ServerMisdelivery.LongDescriptorMisdelivers | src/selector.c:547-569 | a run, with answers that the source copes with, in which an origin 256 above the descriptor of a resolving session has that session closed, its descriptor accepted anew, and the answer to its resolution given to the newcomer, the newcomer's own still running |
| ServerPass.TurnIsRequested | src/selector.c:412-493 | what one callback asks of the selector, an accept, a session that goes on, opens its origin or is closed, makes the selector's table that of the server after it |
| ServerPass.SlotIsTurns | src/selector.c:520-544 | one slot of the pass makes exactly the callbacks of the server that are due, on the server as it is then |
| ServerPass.PassIsRun | src/selector.c:513-545 | a pass of the selector over the table of a server, whichever descriptors are ready and whatever is answered: its calls are the callbacks of a run of the server, and the table it leaves is the server's; Selectors.Selector.HandleIteration makes that pass in place |
| ServerPass.DeliveryIsRequested | src/selector.c:555-561 | what one delivery asks of the selector makes its table that of the server after it |
| ServerPass.DrainIsRun | src/selector.c:547-569 | a drain of the queue under the mutex is a run of the server, each notification reaches the session that asked for it, and the table it leaves is the server's; Selectors.Selector.HandleBlockNotifications makes that drain in place |
| SessionLists.ListIsTheLiveSessions | src/metrics.c:9-16 | after any accepts and teardowns: exactly the sessions accepted and not torn down, in accept order; concurrent = historical - closed = length, at most 500 |
| SessionLists.ApplyKeepsSane | src/metrics.c:9-16 | one accept or teardown keeps the counters and changes at most one session's membership |
| SessionLists.Node.constructor | src/socksv5_server.c:59-64 | a zeroed structure is linked to nothing |
| SessionLists.Pool.constructor | src/socksv5_server.c:14 | the list starts empty |
| SessionLists.Pool.Append | src/socksv5_server.c:66-79 | the walk to the end appends, and both directions of links stay right |
| SessionLists.Pool.Accept | src/socksv5_server.c:16-43 | refused iff 500 sessions live; otherwise appended and counted |
| SessionLists.Pool.Destroy | src/socksv5_server.c:137-152 | unlinking first, middle or last removes exactly that session |
| SessionLists.Pool.Done | src/socksv5_server.c:111-135 | the session leaves list and counter |
| SessionLists.Pool.DestroyPool | src/socksv5_server.c:99-109 | the loop ends with an empty list |

## Left out

- Environment: sockets, signals other than SIGPIPE, `pselect` with its timeout, `getaddrinfo`, logging, argument parsing and listening sockets appear only through their answers.
- Failures assumed away: memory allocation, `socket`, `fcntl`, registration of a descriptor the kernel has just opened, and thread creation succeed.
- Admin server, its parsers, its own session list and the client program: they repeat the authentication layer in a simpler form.
- Timeouts: no state defines a timeout handler and nothing calls one.
- `set_buff_size` and the counter of bytes transferred: neither affects a session.
- Release of memory: the parsers' arrays and the resolved address lists are not freed in the model.
- Resolution results: an address is reduced to its family and the outcome of connecting to it; Servers lets any enabled session be next, of which the order of a pass of the selector is one (ServerPass.PassIsRun).
- Session engine: StateMachines runs the specified handlers on a session held as a value, and Handlers proves the in-place handlers against the same step functions; the two are not joined into one object, nor is the list of SessionLists threaded through it.
- Selectors.Selector.Register: an access past the end of the table is a result of its own, `OutOfTable`, and changes nothing, where the source reads and writes what lies behind; SelectorTables.EveryDescriptorInBounds says when there is none.
- Selectors.Selector.UnregisterFd: the close callback, which no handler of the program defines, is not called.
- Histories of replies: `replySent` counts the bytes sent to either end, since request_write may run on the origin's descriptor; which end took which byte is not kept.
- Histories of shutdowns: the relay notes a shutdown on the peer; with a descriptor above 255 the source issues it on that of the low eight bits (Handlers.CopyStm.EndOfFile), so Servers.Astray takes the note back, and the owner of those bits meets it as an answer of the network.
- A session resolved twice, which needs an event that went astray: what happens on the origin descriptor it has forgotten is taken for an event of its origin, where COPY would exit.
- Servers.EveryInterestHasItsHandler: for descriptors below 256; ServerLimits.LongDescriptorAborts shows that the bound cannot be dropped. The same holds of Servers.AbortsIff.
- Servers.EachJobIsDeliveredOnce: for descriptors below 256; ServerMisdelivery.LongDescriptorMisdelivers shows that the bound cannot be dropped.
- Servers.NoSessionIsForgotten: for descriptors below 256 and answers to the session itself as in SessionSafety.CopesWith, which SessionSafety.StepKeepsInvIffCopesWith shows to be the exact condition for its invariant; Servers.AuthenticationIsNeverSkipped, Servers.RelayingIsEarned and Servers.EveryReplyIsWhole need neither.
- ServerLimits.FewSessionsAreShort: one direction; that more sessions do reach descriptor 256 is not shown.
- ServerPass.PassIsRun: for descriptors below 256 and up to an abort; the wait for readiness itself is not modelled, any set of descriptors may be ready.
- Descriptors of the admin server count as descriptors of no session, fixed for the run.
- SessionCopy.SessionNeverStalls: for sessions whose client sent nothing beyond its request; Relays.StallFreeIffNothingLeftOver shows that the condition is exact.
- SessionProgress.WellBehavedClientReachesCopy: the ten-byte reply is taken by one send, since a shorter one has it sent again (SessionSafety.ShortSendRepeatsReply), and the first resolved address answers "in progress".
- SessionLists.Pool.DestroyPool: at shutdown the list is emptied but the counters are left as they are, as in the source.
