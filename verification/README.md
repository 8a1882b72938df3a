# ESP32ControlLogix, modelled and proved

A Dafny model of the EtherNet/IP and CIP client stack in `src/`, of the synthetic peer in
`tools/synthetic_eip_server.py`, and of the two algorithmic examples. `dafny verify dfyconfig.toml`
checks all of it.

Every layer of the stack is a non-blocking state machine advanced by `poll()` over a byte stream that
may deliver or accept any number of bytes per call. The model keeps that shape. For each stateful class
of the source there is

- a value (`Msg`, `Session`, `Tag`, `Client`, `Conn`, `Server`, `Lister`, `Scanner`) with one function per
  call, which says what the call does to it, and
- a Dafny class with the source's fields and loops, updated in place, whose methods are proved to do
  exactly what those functions say.

The theorems are about the functions, so they hold of the classes. The socket is a value too: two byte
streams and a `script` of outcomes (some bytes move, the peer is gone, another fault), so a statement for
every script is a statement for every fragmentation. The clock is an unbounded natural number, read modulo
2^32 as the device reads it. Buffers have the source's sizes, and every write into them is proved in bounds.

## Files

| file | what it holds |
|---|---|
| Bytes, Status, Encapsulation | machine words, little-endian codec, result codes, wrapped deadlines, the 24-byte header |
| Stream, Framing | the socket; sending one frame and receiving one frame in fragments |
| Cip, Cpf | path segments; item lists and the two item walks |
| Message, StaleReplies | unconnected exchanges; whole runs of one message object |
| Server, Peer | the synthetic peer as functions and as a class |
| Courier, Exchange | carrying one request and its reply over a socket; client and peer together: an exchange is one atomic call |
| Tags, TagRoundTrip | tags and their accessors; write-then-read through client and peer |
| Session | RegisterSession and UnregisterSession |
| Client, ClientRuns | the client with its tag pool and re-entrant callbacks; invariants of all its runs |
| Silence | the operation without a callback, and a run that reaches it |
| Wedge, Reuse, Inherit | destroying a busy tag: what it blocks and for how long; what the next tag in the slot reports; a reply that lands in another tag |
| StreamDiscipline | what the shared socket carries over a whole clean run |
| SessionExchange, Lifecycle, Standstill, Connecting | registration and unregistration against the peer; exactly when a disconnect finishes, and what frees a stuck one; exactly when a connect fails |
| Channel, ChannelRuns, ChannelExchange | Forward Open, connected exchanges, Forward Close, alone and against the peer |
| Forgetting | a run in which an open connection loses its O->T ID |
| ListTags, Enumeration | the record parser and paging loop of the tag inventory |
| LanScan | the subnet walk |

## Where the code and its documentation part ways

The model follows the code in each case.

- The repository's `README.md:257` and `README.md:228` give 256 bytes for the largest CIP request of `ExplicitMessage` and
  of `Connection`; the headers say 512 and 508.
- Its `README.md:176` and `src/PlcClient.h:25` say the tag callback is invoked once when a tag's read or write
  completes. An operation that is no longer in flight in a slot in use has had its callback if and only if
  some poll saw it pending and it was not aborted, destroyed, or finished without a callback installed since
  the last such poll (`ClientRuns.CompletionCallbacks`). One that completes in its first poll has none and
  never gets one (`Silence.FirstPollIsSilent`, on a run from a new client `Silence.AnOperationWithoutACallback`).
- Destroying a tag in flight hides its operation. A ready client with no tag busy refuses a read as busy exactly
  when a slot is hidden so (`Wedge.BusyExactlyWhen`, reached by `Reuse.WedgeIsReachable`). It stays so, over
  reconnects too, exactly until that slot is created again (`Wedge.WedgedExactlyUntilCreated`); then polling
  settles it (`Reuse.CreatedAgainSettles`).
- Creating a tag leaves the tag object of its slot as it was. A new tag can so report the operation of another
  name, and its data can be the value the peer holds under that name (`Inherit.OtherNamesValue`, on a run from a
  new client `Inherit.InheritedRun`). Tags report their own operations exactly on the runs without such a create
  (`Reuse.TagsAreTheirOwnExactlyWhen`).
- `disconnect()` reuses the registration deadline, and `Disconnecting` ignores a timeout and an error. Over any
  run a client is stuck in a disconnect if and only if some poll made while it was under way came at or after
  that deadline, or had its receive broken by a fault or an oversized header, and no begin, connect, disconnect
  or resumed poll that finds the connection lost came after it (`Standstill.StuckExactlyWhen`,
  `Lifecycle.DoomsExactlyWhen`). On a calm line with an answering peer only the late poll is left
  (`Lifecycle.DisconnectFinishesExactlyInTime`).
- `Connection::open()` on an open connection clears the O->T ID before the send can be refused. The
  documented "valid once open" holds over a run exactly when no such call is made while the socket is down
  (`ChannelRuns.OpenHasIdExactlyWhenCareful`); `Forgetting.ForgettingRun` is a run from a new connection
  on which it fails.
- The record loop of `ListTags` is meant to stop at a record that is cut off. Its 32-bit sum of cursor and name
  length can wrap back into the page; then it takes a record that is not there
  (`ListTags.BogusRecordIsTaken`) or never stops (`ListTags.EndlessPage`). It agrees with the record
  format exactly on the pages where the sum does not (`ListTags.ParserAgreesExactlyWhen`).
- The tag inventory starts over, and lists tags twice, when a partial page ends at instance 0xFFFFFFFF
  (`Enumeration.LastInstanceStartsOver`, shown on one symbol by `Enumeration.LastSymbolIsListedTwice`).
- A session takes any reply to its RegisterSession request without comparing contexts
  (`SessionExchange.RegistersForAnyContext`), so `StreamDiscipline.WholeRunStreamDiscipline` states which replies
  match for messages only.
- The subnet walk stops at the broadcast address for every mask but 255.255.255.255; with that one it goes
  on to the end of the address space (`LanScan.FullMaskWalksOn`, on one address `LanScan.FullMaskProbesOutside`).

## Model

| member | source | states |
|---|---|---|
| Bytes.ValOfLE | src/eip/Encapsulation.cpp:17-37 | reading back the n-byte little-endian encoding of any number that fits gives the number |
| Bytes.LEOfVal | src/eip/Encapsulation.cpp:17-37 | re-encoding any byte string's value gives the same bytes, so the codec is a bijection |
| Bytes.Read32 | src/eip/Encapsulation.cpp:10-15 | a 32-bit word written anywhere reads back, whatever surrounds it |
| Bytes.Write32 | src/eip/Encapsulation.cpp:27-29 | re-encoding a 32-bit word that was read gives back its bytes |
| Bytes.PutU32 | src/eip/Encapsulation.cpp:10-15 | the four bytes at the offset become the encoding; every other byte keeps its value |
| Bytes.PutU64 | src/eip/Encapsulation.cpp:17-21 | the byte loop stores the 64-bit encoding and touches nothing else |
| Bytes.GetU64 | src/eip/Encapsulation.cpp:31-37 | the downward loop computes the value of the eight bytes |
| Encapsulation.HeaderRoundTrip | src/eip/Encapsulation.cpp:39-57 | decoding inverts encoding for every header, whatever bytes follow |
| Encapsulation.HeaderIsOnto | src/eip/Encapsulation.cpp:39-57 | every 24 bytes are the encoding of the header they decode to |
| Encapsulation.HeaderLocal | src/eip/Encapsulation.cpp:48-57 | only the first 24 bytes matter to the decoder |
| Encapsulation.EncodeHeader | src/eip/Encapsulation.cpp:39-46 | the first 24 bytes of the buffer become the header and the rest stays |
| Encapsulation.DecodeHeader | src/eip/Encapsulation.cpp:48-57 | the in-place reader returns the header at the front of the buffer |
| Status.DeadlineIsWrapSafe | src/cip/ExplicitMessage.cpp:143-146 | the signed-difference test agrees with the unbounded clock within half the wrap period of the due time, goes silent above it and fires early below it |
| Status.HandedDeadline | src/PlcClient.cpp:95 | passing the time left to another timer rebuilds the same deadline modulo 2^32, moved only by the ticks between the two clock reads, even when the time left underflows |
| Stream.WriteAppends | src/transport/TcpConnection.cpp:121-143 | bytes a write accepts go to the end of the outbound stream and nothing else moves |
| Stream.ReadMoves | src/transport/TcpConnection.cpp:100-119 | bytes a read delivers come off the front of the inbound stream, and consumed plus waiting stays the same |
| Framing.DrainSends | src/cip/ExplicitMessage.cpp:174-187 | sending puts the next part of the frame on the wire in order, and is Ok exactly when all of it is out |
| Framing.AcceptKeepsReceiveOk | src/cip/ExplicitMessage.cpp:189-209 | every chunk keeps received <= expected <= buffer size, and expected follows the received header |
| Framing.FillConserves | src/cip/ExplicitMessage.cpp:189-209 | a receive moves bytes unchanged from the front of the stream to the end of the reply, however they arrive |
| Framing.FillStops | src/eip/Session.cpp:177-198 | the counters for each way a receive can stop |
| Framing.FillIsFragmentationFree | src/cip/Connection.cpp:330-350 | a completed receive is exactly the 24-plus-declared-length frame at the front of the stream and leaves the rest; an oversized declaration is refused after exactly 24 bytes; a pending one holds a proper part of the frame |
| Framing.FillFinishes | src/cip/ExplicitMessage.cpp:189-209 | with the whole frame on hand two generous reads finish the receive |
| Framing.FrameIo.WritePending | src/eip/Session.cpp:162-175 | the in-place write loop does what Drain says |
| Framing.FrameIo.ReadResponse | src/eip/Session.cpp:177-198 | the in-place read loop, with the header decoded when its 24th byte arrives, does what Fill says |
| Cip.SymbolicPathFits | src/cip/Cip.h:168-189 | symbolic paths are whole words and fit the 128-byte path buffers for names of any length |
| Cip.AppendSymbolic | src/cip/Cip.h:175-189 | the in-place writer appends exactly the padded, capped segment |
| Cpf.ItemListRoundTrip | src/cip/ExplicitMessage.cpp:233-257 | encoding an item list and walking it is the identity, whatever follows |
| Cpf.FindUnconnectedIsLast | src/cip/ExplicitMessage.cpp:237-257 | the walk succeeds exactly when every declared item fits, and selects the last unconnected-data item for any number and order of items |
| Cpf.FindConnectedIsLast | src/cip/Connection.cpp:380-412 | the connected walk succeeds exactly when every item fits and every address holds an ID, and selects the last ID and the last data item |
| Message.RequestsFit | src/cip/ExplicitMessage.cpp:21-89 | every accepted request, wrapped or not, fits wrapper and frame buffers, and the path-size byte never truncates |
| Message.ReplyAccountsForItem | src/cip/ExplicitMessage.cpp:258-271 | header, additional status and data add up to the item even when the status count is clamped; a clamp leaves no data |
| Message.PollKeeps | src/cip/ExplicitMessage.cpp:139-172 | whatever the line does a poll keeps the counters in bounds, the request and its context, and conserves bytes both ways |
| Message.OkMeansAnswered | src/cip/ExplicitMessage.cpp:211-271 | Ok only for one whole frame from the front of the stream with the right command, status and the context of the latest request; the reply reported is its last unconnected-data item |
| Message.ExplicitMessage.Send | src/cip/ExplicitMessage.cpp:21-37 | the in-place send has exactly the specified outcome and leaves exactly the specified exchange, refusals included |
| Message.ExplicitMessage.SendRoutedTo | src/cip/ExplicitMessage.cpp:41-89 | the same for a routed send |
| Message.ExplicitMessage.BuildWrapper | src/cip/ExplicitMessage.cpp:60-86 | the local buffer ends up holding the Unconnected Send wrapper: length, request, pad, route |
| Message.ExplicitMessage.LayOut | src/cip/ExplicitMessage.cpp:98-126 | the transmit buffer ends up holding exactly the request frame |
| Message.ExplicitMessage.Poll | src/cip/ExplicitMessage.cpp:139-172 | the in-place poll does to exchange and socket exactly what the specification says |
| Message.ExplicitMessage.ParseResponse | src/cip/ExplicitMessage.cpp:211-271 | the in-place parser accepts exactly the good answers, and its accessors point at service, status, additional status and data inside the receive buffer |
| Message.FindItem | src/cip/ExplicitMessage.cpp:233-257 | the item loop finds where the last wanted item lies, or fails as the walk does |
| Message.LocateReply | src/cip/ExplicitMessage.cpp:258-270 | the offsets of additional status and data, with the malformed count clamped, are those of the reply |
| StaleReplies.StaleRepliesNeverComplete | src/cip/ExplicitMessage.cpp:97-136 | over any run of sends, polls, aborts, timeouts and line changes with fewer than 2^64 sends, contexts are pairwise distinct and Ok comes only with the context of the latest send, never an earlier one |
| Server.FindAfterStore | tools/synthetic_eip_server.py:200-208 | after a write a lookup finds the new entry under its name and the old one under every other |
| Peer.LastItem | tools/synthetic_eip_server.py:233-246 | the peer's item loop agrees with the reference reading of the list and picks the last wanted item |
| Peer.ConnectedItemsIn | tools/synthetic_eip_server.py:293-311 | the connected item loop does what its specification says, the unpacking error on a cut-off ID included |
| Peer.BuildRecords | tools/synthetic_eip_server.py:151-167 | the record loop appends the records of exactly the tags numbered from the start on |
| Peer.SyntheticServer.HandleSendRRData | tools/synthetic_eip_server.py:228-285 | unwrapping, dispatch and response of an unconnected request |
| Peer.SyntheticServer.HandleSendUnitData | tools/synthetic_eip_server.py:288-360 | walk, ID check, dispatch and response of a connected request |
| Exchange.PeerReadsRequest | tools/synthetic_eip_server.py:228-254 | the peer reads every request frame back into the CIP request that was put in it |
| Exchange.ClientReadsReply | src/cip/ExplicitMessage.cpp:211-271 | the client reads the peer's answer frame back into exactly the answer |
| Exchange.RoutingIsTransparent | src/cip/ExplicitMessage.cpp:41-89 | for every slot and every accepted request, odd or even, the peer's unwrapping recovers exactly slot, service, path and data |
| Exchange.PeerServes | tools/synthetic_eip_server.py:251-285 | sent directly or through a slot, the same call is dispatched and the same answer made |
| Exchange.EveryRunIsInAStage | src/cip/ExplicitMessage.cpp:139-209 | every interleaving of polls and peer turns is at one of three stages: asking, answering, settled |
| Courier.PumpUnderway | src/cip/ExplicitMessage.cpp:174-209 | on a calm line an errand goes on, or ends with exactly the reply or the refusal of an oversized one, and before the peer has served it can only go on |
| Exchange.ExchangeIsAtomic | src/cip/ExplicitMessage.cpp:91-271 | for every interleaving and fragmentation the wire carries the one request frame once, the peer dispatches not at all or exactly once, and the outcome is Done with exactly the answer's service, status and data if the answer fits the receive buffer, and Failed if it does not |
| Exchange.ExchangeCanFinish | src/cip/ExplicitMessage.cpp:139-172 | from every stage a poll that can write, a peer turn and a poll that can read settle the exchange |
| Exchange.ExchangeFinishes | src/cip/ExplicitMessage.cpp:91-271 | no accepted exchange gets stuck: after any turns, in time and on a calm line, three more end it Done with exactly the peer's answer, if that fits the receive buffer |
| Exchange.SettledStays | src/cip/ExplicitMessage.cpp:139-148 | an outcome is final and a served exchange never goes back to asking |
| Tags.WordRoundTrip | src/tag/Tag.cpp:171-277 | at every in-bounds offset a stored integer reads back and all other bytes are untouched |
| Tags.SignedRoundTrip | src/tag/Tag.cpp:175-253 | the same for the signed reading of each width |
| Tags.StringRoundTrip | src/tag/Tag.cpp:291-316 | setString then getString returns the string cut to 252 bytes and to the caller's buffer less one |
| Tags.LogixTag.Read | src/tag/Tag.cpp:14-64 | the in-place read starts, refuses or leaves everything alone as specified |
| Tags.LogixTag.Write | src/tag/Tag.cpp:25-108 | the in-place write sends count, type and data of the specified length, or refuses |
| Tags.LogixTag.Poll | src/tag/Tag.cpp:110-147 | the in-place poll follows the shared message and copies a read's type and bytes |
| Tags.LogixTag.Abort | src/tag/Tag.cpp:160-169 | only the tag that uses the shared message aborts it |
| Tags.LogixTag.SetUint64 | src/tag/Tag.cpp:273-277 | an in-bounds store overlays eight bytes, an out-of-bounds one changes nothing |
| Tags.LogixTag.GetUint64 | src/tag/Tag.cpp:203-205 | the value stored there, or 0 out of bounds |
| Tags.LogixTag.SetString | src/tag/Tag.cpp:305-316 | the buffer holds the length prefix and the cut string |
| Tags.LogixTag.GetString | src/tag/Tag.cpp:291-303 | what it copies out is the stored string cut to the caller's buffer |
| TagRoundTrip.PeerReadsName | src/cip/Cip.h:175-189 | a symbolic path of up to 120 bytes parses back through the peer into its name |
| TagRoundTrip.TagExchange | src/tag/Tag.cpp:39-147 | a tag request carried to completion, over any fragmentation, leaves the tag with exactly the peer's answer |
| TagRoundTrip.PeerStores | tools/synthetic_eip_server.py:200-208 | a Write Tag request stores exactly the type and bytes the tag held |
| TagRoundTrip.PeerRecalls | tools/synthetic_eip_server.py:190-199 | a Read Tag request is answered with exactly the stored type and bytes |
| TagRoundTrip.WriteThenRead | src/tag/Tag.cpp:39-147 | direct or routed, for every name of up to 120 bytes and all data that fits: a finished write then a finished read give the same type, length and bytes, and every other tag of the peer is unchanged |
| Session.SessionPollKeeps | src/eip/Session.cpp:88-160 | what a session poll keeps whatever the line does, and the phases it can move between |
| Session.RegisteredMeansAnswered | src/eip/Session.cpp:100-135 | Registered only by one whole successful reply, with the nonzero handle in it, on the connection it was read from |
| Session.EipSession.Open | src/eip/Session.cpp:13-67 | the in-place open registers or refuses as specified |
| Session.EipSession.Close | src/eip/Session.cpp:25-86 | the in-place close asks the peer only when registered, and keeps the deadline |
| Session.EipSession.Poll | src/eip/Session.cpp:88-160 | the in-place poll does exactly what is specified, send failures that leave the phase included |
| Client.FindFree | src/PlcClient.cpp:278-285 | the first free slot: all before it are in use |
| Client.PlcClient.RunTags | src/PlcClient.cpp:128-154 | the slot loop, cut at each tag callback, including the drop after a lost connection |
| Client.PlcClient.Create | src/PlcClient.cpp:175-189 | a handle is the first free slot, or an error code |
| Client.PlcClient.AnyBusy | src/PlcClient.cpp:287-294 | true exactly when a slot in use is pending |
| ClientRuns.StepKeeps | src/PlcClient.cpp:13-248 | every call, poll, resumed poll and delivery keeps all client invariants, for a pool of any size |
| ClientRuns.SingleInFlight | src/PlcClient.cpp:128-143 | over every run, calls from callbacks included, at most one slot is reading or writing, destroyed ones counted, and the shared message is in flight exactly when one is |
| ClientRuns.SessionFreshness | src/PlcClient.cpp:63-127 | in every reachable state Ready implies a registered session whose nonzero handle was requested and issued on the current connection, the queued connect included |
| ClientRuns.StartedRequestsAreFresh | src/PlcClient.cpp:199-225 | every tag request that starts carries in its frame the handle of the current connection, never one from before a reconnect |
| ClientRuns.CompletionCallbacks | src/PlcClient.cpp:134-142 | over any run no operation has two callbacks, one in flight in a slot in use has none yet, and any other has one if and only if some poll saw it pending and since the last such poll it was not aborted, destroyed, or finished with none installed |
| Silence.FirstPollIsSilent | src/PlcClient.cpp:130-142 | for every ready client, any history and any line, the first poll after a read or a write has started makes no callback; if it ends the operation no later run brings one, otherwise it has seen the operation pending; one at the deadline ends it |
| Silence.ReadyIsReachable | src/PlcClient.cpp:13-127 | from a new client a concrete run of calls, polls and deliveries from the peer ends Ready with the pool untouched |
| Silence.AnOperationWithoutACallback | src/PlcClient.cpp:199-211 | the input on which one callback per operation fails: from a new client with a callback installed, a run whose one read completes and whose callback log is empty |
| Wedge.DestroyWedges | src/PlcClient.cpp:191-197 | destroying a busy tag leaves its operation in flight in a slot out of use, which the check for a busy tag no longer sees |
| Wedge.NothingStarts | src/PlcClient.cpp:199-225 | while such a slot is hidden no read or write starts on any handle, and a read of a tag in use of a ready client is refused as Busy though no tag is busy |
| Wedge.BusyExactlyWhen | src/PlcClient.cpp:199-225 | a ready client with no tag busy refuses a read, or a write that could start, as Busy if and only if some slot is hidden with an operation in flight, and starts it if and only if none is, the socket is connected and the CPU slot exists |
| Wedge.UnwedgesExactlyWhen | src/PlcClient.cpp:175-197 | of all calls, polls, resumed polls and deliveries, reconnect, disconnect and abort included, exactly the create that takes the slot into use again ends that state: then a tag is busy and no slot is hidden |
| Wedge.WedgedExactlyUntilCreated | src/PlcClient.cpp:278-294 | over any run the slot stays hidden throughout if and only if no call creates it again, and then nothing starts, nothing can, and the shared message stays taken |
| Reuse.CreatedAgainSettles | src/PlcClient.cpp:128-143 | once that slot is created again a poll at or after the hidden operation's deadline leaves nothing in flight, and reads are no longer refused as Busy |
| Reuse.WedgeIsReachable | src/PlcClient.cpp:191-211 | a concrete run from a new client that ends ready with a hidden operation |
| Reuse.TagsAreTheirOwnExactlyWhen | src/PlcClient.cpp:175-189 | over any run every tag in use that reports an operation or an outcome reports one started under its own name, at every moment, if and only if no create takes over, under another name, a slot whose tag still has something to report |
| Inherit.OtherNamesValue | src/tag/Tag.cpp:110-147 | a tag destroyed with its read in flight and created anew under another name, over every interleaving with the peer and every fragmentation: the new tag is pending, or Done with exactly the type, length and bytes the peer holds under the old name |
| Inherit.InheritedRun | src/PlcClient.cpp:175-211 | the input on which a tag's data is not that of its name: for every value of A at the peer a run from a new client after which the tag named B is Done with that value |
| ClientRuns.DeadlineEndsConnecting | src/PlcClient.cpp:88-113 | no poll at or after the deadline leaves the client connecting or registering |
| ClientRuns.SessionInheritsDeadline | src/PlcClient.cpp:93-101 | the session gets the client's own deadline modulo 2^32, moved by the ticks between the two clock reads |
| StreamDiscipline.MessageAdvances | src/cip/ExplicitMessage.cpp:139-172 | polling a message keeps both streams accounted for, and adds one whole reply frame when it is done |
| StreamDiscipline.SessionAdvances | src/eip/Session.cpp:88-160 | the same for a session |
| StreamDiscipline.SlotsPollOnce | src/PlcClient.cpp:128-143 | one pass over the slots polls the shared message at most once |
| StreamDiscipline.StepDisciplined | src/PlcClient.cpp:13-248 | every step that interrupts no exchange and fails none keeps the streams accounted for |
| StreamDiscipline.WholeRunStreamDiscipline | src/cip/ExplicitMessage.cpp:128-135 | over every clean run the outbound stream is the started frames in order, the last perhaps partly sent, and the consumed inbound stream is one whole reply frame per finished exchange, then the part of the next, across session and message on one socket; every frame is whole, and reply i carries the context of frame i where that is a message's |
| SessionExchange.PeerRegisters | tools/synthetic_eip_server.py:115-118 | the peer answers every registration request with a good reply that carries its handle |
| SessionExchange.PeerUnregisters | tools/synthetic_eip_server.py:121-123 | the peer answers every unregistration request with a bare header |
| SessionExchange.SessionPollIsPump | src/eip/Session.cpp:100-160 | a session poll in time sends and receives as one errand: a fault while sending leaves the phase, any failure to receive ends it, a whole frame is judged |
| SessionExchange.RegistersForAnyContext | src/eip/Session.cpp:120-134 | a whole reply on hand registers the session if and only if command, status, length and handle are right, whatever its context, and fails it otherwise |
| Courier.ReceiveFailsExactlyWhen | src/eip/Session.cpp:162-198 | sending and receiving ends in a failed receive if and only if, after outcomes that each move something, the script reaches a fault while the reply is being read or the move that completes an oversized header |
| Lifecycle.DoomsExactlyWhen | src/eip/Session.cpp:137-160 | which polls get a disconnect stuck, told by clock, script and inbox: those at or after the deadline and those that reach such an outcome |
| Lifecycle.DoomedExactlyWhen | src/PlcClient.cpp:155-166 | one poll of a disconnecting client gets it stuck if and only if it comes at or after the session's deadline or its receive ends in a fault or an oversized header |
| Lifecycle.DisconnectIsStuckExactlyWhen | src/eip/Session.cpp:137-160 | over any sequence of polls, peer turns and arriving bytes on any line, a disconnect is stuck if and only if some poll was such a poll; once stuck it stays Disconnecting under any more of these and every poll reports Pending |
| Standstill.StuckExactlyWhen | src/PlcClient.cpp:155-166 | over any run of the client, calls from callbacks included, it is stuck in a disconnect if and only if some poll was such a poll and no begin, connect, disconnect or resumed poll that finds the connection lost came after it; while it is, a poll reports Pending |
| Lifecycle.FaultsDoom | src/eip/Session.cpp:148-155 | a read fault, and a reply header that declares more than the session accepts, are such polls |
| Connecting.ConnectFailsExactlyWhenLate | src/PlcClient.cpp:19-127 | with the Ethernet up and the peer there, over every sequence of polls and peer turns, any dial time and any fragmentation: a connect fails if and only if some poll before its outcome finds the client's or the session's deadline passed; Ready means the peer's handle on the new connection, with nothing waiting on either side |
| Connecting.ConnectCanFinish | src/PlcClient.cpp:88-127 | from wherever a connect stands after any such sequence, a dial that is made, a poll that can write, a peer turn and a poll that can read, in time, end it Ready |
| Lifecycle.DisconnectFinishesExactlyInTime | src/PlcClient.cpp:155-166 | on a calm line with an answering peer, over every sequence of polls and peer turns and any fragmentation: a disconnect is stuck if and only if a poll made before it was Idle came at or after the registration deadline; otherwise a poll that can write, a peer turn and a poll that can read, in time, end it Idle |
| Channel.SerialsAreDistinct | src/cip/Connection.cpp:104-108 | serials are never 0 and any 65535 consecutive ones are distinct |
| Channel.CloseNamesWhatOpenNamed | src/cip/Connection.cpp:87-175 | for every name under 64 bytes, routed or direct, both requests fit 128 bytes and decode to the same serial, vendor, originator serial and path |
| Channel.PollConnKeeps | src/cip/Connection.cpp:234-299 | what every poll of a connection keeps, whatever the line does |
| Channel.ConnectedOkMeansAnswered | src/cip/Connection.cpp:352-431 | a send is Ok only for one whole frame with the right command, status and context, whose last address item holds our T->O ID and whose last data item holds our sequence number |
| Channel.OpenKeeps | src/cip/Connection.cpp:46-55 | what open keeps and when it is accepted, and that on an open connection with the socket down it clears the O->T ID |
| Channel.Connection.BuildConnectionPath | src/cip/Connection.cpp:76-85 | the buffer holds route and tag, at most 72 bytes |
| Channel.Connection.BuildOpenData | src/cip/Connection.cpp:113-138 | the 128-byte buffer ends up holding exactly the Forward Open data |
| Channel.Connection.BuildCloseData | src/cip/Connection.cpp:155-168 | the same for Forward Close |
| Channel.Connection.Open | src/cip/Connection.cpp:46-148 | the in-place open chooses IDs and serial and starts or refuses exactly as specified |
| Channel.Connection.Close | src/cip/Connection.cpp:68-175 | the in-place close starts a Forward Close only from Open |
| Channel.Connection.Send | src/cip/Connection.cpp:57-232 | the in-place send queues exactly the connected frame and uses up context and sequence number |
| Channel.Connection.Poll | src/cip/Connection.cpp:234-328 | the in-place poll does exactly what is specified in every state |
| Channel.Connection.ParseResponse | src/cip/Connection.cpp:352-431 | the in-place parser accepts exactly the frames the specification accepts and points at the data in the receive buffer |
| Channel.FindConnectedItems | src/cip/Connection.cpp:377-412 | the item loop finds the last ID and where the last data item lies |
| ChannelRuns.SequenceTracksContext | src/cip/Connection.cpp:223-228 | in every reachable state the sequence number equals the context modulo 2^16 |
| ChannelRuns.OpenHasIdExactlyWhenCareful | src/cip/Connection.cpp:93-106 | over any run open or sending implies a nonzero O->T ID in every state if and only if no open() is made on an open connection while its socket is down |
| Forgetting.OpensFirst | src/cip/Connection.cpp:46-148 | from a new connection a concrete run against the peer ends Open with the O->T ID the peer granted |
| Forgetting.ForgettingRun | src/cip/Connection.cpp:93-106 | the input on which valid once open fails: that run, then the socket down and open() again, ends Open with O->T ID 0 |
| ChannelRuns.ConnectedSafety | src/cip/Connection.cpp:247-275 | on such runs the O->T ID is the nonzero one granted by the last successful Forward Open, and the T->O ID is the one its request carried and its reply echoed |
| ChannelRuns.DataReplyMatches | src/cip/Connection.cpp:414-425 | on any run a send is Ok only for a frame that matches T->O ID, context and sequence number of the current request |
| ChannelRuns.SentFrameCarriesGrantedId | src/cip/Connection.cpp:177-232 | on such runs an accepted send puts on the wire a frame the peer reads as exactly that request, under the granted O->T ID, the context and the sequence number |
| ChannelRuns.CloseNamesTheOpenConnection | src/cip/Connection.cpp:150-175 | on such runs an accepted close sends a request the peer reads as naming exactly the connection the last successful Forward Open named |
| ChannelExchange.HandshakeAgrees | tools/synthetic_eip_server.py:209-219 | the peer ties the T->O ID it was sent to its own O->T ID, and the client accepts its answer with that O->T ID |
| ChannelExchange.ConnectedCallIsAnswered | tools/synthetic_eip_server.py:288-360 | on an agreed connection a connected request leads to exactly the peer's answer for the call in it, for answers of every length: it fits the client's buffer up to 508 bytes, is refused above, and one too long for a frame ends the peer |
| ChannelExchange.EveryRunIsInAStage | src/cip/Connection.cpp:277-350 | every interleaving of polls and peer turns on a sending connection is asking, answering or told |
| ChannelExchange.ConnectedExchangeIsAtomic | src/cip/Connection.cpp:177-299 | for every interleaving and fragmentation the wire carries the one connected frame once, the peer is as before or has served the call exactly once (and is down if the answer is too long for a frame), and the outcome is Open with exactly its answer, or Failed only because that exceeds 508 bytes |
| ChannelExchange.ConnectedCanFinish | src/cip/Connection.cpp:277-299 | from every stage a poll that can write, a peer turn and a poll that can read tell the outcome |
| ChannelExchange.ConnectedExchangeFinishes | src/cip/Connection.cpp:177-299 | no accepted connected exchange gets stuck: after any turns, in time and on a calm line, three more end it Open with exactly the peer's answer, if that fits 508 bytes |
| ChannelExchange.ConnectedTagServicesAgree | tools/synthetic_eip_server.py:331-352 | reads and writes over a connection do and answer what they do without one |
| ListTags.PageRoundTrip | examples/ListTags/ListTags.ino:217-239 | the record format reads back: the whole records of a page followed by an incomplete one are the records it was encoded from |
| ListTags.ParserAgreesExactlyWhen | examples/ListTags/ListTags.ino:222-231 | the loop with its 32-bit cursor takes exactly the whole records of a page if and only if the length field of the record that is cut off does not wrap the cursor back to a place with room for a type word |
| ListTags.PageParses | examples/ListTags/ListTags.ino:217-239 | on every page of whole records it takes exactly those |
| ListTags.BogusRecordIsTaken | examples/ListTags/ListTags.ino:225-231 | a 12-byte page without a whole record from which the loop takes one |
| ListTags.EndlessPage | examples/ListTags/ListTags.ino:222-231 | a 19-byte page on which the loop makes more turns than there are positions |
| ListTags.UnstoppedNeverStops | examples/ListTags/ListTags.ino:222-248 | a loop that has made more turns than there are positions in its page makes any number of turns |
| ListTags.TagLister.BuildSymbolPath | examples/ListTags/ListTags.ino:58-67 | the narrowest instance segment, within eight bytes |
| ListTags.TagLister.StartEnumerate | examples/ListTags/ListTags.ino:71-83 | the request asks for attributes 1 and 2 from the given instance on |
| ListTags.TagLister.Turn | examples/ListTags/ListTags.ino:198-266 | one turn of the enumerating phase does exactly what is specified |
| ListTags.TagLister.TakeRecord | examples/ListTags/ListTags.ino:222-231 | one turn of the loop from any cursor: the record read there, its name cut to 45 bytes, and the new cursor after the wrapped sum, or a stop |
| ListTags.TagLister.ParseBatch | examples/ListTags/ListTags.ino:217-248 | the table gains exactly the records the loop takes while it has room, the last instance is the last one taken, or the loop is found never to stop |
| Enumeration.CollectIsFirst | examples/ListTags/ListTags.ino:233-238 | collecting keeps exactly the first 200 records in order, names cut |
| Enumeration.EnumerationCompletes | examples/ListTags/ListTags.ino:198-266 | against every peer that returns ascending complete records from the requested instance, at least one per partial page and none ending one at the last instance number there is, the loop ends after at most one page more than there are symbols, with exactly the first 200 of them in instance order, each once |
| Enumeration.NextPageStarts | examples/ListTags/ListTags.ino:256-258 | asking from the last instance plus one, modulo 2^32, leaves exactly the symbols not yet seen if and only if some are left or that instance is not the last number there is |
| Enumeration.PageMovesOn | examples/ListTags/ListTags.ino:250-264 | an honest page adds its records, and after a partial one the enumeration goes on with the rest if and only if it continues so; otherwise it asks from 0 again |
| Enumeration.LastInstanceStartsOver | examples/ListTags/ListTags.ino:256-258 | after a partial page that ends at instance 0xFFFFFFFF the next page enters the first symbol a second time while the table has room |
| Enumeration.LastSymbolIsListedTwice | examples/ListTags/ListTags.ino:256-258 | the input: one symbol at 0xFFFFFFFF and a peer that reports more to come; after two pages it is in the table twice |
| Enumeration.SymbolPathReadsBack | tools/synthetic_eip_server.py:126-140 | 8-, 16- and 32-bit instance paths parse back through the peer |
| Enumeration.PeerEncodesSymbols | tools/synthetic_eip_server.py:143-167 | the bytes the peer returns are the encoding of its symbols from the start on |
| Enumeration.EnumeratesThePeer | tools/synthetic_eip_server.py:143-167 | for every tag table of the peer and every fragmentation, the one routed exchange fails only because the list exceeds the receive buffer, and is Done only if every name is ASCII and the list fits; then the table holds exactly the first 200 entries of the peer's, in order, each once, names cut |
| LanScan.NextIsPlusOne | examples/LanInventory/LanInventory.ino:114-123 | the next address is +1 on the base-256 value, and overflow happens only at the very last one and leaves zero |
| LanScan.NextHost | examples/LanInventory/LanInventory.ino:114-123 | the in-place carry loop computes exactly the next address |
| LanScan.SubnetSpan | examples/LanInventory/LanInventory.ino:300-305 | network <= address <= broadcast, and broadcast minus network is the value of the inverted mask |
| LanScan.HostsAreExactlyTheRange | examples/LanInventory/LanInventory.ino:319-333 | the reference list holds every value strictly between its bounds that is not skipped, once, ascending |
| LanScan.ScanCoversTheSubnet | examples/LanInventory/LanInventory.ino:319-333 | for every mask but the full one and whatever the devices answer, the addresses probed so far are exactly the hosts up to the current one, and at the end all hosts strictly between network and broadcast, without gateway and self |
| LanScan.FullMaskWalksOn | examples/LanInventory/LanInventory.ino:319-333 | with the full mask the walk goes to the end of the address space, and still probes the right set if and only if nothing but the gateway lies above |
| LanScan.FullMaskProbesOutside | examples/LanInventory/LanInventory.ino:319-333 | the input: a scan from 255.255.255.254 under the full mask that ends having probed the address above it |
| LanScan.ScanTurnsAreCounted | examples/LanInventory/LanInventory.ino:319-333 | the scan phase is entered at most as often as there are addresses left |
| LanScan.LanInventory.SetUp | examples/LanInventory/LanInventory.ino:300-311 | the octet loop computes network and broadcast and starts below the first host |

## Left out

- Socket and Ethernet drivers: `src/transport/TcpConnection.cpp` and `src/transport/Client.cpp` call lwIP and the ETH driver; a socket, a connection epoch, a scripted outcome per call and an up/failed link stand for them.
- Random connection IDs, the device MAC and the clock are parameters.
- Null-pointer arguments and C strings without a terminator: names and buffers are values.
- Float accessors of a tag, `decodeShortString`, status and data-type names, `version()`: easy members.
- `EipSession` and `IdentityQuery` sketches, the UDP ListIdentity query, value printing and the value-reading phase of `ListTags`: input and output plumbing.
- `Session`, `ExplicitMessage` and `Connection` carry three copies of the same send and receive loops; the model has one, in `Framing`, with the largest body as a parameter.
- Client.PlcClient.constructor: socket, session, message and tags are members by value in the source; the class holds them as the values their own classes are proved to realise, so the pointers that session and message keep to the socket are not captured at that level.
- Client.PlcClient.PollOnce: a tag callback is a point where the poll stops; the rest of it is a frame to be resumed. State callbacks come last in a poll and leave nothing to resume, so they are not shown.
- User code that starts or polls a tag with a message of its own: only edits of a tag's buffer and type through its pointer are modelled.
- Frames begun before a hot reconnect: the code leaves such an exchange under way and so does the model; the freshness theorems are about requests that start.
- Padded-EPATH and Write Tag field order are claimed only as far as the repository's own peer agrees with them.
- ListTags.TagLister.ParseBatch: a page on which the source's loop never stops is reported and the phase becomes `Hung`, since a method here ends; a name that the wrapped length lets reach past the page is cut to the page, so bytes behind it are not modelled.
- ListTags.ParserAgreesExactlyWhen: pages are shorter than 2^32 - 8 bytes; the receive buffer holds 567.
- Enumeration.EnumerationCompletes: a page fits one reply, as the frames of the client do.
- Peer.SyntheticServer.HandlePacket: one client connection; sockets, timeouts and the accept loop are not part of this model, and Python's dictionary is a sequence of entries in insertion order.
