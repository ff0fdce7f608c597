# Verified model of the capture/replay core

A Dafny model of the four cores of the replay tool, with proofs of what they promise.

1. TCP reassembly. Packets are parsed, given a 64-bit message ID, kept in Seq order in a map of unfinished
   messages, checked for gaps and for completeness, and sent, re-keyed (100-continue) or expired.
   `Packets`, `PacketParser`, `PacketCodec`, `FrameErrors`, `Messages`, `MessageLaws`, `StreamLaws`, `Parser`,
   `ParserLaws`, `ShiftLaws`, `Lifetimes`, `Reassembly`, `Continue100`, `ContinueBodies`, `ClientRequests`; the
   objects that change in place and the loop that drives them are in `MessageObject`, `ParserObject` and `ParserLoop`.
2. HTTP framing and byte surgery. Titles, header lines, the cached completeness test, chunked bodies, and
   edits of headers, path and query in place. `Titles`, `Headers`, `HeaderScan`, `HeaderEdits`,
   `HeaderLists`, `FullPayload`, `FullPayloadLaws`, `Chunked`, `ChunkedCuts`, `Query`, `QueryLaws`, `Paths`,
   `ByteUtils`.
3. The record log and its replay. `RecordLog`, `LogLaws`, `Replay`, `ReplayLaws`; `Capture` joins all four.
4. Run-level filters. `Emitter`, `EmitterLaws`, `Limiter`.

`Bytes`, `Words` and `Decimal` hold byte strings, machine words and numbers in text.

Code that computes is a function here; code that changes objects, buffers or loop variables is a class or a
method proved equal to a function, and the laws are lemmas about the functions. The concurrent `select` loop
of the parser is a state machine over its atomic steps, one packet or one tick; a channel is the sequence of
what was sent to it. The clock, the order in which Go ranges over a map, random numbers, spare capacity of
appended slices, answers of outputs and the modifier's `Rewrite` are parameters. `ok` results that are
false stand for inputs on which the original fails with a run-time error.

Where the code does not do what one would expect of it, the model keeps the code, and a lemma says exactly
when the expected property holds, beside an input for which it does not:

- a message that spans the Seq wrap (`StreamLaws.WrapLooksLikeGap`), an append to a slice with spare
  capacity (`StreamLaws.CopySliceAppends`), an extension header with length byte 255
  (`PacketCodec.EndlessIffStall`, `PacketCodec.FrameIsEndless`);
- a header section whose empty line is split between segments (`FullPayloadLaws.HeaderSectionFound`);
- a chunked body with the bytes of its end inside a chunk (`ChunkedCuts.CutsExactly`,
  `ChunkedCuts.EarlyEnd`), or cut inside its end (`ChunkedCuts.CutMarksLast`);
- a chunk with line ends that only pass a bitwise test or with a size that has no digit
  (`Chunked.FullIsBody`, `Chunked.AcceptsOtherBytes`, `Chunked.AcceptsNoDigits`);
- a 100-continue body that overtakes its header (`Continue100.OnceIfHeadFirst`) or comes in several segments
  (`ContinueBodies.SentIfOneSegment`);
- a header value that is empty, has a blank at an end or a line feed (`HeaderEdits.AddThenGet`,
  `HeaderEdits.SetThenGet`, `HeaderEdits.EmptyReadsAsSpace`, `HeaderEdits.DeleteUndoesAdd`);
- a query in which one parameter stands inside the value of another (`QueryLaws.OthersKept` for its place,
  `QueryLaws.ValueKept` for its value, `QueryLaws.ParamInsideValueLost`);
- a record that holds the separator's text (`LogLaws.LogRoundTrip`), a record stamped -1
  (`ReplayLaws.ReplayTakesAsLong`, `ReplayLaws.PauseLost`), and a request filtered twice before its response
  (`EmitterLaws.CounterAccounts`).

The reassembly theorems assume what the code needs to do its job: title and header section in the first
segment, no Expect line there, no later segment that starts like a title, no Seq wrap, no spare capacity
behind the copy of the first segment that is kept, and a timer that does not expire the request while it
arrives. The last segment finishes the request: with it as many bytes as Content-Length says have come, or,
when chunked, it is the only one that ends in the mark. A copy of a segment is a packet with its Seq, its
payload and the ID of the message, not marked for the other side. Other traffic is any packet with another
ID; if it belongs to an incomplete message that asks for 100-continue, the ID that message moves to must be
free and not that of the request (`Reassembly.Aside`). Messages tracked when the request begins must stand under their own IDs.

That other parameters are kept (`QueryLaws.OthersKept`) is about places: in `?a=1?b=2&x?b=2`, setting `a`
moves where `b` is found, although both places hold the same value, as `QueryLaws.ValueKept` says.

## Model

| member | source | states |
|---|---|---|
| `Reassembly.LastSegment` | tcp/tcp_message.go:304-362 | over whole runs: a request or a response with Content-Length, or a chunked one, of which copies arrive in any order, with any repeats whatever their capture times, losses and flags, and other traffic between, leaves as exactly one message, in the step of its last distinct segment, with its original bytes, the direction of its title, the capture time of the first packet that arrived of it as its start and the latest of the first copies as its end, and is forgotten |
| `Reassembly.NotYet` | tcp/tcp_message.go:304-362 | until that step nothing is sent or expired under its ID, and what is tracked is exactly the segments that arrived, each as its first copy |
| `Reassembly.Arrival` | tcp/tcp_message.go:304-362 | one copy of a segment, known or new: it completes the message exactly when its segment was the last one missing, and no other entry of the map changes |
| `Reassembly.EndHintOnSegments` | listener/ip_listener.go:370-376 | on ascending copies of segments of the request, in whatever state earlier calls left, the end hint says yes exactly when all of them are there |
| `Reassembly.FinishesExactly` | listener/ip_listener.go:370-376 | the condition on the last segment is exact: asked after each segment in turn, the end hint says yes after the last and never before if and only if it holds |
| `Reassembly.OtherPacket` | tcp/tcp_message.go:304-343 | a packet with another ID, one that re-keys its own message included, leaves the entry of this one alone, unless it merges messages or re-keys its own to this ID |
| `Reassembly.OtherTimer` | tcp/tcp_message.go:406-424 | a tick may expire other messages but leaves the entry of a young request alone |
| `Reassembly.CalmAside` | tcp/tcp_message.go:304-385 | packets without an Expect line are other traffic in every state without one |
| `ClientRequests.WrittenMessage` | listener/ip_listener.go:357-376 | any method and path, or any registered status and reason, any header lines whose last Content-Length states the length of the body, and any body, cut anywhere behind the header section into pieces that do not look like a title, give a request, or a response, the reassembly theorem applies to |
| `ClientRequests.NamesInAnyCase` | proto/proto.go:86 | the four header names that decide completeness are found in any case |
| `ClientRequests.WrittenChunked` | listener/ip_listener.go:357-376 | likewise with a line that says chunked and a chunked body without early marks, if and only if its last segment has five bytes or more and the zero chunk's line ends in the digit |
| `ClientRequests.HeadStates` | proto/proto.go:172-182 | header lines read back as the length stated last, as chunked only if one says so, as expecting only if one says so |
| `ClientRequests.ClientExpecting` | proto/proto.go:538-540 | with an Expect line anywhere among the header lines, and its body in one segment, it meets the conditions of the 100-continue theorem, and what is sent of it is the request without that line |
| `Capture.RequestReplayed` | input/input_http.go:71-86 | a request delivered in any order is captured once, with that timestamp and latency, and the record of it that the replay hands out holds exactly the bytes the client sent, unless the separator's text stands on a line of them |
| `Capture.MessageCaptured` | input/input_http.go:71-86 | a request or a response delivered in any order is captured once: with type 1 or 2 by its title, with the time its first packet was captured as the timestamp and the time from there to the last as the latency, and with exactly the bytes sent |
| `Capture.ResponseCaptured` | input/input_http.go:71-86 | a response delivered in any order, whose packets no address marks, is captured once, as type 2, with the identifier of exactly those requests it can answer, and is not written to the log |
| `Capture.CapturesApart` | input/input_http.go:86 | two messages opened d nanoseconds apart are replayed d nanoseconds apart |
| `Capture.WireCaptured` | input/input_http.go:71-86 | the capture of a request or a response from written frames, among any other frames and ticks, parsed, marked by address and joined as the loop of `ParserLoop.Wait` hears them |
| `Capture.WireReplayed` | input/input_http.go:71-86 | the same from wire to replay |
| `Capture.FrameHeard` | tcp/tcp_packet.go:86-213 | a written frame is heard with every field as it was exactly when its payload has a byte other than zero, and is incoming exactly if its destination is a port and an address of the listener |
| `Capture.CapturedIsReplayed` | emitter.go:55-101 | without a modifier, and with data that fit the buffer, each output receives the captured records as they are, and a log written by one is replayed as the requests among them, exactly when the marker stands on no line of one |
| `Capture.RunRecorded` | input/input_http.go:71-86 | whatever a run of the parser sends, 100-continue included, can be recorded and read back, under the same condition, as long as no two messages are merged |
| `Capture.CaptureClean` | input/input_http.go:86 | a captured message always makes a record whose fields can be split again |
| `Capture.AllPass` | emitter.go:66-101 | such records pass the emitter unchanged and in order |
| `ParserLaws.RunKeeps` | tcp/tcp_message.go:304-424 | in every run in which no incomplete message asks for 100-continue each tracked message has packets, strictly ascending, all with the ID it is tracked under, with exact statistics; so had every message that left, and what was sent in time had no gap |
| `ParserLaws.RunConserves` | tcp/tcp_message.go:304-424 | in every such run each accepted packet, counted with multiplicity, is in exactly one place: tracked, emitted, expired or duplicate |
| `ParserLaws.ProcessPacketKeeps` | tcp/tcp_message.go:304-343 | one packet that re-keys nothing keeps that invariant |
| `ParserLaws.TimerKeeps` | tcp/tcp_message.go:406-424 | one tick keeps that invariant, in whatever order the map is ranged over |
| `Lifetimes.TickMeans` | tcp/tcp_message.go:406-424 | a tick, in whatever order it ranges over the map, forgets exactly the messages whose last packet is longer ago than the expiry; it sends them, marked, if incomplete messages are allowed, and drops them otherwise |
| `Lifetimes.RunEnded` | tcp/tcp_message.go:406-424 | in every run, merges included, nothing that timed out is sent unless incomplete messages are allowed, and nothing is dropped if they are |
| `Lifetimes.RunBegun` | tcp/tcp_message.go:304-343 | in every run without merges, every message, tracked or gone, starts at the capture time of the first packet that arrived for it, and has the direction that packet was marked with, or else that of a title that arrived for it |
| `ParserLaws.ProcessPacketConserves` | tcp/tcp_message.go:304-343 | such a packet adds itself to exactly one place |
| `ParserLaws.TimerConserves` | tcp/tcp_message.go:406-424 | a tick only moves packets from tracked to emitted or expired |
| `ShiftLaws.RunSound` | tcp/tcp_message.go:304-424 | in every run in which no two messages are merged, re-keyed ones included, each tracked message has packets, strictly ascending, with exact statistics, and stands under the ID of its first packet; what left was like that, and what was sent in time had no gap |
| `ShiftLaws.RunContent` | tcp/tcp_message.go:304-424 | in every such run the packets that arrived are, but for the Acks that moved and counted with multiplicity, those tracked, emitted, expired or skipped as duplicates |
| `ShiftLaws.Outcome` | tcp/tcp_message.go:345-385 | a packet that is no duplicate and merges nothing makes its message leave, be stored under its ID, or move to the free ID of its shifted Acks |
| `ParserLaws.AddPacketOutcome` | tcp/tcp_message.go:345-362 | such a packet, if no duplicate, makes the message leave the map, or be stored under its own ID |
| `ParserLaws.CalmIsQuiet` | tcp/tcp_message.go:304-424 | runs of packets without Expect lines are such runs |
| `ParserLaws.CalmPacket` | tcp/tcp_message.go:304-385 | such a packet re-keys and merges nothing |
| `Continue100.SentOnce` | tcp/tcp_message.go:364-385 | header segment with Ack A, repeats of it, other traffic, body segment with Ack A+25: nothing is sent before the body, then exactly one message, whose bytes are those of both segments with the Expect line sliced out, and whose UUID is shared by exactly those responses of the connection that start at A+25 |
| `Continue100.HeadArrives` | tcp/tcp_message.go:364-385 | the header segment waits under the shifted ID alone, and nothing is sent |
| `Continue100.HeadRepeats` | tcp/tcp_message.go:364-385 | a repeat of the header segment while a copy waits replaces that copy, and nothing is sent |
| `Continue100.BodyArrives` | tcp/tcp_message.go:345-362 | the body completes it under the shifted ID |
| `Continue100.StillWaiting` | tcp/tcp_message.go:304-424 | other packets, re-keyed ones included, and ticks leave it waiting |
| `Continue100.WaitsOn` | tcp/tcp_message.go:304-424 | through other traffic, repeats and ticks the last copy of the header segment waits |
| `Continue100.BodyFirst` | tcp/tcp_message.go:375-383 | the failing case: if the body overtakes its header, with other traffic between, the merged message is sent and yet put back into the map |
| `Continue100.OnceIfHeadFirst` | tcp/tcp_message.go:364-424 | over both orders of arrival, with other traffic between and a tick past the expiry at the end: the message leaves exactly once if and only if the header segment comes first, and twice otherwise |
| `Continue100.ExpectGone` | proto/proto.go:188-194 | deleting the Expect line from the joined segments leaves the header segment without that line, then the body |
| `ContinueBodies.SentIfOneSegment` | tcp/tcp_message.go:345-385 | header segment, then the body in any number of segments: one message is sent if and only if it is one segment; otherwise the first takes the header to an ID the others never have, and nothing is sent |
| `MessageLaws.AnyOrder` | tcp/tcp_message.go:100-130 | if a Seq names its packet, any two arrival sequences of the same packets, in whatever order and however often repeated, leave the same message, statistics included |
| `MessageLaws.AnyCopies` | tcp/tcp_message.go:100-130 | any two arrival sequences with the same Seqs and the same bytes for each, whatever the capture times, losses and flags of the copies, leave messages with the same payloads at the same Seqs and the same length |
| `MessageLaws.FeedKeepsFirsts` | tcp/tcp_message.go:100-130 | after any arrivals the packets ascend strictly, the statistics are their sums and latest time, and each Seq is held by the packet that came first with it |
| `MessageLaws.FeedMembers` | tcp/tcp_message.go:100-130 | if a Seq names its packet the message holds exactly the packets that arrived |
| `MessageLaws.AddKeeps` | tcp/tcp_message.go:100-130 | one `add` keeps the order and the statistics, and adds its packet or nothing |
| `StreamLaws.NoGapMeansContiguous` | tcp/tcp_message.go:137-149 | on ascending packets the modular test finds no gap exactly when plain addition finds none |
| `StreamLaws.WrapLooksLikeGap` | tcp/tcp_message.go:137-149 | when all of a stream has arrived, a gap is seen exactly when a segment begins past the 2^32 wrap |
| `StreamLaws.DataOffsets` | tcp/tcp_message.go:151-178 | in a contiguous message each payload stands at its Seq minus the first Seq, and the length is last Seq plus its length minus first Seq |
| `StreamLaws.GaplessData` | tcp/tcp_message.go:137-178 | the same of the raw data of a message in which `MissingChunk` finds no gap, which are what is sent unless the message asks for 100-continue |
| `StreamLaws.CopySliceAppends` | tcp/tcp_packet.go:13-30 | `copySlice` appends exactly when the slice has no spare capacity or nothing is appended |
| `StreamLaws.RawDataIsConcat` | tcp/tcp_message.go:162-168 | the raw data are the payloads in order, if the first has no spare capacity |
| `StreamLaws.StreamIdFields` | tcp/tcp_message.go:72-83 | the stream ID is the client port, the server port and the client address, one above the other |
| `StreamLaws.UuidPairs` | tcp/tcp_message.go:72-98 | a request and a response have the same UUID exactly when ports are swapped, client addresses agree and the request's Ack is the response's Seq |
| `StreamLaws.UuidPairsIpv4` | tcp/tcp_message.go:72-98 | between IPv4 hosts that address is the source of the request and the destination of the response |
| `StreamLaws.UuidBytes` | tcp/tcp_message.go:72-98 | the identifier writes, in hexadecimal, the client's port, the server's port, the client's address and the Ack or the Seq, each with its highest byte first |
| `MessageObject.Message.Add` | tcp/tcp_message.go:100-130 | the object ends up as the abstract `add` of its old value, and keeps its packets distinct and ascending |
| `MessageObject.Message.HasDuplicate` | tcp/tcp_message.go:101-106 | true exactly if a packet has this Seq |
| `MessageObject.Message.FindPlace` | tcp/tcp_message.go:109-119 | the place in ascending order |
| `MessageObject.Message.Insert` | tcp/tcp_message.go:108-120 | the packet list with the packet at its place |
| `MessageObject.Message.Account` | tcp/tcp_message.go:122-127 | length, lost bytes and latest time with the packet counted in |
| `MessageObject.Message.MissingChunk` | tcp/tcp_message.go:137-149 | true exactly if some packet does not begin where the one before it ends, modulo 2^32 |
| `MessageObject.Message.PacketData` | tcp/tcp_message.go:151-159 | the payloads in order |
| `MessageObject.Message.Data` | tcp/tcp_message.go:162-178 | the joined payloads, without the Expect line of a 100-continue request; fails exactly where looking that line up fails |
| `MessageObject.Message.UUID` | tcp/tcp_message.go:72-98 | the 24 hex digits of stream ID and Ack or Seq |
| `MessageObject.Message.ShiftAcks` | tcp/tcp_message.go:370-373 | every packet's Ack moves by 25 modulo 2^32 and every cached ID is forgotten |
| `MessageObject.Message.FirstID` | tcp/tcp_message.go:366 | the ID of the first packet, whatever the caches held |
| `MessageObject.CopySliceBytes` | tcp/tcp_packet.go:13-30 | the loop of `copySlice` computes the slice and count of its specification |
| `ParserObject.MessageParser.ProcessPacket` | tcp/tcp_message.go:304-343 | the object's map and logs end up as the abstract step says, for every packet that triggers no merge; messages own their packets and no sent message is still tracked |
| `ParserObject.MessageParser.AddPacket` | tcp/tcp_message.go:345-362 | `addPacket` on the object: a duplicate is skipped, a completed message is sent, any other is stored, re-keyed when it expects 100-continue |
| `ParserObject.MessageParser.Fix100Continue` | tcp/tcp_message.go:364-385 | the message leaves its ID and is stored under the ID of its shifted Acks |
| `ParserObject.MessageParser.Emit` | tcp/tcp_message.go:392-398 | the message is sent and its entry removed |
| `ParserObject.MessageParser.Timer` | tcp/tcp_message.go:406-424 | every overdue message leaves the map once, sent or dropped, in any order of the map |
| `ParserObject.MessageParser.TimeOutEntry` | tcp/tcp_message.go:413-422 | one entry of the timer: an overdue message is marked, sent or dropped, and its entry removed |
| `ParserObject.MessageParser.ProcessKnown` | tcp/tcp_message.go:311-324 | a packet of a tracked message ends up as the abstract step says |
| `ParserObject.MessageParser.ProcessNew` | tcp/tcp_message.go:325-342 | a packet of an unknown ID opens a message and ends up as the abstract step says |
| `ParserObject.MessageParser.Direct` | tcp/tcp_message.go:314-322 | the direction of a message is set by the first packet whose title tells |
| `ParserObject.MessageParser.Hinted` | tcp/tcp_message.go:325-333 | the direction of a new message comes from the title of its first packet |
| `ParserObject.MessageParser.constructor` | tcp/tcp_message.go:224-250 | a parser starts with an empty map |
| `ParserObject.EndHintOn` | listener/ip_listener.go:370-376 | the hint as a call on the object: answer and new protocol state as specified |
| `ParserObject.StartHintOn` | listener/ip_listener.go:357-368 | the start hint as a direction |
| `ParserLoop.Wait` | tcp/tcp_message.go:260-302 | the loop over frames and ticks, on the object, ends in the state of a run over what the frames parse to, marked by address, and the ticks; as long as no messages are merged, the object holds sound messages only and each packet in exactly one place |
| `ParserLoop.CalmNeverMerges` | tcp/tcp_message.go:260-385 | frames without Expect lines never make messages merge, whatever the orders of the ticks |
| `ParserLoop.Mark` | tcp/tcp_message.go:280-302 | a packet is marked incoming exactly if it goes to a port and address listened to, and nothing else of it changes |
| `Packets.Packet.MessageID` | tcp/tcp_packet.go:215-223 | whatever changed since, the cached ID is the ID of the current fields |
| `Packets.Packet.ShiftAck` | tcp/tcp_message.go:370-373 | changing the Ack keeps the cached ID right |
| `Packets.Packet.Mark` | tcp/tcp_message.go:326-332 | changing the direction keeps the cached ID right |
| `Packets.MessageIdFields` | tcp/tcp_packet.go:215-223 | source port, destination port with the carry OR-ed in, address and Ack sum modulo 2^32 |
| `Packets.MessageIdFits` | tcp/tcp_packet.go:215-223 | the ID fits 64 bits, so no bit of it is lost |
| `Packets.Ipv4Word` | tcp/tcp_packet.go:275-285 | an IPv4 address a.b.c.d counts as a * 2^24 + b * 2^16 + c * 2^8 + d |
| `Packets.Ipv6Word` | tcp/tcp_packet.go:275-285 | of an IPv6 address the last four bytes count in the same way, of a missing one nothing |
| `Packets.SourcesApart` | tcp/tcp_packet.go:215-223 | packets from two IPv4 sources, otherwise alike, have equal IDs exactly if the sources are equal |
| `Packets.SameConnectionSameId` | tcp/tcp_packet.go:215-223 | between the same endpoints IDs are equal exactly when Acks are |
| `Packets.EqualIds` | tcp/tcp_packet.go:215-223 | equal IDs force equal source ports, destination ports equal but for two bits, and equal sums modulo 2^32 |
| `Packets.DirectionNotInId` | tcp/tcp_packet.go:215-223 | the direction mark has no part in the ID |
| `PacketCodec.ParseReadsWritten` | tcp/tcp_packet.go:95-213 | parsing inverts writing: IPv4 with options, IPv6 with any chain of extension headers whose length bytes are below 255, TCP with options |
| `PacketCodec.ParseDropsZeros` | tcp/tcp_packet.go:172-186 | a packet whose payload is nothing but zero bytes is dropped as empty, unless empty packets are allowed |
| `PacketCodec.EndlessIffStall` | tcp/tcp_packet.go:134-148 | the extension loop fails to return exactly on the inputs that lead to a header of length zero with another extension kind |
| `PacketCodec.FrameIsEndless` | tcp/tcp_packet.go:134-148 | such an input: a 48-byte IPv6 frame with one options header whose length byte is 255 |
| `PacketCodec.StallRepeats` | tcp/tcp_packet.go:134-148 | from such a header the loop never moves on |
| `PacketCodec.ShortHeadersEnd` | tcp/tcp_packet.go:134-148 | the loop returns if no header of the chain it follows has length byte 255 |
| `FrameErrors.CutInLink` | tcp/tcp_packet.go:104-109 | a frame cut inside or right behind its link layer gives the error of that layer or of the missing next one |
| `FrameErrors.CutInNetwork` | tcp/tcp_packet.go:114-152 | a written frame cut anywhere inside its network layer, options and extension headers included, gives the error of the part in which it ends |
| `FrameErrors.CutInTransport` | tcp/tcp_packet.go:153-170 | cut anywhere inside its TCP header and options it gives the error of that part; without a link layer and a single byte of the TCP header, that of the missing layer |
| `FrameErrors.DamagedIpv4` | tcp/tcp_packet.go:114-155 | another version, a header length below five words and a protocol other than TCP give their errors |
| `FrameErrors.DamagedTcp` | tcp/tcp_packet.go:160-167 | a TCP header length below five words gives its error |
| `PacketParser.ParsePacket` | tcp/tcp_packet.go:86-93 | a packet with the fields `Parse` finds, or the error it finds; every index stays in bounds |
| `PacketParser.SkipExtensions` | tcp/tcp_packet.go:133-148 | the loop over the chain computes the length and the protocol of the specification |
| `PacketParser.ReadNetLayer` | tcp/tcp_packet.go:114-152 | length and protocol of the network header, or its error |
| `PacketParser.ReadTransLayer` | tcp/tcp_packet.go:159-212 | the packet with ports, numbers, flags, payload, or the error |
| `PacketParser.IsEmpty` | tcp/tcp_packet.go:172-179 | true exactly if every byte is 0 |
| `FullPayloadLaws.CacheCoherent` | proto/proto.go:469-578 | after any calls on growing lists of segments the cached state gives the answer a fresh one would |
| `FullPayloadLaws.CheckAbsorbs` | proto/proto.go:469-578 | a call on fewer segments leaves a state from which the next call answers as a first call would |
| `FullPayloadLaws.CompleteByLength` | proto/proto.go:549-577 | a message that is not chunked is complete exactly when its bytes are those up to the first empty line that lies inside a segment plus Content-Length |
| `FullPayloadLaws.HeaderSectionFound` | proto/proto.go:500-520 | the end of the header section is found where it is in the joined bytes if and only if the first empty line of those, if any, lies inside one segment |
| `FullPayloadLaws.CompleteInBytes` | proto/proto.go:500-577 | in that case a message that is not chunked is complete exactly when its joined bytes are a header section and a body of its Content-Length |
| `FullPayloadLaws.CompleteByMark` | proto/proto.go:549-577 | a chunked message is complete exactly when it has a body and its last segment ends in the mark, an empty line behind a `0` or, with trailers, any empty line |
| `FullPayloadLaws.FlagMeans` | proto/proto.go:549-577 | the full-payload flag is set exactly when a chunked message without trailers was found complete, and is never taken back |
| `FullPayloadLaws.SplitEmptyLine` | proto/proto.go:500-520 | if no segment holds a whole empty line the message is never complete |
| `FullPayloadLaws.LearnedStable` | proto/proto.go:500-547 | what was learned once the header section is complete does not change with more segments |
| `FullPayload.HTTPState.HasFull` | proto/proto.go:469-578 | the call on the state object: answer and new fields as specified |
| `FullPayload.HTTPState.FindBody` | proto/proto.go:500-516 | the index behind the first empty line inside one segment |
| `FullPayload.HTTPState.ReadSegment` | proto/proto.go:525-540 | what one segment's headers say |
| `FullPayload.HTTPState.ParseSegments` | proto/proto.go:522-547 | the header loop |
| `FullPayload.SumLengths` | proto/proto.go:549-552 | the total length |
| `Chunked.CheckChunked` | proto/proto.go:413-446 | the loop computes the scan |
| `Chunked.ReadChunk` | proto/proto.go:419-443 | one turn: the end of the chunk at this place and whether it is the last, or nothing |
| `Chunked.ScanComplete` | proto/proto.go:413-446 | on the encoding of any chunks and the zero chunk, with any tail: exactly its length, and full |
| `Chunked.ScanPartial` | proto/proto.go:413-446 | on any proper prefix of it: the last chunk boundary, and not full |
| `Chunked.ScanStable` | proto/proto.go:413-446 | more bytes never lower the end and never undo full |
| `Chunked.ScanSound` | proto/proto.go:434-438 | what was scanned is the sequence of the chunks it read, none but the last of them empty; full exactly when the last is empty |
| `Chunked.FullIsBody` | proto/proto.go:413-446 | what a full scan has measured is a well-formed chunked body if and only if every chunk read ends both its lines in LF and has a size text of one or more digits, with nothing or an extension behind them |
| `Chunked.AcceptsOtherBytes` | proto/proto.go:435 | first failing input: the AND test accepts bytes that are no LF, in a body without a single CRLF that is full |
| `Chunked.AcceptsNoDigits` | proto/proto.go:427-430 | second failing input: a size text without a digit passes once a semicolon stands behind its first byte, and counts as the zero chunk |
| `ChunkedCuts.CutsExactly` | proto/proto.go:565-573 | no cut of a chunked body is taken for complete too early if and only if no chunk but the last holds a `0` followed by an empty line |
| `ChunkedCuts.CutMarksLast` | proto/proto.go:565-573 | such a body is taken for complete at its last segment, and no earlier, if and only if that segment has five bytes or more and the size line of the zero chunk ends in the digit |
| `ChunkedCuts.EarlyEnd` | proto/proto.go:565-573 | the failing input: a chunk of size `10` whose data begin with a line break |
| `Decimal.ParseUnsigned` | proto/proto.go:581-597 | the loop of `atoI`: the value of the longest digit prefix, wrapped to 64 bits, and whether that was all |
| `Decimal.AtoIReads` | proto/proto.go:581-597 | on digits: the number they denote, if it fits |
| `Decimal.AtoIStops` | proto/proto.go:585-593 | at the first other byte the number read so far is kept |
| `Decimal.ParseFormat` | input/input_file.go:52 | every 64-bit timestamp survives printing and parsing |
| `Titles.TitleLocal` | proto/proto.go:346-408 | a title depends on its own line only |
| `Titles.TitleLength` | proto/proto.go:336-408 | no title is shorter than 14 bytes |
| `Titles.ResponseTitled` | proto/proto.go:346-408 | an HTTP/1 version, a registered status code and a space or the line end make a response title and no request title |
| `Titles.ResponseParts` | proto/proto.go:346-372 | a response title is one of two versions, a registered code of three digits, and a space or the line end behind it |
| `Headers.FindHeader` | proto/proto.go:61-121 | value and positions of the first matching line; fails exactly when nothing stands between its colon and its LF |
| `Headers.LocateHeader` | proto/proto.go:73-97 | the scan stops at the first line whose text before the colon folds to the name |
| `Headers.TrimBlanks` | proto/proto.go:103-117 | both ends trimmed of bytes below 0x21, until one byte is left |
| `Bytes.FoldMeans` | proto/proto.go:86 | header names fold to each other exactly if they are the same byte by byte, but for the case of letters |
| `HeaderScan.FindEdited` | proto/proto.go:73-97 | a rewritten line that still matches is where the scan stops |
| `HeaderScan.FindOther` | proto/proto.go:73-97 | rewriting a line does not change what is found for other names |
| `HeaderScan.FindDeleted` | proto/proto.go:73-97 | with a line taken out, every other header is found with the same text |
| `HeaderScan.SameSuffix` | proto/proto.go:73-97 | the scan depends on the text behind its start only |
| `HeaderEdits.SetThenGet` | proto/proto.go:151-168 | the value just set is the value read exactly when it has no LF and survives trimming between the blanks that stay around it; a new line needs the condition of `AddThenGet`, and the empty value survives only where no blanks stay |
| `HeaderEdits.EmptyReadsAsSpace` | proto/proto.go:103-186 | the failing input: an empty value added reads back as a space |
| `HeaderEdits.AddThenGet` | proto/proto.go:151-186 | the value just added is the value read, even beside an older header of the name, exactly when it has no LF and is one byte or has no blank at either end |
| `HeaderEdits.SetKeepsOthers` | proto/proto.go:151-168 | setting a header to any value without LF leaves the value of every other as it was |
| `HeaderEdits.AddKeepsOthers` | proto/proto.go:151-186 | adding a header leaves the value of every other as it was |
| `HeaderEdits.SetKeepsBody` | proto/proto.go:159-204 | setting a header of the header section to any value without LF leaves the body as it was |
| `HeaderEdits.DeleteUndoesAdd` | proto/proto.go:172-194 | deleting the header just added restores the payload byte for byte, exactly when the value has no LF |
| `HeaderEdits.DeleteKeepsOthers` | proto/proto.go:151-194 | deleting a header leaves the value of every other as it was, even if what is left is too short for a title |
| `HeaderEdits.DeleteKeepsBody` | proto/proto.go:188-204 | deleting a CRLF line of the header section leaves the body as it was |
| `HeaderEdits.DeleteLonger` | proto/proto.go:188-194 | a header that is there is sliced out alike when more text follows |
| `HeaderLists.ListValue` | proto/proto.go:61-97 | of header lines written one above the other, the one added last for a name, in whatever case, is the one read |
| `HeaderLists.ListDelete` | proto/proto.go:61-194 | deleting a header takes out that line and leaves the other lines as written |
| `HeaderLists.DeleteCommutes` | proto/proto.go:172-194 | adding a line and deleting one of another name give the same payload in either order |
| `HeaderEdits.SetHeaderSlice` | proto/proto.go:159-168 | the in-place edit leaves in the buffer the text the specification of `SetHeader` gives, for a value that shares no byte with the buffer |
| `HeaderEdits.AddHeaderSlice` | proto/proto.go:172-186 | the in-place edit leaves in the buffer the text the specification of `AddHeader` gives |
| `HeaderEdits.DeleteHeaderSlice` | proto/proto.go:188-194 | the in-place edit leaves in the buffer the text the specification of `DeleteHeader` gives |
| `ByteUtils.CutSlice` | byteutils/byteutils.go:12-17 | the range is gone and all other bytes are kept in order, although source and target overlap |
| `ByteUtils.InsertSlice` | byteutils/byteutils.go:28-34 | the new bytes stand at the place and all others are kept, unless making room writes over the new bytes themselves |
| `ByteUtils.ReplaceSlice` | byteutils/byteutils.go:37-58 | in all three length cases the result is cutting the range and inserting the new bytes, unless making room writes over the new bytes themselves |
| `ByteUtils.ReplaceApart` | byteutils/byteutils.go:37-58 | with new bytes that share none with the slice the result is the replacement in all three length cases |
| `ByteUtils.OpenGap` | byteutils/byteutils.go:40-47 | the growing case: tail shifted right, new bytes written |
| `ByteUtils.CloseGap` | byteutils/byteutils.go:50-57 | the other two cases: new bytes written, tail pulled left if there is a gap, even if the new bytes share the array |
| `ByteUtils.ShiftRightReplaces` | byteutils/byteutils.go:40-47 | shifting the tail right with an overlapping copy and writing the new bytes replaces the range, seen on the whole backing array |
| `ByteUtils.ShiftLeftReplaces` | byteutils/byteutils.go:50-53 | writing fewer bytes and pulling the tail left with an overlapping copy replaces the range, seen on the whole backing array |
| `ByteUtils.CutUndoesInsert` | byteutils/byteutils.go:12-34 | `Cut` undoes `Insert` |
| `Paths.SetPathParamThenGet` | proto/proto.go:228-286 | on any request: the parameter reads back, replaced or appended; method, everything behind the path, every header and the body are unchanged |
| `Paths.SetPathParamKeepsOthers` | proto/proto.go:228-286 | with a well-formed query every other parameter keeps its value |
| `Paths.SetPathThenGet` | proto/proto.go:206-225 | the path read back is the path set, exactly when it has no space and no CRLF |
| `Paths.SetPathTitled` | proto/proto.go:206-225 | such a path keeps the request a request with the same method and the same text behind the path |
| `Paths.SetPathOfAnswer` | proto/proto.go:217-225 | set on a response, the path takes the place of the status code |
| `Paths.SetPathOfBareAnswer` | proto/proto.go:217-225 | set on a response without a reason, the path is inserted before the code |
| `Paths.RequestTitled` | proto/proto.go:375-403 | any known method, any path without space or CRLF and any HTTP/1 version put together are a request title |
| `Paths.RequestParts` | proto/proto.go:375-403 | a request line is method, path and version between two single spaces |
| `Paths.BodyBehindLine` | proto/proto.go:197-204 | the body does not depend on the first line |
| `Paths.HeadersBehindLine` | proto/proto.go:61-97 | the value of a header does not depend on the first line |
| `Paths.SetPathSlice` | proto/proto.go:217-225 | the in-place edit leaves in the buffer the text of the specification, the response case included, for a path that shares no byte with the buffer |
| `Paths.SetPathParamSlice` | proto/proto.go:253-286 | the edit leaves in the buffer the text of the specification; the new path is built in a buffer of its own |
| `Query.SetThenGet` | proto/proto.go:228-286 | on the path: the value set is found where it was written |
| `Query.SetIsJoined` | proto/proto.go:253-286 | setting writes one parameter and leaves the text on both sides |
| `Query.AppendedAs` | proto/proto.go:253-286 | a parameter that is not there is appended, behind a question mark if there was none |
| `Query.OccursWhere` | proto/proto.go:232-236 | another parameter stands wholly before or wholly behind a parameter |
| `QueryLaws.OthersKept` | proto/proto.go:228-286 | another parameter is found at the place that was its own, with its text, for every value set, exactly when it stands clear of the edited place |
| `QueryLaws.ValueKept` | proto/proto.go:228-286 | setting one parameter keeps the value read for another, for every value set, if and only if the empty value keeps it and the other then stands clear |
| `QueryLaws.WellFormedClear` | proto/proto.go:228-250 | with at most one `?` and every `&` behind it, all parameters stand clear of each other |
| `QueryLaws.WellFormedKept` | proto/proto.go:228-286 | in a well-formed query every other parameter keeps its value |
| `QueryLaws.ParamInsideValueLost` | proto/proto.go:228-286 | in a query that is not well formed a parameter can get lost: a concrete path and parameter |
| `LogLaws.LogRoundTrip` | output/output_file.go:200-221 | what the file output wrote of any messages, the reader hands out: the requests, in order, byte for byte, with their timestamps; exactly when the marker stands on no line of any of them |
| `LogLaws.ListReadsBack` | input/input_file.go:27-60 | a list of framed records reads back in order with its timestamps, exactly when the marker stands on no line of any of them |
| `LogLaws.RecordReadsBack` | input/input_file.go:27-60 | one framed record is read as it was, and the rest after it |
| `LogLaws.MarkersFound` | input/input_file.go:48 | a marker line is counted exactly when the marker stands at the start of a line |
| `LogLaws.MarkersCountRecords` | input/input_file.go:27-60 | the reader hands out one record for each marker line |
| `LogLaws.RequestByType` | output/output_file.go:212-218 | a message is written exactly if its type is 1 |
| `RecordLog.HeaderReadsBack` | proto/goreplay.go:21-36 | the four fields read back and the body is what follows, exactly when the identifier has no space and no LF |
| `RecordLog.SeparatorText` | proto/goreplay.go:19 | the separator is a line of three emoji in UTF-8 |
| `RecordLog.FileOutput.PluginWriter` | output/output_file.go:222-262 | the file is the log of the requests received so far, and the counters agree with it |
| `RecordLog.FileReader.ParseNext` | input/input_file.go:27-60 | the reader holds the next record, is closed at the end, or fails on a malformed one |
| `RecordLog.MalformedMeans` | input/input_file.go:47-53 | a record is malformed exactly when its first line has fewer than two spaces |
| `RecordLog.FileReader.ReadPayload` | input/input_file.go:62-66 | the current record is handed out and the rest is what was left |
| `RecordLog.NewFileReader` | input/input_file.go:75-99 | a new reader has everything in the file ahead of it |
| `Replay.FileInput.Emit` | input/input_file.go:187-226 | the loop sends the merge of what the readers hold, with the pauses of its timestamps |
| `Replay.FileInput.NextReader` | input/input_file.go:172-185 | the first of the earliest current records |
| `Replay.FileInput.Take` | input/input_file.go:62-66 | only the chosen reader moves on |
| `Replay.FileInput.Init` | input/input_file.go:135-158 | one reader per file that can be opened |
| `ReplayLaws.EachOnce` | input/input_file.go:187-226 | each record of each file is sent exactly once, in the order of its file, exactly when no record behind a good one is malformed |
| `ReplayLaws.MergeInOrder` | input/input_file.go:172-226 | if every file is in order of time, so is the output |
| `ReplayLaws.BestIs` | input/input_file.go:172-185 | no reader holds an earlier record than the chosen one, and none before it an equally early one |
| `ReplayLaws.ReplayTakesAsLong` | input/input_file.go:205-216 | at speed 1 the pauses add up to last minus first timestamp if and only if the time behind records stamped -1 adds up to nothing; for records in order, if and only if each such record but the last is followed by another one |
| `ReplayLaws.ReplayTime` | input/input_file.go:205-216 | in any case they add up to last minus first minus that time |
| `ReplayLaws.PauseLost` | input/input_file.go:205-216 | the failing input: records stamped -2, -1 and 5 are replayed with one nanosecond of pause instead of seven |
| `ReplayLaws.FilesTakeAsLong` | input/input_file.go:187-226 | the same for what the loop sends of files in order |
| `ReplayLaws.SleepsScale` | input/input_file.go:209-213 | at any speed the pauses fall short of the time that is not skipped, divided by the speed, by less than one nanosecond per record |
| `ReplayLaws.LogsReplayed` | input/input_file.go:187-226 | writing several logs and replaying them sends of each exactly its requests, in order and unchanged |
| `ReplayLaws.FilesReplayed` | input/input_file.go:135-158 | files that cannot be opened are passed over, and of each of the others exactly its requests are sent, in order |
| `ReplayLaws.EmptyRecordFails` | input/input_file.go:44-53 | a file that begins with an end-of-record line cannot be started |
| `Emitter.CopyMulty` | emitter.go:55-120 | the loop computes the run of the state machine: what every output got, the counter and the pending identifiers |
| `Emitter.RemoveOld` | emitter.go:108-113 | in any order of the map, exactly the entries over a minute old go, and the counter falls by their number |
| `Emitter.WriteAll` | emitter.go:97-101 | the outputs up to the first failing one are given the message |
| `EmitterLaws.CounterAccounts` | emitter.go:55-120 | in every run the counter is the number of pending identifiers plus the number of requests filtered again while pending; and every filtered request is pending, filtered again, answered or cleaned up |
| `EmitterLaws.SuppressedExactly` | emitter.go:88-94 | a response is suppressed exactly when a request with its identifier was filtered whose entry nothing has used up or cleaned since |
| `EmitterLaws.PendingMeans` | emitter.go:80-116 | an identifier is pending exactly when a request with it was filtered whose entry nothing has used up or cleaned since, and the entry holds that request's time |
| `EmitterLaws.YoungKept` | emitter.go:104-115 | no clean-up removes an entry a minute old or younger |
| `EmitterLaws.AllReceive` | emitter.go:66-101 | with or without a modifier, while no output fails all have received, in order, the messages of exactly the rounds that hand one over: well-formed, neither filtered nor suppressed, with unchanged meta data, cut to the buffer, requests as the modifier rewrote them |
| `EmitterLaws.ActMeans` | emitter.go:66-96 | a request is left out exactly when the modifier leaves nothing of it, a response exactly when its request is pending |
| `EmitterLaws.CleansWhenDue` | emitter.go:103-117 | the clean-up comes exactly when the count of filtered requests is a positive multiple of a thousand and the last one was more than a minute ago; it removes exactly the entries over a minute old |
| `EmitterLaws.SameForAll` | emitter.go:97-101 | while no output fails all have received the same messages in the same order |
| `EmitterLaws.EndedEarly` | emitter.go:97-101 | when one fails, those up to it have received everything and those behind it all but the last message |
| `Limiter.RateLimiter.IsLimited` | limiter.go:51-73 | the call on the limiter: answer and new window as specified, in all three modes |
| `Limiter.RateBound` | limiter.go:61-72 | in every run with a monotone clock the calls that pass in an interval are at most the limit times its whole seconds plus two |
| `Limiter.OpenedIn` | limiter.go:61-64 | windows are opened more than a second apart |
| `Limiter.PassedFrom` | limiter.go:66-72 | each window lets at most the limit pass |
| `Limiter.DroppedExactly` | limiter.go:61-72 | a call is dropped exactly when the limit has passed in a window that is not over |
| `Limiter.PercentPasses` | limiter.go:51-59 | of the hundred numbers that can be drawn as many let a call pass as the limit says percent |

## Left out

- Parser.MergeNext: a merge with a message of more than one packet, or with one that does not complete the header segment, is not modelled; there the Acks shift again for every packet, so no exactly-once claim holds.
- ParserObject.MessageParser.ProcessPacket: requires that no merge of two messages is triggered; the merge itself is modelled on values in `Parser.MergeNext`.
- ParserObject.MessageParser.AddPacket: requires that adding the packet triggers no merge.
- ParserObject.MessageParser.Fix100Continue: requires that no message is tracked under the shifted ID.
- ParserObject.MessageParser.constructor: ports and addresses are an argument of `ParserLoop.Wait`; the goroutine, the channels and the default expiry are not modelled.
- ParserLoop.Wait: requires inputs that never make two messages merge, and extension chains on which parsing returns; the loop ends with its inputs instead of a close signal.
- ParserLaws.RunKeeps: runs in which no incomplete message is re-keyed; `ShiftLaws.RunSound` has the runs in which some are.
- ParserLaws.RunConserves: likewise; `ShiftLaws.RunContent` has the other runs, with Acks left out since they move.
- ShiftLaws.RunSound: runs in which no two messages are merged.
- PacketParser.ParsePacket: requires an extension chain on which the original's loop returns; `PacketCodec.EndlessIffStall` says which those are.
- FullPayload.HTTPState.HasFull: a header line with nothing between its colon and its LF reads as blank, where the original fails with a run-time error (`Headers.FindHeader` says when).
- HeaderEdits.SetThenGet: requires that such a line is not the one to be set.
- HeaderEdits.SetHeaderSlice: says nothing about the text when the value shares bytes with the payload's buffer.
- Paths.SetPathSlice: says nothing about the text when the path shares bytes with the payload's buffer.
- ByteUtils.InsertSlice: says nothing about the text when the new bytes lie where the tail is moved to or zeros are appended.
- ByteUtils.ReplaceSlice: says nothing about the text in that case either, if the text grows.
- FullPayloadLaws.SplitEmptyLine: an empty line inside a later segment is taken for the end of the header section, as `FullPayloadLaws.HeaderSectionFound` says.
- FullPayloadLaws.CompleteByMark: a header section in the first segment.
- Headers.LocateHeader: case folding covers ASCII letters only, where `bytes.EqualFold` folds all of Unicode.
- Chunked.CheckChunked: a size text of sixteen or more hexadecimal digits ends the scan, where the original goes on, with a wrapped number if it does not fit.
- ContinueBodies.SentIfOneSegment: the segments arrive one after the other, without other traffic between.
- Continue100.BodyFirst: no repeats of either segment between the two.
- Reassembly.LastSegment: a retransmission that cuts the bytes differently is no copy of a segment, since `add` compares Seq only; LF-only header lines are not header lines here.
- MessageObject.Message.Data: the joined bytes are copied before the Expect line is cut; where nothing was appended the original cuts inside the payload of the first packet, so a second call would differ. It is called once for each message.
- ClientRequests.WrittenChunked: no trailers; `Reassembly.LastSegment` covers chunked requests with trailers whose last segment alone ends in an empty line.
- MessageObject.Message.Account: `Length` and `LostData` are unbounded; packet times are not before Go's zero time.
- Paths.SetPathParamSlice: the search pattern is built by an `append` to the name, which may overwrite a byte behind it in the caller's buffer; here names are values.
- RecordLog.FileOutput.PluginWriter: one open file; file names, rotation, compression, flushing, one file per request and write errors are not modelled, and neither are protocols other than HTTP.
- RecordLog.FileReader.ParseNext: read errors other than the end of the file are not modelled.
- Replay.FileInput.Emit: the loop option, the exit channel and a speed factor of zero are not modelled; the speed factor is a real number.
- ReplayLaws.ReplayTakesAsLong: differences of neighbouring timestamps fit 64 bits.
- ReplayLaws.SleepsScale: the speed factor is a real number, and the records are in order.
- Capture.CapturedIsReplayed: no modifier and no failing output; `EmitterLaws` has the laws for both.
- Capture.AllPass: no modifier and no failing output, likewise.
- MessageLaws.FeedMembers: for arrivals in which a Seq names its packet; `MessageLaws.AnyCopies` is for copies that differ in other fields.
- Emitter.CopyMulty: identifiers are values, where the original shares their bytes with the message; clock readings are unbounded integers.
- Limiter.RateLimiter.IsLimited: option parsing and the wrapped reader and writer are not modelled; the random number is a parameter.
- Hints for binary protocols (no end hint, messages leave by the timer only), source and destination address strings, parser statistics.
- Capture devices and filter expressions, address lists, `core/new_packet.go`, which repeats the packet parser.
- `ParseHeaders`, `SetHost`, `Status`, random identifiers; file index names (`getFileIndex`, `setFileIndex`).
- The HTTP modifier's rules and regular expressions, percentage limits as probabilities, settings, plugins, Dubbo, Kafka, TCP output, JSON and gzip.
