# RTCP in jrtplib: a verified model

This project models the protocol logic of JRTPLIB as it is vendored under
`src/RtpTrans/rtplib/jrtplib`, and proves what it promises.

- **Compound packets.** `RTCPCompoundPacketBuilder` collects reports, source descriptions, APP and
  BYE packets under a byte budget and writes them, 31 blocks or sources to a packet
  (`BuilderModel`, `BuilderParts`, `BuilderLaws`, `PacketSizes`, `PacketWriter`, `CompoundBuilder`).
  `RTCPCompoundPacket` and the packet classes read bytes back (`Wire`, `ReportFormat`,
  `ByeAppFormat`, `SdesFormat`, `SdesParser`, `CompoundPacket`). `RoundTrip`, `BuilderRuns` and
  `Receiver` join the two: from any run of builder calls to what a receiver learns through accessors
  and cursors (sections 6.1 and 6.4 to 6.7 of RFC 3550).
- **Packet building.** `RTCPPacketBuilder` spreads report blocks and SDES items over successive
  packets with "processed" marks (`PacketBuilderModel`, `PacketBuilder`, `PacketBuilderSizes`,
  `PacketBuilderRuns`, `PacketBuilderCycles`, `PacketBuilderRoundRobin`, `PacketBuilderContents`).
- **Hash table.** `RTPHashTable` with its doubly linked lists refines a duplicate-free sequence with
  a cursor (`HashTable`).
- **Scheduling.** `RTCPScheduler`: intervals, reconsideration, reverse reconsideration, the average
  packet size (`Scheduler`, `SchedulerLaws`, `SchedulerRuns`, `SchedulerShares`; sections 6.2 and 6.3 of
  RFC 3550).
- **Two concurrent protocols.** `RTPExternalTransmitter` and the `JThread::Start` handshake as state
  machines over interleaved atomic steps (`ExternalTransmitter`, `ExternalTransmitterReturns`,
  `ExternalTransmitterWakes`, `ThreadStart`).

Objects the source updates in place are classes here. Each carries a value that it stands for, its
methods are proved against functions on such values (`Do...`, `Step`, `NextPacket`), and the theorems
are about whole runs of those functions. Bytes are numbers from 0 to 255; the bit fields, the cut to
16 bits of a word count, the 24-bit loss count and the unsigned subtraction of sizes are written out.

`dafny verify dfyconfig.toml` checks the whole project.

## Where the code does not do what is expected of it

- The first SDES source is not counted against the maximum packet size, and a report that is started
  after that compares with an unsigned difference that has wrapped around. The bound that does hold
  is the maximum plus 12, or plus 40 (`BuilderRuns.BudgetBound`, reached in `BudgetBoundReached`).
- So `EndBuild` can write 640 bytes to a buffer of the caller that has 600. It stays within the buffer
  exactly on the runs that never overdraw the budget (`BuilderRuns.ExternalFitsIff`).
- The word count of an SDES packet is cut to 16 bits without a check, so a very long packet is not
  read back (`RoundTrip.BoundariesKept`, `BuilderRuns.LongSourceLost`).
- A source that becomes reportable between two packets can be reported twice in one packet
  (`PacketBuilderRoundRobin.ReportsTwiceIff`, reached from a new builder in `LateSourceTwice`).
- Destroying and initialising a packet builder again during an SDES cycle keeps the marks of the items
  that were sent (`PacketBuilderCycles.CycleCompleteIff`, reached from a new builder in `MarksSurvive`).
- `BuildNextPacket` follows a null pointer when the source table is empty, unless it only goes on with
  an SDES cycle (`PacketBuilderRuns.NextOutcome`, reached in `NullReached`). The model gives such a call the
  status `NullSource`; in the code it has none.
- The abort pipe is emptied only by a wait that selects. Without one, an injector finally blocks in
  its write and holds the main mutex for ever (`ExternalTransmitter.JamReached`, `JammedForever`). From
  every reachable state, which calls can still return (`ExternalTransmitterReturns.ReturnsIff`,
  `CallReturnsIff`).
- `Start` never returns if `Thread()` ends without calling `ThreadStarted`, and only then can it not
  (`ThreadStart.ReturnsIff`, reached from the start in `OrphanReached`).

## Model

| member | source | states |
|---|---|---|
| `Wire.HeaderFields` | src/RtpTrans/rtplib/jrtplib/rtcpcompoundpacketbuilder.cpp:603-636 | A common header that EndBuild writes is read back with version 2, no padding, its count and type; the announced size is the written one exactly up to 262144 bytes, and too small beyond, because the word count is cut to 16 bits |
| `Wire.HeaderBits` | src/RtpTrans/rtplib/jrtplib/rtpstructs.h:83-97 | Of any header, received or written: two bits of version, one of padding, five of count, then the type and the number of words after the first |
| `Wire.PaddingRemoved` | src/RtpTrans/rtplib/jrtplib/rtcpsdespacket.cpp:56-64 | A packet whose first byte is in 160 to 191 loses as many bytes as its last one says if these are whole words and leave a byte, and otherwise has no length |
| `Wire.Net32RoundTrip` | src/RtpTrans/rtplib/jrtplib/rtcpbyepacket.h:98-104 | A 32-bit value written in network order anywhere in a buffer is read back |
| `Wire.U32AtBytes` | src/RtpTrans/rtplib/jrtplib/rtcpsdespacket.h:202-210 | The network-order bytes of a value that was read are the bytes it was read from |
| `SdesFormat.EncodedChunksAt` | src/RtpTrans/rtplib/jrtplib/rtcpcompoundpacketbuilder.cpp:676-709 | The bytes written for a list of chunks follow the SDES grammar and mean exactly those chunks |
| `SdesFormat.ChunksAtUnique` | src/RtpTrans/rtplib/jrtplib/rtcpsdespacket.cpp:75-135 | Bytes have at most one reading as a given number of chunks |
| `SdesFormat.PrivRoundTrip` | src/RtpTrans/rtplib/jrtplib/rtcpcompoundpacketbuilder.cpp:349-393 | The prefix and the value of a private item are recovered from its data |
| `SdesFormat.ChunksSizeAligned` | src/RtpTrans/rtplib/jrtplib/rtcpcompoundpacketbuilder.h:236-256 | Chunks fill whole 32-bit words |
| `SdesParser.ChunksFitSound` | src/RtpTrans/rtplib/jrtplib/rtcpsdespacket.cpp:75-135 | If the scan of the constructor accepts a body, there are chunks of which the body consists, as many as announced |
| `SdesParser.ChunksFitComplete` | src/RtpTrans/rtplib/jrtplib/rtcpsdespacket.cpp:75-135 | The scan accepts every body that consists of the announced number of chunks |
| `SdesParser.WellFormedFits` | src/RtpTrans/rtplib/jrtplib/rtcpsdespacket.cpp:44-145 | A packet is well formed by the grammar if and only if padding, size and scan are accepted |
| `SdesParser.SDESPacket.constructor` | src/RtpTrans/rtplib/jrtplib/rtcpsdespacket.cpp:44-145 | knownformat is set if and only if the packet is a well-formed SDES packet; the object then has its chunks |
| `SdesParser.SDESPacket.Validate` | src/RtpTrans/rtplib/jrtplib/rtcpsdespacket.cpp:44-145 | The nested loops over chunks and items decide well-formedness, in both directions, and terminate |
| `SdesParser.SDESPacket.ValidateChunks` | src/RtpTrans/rtplib/jrtplib/rtcpsdespacket.cpp:75-135 | The outer loop accepts exactly the bodies that split into the announced chunks |
| `SdesParser.SDESPacket.GotoFirstChunk` | src/RtpTrans/rtplib/jrtplib/rtcpsdespacket.h:162-173 | For any object the constructor has made: true if and only if there is a chunk; the cursor is then at the first |
| `SdesParser.SDESPacket.GotoNextChunk` | src/RtpTrans/rtplib/jrtplib/rtcpsdespacket.h:175-200 | Moves to the start of the next chunk by skipping items and zeros, reading only inside the packet; false exactly at the last chunk |
| `SdesParser.SDESPacket.GetChunkSSRC` | src/RtpTrans/rtplib/jrtplib/rtcpsdespacket.h:202-210 | The SSRC of the current chunk |
| `SdesParser.SDESPacket.GotoFirstItem` | src/RtpTrans/rtplib/jrtplib/rtcpsdespacket.h:212-223 | True if and only if the current chunk has an item; the cursor is then at the first |
| `SdesParser.SDESPacket.GotoNextItem` | src/RtpTrans/rtplib/jrtplib/rtcpsdespacket.h:225-244 | Moves to the next item, reading only inside the packet; false exactly at the last item |
| `SdesParser.SDESPacket.GetItemType` | src/RtpTrans/rtplib/jrtplib/rtcpsdespacket.h:246-277 | The type of the current item, unknown types included |
| `SdesParser.SDESPacket.GetItemData` | src/RtpTrans/rtplib/jrtplib/rtcpsdespacket.h:291-301 | The data of the current item |
| `SdesParser.SDESPacket.GetPRIVPrefix` | src/RtpTrans/rtplib/jrtplib/rtcpsdespacket.h:304-340 | The prefix of a private item, and nothing when the item is not private or its prefix does not fit |
| `SdesParser.SDESPacket.GetPRIVValue` | src/RtpTrans/rtplib/jrtplib/rtcpsdespacket.h:342-378 | The value of a private item, and nothing when the item is not private or its prefix does not fit |
| `SdesParser.Walk` | src/RtpTrans/rtplib/jrtplib/rtpsources.cpp:450-493 | For any object the constructor has made, wherever its cursors are: the two cursor loops of a client terminate and see every chunk and every item of the packet once, in order, a private item by its prefix and its value; the client may also stop at an error |
| `SdesParser.TypeTable` | src/RtpTrans/rtplib/jrtplib/rtcpsdespacket.h:246-277 | The identifiers 0 to 8 have their types in this order, and every other one is unknown |
| `SdesParser.ViewAt` | src/RtpTrans/rtplib/jrtplib/rtcpsdespacket.h:279-378 | What is seen of each item of each chunk: source, type and text, or for a private item the part its first byte measures and the rest |
| `ReportFormat.LostRoundTrip` | src/RtpTrans/rtplib/jrtplib/rtcprrpacket.h:159-169 | A loss count that is sent comes back as the sign extension of its low 24 bits |
| `ReportFormat.BlockRoundTrip` | src/RtpTrans/rtplib/jrtplib/rtcpsrpacket.h:183-247 | A report block is read back from its bytes wherever they lie, but for the loss count |
| `ReportFormat.SRPacket.constructor` | src/RtpTrans/rtplib/jrtplib/rtcpsrpacket.cpp:43-70 | knownformat if and only if the size, without padding, is that of the fixed part and the announced blocks |
| `ReportFormat.RRPacket.constructor` | src/RtpTrans/rtplib/jrtplib/rtcprrpacket.cpp:43-70 | knownformat if and only if the size, without padding, is that of the fixed part and the announced blocks |
| `ReportFormat.SenderReportRoundTrip` | src/RtpTrans/rtplib/jrtplib/rtcpsrpacket.h:133-247 | The accessors of an SR packet return the sender, the sender information and the blocks it was built from |
| `ReportFormat.ReceiverReportRoundTrip` | src/RtpTrans/rtplib/jrtplib/rtcprrpacket.h:121-201 | The accessors of an RR packet return the sender and the blocks it was built from |
| `ReportFormat.SenderReportBytes` | src/RtpTrans/rtplib/jrtplib/rtcpsrpacket.h:133-247 | The accessors of any SR packet that is received return all its bytes between header and padding; in an unknown format, nothing |
| `ReportFormat.ReceiverReportBytes` | src/RtpTrans/rtplib/jrtplib/rtcprrpacket.h:121-201 | Likewise for any RR packet |
| `ByeAppFormat.BYEPacket.Validate` | src/RtpTrans/rtplib/jrtplib/rtcpbyepacket.cpp:44-76 | The format is known if and only if the unpadded packet is the announced list of SSRCs, followed by nothing or by a reason that fits |
| `ByeAppFormat.ByeFitsWellFormed` | src/RtpTrans/rtplib/jrtplib/rtcpbyepacket.cpp:44-76 | The length comparisons of the constructor are the declarative format, in both directions |
| `ByeAppFormat.ByeRoundTrip` | src/RtpTrans/rtplib/jrtplib/rtcpbyepacket.h:89-135 | The accessors of a BYE packet return the SSRCs and the reason it was built from |
| `ByeAppFormat.ByeSourceBytes` | src/RtpTrans/rtplib/jrtplib/rtcpbyepacket.h:89-104 | The accessors of any BYE packet that is received return as many sources as its first byte counts, in order |
| `ByeAppFormat.ByeReasonBytes` | src/RtpTrans/rtplib/jrtplib/rtcpbyepacket.h:106-135 | There is a reason exactly if anything follows the sources before the padding: the text that the next byte measures |
| `ByeAppFormat.APPPacket.constructor` | src/RtpTrans/rtplib/jrtplib/rtcpapppacket.cpp:45-69 | knownformat if and only if the unpadded packet has room for the SSRC and the name |
| `ByeAppFormat.AppRoundTrip` | src/RtpTrans/rtplib/jrtplib/rtcpapppacket.h:88-128 | The accessors of an APP packet return the subtype, SSRC, name and data it was built from |
| `ByeAppFormat.AppBytes` | src/RtpTrans/rtplib/jrtplib/rtcpapppacket.h:88-128 | The accessors of any APP packet that is received return all its bytes between header and padding |
| `CompoundPacket.CompoundParses` | src/RtpTrans/rtplib/jrtplib/rtcpcompoundpacket.cpp:105-198 | The checks of the parse loop accept a buffer if and only if it tiles into version-2 packets without a gap, a report first, padding only on the last |
| `CompoundPacket.TilesBytes` | src/RtpTrans/rtplib/jrtplib/rtcpcompoundpacket.cpp:105-198 | What a compound packet is, byte by byte: first bytes 128 to 159, or up to 191 on the last packet, type 200 or 201 first, and word counts that lead from packet to packet |
| `CompoundPacket.PaddedMustBeLast` | src/RtpTrans/rtplib/jrtplib/rtcpcompoundpacket.cpp:147-155 | A padded packet with anything after it is not the start of a compound packet |
| `CompoundPacket.TilesSplit` | src/RtpTrans/rtplib/jrtplib/rtcpcompoundpacket.cpp:105-198 | A buffer has only one division into packets |
| `CompoundPacket.SplitTiles` | src/RtpTrans/rtplib/jrtplib/rtcpcompoundpacket.cpp:105-198 | What the loop cuts off, packet by packet, tiles the buffer |
| `CompoundPacket.CompoundPacket.ParseData` | src/RtpTrans/rtplib/jrtplib/rtcpcompoundpacket.cpp:105-198 | Succeeds if and only if the buffer is a compound packet; the list then has one object of the right class for each packet, in order, and the SDES objects are new; on rejection the list is empty; the loop terminates |
| `CompoundPacket.CompoundPacket.constructor` | src/RtpTrans/rtplib/jrtplib/rtcpcompoundpacket.cpp:53-79 | Data that is RTP or no compound packet gives the error and an empty list; otherwise the list is that of the parser |
| `CompoundPacket.NewPacket` | src/RtpTrans/rtplib/jrtplib/rtcpcompoundpacket.cpp:157-178 | The class of a packet object follows the packet type; an SDES object is new |
| `CompoundPacket.KnownIff` | src/RtpTrans/rtplib/jrtplib/rtcpunknownpacket.h:62-66 | IsKnownFormat by packet type: a report exactly with the size its count calls for, SDES and BYE exactly if well formed, APP from 12 bytes on, and a packet of any other type always |
| `BuilderModel.StepProper` | src/RtpTrans/rtplib/jrtplib/rtcpcompoundpacketbuilder.cpp:108-521 | Every call of the builder, accepted or refused, keeps the state proper |
| `BuilderLaws.InitLaw` | src/RtpTrans/rtplib/jrtplib/rtcpcompoundpacketbuilder.cpp:108-152 | A build starts once and with at least 600 bytes; which error otherwise |
| `BuilderLaws.StartLaw` | src/RtpTrans/rtplib/jrtplib/rtcpcompoundpacketbuilder.cpp:154-222 | A report is started once, exactly if the bytes that EndBuild would then write fit, or if the unsigned difference has wrapped around |
| `BuilderLaws.BlockLaw` | src/RtpTrans/rtplib/jrtplib/rtcpcompoundpacketbuilder.cpp:224-259 | A block is refused without a report, and else accepted exactly if the bytes that EndBuild would then write fit |
| `BuilderLaws.SourceLaw` | src/RtpTrans/rtplib/jrtplib/rtcpcompoundpacketbuilder.cpp:261-281 | A source is accepted exactly if these bytes fit, the first one if they fit without it |
| `BuilderLaws.NormalItemLaw` | src/RtpTrans/rtplib/jrtplib/rtcpcompoundpacketbuilder.cpp:283-321 | An item is refused without a source and for a type without an identifier |
| `BuilderLaws.NormalItemAdded` | src/RtpTrans/rtplib/jrtplib/rtcpcompoundpacketbuilder.cpp:283-346 | Else it goes to the last source, with identifiers 1 to 7, exactly if these bytes fit |
| `BuilderLaws.PrivateItemLaw` | src/RtpTrans/rtplib/jrtplib/rtcpcompoundpacketbuilder.cpp:349-393 | A private item is refused without a source and when prefix and value have more than 254 bytes, and else accepted exactly if these bytes fit |
| `BuilderLaws.ByeLaw` | src/RtpTrans/rtplib/jrtplib/rtcpcompoundpacketbuilder.cpp:395-465 | A BYE packet is refused with more than 31 sources, and else accepted exactly if these bytes fit |
| `BuilderLaws.AppLaw` | src/RtpTrans/rtplib/jrtplib/rtcpcompoundpacketbuilder.cpp:467-521 | An APP packet is refused for its subtype, for part of a word, and beyond 262132 bytes, and else accepted exactly if these bytes fit |
| `BuilderLaws.EndLaw` | src/RtpTrans/rtplib/jrtplib/rtcpcompoundpacketbuilder.cpp:567-577 | A build ends once a report was started, and nothing can be added after it |
| `BuilderParts.Report.NeededBytes` | src/RtpTrans/rtplib/jrtplib/rtcpcompoundpacketbuilder.h:174-196 | The size prediction for reports is the size of the state, for any number of blocks |
| `BuilderParts.Report.NeededBytesWithExtraReportBlock` | src/RtpTrans/rtplib/jrtplib/rtcpcompoundpacketbuilder.h:198-217 | The prediction with an extra block is the size after adding it |
| `BuilderParts.SDESSource.NeededBytesWithExtraItem` | src/RtpTrans/rtplib/jrtplib/rtcpcompoundpacketbuilder.h:247-256 | The prediction for one source with an extra item is its size after adding the item |
| `BuilderParts.SDES.NeededBytes` | src/RtpTrans/rtplib/jrtplib/rtcpcompoundpacketbuilder.h:305-323 | The accumulated size of all sources, with a header for every 31, is the size of the state |
| `BuilderParts.SDES.NeededBytesWithExtraItem` | src/RtpTrans/rtplib/jrtplib/rtcpcompoundpacketbuilder.h:325-344 | The prediction with an extra item in the current source is the size after adding it |
| `BuilderParts.SDES.NeededBytesWithExtraSource` | src/RtpTrans/rtplib/jrtplib/rtcpcompoundpacketbuilder.h:346-368 | The prediction with an extra source is the size after adding it if there is a source already; with none it is 0 |
| `PacketSizes.TotalExact` | src/RtpTrans/rtplib/jrtplib/rtcpcompoundpacketbuilder.cpp:574-730 | Byte accounting is exact: the sizes that are summed are the length of the compound packet, for every state |
| `PacketSizes.ReportSizeExact` | src/RtpTrans/rtplib/jrtplib/rtcpcompoundpacketbuilder.h:174-196 | The report size formula counts the bytes of the packets of 31 blocks each |
| `PacketSizes.SdesSizeExact` | src/RtpTrans/rtplib/jrtplib/rtcpcompoundpacketbuilder.h:305-323 | The SDES size formula counts the bytes of the packets of 31 sources each |
| `CompoundBuilder.RTCPCompoundPacketBuilder.InitBuild` | src/RtpTrans/rtplib/jrtplib/rtcpcompoundpacketbuilder.cpp:108-129 | Refuses a second build and sizes under 600 bytes; otherwise starts a build with an own buffer |
| `CompoundBuilder.RTCPCompoundPacketBuilder.InitBuildExternal` | src/RtpTrans/rtplib/jrtplib/rtcpcompoundpacketbuilder.cpp:131-152 | The same with a buffer of the caller |
| `CompoundBuilder.RTCPCompoundPacketBuilder.StartSenderReport` | src/RtpTrans/rtplib/jrtplib/rtcpcompoundpacketbuilder.cpp:154-190 | Accepted once per build, if the report fits in what an unsigned subtraction says is left |
| `CompoundBuilder.RTCPCompoundPacketBuilder.StartReceiverReport` | src/RtpTrans/rtplib/jrtplib/rtcpcompoundpacketbuilder.cpp:192-219 | Accepted once per build, if the report fits in what an unsigned subtraction says is left |
| `CompoundBuilder.RTCPCompoundPacketBuilder.AddReportBlock` | src/RtpTrans/rtplib/jrtplib/rtcpcompoundpacketbuilder.cpp:221-259 | Accepted if a report was started and the packet stays within the maximum; the block is then the last one |
| `CompoundBuilder.RTCPCompoundPacketBuilder.AddSDESSource` | src/RtpTrans/rtplib/jrtplib/rtcpcompoundpacketbuilder.cpp:261-281 | Accepted if the packet stays within the maximum, the first source not being counted |
| `CompoundBuilder.RTCPCompoundPacketBuilder.AddSDESNormalItem` | src/RtpTrans/rtplib/jrtplib/rtcpcompoundpacketbuilder.cpp:283-347 | Adds the item with the identifier of its type to the last source, or says which condition failed |
| `CompoundBuilder.RTCPCompoundPacketBuilder.AddSDESPrivateItem` | src/RtpTrans/rtplib/jrtplib/rtcpcompoundpacketbuilder.cpp:349-393 | Adds prefix length, prefix and value as one item, if they are at most 255 bytes and fit |
| `CompoundBuilder.RTCPCompoundPacketBuilder.AddBYEPacket` | src/RtpTrans/rtplib/jrtplib/rtcpcompoundpacketbuilder.cpp:395-465 | Encodes and keeps a BYE packet with at most 31 SSRCs and an aligned reason, if it fits |
| `CompoundBuilder.RTCPCompoundPacketBuilder.AddAPPPacket` | src/RtpTrans/rtplib/jrtplib/rtcpcompoundpacketbuilder.cpp:467-521 | Encodes and keeps an APP packet if subtype, alignment and length are legal and it fits |
| `CompoundBuilder.RTCPCompoundPacketBuilder.EndBuild` | src/RtpTrans/rtplib/jrtplib/rtcpcompoundpacketbuilder.cpp:567-810 | Writes exactly the packets of the state, one behind the other, into a buffer of their summed size, and lists one object of the right class for each; the SDES objects are new |
| `PacketWriter.WriteReports` | src/RtpTrans/rtplib/jrtplib/rtcpcompoundpacketbuilder.cpp:597-656 | The loop writes all report packets, 31 blocks to each, the first a sender report if one was started |
| `PacketWriter.WriteSdes` | src/RtpTrans/rtplib/jrtplib/rtcpcompoundpacketbuilder.cpp:660-730 | The loop writes all SDES packets, 31 sources to each |
| `PacketWriter.WriteChunk` | src/RtpTrans/rtplib/jrtplib/rtcpcompoundpacketbuilder.cpp:678-705 | One source: SSRC, items, end marker and zeros to the next word |
| `PacketWriter.WriteEncoded` | src/RtpTrans/rtplib/jrtplib/rtcpcompoundpacketbuilder.cpp:734-803 | The kept APP and BYE packets are copied in order and listed |
| `RoundTrip.BoundariesKept` | src/RtpTrans/rtplib/jrtplib/rtcpcompoundpacketbuilder.cpp:597-803 | What was written divides into exactly the packets that were meant if and only if every SDES packet fits the 16-bit word count |
| `RoundTrip.ContentsKept` | src/RtpTrans/rtplib/jrtplib/rtcpcompoundpacketbuilder.cpp:638-650 | The objects EndBuild lists know their format, and hold all that was added, in order, loss counts cut to 24 bits: the accessors return it, and of an SDES object it is what `SdesParser.Walk` sees |
| `RoundTrip.RoundTrip` | src/RtpTrans/rtplib/jrtplib/rtcpcompoundpacket.cpp:105-198 | A receiver that parses the written bytes finds the same packets, and its objects hold everything that was added, across the splits of 31 |
| `BuilderRuns.StepBudget` | src/RtpTrans/rtplib/jrtplib/rtcpcompoundpacketbuilder.cpp:154-521 | A call takes the pending packet over the maximum if and only if it adds the first source with fewer than 12 bytes left |
| `BuilderRuns.BudgetKept` | src/RtpTrans/rtplib/jrtplib/rtcpcompoundpacketbuilder.cpp:154-521 | On any run that never does so, the pending packet is never larger than the maximum |
| `BuilderRuns.BudgetBound` | src/RtpTrans/rtplib/jrtplib/rtcpcompoundpacketbuilder.cpp:154-521 | On any run at all it is at most 12 bytes larger, or 40 once a report was started |
| `BuilderRuns.BudgetBoundReached` | src/RtpTrans/rtplib/jrtplib/rtcpcompoundpacketbuilder.cpp:131-190 | A run of four calls that reaches 640 bytes with a maximum of 600, with an own buffer or with one of the caller |
| `BuilderRuns.ExternalFitsIff` | src/RtpTrans/rtplib/jrtplib/rtcpcompoundpacketbuilder.cpp:131-152 | After any run in which a buffer of the caller was accepted, refused calls before it included: what EndBuild writes fits in that buffer if and only if no call overdrew the budget |
| `BuilderRuns.WithinIff` | src/RtpTrans/rtplib/jrtplib/rtcpcompoundpacketbuilder.cpp:154-521 | After any run the pending packet is within the maximum if and only if no call overdrew it: no later call makes it smaller |
| `BuilderRuns.RunHolds` | src/RtpTrans/rtplib/jrtplib/rtcpcompoundpacketbuilder.cpp:108-521 | The state of a run in which no EndBuild call was accepted is what its accepted calls say, in order |
| `BuilderRuns.RunRoundTrip` | src/RtpTrans/rtplib/jrtplib/rtcpcompoundpacketbuilder.cpp:567-810 | For every run of calls whose word counts fit: what EndBuild writes is a compound packet, and whoever parses it gets its packets, and objects that hold exactly the accepted additions (what a client sees of them is `Receiver.RunReceived`) |
| `BuilderRuns.SmallPacketsFit` | src/RtpTrans/rtplib/jrtplib/rtcpcompoundpacketbuilder.cpp:711-714 | Packets of at most 262144 bytes always fit their word counts |
| `BuilderRuns.LongSourceLost` | src/RtpTrans/rtplib/jrtplib/rtcpcompoundpacketbuilder.cpp:711-714 | A run within its budget of 300000 bytes whose packet is not read back: one source with 1021 items of 255 bytes |
| `Receiver.ReadPacket` | src/RtpTrans/rtplib/jrtplib/rtpsources.cpp:377-528 | What the client learns from one packet through accessors and cursors is what its object holds; of an unknown format or type, nothing |
| `Receiver.Receive` | src/RtpTrans/rtplib/jrtplib/rtpsources.cpp:247-283 | The client gets something if and only if the data is a compound packet that did not come in as RTP data; if the data is what EndBuild writes for any build whose word counts fit, it learns everything that was added, down to each chunk and each item |
| `Receiver.NormalSeen` | src/RtpTrans/rtplib/jrtplib/rtcpsdespacket.h:246-301 | A normal item is seen with the type and the text it was added with |
| `Receiver.PrivateSeen` | src/RtpTrans/rtplib/jrtplib/rtcpsdespacket.h:304-378 | A private item is seen with the prefix and the value it was added with |
| `Receiver.RunReceived` | src/RtpTrans/rtplib/jrtplib/rtcpcompoundpacketbuilder.cpp:567-810 | For every run of calls whose word counts fit: what EndBuild writes carries to `Receive` exactly the accepted additions, in order |
| `PacketBuilderSizes.BaseSize` | src/RtpTrans/rtplib/jrtplib/rtcppacketbuilder.cpp:151-188 | The fixed part of a packet has at most 296 bytes |
| `PacketBuilderSizes.BaseWithBlockSize` | src/RtpTrans/rtplib/jrtplib/rtcppacketbuilder.cpp:414-436 | With one report block it has at most 320 |
| `PacketBuilderSizes.BaseWithItemSize` | src/RtpTrans/rtplib/jrtplib/rtcppacketbuilder.cpp:263-273 | With one more item it has at most 552 |
| `PacketBuilderSizes.BaseWithByeSize` | src/RtpTrans/rtplib/jrtplib/rtcppacketbuilder.cpp:710-730 | With a BYE packet it has at most 560 |
| `PacketBuilderSizes.BeginOk` | src/RtpTrans/rtplib/jrtplib/rtcppacketbuilder.cpp:122-188 | With any allowed maximum the fixed part is always accepted |
| `PacketBuilderSizes.FillItemsSends` | src/RtpTrans/rtplib/jrtplib/rtcppacketbuilder.cpp:504-621 | A pass over the items sends a prefix of the pending ones, in order, leaves the rest pending, and stops early exactly at the first item that does not fit |
| `PacketBuilderSizes.StoppedIff` | src/RtpTrans/rtplib/jrtplib/rtcppacketbuilder.cpp:504-621 | It is stopped if and only if the pending items do not fit as a whole |
| `PacketBuilderRuns.NextOutcome` | src/RtpTrans/rtplib/jrtplib/rtcppacketbuilder.cpp:106-308 | From every proper state the next packet is built within the maximum, and resumes, starts or leaves alone an SDES cycle; it follows a null pointer if and only if there is no source and either no cycle is under way or the rest of the cycle fits |
| `PacketBuilderRuns.NullReached` | src/RtpTrans/rtplib/jrtplib/rtcppacketbuilder.cpp:456-463 | That is the status of the call when a new builder is asked for a packet before there is any source |
| `PacketBuilderRuns.ByeOutcome` | src/RtpTrans/rtplib/jrtplib/rtcppacketbuilder.cpp:628-738 | From every proper state the BYE packet is built |
| `PacketBuilderContents.NextContents` | src/RtpTrans/rtplib/jrtplib/rtcppacketbuilder.cpp:106-188 | The next packet starts with a sender report with the sender information if the own source has sent data, and with a receiver report if not; then come the own source with the CNAME as its first item, and no other packet |
| `PacketBuilderContents.NextFirstBytes` | src/RtpTrans/rtplib/jrtplib/rtcppacketbuilder.cpp:134-171 | Its bytes start with type 200 or 201 accordingly, and with the own SSRC |
| `PacketBuilderContents.ByeContents` | src/RtpTrans/rtplib/jrtplib/rtcppacketbuilder.cpp:628-738 | The BYE packet: a sender report only if the caller wants one and the own source has sent data, the CNAME, and the own source leaving for the reason, cut at 255 bytes |
| `PacketBuilderContents.ByeFirstBytes` | src/RtpTrans/rtplib/jrtplib/rtcppacketbuilder.cpp:653-697 | Its bytes start with type 200 or 201 accordingly |
| `PacketBuilderContents.BlocksEligible` | src/RtpTrans/rtplib/jrtplib/rtcppacketbuilder.cpp:336-359 | Every block is about a source that is neither the own one nor a contributing one, that has sent data, and that was heard of since the last packet or before the first |
| `PacketBuilderContents.OneSource` | src/RtpTrans/rtplib/jrtplib/rtcppacketbuilder.cpp:322-462 | And such a source, alone and not marked, is reported by any packet that does not go on with an SDES cycle |
| `PacketBuilderContents.NextClock` | src/RtpTrans/rtplib/jrtplib/rtcppacketbuilder.cpp:304-307 | A packet that was built is the last one to which the next compares |
| `PacketBuilderContents.DueEvery` | src/RtpTrans/rtplib/jrtplib/rtcppacketbuilder.cpp:221-226 | An item with a positive interval n is due in cycle n, in none before, and n cycles after a cycle if and only if in that; with another interval never |
| `PacketBuilderContents.InitLaw` | src/RtpTrans/rtplib/jrtplib/rtcppacketbuilder.cpp:60-96 | Init succeeds once, with at least 600 bytes and a timestamp unit that is not negative; it keeps at most 255 bytes of the name, and no item is due until an interval is set |
| `PacketBuilderContents.SetterLaw` | src/RtpTrans/rtplib/jrtplib/rtcppacketbuilder.h:93-177 | A text of more than 255 bytes is refused, others are kept whole for that item alone; the maximum must be at least 600 |
| `PacketBuilderRuns.ActOk` | src/RtpTrans/rtplib/jrtplib/rtcppacketbuilder.cpp:60-738 | Every call keeps the state proper (an unfinished cycle has an item left), and a packet is built, refused before Init, or lost to the null pointer |
| `PacketBuilderRuns.MinimumSuffices` | src/RtpTrans/rtplib/jrtplib/rtcppacketbuilder.cpp:60-738 | Whatever calls are made on a new builder, with whatever tables, BuildNextPacket and BuildBYEPacket never say that the packet was filled too soon |
| `PacketBuilderCycles.NextDelivers` | src/RtpTrans/rtplib/jrtplib/rtcppacketbuilder.cpp:207-283 | The balance of one packet: what it sends and leaves to send is what was left, or what a new cycle has to send; a resumed packet sends at least one item |
| `PacketBuilderCycles.CyclesDelivered` | src/RtpTrans/rtplib/jrtplib/rtcppacketbuilder.cpp:207-283 | Over any run of calls, setters, BYE packets and refused calls included, that gives up no cycle: by type, what was sent and what is pending is what was pending and what the started cycles have due, so every item of every cycle is sent exactly once and in order |
| `PacketBuilderCycles.SentCurrent` | src/RtpTrans/rtplib/jrtplib/rtcppacketbuilder.cpp:516-617 | An item is sent with the text that it has when its packet is built |
| `PacketBuilderCycles.TextsDelivered` | src/RtpTrans/rtplib/jrtplib/rtcppacketbuilder.cpp:207-283 | When no setter comes in between, the same account holds for the texts |
| `PacketBuilderCycles.DueInOrder` | src/RtpTrans/rtplib/jrtplib/rtcppacketbuilder.cpp:512-617 | The order is name, e-mail, location, phone, tool, note |
| `PacketBuilderCycles.CycleEnds` | src/RtpTrans/rtplib/jrtplib/rtcppacketbuilder.cpp:258-293 | Over any run of calls that gives up no cycle: a cycle that its first packet does not finish ends within six more packets, whatever setters, BYE packets and refused calls come in between, and these packets send exactly the items that were left |
| `PacketBuilderCycles.CycleCompleteIff` | src/RtpTrans/rtplib/jrtplib/rtcppacketbuilder.cpp:207-240 | A cycle starts with all the items that are due if and only if none of them is still marked as processed |
| `PacketBuilderCycles.MarksSurvive` | src/RtpTrans/rtplib/jrtplib/rtcppacketbuilder.cpp:60-104 | Calls on a new builder lead to the middle of a cycle; Destroy and Init then keep the marks, and no packet sends the name although it is due |
| `PacketBuilderRoundRobin.FillPasses` | src/RtpTrans/rtplib/jrtplib/rtcppacketbuilder.cpp:322-462 | A pass over a table whose first reportable sources are marked adds the next ones, in order, and marks them |
| `PacketBuilderRoundRobin.PacketReports` | src/RtpTrans/rtplib/jrtplib/rtcppacketbuilder.cpp:207-283 | One packet reports the next sources of the rotation, each at most once; only a packet that resumes an SDES cycle may report none |
| `PacketBuilderRoundRobin.RoundRobin` | src/RtpTrans/rtplib/jrtplib/rtcppacketbuilder.cpp:190-296 | Over any run of calls with a fixed table and no new Init, setters, BYE packets and refused calls included: the SSRCs reported are the table order repeated endlessly from where the rotation stood, and no packet reports one twice |
| `PacketBuilderRoundRobin.RotationStarts` | src/RtpTrans/rtplib/jrtplib/rtcppacketbuilder.cpp:60-96 | An accepted Init sets the rotation to its start |
| `PacketBuilderRoundRobin.ReportsTwiceIff` | src/RtpTrans/rtplib/jrtplib/rtcppacketbuilder.cpp:190-293 | With any table and marks a packet reports a source twice if and only if no cycle is resumed and some source among the first ones, as many as there are marked, is unmarked and still has room after all unmarked sources, the items that are due and the first sources before it |
| `PacketBuilderRoundRobin.NoMarksDistinct` | src/RtpTrans/rtplib/jrtplib/rtcppacketbuilder.cpp:190-293 | So with no marks no source is reported twice |
| `PacketBuilderRoundRobin.LateSourceTwice` | src/RtpTrans/rtplib/jrtplib/rtcppacketbuilder.cpp:236-252 | It happens to a new builder: the first packet has no room for all sources, and the second reports a source that has just begun to send, and is listed before the others, twice |
| `PacketBuilder.RTCPPacketBuilder.Init` | src/RtpTrans/rtplib/jrtplib/rtcppacketbuilder.cpp:60-96 | Checks its arguments, cuts the CNAME to 255 bytes and clears all but the marks and values of the items |
| `PacketBuilder.RTCPPacketBuilder.Destroy` | src/RtpTrans/rtplib/jrtplib/rtcppacketbuilder.cpp:98-104 | Only the initialised flag is cleared |
| `PacketBuilder.RTCPPacketBuilder.SetMaximumPacketSize` | src/RtpTrans/rtplib/jrtplib/rtcppacketbuilder.h:93 | Refuses sizes under 600 bytes |
| `PacketBuilder.RTCPPacketBuilder.ClearAllSourceFlags` | src/RtpTrans/rtplib/jrtplib/rtcppacketbuilder.cpp:310-320 | The cursor loop unmarks every source and changes nothing else |
| `PacketBuilder.RTCPPacketBuilder.FillInReportBlocks` | src/RtpTrans/rtplib/jrtplib/rtcppacketbuilder.cpp:322-502 | The loops over the source table do exactly one pass of the model, with its counts, its marks and whether a source is left |
| `PacketBuilder.RTCPPacketBuilder.FillInSDES` | src/RtpTrans/rtplib/jrtplib/rtcppacketbuilder.cpp:504-621 | The six steps do exactly one pass of the model over the items |
| `PacketBuilder.RTCPPacketBuilder.BuildNextPacket` | src/RtpTrans/rtplib/jrtplib/rtcppacketbuilder.cpp:106-308 | The new state, the marks in the table, the status and the bytes and objects of the packet are those of the model |
| `PacketBuilder.RTCPPacketBuilder.BuildBYEPacket` | src/RtpTrans/rtplib/jrtplib/rtcppacketbuilder.cpp:628-738 | Status, bytes and objects are those of the model; nothing else changes |
| `HashTable.AddedSound` | src/RtpTrans/rtplib/jrtplib/rtphashtable.h:279-297 | With a new node the buckets still partition the nodes of the list |
| `HashTable.RemovedSound` | src/RtpTrans/rtplib/jrtplib/rtphashtable.h:117-163 | Without a node the buckets still partition the nodes of the list |
| `HashTable.RTPHashTable.TakeFromList` | src/RtpTrans/rtplib/jrtplib/rtphashtable.h:142-159 | DeleteCurrentElement's second part: joining the neighbours of a node leaves a list whose links are inverse both ways, with its ends |
| `HashTable.RTPHashTable.TakeFromBucket` | src/RtpTrans/rtplib/jrtplib/rtphashtable.h:124-138 | DeleteCurrentElement's first part: joining the neighbours of a node leaves a bucket whose links are inverse both ways, and the other buckets as they were |
| `HashTable.RTPHashTable.constructor` | src/RtpTrans/rtplib/jrtplib/rtphashtable.h:103-112 | A new table stands for the empty sequence and has no cursor |
| `HashTable.RTPHashTable.AddElement` | src/RtpTrans/rtplib/jrtplib/rtphashtable.h:251-299 | Appends the element to the sequence unless it is there or its index is too large; the cursor stays |
| `HashTable.RTPHashTable.HasElement` | src/RtpTrans/rtplib/jrtplib/rtphashtable.h:195-215 | True if and only if the element is in the sequence |
| `HashTable.RTPHashTable.GotoElement` | src/RtpTrans/rtplib/jrtplib/rtphashtable.h:171-192 | Puts the cursor on the element; on none if it is not in the sequence |
| `HashTable.RTPHashTable.DeleteCurrentElement` | src/RtpTrans/rtplib/jrtplib/rtphashtable.h:115-168 | Takes the element at the cursor out of the sequence; the cursor is on the element after it |
| `HashTable.RTPHashTable.DeleteElement` | src/RtpTrans/rtplib/jrtplib/rtphashtable.h:302-310 | Takes the element out of the sequence, or says why not and leaves the sequence |
| `HashTable.RTPHashTable.GotoFirstElement` | src/RtpTrans/rtplib/jrtplib/rtphashtable.h:59 | The cursor is on the first element, if any |
| `HashTable.RTPHashTable.GotoLastElement` | src/RtpTrans/rtplib/jrtplib/rtphashtable.h:60 | The cursor is on the last element, if any |
| `HashTable.RTPHashTable.GotoNextElement` | src/RtpTrans/rtplib/jrtplib/rtphashtable.h:218-222 | The cursor is on the next element, or on none |
| `HashTable.RTPHashTable.GotoPreviousElement` | src/RtpTrans/rtplib/jrtplib/rtphashtable.h:225-229 | The cursor is on the previous element, or on none |
| `HashTable.RTPHashTable.Clear` | src/RtpTrans/rtplib/jrtplib/rtphashtable.h:232-248 | The sequence is empty; the cursor is left pointing where it did |
| `HashTable.SweptStep` | src/RtpTrans/rtplib/jrtplib/rtphashtable.h:218-222 | One step of a sweep, stepping or deleting, keeps the visited, kept and remaining elements in order |
| `HashTable.Sweep` | src/RtpTrans/rtplib/jrtplib/rtphashtable.h:115-168 | A sweep that deletes some elements and steps over the others visits each once, terminates, and leaves the kept ones in order |
| `SchedulerRuns.IntervalBound` | src/RtpTrans/rtplib/jrtplib/rtcpscheduler.cpp:300-316 | No randomised interval is shorter than half the compensated minimum interval, halved where the start-up option applies |
| `SchedulerRuns.MinimumSpacing` | src/RtpTrans/rtplib/jrtplib/rtcpscheduler.cpp:181-236 | Over any run with a clock that does not go back, two successive true results of IsTime are at least that interval apart, whatever counts, sizes, drops and BYE packets come in between |
| `SchedulerRuns.GapIsPositive` | src/RtpTrans/rtplib/jrtplib/rtcpscheduler.cpp:394-420 | The interval that IsTime draws is positive if and only if no BYE packet may be sent immediately, and then at least a quarter of the compensated minimum interval |
| `SchedulerRuns.ImmediateBye` | src/RtpTrans/rtplib/jrtplib/rtcpscheduler.cpp:359-386 | An immediate BYE packet does fire at the very moment of another packet |
| `SchedulerRuns.NotTwice` | src/RtpTrans/rtplib/jrtplib/rtcpscheduler.h:149-155 | Called again right away after a true result, IsTime returns false |
| `SchedulerRuns.ReverseRestores` | src/RtpTrans/rtplib/jrtplib/rtcpscheduler.cpp:318-357 | Reverse reconsideration restores prev <= now <= next from any state |
| `SchedulerRuns.DecreaseForward` | src/RtpTrans/rtplib/jrtplib/rtcpscheduler.cpp:318-392 | When members leave, the last sending time never moves back and a time to come never moves away |
| `SchedulerRuns.DropsAreOne` | src/RtpTrans/rtplib/jrtplib/rtcpscheduler.cpp:318-392 | Any series of member counts at one instant gives the times that the least of them alone gives |
| `SchedulerLaws.PacketIntervalDrawn` | src/RtpTrans/rtplib/jrtplib/rtcpscheduler.cpp:250-316 | The interval before a packet, without a division: the least time, at least the minimum, in which those who share a part of the bandwidth can send an average packet each, times the random factor over 1.21828; the part and the number depend on whether we are a sender |
| `SchedulerLaws.ByeIntervalDrawn` | src/RtpTrans/rtplib/jrtplib/rtcpscheduler.cpp:394-420 | Likewise before a BYE packet, for the members that leave, and none at all if it may go at once |
| `SchedulerLaws.OneCheckInterval` | src/RtpTrans/rtplib/jrtplib/rtcpscheduler.cpp:250-420 | For given random values there is exactly one such interval |
| `SchedulerLaws.IsTimeLaw` | src/RtpTrans/rtplib/jrtplib/rtcpscheduler.cpp:181-248 | Before the timer has run out nothing happens; then it is time if and only if the last packet is an interval ago, and otherwise the timer is set to when it will be |
| `SchedulerLaws.DelayLaw` | src/RtpTrans/rtplib/jrtplib/rtcpscheduler.cpp:160-179 | The delay is the time until the timer runs out, and none when it has |
| `SchedulerLaws.DelayIsShortEnough` | src/RtpTrans/rtplib/jrtplib/rtcpscheduler.cpp:160-236 | As long as that delay has not passed, IsTime says no |
| `SchedulerLaws.ScheduleByeLaw` | src/RtpTrans/rtplib/jrtplib/rtcpscheduler.cpp:359-386 | A BYE packet is scheduled once until it is sent: one leaving member, its size with the overhead, and the immediate sending below 50 members |
| `SchedulerLaws.IncomingLaw` | src/RtpTrans/rtplib/jrtplib/rtcpscheduler.cpp:111-137 | Which average a received packet enters, and when it counts as a leaving member |
| `SchedulerLaws.OutgoingLaw` | src/RtpTrans/rtplib/jrtplib/rtcpscheduler.cpp:139-158 | Which average a sent packet enters, and that the timer no longer starts with half the minimum |
| `SchedulerLaws.ReverseProportion` | src/RtpTrans/rtplib/jrtplib/rtcpscheduler.cpp:318-357 | Reverse reconsideration changes the time to the next packet and the time since the last one in proportion to the member count |
| `SchedulerLaws.DecreaseLaw` | src/RtpTrans/rtplib/jrtplib/rtcpscheduler.cpp:388-392 | This happens exactly when the count of members fell |
| `SchedulerShares.AverageIsCutOff` | src/RtpTrans/rtplib/jrtplib/rtcpscheduler.cpp:124-127 | The integer form of the average is the truncated floating-point expression |
| `SchedulerShares.AverageBetween` | src/RtpTrans/rtplib/jrtplib/rtcpscheduler.cpp:111-158 | Over any mix of packets the average stays between the bounds of its first value and of the sizes of packets without a BYE |
| `SchedulerShares.AverageSettles` | src/RtpTrans/rtplib/jrtplib/rtcpscheduler.cpp:124-127 | Fed one size, the average reaches a value at most 15 below it in finitely many steps and stays there |
| `SchedulerShares.GroupBandwidth` | src/RtpTrans/rtplib/jrtplib/rtcpscheduler.cpp:250-298 | Whatever the numbers of senders and members, if every member uses its deterministic interval their combined rate is at most the RTCP bandwidth |
| `SchedulerShares.MemberRateBound` | src/RtpTrans/rtplib/jrtplib/rtcpscheduler.cpp:264-292 | No member takes more than an equal part of the share of its kind |
| `Scheduler.RTCPScheduler.IsTime` | src/RtpTrans/rtplib/jrtplib/rtcpscheduler.cpp:181-236 | Timer, reconsideration and the next timer are those of the model |
| `Scheduler.RTCPScheduler.GetTransmissionDelay` | src/RtpTrans/rtplib/jrtplib/rtcpscheduler.cpp:160-179 | The delay to the timer, which the first call sets |
| `Scheduler.RTCPScheduler.ScheduleBYEPacket` | src/RtpTrans/rtplib/jrtplib/rtcpscheduler.cpp:359-386 | Restarts the timer for a BYE packet unless one is scheduled |
| `Scheduler.RTCPScheduler.ActiveMemberDecrease` | src/RtpTrans/rtplib/jrtplib/rtcpscheduler.cpp:388-392 | Reconsiders only when the count fell |
| `Scheduler.RTCPScheduler.PerformReverseReconsideration` | src/RtpTrans/rtplib/jrtplib/rtcpscheduler.cpp:318-357 | Scales both times by the change of the count |
| `Scheduler.RTCPScheduler.CalculateDeterministicInterval` | src/RtpTrans/rtplib/jrtplib/rtcpscheduler.cpp:250-298 | The larger of the minimum interval and the share of the bandwidth, in all three branches |
| `Scheduler.FewerSenders` | src/RtpTrans/rtplib/jrtplib/rtcpscheduler.cpp:264-280 | Where the senders are subtracted from the members there are not more of them, so the unsigned difference does not wrap around |
| `Scheduler.RTCPScheduler.AnalyseIncoming` | src/RtpTrans/rtplib/jrtplib/rtcpscheduler.cpp:111-137 | Updates one average, or for a BYE packet the other average and the count |
| `Scheduler.RTCPScheduler.AnalyseOutgoing` | src/RtpTrans/rtplib/jrtplib/rtcpscheduler.cpp:139-158 | Updates the average unless there is a BYE packet, and notes that RTCP was sent |
| `ExternalTransmitter.StepInv` | src/RtpTrans/rtplib/jrtplib/rtpexternaltransmitter.cpp:306-405 | Every step of every thread keeps the invariant on mutexes, flag, list and pipe |
| `ExternalTransmitter.Reachable` | src/RtpTrans/rtplib/jrtplib/rtpexternaltransmitter.cpp:306-405 | So it holds after every interleaving of any number of threads |
| `ExternalTransmitter.MutualExclusion` | src/RtpTrans/rtplib/jrtplib/rtpexternaltransmitter.cpp:87-90 | Each mutex has at most one holder |
| `ExternalTransmitter.FirstInFirstOut` | src/RtpTrans/rtplib/jrtplib/rtpexternaltransmitter.cpp:613-638 | Packets leave in the order of injection, none lost and none twice |
| `ExternalTransmitter.NoLostWakeUp` | src/RtpTrans/rtplib/jrtplib/rtpexternaltransmitter.cpp:334-355 | When a waiter sits in select and packets are queued and no injector is between push and write, the pipe holds a byte and select returns for it (for AbortWait see `CallWakes`) |
| `ExternalTransmitter.AnswerIsTrue` | src/RtpTrans/rtplib/jrtplib/rtpexternaltransmitter.cpp:394-400 | What a wait reports about available data is true when it gives the main mutex back |
| `ExternalTransmitter.AskIsTrue` | src/RtpTrans/rtplib/jrtplib/rtpexternaltransmitter.cpp:590-611 | NewDataAvailable, and a wait that finds a packet before it would select, answer truly as well |
| `ExternalTransmitter.Answers` | src/RtpTrans/rtplib/jrtplib/rtpexternaltransmitter.cpp:306-429 | A call answers that nobody waits, or that somebody does, exactly when the flag says so at its test; only the two calls that ask report about data |
| `ExternalTransmitter.DrainStep` | src/RtpTrans/rtplib/jrtplib/rtpexternaltransmitter.cpp:365-392 | Draining in pieces of 256 bytes never blocks and empties the pipe |
| `ExternalTransmitter.NoDeadlock` | src/RtpTrans/rtplib/jrtplib/rtpexternaltransmitter.cpp:306-429 | Although the mutexes are taken in both orders, no circle of waiting threads arises: a call can move itself or the holder of a mutex can, unless that one has to write to a full pipe; a wait that selects is woken by the pipe or by the time. One step only; for whole calls see `ReturnsIff` |
| `ExternalTransmitter.StuckIff` | src/RtpTrans/rtplib/jrtplib/rtpexternaltransmitter.cpp:755-765 | Apart from waiting for the wait mutex, the holder of the main mutex is stuck if and only if it has to write to a full pipe |
| `ExternalTransmitter.JammedForever` | src/RtpTrans/rtplib/jrtplib/rtpexternaltransmitter.cpp:755-765 | In that case no run of any threads ever changes it, and the packets stay where they are |
| `ExternalTransmitter.JamReached` | src/RtpTrans/rtplib/jrtplib/rtpexternaltransmitter.cpp:767-807 | For a pipe of any capacity it is reached by injecting and popping without ever waiting |
| `ExternalTransmitterReturns.ReturnsIff` | src/RtpTrans/rtplib/jrtplib/rtpexternaltransmitter.cpp:306-429 | From every state that can be reached, for any number of threads and a pipe of any capacity: some run ends the call of a thread if and only if it is not lost, that is, unless the pipe is full and a thread that holds the main mutex is about to write to it, or the thread is about to inject and so is every other |
| `ExternalTransmitterReturns.CallReturnsIff` | src/RtpTrans/rtplib/jrtplib/rtpexternaltransmitter.cpp:306-429 | The same condition read before the call: whether a call that an idle thread is about to make can return |
| `ExternalTransmitterReturns.LostForever` | src/RtpTrans/rtplib/jrtplib/rtpexternaltransmitter.cpp:755-765 | No run of any threads brings a lost call back |
| `ExternalTransmitterReturns.Returning` | src/RtpTrans/rtplib/jrtplib/rtpexternaltransmitter.cpp:306-405 | The run that ends any other call: the threads inside end their calls, and if need be one that is not about to inject takes out all packets and waits, which empties the pipe |
| `ExternalTransmitterReturns.LostReached` | src/RtpTrans/rtplib/jrtplib/rtpexternaltransmitter.cpp:767-807 | For a pipe of any capacity a single thread that injects and pops without ever waiting comes to a call that is lost, although nobody holds a mutex |
| `ExternalTransmitterWakes.CallWakes` | src/RtpTrans/rtplib/jrtplib/rtpexternaltransmitter.cpp:407-429 | Over any run in which a waiter stays in select: once a call of AbortWait, InjectRTP or InjectRTCP has come past its write, and ever after, the pipe holds a byte, and select returns readable and cannot time out |
| `ExternalTransmitterWakes.AbortWrites` | src/RtpTrans/rtplib/jrtplib/rtpexternaltransmitter.cpp:407-429 | AbortWait with a waiter puts exactly one byte into the pipe and changes nothing else |
| `ExternalTransmitterWakes.AbortRefused` | src/RtpTrans/rtplib/jrtplib/rtpexternaltransmitter.cpp:418-422 | AbortWait without a waiter changes nothing |
| `ExternalTransmitterWakes.PipeStep` | src/RtpTrans/rtplib/jrtplib/rtpexternaltransmitter.cpp:365-392 | The two writes put one byte into the pipe, a read takes out at most 256, and no other step touches it |
| `ExternalTransmitterWakes.SelectIff` | src/RtpTrans/rtplib/jrtplib/rtpexternaltransmitter.cpp:334-355 | select returns readable if and only if the pipe holds a byte, and by the time if and only if it does not |
| `ExternalTransmitterWakes.AfterSelect` | src/RtpTrans/rtplib/jrtplib/rtpexternaltransmitter.cpp:356-400 | A wait that was woken reads the pipe, and a wait reports about available data unless its select failed |
| `ThreadStart.StepInv` | src/RtpTrans/rtplib/jrtplib/jthread.cpp:49-116 | Every step of the starter and of the created thread keeps the invariant of the handshake |
| `ThreadStart.StartedAfterAnnounced` | src/RtpTrans/rtplib/jrtplib/jthread.cpp:49-116 | In every interleaving, over any number of starts, Start returns 0 only when the thread it created has called ThreadStarted |
| `ThreadStart.ZeroMeansAnnounced` | src/RtpTrans/rtplib/jrtplib/jthread.cpp:49-116 | In every interleaving, when the answer of Start is 0, every thread that was created has called ThreadStarted |
| `ThreadStart.StartAnswers` | src/RtpTrans/rtplib/jrtplib/jthread.cpp:73-115 | From its test to its end, whatever the thread does: Start answers that a thread is running if and only if one was at the test, 0 if and only if none was and one was created, and the failure if and only if none was and none could be |
| `ThreadStart.AnswerCounted` | src/RtpTrans/rtplib/jrtplib/jthread.cpp:49-116 | The answer 0 is what the count of returns counts |
| `ThreadStart.CreateIff` | src/RtpTrans/rtplib/jrtplib/jthread.cpp:86-93 | A thread is created if and only if it can be |
| `ThreadStart.FlagIsSeen` | src/RtpTrans/rtplib/jrtplib/jthread.cpp:96-109 | The polling loop cannot miss the flag: no step of the thread clears it while the starter polls |
| `ThreadStart.EntersAfterSeen` | src/RtpTrans/rtplib/jrtplib/jthread.cpp:156-172 | The thread enters Thread() only after the starter has seen the flag |
| `ThreadStart.AlreadyRunningIff` | src/RtpTrans/rtplib/jrtplib/jthread.cpp:73-79 | Start takes the way of the refusal if and only if a thread is running at its test |
| `ThreadStart.ReturnsIff` | src/RtpTrans/rtplib/jrtplib/jthread.cpp:86-115 | From every state of the invariant in which Start has created its thread: some run lets it return if and only if the thread has not ended without calling ThreadStarted |
| `ThreadStart.Returning` | src/RtpTrans/rtplib/jrtplib/jthread.cpp:86-115 | Such a run takes at most as many steps as a distance over the two program counters says, and ends with the result 0 |
| `ThreadStart.BlockedUntilAnnounced` | src/RtpTrans/rtplib/jrtplib/jthread.cpp:111-113 | At its last lock the starter cannot move if and only if the thread has not announced itself |
| `ThreadStart.OrphanedForever` | src/RtpTrans/rtplib/jrtplib/jthread.cpp:111-113 | When the thread has ended without that call, no run lets Start return |
| `ThreadStart.OrphanReached` | src/RtpTrans/rtplib/jrtplib/jthread.cpp:156-184 | A run from the start leads there: a thread that leaves at once |

## Left out

- Out-of-memory paths and the memory-manager hooks: every allocation succeeds.
- `AddUnknownPacket` and the rest of RTP_SUPPORT_RTCPUNKNOWN, which this build disables; RTPDEBUG code; the Windows branches.
- CompoundBuilder.RTCPCompoundPacketBuilder.EndBuild: with an external buffer it asks that the buffer can hold the packet, because the code does not check and what a write beyond the end does is undefined (`BuilderRuns.ExternalFitsIff` says when it is so); the packet objects hold copies of their bytes, so that they share the buffer of the compound packet is not modelled.
- CompoundPacket.CompoundPacket.ParseData: cuts the buffer as a value instead of advancing a pointer into it.
- Sums of sizes are unbounded; of the size_t arithmetic only the subtraction that can wrap around is modelled with its width.
- The parent class of the builder is written into it as fields, since there is no inheritance.
- PacketBuilder.RTPSources: a sequence of records with a cursor instead of the hash table of pointers; the statistics behind a report block (fraction lost, jitter, delay) are an input, and so are the NTP and RTP timestamps of a sender report.
- PacketBuilder.RTCPPacketBuilder: the six items are a sequence in their fixed order with one setter for values and one for intervals; the timestamp unit and the transmission delay only enter the timestamps; `sdesbuildcount` does not overflow.
- PacketBuilderCycles.CyclesDelivered: by the types of the items, since a text can be set while its item is pending; runs with a cycle that is given up, or with a call that follows the null pointer, are the subject of `MarksSurvive` and `NextOutcome`. The same holds for `CycleEnds`.
- SdesParser.Walk: the return of the client at an error of its own.
- Receiver.ReadPackets: the client collects what it reads instead of updating the source table, and reads all report blocks instead of those about its own source; it has no error of its own.
- PacketBuilderRoundRobin.RoundRobin: runs between two accepted calls of Init, which unmarks every source (`RotationStarts`).
- HashTable.RTPHashTable.Clear: the loop that releases the nodes; the cursor after `Clear` and before the first `Goto` call is undefined, and no method is called on it.
- HashTable.RTPHashTable: element equality is equality of values, and hash indices are not negative.
- Scheduler.RTCPScheduler.IsTime: the parameters have a positive bandwidth and a sender fraction strictly between 0 and 1, as in the three entries below. The formulas divide by both shares, and an infinite or undefined floating-point interval has no meaning as an RTPTime.
- Scheduler.RTCPScheduler.GetTransmissionDelay: for the same parameters.
- Scheduler.RTCPScheduler.ScheduleBYEPacket: for the same parameters.
- Scheduler.RTCPScheduler.CalculateDeterministicInterval: for the same parameters.
- Scheduler: floating-point rounding and the microseconds of RTPTime. The setters of the parameters and the member and sender counts of the source table are inputs.
- ExternalTransmitter: select, pipe and ioctl are a byte count with a capacity; `Create`, `Destroy` and the other calls that only hold the main mutex; time is not modelled, so select may time out at any moment at which the pipe is empty.
- ThreadStart: `Kill`, and `IsRunning` and `GetReturnValue`, which only hold one mutex; ThreadStarted is called at most once by a thread.
- `RTPCollisionList`, the byte addresses, the private items of `RTCPSDESInfo` and the error strings, which would only add easy members; the JNI, camera and codec code, and the thin session wrappers.
