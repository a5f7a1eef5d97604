# ROAD Proxy in Dafny

ROAD Proxy tunnels TCP and UDP over WebSockets. This project models the parts of it that carry its
arithmetic, its protocols and its accounts, and proves what they promise on every input, every run
and every interleaving of threads. `dafny verify dfyconfig.toml` checks all of it.

| modules | what they model |
|---|---|
| `Frames`, `FrameFields`, `FrameTruncation`, `FrameRoundTrip`, `Fragments` | the packet dissector of the plugin studio: VLAN tags, IPv4, the IPv6 header walk, UDP and TCP |
| `Pcapng`, `PcapngOptions`, `PcapngRoundTrip`, `PcapngReassembly`, `PcapngErrors`, `CaptureRoundTrip` | the pcapng reader: sections in two byte orders, interface tables, options, enhanced packets |
| `Admission`, `AdmissionExact`, `AdmissionLate` | the connection and rate limits in front of the WebSocket endpoint |
| `SequenceHealth`, `UdpCheck` | the 24-bit and the 64-bit trackers of loss, duplicates and reordering, and the packet codec of `udp-check` |
| `Base64`, `Pipeline`, `StreamCopy` | byte pipelines of plugins, the checks of their schemas, and the copying loop that applies them chunk by chunk |
| `UdpTunnel`, `UdpSession` | the way of a datagram through client and server |
| `SessionTable`, `SessionHistory`, `SessionRuns`, `LateReader` | the client's table of UDP sessions under its read loop, readers, pingers, sweeper and shutdown |
| `Shutdown`, `ShutdownRuns` | how two copiers, a pinger and the main routine of a proxy end |
| `StatsCounters` | the session, plugin and global counters |
| `Fingerprint`, `Overlay` | the statistics of runs of ticks, and the overlay of JSON documents |
| `Bytes`, `Results`, `Sums` | shared definitions |

Code that updates fields or loops is a class or a method here, proved against a function; the laws
are lemmas about that function. Concurrent code is a step relation: every section under a lock and
every atomic operation is one step of one thread, each thread has a program counter, and the lemmas
hold for all sequences of steps. The methods of `SessionTable.Sessions` and `StatsCounters.Stats` are
the critical sections: `SessionTable.Parts` and the contracts of `Stats` tie them to the steps.

Where the code is not what one would expect, the code is modelled and the fact is stated:

- The rate limiter's windows are fixed, so k minutes may see (k + 1) * limit - 1 connections, and do; with
  times a minute out of order (k + 2) * limit - 2, and do.
- Request times are read before the lock is taken. Pruning stays invisible as long as no request is
  more than one minute older than the latest one before it, and not beyond.
- The IPv6 walk ignores the fragment offset, which the IPv4 branch honours: later fragments whose bytes
  happen to parse are reported as packets of their own.
- A session is removed by its client's address, so a late reader removes the successor of its own session.
- The main routine of a proxy with a pinger may return before both copiers have; without one it never does.
- The step written with an empty op runs as a noop but does not pass validation.
- JSON overlays do not associate in general.

Assumptions: a socket read puts a datagram's first bytes into the buffer and drops what does not fit;
a WebSocket delivers messages whole and in order; a read from a closed connection ends, for a
WebSocket after finitely many buffered messages; writes, pings and dials end, in success or failure,
and a write to a closed connection fails.

## Model

| member | source | states |
|---|---|---|
| `Frames.WalkTags` | cmd/plugin-studio/capture_pcapng.go:186-192 | The loop over VLAN tags computes the recursive description of a tag stack, for any number of tags. |
| `Frames.WalkExtensions` | cmd/plugin-studio/capture_pcapng.go:262-296 | The IPv6 header walk agrees with the recursive description of an extension chain; its index stays between the fixed header and the packet end. |
| `Frames.WalkIPv6` | cmd/plugin-studio/capture_pcapng.go:251-297 | The IPv6 branch as a whole, payload length and chain, is the recursive description. |
| `Frames.LocateIPv4` | cmd/plugin-studio/capture_pcapng.go:218-249 | An accepted IPv4 packet has its transport header behind at least 20 bytes of IP header, inside the packet end, inside the frame, and never a negative transport length. |
| `Frames.LocateIPv6` | cmd/plugin-studio/capture_pcapng.go:251-297 | The same for IPv6 behind at least 40 bytes: all indices in range, transport length never negative. |
| `Frames.ParseCapturedFrame` | cmd/plugin-studio/capture_pcapng.go:176-353 | The dissector, loops included, is the function that the properties below are about. |
| `FrameTruncation.SnapshotTruncation` | cmd/plugin-studio/capture_pcapng.go:176-353 | For every frame of either link type and every cut: the cut frame is accepted if and only if the whole one is and the cut spares the fixed transport header (8 bytes for UDP, 20 for TCP); the reports then agree on addresses, ports, network and payload length, and the payload prefix is a prefix of the other. |
| `FrameTruncation.LocateTruncated` | cmd/plugin-studio/capture_pcapng.go:176-297 | Cutting a frame moves neither addresses, protocol nor transport length: it only lowers the packet end, and loses the packet exactly when the cut is before the transport header. |
| `FrameTruncation.SkipExtensionsTruncated` | cmd/plugin-studio/capture_pcapng.go:262-296 | A cut extension chain is walked to the same place if that place is inside the cut, and is rejected otherwise. |
| `FrameRoundTrip.EthernetRoundTrip` | cmd/plugin-studio/capture_pcapng.go:176-353 | A serialised UDP or TCP packet, under any stack of VLAN tags, IPv4 options or IPv6 extension chain and any padding, is dissected into exactly its addresses, ports and payload. |
| `FrameRoundTrip.RawRoundTrip` | cmd/plugin-studio/capture_pcapng.go:193-215 | The same for the raw IP link type. |
| `FrameRoundTrip.ChainRoundTrip` | cmd/plugin-studio/capture_pcapng.go:262-296 | A serialised chain of extension headers is walked to its end, whatever follows. |
| `FrameRoundTrip.TagsRoundTrip` | cmd/plugin-studio/capture_pcapng.go:186-192 | A serialised stack of VLAN tags 0x8100, 0x88A8 or 0x9100 is skipped to the EtherType behind it. |
| `FrameRoundTrip.UntaggedFrame` | cmd/plugin-studio/capture_pcapng.go:181-192 | Any EtherType other than 0x8100, 0x88A8 and 0x9100 ends the link layer at byte 14. |
| `FrameFields.LinkTypes` | cmd/plugin-studio/capture_pcapng.go:179-206 | Only link types 1 and 101 are dissected, whole Ethernet headers, and raw packets of version 4 or 6. |
| `FrameFields.IPv4Headers` | cmd/plugin-studio/capture_pcapng.go:218-249 | Exactly which IPv4 headers are accepted, and where the transport header, the packet end, protocol, addresses and transport length are then found. |
| `FrameFields.IPv6Headers` | cmd/plugin-studio/capture_pcapng.go:251-292 | The same for IPv6, in terms of the extension header chain. |
| `FrameFields.ExtensionHeaders` | cmd/plugin-studio/capture_pcapng.go:263-295 | The length of each kind of extension header; every other protocol number ends the chain. |
| `FrameFields.TransportHeaders` | cmd/plugin-studio/capture_pcapng.go:299-353 | Exactly which UDP and TCP headers are reported, cut or malformed ones included, with which ports, payload length and payload prefix. |
| `FrameFields.Prefix` | cmd/plugin-studio/capture_pcapng.go:299-353 | The payload prefix is at most the first 32 captured payload bytes, up to the end of the IP packet. |
| `FrameRoundTrip.SegmentRoundTrip` | cmd/plugin-studio/capture_pcapng.go:299-353 | A serialised UDP or TCP header gives back its ports and payload length. |
| `Fragments.FragmentFieldsIgnored` | cmd/plugin-studio/capture_pcapng.go:251-297 | For every link type and any two frames that differ only behind the next-header byte of one fragment header on the IPv6 chain, the reports are the same: offset, flags and identification are never looked at. |
| `Fragments.ReportedFrames` | cmd/plugin-studio/capture_pcapng.go:299-353 | Exactly the frames with bytes behind the IP headers that can be taken for a UDP or TCP header are reported. |
| `Fragments.LaterIPv6FragmentsDropped` | cmd/plugin-studio/capture_pcapng.go:260-296 | A later IPv6 fragment is reported exactly like the same frame with a zero offset; so it is dropped, as it should be, if and only if that first fragment has nothing to report. |
| `Fragments.LaterIPv4FragmentsDropped` | cmd/plugin-studio/capture_pcapng.go:218-249 | The IPv4 branch reports no packet with a non-zero fragment offset. |
| `Fragments.LaterIPv6FragmentsAreReported` | cmd/plugin-studio/capture_pcapng.go:251-297 | Inputs on which the IPv6 branch fails to drop a later fragment: every raw packet that starts with a fragment header of non-zero offset in front of bytes that parse is reported like an unfragmented one. |
| `Pcapng.ParsePcapng` | cmd/plugin-studio/capture_pcapng.go:48-102 | The block loop computes the recursive reading of the file, errors included; every index is in range. |
| `Pcapng.ParseBlock` | cmd/plugin-studio/capture_pcapng.go:81-98 | One turn of the switch over block types. |
| `Pcapng.ParseInterface` | cmd/plugin-studio/capture_pcapng.go:118-147 | The option loop of an interface block is the recursive reading of its options. |
| `PcapngRoundTrip.FileRoundTrip` | cmd/plugin-studio/capture_pcapng.go:48-170 | For either byte order and any list of sections with any interfaces, packets and unknown blocks, the serialised stream is read as exactly the accepted frames, in order, each under an interface of its own section. |
| `CaptureRoundTrip.CapturesRead` | cmd/plugin-studio/capture_pcapng.go:48-353 | A file whose packet blocks carry laid-out Ethernet or raw IP packets is read as exactly one report for each, in order: its addresses, ports, lengths and first payload bytes, the time of its block and the resolution of its interface. |
| `Pcapng.TicksOfOption` | cmd/plugin-studio/capture_pcapng.go:136-142 | The resolution option in numbers: 9 is ten to the ninth, 0x8A two to the tenth, and without the option ten to the sixth. |
| `PcapngRoundTrip.SectionsRead` | cmd/plugin-studio/capture_pcapng.go:56-100 | Sections in front of any further bytes are consumed whole, and leave the next section an empty interface table. |
| `PcapngRoundTrip.BlockEffect` | cmd/plugin-studio/capture_pcapng.go:81-98 | Each kind of block has its own effect and no other: a packet block adds its accepted frame, an interface block one interface, an unknown block nothing. |
| `PcapngRoundTrip.ForeignInterfaceRejected` | cmd/plugin-studio/capture_pcapng.go:149-157 | A packet block that names more interfaces than its own section has declared fails, whatever earlier sections declared. |
| `PcapngErrors.ReadingGoesOn` | cmd/plugin-studio/capture_pcapng.go:56-100 | Whatever follows well-formed sections and blocks is reached, with the byte order and interfaces of the section it stands in. |
| `PcapngErrors.FramingErrors` | cmd/plugin-studio/capture_pcapng.go:57-81 | Which error a block gets that is cut off, out of a section, of impossible length, or whose trailer disagrees. |
| `PcapngErrors.SectionHeaderErrors` | cmd/plugin-studio/capture_pcapng.go:104-116 | A section header names its byte order by the bytes of its magic, and is an error with any others. |
| `PcapngErrors.InterfaceErrors` | cmd/plugin-studio/capture_pcapng.go:118-147 | An interface block is an error if it is too short, or its options are no option list. |
| `PcapngErrors.PacketErrors` | cmd/plugin-studio/capture_pcapng.go:149-163 | A packet block is an error if it is too short, names an undeclared interface, or claims more bytes than it has. |
| `PcapngErrors.TooSmall` | cmd/plugin-studio/capture_pcapng.go:49-51 | A file is too small if and only if it cannot hold the twelve bytes of a block. |
| `PcapngRoundTrip.SectionHeaderPalindrome` | cmd/plugin-studio/capture_pcapng.go:61-70 | Section header blocks are recognised alike in both byte orders, and no other block type is mistaken for one. |
| `PcapngOptions.OptionsRoundTrip` | cmd/plugin-studio/capture_pcapng.go:126-145 | On a laid-out list of options, the last of which may lack padding, the walk stops at the end of the list and keeps the last timestamp resolution. |
| `PcapngOptions.AcceptedOptions` | cmd/plugin-studio/capture_pcapng.go:126-145 | The walk accepts exactly the bytes that are such a list of options and what ends it. |
| `PcapngReassembly.AcceptedFiles` | cmd/plugin-studio/capture_pcapng.go:48-102 | The parser accepts exactly the inputs that well-formed sections of blocks, with matching leading and trailing lengths and well-formed option lists, tile from the first byte to the last, and returns their packets. |
| `PcapngReassembly.Reassemble` | cmd/plugin-studio/capture_pcapng.go:56-100 | Every successful reading yields the blocks and sections that the input consists of. |
| `Admission.WebSocketSecurity.AdmitWebSocket` | internal/engine/security.go:28-58 | One admission, under the lock, is the step of the specification. |
| `Admission.WebSocketSecurity.ReleaseWebSocket` | internal/engine/security.go:59-73 | The release closure of a grant, run any number of times, is the step of the specification. |
| `Admission.WebSocketSecurity.PruneRateWindows` | internal/engine/security.go:77-91 | The pruning loop drops exactly the windows of two minutes and older, at most once a minute. |
| `Admission.AdmissionConservation` | internal/engine/security.go:48-75 | In every run: active is the number of unreleased grants and the sum of the per-address counts; each count is positive and counts the unreleased grants of its address; no limit that is on is exceeded. |
| `AdmissionExact.AdmitExactly` | internal/engine/security.go:35-75 | In every reachable state a request is granted unless its window has counted more than the rate, or as many grants are unreleased as there may be connections, altogether or from its address; and which of the three rejections it gets otherwise. |
| `AdmissionExact.ReleasedByClosing` | internal/engine/security.go:58-74 | In every run a grant is released if and only if its closure has been called. |
| `AdmissionExact.NothingRemembered` | internal/engine/security.go:35-46 | With the rate limit off, no run remembers an address. |
| `AdmissionExact.LimitsReached` | internal/engine/security.go:48-56 | Every positive limit lets exactly that many connections in and turns the next one away, altogether and for one address. |
| `AdmissionExact.MemoryBound` | internal/engine/security.go:77-91 | With requests in order, no address is remembered for longer than three minutes less two nanoseconds after its window opened. |
| `AdmissionExact.MemoryBoundReached` | internal/engine/security.go:77-91 | And some address is remembered for that long. |
| `Admission.ReleaseIsExact` | internal/engine/security.go:59-73 | In a conserved state a first release lowers both counts by exactly one, so neither guard suppresses it, and a repeated one changes nothing. |
| `Admission.PruningUnobservable` | internal/engine/security.go:26-46 | If every request is at most one minute older than the latest before it, pruning changes no outcome of any run. |
| `Admission.PruningObservable` | internal/engine/security.go:26-46 | For any more slack there is a run whose outcomes differ. |
| `Admission.PruningHidden` | internal/engine/security.go:26-46 | Pruning is invisible on all runs with that much slack if and only if the slack is at most one minute. |
| `Admission.SlidingWindowBound` | internal/engine/security.go:35-46 | With times that never decrease, any half-open interval of k minutes grants one address at most (k + 1) * limit - 1 connections, in every run, prunes included. |
| `Admission.SlidingWindowBoundReached` | internal/engine/security.go:35-46 | For every limit and every k a run reaches that bound. |
| `AdmissionLate.LateWindowBound` | internal/engine/security.go:28-46 | With requests up to one minute older than the latest before them, as times read before the lock may be: at most (k + 2) * limit - 2. |
| `AdmissionLate.LateWindowBoundReached` | internal/engine/security.go:28-46 | For every limit and every k a run reaches that bound. |
| `SequenceHealth.FlowMetrics.ObservePacket` | internal/udputil/metrics.go:94-119 | The in-place update of the sequence counters is the step of the specification. |
| `SequenceHealth.DataPacketNumber` | internal/udputil/metrics.go:145-155 | A payload carries a number if and only if it has four bytes and a packet id from 0x80 to 0x8D: three bytes, lowest first. |
| `SequenceHealth.DataPacketRoundTrip` | internal/udputil/metrics.go:145-155 | A number laid out in a data packet is read back. |
| `SequenceHealth.PayloadsAreNumbers` | internal/udputil/metrics.go:94-119 | A stream of payloads is counted like the stream of sequence numbers it carries; every payload counts with its bytes, and those without a number change nothing else. |
| `SequenceHealth.ExpectedAccounts` | internal/udputil/metrics.go:94-119 | On every stream the next expected number is the first plus loss plus packets less duplicates and reordered, modulo 2^24. |
| `SequenceHealth.JudgeMeans` | internal/udputil/metrics.go:94-119 | On unbounded numbers the three counters are the sizes of sets: the positions that repeat the highest number before them, the positions below it, and the numbers the stream advanced past without reaching them. |
| `SequenceHealth.StepAgrees` | internal/udputil/metrics.go:145-162 | One step on 24 bits agrees with one on unbounded numbers if and only if the distance from the expected number is one that 24 bits tell apart. |
| `SequenceHealth.WraparoundRefines` | internal/udputil/metrics.go:94-162 | If every number is within [-2^23, 2^23) of the expected one, the 24-bit tracker reports the counts of the unbounded one. |
| `UdpCheck.SequenceStats.ObserveNumber` | cmd/road/udp_check.go:556-617 | The in-place update of the counters, highest number and seen set is the step of the specification. |
| `UdpCheck.RunKeeps` | cmd/road/udp_check.go:556-617 | On every stream the 64-bit loss sum equals an expression in the other counters, and so never wraps. |
| `UdpCheck.GapIdentity` | cmd/road/udp_check.go:556-617 | Loss is the numbers missing between first and highest, plus reordered packets, minus the numbers seen below the first; packets are unique plus duplicates; unique is the number of different numbers. |
| `UdpCheck.EncodePacket` | cmd/road/udp_check.go:512-532 | The two loops over the buffer write exactly the encoding, of at least the header length. |
| `UdpCheck.WireFormat` | cmd/road/udp_check.go:512-532 | Every field in its place, most significant byte first. |
| `UdpCheck.FillerBytes` | cmd/road/udp_check.go:529-531 | The filler behind the header. |
| `UdpCheck.DecodeErrors` | cmd/road/udp_check.go:534-543 | What is no packet, and with which error; everything else decodes. |
| `UdpCheck.PacketRoundTrip` | cmd/road/udp_check.go:512-554 | Decoding an encoded packet gives it back, with the length it was sent with in the length field, modulo 2^32. |
| `Fingerprint.FingerprintWindow.UpdateWindow` | cmd/plugin-studio/fingerprint.go:174-195 | The update through pointers is the step of the specification. |
| `Fingerprint.RunStatistics` | cmd/plugin-studio/fingerprint.go:174-195 | For every non-decreasing sequence of positive ticks: active ticks are the different ticks, bursts the maximal runs of consecutive ticks, the maximum the longest such run, first and last tick the extremes. |
| `Overlay.MergeJsonMaps` | cmd/road/generate_config.go:209-224 | The copy, the loop and the recursive calls compute the overlay of two objects of any depth. |
| `Overlay.OverlayAtPath` | cmd/road/generate_config.go:209-224 | What the overlaid document holds at any path, in terms of what the two documents hold there and of whether the override replaced something above. |
| `Overlay.EmptyOverride` | cmd/road/generate_config.go:209-224 | The empty object is a left and a right identity. |
| `Overlay.MergeWithSelf` | cmd/road/generate_config.go:209-224 | Overlaying a document with itself gives it back. |
| `Overlay.OverlayTwice` | cmd/road/generate_config.go:209-224 | Overlaying the same document again changes nothing. |
| `Overlay.TraceOfBase` | cmd/road/generate_config.go:209-224 | The result is the override itself if and only if the override has every key of the base, and so again in objects that meet. |
| `Overlay.GroupingOverlays` | cmd/road/generate_config.go:209-224 | Overlays may be grouped either way if and only if no object of the first is restored by the third after the second replaced it, except where the third covers it. |
| `Overlay.GroupingMatters` | cmd/road/generate_config.go:209-224 | Three documents whose overlay depends on the grouping. |
| `Overlay.GroupingWithoutClash` | cmd/road/generate_config.go:209-224 | In particular whenever no path is an object in the first and third document and present but no object in the second. |
| `Base64.DecodeEncode` | internal/plugin/runtime.go:153-163 | Decoding the base64 encoding of any bytes gives the bytes back (RFC 4648, section 4). |
| `Base64.EncodeDecode` | internal/plugin/runtime.go:157-163 | Text that decodes is the encoding of what it decodes to if and only if it has no line breaks and its last group no stray bits. |
| `Base64.SymbolsOfTheStandard` | internal/plugin/runtime.go:153-156 | The 64 symbols and the padding of RFC 4648, section 4. |
| `Base64.StandardExamples` | internal/plugin/runtime.go:153-156 | Examples of RFC 4648, section 10. |
| `Base64.LineBreaksIgnored` | internal/plugin/runtime.go:157-163 | A line feed or a carriage return anywhere in the text makes no difference to what it decodes to. |
| `Base64.OtherBytesCorrupt` | internal/plugin/runtime.go:157-163 | Any other byte that is neither a symbol nor padding makes the text corrupt. |
| `Pipeline.RunStep` | internal/plugin/runtime.go:137-167 | One step with its loop over the bytes, and its three errors. |
| `Pipeline.Process` | internal/plugin/runtime.go:118-135 | The loop over the steps, with the implied xor step of an obfuscating plugin, is the pipeline of the specification. |
| `Pipeline.ValidatePipeline` | internal/plugin/schema.go:245-252 | The loop reports the first bad step and its fault. |
| `Pipeline.PipelineAppend` | internal/plugin/runtime.go:127-133 | Running two pipelines in turn is running their concatenation, errors included. |
| `Pipeline.PipelineInversion` | internal/plugin/runtime.go:118-167 | The reversed pipeline of inverse steps recovers the payload of every run whose base64_decode steps meet text in standard form. |
| `Pipeline.EncodingPipelinesInvert` | internal/plugin/runtime.go:118-167 | Without base64_decode steps every pipeline of supported steps succeeds and is undone, on every payload. |
| `Pipeline.KeyedOutcome` | internal/plugin/runtime.go:143-152 | A pipeline of xor and noop steps adds one key stream to the payload, byte by byte. |
| `Pipeline.KeyStreamDetermines` | internal/plugin/runtime.go:143-152 | Two such pipelines treat a payload alike if and only if their key streams agree along it. |
| `Pipeline.KeyedStepsCommute` | internal/plugin/runtime.go:143-152 | Xor and noop steps commute in any order. |
| `Pipeline.ValidationIsExact` | internal/plugin/schema.go:245-270 | A pipeline passes validation if and only if it names every op and gets the empty payload through; the op left empty runs but does not validate. |
| `Pipeline.OnlyDecodingFails` | internal/plugin/runtime.go:137-167 | A pipeline of supported steps fails if and only if a base64_decode step meets text that is not base64. |
| `Pipeline.ValidPluginsFailOnlyDecoding` | internal/plugin/schema.go:119-184 | Processing with a schema that passes validation fails only at a base64_decode step, in either direction. |
| `Pipeline.FirstFaultReported` | internal/plugin/schema.go:119-184 | A schema is valid if and only if none of twelve faults applies, and otherwise the first of them in the order of the checks is reported. |
| `Pipeline.PassthroughPlugins` | internal/plugin/runtime.go:92-97 | Only a plugin in passthrough mode, without obfuscation and without steps in either direction, is a passthrough plugin. |
| `Pipeline.PassthroughIsIdentity` | internal/plugin/runtime.go:92-97 | A valid plugin in passthrough mode leaves every payload alone if and only if it does not obfuscate, or its name consists of zero bytes. |
| `Pipeline.ObfuscationMeans` | internal/plugin/runtime.go:118-125 | Obfuscation stands in for an empty pipeline only, and adds the bytes of the plugin's name over and over; a pipeline with steps runs as it is. |
| `Pipeline.PassthroughMeansIdentity` | internal/plugin/runtime.go:92-97 | Passthrough() implies that processing is the identity in both directions, valid schema or not. |
| `StreamCopy.CopyBuffered` | internal/engine/engine.go:298-333 | The copying loop, with its early returns, is the step-by-step copy of the specification. |
| `StreamCopy.CopiesTheStream` | internal/engine/engine.go:298-333 | Without a processor, however reads split the input: the sink has a prefix of the stream, all of it unless a write failed; then what is reported is what was written, and the source's own error is returned. |
| `StreamCopy.ReportsWhatItWrote` | internal/engine/engine.go:317-325 | With any processor, the reported bytes are the written bytes unless a write failed. |
| `StreamCopy.CopyIsAccounted` | internal/engine/engine.go:298-333 | With any processor and any write faults: the payloads of the chunks are written in order, each whole, until a write fails or the source or the processor ends the copy; the report is the payloads written whole. |
| `StreamCopy.FailedChunkStops` | internal/engine/engine.go:311-317 | A chunk that cannot be processed ends the copy with that error; nothing of it or behind it is written. |
| `StreamCopy.CopiesEncoded` | internal/engine/engine.go:309-325 | A base64 pipeline encodes chunk by chunk, each with its own padding. |
| `StreamCopy.CopiesKeyed` | internal/engine/engine.go:309-325 | With an xor/noop pipeline the output is the stream under a key stream that restarts with every chunk. |
| `StreamCopy.ChunkingIsUnobservable` | internal/engine/engine.go:309-325 | Copying chunk by chunk is the one-shot transform if and only if the key stream runs alike from the start of each chunk and from its place in the stream. |
| `StreamCopy.FittingChunksAlign` | internal/plugin/runtime.go:148-151 | That holds whenever every chunk but the last has a length divisible by every key length. |
| `StreamCopy.CopiersInSeries` | internal/engine/engine.go:275-296 | Two copiers in series with chunkings of their own give the stream back if and only if their keys restart alike. |
| `UdpTunnel.ReadDatagram` | internal/udputil/limits.go:14-31 | The guard reports an oversized datagram exactly when it exceeds the limit, and the buffer holds every other datagram whole; the two errors of the guard leave the buffer alone, and the socket's own error is passed on with what was read. |
| `UdpTunnel.ClientLoop` | internal/client/tunnel.go:313-354 | What the read loop sends on a session is exactly the datagrams of admissible length, in order, up to a failed write. |
| `UdpTunnel.ServerLoop` | internal/engine/http.go:425-470 | What is written to the target is exactly the messages of admissible length, in order, up to a failed write, and the counter is their total length. |
| `UdpTunnel.BothGuards` | internal/engine/http.go:448-455 | The two length guards in turn let through what the smaller limit does. |
| `UdpSession.ClientRunsItsLoop` | internal/client/tunnel.go:313-354 | In every interleaving the client sends what its read loop alone would send for the same events. |
| `UdpSession.ServerRunsItsLoop` | internal/engine/http.go:425-470 | In every interleaving the target gets what the write loop alone would give it for the same messages, and the counter lags behind by the one write that is about to be counted. |
| `UdpSession.EveryRunInOrder` | internal/client/tunnel.go:313-354 | In every interleaving of the two loops with any errors, the target has a prefix of the source's datagrams of length 1 to the smaller limit, and the receive counter with what is about to be counted is its total length. |
| `UdpSession.FaultlessRunsDeliverAll` | internal/engine/http.go:425-470 | In a run without socket errors, once the channel is drained and the last write counted, the target has exactly those datagrams, and the counter is their total length. |
| `UdpSession.DeliveredIsSubsequence` | internal/engine/http.go:425-470 | Delivered datagrams are an order-preserving subsequence of the received ones, byte for byte. |
| `UdpSession.AdmissibleDatagrams` | internal/client/tunnel.go:313-354 | What passes both ends is exactly the datagrams of one byte to the smaller of the two limits, from left to right. |
| `UdpSession.ReceivedHistory` | internal/client/tunnel.go:313-354 | What the client has read in a run is every datagram that came while it was up. |
| `UdpSession.ClosedEnds` | internal/engine/http.go:425-470 | An end that has closed stays closed and neither sends nor delivers any more. |
| `UdpSession.OpenEnds` | internal/engine/http.go:425-470 | While its end is up the server takes what has arrived, writes what fits, and counts it afterwards. |
| `SessionTable.Sessions.Insert` | internal/client/tunnel.go:234-242 | The second critical section: a session already there wins. |
| `SessionTable.Sessions.Take` | internal/client/tunnel.go:195-207 | The critical section of removeSession. |
| `SessionTable.Sessions.TakeAll` | internal/client/tunnel.go:179-192 | The loop that deletes while it collects takes every session once and leaves the table empty. |
| `SessionTable.Sessions.Expired` | internal/client/tunnel.go:266-277 | The sweeper selects exactly the keys of sessions idle for longer than allowed. |
| `SessionTable.Parts` | internal/client/tunnel.go:179-242 | In every step the table changes as Insert, Take and TakeAll of the class leave it, for the step's own key, or not at all; likewise the dialled keys, the readers and the closed sockets, part by part. |
| `SessionTable.NoSessionLeak` | internal/client/tunnel.go:176-354 | In every interleaving each dialled session is with its creator, or in the table under its own key with a reader that has not yet run removeSession, or out of the table and closed or held by exactly one thread about to close it. |
| `SessionTable.SettledMeansClosed` | internal/client/tunnel.go:179-193 | Once the listener has returned and the other threads have ended, every dialled session is closed and the table is empty. |
| `SessionTable.ShutdownNeverSticks` | internal/client/tunnel.go:160-193 | After cancellation, until that point, some thread can always take a step it takes by itself. |
| `SessionTable.ShutdownEnds` | internal/client/tunnel.go:160-193 | And every run of such steps ends within a bound computed from the state. |
| `SessionTable.RecheckNeverFires` | internal/client/tunnel.go:234-240 | The second look at the table never finds a session: the read loop alone inserts. |
| `SessionRuns.NewcomerIsDiscarded` | internal/client/tunnel.go:234-240 | What the second look at the table provides for: the newcomer is closed, and the datagram goes to the session that was there. |
| `SessionRuns.SweepIsComplete` | internal/client/tunnel.go:266-281 | However a sweep interleaves with the other threads, exactly the keys it collected are run through removeSession before it ends, and no session that was in the table under one of them when it began is there when it ends. |
| `SessionRuns.SweepCloses` | internal/client/tunnel.go:278-280 | And every session it took is closed by then. |
| `SessionRuns.IdleSessionIsSwept` | internal/client/tunnel.go:258-281 | A run that sweeps one idle session and closes it. |
| `SessionRuns.FailedWriteRemoves` | internal/client/tunnel.go:347-353 | When the read loop reads on after a failed write, the session it wrote to is out of the table. |
| `SessionRuns.DatagramsKeepTheirSource` | internal/client/tunnel.go:209-254 | In every run a datagram goes to a session of its own source. |
| `SessionRuns.ClosedHistory` | internal/client/tunnel.go:179-207 | In every run the closed sockets are exactly those some thread has closed. |
| `SessionRuns.NobodyStopsEarly` | internal/client/tunnel.go:258-281 | The sweeper stops and the listener returns only after cancellation. |
| `SessionHistory.TableHistory` | internal/client/tunnel.go:176-250 | In every run a session is in the table if and only if an insertion has put it there and no step has taken it out; what was taken out never returns. |
| `SessionHistory.SuccessionInOrder` | internal/client/tunnel.go:195-250 | If another session is in the table under the key of one that was taken out, it went in after that. |
| `SessionHistory.WhatALateReaderRemoves` | internal/client/tunnel.go:195-250 | A reader removes its own session if and only if no earlier step of the run took it out of the table; it removes another if and only if its own was taken out, and a session was later inserted under the same key and has not been taken since. |
| `LateReader.LateReaderRemovesSuccessor` | internal/client/tunnel.go:195-250 | For every key and any two sessions there is a run without a failed read, ping or write of the second, after which the late reader of the first finds the second under its key, removes it and closes it. |
| `Shutdown.RunsAreSound` | internal/engine/http.go:210-347 | In every interleaving the channel holds what was sent and not received, each thread sends at most once, and the write mutex has one holder. |
| `Shutdown.ProxiesAreSound` | internal/engine/http.go:216-216 | The channels of all proxies have room for every sender. |
| `Shutdown.SendersNeverBlock` | internal/engine/http.go:216-347 | With capacity 3, or 2 without a pinger, no copier blocks on its send and no failed ping is dropped. |
| `Shutdown.MainGoesOn` | internal/engine/http.go:341-346 | From the first error to the closing of both connections the main routine is never held up. |
| `Shutdown.EveryStepDescends` | internal/engine/http.go:216-347 | Once both connections are closed, every step of any thread brings the end nearer. |
| `Shutdown.ShutdownEnds` | internal/client/tunnel.go:666-759 | From there every way to go on ends, and it does not end before all threads are done. |
| `Shutdown.ReturnsFirstError` | internal/engine/engine.go:254-296 | The result is the first error put into the channel, unless that is an end of file, a closed connection or one of the ordinary close codes 1000, 1001, 1005 or a cut-off 1006; and both connections are closed. |
| `ShutdownRuns.ReturnsFirstFailure` | internal/engine/http.go:216-347 | That error is the one the thread had met that reported first. |
| `ShutdownRuns.RunsKeepErrors` | internal/engine/http.go:216-347 | In every run the channel has carried exactly the errors the threads ended with, in the order of the reports. |
| `ShutdownRuns.RunsOneAtATime` | internal/engine/http.go:265-339 | In every run each message read is written once, or fails to be, before the next is read, and each tick is one ping. |
| `ShutdownRuns.ChannelNeverOverflows` | internal/engine/http.go:216-216 | Whatever the capacity, the channel never holds more. |
| `ShutdownRuns.RunsKeepBuffer` | internal/engine/http.go:265-275 | After a WebSocket is closed exactly the messages it had buffered can still be read. |
| `Shutdown.WhoOutlivesMain` | internal/engine/http.go:341-346 | On return a copier may still run only if a failed ping took one of the two receives; without a pinger both copiers have ended. |
| `Shutdown.CopierMayOutliveMain` | internal/engine/http.go:241-263 | With a pinger, whatever the capacity and with or without a write mutex, there is a run in which that happens. |
| `Shutdown.WhoseCopiersEnd` | internal/engine/http.go:341-346 | Both copiers have ended whenever the main routine returns if and only if the proxy has no pinger. |
| `StatsCounters.Stats.StartSession` | internal/engine/stats.go:238-262 | The whole call is its five steps, and hands out the next id. |
| `StatsCounters.Stats.EndSession` | internal/engine/stats.go:264-284 | The whole call is its steps; an unknown id changes nothing. |
| `StatsCounters.Stats.AddSessionBytes` | internal/engine/stats.go:286-302 | The whole call is its steps, in either direction. |
| `StatsCounters.Stats.RegisterPlugin` | internal/engine/stats.go:156-165 | Registering creates a missing entry and changes no other. |
| `StatsCounters.RegisteredPlugins` | internal/engine/stats.go:156-165 | A new plugin starts at zero; an empty name is no plugin. |
| `StatsCounters.CallsCanBeMade` | internal/engine/stats.go:238-302 | From every reachable state any call can be made and be run to its end, and then has done what the method does. |
| `StatsCounters.CountersConserve` | internal/engine/stats.go:135-302 | In every interleaving of calls, step by step: active connections are live sessions plus starts counted but not inserted plus ends deleted but not decremented, and likewise for each plugin; bytes are those of the plugins, the unattributed and those on the way; a plugin's bytes are those of its live and ended sessions less those on the way, and its total the sessions begun under its name; ids are fresh, one for each session begun. |
| `StatsCounters.ActiveWhileRunning` | internal/engine/stats.go:173-302 | So the active count is never below the number of live sessions. |
| `StatsCounters.GuardNeverFires` | internal/engine/stats.go:187-200 | The guarded decrement always meets a positive count. |
| `StatsCounters.GuardUnobservable` | internal/engine/stats.go:187-200 | It could be a plain decrement: the plugins after it would be the same in every run. |
| `StatsCounters.CountersAtRest` | internal/engine/stats.go:238-302 | With no call running: active is the live sessions, and the sum of the plugins' plus the sessions without one; bytes are the sum of the plugins' plus the unattributed, and a plugin's are those of its sessions, live and ended. |

## Left out

- Sockets, HTTP servers, the WebSocket library, TLS and file access appear only as inputs, channels and events that may fail at any time.
- Floating-point statistics, packet gaps and the conversion of pcapng timestamps to nanoseconds: a timestamp is kept as its two words and the interface's resolution.
- Textual addresses: addresses are the bytes in the packet, and session and rate-limit keys are opaque.
- `Pipeline.SchemaFault` takes the verdicts on targets and on compatibility metadata as inputs; they are tests of single fields.
- Normalisation of schemas and plugin names: schemas are taken after `Normalize`, names after trimming.
- `StatsCounters.CountersConserve`: byte and connection counters are unbounded, where the program's wrap around at 2^64; the UDP health and error counters are left out.
- `UdpCheck.RunKeeps`: packet counters are unbounded as well; the loss sum is shown to stay within 64 bits.
- `UdpSession.EveryRunInOrder`: one WebSocket session of a passthrough plugin, from client to target. Replies, which pass the same two guards in the other direction, peer broadcast and recording are left out.
- `UdpCheck.SequenceStats.ObserveNumber`: leaves out the byte, payload size, gap and jitter fields; they do not influence the sequence counters.
- `Shutdown.SendersNeverBlock`: peer broadcast is left out. With it, other sessions' goroutines may hold a UDP proxy's write mutex, and its upstream copier writes to the sockets of other sessions.
- `SessionTable.NoSessionLeak`: pingers and the sweeper choose their moments freely; times of last use, metrics and the single UDP write mutex do not restrict the steps.
- `Shutdown.RunsAreSound`: deadlines are failures that may come at any time; the two plain connections of a TCP proxy are modelled like a WebSocket and a server connection.
- `aggregatePhasePacketFingerprints` and the summaries behind it, which work on lists already cut to 16 or 32 entries.
- The bound of a captured payload prefix by the UDP length: the code bounds it by the end of the IP packet.
- Host and origin matching, URLs, authentication, redaction, port recommendation, lock files, menus, wizards and the dashboard: string handling, selection and user interface.
