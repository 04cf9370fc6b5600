# FlowDPI, modelled and proved

FlowDPI reads a capture file, parses Ethernet, IPv4, TCP and UDP headers, reassembles one direction of each TCP stream,
looks for the server name of a TLS ClientHello, matches addresses, ports and names against block rules, and reports. A
sharded version spreads the flows over worker threads and promises the same report as the sequential one.

The project models the whole path and proves that its parts compose: from the bytes of a capture file to the verdict on a
flow, in the sequential engine and in every interleaving of the sharded one. Specifications are functions on values;
the code that updates state in place is a class or a method with loops, proved equal to those functions, and what the
program promises is proved about the functions and about all their runs.

| file | what it holds |
|---|---|
| `Bytes`, `Types`, `Wrappers` | fixed-width integers with explicit wrap-around, byte orders, packet records |
| `TcpReassembler` | the reassembler in place, and the functions it computes |
| `ReassemblyRuns`, `ReassemblyStalls` | runs against one unbounded stream: safety, completeness, the exact stalling condition, and that a stall is for good |
| `ReassemblySchedules` | which schedules lose nothing, order confluence, two runs that do lose bytes |
| `TlsGrammar`, `TlsParser` | a recursive-descent reading of a ClientHello, and the cursor walk that computes it |
| `TlsEncoding` | the encoder, the round trip, and the exact set of inputs for every verdict |
| `BlockRules` | rules and what was asked for, label-wise matching, order of rules |
| `FlowSpec`, `DpiEngine` | one packet's effect on a flow and the report; the engine in place |
| `FlowProperties`, `EngineProperties` | invariants, verdicts, isolation of flows, accounting, sums over flows and shards |
| `BoundedQueue` | the critical sections in place; the locking protocol for any number of threads |
| `ConcurrentEngine`, `ConcurrentProgress` | reader, queues and workers as a transition system: equivalence, no deadlock, bounded runs |
| `PacketParser`, `PcapReader`, `Capture` | framing, field by field from the bytes, and its round trips |
| `StreamDelivery`, `StreamVerdict` | what is delivered of any stream sent in segments, and what the engine makes of it |
| `HelloVerdict`, `EndToEnd` | what becomes of a flow that sends a ClientHello, from packets and from a capture file |

What the proofs found out about the code:

- `pullContiguous` walks its map in raw key order. When the cursor stands before the wrap of the 32-bit numbers and an
  entry lies past it, the loop meets that entry first and stops, even if the byte at the cursor is buffered. Delivery is
  complete exactly when this is not so (`ReassemblyRuns.PullCompleteIff`); `ReassemblySchedules.WrapStallExample` is a run
  that stalls. Nothing wrong is ever delivered (`ReassemblyRuns.SafeRun`), but a stall is for good: whatever arrives later,
  no further byte is delivered (`ReassemblyStalls.StuckForGood`). In the engine such a flow stays pending, and no domain
  rule can ever block it; `HelloVerdict.HelloIsDecidedIff` says by the order of arrivals alone when this happens.
- A segment replaces a buffered one with the same start even when it is shorter
  (`ReassemblySchedules.ShorterReplacesExample`). Completeness therefore asks that no entry shrinks, which a fixed
  segmentation guarantees.
- The empty string is both a possible domain rule and the answer "no rule". The verdict on a hostname depends on the order
  of the rules exactly when the empty rule and another rule both match it (`BlockRules.OrderIrrelevantIff`).
- The engine gives up on a record only if it declares at least 65533 bytes, far beyond what section 5.1 of RFC 8446 allows;
  `StreamDelivery.OverflowIff` says for which arrivals it does.
- A TCP payload runs to the end of the captured frame, link-layer padding included (`PacketParser.TrailerIsPayload`). A bare
  acknowledgement in a minimum-size Ethernet frame so brings six zero bytes; as the first packet of its flow it makes the
  flow not TLS for good (`EndToEnd.PaddedAckEndsInspection`). UDP payloads end where their length field says.
- `include/dpi_engine.h` describes the observed names as those of allowed flows in first-seen order. The code adds the
  name again on every packet of such a flow (`HelloVerdict.ListedTwiceExample`); each is listed once exactly when no flow was
  allowed before its last packet (`EngineProperties.NamesListedOnceIff`).
- `include/block_rules.h` promises the empty string only for a hostname that nothing blocks. With an empty rule the code
  also returns it on a match (`BlockRules.EmptyRuleExample`); the promise holds exactly for lists without one
  (`BlockRules.EmptyAnswerIff`).

## Model

| member | source | states |
|---|---|---|
| TcpReassembler.SeqLessThanIsOrder | include/tcp_reassembler.h:8-14 | comparing wrapped numbers orders any two stream positions less than half the number space apart |
| TcpReassembler.TrimInBounds | src/tcp_reassembler.cpp:32-37 | trimming the front of a segment never runs past its end, whatever its length |
| TcpReassembler.TcpStreamReassembler.AddSegment | src/tcp_reassembler.cpp:5-40 | the fields after the call are those of the specification `Add`, about which the run properties are proved |
| TcpReassembler.TcpStreamReassembler.PullContiguous | src/tcp_reassembler.cpp:42-73 | the map loop leaves the fields and returns the bytes of the specification `Pull` |
| TcpReassembler.TcpStreamReassembler.PendingBytes | src/tcp_reassembler.cpp:75-79 | the loop adds up the lengths of all buffered entries, whose meaning `ReassemblySchedules.PendingBytesCount` gives |
| TcpReassembler.PullTwice | src/tcp_reassembler.cpp:42-73 | a pull leaves nothing for a second pull |
| ReassemblyStalls.StuckForGood | src/tcp_reassembler.cpp:23-51 | once delivery has begun and an entry lies past the wrap with the cursor before it, no segment of any stream makes a pull deliver another byte |
| ReassemblyRuns.PullDelivers | src/tcp_reassembler.cpp:42-73 | a pull returns the next bytes of the stream and nothing else, keeps exactly the rest, and stops only at a byte that is not buffered unless it stalls at the wrap |
| ReassemblyRuns.PullCompleteIff | src/tcp_reassembler.cpp:45-51 | a pull leaves no contiguous byte behind if and only if it is not the case that the cursor's entry is buffered together with a numerically smaller one |
| ReassemblyRuns.StraddleStalls | src/tcp_reassembler.cpp:45-51 | with an entry past the wrap a pull returns nothing and changes nothing |
| ReassemblyRuns.FeedIsGood | src/tcp_reassembler.cpp:5-40 | an admissible segment keeps the invariant of a run: cursor, buffered slices, delivered bytes, widening before the first delivery |
| ReassemblyRuns.FeedHoldsIff | src/tcp_reassembler.cpp:25-39 | a segment that ends past the cursor leaves buffered exactly its own bytes and those of the other entries; everything that was buffered stays so if and only if other entries hold what the replaced entry held beyond the segment's end |
| ReassemblyRuns.StoreHeldIff | src/tcp_reassembler.cpp:39-39 | storing under a key leaves buffered exactly the new bytes and those of the other entries, so precisely the replaced entry's other bytes are lost |
| ReassemblyRuns.FetchIsGood | src/tcp_reassembler.cpp:42-73 | a pull keeps the invariant of a run and moves bytes from the buffer to the output without loss |
| ReassemblyRuns.SafeRun | src/tcp_reassembler.cpp:5-73 | over any mix of adds and pulls, wrap-around included, the joined pulls are the stream from the first byte delivered to the cursor, and going on only extends them |
| ReassemblyRuns.RunIsJustified | src/tcp_reassembler.cpp:5-73 | in every admissible run at all, only what some segment brought is buffered or delivered |
| ReassemblyRuns.RunIsAccounted | src/tcp_reassembler.cpp:5-73 | in a run that shrinks no entry, stalls or not, every offset ever fed is delivered or buffered, and nothing else is |
| ReassemblyRuns.CursorIsFirstGapIff | src/tcp_reassembler.cpp:42-73 | a pull delivers only bytes some segment covers, and ends at the least offset that no segment ever fed covers if and only if it does not stall |
| ReassemblyRuns.ScheduleIndependence | src/tcp_reassembler.cpp:5-73 | two schedules that feed the same offsets, deliver from the least of them and end in a pull that does not stall deliver the same bytes |
| ReassemblyRuns.EarliestFirstStartsAtLeast | src/tcp_reassembler.cpp:8-21 | feeding the earliest segment before the first pull makes delivery start at the least byte ever fed |
| ReassemblySchedules.NoWrapNeverStalls | src/tcp_reassembler.cpp:45-51 | a run over a stream whose sequence numbers do not wrap never meets the stalling case |
| ReassemblySchedules.PromptIffNeverStalls | src/tcp_reassembler.cpp:5-73 | with one fixed segmentation, in any order and with any retransmits, every pull stops at a byte no earlier segment covers if and only if no pull meets the stalling case |
| ReassemblySchedules.AddAllThenPull | src/tcp_reassembler.cpp:5-73 | any mix of adds and pulls over a fixed segmentation, earliest segment first, delivers what adding everything and pulling once delivers, if neither last pull stalls |
| ReassemblySchedules.NoWrapAddAllThenPull | src/tcp_reassembler.cpp:5-73 | in particular, with no hypothesis about the run, over a stream below half the number space that does not wrap |
| ReassemblySchedules.PendingBytesCount | src/tcp_reassembler.cpp:75-79 | over a fixed segmentation the number of pending bytes is the number of stream offsets that are buffered |
| ReassemblySchedules.OrderConfluence | src/tcp_reassembler.cpp:8-39 | any permutation of segments before the first pull, with backward widening, leaves the same cursor and buffer |
| ReassemblySchedules.WrapStallExample | src/tcp_reassembler.cpp:45-51 | three one-byte segments around the wrap after which the byte at the cursor is buffered and a pull returns nothing |
| ReassemblySchedules.ShorterReplacesExample | src/tcp_reassembler.cpp:39-39 | a shorter segment with the same start leaves the longer one's tail out of the buffer |
| TlsGrammar.VerdictIsStable | src/tls_parser.cpp:16-115 | a verdict other than Incomplete is the verdict on every longer buffer |
| TlsGrammar.IncompleteIff | src/tls_parser.cpp:17-25 | from the bytes: Incomplete if and only if there are fewer than five, or the first is 0x16 and fewer are there than the header declares |
| TlsGrammar.NotTlsIff | src/tls_parser.cpp:20-35 | from the bytes: not TLS if and only if the first of at least five is not 0x16, or the record is whole, has room for a handshake header and its type is not 1 |
| TlsParser.WalkNames | src/tls_parser.cpp:95-108 | the inner loop returns what the recursive reading of the name list gives, on every byte string |
| TlsParser.WalkServerName | src/tls_parser.cpp:86-108 | the list header and the inner loop agree with the recursive reading of the extension body |
| TlsParser.WalkExtensions | src/tls_parser.cpp:78-114 | the outer loop returns what the recursive reading of the extensions gives, on every byte string |
| TlsParser.WalkHello | src/tls_parser.cpp:41-76 | the cursor walk over the fixed and length-prefixed fields agrees with the recursive reading |
| TlsParser.TryExtractSni | src/tls_parser.cpp:16-115 | the whole walk stays in bounds, ends, and returns the verdict of the recursive reading on every byte string; `IncompleteIff`, `NotTlsIff`, `ReadIff` and `MalformedIff` say which bytes get which verdict |
| TlsEncoding.RecordRoundTrip | src/tls_parser.cpp:16-115 | parsing any encoded ClientHello, whatever follows it, gives the first host name of its first server name extension, or NoSni |
| TlsEncoding.ProperPrefixIsIncomplete | src/tls_parser.cpp:17-25 | every proper prefix of an encoded ClientHello record is Incomplete |
| TlsEncoding.ReadIff | src/tls_parser.cpp:37-115 | a name is found, or none is, if and only if the bytes spell that out with every length in bounds: extensions of other types, then a server name extension, in it entries of other types, then a host name; or no extension block, or a walk that runs out of bytes before either |
| TlsEncoding.MalformedIff | src/tls_parser.cpp:27-115 | malformed if and only if the record is whole, not of another handshake type, and spells out neither |
| BlockRules.BlockRuleSet.constructor | include/block_rules.h:38-41 | a new rule set blocks no address and no port |
| BlockRules.BlockRuleSet.AddBlockedIp | src/block_rules.cpp:17-31 | afterwards exactly the addresses blocked before and this one are blocked, and nothing else has changed |
| BlockRules.BlockRuleSet.AddBlockedPort | src/block_rules.cpp:25-29 | afterwards exactly the ports blocked before and, for TCP or UDP, this one are blocked |
| BlockRules.IpBlockedIffAsked | src/block_rules.cpp:17-31 | after any calls an address is blocked if and only if one of them asked for it |
| BlockRules.PortBlockedIffAsked | src/block_rules.cpp:21-35 | after any calls a port is blocked under a protocol if and only if that is TCP or UDP and a call asked for both |
| BlockRules.DomainBlockedIffAsked | src/block_rules.cpp:6-42 | after any calls a hostname is blocked if and only if some call asked for a non-empty domain that it is, or ends in behind a dot and something more, and no empty one that covers it was asked for before |
| BlockRules.BlockRuleSet.MatchBlockedDomain | src/block_rules.cpp:37-42 | the loop returns what `FirstMatch` gives, which `FirstMatchIsFirst` pins down |
| BlockRules.MatchesRuleIff | src/block_rules.cpp:6-14 | a rule matches exactly itself and every name made of something, the byte 46 and the rule |
| BlockRules.LabelsIff | src/block_rules.cpp:9-13 | the labels of a name are the one list of strings without the byte 46 that, joined by it, give the name |
| BlockRules.MatchesRuleIffSubdomain | src/block_rules.cpp:6-14 | the suffix test on characters holds if and only if the names are equal or the rule's labels follow at least one label other than a single empty one |
| BlockRules.MatchingIsPartialOrder | src/block_rules.cpp:6-14 | matching is reflexive, antisymmetric and transitive |
| BlockRules.FirstMatchIsFirst | src/block_rules.cpp:37-42 | the reported rule is the first that matches, and the empty string if none does |
| BlockRules.BlockedIffBlocksAt | src/block_rules.cpp:37-42 | a hostname is reported blocked if and only if some non-empty rule matches it before any empty rule that does |
| BlockRules.BlockedIffSubdomain | src/block_rules.cpp:6-42 | without an empty rule, a hostname is blocked if and only if it is one of the rules or its labels end in a rule's labels |
| BlockRules.EmptyAnswerIff | include/block_rules.h:29-31 | the empty answer means for every hostname that no rule matches, as the header promises, if and only if the list has no empty rule |
| BlockRules.EmptyRuleExample | src/block_rules.cpp:37-42 | the empty hostname and any list with an empty rule: a rule matches and the answer is empty |
| BlockRules.OrderIrrelevantIff | src/block_rules.cpp:37-42 | every reordering of the rules gives the same verdict if and only if the empty rule and another rule do not both match |
| DpiEngine.DpiEngine.ProcessParsedPacket | src/dpi_engine.cpp:65-154 | flow table and report after the call are one step of the specification, other flows untouched |
| DpiEngine.DpiEngine.Lookup | src/dpi_engine.cpp:70-80 | the flow of the tuple, entered and counted only when it is new |
| DpiEngine.DpiEngine.Inspect | src/dpi_engine.cpp:82-150 | the branches on an existing flow update it and the report as the specification says, about which `StepIsGood`, `StepReports` and `BlockedIff` speak in terms of the rule lists |
| DpiEngine.DpiEngine.TryResolveSni | src/dpi_engine.cpp:156-192 | pull, append, parse and the status switch update the flow as the specification says |
| DpiEngine.DpiEngine.ProcessPacket | src/dpi_engine.cpp:59-63 | a frame that does not parse changes nothing, any other is one step |
| DpiEngine.DpiEngine.ProcessFile | src/dpi_engine.cpp:48-57 | true exactly for contents that begin with a whole global header and one of the magic numbers; then the engine has run over all packets of the file in order, and otherwise nothing has changed |
| FlowProperties.IncrementalEqualsOneShot | src/dpi_engine.cpp:156-192 | retrying on a growing buffer gives up if and only if some prefix overflows undecided, and otherwise ends as one parse of everything would |
| FlowProperties.FlowEqualsOneShot | src/dpi_engine.cpp:129-192 | over any packets a flow's name is settled as one parse of everything pulled for it would, unless some prefix overflowed |
| FlowProperties.GaveUpNeedsOversizedRecord | src/dpi_engine.cpp:166-173 | giving up needs a handshake record that declares at least 65533 bytes |
| FlowProperties.StepIsGood | src/dpi_engine.cpp:65-192 | every packet keeps: a pending buffer is at most 65536 bytes and Incomplete, a settled one is empty, the reason of a block holds and no reason that comes before it does, an open flow matches no rule it has been compared with |
| FlowProperties.StepAbsorbs | src/dpi_engine.cpp:85-150 | blocked and its reason are for good, a settled name is for good, an allowed name is never blocked later |
| FlowProperties.StepReports | src/dpi_engine.cpp:85-150 | a packet counts as blocked if and only if the flow now is; one entry when it becomes so; the name again on each packet of an allowed flow |
| FlowProperties.BytesAreCounted | src/dpi_engine.cpp:82-83 | a flow's byte count is the sum of its packets' sizes, blocked or not |
| FlowProperties.BlockedIff | src/dpi_engine.cpp:85-150 | a flow ends blocked if and only if its source or destination address is in the list, or one of its two ports is under its protocol's number and some packet had a transport header, or its name matches a rule |
| FlowProperties.BlockedIffAsked | src/dpi_engine.cpp:85-150 | the same after any calls that added rules, in terms of the calls alone |
| FlowProperties.OnlyTcpIsNamed | src/dpi_engine.cpp:129-134 | a flow that is not TCP, or whose packets never had a readable transport header, is never reassembled or looked into for a name |
| FlowProperties.BusyDecides | src/dpi_engine.cpp:130-134 | without an address or port rule on the tuple, packets without data, at any sequence numbers, change nothing of a flow but its counts |
| FlowProperties.TrackStays | src/dpi_engine.cpp:130-131 | a settled name stays whatever packets follow |
| FlowProperties.StuckStays | src/dpi_engine.cpp:129-192 | a pending flow whose reassembler is stuck is never resolved and never blocked by a name, whatever packets follow |
| EngineProperties.FlowIsolation | src/dpi_engine.cpp:65-154 | after any packets, the state of a tuple is the state its own packets alone lead to |
| EngineProperties.SameFlowInClass | src/concurrent_dpi_engine.cpp:86-99 | running one class of tuples alone leaves each of its flows as the full run does |
| EngineProperties.ReportIsSumOfClasses | src/concurrent_dpi_engine.cpp:35-46 | however tuples are classified, the reports of the classes run separately add up to the report of the full run |
| EngineProperties.ReportIsSumOfFlows | src/dpi_engine.cpp:65-154 | the report is the sum over the flow table of what each flow's own packets contribute |
| EngineProperties.RunIsAccounted | src/dpi_engine.cpp:70-153 | in every reachable state the counters equal the sizes of the flow table and of its blocked part, entries and blocked flows correspond, and the observed names are exactly those of allowed flows |
| EngineProperties.ReportContinues | src/dpi_engine.cpp:65-154 | whatever packets follow, entries and names are only appended and no counter falls |
| EngineProperties.NameListedOnceIff | src/dpi_engine.cpp:136-149 | the name of an allowed flow is listed exactly once if and only if the flow was not allowed before its last packet |
| EngineProperties.NamesListedOnceIff | include/dpi_engine.h:48-48 | the report lists the name of every allowed flow once, as the comment describes, if and only if no flow of the run was allowed before its last packet |
| BoundedQueue.BoundedQueue.PushLocked | include/bounded_queue.h:27-35 | the critical section of push waits, refuses or appends as the protocol's step does |
| BoundedQueue.BoundedQueue.PopLocked | include/bounded_queue.h:38-47 | the critical section of pop waits, reports the end or takes the front as the protocol's step does |
| BoundedQueue.AnyThreadMayMove | include/bounded_queue.h:27-56 | in every state every thread has a step of its own: any call from outside, a spurious wakeup when asleep, the rest of its call otherwise |
| BoundedQueue.StepIsGood | include/bounded_queue.h:27-56 | every step of every thread, spurious wakeups included, keeps: capacity bound, FIFO contents, enough helpers awake for whoever sleeps, a broadcast still to come once closed |
| BoundedQueue.RunIsFifo | include/bounded_queue.h:27-47 | for any threads and any interleaving, what was popped followed by what is queued is what was pushed, within capacity |
| BoundedQueue.ClosedAcceptsNothing | include/bounded_queue.h:17-33 | once closed, a queue stays closed and nothing more is pushed, whatever the threads do |
| BoundedQueue.QuietIsJustified | include/bounded_queue.h:27-56 | when nothing is in flight a sleeping consumer means open and empty, a sleeping producer means open and full, and with room for one item never both |
| ConcurrentEngine.MergeReports | src/concurrent_dpi_engine.cpp:35-46 | the field-by-field merge over all shards is the fold that `MergeIsSum` turns into a sum |
| ConcurrentEngine.MergeIsSum | src/concurrent_dpi_engine.cpp:104-105 | merging adds the counters and joins the entries and names of the shards as multisets |
| ConcurrentEngine.MergeKeepsOrder | src/concurrent_dpi_engine.cpp:35-46 | the merged entries and names are those of the shards one after the other, in the order of the shards |
| ConcurrentEngine.StepIsGood | src/concurrent_dpi_engine.cpp:55-108 | every step of reader, workers and queues keeps: per shard, pushed and in-flight packets are the shard's packets read so far, and the worker's engine is the sequential engine on what it has consumed |
| ConcurrentEngine.ShardsAreIndependent | src/concurrent_dpi_engine.cpp:72-84 | steps inside two shards neither disable each other nor depend on their order |
| ConcurrentEngine.FinishedShard | src/concurrent_dpi_engine.cpp:72-102 | at the end each worker has run the sequential engine on exactly its shard's packets, in capture order |
| ConcurrentEngine.ConcurrentEqualsSequential | src/concurrent_dpi_engine.cpp:50-108 | for every interleaving, worker count, capacity and hash the finished run has the sequential engine's counters, entries and names as multisets, and every flow in the same state, at the worker its hash names modulo the number of workers |
| ConcurrentEngine.FlowsArePartitioned | src/concurrent_dpi_engine.cpp:72-99 | at the end each flow of the sequential engine is in the table of that worker and of no other |
| ConcurrentProgress.QueuesAreSafe | src/concurrent_dpi_engine.cpp:94-99 | in every reachable state queues are within capacity, conserve their items, and no push was refused |
| ConcurrentProgress.RoutedByHash | src/concurrent_dpi_engine.cpp:50-99 | in every reachable state there are as many queues and workers as asked for, or one, of the capacity asked for, or one, and a queue is only ever given IPv4 packets whose hash names it |
| ConcurrentProgress.NeverStuck | src/concurrent_dpi_engine.cpp:78-102 | in every reachable unfinished state some step other than a spurious wakeup is possible |
| ConcurrentProgress.StepWeight | src/concurrent_dpi_engine.cpp:78-102 | every step lowers a measure of unread packets, queued packets, open queues and thread positions, except a spurious wakeup, which raises it by one |
| ConcurrentProgress.RunsAreBounded | src/concurrent_dpi_engine.cpp:78-108 | a run has at most ten steps per packet, twelve per shard, five more, and two per spurious wakeup |
| ConcurrentProgress.EveryRunCanFinish | src/concurrent_dpi_engine.cpp:78-108 | whatever has happened so far, some continuation without spurious wakeups ends the run |
| PacketParser.ParseIpv4 | src/packet_parser.cpp:54-79 | reading at the running offset gives the header fields and the rest, or rejects the same headers |
| PacketParser.ParseTcp | src/packet_parser.cpp:81-107 | reading at the running offset equals the reading of the segment alone |
| PacketParser.ParseUdp | src/packet_parser.cpp:109-135 | reading at the running offset equals the reading of the datagram alone, payload clamped to the capture |
| PacketParser.Parse | src/packet_parser.cpp:21-52 | the parser over one buffer equals the layered reading, on every byte string; `RejectedIff` to `OtherProtocol` give its result from the bytes |
| PacketParser.LinkRecovered | src/packet_parser.cpp:25-79 | for any protocol number and zero to ten IPv4 option words, the headers of a built frame are read and the transport reader gets exactly what follows them |
| PacketParser.FrameRoundTrip | src/packet_parser.cpp:54-107 | parsing any built TCP frame with zero to ten option words in each header recovers tuple, sequence number and payload |
| PacketParser.TrailerIsPayload | src/packet_parser.cpp:101-103 | whatever the link layer adds behind a TCP segment is taken for payload, so the frame's own fields are recovered if and only if nothing is added |
| PacketParser.UdpRoundTrip | src/packet_parser.cpp:109-135 | parsing any built UDP frame recovers its tuple and its payload without the padding behind it |
| PacketParser.RejectedIff | src/packet_parser.cpp:21-64 | in terms of the frame's bytes: rejected if and only if the Ethernet header is short, or the frame is IPv4 with a header that is short, cut off, below five words or not version 4 |
| PacketParser.OtherEthertype | src/packet_parser.cpp:25-52 | any frame of another ethertype is parsed, with every field but the ethertype as it was |
| PacketParser.NetworkFields | src/packet_parser.cpp:54-79 | protocol, addresses and header length of an IPv4 frame from its bytes 14, 23, 26 to 29 and 30 to 33 |
| PacketParser.TcpFields | src/packet_parser.cpp:81-107 | ports, sequence number, header length, payload and tuple of a TCP frame from its bytes, and exactly when it has a transport header |
| PacketParser.UdpFields | src/packet_parser.cpp:109-135 | the same for a UDP frame, whose payload ends at its declared length or with the capture |
| PacketParser.OtherProtocol | src/packet_parser.cpp:34-39 | an IPv4 frame of any other protocol has no ports and no transport header, and everything behind the IPv4 header is payload |
| PacketParser.PortsSurviveBadLength | src/packet_parser.cpp:86-95 | a TCP header with a bad length still gives the ports, but the packet has no transport header |
| PcapReader.SwapReverses | src/pcap_reader.cpp:9-12 | swapping a little-endian load gives the big-endian value of the same bytes |
| PcapReader.PcapReader.Open | src/pcap_reader.cpp:21-45 | succeeds exactly on a reader not yet open and 24 bytes or more that begin with the magic number in either byte order, and leaves the records behind them to be read |
| PcapReader.FormatIff | src/pcap_reader.cpp:6-45 | from the bytes: a capture if and only if 24 bytes are there and begin d4 c3 b2 a1 or a1 b2 c3 d4, swapped exactly in the second case, with the limit that bytes 16 to 19 stand for in that order |
| PcapReader.FirstRecordIff | src/pcap_reader.cpp:47-80 | from the bytes: a record is delivered if and only if its 16 header bytes, read in the file's order, declare a length within the limit and so many bytes follow, which are its data |
| PcapReader.PcapReader.ReadNextPacket | src/pcap_reader.cpp:47-80 | returns the next of the remaining records and leaves the others, or nothing when none remain; after a record above the limit reading goes on behind its header, after any other failure nothing is left |
| PcapReader.CutRecords | src/pcap_reader.cpp:47-80 | records cut anywhere are read back as exactly those that are still whole |
| PcapReader.ImageRoundTrip | src/pcap_reader.cpp:21-80 | a file in either byte order, cut anywhere behind its global header, yields exactly the packets still whole, and all of them uncut |
| PcapReader.OversizedRecordStops | src/pcap_reader.cpp:63-68 | a record declaring more than the file's limit ends the reading, with every packet before it delivered and whatever follows ignored |
| StreamDelivery.DeliversToGap | src/tcp_reassembler.cpp:5-73 | with a pull after every segment, any overlaps and retransmissions but none cut shorter while it waits, and nothing past the wrap early: what is delivered is the stream from the first arrival's start to the first byte missing |
| StreamDelivery.DeliveredIff | src/tcp_reassembler.cpp:5-73 | everything up to an offset is delivered if and only if all of it arrived and no segment past the wrap arrived before all of it that lies before the wrap |
| StreamDelivery.DisorderIsStuck | src/tcp_reassembler.cpp:45-51 | if such a segment came too early the reassembler is stuck for good short of that offset |
| StreamDelivery.OverflowIff | src/dpi_engine.cpp:166-173 | in an orderly sending a buffer overflows if and only if at some arrival more than it holds had arrived without a gap and not everything that is waited for had |
| StreamDelivery.NoWrapIsOrderly | src/tcp_reassembler.cpp:45-51 | a stream whose sequence numbers do not wrap is always orderly |
| StreamDelivery.InOrderIsOrderly | src/tcp_reassembler.cpp:45-51 | segments that arrive in stream order are orderly at any sequence numbers |
| StreamVerdict.TrackIsOneShot | src/dpi_engine.cpp:129-192 | any stream, TLS or not, wherever its first data packet starts, among any packets without data, nothing past the wrap early: the flow's name is settled as one parse of the bytes from there to the first one missing would, unless they overflowed the buffer undecided, and only the name can block the flow |
| StreamVerdict.FirstPacketDecides | src/dpi_engine.cpp:129-192 | a flow whose first packet brings bytes that parse to a verdict keeps exactly that verdict, whatever follows |
| StreamVerdict.FirstPacketNotTls | src/dpi_engine.cpp:129-192 | a flow whose first packet brings five bytes or more that do not begin a handshake record is not TLS and not blocked, whatever follows |
| HelloVerdict.HelloIsDecidedIff | src/dpi_engine.cpp:129-192 | any ClientHello that fits its length fields, any cut, any order behind its first segment, any overlaps and retransmissions but none cut shorter while it waits, among any packets without data: the flow settles on exactly its first host name, and is then blocked exactly when a domain rule matches that, if and only if the delivery is complete, orderly and never overflows the buffer; otherwise it is undecided and not blocked |
| HelloVerdict.HelloIsFinal | src/dpi_engine.cpp:129-192 | the same for the packets up to any point, whatever packets follow: a decided flow stays decided, and one that got a segment too early or overflowed is never decided and never blocked |
| HelloVerdict.DecidedIffSubdomain | src/block_rules.cpp:6-42 | without an empty rule, a decided flow is blocked if and only if its host name is one of the rules or below one in labels |
| HelloVerdict.HelloInTraffic | src/dpi_engine.cpp:65-192 | the same in the middle of any other traffic |
| HelloVerdict.HandshakeThenHello | src/dpi_engine.cpp:129-192 | packets without data, that is frames that end with their TCP header, and then the record in one segment, at any sequence numbers, are decided whatever follows |
| HelloVerdict.ListedTwice | src/dpi_engine.cpp:136-149 | the record and one more packet of an allowed flow: the report lists the name twice |
| HelloVerdict.ListedTwiceExample | src/dpi_engine.cpp:136-149 | a two-packet input, without rules, on which it does |
| EndToEnd.FrameCounts | src/dpi_engine.cpp:59-80 | a captured frame is one packet of the flow its headers name if and only if it holds a whole IPv4 header; any other changes nothing |
| EndToEnd.FramesCounted | src/dpi_engine.cpp:48-70 | the packet count of a run over captured frames is the number of those |
| EndToEnd.CaptureToVerdict | src/dpi_engine.cpp:48-192 | the same from the bytes of a capture file in either byte order, among any other frames, through framing, header options and reassembly |
| EndToEnd.ShardedVerdict | src/concurrent_dpi_engine.cpp:55-108 | the same for every finished interleaving of the sharded engine on that file |
| EndToEnd.PaddedAckEndsInspection | src/packet_parser.cpp:101-103 | a bare acknowledgement padded to the minimum Ethernet frame makes its flow not TLS and never blocked by a name, whatever it sends later |

## Left out

- Live capture, signal handling and the command line (src/live_capture.cpp, src/main.cpp): foreign calls and input or output.
- File streams: a capture file is a byte string with a read position, on a little-endian host; the file's contents are a parameter, absent when it cannot be read.
- Latency samples, percentiles and the benchmark loops: clock values and floating point.
- `renderReport`, `ipToString` and `describeDirection`: formatting. Block entries are kept as tuple, optional name and reason.
- The mixing constants of `FiveTupleHash` (include/types.h:55-64): the hash is an arbitrary function of the tuple.
- MAC addresses, TTL, TCP flags and acknowledgement numbers: no decision reads them.
- IPv6, VLAN tags, IP fragments and a ClientHello spread over several records: the code does not handle them.
- Counters are unbounded; the wrap-around of the 64-bit counters after 2^64 packets is not modelled.
- Payload pointers and moves: the payload is the slice of the frame it points into.
- The C++ memory model: a critical section is one atomic step; unlocking and notifying are separate steps.
- Steps that touch no shared state are joined to the call that follows: reading, parsing and hashing a packet to the push, running a worker's engine to its next pop. All workers exist from the start.
- Engines in the sharded system are values of the specification that `DpiEngine` is proved to compute; updating shard engines in place, and the aliasing between them that separate objects exclude, are not part of the transition system.
- The engine holds its rules as a value, the copy made when it is constructed.
- HelloVerdict.HelloIsDecidedIff: the first packet with data starts the record, no segment is cut shorter while a longer one with the same start waits, and the segments up to the point in question lie within half the number space; `StreamVerdict.TrackIsOneShot` covers other starts, and without the second the code drops bytes.
