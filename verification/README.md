# ARGUS verification model

ARGUS is a passive network sensor. Packets pass through a pipeline: IP fragments are put back together,
TCP segments are reassembled into streams, messages are cut out of the streams, bodies are hashed, flows are
accounted for, and a behavioural aggregator watches what the workers report and raises alerts, which a writer
deduplicates. Each stage is a stateful transformation that has to agree with something simple: a byte stream,
a datagram, a sum over a history, a sorted list, a calendar.

This project models those stages in Dafny and proves the agreement. Run `dafny verify dfyconfig.toml`.

| files | part of the pipeline |
|---|---|
| `SeqNum`, `Reassembly`, `ReassemblyTheorems`, `Conflicts`, `StreamHalf` | TCP reassembly with 32-bit sequence numbers (section 3.4 of RFC 9293) |
| `Dechunker`, `ChunkSyntax`, `FileHasher`, `BodyTap`, `BodyHashTheorems` | hashing of HTTP bodies as their segments arrive (section 7.1 of RFC 9112) |
| `Framing`, `FrameSyntax`, `StreamMessages` | the line, SMB2, Modbus and DNP3 cursors over a stream |
| `Fragments`, `FragmentTheorems`, `FragmentLimits`, `IpWire`, `Ipv6Wire` | IP defragmentation (section 3.2 of RFC 791, section 4.5 of RFC 8200) |
| `FlowTable`, `FlowTableTheorems`, `FlowReports`, `FlowLifetimes` | the table of open connections: its byte accounts, its reports, and how long a flow stays |
| `Observations`, `Window`, `RingHistory`, `Behavior`, `BehaviorTheorems`, `PortBound`, `TableRoom`, `TableLimits` | the behavioural aggregator |
| `Reorder`, `SortOrder`, `ReplayTheorems` | the order in which observations are processed, live and in replay |
| `AlertWriter`, `AlertOrder`, `AlertNotes` | suppression of repeated alerts |
| `Civil`, `IpSet`, `AddressBits`, `Ipv6Text`, `CanonicalText`, `Reload` | timestamps, the reputation set, IPv6 text (section 4 of RFC 5952), hot reload |

Code that updates state in place is a class or a method with loops whose contract ties it to a function of the old
state; the properties are lemmas about those functions and about runs of them. Pure code is a function.

## Where the code and its comments part ways

The models follow the code. These lemmas state what was found.

- A payload on a SYN is fed at the SYN's own sequence number, so its first byte is lost
  (`ReassemblyTheorems.SynPayloadLosesFirstByte`) and the direction is stuck: whatever follows, nothing more is delivered
  until the payload's last byte is sent again (`ReassemblyTheorems.SynPayloadStallsStream`, an equivalence). The comment
  on `Packet::tcp_seq` has it already moved past the SYN.
- The guard `skip < data.len()` in `feed` never fails (`ReassemblyTheorems.OverlapGuardRedundant`), and neither does
  the slice in `drain_out_of_order`, which has no guard (`SeqNum.TrimInBounds`).
- A rebuilt IPv4 datagram longer than 65535 bytes has its length field clamped and is read back cut short; up to that
  length it is exact (`IpWire.RebuiltIpv4`, an equivalence).
- A rebuilt IPv6 datagram drops the extension headers that came before its fragment header, as the comment on
  `Ipv6Fragment` says; it is the datagram that was sent exactly when there were none
  (`Ipv6Wire.Ipv6SurvivesFragmentation`). A fragment behind nine or more of them is not taken for a fragment
  (`Ipv6Wire.WireFragment6Parses`, an equivalence).
- The chunk decoder takes more than the standard's chunks: carriage returns anywhere in a size line, and any two bytes
  after the data. `ChunkSyntax.AnyInputDecodes` says what it makes of every input.
- A tap installed while another is open takes its place, and the other body is never reported; a report not yet
  collected is replaced by the next, even by none (`BodyHashTheorems.InstallOverOpenTap`,
  `BodyHashTheorems.ReportReplaces`).
- A late add can cost `RateWindow` a newer second (`Windows.LateAddLosesASecond`). `Windows.LateAddKeepsTotalIff` says
  exactly when it does not for any ring, `Windows.LateAddIsExactIff` for any history in order. For a history in any
  order and a question about any time, the total a late add returns included, `RingHistory.TotalAgainstHistory` says
  what the ring counts too much and too little.
- A FIN ends a tap whose declared length was not reached without marking the digest truncated
  (`BodyHashTheorems.DigestOnClose`). The report is that of the whole body exactly when the stream reached the end of
  the body or ran past the hashing limit (`BodyHashTheorems.WholeReportIff`).
- `IpSet::lookup` says the last range starting at or below the address is the only candidate. It is not
  (`IpSets.LastStartIsNotTheOnlyCandidate`); the backward scan makes up for it. `IpSets.OneCandidateSufficesIff` gives
  the ordered lists on which the comment is right.
- Two observations can tie without being identical, but only if they are flows whose received bytes differ by 2^63
  (`Reordering.TiesAreIdenticalIff`, an equivalence).
- Suppression is said to be a function of the alerts whatever order they arrive in. With fewer keys than half the cap,
  every arrangement of a run emits as many alerts if and only if, key by key, the alerts are all simultaneous or no two
  of them lie within a window of each other (`AlertOrdering.OrdersAgreeIff`); and it emits the same alerts only if they
  are all one and the same alert, or again a window apart (`AlertOrdering.ChoicesAgreeIff`, an equivalence).
- The cap on suppression keys holds after a prune (`AlertWriting.PruneBounds`), not between prunes
  (`AlertWriting.BurstIsHeldInFull`). What bounds the table on every run is the cap and the alerts emitted since the last
  prune (`AlertWriting.TableIsBounded`); `AlertWriting.CapIsPassedIff` gives the step at which the cap is passed.
- Suppressed repeats are announced with the next alert like them, unless a prune has forgotten the key: then they never
  are (`AlertNotes.NoteCountsRepeats`).
- A reader of a hot-reloaded value misses what is stored between two of its calls, by whatever writers, if and only if
  the number of stores published is a multiple of 2^64 (`Reloading.StoresUnseenIff`). The documentation allows one writer; nothing proved here needs that.
- The bound on `unanswered_by_port` drops only empty tables, and on no run is there one, so it never drops anything
  (`PortBound.PortBoundNeverBites`).
- Interim `Traffic` observations are made whether or not observations are enabled; `Flow` observations are not
  (`FlowReports.UnobservedRunIsSilent`).

## Model

| member | source | states |
|---|---|---|
| SeqNum.SeqAfterIsOrder | src/engine.rs:2904-2910 | The signed-difference comparison agrees with the order of unbounded offsets for every pair less than 2^31 apart, across any number of wraps |
| SeqNum.SeqAfterFailsAtHalf | src/engine.rs:2904-2910 | One step outside that range, on either side, the comparison is wrong: the range is exact |
| SeqNum.TrimInBounds | src/engine.rs:3182-3193 | The part to skip of a held segment is strictly inside it, for any lengths and positions: the unguarded slice never fails |
| ReassemblyTheorems.FeedIsAppendOnly | src/engine.rs:3065-3136 | Any feed, conflicting data included, only appends: earlier bytes stay, the buffer keeps a prefix up to the cap and counts the rest, held copies keep their first bytes, and every held segment is strictly ahead afterwards |
| ReassemblyTheorems.HoldKeepsFirst | src/engine.rs:3077-3094 | Holding a segment never changes bytes already held at its number, and never more than the limit is held |
| ReassemblyTheorems.DrainEffect | src/engine.rs:3182-3193 | Draining releases until no held segment is reached, appends what it releases, and leaves the other segments as they were |
| Reassembly.DrainStep | src/engine.rs:3182-3193 | Taking reached segments out one at a time, in the order an ascending walk meets them, terminates and adds up to the drain |
| ReassemblyTheorems.OverlapGuardRedundant | src/engine.rs:3095-3105 | In the overlap branch the inner guard always holds: the branch always delivers the tail |
| ReassemblyTheorems.FeedFollowsStream | src/engine.rs:3065-3106 | A segment that agrees with a stream delivers the next bytes of that stream and leaves a state faithful to it |
| ReassemblyTheorems.ReassemblyIsExact | src/engine.rs:3065-3136 | For every run of consistent segments within 2^31 of the position, in any order, overlapping or repeated: the delivered length is the longest prefix covered by the segments accepted, the buffer is that prefix of the stream up to the cap, kept and dropped bytes add up to it, and the next number is its end modulo 2^32 |
| ReassemblyTheorems.DeliveryOrderIrrelevant | src/engine.rs:3065-3106 | Two runs that accepted the same segments end in the same state, held segments included |
| ReassemblyTheorems.SynPayloadLosesFirstByte | src/engine.rs:3907-3913 | A payload fed at the SYN's own number delivers all but its first byte, and leaves the position one short of where the next segment starts |
| ReassemblyTheorems.RunDeliversIffBrings | src/engine.rs:3065-3106 | From any state and for any segments in the window, consistent or not, a run delivers something if and only if one of them brings the next expected byte |
| ReassemblyTheorems.SynPayloadStallsStream | src/engine.rs:3907-3913 | After a payload on a SYN, whatever segments follow, in order or not, nothing is delivered unless one of them brings the payload's last byte again |
| Conflicts.HeldCopyGrows | src/engine.rs:3076-3094 | For any data, agreeing with what is held or not: after a copy ahead of the stream, the entry under its number is as long as the longer of the two, what was held is its beginning, and the rest is the new copy's; nothing else changes, and only a new number beyond the sixteenth is refused |
| Conflicts.WaitingHoldsFirstCopies | src/engine.rs:3065-3106 | Over any run during which the stream waits: the byte held at each place under a number is that of the first accepted copy long enough to have one there, and no such byte is missing |
| Conflicts.FeedDeliversItsOwn | src/engine.rs:3073-3105 | A segment that brings the next byte delivers its own bytes from there on, whatever copies of them are held |
| Conflicts.ReleaseDeliversItsOwn | src/engine.rs:3182-3193 | A held segment that the stream has reached leaves, and delivers exactly its own bytes from the position on |
| Conflicts.DrainTakesSmallest | src/engine.rs:3182-3186 | Of several, the one with the numerically smallest number goes first |
| Conflicts.CoverageIsExact | src/engine.rs:3065-3136 | For every run of segments within 2^31 of the position, however their copies disagree: the delivered length is the longest prefix the accepted segments cover, and every byte of it is in the buffer or counted as past the cap |
| StreamHalves.StreamHalf.InitSeqFromSyn | src/engine.rs:3108-3119 | The first SYN fixes the next number to one past its own; later ones change nothing |
| StreamHalves.StreamHalf.Append | src/engine.rs:3121-3136 | Appending keeps what fits, counts the rest, moves the position by the whole length, and shows the tap every byte |
| StreamHalves.StreamHalf.FindReached | src/engine.rs:3182-3186 | The walk over the held keys finds the numerically first one that is not after the position, or none when there is none |
| StreamHalves.StreamHalf.DrainOutOfOrder | src/engine.rs:3182-3193 | The loop ends having drained exactly what the reassembly model drains, the tap having seen every byte of it in order |
| StreamHalves.StreamHalf.HoldBack | src/engine.rs:3078-3094 | First copy wins: under a number already held a longer copy adds its own bytes past the held ones, and a new number is refused when there is no room |
| StreamHalves.StreamHalf.Feed | src/engine.rs:3065-3106 | The whole step, the first segment fixing the position if no SYN did, and true exactly when bytes were delivered |
| StreamHalves.StreamHalf.InstallTap | src/engine.rs:3138-3163 | A tap starts with the buffered bytes after the headers, is marked incomplete if any byte had been dropped, and reports at once if that is already the whole body |
| StreamHalves.StreamHalf.FinishTapOnClose | src/engine.rs:3165-3170 | A FIN turns an open tap into its report |
| Dechunking.RunSplits | src/files.rs:310-375 | Feeding a body in two pieces is feeding it whole: same state, same payload |
| Dechunking.EncodedBodyDecodes | src/files.rs:310-375 | For every list of chunks, with extensions, either case and leading zeros in the sizes, the payload is their concatenation, done is set and bad is clear |
| Dechunking.EncodedBodyNotDoneEarly | src/files.rs:310-375 | On no proper prefix of such a body is done set |
| ChunkSyntax.SizeLineIff | src/files.rs:310-350 | A size line is refused if and only if what stands before any semicolon, carriage returns apart, is not a hexadecimal number of at least one digit and at most 2^32 - 1; otherwise that number of data bytes follows, and zero ends the body |
| ChunkSyntax.EveryInputSplits | src/files.rs:310-375 | Any bytes at all are some chunks as the decoder takes them and one rest: a size line under way, one that ends or spoils the body, or a chunk under way |
| ChunkSyntax.AnyInputDecodes | src/files.rs:310-375 | Of any such input exactly the data bytes are handed on; the decoder has given up if and only if the rest is a line that can be no size, and is finished if and only if it has given up or met a size of zero |
| Dechunking.Dechunker.Feed | src/files.rs:310-375 | The loop, which hands runs of chunk data to the hasher whole, computes what the byte-by-byte decoder does |
| FileHashing.FileHasher.Update | src/files.rs:241-259 | What is hashed, counted, kept as the head and called truncated is a function of all the input so far, whatever its pieces |
| FileHashing.FileHasher.Finish | src/files.rs:261-276 | The report is that of the input up to the hashing limit; nothing for an empty body; truncated when cut or incomplete |
| FileHashing.DigestIs | src/files.rs:241-276 | At most 64 MiB are hashed, and counted as the size; at most 264 bytes are kept for typing; and the report says if the body was longer |
| BodyTapping.TapSplits | src/engine.rs:2929-2950 | A tap with a length, a chunked tap and an open-ended tap all give the same state for any segmentation of their input |
| BodyTapping.BodyTap.Feed | src/engine.rs:2929-2950 | The tap's fields after a feed are those of the tap as a value: length counted down, chunks decoded, nothing read past the end |
| BodyHashTheorems.TapSeesStream | src/engine.rs:3121-3163 | Whatever the segmentation, order, overlap or buffer cap, the tap is where one feed of the stream's bytes from the start of the body would put it |
| BodyHashTheorems.FixedLengthDigest | src/engine.rs:3121-3163 | With a Content-Length there is a report exactly from the moment the stream reaches the end of the body, and it is the digest of exactly those bytes |
| BodyHashTheorems.ChunkedDigest | src/engine.rs:3121-3163 | With a chunked body there is a report exactly from its last byte on, and it is the digest of the decoded payload |
| BodyHashTheorems.DigestOnClose | src/engine.rs:3142-3170 | After a FIN there is the report of every kind of tap as it stands: of a declared length, the bytes seen so far, reached or not, and nothing of a length of zero; of a chunked body, the data decoded so far, or none if the framing was bad; with neither, all the bytes |
| BodyHashTheorems.WholeReportIff | src/engine.rs:3165-3170 | With a Content-Length, what a FIN reports is the report of the whole body if and only if the stream reached its end or more bytes of it were seen than are ever hashed |
| BodyHashTheorems.NoDigestAfterLoss | src/engine.rs:3142-3163 | If bytes were dropped before the tap was installed, no run and no close ever produces a digest |
| BodyHashTheorems.EmptyBodyIsNotHashed | src/engine.rs:3142-3145 | With a declared length of zero and no chunking, no run of any segments and no close changes what is watched or reported |
| BodyHashTheorems.TapSeesDelivered | src/engine.rs:3121-3163 | For any segments, conflicting ones included, and any start of the body, dropped bytes or not: the tap is where one feed of the buffered body and of all that was delivered since would put it, and is marked if anything had been dropped by then |
| BodyHashTheorems.InstallOverOpenTap | src/engine.rs:3142-3163 | Installing while a tap is open: an unfinished new one takes its place, one already finished leaves it open and leaves only its report |
| BodyHashTheorems.ReportReplaces | src/engine.rs:3130-3170 | A finished tap leaves what it has to report in place of any earlier report, even when that is nothing |
| Framing.VerdictsLast | src/engine.rs:3200-3330 | Once a cursor's bytes are recognised as a message, or as not this protocol, more bytes never change that |
| Framing.CutsAreInvisible | src/engine.rs:3200-3330 | For lines, SMB2, Modbus and DNP3: the messages returned over any sequence of extensions are those of one look at the final buffer, and so is where the cursor ends |
| Framing.SentIsReceived | src/engine.rs:3200-3330 | Messages framed as each protocol frames them are returned exactly, however the bytes are cut and whenever the cursor looks |
| Framing.UserDataSurvives | src/engine.rs:2185-2217 | User data interleaved with check bytes after each sixteen comes out of the parser exactly |
| Framing.FramesAreReadable | src/engine.rs:2185-2217 | Conversely every frame the cursor returns is a link frame, and its blocks never run past its end |
| Framing.FramedBuffer.NewLines | src/engine.rs:3200-3218 | One pass with two indices finds the lines that repeated search would, a carriage return taken off each |
| Framing.FramedBuffer.NewSmb2Messages | src/engine.rs:3230-3247 | The loop returns every complete message from the cursor on and stops before the first incomplete one |
| Framing.FramedBuffer.NewModbusMessages | src/engine.rs:3260-3288 | The same, giving up for good at a header that is not Modbus |
| Framing.FramedBuffer.NewDnp3Frames | src/engine.rs:3301-3330 | The same for DNP3 frames, which are returned whole |
| Framing.Follow | src/engine.rs:3200-3330 | A buffer extended piece by piece and asked for its new messages after each piece: the messages are those of one look at the whole, and of what a peer sent, exactly the messages sent |
| Framing.ParseDnp3Message | src/engine.rs:2156-2217 | There is a result exactly when the user data has a third byte, and it is that byte's name in the table, or `UNKNOWN` outside it; so a sender's function code is named, whatever the check bytes |
| Framing.NamesAreUnique | src/engine.rs:2156-2170 | Every function code has exactly one name |
| FrameSyntax.FrameIff | src/engine.rs:3200-3330 | For any bytes: a message is returned if and only if one stands at the cursor whole, framed as its protocol frames it |
| FrameSyntax.StopIff | src/engine.rs:3200-3330 | A stream is given up if and only if a whole header has come and no further bytes could make a message of it |
| FrameSyntax.DeblockIff | src/engine.rs:2185-2213 | User data comes out if and only if its last byte has come, check bytes behind it or not, each byte from its own place between the check bytes |
| FrameSyntax.FunctionCodeIff | src/engine.rs:2185-2217 | There is a function code if and only if sync and length are right, there are three bytes of user data, and the last of them has come; and it is the thirteenth byte of the frame |
| StreamMessages.MessagesAreOfTheBuffer | src/engine.rs:3065-3330 | On any run of segments, conflicting ones included, the messages polled after each segment are those of the final buffer |
| StreamMessages.SentMessagesArrive | src/engine.rs:3065-3330 | A peer's messages, cut into segments that arrive in any order, overlapping and repeated, are returned exactly once each when the stream has been delivered |
| Fragments.OverlapByArrival | src/decode.rs:309-339 | A byte of the datagram is known exactly when some piece covers it, and is that of the earliest arriving such piece, or the latest, as the policy says |
| Fragments.Assemble | src/decode.rs:309-339 | The nested loops over the buffer and its coverage give the datagram exactly when the total is known and every byte below it is covered |
| FragmentTheorems.ConsistentPiecesAssemble | src/decode.rs:309-339 | Overlapping and repeated pieces of one payload give that payload under either policy |
| Fragments.Defragmenter.Sweep | src/decode.rs:363-375 | Entries at or past the timeout leave, once per second of capture time |
| Fragments.Defragmenter.TryFinish | src/decode.rs:420-439 | A datagram leaves the table exactly when it assembles, and is rebuilt on the first fragment's header |
| Fragments.Defragmenter.Offer | src/decode.rs:377-439 | One offer: sweep, refusal when the table is full or a limit is passed, the piece recorded, the datagram when complete |
| FragmentTheorems.OtherTrafficIsInvisible | src/decode.rs:377-439 | A fragment of another datagram never disturbs one that is in progress |
| FragmentTheorems.PartitionReassembles | src/decode.rs:377-439 | Any partition of a payload within the limits, its pieces in any order among any other fragments, under either policy: nothing until the last piece, and then exactly the payload |
| FragmentLimits.OfferIs | src/decode.rs:377-426 | A fragment past a byte limit, for a new datagram with the table full, or for a full entry is counted as dropped, yields nothing and changes no entry, though it may open an empty one; any other is taken into its entry, which stays or leaves as a datagram |
| FragmentLimits.CompleteIff | src/decode.rs:309-339 | A datagram assembles if and only if its length is known and every byte has arrived, and each byte is then the one the policy prefers |
| FragmentLimits.OfferCompletesIff | src/decode.rs:428-437 | A fragment yields a datagram if and only if it is not refused and its entry then has a header, a length and every byte; it is the header joined to the bytes that the configured policy prefers |
| FragmentLimits.EntryKeepsPieces | src/decode.rs:403-426 | An entry keeps every piece taken in, in order of arrival, and the time it was opened |
| FragmentLimits.EntryKeepsLatestHead | src/decode.rs:414-420 | Its header is that of the latest fragment at offset zero |
| FragmentLimits.EntryKeepsLatestTail | src/decode.rs:421-423 | Its length is as the latest last fragment has it |
| FragmentLimits.SweepIs | src/decode.rs:363-375 | An entry leaves with a sweep if and only if the timeout has passed since it was opened, and is counted |
| FragmentLimits.RunIsBounded | src/decode.rs:363-439 | On every run of frames: the table, the pieces and bytes of each entry, and every offset stay within the limits; every entry ever opened is in the table, was reassembled or has expired; and exactly the refused fragments are counted as dropped |
| FragmentLimits.NothingOutstays | src/decode.rs:363-375 | In order of time, whenever a frame has been handled every entry is younger than a timeout of a second or more |
| IpWire.WireFragmentParses | src/packet.rs:518-537 | A fragment written to the wire, link padding behind it or not, parses to its own offset, flag, key and bytes |
| IpWire.WirePieceIsSent | src/packet.rs:518-537 | The wire bytes of each piece, padded or not, decoded, are the piece that the reassembler is promised |
| IpWire.RebuiltIpv4 | src/decode.rs:450-477 | A rebuilt IPv4 datagram is the given header, all but its length and fragment fields as it was, and then the payload; it is never a fragment, and its payload is read back exactly if and only if header and payload fit 65535 bytes; beyond that it is cut to fit |
| IpWire.RebuiltIpv6 | src/decode.rs:463-477 | A rebuilt IPv6 datagram is the fixed 40 bytes of the given headers, all but payload length and next header as they were, and then the payload, which is read back exactly if and only if it fits the length field and is cut to fit beyond |
| IpWire.RebuiltIsOriginal | src/decode.rs:450-477 | The payload behind the first fragment's header is the original datagram, byte for byte |
| IpWire.DatagramSurvivesFragmentation | src/decode.rs:377-477 | From wire to wire: a capture of frames in which the wire bytes of a datagram's fragments, padded by the link or not, arrive in any order among any other frames, each of which lets the table be swept; decoding yields the very bytes of the datagram, once, at its last fragment |
| IpWire.PayloadIff | src/packet.rs:458-554 | Bytes are taken for a datagram if and only if the version is that of the frame's type and the declared header is all there; nothing else is ever taken for a fragment |
| IpWire.PaddingIsTrimmed | src/packet.rs:471-474 | Bytes behind the declared IPv4 length are no part of the datagram or the fragment; a length past the capture, or short of the header, means all there is |
| IpWire.Ipv6PaddingIsTrimmed | src/packet.rs:560-563 | The same for IPv6 |
| IpWire.SameIpv4KeyIff | src/decode.rs:736-743 | IPv4 fragments are put together if and only if source, destination, identification and protocol agree |
| IpWire.SameIpv6KeyIff | src/decode.rs:747-760 | IPv6 fragments are put together if and only if source, destination, identification and inner protocol agree, and never with IPv4 ones |
| IpWire.ParseIpv6Fragment | src/packet.rs:657-713 | The loop along the chain of extension headers computes the recursive walk that the results below are about |
| Ipv6Wire.WalkReaches | src/packet.rs:666-711 | From any place in a chain that leads to a fragment header, the walk reaches it if and only if at most eight headers precede it in all |
| Ipv6Wire.WireFragment6Parses | src/packet.rs:657-713 | An IPv6 fragment on the wire, link padding behind it or not, parses to its own offset, flag, key, headers and bytes if and only if at most eight extension headers precede its fragment header; otherwise it is not taken for a fragment |
| Ipv6Wire.AtomicFragmentPasses | src/packet.rs:680-682 | A datagram that is its own only fragment is not taken for one |
| Ipv6Wire.RebuiltIsUnchained | src/decode.rs:463-477 | Rebuilding gives the sender's fixed header and payload, without the chain between them; with no chain, the datagram sent |
| Ipv6Wire.Ipv6SurvivesFragmentation | src/decode.rs:377-477 | From wire to wire for IPv6: the fragments of a datagram behind at most eight extension headers, in any order among any other frames; decoding yields its fixed header and payload once, at the last fragment, and that is the datagram itself when it had no extension headers |
| Windows.RateWindowIsExact | src/window.rs:111-137 | For every chronological history the ring's total is the sum of the amounts stamped in the window, bucket reuse notwithstanding |
| Windows.LateAddKeepsTotalIff | src/window.rs:118-130 | For any ring, amount and times: an add changes the total by exactly what the window should see of it if and only if the bucket it lands in is its own, empty, or already out of the window |
| Windows.LateAddIsExactIff | src/window.rs:118-137 | One late add to any chronological history: the ring's total is still the sum over the history if and only if no later second that the window covers shares its bucket |
| Windows.LateAddLosesASecond | src/window.rs:118-137 | A history of two adds on which it is not |
| RingHistory.TotalIsWhatSurvives | src/window.rs:111-137 | For every history in any order and every time asked about: the ring's total is the sum of the entries after the start of the window that no other second has displaced from their bucket |
| RingHistory.TotalAgainstHistory | src/window.rs:111-137 | So the total is the sum over the window plus what is held of later times less what has been displaced, and exact if and only if these are equal |
| RingHistory.ReturnedTotalIff | src/window.rs:118-130 | The same for what an add itself returns, however late it is |
| Windows.RateWindow.Add | src/window.rs:118-130 | The two arrays after an add, and the total returned, are those of the ring as a value |
| Windows.RateWindow.Total | src/window.rs:132-137 | The loop over the buckets sums exactly those inside the window |
| Windows.InsertIsExact | src/window.rs:63-75 | An insert that is not refused returns the number of distinct keys whose latest insertion is in the window, once-a-second pruning notwithstanding |
| Windows.InsertNeverEmpty | src/window.rs:63-75 | After any insert the set holds something |
| Windows.WindowSet.Insert | src/window.rs:63-75 | The map and the prune time after an insert, refusal included, are those of the set as a value |
| TableLimits.HostTableIsBounded | src/window.rs:63-75 | The set never passes its cap; a new key is refused if and only if as many others as the cap are still held, and then only the counter changes |
| Windows.AlertGate.Allow | src/window.rs:156-163 | The gate lets through what is at least the interval after the last it let through, and remembers only that |
| Behavior.BehaviorEngine.Sweep | src/behavior.rs:389-398 | Once per second of capture time, exactly the sources and services idle for the window are forgotten |
| Behavior.BehaviorEngine.AcquireSource | src/behavior.rs:448-471 | A source is found or created and stamped; a newcomer is refused, and counted, exactly when the table is full |
| Behavior.BehaviorEngine.AcquirePair | src/behavior.rs:532-549 | The same for a service |
| Behavior.BehaviorEngine.OnVolume | src/behavior.rs:428-445 | The entry of the source becomes what the step on values says, the step that `SweepsAreInvisible` is about: an alert when the window's count passes the limit and the gate allows, the gate armed only then; a refused source changes only the refusal count |
| Behavior.BehaviorEngine.OnFailedConnection | src/behavior.rs:476-530 | An unanswered connection is entered in the set of its port and in the set of all ports before either scan detector judges; a refused source changes only the refusal count |
| Behavior.JudgeUnanswered | src/behavior.rs:476-530 | The two scan verdicts on one source, in order, with the per-port table kept to its bound |
| Behavior.BehaviorEngine.OnBytesMoved | src/behavior.rs:651-696 | Both byte rings are updated before either volume verdict; a refused source changes only the refusal count |
| Behavior.JudgeBytes | src/behavior.rs:651-696 | The volume verdict and the ratio verdict, the second only past its minimum and with nothing received counting as one byte, each with its own gate |
| Behavior.BehaviorEngine.OnAuth | src/behavior.rs:551-571 | An attempt is counted in its service's ring and judged against its own limit and gate; a refused service changes only the refusal count |
| Behavior.BehaviorEngine.OnAuthFailure | src/behavior.rs:573-593 | A refusal is counted and judged apart from attempts, with its own ring, limit and gate |
| Behavior.BehaviorEngine.ObserveNext | src/behavior.rs:400-426 | One observation: the sweep, the dispatch, and the alerts in order |
| Behavior.ObserveKeepsValid | src/behavior.rs:400-426 | Every observation keeps the rings of every source and service well formed |
| BehaviorTheorems.SweepSimulates | src/behavior.rs:389-398 | After a sweep the engine still answers, for everything a later judgement can ask, as the whole history would |
| BehaviorTheorems.PortBoundDropsNothing | src/behavior.rs:482-493 | The bound on the per-port map drops nothing while no per-port table is empty |
| BehaviorTheorems.LopsidedIff | src/behavior.rs:671-674 | The ratio verdict falls if and only if more than the floor was sent, and more than the limit times what was received, nothing received counting as one byte |
| BehaviorTheorems.LopsidedIsMonotone | src/behavior.rs:671-674 | Sending more or receiving less never clears it |
| Observations.BroadcastRanges | src/behavior.rs:183-191 | Group traffic is 224.0.0.0 to 239.255.255.255, 255.255.255.255, the addresses ending in 255 of 10/8, 172.16/12 and 192.168/16, and ff00::/8 |
| BehaviorTheorems.SweepsAreInvisible | src/behavior.rs:389-696 | For every time-ordered run in which no table refuses anybody, with the flood window and alert intervals within the behaviour window: the flood, scan, sweep, exfiltration and brute-force alerts are exactly those that follow from the full unswept history, in order and with the same figures |
| TableRoom.RoomIsEnough | src/behavior.rs:389-549 | From the observations alone: if, at each observation, the sources, the services and the contacted hosts seen within the window are no more than the configured sizes, no table refuses anybody on the whole run |
| TableLimits.TablesAreBounded | src/behavior.rs:448-549 | On every run, in order of time or not: no more sources and services than configured are held, and no more hosts in any table of a source |
| TableLimits.OthersAreUntouched | src/behavior.rs:400-426 | Sweeping apart, an observation changes at most the source and the service it is about |
| TableLimits.RefusedSourceIsOnlyCounted | src/behavior.rs:448-471 | A new source that finds the table full leaves nothing but the count, once for each handler that wanted it, and raises nothing |
| TableLimits.RefusedServiceIsOnlyCounted | src/behavior.rs:532-549 | The same for a new service's sign-ins |
| TableLimits.FlowKeepsItsService | src/behavior.rs:595-647 | A finished connection to an ordinary host stamps or opens its service, or is counted as refused; one to a group touches none |
| TableLimits.PortBoundIs | src/behavior.rs:489-491 | The bound on a source's ports leaves up to 1024 of them alone, and past that keeps exactly those with a host |
| PortBound.PortBoundNeverBites | src/behavior.rs:482-493 | On every run whatever, past 1024 ports too, the bound on the per-port map removes nothing: no table in it is ever empty |
| Reordering.OrderIsTotal | src/behavior.rs:127-136 | The comparison is reflexive, total, transitive, antisymmetric up to equal keys, and compares times first |
| Reordering.TiesAreIdenticalIff | src/behavior.rs:139-160 | Keys are equal if and only if the observations are identical or are flows whose received bytes differ by exactly 2^63 |
| SortOrder.LeIff | src/behavior.rs:134-160 | One observation goes before another, counters below 2^63, by the first of these to differ: time, kind, source, destination, port, bytes sent or packets, bytes received, service or name; IPv4 before IPv6, addresses and names by their first differing octet |
| Reordering.SortIsUnique | src/behavior.rs:862-915 | With fewer than 2^63 received bytes per flow there is one sorted order, so an unstable sort is as good as a stable one |
| Reordering.RunOrdered | src/behavior.rs:896-915 | Replay processes every arrival exactly once, each full batch sorted; up to the limit the whole capture is sorted |
| Reordering.RunLive | src/behavior.rs:851-893 | Live, every arrival is processed exactly once, late ones and timeouts included; after each event all that is two seconds older than the newest has been processed; and if every arrival is less late than that the whole run is processed in order |
| Reordering.Release | src/behavior.rs:882-890 | What is let go is sorted and due, what stays is not due, and nothing is lost between them |
| ReplayTheorems.ReplaysAgree | src/behavior.rs:811-915 | However the observations of one capture were permuted on the way, replays process the same sequence and raise the same alerts |
| ReplayTheorems.Replay | src/behavior.rs:829-915 | The alerts of a replay within the limit are those that follow from the full history in time order, if no table refuses anybody, and so if what is live fits |
| ReplayTheorems.Live | src/behavior.rs:829-893 | A live capture on which nothing is late raises the alerts that a replay of the same arrivals would |
| FlowTables.KeysAreUnordered | src/engine.rs:2886-2902 | Two packets share a key if and only if they travel between the same endpoints, in either direction |
| FlowTables.FlowTable.Expire | src/engine.rs:3744-3763 | Closed, idle and never-answered flows leave, in whatever order the table is walked, each retired once; the others stay as they are |
| FlowTables.FlowTable.FlushOpenFlows | src/engine.rs:3692-3701 | Everything left is retired once |
| FlowTables.FlowTable.Retire | src/engine.rs:3723-3742 | A departing flow is reported only when observations are enabled, with what it still owes |
| FlowTables.FlowTable.Take | src/engine.rs:3820-3905 | The packet's flow is found or created, its counters, flags and interim report updated for the packet's direction, and nothing else in the table touched |
| FlowTables.FlowTable.CloseIfFinished | src/engine.rs:4500-4523 | A finished connection is retired at once |
| FlowTables.FlowTable.SweepIfDue | src/engine.rs:4525-4531 | The idle sweep happens on a later second or after 4096 packets, and then resets both |
| FlowTables.FlowTable.Observe | src/engine.rs:3765-3905 | The whole step: pressure expiry and refusal at capacity, the bare ACK ignored, the packet counted, closing and sweeping |
| FlowTableTheorems.ObservedIsSound | src/engine.rs:3765-3905 | Every packet keeps the table within its size, no finished flow left in it, reported bytes never above counted bytes, and the books balanced flow by flow |
| FlowTableTheorems.ObservedTells | src/engine.rs:3346-3439 | Every packet keeps each entry truthful: answered, each FIN and the reset are recorded if and only if a packet of that flow showed it |
| FlowTableTheorems.FateIsDecided | src/engine.rs:3765-3905 | What becomes of a packet is decided by the table it meets: counted to the live flow of its key if there is one; else refused if there is no room even after the idle sweep under pressure; else ignored if bare; else it opens a flow |
| FlowTableTheorems.ReachedIsSound | src/engine.rs:3765-3905 | On every run, in whatever order tables are walked, no more flows than the limit are ever held, the books balance and every entry is truthful |
| FlowTableTheorems.FlushedIsSettled | src/engine.rs:3692-3701 | After the flush every flow ever created has been reported as finished once and all its bytes have been reported |
| FlowTableTheorems.WholeRunReconciles | src/engine.rs:3692-3905 | Over every whole run with observations enabled: every flow created is retired exactly once, as answered if and only if something came back, and the bytes reported, per flow and in total, are the frame bytes counted, per direction |
| FlowReports.WholeRunNames | src/engine.rs:3428-3439 | Over every whole run: every report, finished or interim, has as its source the address that sent the flow's first packet, and as its destination the address and port that packet was sent to; a finished flow is dated by that packet; and the interim reports of each flow are exactly those its own packets make due, every thirty seconds, with the bytes not reported yet |
| FlowReports.ReachedIsNamed | src/engine.rs:3765-3905 | On the way every entry knows its ends, its start, its latest packet and since when its next report is awaited, as the packets counted to it say |
| FlowReports.UnobservedRunIsSilent | src/engine.rs:3723-3742 | With observations not enabled nothing but interim reports is ever made |
| FlowReports.RunWorker | src/main.rs:2022-2073 | What is returned is the end of a whole run: a new table of the given limit, a step for each packet, and the flush; so it is reconciled and rightly named |
| FlowLifetimes.FlowLeavesIff | src/engine.rs:3744-3905 | After a packet a flow is in the table if and only if it was before, or the packet opened it, and none of three things holds: the table was full for a newcomer and the flow had been idle for ten seconds; the packet was its own and ended it; a sweep was due and it had been idle for three hundred seconds, or for ten with no reply ever |
| FlowLifetimes.ReachedIsClocked | src/engine.rs:4525-4531 | On every run the sweep's clock is that of the counted packets: 4096 of them, or the first of a later second |
| AlertWriting.PruningIsInvisible | src/engine.rs:228-284 | If no alert is nine windows behind the newest seen and no reset fires, the pruned writer decides on every alert as one that never prunes |
| AlertWriting.SmallTablesAreNeverPruned | src/engine.rs:228-284 | With fewer keys than half the cap the decisions are those of a writer that never prunes, however late the alerts |
| AlertWriting.NothingIsLost | src/engine.rs:213-366 | Emitted, suppressed and allowlisted add up to the alerts received, each counted as what it was |
| AlertNotes.SameKeyIff | src/engine.rs:389-403 | Two alerts count as the same if and only if category, source and protocol agree, the destination too unless they are packet floods, and the message too if they are signature matches |
| AlertNotes.RunRemembers | src/engine.rs:336-356 | On every run a key in the table has the time of its last emission and the number suppressed since; of any other key nothing is kept |
| AlertNotes.NoteCountsRepeats | src/engine.rs:347-356 | An emitted alert is announced with exactly the repeats suppressed since the last one like it, unless a prune has forgotten that one, and then with none |
| AlertNotes.PreparedIs | src/engine.rs:254-284 | The table is pruned if and only if it is at least half full a second or more after the last prune, and then exactly the keys ten windows behind the newest alert go |
| AlertNotes.ResetIff | src/engine.rs:277-284 | It is reset, and the reset counted, if and only if more keys than the cap would be left |
| AlertNotes.NothingOldAfterPrune | src/engine.rs:254-276 | Right after an alert that brought a prune, no other key is ten windows behind the newest alert |
| AlertWriting.EmissionsAreSpaced | src/engine.rs:286-351 | With timestamps in order and no reset, two emitted alerts with one key are at least a window apart |
| AlertWriting.SuppressedOnlyAsRepeat | src/engine.rs:325-335 | In every run, through disorder, prunes and resets, an alert is suppressed only if one with its key was emitted less than a window before it |
| AlertOrdering.OrdersAgreeIff | src/engine.rs:246-254 | With fewer keys than half the cap: all arrangements of a run's alerts emit the same number if and only if, for each key, the alerts are all simultaneous or are pairwise at least a window apart |
| AlertOrdering.ChoicesAgreeIff | src/engine.rs:246-254 | With fewer keys than half the cap: all arrangements emit the same alerts, with multiplicity, if and only if, for each key, the alerts are all identical or are pairwise at least a window apart |
| AlertWriting.PruneBounds | src/engine.rs:255-283 | Right after a prune the table holds at most the cap and the alert in hand |
| AlertWriting.TableIsBounded | src/engine.rs:255-283 | On every run the table holds at most the cap, once there has been a prune, and the alerts emitted since |
| AlertWriting.CapIsPassedIff | src/engine.rs:255-351 | The cap is passed at exactly one kind of step: a new key, not allowlisted, when the table is exactly full after any prune |
| AlertWriting.BurstIsHeldInFull | src/engine.rs:255-283 | A burst of distinct keys at one time is held whole, whatever its size |
| AlertWriting.AlertWriter.Receive | src/engine.rs:213-366 | The allowlist first, then the newest time and any prune, and only then the decision; a suppressed alert never refreshes its key, an emitted one reports and clears its count |
| AlertWriting.RunAlertWriter | src/engine.rs:213-366 | Over a whole run the decisions, in order, and all four counters are those of the steps that the properties above are about |
| Calendars.DateOfDayIsExact | src/output.rs:63-89 | Every day number, negative ones included, gives a valid Gregorian date with that day count |
| Calendars.DayOfDateIsExact | src/output.rs:63-89 | Every valid date is given back from its day count |
| Calendars.DayNumberCounts | src/output.rs:63-89 | The day count is the calendar's: zero on 1970-01-01 and one more each day, by the lengths of the months and the leap-year rule |
| Calendars.DatesFollowTheCalendar | src/output.rs:68-89 | Day zero is 1970-01-01 and each day's date is the morrow of the one before |
| Calendars.TimestampIsExact | src/output.rs:68-89 | For every second all fields are valid, and recombining them gives the second back |
| Calendars.CivilTimeIsExact | src/output.rs:68-89 | Every valid calendar time is produced by its own second |
| Calendars.LaterIsLater | src/output.rs:68-89 | A second is earlier if and only if its calendar time is lexicographically earlier |
| IpSets.BlockIsPrefix | src/intel.rs:162-191 | The masked range covers exactly the addresses that agree with the base above the host bits |
| IpSets.LookupIsScan | src/intel.rs:196-234 | Sorting, tag-aware merging, binary search and backward scan report the tag that one pass over the feed would: of the covering blocks, the one that starts last, and of those the one listed last |
| IpSets.ScanFindsLatestStart | src/intel.rs:225-234 | There is a tag if and only if some block of the feed covers the address, and it is a covering block's |
| IpSets.LaterStartIsNarrower | src/intel.rs:225-234 | Two blocks sharing an address are nested, so the one starting later is the more specific |
| AddressBits.CoversIff | src/intel.rs:162-191 | A listed block covers an address of its family if and only if the two agree in as many leading bits as the prefix says; without a prefix it covers its one address |
| AddressBits.ReportedIff | src/intel.rs:225-234 | A lookup reports something if and only if some entry of that family agrees with the address in the bits it counts |
| IpSets.OneCandidateSufficesIff | src/intel.rs:219-234 | On ranges in order, the last one starting at or below an address answers for every address as the backward scan does if and only if, wherever a range ends before an earlier one does, some later range starts by the address after its end |
| IpSets.LastStartIsNotTheOnlyCandidate | src/intel.rs:219-234 | A feed on which it does not |
| IpSets.IpSet.Push | src/intel.rs:162-191 | A prefix longer than the address is refused without effect; otherwise one range is added to its own family |
| IpSets.IpSet.Merge | src/intel.rs:197-216 | The loop merges overlapping neighbours with one tag and nothing else |
| IpSets.IpSet.Find | src/intel.rs:226-229 | The binary search and the backward scan find the last covering range of an ordered list |
| IpSets.LoadAndLookup | src/intel.rs:162-234 | From feed to answer: loading fails at the first bad line, and otherwise a lookup is the linear scan of the feed for that family |
| Ipv6Text.FindLongestRun | src/packet.rs:208-236 | The nested scan finds the leftmost longest run of zero groups |
| Ipv6Text.FormatIpv6 | src/packet.rs:205-245 | The text compresses exactly the leftmost longest run of at least two zero groups |
| Ipv6Text.TextIsUnique | src/packet.rs:205-245 | An address has one such text |
| CanonicalText.HexIsShortest | src/packet.rs:205-245 | Every group is written in lower case, with one to four digits and no leading zero |
| CanonicalText.ShortestIsHex | src/packet.rs:205-245 | And there is only that one way to write it so |
| CanonicalText.TextIff | src/packet.rs:205-245 | The text printed is the only one of the form that RFC 5952 asks for: shortest groups, a double colon for the first longest run of zeros if two stand together, none otherwise |
| Ipv6Text.TextRoundTrips | src/packet.rs:158-203 | Every address is read back from its text |
| Ipv6Text.TextsDiffer | src/packet.rs:158-245 | No two addresses have the same text |
| Ipv6Text.ParseIpv6Literal | src/packet.rs:161-203 | Filling the groups from both ends accepts exactly the literals of the grammar, each as its own groups: eight groups, or at most eight around one double colon, each a hexadecimal number below 65536 that may carry a plus sign and leading zeros |
| Ipv6Text.FormatThenParse | src/packet.rs:158-245 | Printing and parsing gives every address back |
| Reloading.ReadersNeverGoBack | src/reload.rs:54-96 | In every interleaving of any number of writers and readers: a reader at rest holds a version no older than its recorded generation, every call returns a version no older than any store finished before the call began, and what it returns never goes backwards |
| Reloading.QuietReadersSeeTheLatest | src/reload.rs:54-96 | Once no store is in progress, every call that begins returns the latest value |
| Reloading.RunKeepsInv | src/reload.rs:54-96 | Fewer than 2^64 stores, interleaved with readers in any way, keep generations, versions and pending stores in agreement |
| Reloading.UninterruptedStore | src/reload.rs:51-60 | A store that nothing interrupts publishes its value and moves the generation by one |
| Reloading.UninterruptedGet | src/reload.rs:84-96 | A call that nothing interrupts loads exactly when the generation has moved |
| Reloading.OpeningRecordsItsRead | src/reload.rs:80-82 | Whatever others do in between, a new reader records the generation it read before it loaded |
| Reloading.GetRecordsItsRead | src/reload.rs:89-96 | And so does every later call that loads, which gives what stood in the slot when it loaded |
| Reloading.StoresUnseenIff | src/reload.rs:54-96 | After any interleaving of any writers and of other readers, a reader that was up to date answers from its held value if and only if the number of generations published meanwhile is a multiple of 2^64 |
| Reloading.WrappedGenerationHidesStores | src/reload.rs:54-96 | So after exactly 2^64 stores a call returns the old value |
| Reloading.HotCell.Store | src/reload.rs:54-60 | A store is the two steps of a writer in the interleaving model, in a row, so what is proved of every interleaving holds of the cell; and the slot then holds a new allocation of the value |
| Reloading.Cached.Get | src/reload.rs:89-96 | A call is exactly the steps of a reader in the interleaving model, answered with what it returns; and with fewer than 2^64 stores so far that is the value stored last |

## Left out

- Capture, command line, sockets, syslog, Prometheus, file watching, signals and log files: plumbing with no deep invariant.
- Rule matching, the QUIC and certificate parsers, and per-protocol field extractors: foreign engines or many independent branches.
- MD5 and SHA-256: a digest is the bytes given to the hasher, its size and its truncation mark.
- BEACONING, DNS tunnel detection, entropy and periodicity: floating-point heuristics; BEACONING deliberately outlives the sweep window. The contact a finished flow leaves with its service is modelled, its periodicity is not.
- 64-bit overflow of packet, byte and alert counters: they are unbounded numbers here, except in the sort key and the reload generation, where the width matters.
- The IPv4 header checksum of a rebuilt datagram, which the code recomputes nowhere, and the walk of `parse_ipv6_packet` along the extension headers of a datagram that is whole.
- The text of suppression keys: a key is the tuple its text is written from.
- Saturation of ten suppression windows at the largest duration: no two timestamps are that far apart.
- The wording of suppressed-count notes, and delivery to a full alert channel.
- Memory ordering in the reload protocol: each lock and each atomic operation is one step of one order, as acquire and release give it here.
- Framing.FramedBuffer.NewLines: a line is its bytes; the lossy UTF-8 decoding of it is left out.
- Behavior.JudgeBytes: the exfiltration ratio is an exact rational, where the source rounds the quotient to a 64-bit float.
- Behavior.BehaviorEngine.OnVolume: the entries of the source and service maps are values, replaced whole; the rings, host sets and gates that the source holds inside them are updated in place as objects of their own, in `Windows`, against the same functions.
- Behavior.BehaviorEngine.ObserveNext: the DNS detector and the beacon verdict of the same dispatch are left out, being floating-point heuristics.
- FlowTables.FlowTable.Retire: the anomaly alert and the flow record of a departing flow are left out, as they do not touch the accounts.
- FlowTables.FlowTable.Observe: states the accounting alone; reassembly is modelled apart, and detection, authentication observations and reputation hits do not touch the accounts.
- IpSets.IpSet.Push: an entry arrives as address, prefix and tag; its text, and the failure to read it, are left out.
- BehaviorTheorems.SweepsAreInvisible: assumes no table is full when it is needed, because a refused newcomer leaves no state to compare; `TableRoom.RoomIsEnough` says when that is so.
- FragmentTheorems.PartitionReassembles: assumes no limit is passed and no sweep times the datagram out, because either discards it by design.
