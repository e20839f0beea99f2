# Remote copy: a selective-reject file transfer

This project models the file transfer of `Program3/RemoteCopy`: a server that sends a file in numbered
packets through a sliding window, a client that acknowledges with RR, asks for gaps with SREJ and writes
the packets in order, and the fault-injecting library both of them send through. Three layers are modelled
and joined.

1. **The two ends.** `window.dfy` is the ring buffer (`(n - 1) % size`) as a class over two arrays, and proves that
   on `bottom..top` it is a finite map. `rcopy.dfy` states the client as a simple receiver (an expected number and a
   map of early packets) and proves the class over the ring, with its gap scan and drain, equal to it. `server.dfy` is
   the server's state machine, on values and as a class. `protocol.dfy` composes both with a link that loses,
   duplicates, reorders and detectably corrupts, and proves one invariant over every run. `safety.dfy` reads the
   results off it, down to the bytes of the output file, and `padding.dfy` says when those can differ from the source.
   `progress.dfy` builds completing runs, and `outcome.dfy` says of every reachable state whether the transfer can still
   finish. `patience.dfy` counts how often the server repeats itself. `faultless.dfy` and `inorder.dfy` say when it can
   fail with no fault on the link, with and without overtaking. `closing.dfy` bounds the BYE phase, and `ending.dfy` whole transfers.
2. **Bytes.** `checksum.dfy` is `in_cksum` against section 1 of RFC 1071 (the one's complement sum) and section 2
   (byte order independence). `packet.dfy` is `construct`, `deconstruct` and `recv_packet`, and `wireformat.dfy` says in plain
   numbers which bytes these write and accept.
3. **Faults.** `link.dfy` is the library's event machinery and what becomes of one datagram. `byteruns.dfy` is the whole
   system with byte datagrams in flight, sent through that machinery and received over stale buffers, and the theorem that
   each of its runs is a run of the protocol, so that the results of layer 1 hold of the bytes.

`packets.dfy` and `files.dfy` hold what the others share.

## How to read the model

- A state function of the C code is a method of `Rcopy.Client` or `Server.Session`; its contract equates the new state
  and the packets sent with a function of the old state. The system's steps use the same functions. `send_data` and
  `bye` are cut at their `select_call` into two steps (phases `Polling` and `ByeWait`), so that the other end may act in
  between; the methods of `Session` do both halves. `inbox` is the datagram `select_call` has reported to `process`.
- `select_call`, `read` failures, the draws of the random generator and the contents of an uninitialised receive buffer
  are parameters. A `Write` records one `write` call: the packet's payload and the length argument.
- A ring slot is `None` until first written. The C slot is then all zero, its size field 0, and the library's send hook
  exits on length 0: phase `Aborted`.
- Numbers are unbounded in the state machines. `FaultyLink.InFlightEncodable` shows that below 2^31 chunks every packet
  in flight fits the wire format. Window sizes are at least 1, buffer sizes at most 1400.
- Methods such as `Scan`, `DrainRun`, `Advance`, `Load`, `Fold` and `Layout` are stretches of one C function, cut out so that each
  has its own contract.

## What the model shows about the code

A faultless run is one in which nothing is lost, duplicated, damaged or late; datagrams may overtake each other. The
statements about whole transfers hold from every initial state, in which answers to repeated handshakes may be in flight.

- `Faultless.FaultlessFailsIff`: a faultless run can end in a state from which the transfer never completes exactly when
  the window size is at least 3 or greater than the number of chunks; an empty file is saved from this only by a stray
  FNAME_OK in flight. There are two ways to fail, each with its own condition.
  - `Faultless.AbortsIff`: with a window of at least 3 and two chunks, and only then, a faultless run can abort the server.
    Swapping the first two packets is enough (`Faultless.SwapAborts`): the gap scan closes the gap, asks for number 3, and
    the server answers from a slot that was never written. `Progress.SrejAbortsIff` and `Progress.NudgeAbortsIff` give the
    exact states in which that happens.
  - `Faultless.StrandsIffShorterThanWindow`: with fewer chunks than the window, all acknowledgements may be read before the
    `read` that finds the end of the file; then `eof_index` is set when no RR will come any more, and the nudge would be
    taken from a slot that was never written.
- `InOrder.FailsInOrderIff`: when nothing is overtaken either, only the second way is left, and one stray FNAME_OK in flight
  at the start prevents it, because the server reads at most one message for each chunk it sends.
- `Faultless.CanCompleteFromInitIff`: a transfer can complete unless the file is empty and no stray FNAME_OK is in flight,
  whose answer RR 1 then equals `eof_index`.
- `Outcome.CanCompleteIff`: the exact reachable states from which a transfer can still complete. One of the facts in it: the
  tenth nudge is sent in vain when nothing else is in flight, because the counter ends the session before its answer is read.
- `Ending.TransferEnds`: every run without duplication in which nothing that `wait_on_ack` receives is damaged is bounded
  in length. `Ending.UnboundedIffNotEmpty`: without the second hypothesis it is not, for any file but the empty one,
  because `send_count` is reset before the checksum of what was received is known.
- `Closing.TransferByesUnboundedIff`, `Closing.ByesUnboundedIff`: over a link that duplicates, `bye` can be called any number
  of times, again because its `send_count` is reset by whatever arrives.
- `Padding.OutputCanDifferIff`: some run that ends by END_OF_FILE leaves an output other than the source exactly when the
  window is at least 2, there are at least two chunks, and the file size is no multiple of the buffer size.
  `Safety.OutputIsFile` says the output is then the source padded with zeros, because `missing` writes every drained packet
  with the length of the one just received.
- `PacketCodec.OffsetTenIff`, `PacketCodec.OffsetTenCanPass`: the checksum notices one complemented byte everywhere but at
  offset 10, the low byte of the size, which changes how many bytes are summed.

## Model

| member | source | states |
|---|---|---|
| Windows.DistinctSlots | Program3/RemoteCopy/window.c:27 | any `size` consecutive numbers use different slots |
| Windows.AddIsUpdate | Program3/RemoteCopy/window.c:22-31 | buffering a number of the window is an update of the finite map the ring stands for |
| Windows.RemoveIsDelete | Program3/RemoteCopy/window.c:44-56 | removing a number of the window deletes that key and no other |
| Windows.SlideIsDrop | Program3/RemoteCopy/window.c:58-72 | sliding by at most `size` drops exactly the keys below the new bottom; newly exposed numbers are absent although they reuse slots |
| Windows.SlideKeeps | Program3/RemoteCopy/window.c:58-72 | sliding to any number, backwards too, moves bottom and top there, never lowers middle, touches no packet and sets no flag |
| Windows.ClearedAt | Program3/RemoteCopy/window.c:63-64 | the clearing loop clears the slots of its numbers and of no other number of the window |
| Windows.Window.constructor | Program3/RemoteCopy/window.c:8-16 | a new window is 1..size and stands for the empty map |
| Windows.Window.AddToBuffer | Program3/RemoteCopy/window.c:22-31 | the arrays change as the ring function says, bottom, middle and top stay |
| Windows.Window.GetFromBuffer | Program3/RemoteCopy/window.c:33-42 | returns whatever the number's slot holds, valid or not |
| Windows.Window.RemoveFromBuffer | Program3/RemoteCopy/window.c:44-56 | returns the slot's packet and clears its flag only |
| Windows.Window.Slide | Program3/RemoteCopy/window.c:58-72 | the loop and the three assignments equal `SlideTo` for every new bottom, below the old one too |
| Windows.Window.EmptyBuffer | Program3/RemoteCopy/window.c:88-97 | true exactly when the finite map is empty |
| Rcopy.FirstGap | Program3/RemoteCopy/rcopy.c:228-235 | the first number not held: all below it are held, and it is not, or it is one past the window |
| Rcopy.Drained | Program3/RemoteCopy/rcopy.c:237-242 | the contiguous run in order, each packet once, every one with the same length |
| Rcopy.ArrivalKeepsReceiverOk | Program3/RemoteCopy/rcopy.c:145-261 | bottom itself is never held and RECV_DATA holds nothing, after every arrival |
| Rcopy.RejectsNameTheGap | Program3/RemoteCopy/rcopy.c:228-235 | an SREJ of the gap scan names the first number not held, strictly inside (bottom, top], and only after bottom arrived |
| Rcopy.StopsIff | Program3/RemoteCopy/rcopy.c:145-223 | the client stops exactly on silence, on END_OF_FILE (in MISSING only with the expected number), and in RECV_DATA on a number beyond the window; it then writes nothing and answers END_OF_FILE only |
| Rcopy.MovesIff | Program3/RemoteCopy/rcopy.c:170-173 | bottom moves exactly on the expected packet, and one packet is written for each number passed |
| Rcopy.SaysIff | Program3/RemoteCopy/rcopy.c:156-261 | the exact cases of an SREJ, an RR and silence of a client that goes on |
| Rcopy.Client.constructor | Program3/RemoteCopy/rcopy.c:40-52 | the client starts in RECV_DATA expecting 1 with nothing held or written |
| Rcopy.Client.RecvDataState | Program3/RemoteCopy/rcopy.c:145-192 | the ring client refines the simple receiver in RECV_DATA, all branches, and keeps middle == bottom |
| Rcopy.Client.MissingState | Program3/RemoteCopy/rcopy.c:194-261 | the ring client refines the simple receiver in MISSING: on each arrival it delivers the maximal run from the expected number |
| Rcopy.Client.Scan | Program3/RemoteCopy/rcopy.c:228-235 | middle becomes the first gap or top + 1, although the probe at top + 1 aliases bottom's slot |
| Rcopy.Client.DrainRun | Program3/RemoteCopy/rcopy.c:237-242 | writes and releases bottom..middle-1 and nothing else |
| Rcopy.Client.Advance | Program3/RemoteCopy/rcopy.c:247-256 | bottom becomes middle in each of the three ways out, and RECV_DATA is chosen exactly when nothing is held |
| Rcopy.Client.Turn | Program3/RemoteCopy/rcopy.c:54-112 | one turn of the state loop is one arrival at the simple receiver |
| Server.Session.constructor | Program3/RemoteCopy/server.c:98-107 | the server starts in SEND_DATA with an empty ring and eof_index unset |
| Server.Session.SendDataState | Program3/RemoteCopy/server.c:184-223 | closed window, read error, end of file and chunk sent, each with its whole new state |
| Server.Session.ProcessState | Program3/RemoteCopy/server.c:225-257 | RR slides and may enter BYE, SREJ answers from the ring or aborts, a CRC error waits |
| Server.Session.WaitOnAckState | Program3/RemoteCopy/server.c:259-285 | counts, gives up after 10, nudges with the packet at bottom or aborts on an unwritten slot |
| Server.Session.ByeState | Program3/RemoteCopy/server.c:287-324 | sends END_OF_FILE, gives up after 10 silent ones, stops on RR eof_index+1 |
| Server.SendIff | Program3/RemoteCopy/server.c:184-223 | the exact cases of a closed window, a read error, the end of the file and a chunk sent; the chunk is the front of the file and keeps its slot |
| Server.ProcessIff | Program3/RemoteCopy/server.c:225-257 | the exact cases of BYE, WAIT_ON_ACK, an abort, a resend and a slide, for every datagram received |
| Patience.TenNudges | Program3/RemoteCopy/server.c:259-281 | from every reachable wait with something to nudge with, silence makes the server send the packet at bottom until it has done so ten times; the eleventh turn sends nothing and ends the session |
| Patience.TenByes | Program3/RemoteCopy/server.c:287-301 | from every reachable BYE state, silence makes bye() send END_OF_FILE ten times and be called again; the eleventh call sends it once more and stops |
| Files.Split | Program3/RemoteCopy/server.c:195 | successive reads return full buffers and then a last one of 1..bufSize bytes |
| Files.FlattenSplit | Program3/RemoteCopy/server.c:195 | the chunks read, put together, are the file |
| Files.WritesFromArray | Program3/RemoteCopy/rcopy.c:240 | a write takes its length's bytes from the front of the payload array, zeros where the payload does not reach |
| Protocol.StepKeepsInv | Program3/RemoteCopy/server.c:184-324 | every step of server, client or link keeps the cross-machine invariant |
| Protocol.RunKeepsInv | Program3/RemoteCopy/server.c:98-154 | so does every run |
| Protocol.SendKeepsSlots | Program3/RemoteCopy/server.c:207-214 | after a send the slots again hold the originals of the last `size` numbers, and unsent slots are empty |
| Protocol.DrainKeepsLog | Program3/RemoteCopy/rcopy.c:237-242 | a drain appends the next chunks at full length, except perhaps the last chunk |
| Protocol.ClientSays | Program3/RemoteCopy/rcopy.c:145-261 | the client only ever names numbers up to the one it now expects, or answers END_OF_FILE |
| Safety.ReachableInv | Program3/RemoteCopy/rcopy.c:145-261 | the invariant holds in every reachable state |
| Safety.WrittenInOrder | Program3/RemoteCopy/rcopy.c:145-261 | in every run the chunks written are exactly chunks 1..bottom-1, in order, each once |
| Safety.EndOfFileIsComplete | Program3/RemoteCopy/rcopy.c:216-223 | a client that stops on END_OF_FILE has bottom == eof_index and has written every chunk |
| Safety.AckedIsComplete | Program3/RemoteCopy/server.c:317-319 | a server that leaves BYE on RR eof_index+1 leaves a client that has finished that way |
| Safety.WindowBounds | Program3/RemoteCopy/rcopy.c:178-181 | server bottom <= client bottom <= server middle <= server bottom + size, nothing in flight is out of window, the quit branch is never taken |
| Safety.AcknowledgementOnlyMovesBottom | Program3/RemoteCopy/server.c:238-242 | in every run an RR raises bottom to its number and `slide` never bumps middle |
| Safety.RetransmissionsAreOriginals | Program3/RemoteCopy/server.c:247-252 | the slots of unacknowledged numbers hold the packets first sent, and every DATA packet in flight is an original |
| Safety.OutputIsFile | Program3/RemoteCopy/rcopy.c:240 | after END_OF_FILE the output is the source file exactly when no write was padded, and else the source file with zeros up to a multiple of the buffer size; when a run can pad is Padding.OutputCanDifferIff |
| Safety.PaddingIffDrainedBehindGap | Program3/RemoteCopy/rcopy.c:237-242 | a client turn pads a write exactly when the packet that fills the gap arrives, the last chunk is short, and it and all the chunks between are held |
| Padding.OutputCanDifferIff | Program3/RemoteCopy/rcopy.c:237-242 | from every initial state some completed run leaves another file than the source exactly when size >= 2, there are two chunks, and bufSize does not divide the file size |
| Padding.RunPads | Program3/RemoteCopy/rcopy.c:237-242 | no run pads a write unless the window, the chunks and the last chunk allow it, and no write is ever taken back |
| Progress.NudgeRound | Program3/RemoteCopy/server.c:269-281 | with data outstanding, a nudge delivered intact and its RR bring the server's bottom up to the client's, strictly above the old one |
| Progress.RejectRound | Program3/RemoteCopy/rcopy.c:156-161 | a damaged arrival is repaired by the SREJ it causes: the server answers from its ring and the answer takes the client on |
| Progress.NudgeAbortsIff | Program3/RemoteCopy/server.c:269-275 | in every reachable state the nudge aborts exactly when bottom == middle <= size |
| Progress.SrejAbortsIff | Program3/RemoteCopy/server.c:247-252 | in every reachable state an SREJ aborts exactly when it names middle and middle <= size |
| Outcome.CanCompleteIff | Program3/RemoteCopy/server.c:184-324 | of every reachable state, messages in flight included: some run completes exactly when `Completable` holds, a condition on phases, counters, window and pools |
| Outcome.LostNeverCompletes | Program3/RemoteCopy/server.c:259-285 | outside that condition no run completes, nor comes back into it |
| Faultless.FaultlessFailsIff | Program3/RemoteCopy/server.c:184-285 | from every initial state a faultless run can reach a state that cannot complete exactly when size >= 3 or size > chunks, and the file is not empty or no stray is in flight |
| Faultless.FaultlessCompletes | Program3/RemoteCopy/server.c:184-285 | in all other cases every state of every faultless run can still complete |
| Faultless.SwapAborts | Program3/RemoteCopy/rcopy.c:228-235 | two swapped datagrams make the client ask for a number not sent yet, and the server abort |
| Faultless.AbortsIff | Program3/RemoteCopy/rcopy.c:228-235 | from every initial state a faultless run can abort the server, or draw an SREJ at all, exactly when size >= 3 and there are two chunks |
| Faultless.StrandsIffShorterThanWindow | Program3/RemoteCopy/server.c:204-245 | from every initial state a faultless run can strand the server in WAIT_ON_ACK exactly when the file has fewer chunks than the window, and is not empty or no stray is in flight |
| InOrder.OrderedStep | Program3/RemoteCopy/rcopy.c:170-176 | with datagrams received in the order sent, the client stays in RECV_DATA and the newest RR under way names what it expects |
| InOrder.OwedStep | Program3/RemoteCopy/server.c:217-220 | with a stray at the start, one acknowledgement more is under way than the server can read before the end of the file |
| InOrder.FailsInOrderIff | Program3/RemoteCopy/server.c:184-285 | from every initial state a faultless run in order can reach a state that cannot complete exactly when the file has fewer chunks than the window and no stray is in flight |
| Faultless.CanCompleteFromInitIff | Program3/RemoteCopy/server.c:204-206 | from every initial state a transfer can complete exactly when the file is not empty or a stray FNAME_OK is in flight |
| Progress.FinishBye | Program3/RemoteCopy/server.c:287-324 | from BYE one undisturbed exchange finishes the transfer |
| Closing.StepBacklog | Program3/RemoteCopy/rcopy.c:156-167 | in the BYE phase no step but a duplication adds to the messages still possible, and each one received uses one up |
| Closing.ByeEnds | Program3/RemoteCopy/server.c:287-324 | every run without duplication calls bye() a bounded number of times, and one that uses them all has stopped the server |
| Closing.ByeRunsEnd | Program3/RemoteCopy/server.c:287-324 | every run without duplication from BYE, of whatever steps, is bounded in length |
| Closing.ByesUnboundedIff | Program3/RemoteCopy/server.c:299-324 | in every reachable BYE state of a link that may duplicate, any number of calls of bye() can follow exactly when the silent count is below 10 and a message is in flight or the client still there; otherwise at most 11 less the count follow |
| Closing.EntersBye | Program3/RemoteCopy/server.c:244-245 | every completing run passes through BYE with count 0 and a live client |
| Closing.TransferByesUnboundedIff | Program3/RemoteCopy/server.c:287-324 | from every initial state the calls of bye() are unbounded exactly when the transfer can complete at all |
| Ending.StepLowers | Program3/RemoteCopy/server.c:184-324 | every step that neither duplicates nor damages what wait_on_ack receives gets the transfer further, or lowers a weight of what is in flight and the turns left |
| Ending.TransferEnds | Program3/RemoteCopy/server.c:259-285 | from every initial state all such runs are bounded in length by the numbers of chunks and strays |
| Ending.UnboundedIffNotEmpty | Program3/RemoteCopy/server.c:265-284 | without duplication, but with damage, the runs are unbounded exactly when the file is not empty |
| Checksum.InCksum | Program3/RemoteCopy/libcpe464/checksum.c:58-86 | for every length up to 65536, odd ones too, the result is the RFC 1071 checksum |
| Checksum.Accumulate | Program3/RemoteCopy/libcpe464/checksum.c:70-79 | the 32-bit accumulator never overflows and holds the plain word sum |
| Checksum.TwoFolds | Program3/RemoteCopy/libcpe464/checksum.c:82-84 | two folds absorb every carry of any 31-bit sum |
| Checksum.OnesSumIsRep | Program3/RemoteCopy/libcpe464/checksum.c:65-69 | adding with end-around carry equals reducing the plain sum modulo 65535, with 0 only for 0 |
| Checksum.ZeroIff | Program3/RemoteCopy/libcpe464/checksum.c:82-85 | the checksum is 0 exactly when the word sum is positive and divisible by 65535 |
| Checksum.ByteOrderIndependent | Program3/RemoteCopy/libcpe464/checksum.c:70-79 | hosts of the two byte orders compute byte-swapped sums |
| Checksum.ChecksOnEitherHost | Program3/RemoteCopy/packet.c:24-26 | a buffer checks on a host of one byte order exactly when it does on the other, though the field is stored without htons |
| Checksum.RfcExample | Program3/RemoteCopy/libcpe464/checksum.c:58-86 | the worked example of section 3 of RFC 1071 comes out on hosts of both byte orders |
| PacketCodec.PacketStruct.Construct | Program3/RemoteCopy/packet.c:11-32 | the first size bytes of raw are the wire form of the packet, the rest is the stale payload |
| PacketCodec.PacketStruct.Deconstruct | Program3/RemoteCopy/packet.c:34-59 | size bound, fields, payload with zeros beyond it, and the checksum over size bytes |
| PacketCodec.PacketStruct.RecvPacket | Program3/RemoteCopy/networks.c:154-170 | for datagrams of every length: CRC_ERROR, or the number of bytes received less 11, with the fields of what was received |
| PacketCodec.RoundTrip | Program3/RemoteCopy/packet.c:11-59 | an undamaged packet of 11..1411 bytes is received as sent and the payload array is zero beyond it, for every pair of byte orders and any stale buffer |
| WireFormat.Big32Shifts | Program3/RemoteCopy/packet.c:18 | network byte order: a byte appended at the low end moves the others one place to the front |
| WireFormat.SmallBig32 | Program3/RemoteCopy/packet.c:18 | a number below 256 is its last byte |
| WireFormat.WireLayout | Program3/RemoteCopy/packet.c:11-32 | the bytes of every datagram by offset: number at 0, flag at 6, size at 7, payload from 11, and a sum that checks on hosts of both orders |
| WireFormat.ControlDatagrams | Program3/RemoteCopy/networks.h:15-16 | RR, SREJ, END_OF_FILE and FNAME_OK as their bytes, with the flags 3, 4, 8 and 6 |
| WireFormat.FullPacketArrives | Program3/RemoteCopy/networks.c:158-169 | every packet with a 32-bit number and up to 1400 bytes of payload is received as sent |
| WireFormat.OversizeRejected | Program3/RemoteCopy/packet.c:46-51 | a size field of 1412 or more is a CRC error |
| WireFormat.ReceivedIffChecks | Program3/RemoteCopy/packet.c:34-59 | a datagram of 11 to 1411 bytes that says its own length is received, with the fields at their offsets, exactly when its sum checks |
| WireFormat.UndersizeUndefined | Program3/RemoteCopy/packet.c:53 | a size field below 11 has no defined result |
| WireFormat.LongDatagramIsCut | Program3/RemoteCopy/networks.c:158-159 | only the first 1411 bytes of a datagram count |
| WireFormat.ShortDatagramReadsOn | Program3/RemoteCopy/networks.c:158-169 | behind a short datagram the old bytes of the buffer are read as well, and the length returned is the datagram's less 11 |
| WireFormat.LegalConfigs | Program3/RemoteCopy/rcopy.c:301-304 | every buffer size up to 1400 and every window makes a transfer, with any number of strays at the start |
| WireFormat.ChunkIs | Program3/RemoteCopy/server.c:195 | chunk i is the stretch of the file at i times the buffer size |
| WireFormat.ChunkArrives | Program3/RemoteCopy/server.c:195-211 | that stretch, up to 1400 bytes, arrives undamaged as DATA number i + 1 |
| PacketCodec.FlipIsRejected | Program3/RemoteCopy/packet.c:47-58 | complementing any one byte but offset 10 gives a CRC error |
| PacketCodec.FlippedSizeTooLarge | Program3/RemoteCopy/packet.c:47-51 | at offsets 7 to 9 the size bound catches it |
| PacketCodec.FlipSpoilsSum | Program3/RemoteCopy/libcpe464/MsgEvents/errorFlipBits.cpp:21-24 | complementing one byte of any buffer that checks leaves one that does not |
| PacketCodec.OffsetTenIff | Program3/RemoteCopy/packet.c:44-58 | a complemented offset 10 gives neither a CRC error nor the packet and payload array sent exactly when the misread size is below 11, or the misread bytes check and nonzero payload is cut or nonzero stale bytes are taken in |
| PacketCodec.HeaderOnly | Program3/RemoteCopy/packet.c:53-58 | when only a header is read and it checks, the payload arrives as zeros |
| PacketCodec.OffsetTenCanPass | Program3/RemoteCopy/packet.c:53-58 | a packet for which that happens |
| FaultyLink.PacketManager.RunEvent | Program3/RemoteCopy/libcpe464/MsgEvents/errorFlipBits.cpp:9-27 | a flip complements one byte, a drop reports 2 for its messages, nothing else touches the buffer |
| FaultyLink.PacketManager.RunMsgEvents | Program3/RemoteCopy/libcpe464/PacketManager.cpp:91-121 | for every list of events: 2 exactly when one drops the message; else each flip has been made and the result says whether there was one |
| FaultyLink.PacketManager.ProcessEvents | Program3/RemoteCopy/libcpe464/PacketManager.cpp:123-182 | the exact result 0, 1 or 2, the last word going to the chance event, and the buffer of a message that goes out; no chance event on the first message |
| FaultyLink.PacketManager.SendtoErr | Program3/RemoteCopy/libcpe464/PacketManager.cpp:252-311 | exits on length 0, works on a copy, counts the message and sends, flips or loses it |
| FaultyLink.LostIff | Program3/RemoteCopy/libcpe464/MsgEvents/errorDrop.cpp:29-63 | a datagram is lost exactly when an event that runs on it drops everything or lists its number |
| FaultyLink.InstalledDropLoses | Program3/RemoteCopy/libcpe464/PacketManager.cpp:149-172 | the installed drop loses every message it is drawn for after the first; a listed drop only those in its list; flips and infos none |
| FaultyLink.TouchedAt | Program3/RemoteCopy/libcpe464/PacketManager.cpp:102-118 | each standard flip complements its own drawn byte, so a byte changes exactly when an odd number of them drew it |
| FaultyLink.FlipsOneByte | Program3/RemoteCopy/libcpe464/MsgEvents/errorFlipBits.cpp:21-26 | without standard flips exactly the drawn byte of a chance flip is complemented, on any message after the first |
| FaultyLink.ReportTells | Program3/RemoteCopy/libcpe464/PacketManager.cpp:174-181 | without standard flips the result is 2 for a loss, and else 1 exactly when the buffer has changed |
| FaultyLink.ReportForgets | Program3/RemoteCopy/libcpe464/PacketManager.cpp:163-171 | a chance event that changes nothing has a standard flip reported as no change |
| FaultyLink.LinkRefines | Program3/RemoteCopy/networks.c:118-170 | with the installed events each send ends dropped by an event, received as sent or as a CRC error over every buffer and byte order, or, exactly at a chance flip of offset 10, on the wire with that byte complemented |
| FaultyLink.FirstMessageSafe | Program3/RemoteCopy/libcpe464/PacketManager.cpp:149-172 | a process's first message arrives as sent unless a listed drop names it |
| FaultyLink.InFlightEncodable | Program3/RemoteCopy/packet.c:18-22 | below 2^31 chunks every packet in flight in a reachable state fits the wire format |
| ByteRuns.StepRefines | Program3/RemoteCopy/networks.c:118-170 | every step of the byte system, with the fault injector's losses and damage, is a run of the protocol |
| ByteRuns.ByteTransferRefines | Program3/RemoteCopy/libcpe464/PacketManager.cpp:252-311 | so is every run from every initial state: its last state stands for a reachable state of the protocol |
| ByteRuns.ByteTransferSafe | Program3/RemoteCopy/rcopy.c:145-261 | in every byte run the chunks are written in order, END_OF_FILE and its acknowledgement mean completeness, and no receive of a datagram in flight is undefined, whatever the buffer held |
| ByteRuns.OutputEncodable | Program3/RemoteCopy/packet.c:18-22 | below 2^31 chunks every packet a machine sends in a byte run fits the wire format |

## Left out

- ByteRuns.ByteTransferRefines: runs with a chance flip at offset 10, whose outcome for one datagram is `PacketCodec.OffsetTenIff` and which can hand on a wrong payload, and standard events that flip, which the program never installs.
- PacketCodec.PacketStruct.Deconstruct: a size field below 11 makes the copy length negative as an unsigned number; the C behaviour is undefined there, and the result is `Overrun` with the fields and a zeroed payload array.
- Server.Session.ProcessState: an RR that happens to equal `eof_index` before it is set; the C variable is uninitialised, and reading it has no defined result, so the model compares RR numbers with nothing until then.
- The FILENAME/FNAME_OK handshake, forking and the choice of buffer and window size; answers to repeated handshakes may be in flight at the start.
- Sockets, `select`, opening and closing files, real time: only the outcome of each call is a parameter.
- A send that fails in the socket layer, and printing.
- 32-bit wrap-around of sequence numbers.
- The stop-and-wait version under `original`, and `send_buf` and `recv_buf`.
- SettingsManager and infoSeqNo: which events are installed is a parameter; the error rate only decides whether a chance event runs.
- The reads of four header bytes that the library does for its log lines.
- `all_valid` and `print_window`, which nothing in the transfer calls.
- Programs 1 and 2.
