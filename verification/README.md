# Reassembly, parsing and logging in bscope

bscope listens to packets, puts IP fragments and TCP segments back together with libnids, feeds
the streams to an incremental HTTP parser, and writes what it finds to a ring in shared memory.
This project models those engines and proves what they promise.

- **TCP streams.** `Seq32` compares sequence numbers modulo 2^32. `TcpModel` is a reassembler on
  unbounded positions, with its run-level theorems; `TcpStream` is the one with 32-bit counters, a
  sorted queue and urgent bytes, proved to do the same; `ListenerBuffer` is the sliding buffer
  that listeners are shown. `TcpConnection` is what `process_tcp` does around the queue, with
  windows, acknowledgements and the end of a connection, and `TcpProcess` the same on 32-bit
  numbers. `StreamTable` is the pool of streams with its hash chains, age list
  and free list, over the linked lists of `DoublyLinked`.
- **HTTP.** `HttpTypes` and `HttpSwitch` are the switch of the parser, byte by byte; `HttpMachine`
  runs it as a machine and has the invariants; `HttpShape` says what each step may do with marks
  and callbacks; `HttpExecute` is `http_parser_execute` itself, with its marks, bulk copies,
  callbacks and pauses, proved to compute what the machine computes. `HttpCount` has the limit on
  header bytes, and with `HttpUpgrade` it prepares `HttpTheorems`: buffers and pauses do not
  matter, but for that limit. On `HttpReading`, which puts runs together, stand `HttpHeaders`,
  what header names mean, `HttpLines`, what whole header lines mean, `HttpLength`, what lengths
  mean, `HttpChunked`, the chunked round trip, and `HttpLimit`, the requests for which pausing
  matters. `HttpUrl`, `HttpUrlTrip` and `HttpUrlHost` are the URL parser and its round trip.
- **IP fragments.** `IpModel` is one datagram: insertion as a byte map, completion, gluing.
  `IpReassembly` has the theorems about any history and about any order of arrival, `IpCovered`
  what comes of a datagram once all its positions have come. `IpTables` and `IpFragment` are the
  hosts, queues, timers and memory counters and the code that changes them, `TimerList` the timer
  list pointer by pointer, and `IpRun` the whole defragmenter on a datagram among others.
- **Supports.** `Checksum` is the one's-complement checksum, `LogRing` the log in shared memory.

Code that works in place is a class or a method with loops, and each is tied to a function or a
predicate on values about which the lemmas speak. `dafny verify dfyconfig.toml` checks everything.

The code is followed where it does something that a reader would not expect:

- The evictor frees the newest queue of a host, though its comment says the oldest
  (`IpTables.EvictedIsLongestSuffix`).
- A fragment inside another can keep a complete datagram from being seen as complete
  (`IpCovered.InnerFragmentBlocks`), or lose it though it is seen as complete
  (`IpCovered.InnerFragmentLoses`). `IpCovered.CoveredOutcome` says exactly when a datagram comes,
  waits, or is lost once fragments have carried all its positions.
- The overflow test for a length lets some numbers over 2^64 through (`HttpLength.OversizeLength`,
  `HttpLength.OversizeRead`); a Content-Length and the size of a chunk are read rightly exactly up
  to 2^64 - 2 (`HttpLength.ContentLengthExact`, `HttpLength.ChunkSizeExact`).
- A byte that a callback does not consume is counted again after a pause, so that pausing can run
  into the limit on header bytes. `HttpTheorems.ExecuteThrough` and `HttpTheorems.ExecuteAll` say
  exactly when, and give a bound under which it cannot happen; `HttpLimit.RequestHitsLimit` has
  requests, read from a fresh parser, for which it does.
- A URL whose fragment comes directly behind the authority (`http://h#f`) is refused; apart from
  that and from a port over 65535, every URL made of legal parts is parsed into them
  (`HttpUrlHost.UrlRoundTrip`).
- Any acknowledgement confirms a FIN, whatever its number. So a FIN that comes again takes a
  confirmed direction back to FIN_SENT (`TcpConnection.FinSentAgain`), but exactly if the highest
  acknowledgement held does not cover it, the segment is inside the window, and it does not at
  once acknowledge a FIN of the other side, which closes the connection
  (`TcpConnection.ConfirmedGoesBack`); once it is covered, the direction stays confirmed
  (`TcpConnection.ConfirmedForGood`).

## Model

| member | source | states |
|---|---|---|
| Seq32.AfterExact | src/libnids-1.24/src/util.h:29-39 | `after` on wrapped numbers orders two unbounded positions rightly if and only if their distance is in the half-open window around 2^31 |
| Seq32.AfterAsymmetric | src/libnids-1.24/src/util.h:29-39 | two numbers are ordered in one way only, unless they are half the space apart |
| TcpModel.TakeKeeps | src/libnids-1.24/src/tcp.c:428-490 | taking a segment that reaches the expected position keeps the taken bytes a prefix of the stream |
| TcpModel.DrainKeeps | src/libnids-1.24/src/tcp.c:513-539 | draining the queue keeps the invariant at every turn |
| TcpModel.DrainSettles | src/libnids-1.24/src/tcp.c:513-539 | afterwards everything queued starts strictly behind the expected position |
| TcpModel.InsertAtSplits | src/libnids-1.24/src/tcp.c:572-594 | the place found for an early segment keeps the queue sorted |
| TcpModel.EnqueueSorts | src/libnids-1.24/src/tcp.c:545-596 | queueing keeps the queue sorted |
| TcpModel.EnqueueSize | src/libnids-1.24/src/tcp.c:545-596 | the memory counter stays the sum of what is queued |
| TcpModel.ArriveKeeps | src/libnids-1.24/src/tcp.c:492-596 | one segment keeps everything that a run promises |
| TcpModel.RunKeeps | src/libnids-1.24/src/tcp.c:492-612 | every run over segments of one stream, pruned or not, keeps the invariant: a prefix was taken, the queue is sorted, behind the prefix, and counted |
| TcpModel.RunForgetsNothing | src/libnids-1.24/src/tcp.c:492-612 | without pruning every byte that arrived has been taken or is queued |
| TcpModel.Prefix | src/libnids-1.24/src/tcp.c:428-612 | for segments of one stream in any order, with overlaps and repeats, what is handed on, urgent bytes put back in place, is a prefix of the stream |
| TcpModel.LongestPrefix | src/libnids-1.24/src/tcp.c:428-612 | without pruning a position is taken if and only if all positions up to it have arrived |
| TcpModel.OrderIrrelevant | src/libnids-1.24/src/tcp.c:428-612 | two runs of the same segments, in any order and as often as may be, take the same bytes |
| TcpModel.FinMeansAllTaken | src/libnids-1.24/src/tcp.c:485-486 | when FINs stand at the end of the stream, FIN_SENT means that the whole stream was taken |
| ListenerBuffer.NidsDiscard | src/libnids-1.24/src/tcp.c:905-910 | of any number of discards the smallest counts |
| ListenerBuffer.Buffer.MakeRoom | src/libnids-1.24/src/tcp.c:312-334 | after the growth rule there is room for the new bytes, and nothing held is lost |
| ListenerBuffer.Buffer.Add2buf | src/libnids-1.24/src/tcp.c:312-340 | the buffer holds exactly the stream from offset to count, with the new bytes at its end |
| ListenerBuffer.Buffer.NotifyData | src/libnids-1.24/src/tcp.c:391-412 | listeners are told of all new bytes, truthfully and without a gap, whatever they discard; with one_loop_less the loop ends |
| ListenerBuffer.Buffer.NotifyUrgent | src/libnids-1.24/src/tcp.c:381-390 | an urgent byte is told without touching the buffer |
| ListenerBuffer.Buffer.HandOn | src/libnids-1.24/src/tcp.c:474-483 | collected bytes are buffered and told, others are counted and forgotten |
| ListenerBuffer.ToldOnce | src/libnids-1.24/src/tcp.c:396-409 | showing everything from the old offset on, with its last bytes new, leaves no gap |
| TcpStream.UrgentInside | src/libnids-1.24/src/tcp.c:442-443 | the 32-bit test finds the urgent byte among the new bytes exactly when it is there |
| TcpStream.CutsAroundUrgent | src/libnids-1.24/src/tcp.c:444-471 | the 32-bit cuts before and after the urgent byte are at the true positions |
| TcpStream.HalfStream.AddFromSkb | src/libnids-1.24/src/tcp.c:428-490 | with 32-bit counters a packet does what the unbounded model says, and the listener is told of it |
| TcpStream.HalfStream.Drain | src/libnids-1.24/src/tcp.c:513-539 | the loop over the linked queue is the model's drain |
| TcpStream.HalfStream.InsertAt | src/libnids-1.24/src/tcp.c:572-576 | the loop from the tail finds the model's place |
| TcpStream.HalfStream.TcpQueue | src/libnids-1.24/src/tcp.c:492-596 | a packet in the window is taken or queued as in the model |
| TcpStream.HalfStream.PruneQueue | src/libnids-1.24/src/tcp.c:598-612 | pruning empties the queue and its counter and keeps what was taken |
| TcpStream.HalfStream.ProcessTcp | src/libnids-1.24/src/tcp.c:894-900 | a packet with data or FIN, and the pruning behind it, is one step of the model |
| TcpStream.Reassemble | src/libnids-1.24/src/tcp.c:428-612 | a run of packets within the window refines the run of the unbounded model, so that its theorems hold of the 32-bit code |
| TcpConnection.RunKeeps | src/libnids-1.24/src/tcp.c:796-900 | in every run of packets of both sides, each direction keeps a prefix of its stream, its queue in order and counted, and a FIN is seen or confirmed only with nothing missing in front of it |
| TcpConnection.ClosedIsTaken | src/libnids-1.24/src/tcp.c:880-893 | when FINs stand at the ends of the streams, a connection is closed only when both streams were taken whole |
| TcpConnection.ConfirmedGoesBack | src/libnids-1.24/src/tcp.c:796-894 | in every run, a confirmed direction goes back to FIN_SENT exactly if its FIN comes again, the highest acknowledgement held is at most the FIN's position, the segment is inside the window, and the packet does not acknowledge a FIN seen from the other side; otherwise it stays confirmed. A packet that passes the window closes the connection exactly if it acknowledges such a FIN |
| TcpConnection.ConfirmedForGood | src/libnids-1.24/src/tcp.c:796-894 | once an acknowledgement has gone past the FIN of a confirmed direction, it stays confirmed in every run |
| TcpConnection.FinSentAgain | src/libnids-1.24/src/tcp.c:881-897 | a run in which an acknowledgement of any number confirms a FIN, and the FIN sent again takes it back exactly if that number did not cover it |
| TcpProcess.TestExact | src/libnids-1.24/src/tcp.c:796-803 | within half the number space the 32-bit test at the entrance decides as a test on positions |
| TcpProcess.Way.HandleAck | src/libnids-1.24/src/tcp.c:614-624 | with 32-bit numbers the highest acknowledgement is kept, and a FIN that was seen is confirmed |
| TcpProcess.Exchange | src/libnids-1.24/src/tcp.c:796-900 | with 32-bit numbers a packet of an established connection does to both halves what the model says, and closes it exactly when the model does |
| TcpProcess.Conversation.ProcessTcp | src/libnids-1.24/src/tcp.c:708-900 | so it does for a packet from either side; nothing changes once the connection is closed |
| TcpProcess.Follow | src/libnids-1.24/src/tcp.c:708-900 | a run of packets within reach comes to what the model comes to; if the connection is closed, both streams were taken whole |
| DoublyLinked.UnlinkKeeps | src/libnids-1.24/src/tcp.c:145-161 | taking a node out of a doubly linked list gives the list without it, and its new ends |
| DoublyLinked.UnlinkTwice | src/libnids-1.24/src/ip_fragment.c:165-176 | taking it out once more changes nothing |
| DoublyLinked.PushKeeps | src/libnids-1.24/src/tcp.c:296-309 | linking in front gives the longer list |
| DoublyLinked.AppendKeeps | src/libnids-1.24/src/ip_fragment.c:149-163 | linking behind gives the longer list |
| StreamTable.UnlinkChain | src/libnids-1.24/src/tcp.c:145-151 | unlinking a stream from its hash chain leaves all other chains as they are |
| StreamTable.PushChain | src/libnids-1.24/src/tcp.c:296-301 | so does linking one in |
| StreamTable.DirectoryHolds | src/libnids-1.24/src/tcp.c:129-168 | a tuple is in the map exactly if a live stream has it, and the map gives that stream |
| StreamTable.FreedPool | src/libnids-1.24/src/tcp.c:129-168 | freeing a stream keeps the pool divided into live and free, each live stream in its one chain, and takes just its tuple from the map |
| StreamTable.AddedPool | src/libnids-1.24/src/tcp.c:281-309 | so does giving a free stream a tuple that is unknown in both directions |
| StreamTable.ChainHolds | src/libnids-1.24/src/tcp.c:663-674 | the chain of a tuple has a stream with it exactly if the map has |
| StreamTable.Streams.constructor | src/libnids-1.24/src/tcp.c:924-954 | the pool has 3/4 of the table's size plus one streams, all free |
| StreamTable.Streams.FindTcpStream | src/libnids-1.24/src/tcp.c:663-674 | walking a chain is looking up the map |
| StreamTable.Streams.FindStream | src/libnids-1.24/src/tcp.c:635-661 | a packet's stream is found in either direction, and the direction is told |
| StreamTable.Streams.FreeTcpStream | src/libnids-1.24/src/tcp.c:129-168 | the table stays valid, and the map and the age list lose just this stream |
| StreamTable.Streams.AddNewTcp | src/libnids-1.24/src/tcp.c:253-310 | the new stream is the newest; if all were alive the oldest, and no other, is freed; an empty pool is never found |
| StreamTable.Streams.OnSyn | src/libnids-1.24/src/tcp.c:752-758 | a SYN whose tuple or reverse is alive changes nothing, so no two live streams share a tuple or its reverse |
| HttpMachine.AgainDecreases | src/http-parser/http_parser.c:639-639 | every re-execution of a byte goes to a state of lower rank |
| HttpMachine.StepKeeps | src/http-parser/http_parser.c:567-1839 | from a sane parser no assert of the switch fails, and the next parser is sane |
| HttpMachine.MethodIndexKept | src/http-parser/http_parser.c:907-971 | the index into the method name stays inside it |
| HttpMachine.FieldCharStays | src/http-parser/http_parser.c:1218-1346 | the index of every header matcher stays inside its name |
| HttpMachine.MatchStays | src/http-parser/http_parser.c:1266-1319 | one matcher moves on, is done, or gives up |
| HttpShape.StepShape | src/http-parser/http_parser.c:55-122 | what each step may do with marks and callbacks, so that at most one mark is set |
| HttpExecute.BodyRun | src/http-parser/http_parser.c:1638-1673 | skipping body bytes in bulk is taking them one by one |
| HttpExecute.WholeBody | src/http-parser/http_parser.c:1655-1668 | a body that the buffer holds to its end has the effect of its bytes one by one, told at once, and its last byte is then presented again |
| HttpExecute.BodyEndsMessage | src/http-parser/http_parser.c:1655-1683 | though the last byte of a body is presented twice, message_complete is told once, behind the whole body, and the parser stands behind it at a new message |
| HttpExecute.HttpParser.Turn | src/http-parser/http_parser.c:627-1812 | a pass through the loop, with marks and callbacks, agrees with the byte machine, and (bytes left, rank) decreases |
| HttpExecute.HttpParser.Execute | src/http-parser/http_parser.c:567-1839 | a buffer gives the state, the position and the joined events of the byte machine, or stops at a callback where the machine goes on to them |
| HttpExecute.HttpParser.ExecuteEof | src/http-parser/http_parser.c:585-606 | the end of the input completes a body without length and is an error inside anything else |
| HttpExecute.HttpParser.PauseParser | src/http-parser/http_parser.c:2151-2163 | pausing changes errno only, and only of a parser without an error |
| HttpUpgrade.FeedUpgrade | src/http-parser/http_parser.c:1573-1592 | a run stops early without an error only at an upgrade |
| HttpCount.StepLike | src/http-parser/http_parser.c:627-637 | the count of header bytes takes no part in any step |
| HttpCount.FeedLike | src/http-parser/http_parser.c:627-637 | parsers that differ in the count alone run alike, unless the limit is reached |
| HttpCount.OverMore | src/http-parser/http_parser.c:627-637 | with more header bytes counted, the limit is reached no later |
| HttpCount.OverOftener | src/http-parser/http_parser.c:627-637 | the more callbacks pause, the sooner the limit is reached |
| HttpCount.OverNever | src/http-parser/http_parser.c:627-637 | without pauses, the limit that counts bytes again is the limit of the machine |
| HttpCount.OverBound | src/http-parser/http_parser.c:627-637 | no byte is counted more than twice, so the limit is out of reach while the count and twice the input are under it |
| HttpCount.OverLater | src/http-parser/http_parser.c:627-637 | if the limit is reached behind a first part of the input that runs through, it is reached by the whole |
| HttpTheorems.FeedConcat | src/http-parser/http_parser.c:567-1839 | the machine over two buffers is the machine over one and then the other |
| HttpTheorems.ExecuteBuffers | src/http-parser/http_parser.c:567-1839 | however the input is cut into buffers, the final parser, the bytes consumed and the events, adjacent data joined, are those of one buffer |
| HttpTheorems.ExecuteThrough | src/http-parser/http_parser.c:55-104 | however often callbacks pause, resuming at the returned offset gives the events and, but for the header count, the state of never pausing, unless the run ends in HPE_HEADER_OVERFLOW; it ends so only if the input reaches the limit with the bytes counted again behind callbacks that may pause, exactly then if it is known where they pause, and never while the count and twice the input are under the limit |
| HttpTheorems.ExecuteAll | src/http-parser/http_parser.c:567-1839 | the same for input in any buffers: buffers and pauses together change nothing but the header count, and the limit is hit exactly when the whole input reaches it |
| HttpLimit.PauseHitsLimit | src/http-parser/http_parser.c:1547-1600 | in front of the last byte of the headers of any message in chunks, if that byte is the last that may be counted: read on, it ends the headers; presented again after on_headers_complete has paused, it overflows the limit |
| HttpLimit.RequestHitsLimit | src/http-parser/http_parser.c:627-637 | from a fresh parser: a GET request in chunks, with any further headers, whose headers take the limit to the last byte, is read without an error if nothing pauses, and runs into the limit if on_headers_complete pauses |
| HttpLimit.ExecutePaused | src/http-parser/http_parser.c:567-1839 | and so does http_parser_execute itself, ending in HPE_HEADER_OVERFLOW |
| HttpLimit.LongHeaders | src/http-parser/http_parser.c:627-637 | such headers exist |
| HttpLines.LinesRead | src/http-parser/http_parser.c:1168-1545 | header lines with any names that the parser does not know are told name by name and value by value, and leave no trace in it but their number of bytes |
| HttpLines.EncodingExact | src/http-parser/http_parser.c:1377-1533 | a Transfer-Encoding line makes the parser expect chunks if and only if its value is "chunked", in any case of letters, with nothing but spaces behind |
| HttpChunked.ChunkRead | src/http-parser/http_parser.c:1686-1802 | one encoded chunk, its size in any hexadecimal digits and with any extension, is told as its data, and the parser is back at a chunk start |
| HttpChunked.EveryChunk | src/http-parser/http_parser.c:1702-1735 | every chunk of up to 2^64 - 2 bytes can be encoded |
| HttpChunked.ChunkedRoundTrip | src/http-parser/http_parser.c:1535-1593 | encoded chunks, with extensions and a trailer of unknown headers, give back the body and the trailer, message_complete once at the last byte, and every byte is consumed |
| HttpChunked.ReadChunked | src/http-parser/http_parser.c:1686-1802 | the same through the parser, in any buffers |
| HttpLength.LengthExact | src/http-parser/http_parser.c:1441-1465 | the length accumulated from digits is the number written if and only if that number is at most 2^64 - 2 |
| HttpLength.SizeRead | src/http-parser/http_parser.c:1686-1737 | the machine, reading the hexadecimal digits of a chunk size in any case of letters and with leading zeros, holds what they accumulate to, or refuses |
| HttpLength.ChunkSizeExact | src/http-parser/http_parser.c:1686-1737 | behind the digits of a chunk size, in any case of letters and with leading zeros, the parser holds the number written if and only if it is at most 2^64 - 2; if it refuses, it is with HPE_INVALID_CONTENT_LENGTH |
| HttpLength.OversizeRead | src/http-parser/http_parser.c:1702-1735 | a chunk size of 17 digits for which the overflow test fails to see the overflow |
| HttpLength.LengthRead | src/http-parser/http_parser.c:1387-1394 | the machine, reading digits and spaces of a Content-Length, holds what the digits accumulate to, or refuses |
| HttpLength.ContentLengthExact | src/http-parser/http_parser.c:1215-1465 | behind a content-length name in any case of letters, its colon and blanks, the parser holds the number written if and only if it is at most 2^64 - 2; if it refuses, it is with HPE_INVALID_CONTENT_LENGTH |
| HttpLength.DecimalRead | src/http-parser/http_parser.c:1387-1465 | a number up to 2^64 - 2 in decimal is read back as it was written |
| HttpLength.OversizeLength | src/http-parser/http_parser.c:1441-1465 | a decimal number over 2^64 that passes the overflow test and is read as another |
| HttpHeaders.FieldCharMeans | src/http-parser/http_parser.c:1218-1346 | the header state says which of the known names the bytes so far begin |
| HttpHeaders.NameRecognised | src/http-parser/http_parser.c:1168-1346 | after any header name the state says which known header it is, in any case of letters |
| HttpHeaders.HeaderIsKnown | src/http-parser/http_parser.c:1168-1346 | the four headers that matter are told apart from all others |
| HttpUrl.UrlCharClimbs | src/http-parser/http_parser.c:419-565 | no byte leads back to an earlier part of a URL |
| HttpUrl.ScanKeeps | src/http-parser/http_parser.c:2063-2120 | the first pass keeps its fields non-empty, in the buffer and in order |
| HttpUrl.HostKeeps | src/http-parser/http_parser.c:1980-2035 | the second pass keeps user, host and port in order inside the authority |
| HttpUrl.AcceptedIsOrdered | src/http-parser/http_parser.c:2052-2149 | in any URL that is accepted the fields are non-empty, in bounds, disjoint and ordered; CONNECT has exactly host and port; a scheme has a host |
| HttpUrl.HttpParserUrl.HttpParseHost | src/http-parser/http_parser.c:1979-2050 | the loop over the authority computes the second pass |
| HttpUrl.HttpParserUrl.HttpParserParseUrl | src/http-parser/http_parser.c:2052-2149 | the two loops compute the parse that the theorems are about |
| HttpUrlTrip.ScanAll | src/http-parser/http_parser.c:2063-2120 | the first pass over a rendered URL finds its parts |
| HttpUrlHost.HostAll | src/http-parser/http_parser.c:1980-2050 | the second pass splits its authority |
| HttpUrlHost.UrlRoundTrip | src/http-parser/http_parser.c:2052-2149 | rendering legal parts and parsing gives those parts and the port's value, and is refused exactly if the port is over 65535 or a fragment comes with neither path nor query in front of it |
| HttpUrlHost.FieldsAreParts | src/http-parser/http_parser.c:2052-2149 | each field is set exactly if its part is there, and its slice of the buffer is the part |
| IpModel.InsertKeeps | src/libnids-1.24/src/ip_fragment.c:616-694 | every fragment starts no earlier than the start and the end of those before it, also those of negative length |
| IpModel.InsertWrites | src/libnids-1.24/src/ip_fragment.c:616-694 | inserting overwrites exactly the positions from the predecessor's end to the fragment's end and no other |
| IpModel.TrimAt | src/libnids-1.24/src/ip_fragment.c:638-671 | cutting the fragments behind clears just the positions before the new end |
| IpModel.ConnectedTiles | src/libnids-1.24/src/ip_fragment.c:441-462 | a list that passes both tests lies end to end |
| IpModel.GlueSound | src/libnids-1.24/src/ip_fragment.c:472-528 | what is glued tiles the datagram without gap or overlap, and every position has its byte |
| IpModel.AddedSane | src/libnids-1.24/src/ip_fragment.c:606-694 | an arriving fragment keeps an entry sane |
| IpModel.AddedExplained | src/libnids-1.24/src/ip_fragment.c:579-694 | and keeps every byte, the length and the header accounted for by fragments that came |
| IpModel.DeliverExplained | src/libnids-1.24/src/ip_fragment.c:531-706 | so does the whole step |
| IpReassembly.AfterExplained | src/libnids-1.24/src/ip_fragment.c:531-706 | after any history an entry holds only what fragments brought since it was opened |
| IpReassembly.GluedIsSound | src/libnids-1.24/src/ip_fragment.c:472-528 | after any history a datagram ends where the latest fragment without MF ends, each byte came at its position, its header with a fragment at offset 0, and its length is header plus payload, at most 65535 |
| IpCovered.CoveredIsDone | src/libnids-1.24/src/ip_fragment.c:441-462 | over a list that covers the datagram, the scan of ip_done succeeds exactly when every entry in front of the last has a length of 0 or more and none starts behind a gap behind the end of the datagram |
| IpCovered.HoldsWhatCame | src/libnids-1.24/src/ip_fragment.c:531-706 | after any history an entry holds a byte at a position if and only if a fragment that was not oversized carried one there since it was opened |
| IpCovered.CoveredOutcome | src/libnids-1.24/src/ip_fragment.c:472-706 | when, after any history, fragments that were not oversized have carried all positions, the datagram is delivered exactly if no fragment has a negative length, none ends behind the datagram, and header and payload are at most 65535; otherwise it is lost if the scan succeeds, and waits if not |
| IpCovered.NegativeIfInside | src/libnids-1.24/src/ip_fragment.c:632-637 | a fragment gets a negative length exactly if it ends before its predecessor does |
| IpCovered.InnerFragmentBlocks | src/libnids-1.24/src/ip_fragment.c:632-706 | a history of packets after which all positions have come and the datagram still waits |
| IpCovered.InnerFragmentLoses | src/libnids-1.24/src/ip_fragment.c:492-511 | a history of consistent fragments that covers a datagram and loses it at its completion |
| IpReassembly.InsertPiece | src/libnids-1.24/src/ip_fragment.c:616-694 | a piece of a datagram goes to its place among the others or replaces itself |
| IpReassembly.ConnectedIfAll | src/libnids-1.24/src/ip_fragment.c:441-462 | with the last piece there, the list connects exactly if no piece is missing |
| IpReassembly.RunHolds | src/libnids-1.24/src/ip_fragment.c:531-706 | in every run the entry holds exactly the pieces collected so far |
| IpReassembly.AnyOrder | src/libnids-1.24/src/ip_fragment.c:531-706 | pieces in any order, repeated at will, give the datagram with the first piece's header at the arrival that completes the set, and nothing at any other |
| IpTables.FreedKeeps | src/libnids-1.24/src/ip_fragment.c:325-360 | freeing a queue keeps every counter the sum of its host's charges, and takes out a host without queues |
| IpTables.EnlistedKeeps | src/libnids-1.24/src/ip_fragment.c:395-438 | so does making one |
| IpTables.RechargedKeeps | src/libnids-1.24/src/ip_fragment.c:642-694 | so does changing one |
| IpTables.InsertCharge | src/libnids-1.24/src/ip_fragment.c:642-694 | a fragment costs at most its own charge |
| IpTables.EvictedIsLongestSuffix | src/libnids-1.24/src/ip_fragment.c:378-387 | eviction frees from the head of the list, the newest queues, as few as bring the host to the low mark |
| IpTables.HeadDecides | src/libnids-1.24/src/ip_fragment.c:716-719 | if the timer at the head has not run out, none has |
| IpTables.Restarted | src/libnids-1.24/src/ip_fragment.c:579-591 | with a clock that does not go back, a restarted timer belongs at the end of the list |
| IpFragment.IpDone | src/libnids-1.24/src/ip_fragment.c:441-462 | the scan decides completion |
| IpFragment.Gather | src/libnids-1.24/src/ip_fragment.c:472-528 | copying the fragments into a buffer gives the byte map, or the tests refuse |
| IpFragment.Align | src/libnids-1.24/src/ip_fragment.c:621-637 | the loop finds the place, and the cut against the predecessor |
| IpFragment.Defragmenter.TrimFollowing | src/libnids-1.24/src/ip_fragment.c:638-671 | the loop cuts and drops what the model does, and releases the charge of what it drops |
| IpFragment.Defragmenter.AddFragment | src/libnids-1.24/src/ip_fragment.c:606-694 | the queue gains the fragment and the counter its charge |
| IpFragment.Defragmenter.IpFind | src/libnids-1.24/src/ip_fragment.c:300-318 | a queue is found exactly if the host has it, and its timer stopped |
| IpFragment.Defragmenter.IpFree | src/libnids-1.24/src/ip_fragment.c:325-360 | queue, timer, list entry and charge go, and the host if it was its last |
| IpFragment.Defragmenter.IpEvictor | src/libnids-1.24/src/ip_fragment.c:378-387 | the loop ends with the counter at or under the low mark or the host gone, and its panic is not reached |
| IpFragment.Defragmenter.IpCreate | src/libnids-1.24/src/ip_fragment.c:395-438 | a new queue at the head of the host's list, with its timer at the end of the timers |
| IpFragment.Defragmenter.IpGlue | src/libnids-1.24/src/ip_fragment.c:472-528 | the datagram is glued and its queue freed in every case |
| IpFragment.Defragmenter.IpDefrag | src/libnids-1.24/src/ip_fragment.c:531-706 | a packet does to its queue what the model of one datagram says, after eviction; other queues stay; the counter stays under the high mark plus one packet's charge |
| IpFragment.Defragmenter.ExpireQueues | src/libnids-1.24/src/ip_fragment.c:716-719 | the head-only loop frees exactly the queues whose time has run out |
| IpFragment.Defragmenter.IpDefragStub | src/libnids-1.24/src/ip_fragment.c:708-741 | between packets a host is in the table exactly when it has a queue, every counter is its sum and bounded, and the timers are sorted and complete |
| TimerList.Timers.AddTimer | src/libnids-1.24/src/ip_fragment.c:149-163 | the timer goes to the end of the list |
| TimerList.Timers.DelTwice | src/libnids-1.24/src/ip_fragment.c:165-176 | deleting a timer twice has the effect of once |
| TimerList.Timers.Restart | src/libnids-1.24/src/ip_fragment.c:586-590 | deleting it twice and adding it moves it to the end |
| IpRun.Reassemble | src/libnids-1.24/src/ip_fragment.c:531-741 | the whole defragmenter, with nothing else in its tables, gives a datagram back in any order of arrival, its pieces repeated without bound, as long as they keep coming in time and the pieces fit under the high mark |
| IpRun.ReassembleAmong | src/libnids-1.24/src/ip_fragment.c:531-741 | it does so too with other datagrams in the tables and packets of others in between, as long as what comes for the host fits under the high mark |
| Checksum.Fold | src/libnids-1.24/src/checksum.c:253-257 | two folds and the complement give the one's-complement residue |
| Checksum.IpCheckExt | src/libnids-1.24/src/checksum.c:230-258 | for a datagram of legal size and a pseudo-header's sum the signed 32-bit sum never overflows, and the result is the checksum |
| Checksum.PassesIff | src/libnids-1.24/src/checksum.c:230-258 | a check is 0 exactly if the words add up to a multiple of 65535 that is not 0 |
| Checksum.CheckSplit | src/libnids-1.24/src/checksum.c:230-258 | a checksum can be taken in parts, an even first part going into the addend |
| Checksum.StoredCheckPasses | src/libnids-1.24/src/checksum.c:230-258 | storing the checksum in its zeroed word makes the check give 0 |
| Checksum.PassesInAnyOrder | src/libnids-1.24/src/checksum.c:230-258 | whether a packet checks out does not depend on the machine's byte order |
| Checksum.TransportCheck | src/libnids-1.24/src/checksum.c:274-313 | the TCP and UDP checks are the checksum of pseudo-header and segment, unless switched off |
| LogRing.PushAppends | src/status.c:110-121 | a push in a lap puts a whole record behind the others, which end at stat->p |
| LogRing.PushStartsLap | src/status.c:110-121 | the sentinel always fits, and a new lap leaves the old one readable where it is not overwritten |
| LogRing.LookInLap | src/status.c:123-145 | in the writer's lap the viewer shows the next message or waits |
| LogRing.LookBehind | src/status.c:123-145 | a lap behind it goes on with the old lap until the writer has passed it |
| LogRing.LookTracked | src/status.c:123-145 | messages are left out only when the writer has passed the viewer's position in the next lap |
| LogRing.FollowsTheLog | src/status.c:102-145 | in every run with the writer at most a lap ahead, the lines shown are a strictly increasing selection of the messages pushed, each whole; if no look finds that the writer has passed the viewer, they are the first messages without one left out, and all of them when the viewer has reached the write position; the ring holds the records of the lap up to the write position |
| LogRing.Log.StatusLogpush | src/status.c:102-121 | the writer's code is the push that the theorems are about |
| LogRing.Log.ShowLog | src/status.c:123-145 | the viewer's turn is the look that the theorems are about |

## Left out

- Packet capture, link layers, threads, promiscuous mode, RST injection and system logging (src/libnids-1.24/src/libnids.c, src/libnids-1.24/src/killtcp.c): I/O and foreign libraries.
- AMQP, msgpack, pid files, the supervisor, configuration, sessions and reports: plumbing.
- Port-scan heuristics, IP option scanning, hash seeding, the i386 assembly of the checksum: little to prove, or bound to a platform. The hash of a tuple is an arbitrary function.
- Allocation failure, raw struct layout and byte-order conversion: packets are decoded records with byte sequences, and the sizes of structs are parameters.
- Linked queues of TCP packets, fragments and datagrams are sequences reassigned in place of pointer updates; the pool of streams and the timer list keep their links, as numbers of nodes. Streams' link fields are one sequence per field.
- The hash table of hosts is a map, so its chains are not modelled; those of the streams are.
- process_tcp: the handshake, RST, timestamps, window scaling as an option and the closing timeouts are not modelled; a connection begins behind its handshake, and its windows are already scaled.
- A listener that frees or adds streams from inside its callback, and the listeners of a stream as a list: one round of callbacks is one reaction.
- `count`, `offset` and memory counters are unbounded; only the sequence numbers made from them are 32 bits wide. The clock, record lengths and timer values are unbounded too.
- HttpExecute.HttpParser.Execute: what was logged is not promised for a run that ends in a parse error, because a split run may deliver partial data first; that it ends in the same error at the same byte is.
- HttpTheorems.ExecuteBuffers: callbacks may skip bodies but not pause; pausing is in HttpTheorems.ExecuteThrough, and pausing with several buffers in HttpTheorems.ExecuteAll.
- HttpTheorems.ExecuteThrough: for an application that pauses by how data were cut into callbacks, the limit on header bytes is bounded but not told exactly; the same holds of HttpTheorems.ExecuteAll.
- Callbacks write no parser fields but by pausing, by failing, or by asking to skip a body; a callback that is not set is one that returns 0.
- HTTP_PARSER_STRICT set to 0, error texts, and the debug line numbers.
- The fields of struct http_parser are one record in the class, and its bit fields are enumerations.
- HttpUrl.HttpParserUrl.HttpParserParseUrl: a URL longer than 65535 bytes, whose 16-bit offsets would wrap, is not modelled, nor is a result that was not zeroed; the number of the port ends at the end of the buffer at the latest.
- HttpUrlHost.UrlRoundTrip: the parts of a CONNECT target and an empty user name are not rendered; what is accepted of them is in HttpUrl.AcceptedIsOrdered.
- The clock of the defragmenter is read once for a packet, and does not go back.
- The log: a push is atomic, messages have no zero byte, the records are little-endian, and what the viewer does while it sleeps, or when the master is gone, is not modelled.
- HttpChunked.ChunkedRoundTrip: headers in a trailer that the parser acts on, such as Connection, are not part of an encoding.
- HttpLimit.RequestHitsLimit: the request line is that of GET for the path `/`.
- IpRun.Reassemble: for empty tables only; with other datagrams in the tables, IpRun.ReassembleAmong lets repeated pieces count towards what must fit.
- LogRing.FollowsTheLog: it does not speak of a viewer that the writer has lapped twice, whose position may lie inside a record.
