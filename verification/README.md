# Verified model of a Sans-I/O HTTP library

The library turns octets into events and calls into octets, without touching a socket:
HTTP/2 with HPACK and flow control, HTTP/1.1, and server-sent events. This project models
its protocol cores in Dafny and proves what they promise, for every input and every run.

Verify everything with `dafny verify dfyconfig.toml`.

## How it is organised

- **HPACK** (RFC 7541). `HuffmanCode` is the code as mathematics, with a reference decoder;
  `HuffmanTree`, `HuffmanDecoder` and `HuffmanEncoding` prove the tree, the bit walk and the
  64-bit accumulator against it for any prefix-free complete table; `HuffmanTable` and
  `HuffmanCanonical` show that the actual table is one, by laying its codes out as
  consecutive intervals. `HpackIntegers`, `HpackStrings`, `HpackTable` and `HpackBlocks`
  are the remaining layers, up to whole runs; `Hpack` and `HpackContext` hold the classes.
- **HTTP/2** (RFC 7540). `Frames` and `FrameParser` print and parse frames. `FlowControl` is
  the arithmetic of the windows, `SendLedger` and `ReceiveLedger` what they are worth over
  whole runs. `Http2Core` says what each call-back does, `Http2Engine` is the engine class
  proved against it, `Reassembly` is about whole inputs, `Http2Headers` about the header
  blocks in them, `Http2Streams` about what is reported of each stream, `FlowFaults` about
  errors on any input. `TwoParty` is flow control between
  two engines as a protocol of messages over FIFO channels; `Wire` reads octets as those
  messages, `TwoEngines` shows that two engines joined by octets simulate the protocol, and
  `LinkedEngine` that objects of the engine class are such engines; `LinkedHeaders` and
  `LinkedStreams` follow header lists and ends of streams from one to the other. `Requests` and `RequestRegistry` add the registry of
  requests whose bodies the windows hold up.
- **HTTP/1.1** (RFC 7230). `Http1Core` and `Http1Calls` are the state machine, `Http1Feed`
  reads it octet by octet, `Http1Engine` is the engine class over its buffer. `Http1Chunked`,
  `Http1Heads`, `Http1Responses` and `Http1Bodies` go from one engine to another,
  `Http1Serial` covers the client's runs and `Http1Serving` the server's.
- **Server-sent events**. `Sse` has the parser and its line-by-line reference, `SseStreams` a
  writer and what comes back of what it writes.

Classes carry the fields the library's classes have, and their methods' contracts give the
whole new state as a function (or, where a hash map is iterated, a relation) of the old one.
The theorems are about those functions.

## Where the code and its documentation differ

The model follows the code in each case.

- The Huffman decoder accepts up to 29 ones of padding; section 5.2 of RFC 7541 allows 7
  (`HuffmanCode.DecodeExact`).
- The integer decoder stops at 2^31 + 2^p - 1, below the 32-bit range the encoder covers
  (`HpackIntegers.IntRoundTrip`).
- END_STREAM on DATA forgets the stream's windows in both directions, which refills the
  send window of a stream that is still open that way (`TwoParty.EndingRefills`). The
  equation between the two ends of a stream therefore holds until either has handled
  END_STREAM DATA on it. Behind that, a sender's window and what is on the way are at least
  the receiver's window, but may exceed it; the equation for the connection, and the freedom
  from errors, hold all the same (`TwoParty.AlwaysBalanced`, `TwoEngines.NoFlowControlError`).
- An HTTP/1.1 server that has reported an error reports `goaway` as well if a response is
  completed afterwards (`Http1Serving.ServerSerialization`).
- A request executed on a stream that is no longer tracked, while nothing can be sent on it,
  can wait for ever (`Requests.ExecuteExact`, `Requests.UntrackedIsLost`,
  `Requests.UntrackedMissesSettings`); every other request is told when it can go on
  (`Requests.NeverLost`).
- The documentation says that the HTTP/1.1 engine adds neither Host nor Connection fields. It
  adds Host for an authority (`Http1Bodies.AuthorityComesBack`) and Connection for a
  response behind which it closes (`Http1Bodies.CloseIsAnnounced`).
- A response sent with `end_stream` and without a Content-Length, but with a status that
  allows a body, says nothing of its length, so a client waits for the connection to close
  (`Http1Bodies.CloseDelimitedReads`).
- An empty line that follows an event, such as the one behind a comment, repeats an event
  without data as long as an identifier is in force (`SseStreams.EmptyLineExact`).
- The comments of the HTTP/1.1 engine say that `send_data` takes everything and stages the
  bodies of pipelined requests; it takes nothing until the request head has been written
  (`Http1Engine.Engine.SendData`).
- The byte order mark of an event stream is only looked for in the first chunk, even if that
  chunk is empty or cuts it (`Sse.BomIsWhole`, `Sse.EventsAreLines`).

## Model

| member | source | states |
|---|---|---|
| HuffmanCode.DecodeExact | source/v2/hpack.cpp:178-237 | decoding succeeds if and only if the bits are the codes of the result followed by at most 29 ones, so the result is unique |
| HuffmanCode.DecodeBitsOfCodes | source/v2/hpack.cpp:178-237 | the codes of any octets followed by up to 29 ones decode to those octets |
| HuffmanCode.DecodedBitsAreCodes | source/v2/hpack.cpp:178-237 | whatever decodes is codes and then ones: nothing malformed is accepted |
| HuffmanCode.BothBranches | source/v2/hpack_huffman.cpp:6-36 | below any proper code prefix both bits continue to a code: the code is complete |
| HuffmanTree.BuildTree | source/v2/hpack_huffman.cpp:6-36 | entering the 257 codes gives exactly 513 nodes, all reachable, each internal one with two children, leaf i at the end of code i |
| HuffmanDecoder.DecodeHuffman | source/v2/hpack.cpp:178-237 | the bit walk over the tree agrees with the reference decoder on every input; its invalid-code branch is never taken |
| HuffmanDecoder.PaddingLeadsToEos | source/v2/hpack.cpp:214-233 | the check on trailing bits accepts exactly ones |
| HuffmanEncoding.HuffmanRoundTrip | source/v2/hpack.cpp:55-91 | encoding then decoding gives back every octet string; the encoding has the length of the codes, rounded up to octets |
| HuffmanEncoding.HuffmanBytesBits | source/v2/hpack.cpp:66-91 | the encoder's octets are the concatenated codes and fewer than eight ones |
| HuffmanEncoding.EmitOctet | source/v2/hpack.cpp:72-80 | taking the top octet from an accumulator with stale high bits takes exactly the oldest eight pending bits |
| HuffmanCanonical.TableIsValid | include/http/v2/hpack_huffman_tab.h:13-271 | the 257-entry table is prefix free and complete, with lengths 5 to 30 and an all-ones EOS |
| HuffmanCanonical.CodesAreApart | include/http/v2/hpack_huffman_tab.h:13-271 | no code of the table begins another |
| HuffmanCanonical.SomeCodeStarts | include/http/v2/hpack_huffman_tab.h:13-271 | every sufficiently long bit string begins with a code of the table |
| HpackIntegers.IntRoundTrip | source/v2/hpack.cpp:18-36 | for every prefix length, position and limit, decoding inverts encoding exactly below 2^31 + 2^p - 1; larger values overflow |
| HpackIntegers.DecodedIntMeaning | source/v2/hpack.cpp:134-176 | a decoded integer is the little-endian sum of its octets, without wrap-around, and within the limit if it has continuation octets |
| HpackIntegers.TailRoundTrip | source/v2/hpack.cpp:134-176 | continuation octets accumulate to the encoded remainder at every shift |
| HpackIntegers.FilledIsEncoded | source/v2/hpack.cpp:18-36 | or-ing the prefix into an octet whose prefix bits are clear gives the encoding |
| Hpack.KnownIntegers | source/v2/hpack.cpp:18-36 | the examples of section C.1 of RFC 7541 |
| Hpack.KnownFields | source/v2/hpack.cpp:93-132 | one field of each representation, octet by octet |
| HpackStrings.StringRoundTrip | source/v2/hpack.cpp:38-53 | a string comes back, anywhere in a block, if and only if its encoded octets are within the limit |
| HpackStrings.PayloadBound | source/v2/hpack.cpp:239-264 | what is within the limit stands for a string of bounded length |
| Hpack.HpackBuffer.EncodeInt | source/v2/hpack.cpp:18-36 | the loop ors the prefix into the last octet, whatever it holds, and appends the continuation; behind a flag that is the prefix coding of section 5.1 of RFC 7541 |
| Hpack.HpackBuffer.EncodeHuffmanLen | source/v2/hpack.cpp:55-64 | the length pass announces the number of octets the encoder then writes |
| Hpack.HpackBuffer.EncodeHuffman | source/v2/hpack.cpp:66-91 | the 64-bit accumulator, never cleared above its pending bits, emits exactly the packed codes and padding |
| Hpack.HpackBuffer.EncodeString | source/v2/hpack.cpp:38-53 | length and payload, with the Huffman flag |
| Hpack.HpackBuffer.EncodeHeaderIndexed | source/v2/hpack.cpp:93-97 | an indexed field, which IndexedRoundTrip reads back |
| Hpack.HpackBuffer.EncodeHeaderLiteralIncIndexIndexedName | source/v2/hpack.cpp:99-104 | a literal with indexing and an indexed name, which IndexingRoundTrip reads back |
| Hpack.HpackBuffer.EncodeHeaderLiteralIncIndexNewName | source/v2/hpack.cpp:106-112 | a literal with indexing and a new name, which NewNameRoundTrip reads back |
| Hpack.HpackBuffer.EncodeHeaderLiteralNoIndexIndexedName | source/v2/hpack.cpp:114-119 | a literal without indexing, which PlainRoundTrip reads back |
| Hpack.HpackBuffer.EncodeHeaderLiteralNeverIndexIndexedName | source/v2/hpack.cpp:121-126 | a literal never indexed, which PlainRoundTrip reads back |
| Hpack.HpackBuffer.EncodeTableSizeUpdate | source/v2/hpack.cpp:128-132 | a size update, which SizeUpdateRoundTrip reads back |
| Hpack.DecodeInt | source/v2/hpack.cpp:134-176 | the decoding loop computes the specified integer or error, and where it stops |
| Hpack.DecodeString | source/v2/hpack.cpp:239-264 | the string decoder agrees with its specification, limits and Huffman errors included |
| HpackTable.EvictKeepsLongest | source/v2/hpack_context.cpp:183-191 | eviction keeps exactly the longest run of newest entries that fits |
| HpackTable.Add | source/v2/hpack_context.cpp:17-30 | after an insertion the entries fit the maximum size |
| HpackTable.SetMax | source/v2/hpack_context.cpp:11-15 | after a size change the entries fit the new maximum |
| HpackTable.SizeIsFootprint | source/v2/hpack_context.cpp:19-29 | the size of a table is the octets of all its names and values and 32 for each entry |
| HpackTable.AddExact | source/v2/hpack_context.cpp:17-30 | an insertion leaves the longest run of newest entries whose octets and 32 for each fit, the new one first; it empties the table exactly when the entry alone does not fit |
| HpackTable.SetMaxExact | source/v2/hpack_context.cpp:11-15 | a size change leaves the longest run of newest entries that fits by that measure |
| HpackTable.AddMovesUp | source/v2/hpack_context.cpp:118-133 | index 62 is the newest entry, and an insertion moves every other that stays one up |
| HpackTable.FindResolves | source/v2/hpack_context.cpp:145-181 | an index either search returns resolves to a matching entry, and no result means no match |
| HpackBlocks.IndexedRoundTrip | source/v2/hpack_context.cpp:32-89 | an indexed field decodes to the entry its index names |
| HpackBlocks.IndexingRoundTrip | source/v2/hpack_context.cpp:32-89 | a literal with an indexed name decodes to itself, even when its insertion evicts the entry that named it |
| HpackBlocks.NewNameRoundTrip | source/v2/hpack_context.cpp:32-89 | a literal with a new name decodes to itself |
| HpackBlocks.PlainRoundTrip | source/v2/hpack_context.cpp:32-89 | a literal without indexing or never indexed decodes to itself and leaves the table alone, if and only if its value fits |
| HpackBlocks.SizeUpdateRoundTrip | source/v2/hpack_context.cpp:32-89 | a size update changes the decoder's maximum exactly when it is below the integer decoder's range |
| HpackBlocks.HeaderRoundTrip | source/v2/hpack_context.cpp:91-116 | one header, wherever it is in a block, comes back with equal tables if it fits the limits, and does not otherwise |
| HpackBlocks.HeadersRoundTrip | source/v2/hpack_context.cpp:91-116 | a list of headers comes back in order and the decoder carries on with the encoder's table |
| HpackBlocks.HeadersMismatch | source/v2/hpack_context.cpp:91-116 | a list with an oversized string never comes back as itself |
| HpackBlocks.MessageRoundTrip | source/v2/hpack_context.cpp:32-116 | a block or size change keeps the two tables equal |
| HpackBlocks.RunRoundTrip | source/v2/hpack_context.cpp:17-116 | over any sequence of header lists and size changes the decoder returns exactly the lists sent, with equal tables, if and only if every string and size is within its limits |
| HpackBlocks.FirstBlocks | source/v2/hpack_context.cpp:17-116 | the first blocks of such a run decode to the first lists sent and the table the encoder had then |
| HpackBlocks.RunBound | source/v2/hpack_context.cpp:32-89 | at the end of every run the octets of the decoder's table and 32 for each entry are within its maximum |
| HpackBlocks.RepeatedIsIndexed | source/v2/hpack_context.cpp:91-116 | a header that fits the table and is sent again is an index; one octet if the first time has put it there |
| HpackContexts.HpackContext.EvictUntilSize | source/v2/hpack_context.cpp:183-191 | the eviction loop computes the specified eviction; the size field stays the sum over the entries |
| HpackContexts.HpackContext.SetMaxTableSize | source/v2/hpack_context.cpp:11-15 | the new state is the specified one |
| HpackContexts.HpackContext.AddToDynamicTable | source/v2/hpack_context.cpp:17-30 | an entry larger than the table empties it; otherwise it becomes the newest after the evictions it needs |
| HpackContexts.HpackContext.GetHeader | source/v2/hpack_context.cpp:118-133 | resolves both index ranges, and errors outside them |
| HpackContexts.HpackContext.FindMatch | source/v2/hpack_context.cpp:145-181 | both searches return the first match in index order |
| HpackContexts.HpackContext.EncodeOne | source/v2/hpack_context.cpp:93-115 | chooses the representation the specification chooses, and updates the table with it |
| HpackContexts.HpackContext.Encode | source/v2/hpack_context.cpp:91-116 | the octets appended and the table reached are the specified ones |
| HpackContexts.HpackContext.DecodeLiteral | source/v2/hpack_context.cpp:48-87 | a literal's name, by index or in full, and value |
| HpackContexts.HpackContext.Decode | source/v2/hpack_context.cpp:32-89 | the block decoder's headers, error and table are the specified ones, on every input |
| HpackContexts.RfcTables | source/v2/hpack_huffman.cpp:38-42 | the constant tables are valid and the tree built from them is their code tree |
| HpackContexts.RfcRun | source/v2/hpack_context.cpp:6-116 | RunRoundTrip for the actual tables, from two fresh contexts |
| Frames.HeaderInverse | source/v2/frame_parser.cpp:67-90 | parsing the nine octets of any header gives it back |
| Frames.ParsedInverse | source/v2/frame_parser.cpp:67-90 | and printing what was parsed gives back any nine octets |
| Frames.HeaderLayout | source/v2/frame.cpp:6-23 | where length, type, flags and stream identifier are in the nine octets, highest first |
| Frames.KnownHeaders | source/v2/frame.cpp:48-76 | HEADERS frames with and without END_STREAM, octet by octet |
| Frames.KnownSettings | source/v2/frame.cpp:78-104 | SETTINGS and its acknowledgement, octet by octet |
| Frames.KnownGoaway | source/v2/frame.cpp:130-168 | a GOAWAY, octet by octet |
| Frames.KnownWindowUpdate | source/v2/frame.cpp:106-128 | a WINDOW_UPDATE, octet by octet |
| Frames.FramingUnique | source/v2/frame.cpp:6-128 | octets split into frames and an unfinished rest in one way only |
| Frames.OutputBuffer.WriteFrameHeader | source/v2/frame.cpp:6-23 | appends the header's octets, without the reserved bit |
| Frames.OutputBuffer.EncodeDataFrame | source/v2/frame.cpp:25-46 | appends one well-formed DATA frame |
| Frames.OutputBuffer.EncodeHeadersFrame | source/v2/frame.cpp:48-76 | appends one well-formed HEADERS frame |
| Frames.OutputBuffer.EncodeSettingsFrame | source/v2/frame.cpp:78-104 | the loop appends one SETTINGS frame with every setting in order |
| Frames.OutputBuffer.EncodeWindowUpdateFrame | source/v2/frame.cpp:106-128 | appends a WINDOW_UPDATE with the increment in 31 bits |
| Frames.OutputBuffer.EncodeGoawayFrame | source/v2/frame.cpp:130-168 | appends a GOAWAY with both words and the debug data |
| FrameParsers.FrameParser.ReadHeader | source/v2/frame_parser.cpp:23-39 | collects header octets over any number of reads and reports a header exactly at the ninth |
| FrameParsers.FrameParser.ReadPayload | source/v2/frame_parser.cpp:40-60 | offers no more than the payload, and counts what the call-back takes, which may depend on every call-back before it |
| FrameParsers.FrameParser.Consume | source/v2/frame_parser.cpp:15-65 | with any call-back, stateful ones included, frames delivered and octets held account for every octet consumed; parsing stops early only at a refused chunk, and what it reports last is that chunk |
| FrameParsers.ReplaySound | source/v2/frame_parser.cpp:15-65 | completed frames have their whole payload, the current one does not |
| FrameParsers.FramesComeBack | source/v2/frame_parser.cpp:15-90 | octets of a list of frames, consumed in any pieces, are delivered as exactly those frames |
| FrameParsers.SplitIndependence | source/v2/frame_parser.cpp:15-65 | the frames delivered do not depend on the pieces |
| FlowControl.ReceiveKeepsBalance | source/v2/engine.cpp:364-401 | while there is no error, window plus unreturned consumption is the grant, consumption is below the threshold or zero, and every increment is from 1 to 2^31-1 |
| FlowControl.ReceiveErrorExact | source/v2/engine.cpp:366-378 | a chunk is refused exactly when it exceeds one of the two grants |
| FlowControl.OthersKeepBalance | source/v2/engine.cpp:111-567 | sending, opening, credit, SETTINGS and stream ends leave the receive side balanced |
| ReceiveLedger.ErrorExact | source/v2/engine.cpp:364-401 | on any stream number and in any state whose totals agree: an error is raised exactly when what has been received exceeds the grant plus the WINDOW_UPDATEs emitted, on the connection or the stream |
| ReceiveLedger.ReceiveLedger | source/v2/engine.cpp:364-567 | over every run of sends, opens, DATA, HEADERS, WINDOW_UPDATE and SETTINGS up to the first error, each receive window is its grant plus emitted credit minus received octets |
| ReceiveLedger.StepBalanced | source/v2/engine.cpp:111-567 | every event that fits leaves the receive side balanced, and what it returns are valid increments |
| ReceiveLedger.LargeWindowNeverErrs | source/v2/engine.cpp:364-401 | with an initial window of at least 32765 no peer can bring about a flow-control error, over every such run with DATA read in chunks of up to 16384 octets |
| ReceiveLedger.SmallWindowErrs | source/v2/engine.cpp:364-401 | below 32765, at most two chunks can: the chunks |
| SendLedger.SendLedger | source/v2/engine.cpp:111-133 | in every reachable state the connection window is 65535 plus credit minus octets sent, and not negative; each stream's window differs from the peer's initial size by its credit minus its octets, through every SETTINGS change |
| SendLedger.StepAgrees | source/v2/engine.cpp:445-567 | every event keeps that ledger |
| SendLedger.SendIsMaximal | source/v2/engine.cpp:204-210 | a send passes neither window, and stops short of its data only by using one up |
| Http2Core.DataFramesCarry | source/v2/engine.cpp:212-225 | the DATA frames of a send concatenate to exactly the accepted octets |
| Http2Core.DataFramesEnd | source/v2/engine.cpp:212-225 | each has 1 to 16384 octets, and END_STREAM is on the last one only if all the data was accepted |
| Http2Core.SettingsComeBack | source/v2/engine.cpp:462-479 | reading a written SETTINGS payload gives the initial window sizes that were set, in order |
| Http2Core.IncrementComesBack | source/v2/engine.cpp:431-436 | reading a written WINDOW_UPDATE gives its increment in 31 bits |
| Http2Engine.Engine.constructor | source/v2/engine.cpp:12-34 | a fresh engine has the default windows and waits for the preface if it is a server |
| Http2Engine.Engine.SetInitialWindowSize | source/v2/engine.cpp:533-548 | on a fresh engine, exactly the windows of that initial size |
| Http2Engine.Engine.WriteSettings | source/v2/engine.cpp:348-362 | SETTINGS first, then the connection's extra grant |
| Http2Engine.Engine.OpenStream | source/v2/engine.cpp:111-133 | tracks the stream with a full window; a client's first stream is preceded by preface and SETTINGS |
| Http2Engine.Engine.SendData | source/v2/engine.cpp:190-234 | accepts as much as both windows let through, writes exactly its frames and takes it from both windows |
| Http2Engine.Engine.WriteChunks | source/v2/engine.cpp:212-225 | the do-while loop writes the specified frames |
| Http2Engine.Engine.SendGoaway | source/v2/engine.cpp:528-531 | writes one GOAWAY and changes nothing else |
| Http2Engine.Engine.NotifyConnectionWindowAvailable | include/http/v2/engine.h:116-124 | one wake-up for each writable stream, whatever order the map is iterated in |
| Http2Engine.Engine.NotifyStreamWindowAvailable | include/http/v2/engine.h:107-112 | a wake-up only if the connection window is open |
| Http2Engine.Engine.HandleFrameHeader | source/v2/engine.cpp:236-257 | acknowledges SETTINGS; an empty END_STREAM frame closes its stream |
| Http2Engine.Engine.CreditConnection | source/v2/engine.cpp:380-392 | consumption on the connection is returned at the threshold |
| Http2Engine.Engine.CreditStream | source/v2/engine.cpp:394-400 | and on the stream |
| Http2Engine.Engine.UpdateFlowControl | source/v2/engine.cpp:364-401 | windows, events and WINDOW_UPDATE frames are those of the specified step |
| Http2Engine.Engine.HandleWindowUpdate | source/v2/engine.cpp:424-460 | credit is added once; a stream or the connection that becomes writable is announced, and only then |
| Http2Engine.Engine.ApplyPeerInitialWindowSize | source/v2/engine.cpp:550-567 | every tracked window shifts by the difference and exactly those that become positive are announced |
| Http2Engine.Engine.HandleSettingsPayload | source/v2/engine.cpp:462-479 | the initial window sizes of a payload are applied one after the other |
| Http2Engine.Engine.HandleGoawayPayload | source/v2/engine.cpp:481-526 | records and reports the last stream and code; refuses a high bit |
| Http2Engine.Engine.HandleHeadersChunk | source/v2/engine.cpp:272-291 | does to the engine what the call-back relation says, which Http2Streams.StoryIsTold reads as the opening, the block and the end of its stream; the block is passed on as it came |
| Http2Engine.Engine.HandleDataChunk | source/v2/engine.cpp:263-271 | reports the chunk, accounts for it, and forgets the stream at END_STREAM |
| Http2Engine.Engine.HandlePayloadChunk | source/v2/engine.cpp:259-335 | takes a chunk whole or not at all, and does to the engine what the call-back relation says |
| Http2Engine.Engine.InputBegin | source/v2/engine.cpp:36-43 | after the preface, the buffer is full only if a frame that is taken whole is larger than it |
| Http2Engine.Engine.TryConsumeClientPreface | source/v2/engine.cpp:569-579 | accepts exactly the preface |
| Http2Engine.Engine.Start | source/v2/engine.cpp:53-77 | SETTINGS answer the preface before anything behind it is handled |
| Http2Engine.Engine.Process | source/v2/engine.cpp:81-94 | octets parsed and octets kept are the octets that were there; the engine goes through one step for each call-back |
| Http2Engine.Engine.InputEnd | source/v2/engine.cpp:45-95 | no octet is lost or handled twice, before or after the preface, however reads fall |
| Http2Engine.SameInputSameFrames | source/v2/engine.cpp:45-95 | engines that received the same octets in different reads handled the same frames and took the same DATA |
| Reassembly.HandledOnce | source/v2/engine.cpp:300-329 | every SETTINGS, GOAWAY and WINDOW_UPDATE frame is handled exactly once, in order, with its whole payload |
| Reassembly.TakenIsArrived | source/v2/engine.cpp:263-271 | the DATA taken for a stream is the concatenation of its frames' payloads |
| Reassembly.DataReachesApplication | source/v2/engine.cpp:263-271 | the DATA reported for a stream is the DATA taken for it, over any run of call-backs |
| Reassembly.StalledAfter | source/v2/engine.cpp:300-329 | a chunk is refused only of a frame that is taken whole, untouched so far, and longer than what there is |
| Reassembly.ReadsDoNotMatter | source/v2/engine.cpp:259-335 | frames, handled payloads and DATA depend on the octets alone, not on the reads |
| Http2Headers.BlocksReported | source/v2/engine.cpp:272-291 | over any run of call-backs the blocks reported are those of the HEADERS frames taken, in order, when each arrives in one piece |
| Http2Headers.HeadersReachApplication | source/v2/engine.cpp:272-291 | so when the frames carry an HPACK encoder's run, decoding the blocks reported gives exactly the header lists sent and the encoder's table |
| Http2Streams.StoryIsTold | source/v2/engine.cpp:236-335 | over any run of call-backs the application is told of each stream exactly what the frames say, in order: NewStream on a server before the first headers, and again only after DATA has ended it; blocks, data, resets, and every END_STREAM |
| Http2Streams.EndsReported | source/v2/engine.cpp:236-335 | stream_closed on a stream is reported as often as non-empty HEADERS and DATA chunks with END_STREAM on it are taken and empty such frames arrive; new_stream once for each time a server is sent HEADERS on a stream it does not know |
| Http2Streams.EndsAreFrames | source/v2/engine.cpp:236-335 | whatever the reads, an end is reported if and only if a frame with END_STREAM has come, whole or in part |
| Http2Streams.OpenedIsNotNew | source/v2/engine.cpp:111-133 | a stream this end has opened is not announced to it as new |
| Http2Streams.NoticesReported | source/v2/engine.cpp:431-526 | every GOAWAY is reported once and in order, with the last stream and the code its octets say, or as an error; and so is every zero increment |
| Http2Streams.GoawayComesBack | source/v2/frame.cpp:130-168 | a written GOAWAY is reported with its last stream, in 31 bits, and its code |
| FlowFaults.CallbackSound | source/v2/engine.cpp:236-335 | no call-back, on any input, makes an engine with an initial window of at least 32765 report a flow-control error |
| FlowFaults.InputSound | source/v2/engine.cpp:45-95 | nor does any run of them, which Http2Engine.Engine.InputEnd promises of the engine itself |
| TwoParty.SendConserves | source/v2/engine.cpp:190-234 | sending moves octets from the sender's window into flight, on any stream, one that the peer has ended included |
| TwoParty.DropConserves | source/v2/engine.cpp:424-567 | credit and SETTINGS move from flight into the sender's window |
| TwoParty.TakingConservesBack | source/v2/engine.cpp:364-401 | DATA moves from flight into the receiver's consumption and on into credit |
| TwoParty.RoomForData | source/v2/engine.cpp:371-378 | the receiver's windows cover the next chunk of what is in flight, in every balanced state |
| TwoParty.InFlightFits | source/v2/engine.cpp:371-378 | on a stream that has not ended either way, all that is in flight fits the receiver's windows at once |
| TwoParty.AlwaysBalanced | source/v2/engine.cpp:190-567 | in every state of two engines over FIFO channels, in both directions: sender's window, DATA in flight, and credit and SETTINGS on the way add up to the receiver's window; on a stream the sender has forgotten at END_STREAM they are no less than it |
| TwoParty.NoFlowControlError | source/v2/engine.cpp:371-378 | so neither engine ever reports a flow-control error, however DATA is cut on arrival: requests and responses, before and after END_STREAM |
| TwoParty.QuietMeansWritable | source/v2/engine.cpp:384-400 | when nothing is in flight more than half of each grant is free, on the connection and on every stream on which the receiver has not handled END_STREAM DATA |
| TwoParty.EndingRefills | source/v2/engine.cpp:266-269 | END_STREAM DATA refills the stream's send window; the equation survives exactly when the window was full |
| Wire.PrefixIsLinked | source/v2/frame_parser.cpp:15-90 | whatever a parser has made of a prefix of the octets written is the first frames written and the beginning of the next |
| TwoEngines.DoSimulates | source/v2/engine.cpp:190-567 | two engines joined by octets: whatever one does, and whatever its parser reports of the other's octets, in any pieces, is a step of the protocol of TwoParty or none |
| TwoEngines.AlwaysSecure | source/v2/engine.cpp:45-95 | so in every state two engines can reach their windows and the frames not yet handled conserve the grants |
| TwoEngines.NoFlowControlError | source/v2/engine.cpp:371-378 | and neither event queue ever holds a flow-control error |
| TwoEngines.AllHeardMeansWritable | source/v2/engine.cpp:384-400 | when each has handled all that the other wrote, more than half of each grant can be sent |
| LinkedEngine.ReachesBehind | source/v2/engine.cpp:236-335 | events fetched and octets handed over make no difference to what call-backs do |
| LinkedEngine.InputIsMoves | source/v2/engine.cpp:45-95 | any run of call-backs on octets the other end has written is a run of the two engines |
| LinkedEngine.SendIsMoves | source/v2/engine.cpp:190-234 | so is a call of send_data, one move for each frame |
| LinkedEngine.Hear | source/v2/engine.cpp:45-95 | so the engine class, given octets in its buffer, stands where a run of the two engines ends |
| LinkedEngine.Send | source/v2/engine.cpp:190-234 | and so after send_data |
| LinkedHeaders.ListsReachApplication | source/v2/engine.cpp:136-188 | in every state of two engines the header blocks one has reported decode to the first of the lists the other has sent, and to all of them once everything is handled |
| LinkedStreams.EndsReachApplication | source/v2/engine.cpp:236-335 | in every state of two engines an end of a stream that one reports was sent by the other, and once everything is handled every end sent is reported; GOAWAYs arrive in order, all of them once everything is handled |
| LinkedStreams.EndsAreWritten | source/v2/frame.cpp:25-76 | the frames of calls with end_stream end their stream, and no others do |
| Requests.CallbackKeepsAwake | include/http/v2/engine.h:105-124 | no input step loses the wake-up of a blocked stream |
| Requests.UpdateKeepsAwake | source/v2/engine.cpp:424-460 | a WINDOW_UPDATE that opens the second of two closed windows tells every stream it makes writable |
| Requests.SizesKeepAwake | source/v2/engine.cpp:550-567 | so does a SETTINGS payload with any number of sizes |
| Requests.UpdateWakesExactly | source/v2/engine.cpp:424-460 | a WINDOW_UPDATE tells exactly the streams it makes writable, each once |
| Requests.SizeWakesExactly | source/v2/engine.cpp:550-567 | so does a new initial window size |
| Requests.ExecuteExact | include/http/adapters/coro.h:260-307 | registering a request loses no wake-up if and only if its body is empty or its stream is tracked, about to be reported over, or tracked by the first send |
| Requests.DispatchKeepsNoneLost | include/http/adapters/coro.h:177-230 | taking an event off the queue leaves no other stream without its wake-up |
| Requests.EndsForget | include/http/adapters/coro.h:177-230 | a request is forgotten at the end or reset of its stream, and at nothing else |
| Requests.ExecuteWrites | include/http/adapters/coro.h:260-307 | executing writes the block with END_STREAM exactly if there is no body, and then the first frames of the body |
| Requests.NeverLost | include/http/adapters/coro.h:164-302 | in every reachable state of engine, queue and registry, those in the middle of draining the queue included, a registered request with unsent body and open windows has a wake-up or the end of its stream in the queue; and every request's frames deliver its body |
| Requests.PumpIsTakes | include/http/adapters/coro.h:164-172 | draining the queue is taking its events one by one, so other moves can fall in between |
| Requests.DrainedMeansBlocked | include/http/adapters/coro.h:164-172 | whenever the queue has been drained, an unfinished request is held up by a closed window |
| Requests.UntrackedIsLost | source/v2/engine.cpp:448-449 | on a stream the engine does not track, the wake-up is lost: the concrete step |
| Requests.UntrackedMissesSettings | source/v2/engine.cpp:550-567 | and so it is when a SETTINGS frame opens the windows of new streams |
| Requests.ResumeDelivers | include/http/adapters/coro.h:285-294 | resuming a body appends non-empty frames of at most 16384 octets that continue exactly where the last stopped, END_STREAM on the one that completes it and on no other |
| Requests.FramesOneByOne | source/v2/engine.cpp:190-234 | a call that writes several frames passes neither window at any of them, and takes from both what they carry |
| RequestRegistry.Registry.TrySendRemaining | include/http/adapters/coro.h:285-294 | the offset advances by what the engine accepted |
| RequestRegistry.Registry.Execute | include/http/adapters/coro.h:260-307 | registers, sends the header block, and tries the body |
| RequestRegistry.Registry.Dispatch | include/http/adapters/coro.h:177-230 | wake-ups resume, stream ends forget, anything else is ignored |
| RequestRegistry.Registry.Pump | include/http/adapters/coro.h:164-172 | drains the queue, dispatching every event once |
| Http1Feed.WholeLine | source/v1/engine.cpp:785-820 | a complete line is handled once, without its line end |
| Http1Feed.PartialLine | source/v1/engine.cpp:803-820 | an unfinished line is kept, and is an error exactly when it fills the buffer |
| Http1Feed.BodyOctets | source/v1/engine.cpp:471-513 | body octets give the same result however many are there at a time |
| Http1Feed.HeldCounts | source/v1/engine.cpp:550-553 | input held from before counts as if it came with the new input |
| Http1Engine.Engine.FindLine | source/v1/engine.cpp:785-801 | finds the first line end, or shows there is none |
| Http1Engine.Engine.TakeLine | source/v1/engine.cpp:803-820 | a line, or everything moved to the front, with an error if it fills the buffer |
| Http1Engine.Engine.Compact | source/v1/engine.cpp:772-783 | keeps exactly the unhandled octets |
| Http1Engine.Engine.ParseLine | source/v1/engine.cpp:383-539 | one line through the buffer is that line octet by octet |
| Http1Engine.Engine.ParseBody | source/v1/engine.cpp:471-513 | so are body octets |
| Http1Engine.Engine.ParseAvailable | source/v1/engine.cpp:373-556 | the buffered parser refines the octet-by-octet one |
| Http1Engine.Engine.InputEnd | source/v1/engine.cpp:41-48 | a read is its octets one at a time, over any state the buffer can be in |
| Http1Engine.Engine.ReadPiece | source/v1/engine.cpp:26-48 | octets put into the buffer and announced are those octets one at a time |
| Http1Engine.Engine.Feed | source/v1/engine.cpp:373-556 | input read in any pieces the buffer has room for is read octet by octet; what cannot be read is input behind an unanswered request or behind the end, with the buffer full |
| Http1Engine.SameInputSameEvents | source/v1/engine.cpp:373-556 | two engines in the same state that read the same input in different pieces end with the same state, events (adjacent data joined) and output |
| Http1Engine.Engine.HandleHeadersComplete | source/v1/engine.cpp:558-650 | reports the headers and chooses how the body is delimited |
| Http1Engine.Engine.ChooseResponseBody | source/v1/engine.cpp:578-613 | no body, chunked, by length, or until close, in that order |
| Http1Engine.Engine.ChooseRequestBody | source/v1/engine.cpp:614-649 | chunked, by length, or none, with 100-continue if expected |
| Http1Engine.Engine.EraseStreamOrder | source/v1/engine.cpp:760-770 | removes the first occurrence and nothing else |
| Http1Engine.Engine.FlushPending | source/v1/engine.cpp:326-351 | writes the oldest staged request, if nothing is in flight |
| Http1Engine.Engine.CompleteExchange | source/v1/engine.cpp:709-735 | closes, forgets, and ends the connection or flushes the next request |
| Http1Engine.Engine.CompleteResponse | source/v1/engine.cpp:679-707 | ends the connection, or parses the pipelined input that was held |
| Http1Engine.Engine.OpenStream | source/v1/engine.cpp:124-133 | the next identifier, at the end of the order |
| Http1Engine.Engine.SendRequestHeaders | source/v1/engine.cpp:135-155 | stages a head, once, and flushes |
| Http1Engine.Engine.SendResponseHeaders | source/v1/engine.cpp:157-180 | writes a head, once, and completes a response without body |
| Http1Engine.Engine.SendData | source/v1/engine.cpp:182-238 | accepts nothing unless the head is out and the request open; frames what it accepts as the head announced |
| Http1Engine.Engine.Eof | source/v1/engine.cpp:78-120 | completes a close-delimited body, ends an idle connection, and is an error anywhere else |
| Http1Chunked.BodyComesBack | source/v1/engine.cpp:483-539 | the chunks of any pieces are read as the joined body and one end |
| Http1Chunked.BodyEvents | source/v1/engine.cpp:652-735 | that is at most one more data event, then exactly one stream_closed |
| Http1Chunked.LongLineFails | source/v1/engine.cpp:803-820 | a line too long for the buffer is an error, whatever follows it and however it is read |
| Http1Chunked.CallsWrite | source/v1/engine.cpp:202-237 | calls of send_data on a chunked exchange put exactly their chunks on the wire, then complete the message |
| Http1Chunked.BodyIsWritten | source/v1/engine.cpp:202-237 | so the octets added to everything written so far begin with exactly those chunks; on a client that is all of them |
| Http1Chunked.InputGrows | source/v1/engine.cpp:353-361 | no input ever takes back or changes what has been written |
| Http1Chunked.ChunkedRoundTrip | source/v1/engine.cpp:202-237 | from calls on one engine, of either role, to another engine in any reads: the exact body, and one end |
| Http1Heads.HeadExact | source/v1/engine.cpp:260-290 | a written head, with lines of any length, comes back if and only if each line fits the reader's buffer; otherwise the connection ends with a protocol error |
| Http1Responses.ResponseHeadExact | source/v1/engine.cpp:292-324 | a written response head, with lines of any length, is read as that response, or passed over if it is an interim one, if and only if each line fits the reader's buffer; otherwise the connection ends with a protocol error |
| Http1Responses.StatusLineIsRead | source/v1/engine.cpp:822-859 | a status line of any version 1.x, whatever its reason, is read as its status |
| Http1Responses.OtherLinesBreak | source/v1/engine.cpp:822-859 | a status line that is too short, of another version or without a number is an error |
| Http1Responses.InterimIsSkipped | source/v1/engine.cpp:404-409 | an interim response is passed over as a whole, and the client waits as before |
| Http1Heads.RequestPartsOf | source/v1/engine.cpp:861-887 | method, target and version of a request line come apart as they were put together |
| Http1Heads.RequestLineExact | source/v1/engine.cpp:861-887 | any line whatever: a request is opened if and only if it is method, target and a version 1.x, and any other line is an error |
| Http1Heads.RequestComesBack | source/v1/engine.cpp:135-290 | from the client's calls for a chunked request to the server's events, in any reads: one new_stream, its headers, the exact body, one stream_closed |
| Http1Responses.ResponseComesBack | source/v1/engine.cpp:157-238 | from the server's calls for a chunked response to the client's events, in any reads: its headers once, the exact body, one stream_closed, and goaway behind it if the request or the response asks to close the connection |
| Http1Bodies.SizedRequestReads | source/v1/engine.cpp:614-649 | a request whose head announces its length in decimal, or that has no body, in any reads: new_stream, the headers, exactly the body, stream_closed; 100-continue if it is expected; and not an octet of what follows |
| Http1Bodies.SizedRequestComesBack | source/v1/engine.cpp:135-238 | the same from the client's calls, in any number of them, to the server's events; both ends know whether the connection is to end |
| Http1Bodies.PlainCallsWrite | source/v1/engine.cpp:216-237 | calls of send_data on a message that is not chunked put exactly their octets on the wire, then complete the message |
| Http1Bodies.PlainBodyIsWritten | source/v1/engine.cpp:216-237 | so on a client the octets added are the body, and on a server begin with it |
| Http1Bodies.NothingBehindTheEnd | source/v1/engine.cpp:184-192 | behind the end of a body a client accepts nothing more |
| Http1Bodies.SizedResponseReads | source/v1/engine.cpp:578-613 | a response of announced length, or without a body because of its request or status, in any reads: headers, exactly the body, stream_closed, and goaway if it is the last; what follows is for the next exchange |
| Http1Bodies.SizedResponseComesBack | source/v1/engine.cpp:157-238 | the same from the server's calls to the events of the client that made the request |
| Http1Bodies.CloseDelimitedReads | source/v1/engine.cpp:85-98 | a response whose head says nothing of its length goes on until the peer closes the connection, which ends both |
| Http1Bodies.CutRequestBreaks | source/v1/engine.cpp:113-118 | a request body that is cut short is a reset connection, and no end of the stream |
| Http1Bodies.CutResponseBreaks | source/v1/engine.cpp:113-118 | and so is a response body |
| Http1Bodies.EofBetween | source/v1/engine.cpp:100-118 | between messages the peer closing is goaway, unless an exchange is in flight |
| Http1Bodies.AuthorityComesBack | source/v1/engine.cpp:258-263 | method, target and authority of the client's call are the pseudo-headers the server reports, unless a Host field of the caller's takes the authority's place |
| Http1Bodies.EndIsAsked | source/v1/engine.cpp:135-155 | a client that asks to close the connection tells the server, and knows it itself |
| Http1Bodies.CloseIsAnnounced | source/v1/engine.cpp:304-308 | a response says that the connection is to close exactly if its request or its caller has asked for it |
| Http1Bodies.ClosesByVersion | source/v1/engine.cpp:571-575 | a message of version 1.0 ends the connection unless it asks to keep it alive, a later one only if it asks to close it |
| Http1Bodies.BadLengthBreaks | source/v1/engine.cpp:889-905 | a length that is not a decimal number of 64 bits is an error, and the end |
| Http1Bodies.ExtensionIsIgnored | source/v1/engine.cpp:483-500 | what follows a semicolon on a chunk-size line is passed over |
| Http1Bodies.TrailersAreIgnored | source/v1/engine.cpp:525-539 | and so are the fields behind the last chunk |
| Http1Serial.AlwaysSerial | source/v1/engine.cpp:326-351 | the client's invariant in every state reachable before its identifiers run out, however many reads and sends; the identifiers are the odd numbers in order |
| Http1Serial.ClientSerialization | source/v1/engine.cpp:78-120 | events are complete exchanges with growing identifiers, perhaps an unfinished one, and at most one goaway or error, last; the wire is grouped by stream in growing order; everything on it belongs to a complete exchange or to the one in flight |
| Http1Serial.ExchangeSerial | source/v1/engine.cpp:709-735 | completing an exchange keeps the invariant, whether it closes the connection or flushes the next request |
| Http1Serial.EofSerial | source/v1/engine.cpp:78-120 | so does the peer closing the connection, in every state |
| Http1Serving.AlwaysServing | source/v1/engine.cpp:652-735 | the server's invariant in every state reachable before its identifiers run out: one request at a time, and nothing parsed behind one that is not answered |
| Http1Serving.ServerSerialization | source/v1/engine.cpp:652-707 | events are complete requests in growing order, perhaps an unfinished one, and the end; at most one request is unanswered; the last stream a goaway will name is the last one read; the wire is grouped by request in growing order, with nothing behind the request being answered |
| Http1Serving.ResponseServing | source/v1/engine.cpp:157-180 | sending a response head keeps the invariant, also when it completes the response and held input is parsed |
| Http1Serving.EofServing | source/v1/engine.cpp:78-120 | so does the peer closing the connection, in every state |
| Http1Text.HexComesBack | source/v1/engine.cpp:207-208 | a size written in hexadecimal reads back as itself |
| Http1Text.DecimalComesBack | source/v1/engine.cpp:889-905 | a number written in decimal reads back as itself |
| Http1Text.HexOf64Bits | source/v1/engine.cpp:206-208 | a 64-bit size fits the 32-octet scratch buffer |
| Http1Text.TrimOws | source/v1/engine.cpp:907-916 | without the blanks at both ends |
| Http1Text.IEquals | source/v1/engine.cpp:918-930 | equality up to ASCII case |
| Http1Text.FindHeaderCi | source/v1/engine.cpp:932-941 | the first header of that name in any case, or nothing |
| Http1Text.LowerCase | source/v1/engine.cpp:15-23 | every octet in lower case |
| Sse.SseParser.Step | source/sse.cpp:35-122 | one octet, in any state, is the machine's step |
| Sse.SseParser.ProcessField | source/sse.cpp:125-167 | a field changes the event as the reference says, overflow of retry included |
| Sse.SseParser.Parse | source/sse.cpp:25-123 | a chunk is its octets in order, less a byte order mark at the start of the first |
| Sse.SseParser.ResetParser | source/sse.cpp:169-175 | everything is forgotten except a final carriage return |
| Sse.MachineRefinesLines | source/sse.cpp:35-122 | the machine emits the events of a reader that cuts the stream at LF, CR or CR LF and reads lines as fields |
| Sse.LinesGrow | source/sse.cpp:39-46 | an octet continues a line, ends one, or is the second half of a CR LF |
| Sse.EventsAreLines | source/sse.cpp:25-123 | the events of a stream in any chunks are those of its lines |
| Sse.BomIsWhole | source/sse.cpp:7-33 | stripping the first chunk strips the stream, if and only if the byte order mark is not cut |
| Sse.ChunksDoNotMatter | source/sse.cpp:25-123 | the chunks do not matter, unless they cut the byte order mark |
| Sse.ResetForgets | source/sse.cpp:169-175 | the carriage return that reset keeps never makes a difference |
| SseStreams.NotesComeBack | source/sse.cpp:25-167 | written notes, with any of the three line ends, in any chunks, come back as one event each: its own kind, its lines joined by line feeds, and the identifier and retry time last given; a NUL in an identifier and a time beyond 64 bits do not count |
| SseStreams.EmptyLineExact | source/sse.cpp:51-72 | an empty line behind an event is one more event exactly when an identifier is in force |

## Left out

- Integer widths of the windows: the library keeps them in 64-bit signed integers, the model in unbounded ones; `consumed_bytes` and the identifiers do wrap at 32 bits here as there.
- Exceptions: malformed HPACK input raises one in the library and is a result value here; what an exception leaves of an engine it passes through is not modelled.
- Http2Engine.Engine.HandleHeadersChunk: header events carry the block as it was received, where the library decodes it and may raise an exception, and blocks to send are arguments. `Http2Headers` decodes the blocks reported. The engine decodes each payload chunk of a HEADERS frame on its own, so nothing is claimed for HEADERS that arrive in parts.
- The constant tables are parameters of the HPACK members, shown valid once; the lazily built decoder tree is built by `HpackContexts.RfcTables`.
- RST_STREAM and END_STREAM on DATA are handled once for each payload chunk, not once for each frame, so the number of those events does depend on the reads.
- FrameParsers.FrameParser.ReadPayload: what the call-back takes is a function of all the call-backs so far, and what else it does happens when the caller goes through the log.
- FrameParsers.FrameParser.Consume: likewise; the engine handles what was reported after the parser returns rather than from inside it, and its own answers depend on header and chunk only.
- TwoParty.AlwaysBalanced: DATA is read in chunks of up to 16384 octets, the size of the input buffer; both initial window sizes are at least 65535 and set once, before the connection starts; smaller ones can legitimately be exceeded before the SETTINGS that announce them arrive. `open_stream` makes the send window full, so it is a move only for a stream that is new or whose window is full, as it is when only the peer has used the number.
- TwoEngines.AlwaysSecure: from the SETTINGS of both ends on, behind the preface, for initial window sizes as above and streams with 31-bit identifiers. Its ends keep the output and events that an engine hands over; `LinkedEngine` accounts for the difference.
- LinkedHeaders.ListsReachApplication: for HEADERS frames that reach the parser in one piece each; the engine decodes each piece on its own.
- Http1Responses.ResponseComesBack: for responses that have a body, header names without colons, lines shorter than the buffer (`Http1Responses.ResponseHeadExact` has the others), and no transfer-encoding header of the caller's.
- Http1Bodies.SizedRequestComesBack: for streams that have not been given a chunked head before, and heads as in `Http1Heads.RequestComesBack`; Http1Bodies.SizedResponseComesBack likewise, and not for status 101, which the two roles take differently.
- SseStreams.EmptyLineExact: the library looks at the last octet of the data of such an event though there is none, which its language leaves undefined; the model takes the data to stay empty.
- Http1Serving.ServerSerialization: a server that does not call `open_stream` and `send_request_headers`, which are the client's calls, and completes fewer than 2^31 - 3 responses.
- Http1Serial.ClientSerialization: a client that does not call `send_response_headers`, which is the server's call, and opens fewer than 2^31 streams.
- Http1Heads.RequestComesBack: for methods and targets without spaces, header names without colons, lines shorter than the buffer (`Http1Heads.HeadExact` has the others), and no transfer-encoding header of the caller's; reason phrases are arguments.
- `finished` of an HTTP/1.1 stream is set only on a record that is erased at once, so the model has no such field.
- Output-ready and other call-back registrations: they do not change what is written or reported.
- Coroutines, awaiters and response assembly in the request registry: a registered request is its body and how much of it has been sent.
- CONTINUATION, PING, PRIORITY, PUSH_PROMISE, padding and `send_reset`, which the engines ignore or do not implement.
- Error categories, reason phrases, URIs, context wrappers and stream handles: plumbing.
