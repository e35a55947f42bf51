# Chat room server and client: a verified model

The program is a chat service. A C++ front end ("comet") parses HTTP, upgrades connections to
WebSocket, cuts frames out of the byte stream and keeps, in memory, which user is subscribed to
which room. A second process ("logic") owns the list of rooms and puts messages and room
announcements into Kafka; a third ("job") takes them out and calls comet, which sends frames to
the connections. Between the processes travel protobuf messages. A web client keeps its state with
a reducer.

This project models the parts of that chain where correctness spans many functions or many steps,
in Dafny 4.11, and proves the properties listed below. `dafny verify dfyconfig.toml` checks all
of it.

| files | what they model |
|---|---|
| `HttpTypes`, `HttpSwitch`, `HttpRun`, `HttpExecute`, `HttpParser` | the incremental HTTP/1.x parser: one execution of its switch, the byte-wise reference run, and the class with marks, re-executed bytes and jumps that refines it |
| `HttpInvariant`, `HttpSegments`, `HttpFeeding` | its invariant and its independence of buffering |
| `HttpNumerals`, `HttpNames`, `HttpValues`, `HttpSteps`, `HttpLines`, `HttpTokens` | what it makes of lengths, header names, header values, and header lines; its character tables as literal sets |
| `HttpMessages`, `HttpRequestLine`, `HttpRequests` | heads and bodies, request lines, whole requests and requests in a row |
| `HttpResponses`, `HttpEither` | status lines, responses that last to the end of the input, and parsers of either kind of message |
| `HttpLimits`, `HttpRefusals` | the limit on heads, and which byte is refused where with which error |
| `UrlSplit` | cutting a URL into its fields |
| `UrlGrammar`, `HostGrammar`, `UrlLanguage` | the accepted URLs and authorities as a grammar of literal character classes, and the fields as its parts |
| `BigEndian`, `WebSocket`, `Base64` | frames, the reassembly loop, the handshake's base64 |
| `ProtobufWire`, `Utf8`, `PushCodec`, `RoomReqCodec`, `BroadcastReqCodec` | varints, tagged fields, UTF-8, and the messages `PushMsg`, `Proto`, `BroadcastRoomReq`, `BroadcastReq` |
| `Transport` | a message or an announcement from logic through Kafka and job to comet and a frame |
| `PubSub`, `Comet` | topics, subscribers, room list, the comet handlers and the job's client as classes |
| `ChatProtocol`, `ChatHistory`, `ChatDelivery`, `ChatOrder`, `ChatRetries` | the protocol of logic, Kafka, job and comet as steps at lock granularity, and its invariants over all runs |
| `Reducer`, `ReducerHistory` | the client's reducer, and its state as a function of the actions so far |

How the model reads the source:

- A parser call is a class method over a mutable record; what it must compute is `HttpRun.Exec`,
  which knows neither buffers nor marks. Callbacks are recorded as events; adjacent pieces of one
  data callback are merged, so that a log does not show where buffers ended. `on_headers_complete`
  may answer 1 (no body); the other callbacks answer 0. An internal `assert` that fails would set
  the model's error `Assertion`, which is proved never to happen.
- Integers are unbounded in Dafny. Where the C++ type matters it is written out: 64-bit content
  lengths and frame lengths wrap, header indices wrap at 8 bits, URL offsets at 16 bits.
- Bytes of HTTP text are characters; bytes of frames and protobuf messages are `bv8`.
- The protobuf runtime is not in the repository. Varints, tags and length-delimited fields follow
  the public encoding specification; a parse that stops at a zero tag or an end-group tag counts as
  failed, because it does not end at the limit of its message. UTF-8 is that of RFC 3629.
- In the protocol, whatever the environment decides (who connects when, which call fails and whether
  it reached comet, in which order a hash set is walked) is a parameter of the event. A failed call may still be
  running while it is retried. Logic is taken to list a room before it sends the announcement to
  Kafka, and the lookup of room history in the hello is taken to succeed.
- In the reducer, the clock, the random id and the enumeration order of `Object.values` are parameters of
  the action; `Array.prototype.sort` is a stable sort.

Where the code does not do what its users would expect, the model keeps the code and states exactly when it does:

- The overflow test for `Content-Length` and chunk sizes misses some values: 50000000000000000000 is
  accepted as 13106511852580896768. A numeral is read correctly if and only if its value is below 2^64 - 1
  (`HttpNumerals.OverflowAccepted`, `HttpNumerals.ParsedExact`).
- The frame length in `OnRead` is a 64-bit sum that can wrap. A cut frame fits its header if and only if
  the sum stays below 2^64, and the loop stops making progress if and only if it is exactly 2^64
  (`WebSocket.CutFits`, `WebSocket.StuckGuard`, `WebSocket.StuckExample`).
- A protobuf message with a string that is not UTF-8 is serialized but not parsed back; the round trip
  holds if and only if all strings are UTF-8 (`PushCodec.RoundTrip`, `RoomReqCodec.RoundTrip`, and `NotUtf8Example` in both).
- Header names are matched after `| 0x20`, which also turns CR into `-`. A name that spells one the framing depends on is a
  token, and so accepted, if and only if it has no CR in it (`HttpTokens.FramingNamesAreNames`, `HttpTokens.CrSpelling`).
- A room of the client stays sorted under a batch if and only if the batch is nowhere older (live) or newer (history) than what
  the room holds (`Reducer.OrderKept`, `Reducer.LateExample`).

## Model

| member | source | states |
|---|---|---|
| `HttpParsing.HttpParser.Execute` | server/application/chat-room/service/http_parser.cc:605-2098 | for every buffer and every reachable parser: fields, returned count and merged callbacks are those of the byte-wise reference, which has no marks and no jumps; on an error at most the string being collected is missing; the invariant is kept |
| `HttpParsing.HttpParser.ExecuteBytes` | server/application/chat-room/service/http_parser.cc:668-2098 | the loop over a non-empty buffer, with marks, flushed at the end where at most one mark is live |
| `HttpParsing.HttpParser.DispatchByte` | server/application/chat-room/service/http_parser.cc:683-2066 | one byte with `goto reexecute_byte` and the `p += to_read - 1` jumps; it terminates because the rank of the state falls at every jump back and the position only grows |
| `HttpParsing.HttpParser.ExecuteEof` | server/application/chat-room/service/http_parser.cc:624-645 | a call without bytes completes a body that lasts to the end, is accepted between messages, and is an error elsewhere |
| `HttpSwitch.Switch` | server/application/chat-room/service/http_parser.cc:684-2066 | every jump back lowers the rank of the state, never skips the whole buffer, and marks and callbacks fit the states left and entered |
| `UrlSplit.Forward` | server/application/chat-room/service/http_parser.cc:435-603 | URL states only move forward, and a byte that belongs to no field is a delimiter |
| `HttpExecute.TurnRefines` | server/application/chat-room/service/http_parser.cc:668-714 | one turn of the marked loop is one turn of the reference, seen through the marks; a jump over n body bytes is n single bytes |
| `HttpExecute.BodyJump` | server/application/chat-room/service/http_parser.cc:1887-1922 | consuming min(content_length, available) bytes at once leaves fields and merged body as consuming them one by one |
| `HttpExecute.AtMostOneMark` | server/application/chat-room/service/http_parser.cc:2079-2082 | at most one mark is live |
| `HttpInvariant.SwitchKeepsGood` | server/application/chat-room/service/http_parser.cc:684-2066 | the invariant over state, header state, flags, nread, index and content length is kept by every case, and no internal assertion fails |
| `HttpInvariant.ExecKeepsGood` | server/application/chat-room/service/http_parser.cc:605-2098 | from a good parser no input reaches any of the internal assertions, whatever the input |
| `HttpSegments.SegmentationInvariance` | server/application/chat-room/service/http_parser.cc:605-2098 | of the byte-wise reference: every cutting of an input into non-empty buffers ends with the fields, log, total count and stop of one call on the whole |
| `HttpSegments.SegmentationsAgree` | server/application/chat-room/service/http_parser.cc:605-2098 | of the reference: two cuttings of one input cannot be told apart |
| `HttpFeeding.FeedPieces` | server/application/chat-room/service/http_parser.cc:605-2098 | of the parser itself: feeding it an input in any non-empty pieces leaves the fields, the total count and, without an error, the merged callbacks of one call on the whole; after an error at most the string being collected is missing |
| `HttpSegments.RunUpgrade` | server/application/chat-room/service/http_parser.cc:1830-1847 | a run leaves early if and only if it sets `upgrade` |
| `HttpNumerals.ParsedExact` | server/application/chat-room/service/http_parser.cc:1660-1686 | the accumulated number is the denoted one if and only if that is below 2^64 - 1 |
| `HttpNumerals.OverflowAccepted` | server/application/chat-room/service/http_parser.cc:1676-1681 | a concrete 20-digit length that wraps and is accepted |
| `HttpNames.HeaderNamesExact` | server/application/chat-room/service/http_parser.cc:1376-1524 | the character-wise matcher takes a name for Content-Length, Transfer-Encoding, Upgrade or Connection if and only if it spells it, in any case |
| `HttpNames.NameRun` | server/application/chat-room/service/http_parser.cc:1350-1549 | reading a header name delivers exactly that name and leaves the matcher where the fold over it says (which characters a name may have is stated by `HttpTokens.NameAcceptedExactly`) |
| `HttpTokens.TokensExact` | server/application/chat-room/service/http_parser.cc:153-186 | a character may stand in a header name if and only if it is visible ASCII and none of the 17 separators of RFC 2616, section 2.2 |
| `HttpTokens.NameAcceptedExactly` | server/application/chat-room/service/http_parser.cc:1350-1549 | the text in front of the colon of a line is delivered if all of it is such characters, and otherwise refused as an invalid token at the first that is not |
| `HttpTokens.BadNameStops` | server/application/chat-room/service/http_parser.cc:1366-1371 | a character that is no token stops the parser at any place of a name, also at its first; only a colon or a line end may follow a name |
| `HttpTokens.FramingNamesAreNames` | server/application/chat-room/service/http_parser.cc:370 | in any mixture of cases, the names the framing depends on are header names, if and only if no CR stands in them |
| `HttpTokens.CrSpelling` | server/application/chat-room/service/http_parser.cc:370 | a spelling with CR for `-` that is no header name |
| `HttpTokens.LowerExact` | server/application/chat-room/service/http_parser.cc:370 | folding takes a letter to itself and its capital only, `-` to itself and CR, a digit to itself and one control character |
| `HttpTokens.DigitClasses` | server/application/chat-room/service/http_parser.cc:187-195 | the digits of both bases are the listed ones, and only they (and bytes from 0x80 on) have a value |
| `HttpTokens.DigitsListed` | server/application/chat-room/service/http_parser.cc:187-195 | each digit counts its place in the list, in either case |
| `HttpTokens.MethodsListed` | server/application/chat-room/service/http_parser.h:79-110 | the names of the methods |
| `HttpTokens.NameOnlyLine` | server/application/chat-room/service/http_parser.cc:1525-1549 | a name with a line end and no colon is delivered without a value and leaves the framing alone |
| `HttpTokens.ContinuationLine` | server/application/chat-room/service/http_parser.cc:1766-1776 | a line that begins with a blank continues the value: it is delivered behind it and acts by the header state the line before has left |
| `HttpValues.ValueRun` | server/application/chat-room/service/http_parser.cc:1551-1740 | a value is delivered as it stands and folded by the value states, or stops the parser |
| `HttpValues.ValueExact` | server/application/chat-room/service/http_parser.cc:1573-1763 | a value sets chunked, keep-alive or close exactly when it spells that word (any case, blanks behind it), a length exactly when it consists of digits and blanks and is not rejected, and nothing else of the message changes |
| `HttpLines.LineRun` | server/application/chat-room/service/http_parser.cc:1350-1775 | every header line, whatever its name (of the characters `HttpTokens.TokensExact` lists), value, blanks and line end: name and value are delivered and the framing changes exactly as the line says; a rejected line stops the parser |
| `HttpLines.LinesRun` | server/application/chat-room/service/http_parser.cc:1350-1775 | the same for any list of lines |
| `HttpMessages.HeadRun` | server/application/chat-room/service/http_parser.cc:1350-1885 | every head, of any lines: all are delivered in order, then the framing they determine takes effect on the last byte |
| `HttpMessages.LinesAnnounce` | server/application/chat-room/service/http_parser.cc:1551-1763 | a head is accepted if and only if all its lengths are, chunked if and only if a line says so, an upgrade if and only if a line says so |
| `HttpMessages.LinesConnect` | server/application/chat-room/service/http_parser.cc:1742-1763 | a head asks for keep-alive, or for close, if and only if a Connection or Proxy-Connection line spells that word |
| `HttpMessages.LengthAnnounced` | server/application/chat-room/service/http_parser.cc:1597-1686 | the last Content-Length of a head, anywhere in it, is read as the number it denotes if and only if that is below 2^64 - 1 |
| `HttpMessages.ContentLengthMessage` | server/application/chat-room/service/http_parser.cc:1854-1933 | for every head that announces N and is neither chunked nor an upgrade, whatever its other lines: exactly the N bytes after it reach the body callback, and the message completes on the last of them |
| `HttpMessages.ContentLengthPartial` | server/application/chat-room/service/http_parser.cc:1887-1922 | and not earlier: after a proper part, the parser waits for exactly the rest |
| `HttpMessages.BodilessRequest` | server/application/chat-room/service/http_parser.cc:1854-1884 | a request that announces no body completes with its head |
| `HttpMessages.UpgradeMessage` | server/application/chat-room/service/http_parser.cc:1830-1847 | a message with an Upgrade line, or CONNECT, completes with its head and hands back everything behind it |
| `HttpMessages.ChunkedRoundTrip` | server/application/chat-room/service/http_parser.cc:1935-2060 | for every chunked head, every list of chunks with any hexadecimal spelling of their sizes and any extensions, and every trailer: the body callbacks deliver the joined data and exactly one message-complete follows, on the last byte |
| `HttpMessages.CanonicalChunk` | server/application/chat-room/service/http_parser.cc:1952-1991 | sizes below 2^64 - 1 written in plain hexadecimal are such spellings |
| `HttpRequestLine.MethodsExact` | server/application/chat-room/service/http_parser.cc:935-1137 | despite prefixes that methods share, the matcher ends in a method if and only if exactly its name was read |
| `HttpRequestLine.RequestLineRun` | server/application/chat-room/service/http_parser.cc:935-1348 | every request line (CONNECT, any version or none, any number of blanks, line ends in front, CR LF or LF, any URL of the grammar in `UrlLanguage.RequestUrlExact`) delivers its URL once and leaves method and version set, at the first header line |
| `UrlLanguage.RequestUrlExact` | server/application/chat-room/service/http_parser.cc:1139-1215 | a request line takes a URL if and only if it is one of the grammar that reaches beyond `://`, to an authority, a path or a query |
| `HttpRequests.RequestRoundTrip` | server/application/chat-room/service/http_parser.cc:605-2098 | a whole request from a waiting parser, with any header lines and the body they announce (none, sized or chunked): its events, in order, and nothing else; then the parser waits for a request if the connection stays, and is dead if it does not |
| `HttpRequests.StaysOpenExact` | server/application/chat-room/service/http_parser.cc:2125-2145 | the connection stays if and only if the version is 1.1 or higher and no line says close, or it is older and a line says keep-alive; trailer lines count |
| `HttpLimits.DeadRejects` | server/application/chat-room/service/http_parser.cc:687-695 | after the last message of a connection any byte but a line end is refused |
| `HttpLimits.LongHeadRejected` | server/application/chat-room/service/http_parser.cc:672-682 | any text of more than 81920 bytes without an empty line, from the start of a message or of a line on, is rejected |
| `HttpLimits.TextRun` | server/application/chat-room/service/http_parser.cc:672-682 | within the limit every byte of such a text is counted and nothing resets the count |
| `HttpLimits.OverflowStops` | server/application/chat-room/service/http_parser.cc:672-682 | the byte behind the 81920th of a head is refused as an overflow |
| `HttpRefusals.RefusedExactly` | server/application/chat-room/service/http_parser.cc:684-2066 | for every good parser and every byte: the byte is refused, and with which error, exactly as a table by state says |
| `HttpResponses.StatusLineRun` | server/application/chat-room/service/http_parser.cc:741-933 | every status line sets version and code to the numbers written, reports the completed status only behind CR LF, and leads to the first header line; also for a parser of either kind |
| `HttpResponses.BodilessResponse` | server/application/chat-room/service/http_parser.cc:2101-2123 | a response with a code 1xx, 204 or 304 and neither length nor chunks completes with its head |
| `HttpResponses.ResponseUntilEof` | server/application/chat-room/service/http_parser.cc:1868-1928 | any other response with neither delivers everything up to the end of the input as its body, and the end completes it |
| `HttpResponses.UnframedResponse` | server/application/chat-room/service/http_parser.cc:605-2098 | the same from a new parser, status line included |
| `HttpResponses.NoBodyAnswered` | server/application/chat-room/service/http_parser.cc:1797-1850 | when on_headers_complete answers 1 the message completes with its empty line, whatever its lines announced |
| `HttpEither.EitherReadsRequest` | server/application/chat-room/service/http_parser.cc:697-739 | a parser of either kind reads what does not begin as a response exactly as a parser of requests does |
| `HttpEither.EitherRoundTrip` | server/application/chat-room/service/http_parser.cc:605-2098 | so the round trip of requests holds for it too |
| `HttpRequests.ContentLengthRequest` | server/application/chat-room/service/http_parser.cc:1854-1933 | from a new parser and under every segmentation: a Content-Length line with any lines before and after it frames exactly its N bytes |
| `HttpRequests.ChunkedRequest` | server/application/chat-room/service/http_parser.cc:1935-2060 | from a new parser and under every segmentation: a request whose head contains a chunked coding line anywhere delivers the joined chunks and completes once |
| `HttpRequests.UpgradeStops` | server/application/chat-room/service/http_parser.cc:1778-1847 | an upgrade request stops the parser behind its head, whatever follows |
| `HttpRequests.PipelinedRequests` | server/application/chat-room/service/http_parser.cc:605-2098 | persistent requests in a row are each delivered as if alone, in order, and the parser waits for the next |
| `HttpRequests.PipelinedSegmented` | server/application/chat-room/service/http_parser.cc:605-2098 | the same from a new connection under every segmentation |
| `UrlSplit.SplitFields` | server/application/chat-room/service/http_parser.cc:2335-2406 | the first pass fails if and only if the URL is malformed; otherwise its fields tile the buffer and each shows exactly the bytes the machine assigns to it (both without the machine in `UrlGrammar`) |
| `UrlGrammar.ClassesExact` | server/application/chat-room/service/http_parser.cc:370-385 | the tables of the URL machine as literal sets |
| `UrlGrammar.UrlsExact` | server/application/chat-room/service/http_parser.cc:435-603 | the machine accepts a text if and only if it is written from scheme, `://`, authority, path, query and fragment of literal character classes that stand together as the grammar says |
| `UrlGrammar.WrittenIsAccepted` | server/application/chat-room/service/http_parser.cc:435-603 | of such a text the bytes assigned to each field are its part of that name, and an `@` is met exactly when the authority has one |
| `UrlGrammar.AcceptedIsWritten` | server/application/chat-room/service/http_parser.cc:435-603 | the converse: the parts of an accepted text |
| `UrlSplit.ParseHost` | server/application/chat-room/service/http_parser.cc:2253-2333 | the second pass fails if and only if the authority is malformed; otherwise userinfo, host and port tile it |
| `HostGrammar.HostClassesExact` | server/application/chat-room/service/http_parser.cc:374-385 | the classes of host names, addresses and ports as literal sets |
| `HostGrammar.AuthoritiesExact` | server/application/chat-room/service/http_parser.cc:2176-2251 | an authority is accepted if and only if it is written from userinfo and `@`, a host name or a bracketed address, and a port behind a colon |
| `HostGrammar.WrittenHostIsAccepted` | server/application/chat-room/service/http_parser.cc:2253-2333 | its fields are those parts |
| `UrlSplit.ParseUrl` | server/application/chat-room/service/http_parser.cc:2335-2439 | up to 65535 bytes: success if and only if the URL is acceptable (without the machines: `UrlLanguage.AcceptableExact`); fields inside, disjoint, in order; uncovered bytes are delimiters; every field covers exactly its text; the port is the number it denotes |
| `UrlLanguage.AcceptableExact` | server/application/chat-room/service/http_parser.cc:2335-2439 | a URL is acceptable if and only if it is one of the grammar, with neither scheme nor authority or with a complete authority, a port up to 65535, and for CONNECT a host, a port and no other field |
| `UrlLanguage.FieldsAreParts` | server/application/chat-room/service/http_parser.cc:2335-2439 | the text of every field is the part of that name |
| `UrlLanguage.RelativeUrl` | server/application/chat-room/service/http_parser.cc:529-603 | every path that begins with `/` or `*`, with or without query and fragment, is acceptable and has these fields |
| `UrlLanguage.AbsoluteUrl` | server/application/chat-room/service/http_parser.cc:454-603 | every scheme and authority in front of a path, query and fragment, each or none, is acceptable and has these fields |
| `UrlLanguage.ConnectUrl` | server/application/chat-room/service/http_parser.cc:2413-2422 | every host and port is an acceptable CONNECT target |
| `WebSocket.BuildFrame` | server/application/chat-room/service/websocket_conn.cc:45-69 | the bytes pushed are the header with its big-endian length, then the payload |
| `WebSocket.BuiltIsShortest` | server/application/chat-room/service/websocket_conn.cc:45-69 | what is built is a frame of RFC 6455 (sections 5.2 and 5.3), and no frame for that payload is shorter |
| `WebSocket.ParseFrame` | server/application/chat-room/service/websocket_conn.cc:72-121 | header, key and payload, unmasked in place; nothing when a read would leave the data |
| `WebSocket.ParseBuilt` | server/application/chat-room/service/websocket_conn.cc:45-121 | parse(build(p, op)) gives fin, the low four bits of op, no mask, the length and p |
| `WebSocket.ParseEncoded` | server/application/chat-room/service/websocket_conn.cc:72-121 | a frame in any length form, masked with any key or not, parses back to its plain payload |
| `WebSocket.FrameTotal` | server/application/chat-room/service/websocket_conn.cc:261-294 | the scanner's total is header plus payload modulo 2^64, or a request for more bytes |
| `WebSocket.WebSocketConn.OnRead` | server/application/chat-room/service/websocket_conn.cc:250-366 | the strings submitted and the bytes left are those of the reference splitter |
| `WebSocket.ReadsAreSplit` | server/application/chat-room/service/websocket_conn.cc:250-366 | any run of calls does what one call on all the bytes does |
| `WebSocket.ReadAll` | server/application/chat-room/service/websocket_conn.cc:250-366 | a connection handed its bytes in pieces submits what that run submits, and stops where the loop would not end |
| `WebSocket.Reassembly` | server/application/chat-room/service/websocket_conn.cc:250-366 | for every list of frames with a clear top length bit, every beginning of a further frame and every segmentation: exactly those frames, in order, and exactly that beginning left |
| `WebSocket.CutFits` | server/application/chat-room/service/websocket_conn.cc:286-307 | a cut frame lies within the parser's bounds, offset plus payload length equal to its length, if and only if header and payload stay below 2^64; then at least two bytes go |
| `WebSocket.EveryCutFits` | server/application/chat-room/service/websocket_conn.cc:296-310 | every cut frame the parser can read has exactly the payload it announces |
| `WebSocket.TopBitClear` | server/application/chat-room/service/websocket_conn.cc:276-290 | a clear top bit of the length is enough for that |
| `WebSocket.StuckGuard` | server/application/chat-room/service/websocket_conn.cc:286-303 | at the head of the loop no byte is removed if and only if the header in the buffer announces 2^64 bytes in all |
| `WebSocket.StuckExactly` | server/application/chat-room/service/websocket_conn.cc:254-303 | the loop stops making progress if and only if header and payload of the next frame add up to 2^64 |
| `WebSocket.StuckExample` | server/application/chat-room/service/websocket_conn.cc:286-303 | ten bytes that do so |
| `Base64.EncodeVector` | server/application/chat-room/base/base64.cpp:22-63 | the loop with the shared counter computes the reference encoding |
| `Base64.EncodePointer` | server/application/chat-room/base/base64.cpp:65-106 | so does the other overload, also for sizes that are not positive |
| `Base64.RoundTrip` | server/application/chat-room/base/base64.cpp:22-106 | a strict decoder of section 4 of RFC 4648 recovers every byte string |
| `Base64.DecodeExact` | server/application/chat-room/base/base64.cpp:22-106 | and accepts nothing but encodings |
| `Base64.EncodedLength` | server/application/chat-room/base/base64.cpp:22-106 | length 4 * ceil(n / 3), ending in as many pads as the last group lacks |
| `ProtobufWire.ParseFields` | server/application/chat-room/rpc/ChatRoom.Job.pb.cc:229-325 | the tag loop over printed fields takes them one by one and goes on behind them |
| `ProtobufWire.ParseConcat` | server/application/chat-room/rpc/ChatRoom.Job.pb.cc:229-325 | parsing a concatenation continues with the message the first part left, for all bytes that parse |
| `Utf8.Utf8Exact` | server/application/chat-room/rpc/ChatRoom.Job.pb.cc:271-280 | the strings that pass the UTF-8 check are exactly the encodings, by section 3 of RFC 3629, of sequences of Unicode scalar values |
| `PushCodec.PushMsg.InternalParse` | server/application/chat-room/rpc/ChatRoom.Job.pb.cc:229-325 | the loop with its switch on tags, unknown fields kept, merges what one turn per tag merges |
| `PushCodec.PushMsg.ParseKeys` | server/application/chat-room/rpc/ChatRoom.Job.pb.cc:281-294 | the do-while over repeated keys equals one loop turn per tag |
| `PushCodec.PushMsg.InternalSerialize` | server/application/chat-room/rpc/ChatRoom.Job.pb.cc:327-394 | fields in number order, defaults left out, unknown fields last |
| `PushCodec.PushMsg.ByteSizeLong` | server/application/chat-room/rpc/ChatRoom.Job.pb.cc:396-455 | exactly the serialized length |
| `PushCodec.PushMsg.MergeFrom` | server/application/chat-room/rpc/ChatRoom.Job.pb.cc:463-489 | keys and unknown fields append, other fields override unless default |
| `PushCodec.MergeLaw` | server/application/chat-room/rpc/ChatRoom.Job.pb.cc:229-489 | parsing serialize(a) followed by serialize(b) is merging b into a |
| `PushCodec.RoundTrip` | server/application/chat-room/rpc/ChatRoom.Job.pb.cc:229-394 | parse(serialize(m)) is m if and only if all strings are UTF-8, and a failure otherwise; negative int32 included |
| `PushCodec.NotUtf8Example` | server/application/chat-room/rpc/ChatRoom.Job.pb.cc:271-280 | a room name of one byte 0xFF is serialized and not parsed back |
| `ProtoCodec.Proto.InternalParse` | server/application/chat-room/rpc/ChatRoom.Protocol.pb.cc:161-221 | as for PushMsg |
| `ProtoCodec.Proto.InternalSerialize` | server/application/chat-room/rpc/ChatRoom.Protocol.pb.cc:223-259 | as for PushMsg |
| `ProtoCodec.Proto.ByteSizeLong` | server/application/chat-room/rpc/ChatRoom.Protocol.pb.cc:261-292 | exactly the serialized length |
| `ProtoCodec.Proto.MergeFrom` | server/application/chat-room/rpc/ChatRoom.Protocol.pb.cc:307-326 | non-default fields override |
| `ProtoCodec.ProtoLaws` | server/application/chat-room/rpc/ChatRoom.Protocol.pb.cc:161-326 | round trip and merge law |
| `RoomReqCodec.BroadcastRoomReq.InternalParse` | server/application/chat-room/rpc/ChatRoom.Comet.pb.cc:993-1040 | the nested message is parsed in place on top of what it holds |
| `RoomReqCodec.BroadcastRoomReq.InternalSerialize` | server/application/chat-room/rpc/ChatRoom.Comet.pb.cc:1042-1072 | room id, then the nested message if present, with its length |
| `RoomReqCodec.BroadcastRoomReq.ByteSizeLong` | server/application/chat-room/rpc/ChatRoom.Comet.pb.cc:1074-1097 | exactly the serialized length |
| `RoomReqCodec.BroadcastRoomReq.MergeFrom` | server/application/chat-room/rpc/ChatRoom.Comet.pb.cc:1112-1125 | the nested messages are merged field by field |
| `RoomReqCodec.MergeLaw` | server/application/chat-room/rpc/ChatRoom.Comet.pb.cc:993-1125 | the merge law, recursively |
| `RoomReqCodec.RoundTrip` | server/application/chat-room/rpc/ChatRoom.Comet.pb.cc:993-1097 | round trip, an absent nested message kept apart from an empty one |
| `RoomReqCodec.NotUtf8Example` | server/application/chat-room/rpc/ChatRoom.Comet.pb.cc:1000-1009 | a room id of one byte 0xFF is serialized and not parsed back |
| `BroadcastReqCodec.BroadcastReq.InternalParse` | server/application/chat-room/rpc/ChatRoom.Comet.pb.cc:686-740 | as for PushMsg; the nested message is parsed in place on top of what it holds |
| `BroadcastReqCodec.BroadcastReq.InternalSerialize` | server/application/chat-room/rpc/ChatRoom.Comet.pb.cc:742-774 | operation, nested message, speed, unknown fields; defaults left out |
| `BroadcastReqCodec.BroadcastReq.ByteSizeLong` | server/application/chat-room/rpc/ChatRoom.Comet.pb.cc:776-802 | exactly the serialized length |
| `BroadcastReqCodec.BroadcastReq.MergeFrom` | server/application/chat-room/rpc/ChatRoom.Comet.pb.cc:817-833 | the nested messages are merged, other fields override unless default |
| `BroadcastReqCodec.AllReqLaws` | server/application/chat-room/rpc/ChatRoom.Comet.pb.cc:686-833 | round trip and merge law, nested messages included |
| `Transport.HandleRecord` | server/application/job/main.cc:186-224 | the consumer's routing by type, from the bytes of a record (field by field in `Transport.RoutingByType`); nothing for empty, unparsable or unknown records |
| `Transport.RoutingByType` | server/application/job/main.cc:28-125 | of every record that is read: type 2 goes to all as version 1, operation 5, sequence number 0 with its text; types 0 and 1 to the record's room as version 1, operation 4; any other nowhere |
| `Transport.RecordsSay` | server/application/logic/main.cc:431-509 | a message is published with type 0, operation 4, its room and its text; an announcement with type 2, operation 5 and the room "global" |
| `Transport.RoutingKeepsContents` | server/application/logic/main.cc:431-526 | whatever logic publishes, the job's call carries version 1, sequence number 0 and the text: operation 4 and the same room for a message, operation 5 to all for an announcement |
| `Transport.MessageArrives` | server/application/job/main.cc:33-42 | end to end: published, consumed, routed, sent to comet and framed, a text arrives unchanged at the frame parser |
| `Transport.AnnouncementArrives` | server/application/chat-room/rpc/comet_service.cc:34-44 | end to end: an announcement published, consumed, routed and sent reaches comet as the operation on which it opens a room, with its text unchanged, and the frame sent carries that text |
| `Topics.PubSubService.AddRoomTopic` | server/application/chat-room/service/pub_sub_service.h:51-64 | a topic is created once and never replaced |
| `Topics.PubSubService.AddSubscriber` | server/application/chat-room/service/pub_sub_service.h:78-88 | one user joins one topic; no other topic changes |
| `Topics.PubSubService.Snapshot` | server/application/chat-room/service/pub_sub_service.h:100-111 | a copy of the subscribers, none without a topic |
| `Topics.PubSubService.AddRoom` | server/application/chat-room/service/pub_sub_service.cc:40-52 | the scan decides exactly whether the id is listed; a new room goes to the end |
| `Topics.RoomListed` | server/application/chat-room/service/pub_sub_service.cc:40-52 | ids stay distinct and the list only grows at its end |
| `Comet.CometService.Broadcast` | server/application/chat-room/rpc/comet_service.cc:28-121 | topic, subscription of everyone online, room list, one frame for each user online |
| `Comet.CometService.BroadcastRoom` | server/application/chat-room/rpc/comet_service.cc:123-167 | one frame for each subscriber who is online, on that user's connection, and no other |
| `Comet.CometClient.CallWithRetries` | server/application/job/main.cc:28-125 | at most three attempts, stopping at the first success, a new connection for each lost one |
| `Comet.UninterruptedBroadcast` | server/application/chat-room/rpc/comet_service.cc:44-118 | the protocol steps of one announcement, run without interference, do what the method does |
| `Comet.UninterruptedRoom` | server/application/chat-room/rpc/comet_service.cc:123-167 | the protocol steps of one room message, run without interference, send what the method sends |
| `Comet.UninterruptedHello` | server/application/chat-room/service/websocket_conn.cc:223-243 | a connection whose steps run without interference ends welcome: online, subscribed to every room of logic's list that has a topic, and nothing else has changed |
| `Comet.RetriesTakeOneEntry` | server/application/job/main.cc:28-125 | the retry loop with the attempts it made takes the protocol's job from one entry to the next |
| `ChatHistory.KafkaIsPublished` | server/application/logic/main.cc:431-526 | in every run Kafka receives, in order, exactly the message for its room and with its text for each message sent, and each announcement published |
| `ChatHistory.CreatedExact` | server/application/logic/main.cc:745-775 | in every run logic's list is the rooms created, and what waits for Kafka was created and neither published nor lost since |
| `ChatHistory.AnnouncedWasCreated` | server/application/logic/main.cc:753-775 | in every run what is announced is a room created before, with that text |
| `ChatHistory.AnnouncedAtMostOnce` | server/application/logic/main.cc:753-775 | no room is announced more often than it was created |
| `ChatHistory.OnlineExact` | server/application/chat-room/service/websocket_conn.cc:223-570 | in every run the connection map holds exactly the users who registered and of whom no connection has closed since, each with its last connection |
| `ChatHistory.TopicsFromAnnouncements` | server/application/chat-room/rpc/comet_service.cc:62-82 | in every run a topic that was not there at start-up, and every entry of the room list, has id, name and creator of one room announced in Kafka |
| `ChatHistory.SubscribersRegistered` | server/application/chat-room/service/pub_sub_service.h:78-88 | in every run whoever is subscribed was so at start-up or has registered |
| `ChatInvariants.InvAlways` | server/application/chat-room/rpc/comet_service.cc:44-118 | the inductive invariant of the protocol holds in every reachable state |
| `ChatInvariants.NoMissedSubscription` | server/application/chat-room/service/websocket_conn.cc:223-243 | in every interleaving: a user whose registered connection has finished its hello is subscribed to every start-up room and every room whose subscription loop has finished |
| `ChatInvariants.RoomListAlways` | server/application/chat-room/service/pub_sub_service.cc:40-52 | in every reachable state the ids of the room list are distinct and each has a topic |
| `ChatInvariants.RunIsLater` | server/application/chat-room/service/pub_sub_service.h:51-88 | no run takes back a topic, its creator, a subscription or a listed room |
| `ChatInvariants.RedeliveriesAreHarmless` | server/application/job/main.cc:77-125 | in every run in which no room is announced for the first time (failures, retries and their new handlers, messages, connections and new rooms in logic included): topic keys, names, creators and the room list stay, subscribers only grow |
| `ChatInvariants.DeliveredIsKnown` | server/application/chat-room/rpc/comet_service.cc:62-82 | a delivery that got past the room list has made every further one such a repeat |
| `ChatDelivery.RoomIsolation` | server/application/chat-room/rpc/comet_service.cc:123-167 | in every run a frame for a room goes only to a connection of a user who was subscribed at that call's snapshot, carries that message, and no call sends to a user twice |
| `ChatDelivery.AtMostThreeTimes` | server/application/job/main.cc:28-75 | whatever fails, a user gets a message at most once per attempt, and there are three attempts |
| `ChatOrder.ExactlyOnceInOrder` | server/application/job/main.cc:184-227 | without a failed call, a user registered throughout and subscribed to some rooms receives their messages, and all announcements, exactly once each in Kafka order; Kafka holds what was sent; with the job caught up at both ends, what was received is the list of texts sent to those rooms and announced in between, read off the events |
| `ChatOrder.WelcomeReceivesAll` | server/application/chat-room/service/websocket_conn.cc:416-440 | without a failed call, from the end of its hello on a user who stays registered receives everything for every start-up room and every room whose loop had finished, exactly once each in Kafka order, and with the job caught up exactly the texts sent and announced since |
| `ChatRetries.AtLeastOnce` | server/application/job/main.cc:28-125 | with failures, as long as the job gives up on no entry, such a user receives everything at least once |
| `ChatRetries.SentArrives` | server/application/job/main.cc:28-125 | from the sender on: a message sent to one of its rooms arrives at such a user with its text once the job has worked through Kafka |
| `StableSort.SortIsStable` | client/web/pages/chat.tsx:125-127 | sorted, the same items, equal keys in their old order |
| `Reducer.DoSetInitialState` | client/web/pages/chat.tsx:129-161 | the loops install the last room of each id, sorted, and the users as first seen |
| `Reducer.Conservation` | client/web/pages/chat.tsx:163-291 | after every run of actions a room holds exactly its history batches, its installed list and its live batches since it was last installed |
| `Reducer.ByTimeKeeps` | client/web/pages/chat.tsx:119-127 | sorting a batch loses and duplicates nothing |
| `Reducer.ByTimeIsStable` | client/web/pages/chat.tsx:119-127 | messages with one timestamp stay in the order in which they came |
| `Reducer.OrderKept` | client/web/pages/chat.tsx:163-291 | an action keeps all rooms sorted if and only if its batch is timely |
| `Reducer.LateExample` | client/web/pages/chat.tsx:163-176 | a late message leaves a room unsorted |
| `Reducer.OrderAlways` | client/web/pages/chat.tsx:163-291 | over every run of timely actions all rooms stay sorted, so that the last timestamp is the greatest |
| `Reducer.HelloSelectsLatest` | client/web/pages/chat.tsx:129-161 | the hello selects a room with the newest message of all, and none only when there is no room |
| `Reducer.LatestIsGreatest` | client/web/pages/chat.tsx:216-224 | the reduce finds a room with the greatest last timestamp |
| `ReducerHistory.SortingDoesNotMatter` | client/web/pages/chat.tsx:148-156 | the sort in front of the reduce does not change which room it finds, because it is stable |
| `ReducerHistory.LatestOfIs` | client/web/pages/chat.tsx:209-224 | the choice of a hello: no named room has a newer message, and none behind it in enumeration order one as new |
| `ReducerHistory.CurrentExact` | client/web/pages/chat.tsx:129-242 | after every run the current room is the one last selected since the last hello, otherwise the hello's choice; known rooms, user and loading state are as the actions say |
| `ReducerHistory.UnreadExact` | client/web/pages/chat.tsx:163-244 | over every run the counter of a room is the number of messages it was sent, while known and not current by the actions alone, since its last selection or the hello; the current room has none |
| `ReducerHistory.RoomInfoExact` | client/web/pages/chat.tsx:245-291 | after every run each room has the name, creator and history flag the actions gave it; a room added without a creator has this user as creator |
| `ReducerHistory.UsersExact` | client/web/pages/chat.tsx:129-197 | after every run the users are those seen since the last hello, each as first seen |
| `ReducerHistory.AnnouncementsExact` | client/web/pages/chat.tsx:245-300 | after every run the announcements are those of the rooms added since the last hello, the newest 5000 of them, without the removed ones, each with its text |

## Left out

- Lists of header lines in `HttpLines.LinesRun` and what builds on it consist of lines of the form name, colon, value; a name without a colon and a continued line are described one at a time (`HttpTokens.NameOnlyLine`, `HttpTokens.ContinuationLine`).
- HTTP callbacks that fail or pause the parser, `http_parser_pause`, the non-strict mode and the tables of messages and status texts.
- The method M-SEARCH, whose stored name contains blanks, is recognised by the model as by the code but excluded from `MethodsExact`.
- Characters at or above 0x80 are treated alike. A chunk-size byte there counts as the digit 0, as in the zero-filled half of the code's table; the theorems about chunks speak of sizes written in hexadecimal digits.
- ParseUrl: reads the port from its field, where the code calls `strtoul` on the rest of the buffer; beyond 65535 bytes only the outcome of the first pass is stated, because offsets wrap at 16 bits.
- WebSocket opcodes, fragmentation, close and pong frames, JSON payloads, the handshake's header search and SHA-1.
- Protobuf groups in unknown fields are rejected by the model; the 2 GB limit, arenas, reflection and cached sizes of the runtime are not modelled; a message after a failed parse is unconstrained.
- The Job package's own copy of `Proto` and the remaining messages of the Comet package: the same generated code over again.
- `DeleteRoomTopic` and `DeleteSubscriber`, which nothing calls.
- That the newest connection of a user stays registered: a disconnect erases by user id whichever connection is stored. The invariants speak of the connection that is stored.
- Comet before its start-up has finished, logic's storage of messages, authentication, configuration, and the contents of JSON messages.
- In `Comet`, hash containers are walked in an arbitrary order; the sending loop of an announcement is one protocol step, because it holds the mutex of the connection map.
- Room ids that name members of `Object.prototype` in the client, and texts as UTF-16 code units beyond the basic plane.
- React components, the websocket client and the page's event handlers.
