# A verified model of the HTTP/1 path

This Dafny project models the part of the repository that turns a byte stream into requests for a stream decoder
and requests back into bytes, together with the containers and loops around it, and proves what it promises.

- **The request parser** (`HttpParser`, `Methods`, `Chars`). One call of `Case` is one pass through the parser's
  switch for one byte of an `HTTP_REQUEST`, in strict mode. `Execute` is the loop of `http_parser_execute` with its
  inner loops over names, values (including the `memchr` skip) and body bytes, its data marks and its header size
  counter. It is proved to compute the byte-by-byte run of `ByteStream`, which says what a stream means, and the count
  of `HeaderCount`, which says which bytes use up the header limit.
- **What a stream means.** `Fragmentation`: how the stream is cut does not matter, exactly when every byte skipped in
  a header value is a legal one. `Recognize` and `Lengths`: which methods, header names and lengths are recognised.
  `Grammar` and `Targets`: which texts the parser takes, byte by byte and as a whole, and which it refuses.
  `TokenLists`: which tokens of a `Connection` list it hears. `Segments`, `HeaderLines`, `Bodies` and `Request`: what a
  printed request line, header block and body are read back as.
- **The codec** (`RequestDecoder`, `DecoderTrace`, `Codec`). The class `ServerConnection` collects header maps from
  callbacks, decides whether there is a body, and calls the stream decoder. `DecoderTrace` proves, over every
  sequence of slices, which calls a decoder can get and that no assertion of the codec fails.
- **The encoder** (`Encoder`, `IoBuffer`). Heads go through one reserved, auto-expanding buffer, bodies through fresh
  ones; every operation adds exactly its text to the wire.
- **End to end** (`HeaderRoom`, `EndToEnd`). A request written by the encoder, cut in any way, reaches the decoder as it
  was sent, with a body of any size, and so does one request after another on a connection kept alive.
- **Header maps** (`HeaderNames`, `LookupTable`, `HeaderList`, `HeaderMap`) and **header strings** (`HeaderString`):
  list, slots and trie agree; three storage modes behave like one string.
- **URLs** (`Url`, `UrlText`, `Targets`): the two loops that split a URL, the slices `handlePath` cuts from an absolute
  one, and the same from the text: exactly which URLs and authorities are accepted, and that the fields of a URL put
  together from its parts are those parts.
- **Around it**: the framing filter with the session read loop (`RequestFraming`), the filter chain and its builder
  (`FilterChain`), connection accounting over all interleavings (`Accounting`), the send queue of an HTTP/2 stream
  (`Http2Send`), and Welford's variance (`Welford`).

Code that changes fields, buffers or links is a class whose methods are proved against functions of the state;
switches and tests are functions. A `char` stands for one byte. Every lemma carries `{:induction false}`: inductive
proofs call themselves.

## What the model shows about the code

- In a header value the parser checks only the first byte of each stretch it skips with `memchr`. So a control
  character in a value passes or fails depending on how the network cut the stream. `FragmentationIndependence` gives
  the exact condition, for streams that are taken and streams that are rejected, and `CutMatters` a stream that shows
  it.
- `nread` counts one byte more each time a slice ends inside a header name or value (`HeaderCount.Tally`,
  `TallyBound`). Body bytes are never counted, but the blank line behind a chunked body counts towards the next
  request (`HeaderRoom.ChunkedCount`).
- Entries of the `unhex` table from 128 on are 0, not -1: such a byte counts as the hexadecimal digit 0 of a chunk
  size (`SizeByte`). `LOWER` maps a tab to a closing parenthesis, so no token of a `Connection` value is seen behind a
  tab (`TabHidesTokens`). A space inside the digits of a `Content-Length` is ignored (`LengthScan`, `SpacedLength`).
- A token of a `Connection` header is not always heard. The comma behind the proper beginning of "keep-alive", "close"
  or "upgrade" is taken for part of that element, so the element behind it is lost: "c, close" does not close the
  connection (`CloseIsLost`). An element behind the first that is blank or does not begin with a token character ends the
  listening.
  `ConnectionSets` gives the exact tokens heard, `SecondIsLost` and `PlainIsHeard` when they are those of the list.
- A version with a minor number of 0 is treated as one below 1.1 when the parser decides whether to keep the connection
  open, so HTTP/2.0 needs a "keep-alive" (`HeadRead`). The codec notes any version other than 1.1 as HTTP/1.0
  (`VersionHeard`). A request line that ends behind its URL is taken as version 0.9 (`ShortLineSegment`), and
  "HTTP/1.01" as 1.1, for a number may begin with a 0 (`VersionSegment`).
- A folded line goes on with the value before it, but the parser forgets that the value was "chunked" or a token
  (`ValueFolded`).
- The framing filter looks for `content-length:` anywhere in the head, so one inside another name or value counts, and
  the first one wins (`FirstClassified`).
- Chunk sizes are printed with `%x` from a 64-bit length and are right exactly below 2^32 (`ChunkSizeRight`).
- `HeaderString::clear` of a string on the heap sets its length but not its first byte, so `c_str` goes on showing
  the old bytes (`HeaderStr.Clear`); on a reference it does nothing.
- The recorded largest session count is read a second time after the comparison and may fall: `LargestMayFall` is a
  run in which it does, `LargestFalls` says exactly when, `LargestIsPeak` when it is right.
- On a machine with one processor the placement of the first session divides by zero (`Placed`, `OneThreadFails`).
- For an absolute URL with a query right behind its authority `handlePath` makes the path "/" and drops the query; so
  it does with a path of exactly 65536 bytes, because the parser's lengths are 16 bits wide. `RestSurvives` is the exact
  condition, `QueryDropped` and `PathDropped` are the inputs. For a host in brackets the authority it cuts is none
  (`BracketedSlice`).
- A request whose head and body length add up to more than an `int` passes the framing filter's test though its body
  is not there (`OverflowPasses`, `OverflowingRequest`).
- The variance cannot be negative, so the guard in `computeStandardDeviation` is never taken (`ComputeVariance`).
- `EIoBuffer::shrink` halves a buffer with nothing to keep only once (`EIoBuffer.Shrink`).

## Model

| member | source | states |
|---|---|---|
| Execute.RequestParser.Execute | test/http_parser.c:634-2093 | parsing one slice: state, callbacks (adjacent data joined), byte count and header counter are those of the byte-by-byte run, and on a parser error the same error at the same byte, with at most a piece of data still open not delivered; without a parser error there is a header overflow exactly if the header bytes find no room; an empty slice is the end of the connection |
| Execute.RequestParser.Turn | test/http_parser.c:702-708 | one turn of the loop moves to a later byte and stays in agreement with the byte-by-byte run and its count, so the loop ends; a stop is the run's stop or a header overflow; a turn over body bytes leaves the header counter alone |
| Execute.RequestParser.Reexecute | test/http_parser.c:709-2068 | the switch with its `goto reexecute` jumps does what one step of the run does; the data marks stay with the state, at most one is set, and a chunk size starts with the counter at 1 |
| Execute.RequestParser.InField | test/http_parser.c:1298-1425 | the inner loop over a header name takes exactly the token bytes, and all of them lie in the name |
| Execute.RequestParser.InValue | test/http_parser.c:1506-1695 | the inner loop over a header value, with its skip, agrees with the run that checks only the first byte of a skipped stretch |
| Execute.RequestParser.InBody | test/http_parser.c:1882-1917 | body bytes are taken a whole stretch at a time; the byte that completes a body is seen again by the end of the message |
| Execute.MemChr | test/http_parser.c:1534-1545 | the first carriage return or line feed in the searched window |
| Execute.SkipGeneral | test/http_parser.c:1527-1557 | a general value is skipped to its first carriage return or line feed within the limit |
| Execute.RequestParser.Pause | test/http_parser.c:2446-2458 | pausing sets the error code and nothing else |
| Execute.RequestParser.LineStretch | test/http_parser.c:1298-1695 | a stretch of a name or value counts with each of its bytes, and with one more where the slice ends inside it |
| HeaderCount.LineCount | test/http_parser.c:1410-1414 | every byte of a name or value counts once, and the end of a slice inside it once more |
| HeaderCount.NoReset | test/http_parser.c:1836-2052 | inside a name, a value or a body nothing starts the count afresh |
| Execute.BodyNotCounted | test/http_parser.c:1882-1932 | bytes of a body or of chunk data never count as header bytes |
| HttpParser.Case | test/http_parser.c:709-2068 | every `case` keeps the parser's own assertions true (chunk flag, body length neither 0 nor the sentinel, matcher index inside its string) and every `reexecute` lowers the rank of the state; what the cases make of text is stated by the rows of `Grammar`, `Targets`, `Segments`, `HeaderLines`, `Bodies` and `Request` |
| Grammar.LeadingLineEnds | test/http_parser.c:954-958 | line ends in front of a request are skipped and leave no trace |
| Grammar.MethodTaken | test/http_parser.c:954-1051 | the word in front of the first space is taken for a method if and only if it is the name of one; any other is refused |
| Targets.TargetTaken | test/http_parser.c:1053-1124 | what stands between the spaces of a request line is delivered as one URL if and only if it is a target in the grammar of the module that goes as far as a host, a path or a query; anything else is refused |
| Targets.TargetGrammar | test/http_parser.c:487-632 | the texts the URL states take are exactly the targets: a scheme and its mark as far as they go, a host text without two `@` side by side, path, query and fragment of their characters |
| Grammar.ProtocolRefused | test/http_parser.c:1126-1158 | behind the target anything but the letters of "HTTP/" is refused, with the error of its place |
| Grammar.SpacesBeforeProtocol | test/http_parser.c:1126-1137 | any number of spaces may stand before the protocol |
| Grammar.VersionRefused | test/http_parser.c:1160-1246 | a version is digits, a point and digits, not beginning with 0, and ends with its line; any other byte is refused |
| Grammar.LineFeedEnds | test/http_parser.c:1094-1773 | a line feed alone ends a request line, a version, a value and an empty value as CR LF does; a request line without a version is of version 0.9 |
| Grammar.BlankLineFeed | test/http_parser.c:1248-1264 | a line feed alone ends the headers as CR LF does, with the same state and callbacks |
| Grammar.NameRefused | test/http_parser.c:1248-1425 | a byte that is no token character is refused in a header name, but for the colon behind it |
| Grammar.ValueRefused | test/http_parser.c:1506-1557 | a byte of a value that is checked is refused as illegal if and only if it is a control character other than the tab |
| Grammar.ValueFolded | test/http_parser.c:1708-1773 | a line that begins with a blank continues the value before it, blank included, and what that line said about chunks or the connection is forgotten; a length cannot be continued |
| Grammar.SizeExtension | test/http_parser.c:1950-1996 | what follows a chunk size behind a semicolon or a space is ignored to the end of its line |
| Grammar.ChunkRefused | test/http_parser.c:1934-2052 | the bytes at which a chunk size, or an end of line around chunk data, is refused, each with its error |
| Grammar.DoneCompletes | test/http_parser.c:1836-1880 | a message without a body for the parser is complete with its headers; the run stops there if the callback pauses or the protocol changes |
| Grammar.BodyCompletes | test/http_parser.c:1882-1932 | a message with a body is complete with the last byte of it; the run stops there if the callback pauses or the protocol changes |
| Grammar.ConnectEnds | test/http_parser.c:1836-1851 | a CONNECT is complete with its headers, whatever they announce |
| Grammar.CallbackSkipsBody | test/http_parser.c:1811-1858 | a headers callback that returns 1 or 2 leaves the message without a body; 2 changes the protocol as well |
| Grammar.CallbackFails | test/http_parser.c:1811-1827 | a headers callback that returns anything else but 0 stops the parser with its error, in front of the last byte of the head |
| Grammar.PausedHead | test/http_parser.c:1829-1833 | a run paused by the headers callback and taken up again ends as the run that was not paused |
| Grammar.TrailersRead | test/http_parser.c:1998-2013 | the last chunk with any trailers behind it completes the message with its blank line |
| Grammar.EndOfConnection | test/http_parser.c:655-676 | over every run, whatever the callbacks return and pause: unless the parser has failed it stands in one of the states in which an empty slice is no error if and only if every message begun is completed, and never is more than one open |
| HttpParser.AppendDigit | test/http_parser.c:1565-1590 | the 64-bit decimal step never wraps and never yields the sentinel |
| HttpParser.AppendHexDigit | test/http_parser.c:1956-1985 | the same for a chunk size |
| ByteStream.FoldConcat | test/http_parser.c:634-2093 | the run over two stretches is the run over the second from where the first ends |
| ByteStream.FoldKeepsRunInv | test/http_parser.c:677-700 | wherever a slice ends inside a name, value or URL, the last callback delivered data of that kind |
| Fragmentation.FragmentationIndependence | test/http_parser.c:1506-1557 | for every stream from which the parser does not return early without an error: every way of cutting it gives the same state and callbacks, or the same error at the same byte, if and only if every byte skipped in the uncut stream is a legal header character |
| Fragmentation.AnySplit | test/http_parser.c:677-700 | for a stream with only legal bytes in what is skipped, taken or rejected, every cut gives the state, error, callbacks and byte count of the uncut stream |
| Fragmentation.StrictSplit | test/http_parser.c:677-700 | if the run that checks every byte takes the whole stream, every cut ends as that run does |
| Fragmentation.LegalValues | test/http_parser.c:1506-1557 | if every byte inside a header value is a legal header character, so is every byte skipped |
| Fragmentation.TallyBound | test/http_parser.c:1410-1414 | cutting a stream adds at most one byte for each slice to the header count, and never more than the header bytes since the last reset |
| Fragmentation.CutMatters | test/http_parser.c:1527-1557 | in any general header value two bytes that pass together and fail apart |
| Fragmentation.ExecuteAll | test/http_parser.c:634-2093 | the parser object fed slice by slice, of any total size: but for a slice whose header bytes find no room it ends as the run over the slices does, and for a clean stream as the run over the whole stream does, taken or rejected |
| Recognize.MethodRecognized | test/http_parser.c:997-1051 | the method matcher accepts a word for a method if and only if it is that method's name |
| Recognize.GuessIsPrefix | test/http_parser.c:954-1051 | the guessed method always starts with the letters read, so the matcher stays inside its string |
| Recognize.NameRecognized | test/http_parser.c:1298-1408 | exactly `connection`, `proxy-connection`, `content-length`, `transfer-encoding` and `upgrade`, in any letter case, reach their states |
| Recognize.NameStateClassifies | test/http_parser.c:1248-1408 | the name matcher is a prefix classifier of those five names |
| Lengths.ReadDecimalExact | test/http_parser.c:1565-1590 | the decimal accumulator gives the exact value of the digits, and succeeds exactly within its guard |
| Lengths.ReadHexExact | test/http_parser.c:1950-1985 | the same for the hexadecimal accumulator |
| Lengths.DecimalRoundTrip | http/source/utility.cc:95-115 | printed decimal digits read back as the number, and the accumulator accepts every number within its bound |
| Lengths.HexRoundTrip | http/source/http1/codec_impl.cc:126-130 | printed hexadecimal digits read back as the number |
| Lengths.HexWritten | http/source/http1/codec_impl.cc:126-130 | hexadecimal numbers are printed in lower case without a zero in front |
| Lengths.Itoa | http/source/utility.cc:95-115 | writes the decimal digits, at most 20, and a NUL, nothing behind them; refuses a buffer below 21 bytes |
| Lengths.ReverseInPlace | http/source/utility.cc:107-111 | the swap loop reverses the digits in place |
| Segments.MethodSegment | test/http_parser.c:954-1051 | a method name and a space are read as that method, whatever guesses the matcher goes through |
| Segments.PathSegment | test/http_parser.c:1053-1124 | a path of URL characters is delivered as one URL |
| Segments.VersionSegment | test/http_parser.c:1126-1246 | " HTTP/a.b" gives the version a.b for all numbers below 1000 without a leading 0 in a |
| Segments.NumberTooLarge | test/http_parser.c:1160-1235 | a number of a version that would pass 999 is refused |
| Segments.ShortLineSegment | test/http_parser.c:1094-1124 | a request line that ends behind its URL has version 0.9 |
| Segments.ProtocolSegment | test/http_parser.c:1126-1246 | " HTTP/1.1" gives version 1.1 and the start of the headers |
| HeaderLines.ChunkedScan | test/http_parser.c:1592-1600 | a transfer-encoding value ends chunked if and only if it is the word, in any letter case, followed by spaces only |
| HeaderLines.LengthScan | test/http_parser.c:1464-1480 | a content-length is accepted if and only if it is a digit, then digits and spaces, the digits alone fit the guard, and there was no length before; the length is the value of the digits |
| HeaderLines.SpacedLength | test/http_parser.c:1565-1590 | "1 2" is read as the length 12 |
| HeaderLines.SkippedBetweenTokens | test/http_parser.c:1604-1620 | between the tokens of a Connection value the parser skips exactly the space, though the code means to skip a tab too |
| HeaderLines.TabHidesTokens | test/http_parser.c:1604-1620 | no token of a Connection value is seen behind a tab, whatever follows |
| HeaderLines.OtherScan | test/http_parser.c:1606-1682 | no other header changes the framing |
| HeaderLines.ConnectionSets | test/http_parser.c:1481-1722 | a Connection value sets close, keep-alive and upgrade exactly for the tokens "close", "keep-alive" and "upgrade", in any letter case, that stand where the parser hears them |
| TokenLists.PlainIsHeard | test/http_parser.c:1604-1682 | if no element but the last begins one of those words, is blank, or begins with a character that opens no token, the tokens heard are exactly those of the comma-separated list |
| TokenLists.SecondIsLost | test/http_parser.c:1622-1682 | of two elements the second is heard if and only if the first is not empty and is no proper beginning of one of those words |
| TokenLists.CloseIsLost | test/http_parser.c:1622-1682 | "c, close" has the token "close", and the parser does not hear it |
| HeaderLines.LineSegment | test/http_parser.c:1248-1773 | one printed header line comes back as one name and one value; it changes the framing only as that header should, sets close, keep-alive and upgrade exactly for the tokens heard in a Connection line, and the upgrade mark for an Upgrade line |
| HeaderLines.BlockSegment | test/http_parser.c:1248-1773 | a whole header block comes back in order; the framing is what it announces, and each connection flag is set if and only if it was before or a Connection line of the block has its token where the parser hears it |
| Bodies.ChunkSegment | test/http_parser.c:1934-2052 | one printed chunk comes back as one body callback with its data |
| Bodies.LastChunkSegment | test/http_parser.c:1934-2052 | the last chunk completes the message with its last byte |
| Bodies.IdentitySegment | test/http_parser.c:1882-1917 | a body of the announced length completes the message with its last byte |
| Bodies.ChunkSizeRight | http/source/http1/codec_impl.cc:125-130 | the printed chunk size is the size of the data if and only if that is below 2^32 |
| Bodies.SizeByte | test/http_parser.c:1934-1985 | a byte of a chunk size is read as RFC 7230 has it if and only if it is below 128; any other counts as the digit 0 |
| Bodies.ChunkedRoundTrip | http/source/http1/codec_impl.cc:120-155 | the chunks of any data buffers and the last chunk are read back as the data, then one end of message with all bytes consumed; empty buffers leave no trace |
| HeaderRoom.ChunkedCount | test/http_parser.c:1934-2052 | over a chunked body at most ten bytes are counted at a time, and two are left when it ends |
| HeaderRoom.ChunkedInFragments | http/source/http1/codec_impl.cc:120-155 | the same for every cutting into fragments, none of which passes the header limit, however much data there is |
| HeaderRoom.LongHead | test/http_parser.c:142-162 | a request head in one slice passes the header limit if and only if with it more than 81920 bytes of the request have come |
| HeaderRoom.HeadCountExact | test/http_parser.c:142-162 | every byte of a head counts once, up to the last, which starts the count afresh |
| HeaderRoom.LongValue | test/http_parser.c:1506-1557 | a slice inside a header value passes the limit if and only if it brings the header bytes to 81920 or more |
| Request.RequestLine | http/source/http1/codec_impl.cc:214-233 | a printed request line comes back as method, URL and the two numbers of its version |
| Request.HeadRoundTrip | test/http_parser.c:954-1880 | a head printed in version 1.1 comes back as method, URL and headers in order; without a body the message is complete, and the parser closes the connection if and only if it heard a "close" token |
| Request.HeadRead | test/http_parser.c:954-1880 | a printed head of any version comes back as method, URL, version and headers in order; the connection is closed behind it if and only if a "close" token was heard (version x.y with x and y above 0) or no "keep-alive" token was (any other), and it changes its protocol if and only if there is an Upgrade line and an "upgrade" token was heard |
| Request.BothFramings | test/http_parser.c:1787-1793 | of all heads that can be printed exactly those that announce both chunks and a length are refused, at their last byte, before the headers are told to be complete |
| RequestDecoder.HeardMerged | http/source/http1/codec_impl.cc:318-339 | how data callbacks are cut leaves no trace in the codec but the cutting of the data handed on |
| RequestDecoder.HeardTwice | http/source/http1/codec_impl.cc:318-339 | two pieces of a name, value, URL or body are heard like one |
| RequestDecoder.VersionHeard | http/source/http1/codec_impl.cc:341-347 | whatever the callbacks, the connection is noted as HTTP/1.0 if and only if it was before or a head was read whose version is not 1.1 |
| RequestDecoder.NameCaseUnheard | http/source/http1/codec_impl.cc:278-289 | the letter case of a header name leaves no trace in the codec once the header is complete |
| RequestDecoder.TrailersUnheard | http/source/http1/codec_impl.cc:318-339 | names and values behind the headers leave no trace in the codec |
| DecoderTrace.TraceOfEveryRun | http/source/http1/codec_impl.cc:472-552 | for every sequence of slices, taken or rejected: no assertion of the codec fails, a finished decoder got headers that end the stream, or headers, data and an empty end, an unfinished one nothing, or headers and data; and a body has the announced length, which a CONNECT never gets a byte of |
| DecoderTrace.CaseKeeps | http/source/http1/codec_impl.cc:318-552 | codec and parser stay in step over every `case`: the codec's test for a body agrees with the parser's framing decision (section 3.3.3 of RFC 7230) |
| DecoderTrace.WithRequestAppends | http/source/http1/codec_impl.cc:384-411 | no header from the wire is a pseudo header but the authority, so path and method are added once, at the end |
| DecoderTrace.NextRequest | http/source/http1/codec_impl.cc:374-382 | once request and response are complete the connection is ready for the next request |
| Codec.HandlePath | http/source/http1/codec_impl.cc:384-470 | the path is taken over, or an absolute URL replaces the host header and gives the path, or it is a protocol error and nothing changes |
| Codec.TargetsHandled | http/source/http1/codec_impl.cc:384-411 | a path is taken over, so is every target of CONNECT or while absolute URLs are not allowed, and "*" for OPTIONS; "*" is a protocol error for any other method once they are |
| Codec.AbsoluteHandled | http/source/http1/codec_impl.cc:413-470 | an absolute URL put together from its parts gives host and port as the host header, and path, query and fragment as the path, but for a path with a multiple of 65536 bytes |
| Codec.ServerConnection.CompleteLastHeader | http/source/http1/codec_impl.cc:278-289 | the finished header goes into the map under its lower-case name, and name and value are empty again |
| Codec.ServerConnection.OnHeaderField | http/source/http1/codec_impl.cc:318-329 | a name completes the header before, and is ignored in trailers |
| Codec.ServerConnection.OnHeadersCompleteBase | http/source/http1/codec_impl.cc:341-353 | the last header is completed, the version noted (for every sequence of callbacks as `RequestDecoder.VersionHeard` says), and the map passed on |
| Codec.ServerConnection.OnHeadersComplete | http/source/http1/codec_impl.cc:472-509 | the map, with path and method, goes to the decoder if there is a body, else it is kept until the end |
| Codec.ServerConnection.OnMessageComplete | http/source/http1/codec_impl.cc:534-552 | headers kept back go out as the end of the stream, else an empty end of data does |
| Codec.ServerConnection.Dispatch | http/source/http1/codec_impl.cc:291-316 | the parser is unpaused and fed, every callback reaches the codec once, in order, and the answer is that of the run over the slice or a header overflow; an empty slice is an error unless the parser is between two requests |
| Codec.ServerConnection.ReadRequest | http/source/http1/codec_impl.cc:291-316 | dispatching slices until a request is complete or an error stops the parser: connection and parser end as for the run over the slices used, but for a slice whose header bytes find no room; failed or not, no assertion has failed and the decoder has been called in order |
| Codec.ServerConnection.OnEncodeComplete | http/source/http1/codec_impl.cc:374-382 | a request that is complete is dropped, another is kept |
| Encoder.StreamEncoder.EncodeHeaders | http/source/http1/codec_impl.cc:57-118 | the wire gets the header lines in order (`:a…` as host, other pseudo headers left out), at most one framing header and the blank line, behind what was queued; with a length, for "100 Continue" and before HTTP/1.1 unless the stream ends there, it gets the lines and the blank line alone and nothing that follows is chunked |
| Encoder.StreamEncoder.EncodeRequestHeaders | http/source/http1/codec_impl.cc:214-233 | the request line goes out before the headers; without method or path nothing does |
| Encoder.StreamEncoder.EncodeData | http/source/http1/codec_impl.cc:120-142 | the wire gets one chunk, or the bare bytes, or nothing for empty data, and the last chunk at the end; without chunking it gets exactly the bytes; the data is used up |
| Encoder.StreamEncoder.EncodeTrailers | http/source/http1/codec_impl.cc:144-155 | trailers are not written; the message ends |
| Encoder.FramingInWords | http/source/http1/codec_impl.cc:86-109 | the framing header of a message as text: none where none is allowed, "content-length: 0" if the stream ends, "transfer-encoding: chunked" otherwise |
| Encoder.LineInWords | http/source/http1/codec_impl.cc:57-84 | the line of each header as text: names beginning with ":a" go out as host, any other with a colon in front not at all |
| Encoder.PlainOutput | http/source/http1/codec_impl.cc:86-142 | on an HTTP/1.0 connection the text of any heads and data is their lines and the bare data, with no chunk and no framing header but for a length of 0 |
| Encoder.ConnectionOutput.FlushOutput | http/source/http1/codec_impl.cc:157-165 | everything queued, then the reserved block, is written once and in order, and the reserved buffer is ready again though it is not cleared |
| Encoder.ConnectionOutput.Add | http/source/buffer_impl.cc:14-27 | text joins the queue in a buffer of its own |
| Encoder.ConnectionOutput.Move | http/source/buffer_impl.cc:41-47 | the buffers themselves join the queue, in order, and leave their own queue empty |
| Encoder.OwnedImpl.Length | http/source/buffer_impl.cc:33-39 | the sum of what the buffers hold |
| Encoder.SendAll | http/source/http1/codec_impl.cc:57-233 | exactly-once ordered output: after any sequence of heads, data and trailers the wire has gained the text of each, once and in order, though one reserved buffer is reused for every head; on an HTTP/1.0 connection that text is, in plain words, start line, header lines, at most "content-length: 0", blank line and bare data |
| Encoder.SendRequest | http/source/http1/codec_impl.cc:57-233 | head and body of a request put exactly its text on the wire |
| EndToEnd.EndToEnd | http/source/http1/codec_impl.cc:37-552 | what the encoder writes for a request, cut in any way, completes the request with its last byte, and the decoder gets method, path, every header in order with the authority restored, the one framing header added, and the body; the version noted stays as it was, and the parser is left dead if and only if a Connection header has a "close" token that it hears |
| EndToEnd.VersionNoted | http/source/http1/codec_impl.cc:341-347 | a head of version a.b on the wire, cut in any way, leaves the connection noted as HTTP/1.0 if and only if it was before or its protocol text is not " HTTP/1.1" |
| EndToEnd.HeadersBack | http/source/header_map_impl.cc:236-244 | the header list read back is the list sent, `host` turned into `:authority` again, plus the framing header |
| EndToEnd.WireFrame | http/source/http1/codec_impl.cc:86-109 | what the encoder prints is framed for the parser as chunks exactly when it chunks, else with the exact length |
| EndToEnd.Receive | http/source/http1/codec_impl.cc:291-552 | a connection between two requests reads the next from any slices of it whose head is within the header limit, without failing; the body may be of any size; the connection stays open if and only if no "close" token is heard, and its version stays as it was |
| EndToEnd.CutsFit | test/http_parser.c:142-162 | no slice of a request passes the header limit if its head has room for its bytes and one for each slice that holds a part of it |
| EndToEnd.Serve | http/source/http1/codec_impl.cc:374-382 | requests on one connection, each answered before the next, reach their decoders as they were sent, up to and including the first with a "close" token that is heard, behind which the parser is dead; all of them if and only if none before the last has one |
| EndToEnd.DeadRejects | test/http_parser.c:711-722 | a parser that has closed the connection takes line ends and rejects any other byte |
| IoBuffer.NormalizeLeast | src/EIoBuffer.cpp:375-384 | the least power of two not below a request of at most 2^30 |
| IoBuffer.EIoBuffer.Capacity | src/EIoBuffer.cpp:168-201 | growing keeps every byte, position, limit and mark |
| IoBuffer.EIoBuffer.Expand | src/EIoBuffer.cpp:235-258 | the limit reaches the end asked for, the bytes stay, and growing stays within its copy budget |
| IoBuffer.EIoBuffer.Put | src/EIoBuffer.cpp:512-517 | the bytes put so far are followed by the new ones; without auto-expansion it needs room |
| IoBuffer.EIoBuffer.Flip | src/EIoBuffer.cpp:106-109 | what was put is what is read next |
| IoBuffer.EIoBuffer.Shrink | src/EIoBuffer.cpp:260-313 | the bytes up to the limit stay; the new capacity is below twice what has to be kept, or exactly that |
| IoBuffer.PutAll | src/EIoBuffer.cpp:150-258 | any sequence of auto-expanding puts stores exactly what was put and copies at most first plus final capacity bytes |
| LookupTable.FindAdded | http/source/header_map_impl.cc:246-274 | adding a key to the trie disturbs no other key |
| LookupTable.SlotExact | http/source/header_map_impl.cc:236-274 | the table finds exactly the canonical keys, each with its own slot, and `host` |
| HeaderList.SetIsLast | http/source/header_map_impl.cc:391-407 | setting leaves one header under the key, with the value given, and every other as it was |
| HeaderList.AddTwice | http/source/header_map_impl.cc:323-343 | a fixed header added twice keeps the first value; any other is kept twice |
| HeaderList.CopyIsEqual | http/source/header_map_impl.cc:280-294 | adding the headers of a map one by one gives an equal list |
| HeaderList.WithoutEach | http/source/header_map_impl.cc:480-495 | removing a name takes out exactly the headers of that name and leaves the others in their order |
| HeaderMap.HeaderMapImpl.InsertByKey | http/source/header_map_impl.cc:323-339 | list, slots and table stay in agreement and the list gains what the value-level insert adds |
| HeaderMap.HeaderMapImpl.MaybeCreateInline | http/source/header_map_impl.cc:497-521 | the slot's entry, made at the end of the list if there was none |
| HeaderMap.HeaderMapImpl.InsertValue | http/source/header_map_impl.h:20-26 | a fixed header gets this value whether it was there or not, and stays where it was |
| HeaderMap.HeaderMapImpl.RemoveInline | http/source/header_map_impl.cc:523-531 | the slot is empty and its one entry gone from the list |
| HeaderMap.HeaderMapImpl.Remove | http/source/header_map_impl.cc:480-495 | every header of the name is gone, the others are as they were |
| HeaderMap.HeaderMapImpl.LookUp | http/source/header_map_impl.cc:455-478 | the slot lookup agrees with the linear search for every table key but the alias `host`, which finds what the search cannot |
| HeaderMap.HeaderMapImpl.Copy | http/source/header_map_impl.cc:280-294 | a copied map equals its source and shares no entry with it |
| HeaderString.HeaderStr.Append | http/source/header_map_impl.cc:73-120 | the string grows by the bytes, starting empty on a reference, inside its storage with a NUL behind it |
| HeaderString.HeaderStr.SetCopy | http/source/header_map_impl.cc:137-177 | the string is the bytes, with a NUL behind them |
| HeaderString.HeaderStr.SetInteger | http/source/header_map_impl.cc:179-195 | the string is the decimal number; 32 bytes of storage are always there |
| HeaderString.HeaderStr.Clear | http/source/header_map_impl.cc:122-135 | empty unless a reference; `c_str` is empty too exactly if the string is not on the heap or began with a NUL |
| HeaderString.HeaderStr.MoveFrom | http/source/header_map_impl.cc:36-61 | the string is taken over and the source left empty unless it is a reference |
| Url.ScanFields | test/http_parser.c:2343-2406 | the first loop finds exactly the runs of bytes of each field and stores 16 bits of their offsets and lengths, or finds a byte that is not allowed |
| Url.ParseHost | test/http_parser.c:2255-2335 | the second loop splits the authority into user information, host and port, for exactly the authorities it accepts |
| UrlText.AuthorityGrammar | test/http_parser.c:2160-2335 | the authorities accepted are exactly: user information and "@", or none, then a host name or an address in brackets with or without a zone, then a colon and digits, or none |
| Url.ParseUrl | test/http_parser.c:2342-2444 | for every URL whose authority ends within 65535 bytes: exactly the accepted ones; every field is the run of its bytes, stored in 16 bits, and the port the decimal value of its digits, at most 65535; for any other, what is taken for its authority |
| Targets.UrlGrammar | test/http_parser.c:2342-2444 | the URLs accepted are, but for the size of the port, exactly the targets whose host text is an authority in the grammar, with a host wherever there is a scheme; for CONNECT exactly host and port, without user information, with at most empty marks of query and fragment behind them |
| UrlText.UrlRoundTrip | test/http_parser.c:2342-2444 | an absolute URL put together from its parts is accepted if and only if its port is at most 65535, and every field is the part it was made from |
| Url.FieldsInOrder | test/http_parser.c:2342-2444 | the fields of an accepted URL are not empty, in bounds, disjoint and in textual order |
| Url.AuthoritySlice | http/source/http1/codec_impl.cc:427-438 | for a host that is not in brackets the slice cut as authority is the host, a colon and the port (section 5.3.2 of RFC 7230) |
| Url.BracketedSlice | http/source/http1/codec_impl.cc:427-438 | for a host in brackets the byte behind the host is the closing bracket, and the slice cut is never the host, a colon and the port |
| Url.CutAbsolute | http/source/http1/codec_impl.cc:413-465 | for every URL whose authority ends within 65535 bytes, however long the rest: whether it is absolute, and the host and path taken from it |
| UrlText.WrittenCut | http/source/http1/codec_impl.cc:413-465 | of such a URL the new host is host and port, and the new path is all that follows the authority, or "/" if its path has a multiple of 65536 bytes |
| Url.RestSurvives | http/source/http1/codec_impl.cc:442-460 | what follows the authority of an absolute URL becomes the path if and only if there is none, or it begins with a slash and its path has no multiple of 65536 bytes; anything else gives "/" |
| Url.PathDropped | http/source/http1/codec_impl.cc:448-460 | behind "http://h" any path is kept if and only if its length is no multiple of 65536 |
| Url.QueryDropped | http/source/http1/codec_impl.cc:442-460 | http://h?q=1 is accepted and gives the path "/" |
| RequestFraming.RequestsAppend | filter/http/EHttpCodecFilter.cpp:55-79 | the requests of a stream do not depend on where it is cut |
| RequestFraming.NothingLost | filter/http/EHttpCodecFilter.cpp:55-79 | requests and rest together are the stream |
| RequestFraming.FirstClassified | filter/http/EHttpCodecFilter.cpp:55-79 | what a stream starts with, from the text of its first head: the announced length of the body (first `content-length:` in any letter case, blanks around its digits; none is 0) added to the head is the size of the request, which is whole if that much is there, overflows if that is no int; a head that announces none that can be read is malformed |
| RequestFraming.WrittenRequest | filter/http/EHttpCodecFilter.cpp:55-79 | a head and a body of the length it announces are the first request of the stream, to the byte, whatever follows; no proper part of them is one |
| RequestFraming.WrittenRequests | filter/http/EHttpCodecFilter.cpp:55-79 | requests written one behind the other are exactly the requests of the stream, and part of a further one is its rest |
| RequestFraming.AllCarried | src/ESocketSession.cpp:27-62 | reading them goes wrong nowhere, wherever the reads of the socket cut them, if each of them fits into the cache together with any one read |
| RequestFraming.OverflowPasses | filter/http/EHttpCodecFilter.cpp:55-75 | the comparison with the 32-bit sum of head and body length passes though the request is not there exactly if that sum overflows |
| RequestFraming.OverflowingRequest | filter/http/EHttpCodecFilter.cpp:63-75 | a request with the length 2147483647 overflows |
| RequestFraming.SocketSession.MessageReceived | filter/http/EHttpCodecFilter.cpp:29-82 | the bytes join the cache and a whole request, as long as `FirstClassified` says, is cut from its front; too many bytes or an unreadable length throw, and a size that is no int has an outcome of its own |
| RequestFraming.SocketSession.Read | src/ESocketSession.cpp:27-62 | a cached request first, else as many reads as it takes; at the end of the stream no whole request is left |
| RequestFraming.ReadAll | src/ESocketSession.cpp:27-62 | successive reads return the requests the byte stream consists of, exactly when nothing throws or overflows, and the cache is the rest; for requests written one behind the other, each with room for a read beside it, these are exactly those requests and nothing is left |
| FilterChain.EIoFilterChain.Register | src/EIoFilterChain.cpp:351-357 | links in both directions and the name index describe the sequence with one filter inserted |
| FilterChain.EIoFilterChain.Deregister | src/EIoFilterChain.cpp:359-367 | the same with one filter taken out |
| FilterChain.EIoFilterChain.AddBefore | src/EIoFilterChain.cpp:258-263 | one insert before the base filter, or an exception and no change |
| FilterChain.EIoFilterChain.AddAfter | src/EIoFilterChain.cpp:265-270 | one insert behind the base filter, or an exception and no change |
| FilterChain.EIoFilterChain.AddLast | src/EIoFilterChain.cpp:253-256 | one insert at the end, or an exception and no change |
| FilterChain.EIoFilterChain.Remove | src/EIoFilterChain.cpp:272-278 | the filter of that name goes, and it is returned |
| FilterChain.EIoFilterChain.GetEntry | src/EIoFilterChain.cpp:191-195 | the name index finds what a search of the list finds |
| FilterChain.EIoFilterChain.Fire | src/EIoFilterChain.cpp:382-456 | an event reaches the filters in list order, up to the first that does not pass it on |
| FilterChain.ReachedFirst | src/EIoFilterChain.cpp:382-456 | the filters an event reaches are the first of the chain in order; each but the last has passed it on, and the last has not unless it is the end |
| FilterChain.EIoFilterChainBuilder.Register | src/EIoFilterChainBuidler.cpp:237-243 | one insert at a place, or an exception for a name in use |
| FilterChain.EIoFilterChainBuilder.BuildFilterChain | src/EIoFilterChainBuidler.cpp:199-205 | a fresh chain has the builder's exact sequence and no name is refused |
| Accounting.Accounts | src/ESocketAcceptor.cpp:253-309 | in every interleaving the connection count is the sessions admitted and not counted out and stays within a positive limit, cumulative is live plus closed, each thread's counter is the size of its map, the sum of the counters is the sessions in the maps, and the recorded largest is not above the peak |
| Accounting.StepKeeps | src/ESocketAcceptor.cpp:253-309 | every single step keeps the invariant behind that |
| Accounting.AdmittedBelowLimit | src/ESocketAcceptor.cpp:263-268 | in every reachable state a connection is let in if and only if the acceptor is not disposed and there is no limit or fewer sessions are live than it allows; otherwise nothing changes |
| Accounting.LimitReached | src/ESocketAcceptor.cpp:263-280 | for every positive limit a run from the start has exactly that many live sessions, and the next connection is turned away |
| Accounting.DisposedAdmitsNone | src/ESocketAcceptor.cpp:263-268 | after disposal at most the connection that had passed the test before is counted in |
| Accounting.SessionEnds | src/ESocketAcceptor.cpp:282-309 | a session that has its fiber can run to its end, and counters and maps are then as if it had not been |
| Accounting.PeakIsMaximum | src/ESocketAcceptor.cpp:277-280 | the peak is the most connections at any time of the run |
| Accounting.LargestMayFall | src/ESocketAcceptor.cpp:277-280 | a run from the start with three connections after which recording the third lowers the largest from 2 to 1 |
| Accounting.LargestFalls | src/ESocketAcceptor.cpp:277-280 | whatever other threads do between comparing and recording, the recorded largest falls if and only if more sessions are counted out in between than the comparison was ahead |
| Accounting.LargestStays | src/ESocketAcceptor.cpp:277-280 | a connection with which no more are open than the recorded largest leaves it alone, whatever other threads do |
| Accounting.LargestIsPeak | src/ESocketAcceptor.cpp:272-280 | if no session is counted out while one is being recorded, the recorded largest is the true peak whenever the loop is not recording |
| Accounting.Placed | src/ESocketAcceptor.cpp:161-171 | a session fiber is never placed on the accept thread; placing it divides by zero if and only if there is one thread |
| Accounting.TakeTurns | src/ESocketAcceptor.cpp:161-171 | fibers take turns on the worker threads: the first goes to thread 1 and each next one to the next thread, round and round |
| Accounting.OneThreadFails | src/ESocketAcceptor.cpp:161-171 | with one processor the first connection is counted in and cannot be placed |
| Accounting.GetManagedSessionCount | src/EManagedSession.hh:60-66 | the loop adds up the counters of all threads |
| Http2Send.StreamImpl.EncodeData | http/source/http2/codec_impl.cc:226-240 | the data joins the queue and a deferred stream is resumed |
| Http2Send.StreamImpl.EncodeTrailers | http/source/http2/codec_impl.cc:135-147 | trailers are kept back behind queued data, else handed over at once |
| Http2Send.StreamImpl.OnDataSourceRead | http/source/http2/codec_impl.cc:164-184 | an empty queue defers an open stream; EOF is flagged exactly on the frame that takes all that is left after the local end, and trailers kept back go with it |
| Http2Send.StreamImpl.OnDataSourceSend | http/source/http2/codec_impl.cc:186-205 | the bytes of the frame leave the front of the queue |
| Http2Send.Interleave | http/source/http2/codec_impl.cc:135-240 | in every interleaving payload plus queue is the data encoded, a deferred stream has an empty queue, and after the EOF frame everything is sent and the trailers are handed over once (section 8.1 of RFC 7540) |
| Welford.WelfordStandardDeviation.Update | http/source/utility.cc:215-221 | the mean is the exact average, `m2` the exact sum of squared deviations, and `m2` never falls |
| Welford.WelfordStandardDeviation.ComputeVariance | http/source/utility.cc:223-236 | none before the second value, and never negative |

## Left out

- The response half of the parser, `HTTP_BOTH` and the lenient mode: the server never uses them.
- `s_body_identity_eof`, which a request parser never reaches, and the header results 1 and 2 at the codec, which returns 0 for every request; what the parser makes of them is `Grammar.CallbackSkipsBody`.
- Data callbacks that fail or pause: the codec's return 0.
- Execute.RequestParser.Execute: after an error the parser's state is not stated, for it is not used again, nor the byte count of a slice that passes the header limit.
- The printed response status line: `addIntToBuffer` writes a NUL into it, so it does not read back; response encoders share the base class modelled here.
- More than one request in one slice, responses finished before their request, resets and connections closed by the decoder: the codec leaves them to its caller.
- Codec.HandlePath: with absolute URLs allowed and an authority that ends behind byte 65535, the headers it makes are not stated; `ServerConnection` uses the default setting.
- Url.ParseUrl: for an authority that ends behind byte 65535 the parser's 16-bit offsets point elsewhere; which bytes are read then is stated, but not the fields found in them.
- Url.CutAbsolute: the same authorities are not covered.
- Codec.ServerConnection.OnHeadersComplete: the pause behind headers that made the decoder close the connection is not modelled.
- The error reply of `sendProtocolError`: output to the session.
- LookupTable.FindAdded: the trie is a value, so sharing of nodes is not captured; keys with an embedded NUL are not distinguished from what follows it.
- HeaderMap.HeaderMapImpl.InsertByKey: keys and values are strings; their storage is the separate module `HeaderString`.
- Encoder.SendAll: a head, and a buffer of data, has at most 2^30 bytes, where the buffer's 32-bit capacity arithmetic ends; "100 Continue" heads are covered by `EncodeHeaders` alone.
- `OwnedImpl::move(rhs, length)` where `length` cuts a buffer in two: its loop does not count down there, so the HTTP/2 queue takes it at its documented contract.
- Views that share memory (`duplicate`, `slice`, `getSlice`), marks beyond `capacity` and `shrink`, and indexed multi-byte puts of `EIoBuffer`.
- RequestFraming.SocketSession.MessageReceived: a length that is not all digits, or above the 32-bit range, throws in the model; the original also takes signed numbers, and a negative one leaves the cache undefined, as does a size that overflows, about which nothing is said.
- `EIoFilterChain::clear`, which removes from a map while iterating over it, and filters that change the chain while an event passes.
- Accounting.Accounts: the steps stand for updates of atomic counters and of maps that only their own thread sees; failures of `addSession` and handlers that close the session themselves are not covered.
- Http2Send.Interleave: what nghttp2 does with frames and trailers once it has them, flow control, and streams whose headers end them.
- Welford.WelfordStandardDeviation.Update: floating point; the statement is about real numbers.
- nghttp2, HPACK, TLS, sockets, files, the fiber scheduler, logging, clocks and the idle cleaner: foreign code and I/O.
- White and black lists, subnets, statistics getters, date formatting, string helpers and servlet dispatch: they would only add easy members.
