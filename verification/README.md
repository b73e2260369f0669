# Verified models of the ghelpers core

`ghelpers` is a library of C helpers. This project models its self-contained algorithms in Dafny and proves what they
are for: an incremental HTTP/1.x parser with its URL splitter, a segregated free-list allocator, doubly linked lists
and the many-to-many resource lists built on them, the Unicode core, SHA-1, Base64, and the merging of JSON
configurations. Every result is for all inputs, all runs or all reachable states.

| files | what they model |
|---|---|
| `HttpTypes`, `HttpSwitch` | the data and the whole switch of the strict-mode HTTP machine, as a function of one byte |
| `HttpTrace`, `HttpRun`, `HttpSync` | byte-at-a-time reading of a stream, and how the marks of a buffer stay in step with it |
| `HttpInvariant` | what every reachable parser satisfies; the assertions of the source |
| `HttpBulk`, `HttpExecute` | `http_parser_execute` with its bulk loops, as a class, refining the byte-wise reading |
| `HttpSteps`, `HttpNames`, `HttpBodies`, `HttpChunked` | header names, length arithmetic, bodies and chunked framing |
| `HttpTokens` | which codings and connection options are heard in a header value, by its elements |
| `HttpLeads`, `HttpLines`, `HttpHeaders` | any header lines, folded ones too, read within max_header_size and refused beyond it |
| `HttpFraming`, `HttpDeviations` | which body follows the headers, against RFC 7230, and where the two differ |
| `HttpMessages` | headers and body together |
| `HttpAlike`, `HttpPipeline`, `HttpKinds` | what one message leaves behind for the next, and which kind of message a stream starts with |
| `HttpNumerals`, `HttpClasses` | the numbers that digits stand for, and the character classes, against the standards |
| `HttpMethods`, `HttpRequestLine`, `HttpRequests` | whole requests, from method to body, and lists of them |
| `HttpResponses` | whole responses |
| `UrlSections`, `UrlHost`, `Url` | `http_parser_parse_url`, as a class that fills in its fields |
| `GbHeap`, `Gbmem` | the allocator: its heap on values, and the object with pools linked through memory |
| `DlList` | the intrusive list, with nodes and links as objects |
| `RcMemory`, `RcList`, `RcWalk` | resources, twin instances, recursive deletion and the tree walks |
| `Utf8`, `Utf8Order`, `Utf8Compose`, `Utf8Map` | strict UTF-8, canonical ordering, composition, and the in-place pipeline |
| `Sha1Words`, `Sha1` | words and what is done to their bits; the streaming context against the definition of FIPS PUB 180-1 |
| `Base64` | encoder and strict decoder |
| `JsonConfig` | recursive update of JSON objects, lists as sets, lists of integer ranges |

How the parts are modelled:

- HTTP: an octet is a character below 256. Callbacks return 0, except that `on_headers_complete` gives one fixed answer
  (0, 1 or 2) for a connection. Data callbacks are compared after joining adjacent fragments of the same kind.
  `max_header_size`, the lenient flag and `allow_chunked_length` are parameters. The comment at
  src/00_http_parser.c:2532 says that ports have a maximum of 2^16; the code, and the model, allow up to 65535.
  The header count is not reset between messages where a trailer or blank lines came last;
  `NextRequest` says exactly which messages that matters to.
  The parser hears words in a header value by rules of its own: the comma after a part of a word, or after chunked, is
  not noticed; white space other than a space, and a line end within an element, end the reading. `HttpTokens` states
  them by the elements of the value; `Hears` is what comes of them, and `HearsIs` says when it is what the list holds.
  `unhex` leaves its entries from 128 up at zero, so those octets read as digit 0 in a chunk size.
- gbmem: an address is a superblock and a block index; a unit of memory is its first eight bytes (link or header) and
  the rest. `sys_malloc` gives a fresh superblock every time. Clients free only live blocks and write behind the header.
  Startup does not check that a superblock holds the largest block; `NewTailFits` says what depends on it.
- Lists of resources: the sequence meaning of the intrusive list is proved in `DlList`; `RcList` builds on sequences of
  instances, removes freed instances from memory, and so makes every access to freed memory a failed proof.
- Walks: the callback is any function of the instances seen so far, and leaves the lists alone.
- Unicode: combining classes, decompositions and compositions are parameters; what is assumed of them is in
  `TablesOk`, `HangulOk`, `TBaseOk`, `TBaseAlone`, `TablesInRange` and `Full`. Shifts and masks are written as division, remainder and addition.
- SHA-1: words and octets are the numbers they stand for; `&`, `|` and `^` work on the binary digits of these, and sums
  are taken modulo 2^32 as the masks of the code do.
- Base64: texts are ASCII; digits are joined by addition where the code uses `|` on fields that share no bit.
- JSON: what `json_dumps` writes is a parameter; equality of dumps is what the code takes for equality of values.
  The comment at src/03_json_config.c:517-519 asks for first < second in a range; the code, and the model, allow equality.

## Model

| member | source | states |
|---|---|---|
| `HttpRun.RunConcat` | src/00_http_parser.c:640-2154 | Reading a + b byte by byte is reading a and then b: it fails when that fails, and else the parser fields and the joined callback trace are the same, also on an upgrade. |
| `HttpExecute.Connection.Execute` | src/00_http_parser.c:640-2154 | The buffer-at-a-time parser with its bulk loops, marks and callbacks ends with the parser fields and joined trace of the byte-at-a-time reading, fails when that fails, and stops at the same byte on an upgrade. |
| `HttpExecute.SplitInvariance` | src/00_http_parser.c:640-2154 | A stream given as one buffer or cut into two non-empty ones leaves two equal connections equal. |
| `HttpExecute.Connection.ExecuteEof` | src/00_http_parser.c:664-683 | A call of length 0: exactly one message_complete when a body is read until the end, nothing between messages, an error in the middle of one. |
| `HttpExecute.Connection.constructor` | src/00_http_parser.c:2223-2232 | A fresh parser satisfies the machine's invariant and has called nothing. |
| `HttpExecute.OneTurn` | src/00_http_parser.c:711-2121 | One turn of the main loop, bulk loop included, takes the parser along the byte-at-a-time reading, or stops with it. |
| `HttpExecute.ScanName` | src/00_http_parser.c:1255-1380 | The inner loop over a header name stops at the first non-token byte, with the matcher where folding the bytes one by one puts it. |
| `HttpExecute.NameTurn` | src/00_http_parser.c:1255-1390 | Matching, counting and delivering a whole name at once equals doing so byte by byte, header overflow included. |
| `HttpExecute.ScanValue` | src/00_http_parser.c:1481-1705 | The inner loop over a header value, with its skip to the next CR or LF in bounded pieces, finds the same end, error and value state as the byte-wise fold, unless it skipped a byte behind max_header_size, which then overflows. |
| `HttpExecute.ValueTurn` | src/00_http_parser.c:1481-1749 | A whole header value at once equals its bytes one by one, header overflow included. |
| `HttpExecute.BodyTurn` | src/00_http_parser.c:1943-1977 | Taking as many announced body bytes as the buffer has equals taking them one by one. |
| `HttpExecute.EofTurn` | src/00_http_parser.c:1980-1984 | Taking the rest of the buffer as body equals taking it byte by byte. |
| `HttpExecute.CountOnce` | src/00_http_parser.c:153-160 | Counting v header bytes at once equals counting each once exactly when the 32-bit counter does not wrap into the allowed range. |
| `HttpExecute.CountWraps` | src/00_http_parser.c:153-160 | It does wrap for 2^32 bytes: the condition of CountOnce cannot be dropped. |
| `HttpSync.RelExec` | src/00_http_parser.c:717-2121 | The marks a buffer keeps and the fragments a byte-wise reader has open stay in step through the switch and every re-execution. |
| `HttpSync.RelFinish` | src/00_http_parser.c:2123-2146 | Flushing the open marks at the end of a buffer leaves exactly the byte-wise trace. |
| `HttpInvariant.RunInv` | src/00_http_parser.c:640-2154 | Every parser reached from one that satisfies the invariant (header index in its literal, chunked flag in chunk states, lengths in 64 bits) satisfies it, on any stream. |
| `HttpInvariant.AssertsHold` | src/00_http_parser.c:1369-2118 | On any stream from a fresh parser no assert() of the machine fires at the next byte. |
| `HttpNames.RecognisesName` | src/00_http_parser.c:1205-1390 | For names of any length the header state after the colon is connection, content-length, transfer-encoding or upgrade exactly when the case-folded name is one of theirs; uses_transfer_encoding is set exactly on the prefix transfer-encoding; the name is delivered once. |
| `HttpClasses.TokenIs` | src/00_http_parser.c:189-223 | The characters of header names are those of a token in section 3.2.6 of RFC 7230, and only letters are changed, to lower case. |
| `HttpClasses.HeaderCharIs` | src/00_http_parser.c:444-449 | Those of header values are the visible ones, octets from 128 up, spaces and tabs, and the line ends. |
| `HttpClasses.LowerIs` | src/00_http_parser.c:418-418 | What is folded to a letter is that letter in one of its cases, and nothing else is. |
| `HttpNumerals.DecimalRoundTrip` | src/00_http_parser.c:1535-1569 | The decimal strings read as a number are exactly those that write it with the figures 0 to 9, any zeros in front: Content-Length, status codes and ports are read by this value. |
| `HttpNumerals.NumeralValue` | src/00_http_parser.c:1535-1569 | The shortest numeral of every number is read as that number. |
| `HttpNumerals.HexRoundTrip` | src/00_http_parser.c:1995-2046 | So for chunk sizes, with the letters in either case: the strings without octets from 128 up that are read as a number are exactly those that write it in hexadecimal. |
| `HttpBodies.ContentLengthValue` | src/00_http_parser.c:1541-1569 | A digit string of any length is accepted exactly when its value passes the overflow check, and then content_length is its decimal value, without wrap and never ULLONG_MAX. |
| `HttpBodies.IdentityBody` | src/00_http_parser.c:1943-1977 | A body of the announced length is delivered exactly, as one fragment, followed by one message_complete. |
| `HttpBodies.ChunkBytes` | src/00_http_parser.c:2077-2098 | The data states deliver exactly content_length bytes of a chunk. |
| `HttpNumerals.SizeDigitIs` | src/00_http_parser.c:1995-2046 | The digits of a chunk size: the hexadecimal ones, each with its value, and in every position any byte from 128 up, as a 0. |
| `HttpChunked.ReadsSize` | src/00_http_parser.c:1995-2046 | Any bytes of any length up to the end of a chunk size are accepted exactly when they are such digits and the value fits; then content_length is that value, without wrap and never ULLONG_MAX. |
| `HttpChunked.RunChunk` | src/00_http_parser.c:1995-2115 | One chunk: chunk_header with its length, its data once, chunk_complete, and the parser is at a chunk again. |
| `HttpChunked.RunEnd` | src/00_http_parser.c:1794-1803 | A trailer of any header lines, or none, is delivered, and then one chunk_complete and one message_complete. |
| `HttpChunked.ChunkedRoundTrip` | src/00_http_parser.c:1995-2115 | For any list of non-empty chunks in any spelling of their sizes, with extensions and a trailer (RFC 7230, section 4.1): every chunk's header, data and completion in order, those of the last chunk with the trailer, and exactly one message_complete. |
| `HttpChunked.DeliversPayload` | src/00_http_parser.c:2077-2098 | The body callbacks of a chunked message concatenate to its payload. |
| `HttpAlike.SwitchSame` | src/00_http_parser.c:717-2121 | One pass of the switch depends on no field that its state will set again before it is read. |
| `HttpAlike.RunSame` | src/00_http_parser.c:640-2154 | Parsers that differ only in such fields read every stream alike: the same callbacks, error, upgrade, and fields. |
| `HttpPipeline.NextMessages` | src/00_http_parser.c:926-968 | After any messages, the bytes that follow are read as by a fresh parser of the same kind: nothing is left of the messages before but the header count. |
| `HttpPipeline.DeadRejects` | src/00_http_parser.c:720-728 | A parser that does not keep the connection reads line ends, as many as are left of max_header_size, without a callback, and refuses all else. |
| `HttpKinds.EitherKind` | src/00_http_parser.c:730-765 | A parser for both kinds of messages reads a stream that begins with HT, after any line ends, exactly as a parser for responses does, and every other stream, once more than an H has come, as one for requests. |
| `HttpMethods.RecognisesMethod` | src/00_http_parser.c:926-1021 | A request line goes on after its first space exactly when what came before is the name of a method, for names of any length, and then this is the method; message_begin is called once. |
| `HttpRequestLine.ReadsTarget` | src/00_http_parser.c:1023-1094 | A target of any length is taken up to its space exactly when it is complete and has sections in the sense of the URL parser; it is delivered once. |
| `HttpRequestLine.RunVersion` | src/00_http_parser.c:1096-1203 | HTTP/d.d and a line end set major and minor and nothing else. |
| `HttpTokens.ListValue` | src/00_http_parser.c:1481-1705 | A Transfer-Encoding or Connection value of any length, with line folding: the machine ends where its last element, read as `ElementSeen` and `After` say by the elements between the commas, stands, with the flag of every option heard before it. |
| `HttpTokens.ListEnd` | src/00_http_parser.c:1718-1748 | The end of the line then sets exactly the flags of the words that `Hears` hears in the value: chunked as the last element, an option anywhere. |
| `HttpTokens.HearsIs` | src/00_http_parser.c:1596-1705 | Wherever the code notices every comma, the words heard are exactly those that the list has by RFC 7230, section 7: chunked as its last element, an option as any. |
| `HttpLines.LeadsLead` | src/00_http_parser.c:1392-1406 | White space before a value, with any line ends in it, is skipped. |
| `HttpLines.LeadsSymbols` | src/00_http_parser.c:1481-1730 | Further characters of a value, on one line or folded over several, are delivered in one fragment, and move what reading them one after another moves. |
| `HttpLines.PassesLine` | src/00_http_parser.c:1718-1792 | A line is over when the next byte is no white space: what follows is read as from the start of a line with the flag set, an empty value being delivered only now. |
| `HttpHeaders.LengthTake` | src/00_http_parser.c:1541-1577 | A Content-Length value that starts with a digit is taken exactly when it is digits that fit and then spaces or line ends, and then content_length is their value. |
| `HttpHeaders.LengthRefused` | src/00_http_parser.c:1435-1577 | An empty length, one that is none, and a second one are errors. |
| `HttpHeaders.LineRead` | src/00_http_parser.c:1205-1792 | Any header line in the grammar of RFC 7230, section 3.2, is delivered once; it sets uses_transfer_encoding exactly if its name starts with transfer-encoding, F_CHUNKED and the connection flags exactly if their word is heard in it, F_UPGRADE exactly if it is an Upgrade with a value, and the length if it is one; or it is refused, exactly if it is a length that is not acceptable. |
| `HttpHeaders.HeadersRead` | src/00_http_parser.c:1205-1792 | Any list of such lines is delivered once and in order, up to max_header_size, and leaves the flags that some line sets and the length; it is refused beyond that, or when its lengths are not acceptable. |
| `HttpFraming.FramingIs` | src/00_http_parser.c:1794-1940 | For any headers in the grammar of RFC 7230, of requests and responses: the framing the code chooses, and that it is one that section 3.3.3 permits exactly when `Deviates` does not hold of the message: no response without a body by its status announces one, no name only starts like Transfer-Encoding, chunked is heard exactly when it is the final coding, no length is misread, and the lenient flag lets no request through. |
| `HttpFraming.PermittedIs` | src/00_http_parser.c:1794-1940 | The same on messages alone: the code's rules against those of the standard. |
| `HttpFraming.TakenIs` | src/00_http_parser.c:1794-1940 | Each framing takes the parser to its state, with headers_complete called once and, where there is no body, message_complete. |
| `HttpDeviations.OneLineHeard` | src/00_http_parser.c:1596-1748 | With one Transfer-Encoding line in which every comma is noticed, chunked is heard exactly when it is the final coding. |
| `HttpDeviations.ExtendedName` | src/00_http_parser.c:1338-1347 | Any name that properly extends Transfer-Encoding gets a request without a body refused. |
| `HttpDeviations.SecondCoding` | src/00_http_parser.c:1736-1740 | After chunked, another coding on a second line: chunks are read though the length is unknown. |
| `HttpDeviations.TabAfterChunked` | src/00_http_parser.c:1669-1671 | After a tab chunked is not heard: a request in chunks is refused. |
| `HttpDeviations.TabAfterLength` | src/00_http_parser.c:1571-1577 | A length and a tab is an error: a request with a length is refused. |
| `HttpDeviations.LenientCoding` | src/00_http_parser.c:1898-1917 | With the lenient flag a request with another coding is read until the end of the connection. |
| `HttpDeviations.NoContent` | src/00_http_parser.c:1873-1940 | Any response with a 1xx, 204 or 304 status and a length has so many bytes read. |
| `HttpFraming.NeedsEofIs` | src/00_http_parser.c:2157-2184 | For any headers, http_message_needs_eof agrees with the state chosen exactly when no Transfer-Encoding other than chunked, or what is taken for one, is left to a request or to a status without a body. |
| `HttpFraming.MessageDelivered` | src/00_http_parser.c:1794-2115 | From the last byte of the headers on, for requests and responses: headers_complete, the body in the framing taken, one message_complete unless the connection has to end first, the header count that the trailer leaves, and a next message exactly when the connection is kept; or an error, exactly when no framing is taken. |
| `HttpFraming.ContentDelivered` | src/00_http_parser.c:1943-2115 | The body callbacks of a message concatenate to what was sent. |
| `HttpMessages.MessageRun` | src/00_http_parser.c:1205-2115 | Any headers in the grammar of RFC 7230, with folding, lists and names of all kinds, and a body in the framing the code takes for them: delivered as exactly their parts when a framing is taken and the head is within max_header_size, and refused otherwise; a message that asks for another protocol ends the stream. |
| `HttpMessages.KeepsAliveIs` | src/00_http_parser.c:2187-2203 | When the connection is kept, against RFC 7230, section 6.3, on the options the headers list: the exact condition for the two to agree, by version. |
| `HttpMessages.OptionsHeard` | src/00_http_parser.c:1596-1748 | Where every comma of the Connection headers is noticed and there is no Proxy-Connection, the options heard are those listed. |
| `HttpRequests.RequestDelivered` | src/00_http_parser.c:640-2154 | A request of any method, with any complete target, version and headers, and a body in the framing the code takes for them, is delivered as exactly its parts, each once and in order, when a framing is taken and its head fits what is left of max_header_size, and refused when not; the parser is ready for another exactly when version and Connection headers keep the connection. |
| `HttpRequests.RequestsDelivered` | src/00_http_parser.c:640-2154 | So is any list of requests on a connection, exactly when a framing is taken for each, every head fits what the trailer before it leaves, and every request but the last keeps the connection. |
| `HttpRequests.NextRequest` | src/00_http_parser.c:153-160 | After any messages a request is delivered exactly when a framing is taken for it and its head fits what they left of max_header_size: it fares as with a fresh parser, unless it fits the limit but not what is left. |
| `HttpRequests.LineEnds` | src/00_http_parser.c:926-932 | Line ends between messages are read and counted: every header count up to the limit is reached. |
| `HttpRequests.CountIsLeft` | src/00_http_parser.c:153-160 | After as many line ends as the limit, a request is refused that a fresh parser delivers. |
| `HttpResponses.ReadsCode` | src/00_http_parser.c:849-904 | A status code of any length is accepted exactly when its value is at most 999, and then status_code is that. |
| `HttpResponses.ResponseDelivered` | src/00_http_parser.c:640-2154 | A response of any version, status, reason and headers, with a body in the framing the code takes for them, up to the end of the connection included (which `ExecuteEof` completes), is delivered as exactly its parts when a framing is taken and its head fits, and refused when not. |
| `UrlSections.ReadIff` | src/00_http_parser.c:492-638 | The character machine reads a text to the end exactly when it is made of a schema, server, path, query and fragment in this order with their delimiters, and these are unique. |
| `UrlHost.ReadServerIff` | src/00_http_parser.c:2252-2332 | The host machine reads a server section to the end exactly when it is user information, name or bracketed address with zone, and port, and these are unique. |
| `Url.Url.FindSections` | src/00_http_parser.c:2437-2497 | The first loop succeeds exactly on such texts, and field_data then holds where each section is; found_at says whether the server has an @. |
| `Url.Url.FindServer` | src/00_http_parser.c:2334-2413 | http_parse_host succeeds exactly on complete server sections, and replaces the host by its name and adds user information and port, leaving the other fields. |
| `Url.Url.ParseUrl` | src/00_http_parser.c:2421-2542 | Success exactly on accepted texts; every field is then the run of the text that is its part, within the text, in the order schema, user information, host, port, path, query, fragment, and disjoint from the others; port is the decimal value of its field, at most 65535; CONNECT has host and port only. |
| `Url.ParsePort` | src/00_http_parser.c:2517-2538 | The port loop gives the decimal value of the digits, or fails exactly when that exceeds 65535. |
| `HttpClasses.UserinfoIs` | src/00_http_parser.c:421-428 | The characters of user information are those of section 3.2.1 of RFC 3986. |
| `HttpClasses.UrlCharIs` | src/00_http_parser.c:242-278 | Those of a path are the ones section 3.3 allows and eleven visible characters more. |
| `HttpClasses.HostCharIs` | src/00_http_parser.c:435-435 | Those of a host name are letters, digits, dots and hyphens, fewer than section 3.2.2 allows. |
| `HttpClasses.V6CharIs` | src/00_http_parser.c:2287-2320 | Those of an address in brackets are hexadecimal digits, colons and dots, and those of its zone the ones RFC 6874 allows. |
| `GbHeap.MallocOk` | src/11_gbmem.c:598-928 | On every path an allocation keeps the heap partitioned and accounted for; the block is new, long enough and in a pool's range, no live block moves, and it fails only when no pool from the wanted one up has a block and no superblock may be taken. |
| `GbHeap.MallocTakes` | src/11_gbmem.c:757-928 | Which block is taken: one of exactly the length asked for, unless its pool, the tail and the superblocks are all used up, and then one of the least length from there up that a pool has; a superblock is added exactly when neither pool nor tail has room; the block is the head of its pool or the front of the tail, and nothing else changes but for the rest of a tail given up. |
| `GbHeap.ReleaseOk` | src/11_gbmem.c:933-1035 | Freeing a live block keeps the heap partitioned and accounted for. |
| `GbHeap.GrowOk` | src/11_gbmem.c:491-585 | Donating the tail to its pool and adding a superblock keeps the heap partitioned and accounted for. |
| `GbHeap.CarveOk` | src/11_gbmem.c:888-894 | So does cutting a block off the tail. |
| `GbHeap.TakePoolOk` | src/11_gbmem.c:757-884 | So does taking a block from any pool, also a larger one. |
| `GbHeap.After` | src/11_gbmem.c:491-1035 | Every heap a client can reach from startup has live blocks, free-list blocks and tail pairwise disjoint and exactly covering the superblocks, and their units add up. |
| `GbHeap.FreshUnits` | src/11_gbmem.c:598-928 | No unit of a new block was in a live block before. |
| `GbHeap.ReleaseThenMalloc` | src/11_gbmem.c:598-1035 | Freeing a block and asking for its length again gives it back and restores the heap. |
| `Gbmem.DeriveIs` | src/11_gbmem.c:170-262 | What startup accepts and the sizes it derives, exactly: pools up to the largest block, blocks that fill a superblock as far as 32 bits count them, and as many superblocks as the system memory holds. |
| `Gbmem.WithinSystemMemory` | src/11_gbmem.c:243-262 | The superblocks the derived limit allows never exceed the configured system memory. |
| `Gbmem.DerivedSizes` | src/11_gbmem.c:243-262 | The derived sizes satisfy what the allocator relies on when min_block is a power of two and a superblock holds the largest block. |
| `Gbmem.ComputeShift` | src/11_gbmem.c:325-335 | The startup loop finds the exponent of a power of two. |
| `Gbmem.RequestIs` | src/11_gbmem.c:666-728 | Without a wrap of the 64-bit sum a request gets the fewest units that hold it and its header, or NULL exactly when that is above the largest block; a sum that wraps gets NULL when it wraps to 0 or there are no pools, and else one unit. |
| `Gbmem.RequestHolds` | src/11_gbmem.c:666-728 | A request gets units that do not hold it and its header exactly when their sum is more than 2^64 and there is a pool. |
| `Gbmem.WrappedRequest` | src/11_gbmem.c:666-728 | 2^64 - 7 is such a request. |
| `Gbmem.ClearsAll` | src/11_gbmem.c:699-700 | A block is cleared as far as it was asked for exactly when its length in bytes fits 32 bits, and else as many whole units as that length modulo 2^32 has. |
| `Gbmem.WideBlock` | src/11_gbmem.c:699-700 | Startup accepts sizes with a block of 2^32 bytes; it is given, and nothing of it is cleared. |
| `Gbmem.NewTailFits` | src/11_gbmem.c:797-894 | A new superblock has room for every request exactly when it is not shorter than the largest block. |
| `Gbmem.ShortSuperblockStarts` | src/11_gbmem.c:243-262 | Startup accepts sizes for which that fails. |
| `Gbmem.Allocator.constructor` | src/11_gbmem.c:285-345 | After startup the object holds the heap with one superblock as tail and empty pools. |
| `Gbmem.Allocator.AllocSuperblock` | src/11_gbmem.c:491-585 | It fails exactly at the maximum number of superblocks; else the tail is donated to its pool, a zeroed superblock follows, and no live block's memory changes. |
| `Gbmem.Allocator.TakeBlock` | src/11_gbmem.c:757-774 | Unlinking the head of a pool: the heap, the header with the pool's length, the cleared units; live memory unchanged. |
| `Gbmem.Allocator.CarveBlock` | src/11_gbmem.c:888-908 | The same for a block off the tail. |
| `Gbmem.Allocator.TakeLarger` | src/11_gbmem.c:797-884 | The upward search takes from the first pool with a block, whose length the header records, or aborts when there is none. |
| `Gbmem.Allocator.Malloc` | src/11_gbmem.c:598-928 | gbmem_malloc through linked lists in memory, headers and counters does what the heap operation says: NULL, abort, or a block with its header; all live memory is unchanged. |
| `Gbmem.Allocator.Free` | src/11_gbmem.c:933-1035 | gbmem_free reads the length from the header, never takes an error branch for a live block, relinks it in its pool and leaves all other live memory. |
| `Gbmem.Allocator.ClientWrite` | src/11_gbmem.c:933-1035 | Whatever a client writes to its block behind the header keeps links, headers and heap. |
| `Gbmem.Allocator.Stats` | src/11_gbmem.c:1225-1313 | pool_sizes never disagrees with the lists, and mem_in_use is exactly the size of all live blocks. |
| `DlList.List.Add` | src/02_dl_list.c:219-243 | Appends, or refuses an item with links and changes nothing; the id is the next one. |
| `DlList.List.Insert` | src/02_dl_list.c:245-270 | Puts an item first, likewise. |
| `DlList.List.InsertBefore` | src/02_dl_list.c:272-302 | Puts an item before one of the list, or first. |
| `DlList.List.InsertAfter` | src/02_dl_list.c:304-334 | Puts an item after one of the list, or last. |
| `DlList.List.Delete` | src/02_dl_list.c:336-420 | Takes exactly that item out and unlinks it, or refuses one that is not in this list; ids and last id stay. |
| `DlList.List.Flush` | src/02_dl_list.c:47-67 | Empties the list, unlinks every item and goes on with the ids. |
| `DlList.List.Find` | src/02_dl_list.c:72-84 | Following the forward links finds exactly the members. |
| `DlList.List.FindBack` | src/02_dl_list.c:113-125 | Following the backward links finds exactly the members. |
| `DlList.List.Nfind` | src/02_dl_list.c:89-107 | The item at a position from one, or none. |
| `DlList.List.FindIndex` | src/02_dl_list.c:443-458 | The position of an item from one, or zero. |
| `DlList.IndexInverse` | src/02_dl_list.c:89-107 | nfind and index undo each other. |
| `DlList.InsertThenRemove` | src/02_dl_list.c:272-420 | Deleting what was just inserted restores the sequence. |
| `DlList.RemoveThenInsert` | src/02_dl_list.c:272-420 | Putting a deleted item back where it was restores the sequence. |
| `RcMemory.NewPairValid` | src/12_rc_list.c:111-185 | Adding a pair of twins keeps the twin invariant: internal and external instances of every resource in bijection, nothing leading to freed memory. |
| `RcList.AddedMeans` | src/12_rc_list.c:111-263 | What rc_add_instance and rc_insert_instance change: the external instance comes last or first in its list, the internal one last in those of the resource, each is the other's twin, and nothing else changes. |
| `RcMemory.KeepOrder` | src/12_rc_list.c:401-478 | What is left of a list is in the order it was in. |
| `RcList.UnpairMeans` | src/12_rc_list.c:401-478 | What rc_delete_instance changes: the instance and its twin leave their places in their two lists, the resource and its lists go exactly when it is to be freed and has no instance left, and nothing else changes. |
| `RcMemory.DropValid` | src/12_rc_list.c:401-478 | Taking both twins of any pairs away keeps it. |
| `RcMemory.FreeValid` | src/12_rc_list.c:473-475 | Freeing a resource keeps it exactly when the resource has neither instances nor children left. |
| `RcMemory.DoomedClosed` | src/12_rc_list.c:483-504 | A resource and its descendants hold the children of all their members. |
| `RcMemory.DoomedLeast` | src/12_rc_list.c:483-504 | They are the least such set. |
| `RcMemory.PurgeValid` | src/12_rc_list.c:483-504 | Removing all instances of a set of resources closed under children, and the resources if wanted, keeps the twin invariant. |
| `RcMemory.PurgeMeans` | src/12_rc_list.c:483-504 | A purge takes exactly the instances of its resources out of every list, and changes no other instance. |
| `RcMemory.PurgeNext` | src/12_rc_list.c:487-490 | One turn of the loop over the children, in terms of the memory at the start: what was purged stays closed, below the resource and without it. |
| `RcMemory.NewChildAcyclic` | src/12_rc_list.c:883-972 | rc_add_child looks for no cycles: none can be reached from the parent afterwards exactly when the parent is neither the child nor a descendant of it; and there is none at all if there was none before. |
| `RcList.UnpairValid` | src/12_rc_list.c:401-478 | Deleting an instance keeps the twin invariant, except exactly when it frees a resource that has children. |
| `RcList.Store.AddInstance` | src/12_rc_list.c:111-263 | A pair of twins for a given or new resource, the external one last or first in its list; the twin invariant is kept. |
| `RcList.Store.DeleteInstance` | src/12_rc_list.c:401-478 | None of its pointer checks fails; both twins go, and on request the resource when they were the last. |
| `RcList.Store.DeleteResource` | src/12_rc_list.c:483-504 | Where no cycle can be reached from the resource it terminates and leaves no list with an instance of the resource or a descendant; every other pair, list order and resource survives. |
| `RcList.Store.DeleteAllChilds` | src/12_rc_list.c:1023-1034 | The same for the descendants only. |
| `RcList.Store.FreeIter` | src/12_rc_list.c:47-60 | Exactly the instances of the iterator and their twins go, and on request the resources that leaves without any. |
| `RcList.ClearedValid` | src/12_rc_list.c:401-478 | Taking pairs of twins away, and the resources that leaves without any, keeps the twin invariant exactly when none of these has children left. |
| `RcList.IterValid` | src/12_rc_list.c:47-60 | Freeing an iterator with its resources keeps the twin invariant exactly when no resource that is in no other list has children. |
| `RcList.Store.NewIter` | src/12_rc_list.c:20-41 | An empty iterator keeps the twin invariant. |
| `RcList.Store.AddChild` | src/12_rc_list.c:883-972 | A pair of twins at the end of the parent's children, with the parent recorded; it reports, and goes on, when the child had one. |
| `RcList.Store.ChildIndex` | src/12_rc_list.c:634-653 | The first instance of the child in the list, and its position from one. |
| `RcList.Store.RemoveChild` | src/12_rc_list.c:978-1017 | Removes the first such instance and its twin and clears the parent, or reports that there is none and changes nothing. |
| `RcWalk.BottomUpReverses` | src/12_rc_list.c:802-867 | The order from bottom to top is the reverse of the order from top to bottom, on any forest. |
| `RcWalk.ReversedAt` | src/12_rc_list.c:682-725 | The reverse of a list has its items from last to first. |
| `RcWalk.DownAt` | src/12_rc_list.c:802-867 | Every place of a forest, given by positions among siblings, is visited from top to bottom after as many places as are before it; |
| `RcWalk.DownInOrder` | src/12_rc_list.c:802-867 | these are counted in the order that puts a place before those below it and before those at or below a later sibling; |
| `RcWalk.DownPlace` | src/12_rc_list.c:802-867 | and nothing else is visited. |
| `RcWalk.LevelsSame` | src/12_rc_list.c:733-784 | The order by levels visits the same places as often. |
| `RcWalk.LevelsBackSame` | src/12_rc_list.c:733-784 | So does the order by levels from last to first. |
| `RcWalk.LevelsParentsFirst` | src/12_rc_list.c:733-784 | By levels every place comes after the one it is below. |
| `RcWalk.BackParentsFirst` | src/12_rc_list.c:733-784 | Also from last to first. |
| `RcWalk.LevelsTurns` | src/12_rc_list.c:733-784 | By levels: the roots, and then for each in turn that walk of its children. |
| `RcWalk.LevelsBackTurns` | src/12_rc_list.c:733-784 | From last to first: the roots reversed, and then for each, from the last, that walk of its children. |
| `RcWalk.CutIsPrefix` | src/12_rc_list.c:682-725 | A negative answer cuts a walk to the prefix that ends with the place that gave it, and is returned; otherwise the walk is complete and returns zero. The callback may be any function of what it has seen. |
| `RcWalk.DownIsCut` | src/12_rc_list.c:802-867 | Without positive answers the walk from top to bottom is the full order, cut at the first negative answer. |
| `RcWalk.DownIsSkipping` | src/12_rc_list.c:802-867 | With any answers it is that order, where a positive answer passes over as many places as are below the one that gave it and a negative one ends the walk. |
| `RcWalk.WalkByList` | src/12_rc_list.c:682-725 | The list walk in both directions against the order and the callback. |
| `RcWalk.WalkByLevel` | src/12_rc_list.c:733-784 | The recursive level walk in both directions against the order by levels. |
| `RcWalk.WalkDown` | src/12_rc_list.c:802-867 | The recursive walk from top to bottom, with positive answers skipping a branch. |
| `RcWalk.WalkUp` | src/12_rc_list.c:802-867 | The recursive walk from bottom to top. |
| `RcWalk.WalkByTree` | src/12_rc_list.c:802-867 | The public walk on the forest the memory unfolds to. |
| `RcWalk.UnfoldRooted` | src/12_rc_list.c:802-867 | The paths of the unfolded forest go down from the walked list. |
| `RcWalk.WalkDuality` | src/12_rc_list.c:682-867 | With callbacks returning 0 the trace from bottom to top is the reverse of that from top to bottom, and the trace by levels has the same instances as often. |
| `Utf8.IterateEncode` | src/00_utf8proc.c:121-197 | The decoder reads the encoding of every scalar value back, whatever follows. |
| `Utf8.EncodeIterate` | src/00_utf8proc.c:121-197 | Whatever the decoder accepts is the encoding of a scalar value: no overlong form, surrogate or number above 10FFFF. |
| `Utf8.DecodeIff` | src/00_utf8proc.c:121-197 | A string decodes to code points exactly when it is the encoding of these scalar values. |
| `Utf8.EncodingForm` | src/00_utf8proc.c:173-197 | The encoding has the bytes of table 3-6 of the Unicode Standard: how many, with which marks, and their other bits make the number. |
| `Utf8Order.Reorder` | src/00_utf8proc.c:542-560 | The ordering loop terminates and leaves a permutation without neighbours of classes x > y > 0, equal classes in their order, starters in place, and the rest of the buffer alone. |
| `Utf8Order.SwapWeight` | src/00_utf8proc.c:542-560 | Every exchange lowers the measure, though the loop steps back. |
| `Utf8Order.OrderedUnique` | src/00_utf8proc.c:542-560 | There is only one such reordering, so the loop computes the canonical order (Unicode Standard, section 3.11). |
| `Utf8Compose.ComposeInPlace` | src/00_utf8proc.c:601-676 | The composing loop, with its starter and highest class, composes in place what `Compose` says: with the last starter, when nothing after it blocks. |
| `Utf8Compose.StandardIs` | src/00_utf8proc.c:601-676 | That is the composition of the Unicode Standard, section 3.11, exactly when no U+11A7 meets an unblocked syllable without a trailing consonant, for all strings. |
| `Utf8Compose.BlockedIff` | src/00_utf8proc.c:619-661 | A character is blocked from the last starter exactly when its class is not above the loop's maximum. |
| `Utf8Compose.HangulRoundTrip` | src/00_utf8proc.c:412-427 | Decomposing a string of precomposed syllables and composing it again gives the string. |
| `Utf8Compose.TBaseRoundTrip` | src/00_utf8proc.c:601-676 | A string of syllables and U+11A7 comes back exactly when no U+11A7 is right after a syllable without a trailing consonant. |
| `Utf8Compose.TBaseIsLost` | src/00_utf8proc.c:631-637 | The shortest string that does not: U+AC00 U+11A7 becomes U+AC00. |
| `Utf8Map.Decompose` | src/00_utf8proc.c:497-566 | Decoding, decomposing into a buffer of any size and ordering: the count, the error, the contents and the terminating zero. |
| `Utf8Map.MeasureIs` | src/00_utf8proc.c:502-540 | The loop succeeds exactly on valid UTF-8 whose decomposition is not too long, and then counts it. |
| `Utf8Map.Reencode` | src/00_utf8proc.c:680-702 | Writing UTF-8 over the UTF-32 it reads never overwrites a number that is still unread, and leaves exactly the encoding and a zero byte. |
| `Utf8Map.Map` | src/00_utf8proc.c:704-743 | The pipeline gives the encoding of the ordered, and if asked composed, decomposition, or the decoder's error. |
| `Utf8Map.PartsFlat` | src/00_utf8proc.c:405-475 | The decomposition of a text is, one code point after the other, the jamo of a syllable by the formula of section 3.12, the entry of the tables where there is one, and else the code point itself. |
| `Utf8Map.DecomposeIs` | src/00_utf8proc.c:704-743 | With DECOMPOSE or COMPOSE every valid text becomes the encoding of that in canonical order, composed in the second case. |
| `Utf8Map.DecomposeTwice` | src/00_utf8proc.c:704-743 | When the tables decompose fully, no character of a decomposed text can be decomposed, and mapping it again changes nothing. |
| `Utf8Map.PlainIdentity` | src/00_utf8proc.c:704-743 | With option 0 every valid UTF-8 string comes back as it was. |
| `Utf8Map.HangulIdentity` | src/00_utf8proc.c:704-743 | With COMPOSE every string of precomposed syllables comes back as it was. |
| `Utf8Map.TBaseIdentity` | src/00_utf8proc.c:704-743 | With COMPOSE a string of such syllables and U+11A7 comes back exactly under the condition of TBaseRoundTrip. |
| `Sha1.Context.constructor` | src/00_sha1.c:71-86 | A reset context is that of the empty message. |
| `Sha1.Context.ProcessMessageBlock` | src/00_sha1.c:198-291 | The schedule and the four loops compute the block function of FIPS PUB 180-1, section 7, on the block. |
| `Sha1.ScheduleIs` | src/00_sha1.c:215-227 | The words of the schedule: the first sixteen are the values of four octets, the first counting most; bit i + 1, modulo 32, of every later word t is the exclusive or of bits i of the words t - 3, t - 8, t - 14 and t - 16. |
| `Sha1.RoundIs` | src/00_sha1.c:235-277 | A round on bits and numbers: the first word becomes the sum, modulo 2^32, of the first word with every bit moved by 5, of the word whose bits choose, are the parity, or are the majority of those of the next three, of the fifth, of the word of the schedule and of the constant; the second comes third with every bit moved by 30; the others move on. |
| `Sha1.BlockIs` | src/00_sha1.c:279-291 | A block: 80 rounds from the words before it, added to these modulo 2^32. |
| `Sha1.BlocksMore` | src/00_sha1.c:71-86 | The digest starts from the five constants and takes one block after the other. |
| `Sha1Words.RotateBits` | src/00_sha1.c:46-48 | A circular shift moves every bit by its number of places, for every number up to 32. |
| `Sha1Words.BigEndianValue` | src/00_sha1.c:215-220 | Four octets shifted and joined are their positional value. |
| `Sha1.Context.PutOctet` | src/00_sha1.c:153-175 | One octet: block index in range, whole blocks digested, the two length words together 8 times the octets seen, corrupted exactly at 2^64 bits. |
| `Sha1.Context.Input` | src/00_sha1.c:141-176 | Any data at once continues the message; corrupted exactly when it reaches 2^64 bits or comes after the result. |
| `Sha1.Context.PadMessage` | src/00_sha1.c:313-352 | Padding into one block or two gives the digest of the padded message. |
| `Sha1.PadBlocks` | src/00_sha1.c:313-352 | When the padding takes one block and when two, by the rest of the message. |
| `Sha1.PadIs` | src/00_sha1.c:313-352 | The padded message is the message, 0x80, zeros, and eight octets whose value is the length in bits, and is the shortest such multiple of 64 octets. |
| `Sha1.Context.Result` | src/00_sha1.c:104-118 | The digest of all input, also when asked for again; failure exactly when corrupted. |
| `Sha1.DigestInPieces` | src/00_sha1.c:71-352 | However a message is cut into calls, the result succeeds exactly below 2^64 bits and is then the digest of the message. |
| `Base64.Encode` | src/00_base64.c:117-174 | The encoding of RFC 4648, section 4, and a NUL, exactly when the target has room for both. |
| `Base64.Decode` | src/00_base64.c:182-298 | Success exactly on accepted texts, and the octets of the digits. |
| `Base64.AcceptedIsEncoding` | src/00_base64.c:182-298 | With a target, what is accepted is, without its white space, the encoding of what is delivered. |
| `Base64.EncodingIsAccepted` | src/00_base64.c:182-298 | Every encoding is accepted exactly when the target has room for it, and decodes to what was encoded. |
| `Base64.ReadDigits` | src/00_base64.c:190-243 | The digit loop: the digits before the first character that is neither space nor letter, and the octets and left-over bits written so far. |
| `Base64.PutDigit` | src/00_base64.c:201-242 | One digit through the switch: what it writes, and when the target is too short for it. |
| `Base64.Lengths` | src/00_base64.c:301-313 | The length helpers give enough room for encoding and for decoding that, and how much more, exactly. |
| `Base64.LetterIs` | src/00_base64.c:50-51 | The letters are those of table 1 of RFC 4648. |
| `Base64.EncodedValue` | src/00_base64.c:117-174 | The encoding is letters for the digits, to base 64, of the octets as one number, this moved up to fill the last digit, and as many = as octets are missing from the last three. |
| `Base64.RoundTrip` | src/00_base64.c:117-298 | Encoding and decoding with buffers sized by the helpers, whatever white space is added, gives the octets back. |
| `JsonConfig.DictRecursiveUpdate` | src/03_json_config.c:372-407 | The recursive update computes the merge, or refuses what is no object and changes nothing. |
| `JsonConfig.ListUpdate` | src/03_json_config.c:443-466 | The list update appends all, or as a set what is missing, or refuses what is no list. |
| `JsonConfig.ListFind` | src/03_json_config.c:414-437 | The first index with the same dump, or -1 exactly when there is none. |
| `JsonConfig.MergeGet` | src/03_json_config.c:372-407 | What the merge does at each key, whatever the order of the other's keys. |
| `JsonConfig.MergeKeys` | src/03_json_config.c:372-407 | The keys are the target's in their order and then the other's new ones: the union. |
| `JsonConfig.ProtectedPaths` | src/03_json_config.c:372-407 | The protected update at every path: what the target has there stays, an object as one with more in it; where it has nothing, what the other has is added, unless that is below something of the target that is no object. |
| `JsonConfig.ProtectedLeaves` | src/03_json_config.c:372-407 | What is at a path of the target down to its non-object leaves stays. |
| `JsonConfig.OverwritingPaths` | src/03_json_config.c:372-407 | The overwriting update at every path: what the other has there replaces what was there, unless both are objects, which stay one, or lists, which keep their items and get those of the other they did not have; where the other has nothing, what was there stays unless it is below something of the other that is no object. |
| `JsonConfig.JoinedTwice` | src/03_json_config.c:372-407 | Updating twice from the same value, protected or overwriting, is updating once. |
| `JsonConfig.MergeTwice` | src/03_json_config.c:372-407 | The same for whole objects, order of keys included. |
| `JsonConfig.JoinedProper` | src/03_json_config.c:372-407 | Merging keeps keys unique at every level. |
| `JsonConfig.ExtendAddsMissing` | src/03_json_config.c:443-466 | A list grows only by items of the other list that were missing. |
| `JsonConfig.ExtendIdempotent` | src/03_json_config.c:443-466 | Extending twice is extending once. |
| `JsonConfig.ExtendOrder` | src/03_json_config.c:443-466 | Items are appended in the order of the other list, each when neither the list nor what is before it there has it. |
| `JsonConfig.Precedence` | src/03_json_config.c:1026-1064 | What is configured at a path: what the fixed configuration has there, if that is no object; nothing, below such a value of it; and where it has nothing, what the last source has there, unless the sources before have an object or a list there too, which stays an object or is extended. |
| `JsonConfig.LastLeaf` | src/03_json_config.c:1026-1064 | A leaf of the last source is the configured value wherever the fixed configuration has nothing, not even above. |
| `JsonConfig.MergeSources` | src/03_json_config.c:1026-1064 | The merging part of json_config and load_files computes that configuration. |
| `JsonConfig.ListsRangeToSet` | src/03_json_config.c:476-515 | The list of ranges becomes the values its items stand for, each once, in the order they appear. |
| `JsonConfig.ExpandedOrder` | src/03_json_config.c:476-515 | The items stand for, one after the other: a range for its numbers in order, any other list for its items, an integer for itself, and anything else for nothing. |
| `JsonConfig.ExtendIsSet` | src/03_json_config.c:476-515 | Of integers the result has the same members, each once. |
| `JsonConfig.ExpandedIs` | src/03_json_config.c:476-550 | An integer is among them exactly when an item is that integer, a range around it or a list with it. |

## Left out

- Execute: a call is taken to have less than 2^32 - max_header_size octets, because the 32-bit header counter can wrap otherwise (`CountOnce`, `CountWraps`).
- SplitInvariance: streams that switch protocols are compared by `Execute`, which stops both parsers at the same byte.
- HTTP error positions, pausing, failing callbacks, callbacks that answer differently from message to message, non-strict mode, and the string tables of methods, statuses and errors.
- RecognisesName, ContentLengthValue, ReadsSize, ReadsCode, ReadsTarget, RecognisesMethod: for header bytes within max_header_size; beyond it the parser reports an overflow, which `MessageRun`, `RequestDelivered` and `ResponseDelivered` state for whole heads.
- RequestDelivered, ResponseDelivered: lines end with CR and LF, one space is between the parts of the first line, and header values have no control characters; what a lone LF, several spaces, or the lenient flag let through besides is covered by `Execute` and `NextMessages`.
- RequestsDelivered: requests that ask for another protocol, or whose body only ends with the connection, end the stream, as `RequestDelivered` says.
- FramingIs: where the rest of the connection is another protocol, the framing is not compared with the standard.
- ParseUrl: texts above 65535 octets, whose offsets the 16-bit fields truncate.
- The system-malloc path of gbmem, `gbmem_realloc`, shutdown, mutexes, logging and tracing; a shift of 32 or more, which C leaves undefined, and superblocks of 2^32 units or more.
- Add, Insert, InsertBefore, InsertAfter, Delete: ids and counts do not wrap at 2^64, and the function that frees an item is not called.
- `dl_move`, which calls `dl_init` on a source that is not empty.
- FreeIter: when it frees resources, those that are in no other list have no children, because freeing one that has breaks the twin invariant (`IterValid`).
- Store: its lists are sequences; that the intrusive list means such a sequence is proved in `DlList`, for items of its own.
- DeleteResource: only where no cycle of children can be reached from the resource. `NewChildAcyclic` says when one arises.
- Walks whose callback deletes the current instance, `rc_free_iter2`, `rc_add_iter`, instance ids, failed allocations.
- AddInstance: the size of the resource's user data.
- Decompose, Map: NULLTERM, CHARBOUND, case folding, lumping, stripping, line-feed conversion, custom functions, and running out of memory.
- ComposeInPlace: compositions are starters, as `TablesOk` states; the lookup in the combination table is a parameter.
- The property tables, grapheme breaks and character widths of utf8proc.
- Input: data of 2^32 octets or more in one call, which its length parameter cannot express.
- Decode: octets from 128 up, for which `isspace` is undefined on what the code passes.
- DictRecursiveUpdate: values shared between the target and the other object; jansson shares them, and the other is dropped after each merge.
- ListsRangeToSet: ranges outside `int`, in which its loop counts.
- Parsing of JSON text and files, expansion of ranges and variables with PCRE2, and printing of configurations.
- The other helpers of the library: logging, files, sockets, `/proc`, strings, dates, terminals.
