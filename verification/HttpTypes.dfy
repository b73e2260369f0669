/** The data types of the incremental HTTP/1.x parser: machine states, the parser record,
    the callbacks it makes, and the character classes of strict mode. */
module HttpTypes {

  /** One byte of the stream. */
  type octet = c: char | c as int < 256 witness 'a'

  const CR: octet := '\r'
  const LF: octet := '\n'
  const NUL: octet := '\0'

  /** ULLONG_MAX, which in `contentLength` also means "no Content-Length seen". */
  const ULLONG_MAX: nat := 0xFFFF_FFFF_FFFF_FFFF
  const TWO_TO_32: nat := 0x1_0000_0000
  const TWO_TO_64: nat := 0x1_0000_0000_0000_0000

  datatype State =
    | Dead
    | StartReqOrRes | ResOrRespH | StartRes
    | ResH | ResHT | ResHTT | ResHTTP
    | ResHttpMajor | ResHttpDot | ResHttpMinor | ResHttpEnd
    | ResFirstStatusCode | ResStatusCode | ResStatusStart | ResStatus | ResLineAlmostDone
    | StartReq | ReqMethod | ReqSpacesBeforeUrl
    | ReqSchema | ReqSchemaSlash | ReqSchemaSlashSlash
    | ReqServerStart | ReqServer | ReqServerWithAt
    | ReqPath | ReqQueryStringStart | ReqQueryString | ReqFragmentStart | ReqFragment
    | ReqHttpStart | ReqHttpH | ReqHttpHT | ReqHttpHTT | ReqHttpHTTP | ReqHttpI | ReqHttpIC
    | ReqHttpMajor | ReqHttpDot | ReqHttpMinor | ReqHttpEnd | ReqLineAlmostDone
    | HeaderFieldStart | HeaderField
    | HeaderValueDiscardWs | HeaderValueDiscardWsAlmostDone | HeaderValueDiscardLws
    | HeaderValueStart | HeaderValue | HeaderValueLws | HeaderAlmostDone
    | ChunkSizeStart | ChunkSize | ChunkParameters | ChunkSizeAlmostDone
    | HeadersAlmostDone | HeadersDone
    | ChunkData | ChunkDataAlmostDone | ChunkDataDone
    | BodyIdentity | BodyIdentityEof
    | MessageDone
  {
    /** PARSING_HEADER: every state up to and including s_headers_done. */
    predicate ParsingHeader() {
      !(ChunkData? || ChunkDataAlmostDone? || ChunkDataDone? || BodyIdentity? || BodyIdentityEof? || MessageDone?)
    }
  }

  datatype HeaderState =
    | HGeneral | HC | HCO | HCON
    | HMatchingConnection | HMatchingProxyConnection | HMatchingContentLength
    | HMatchingTransferEncoding | HMatchingUpgrade
    | HConnection | HContentLength | HContentLengthNum | HContentLengthWs
    | HTransferEncoding | HUpgrade
    | HMatchingTransferEncodingTokenStart | HMatchingTransferEncodingChunked | HMatchingTransferEncodingToken
    | HMatchingConnectionTokenStart | HMatchingConnectionKeepAlive | HMatchingConnectionClose
    | HMatchingConnectionUpgrade | HMatchingConnectionToken
    | HTransferEncodingChunked | HConnectionKeepAlive | HConnectionClose | HConnectionUpgrade

  datatype Method =
    | DELETE | GET | HEAD | POST | PUT | CONNECT | OPTIONS | TRACE
    | COPY | LOCK | MKCOL | MOVE | PROPFIND | PROPPATCH | SEARCH | UNLOCK
    | BIND | REBIND | UNBIND | ACL | REPORT | MKACTIVITY | CHECKOUT | MERGE
    | MSEARCH | NOTIFY | SUBSCRIBE | UNSUBSCRIBE | PATCH | PURGE
    | MKCALENDAR | LINK | UNLINK | SOURCE

  datatype MessageKind = Request | Response | Both

  datatype Flags = Flags(
    chunked: bool, keepAlive: bool, close: bool, connectionUpgrade: bool,
    trailing: bool, upgrade: bool, skipBody: bool, contentLength: bool)

  const NO_FLAGS := Flags(false, false, false, false, false, false, false, false)

  /** The fields of struct http_parser that the machine reads and writes. */
  datatype Parser = Parser(
    kind: MessageKind, flags: Flags, state: State, headerState: HeaderState, index: nat,
    usesTransferEncoding: bool, nread: nat, contentLength: nat,
    major: nat, minor: nat, statusCode: nat, verb: Method, upgrade: bool)

  /** What on_headers_complete answers: 0, 1 or 2. */
  datatype HeadersReply = Proceed | NoBody | NoBodyUpgrade

  /** What stays fixed while a stream is parsed. */
  datatype Config = Config(maxHeaderSize: nat, lenient: bool, allowChunkedLength: bool, reply: HeadersReply)

  datatype Errno =
    | HeaderOverflow | ClosedConnection | InvalidConstant | InvalidVersion | InvalidStatus
    | InvalidMethod | InvalidUrl | LfExpected | InvalidHeaderToken | InvalidContentLength
    | UnexpectedContentLength | InvalidChunkSize | InvalidTransferEncoding | InvalidEofState | Strict
    | AssertionFailed  // an assert() of the source does not hold

  /** The data callbacks, one per mark variable of the source. */
  datatype Kind = Url | Status | Field | Value | Body

  datatype Note = MessageBegin | HeadersComplete | ChunkHeader(length: nat) | ChunkComplete | MessageComplete

  /** One callback as the client sees it. */
  datatype Event = Notify(note: Note) | Data(kind: Kind, bytes: seq<octet>)

  // Character classes, strict mode.

  /** LOWER: c | 0x20 on one byte. */
  function Lower(c: octet): octet {
    if (c as int / 32) % 2 == 0 then (c as int + 32) as char else c
  }

  predicate IsAlpha(c: octet) { 'a' <= c <= 'z' || 'A' <= c <= 'Z' }

  predicate IsNum(c: octet) { '0' <= c <= '9' }

  predicate IsAlphaNum(c: octet) { IsAlpha(c) || IsNum(c) }

  predicate IsMark(c: octet) {
    c == '-' || c == '_' || c == '.' || c == '!' || c == '~' || c == '*' || c == '\'' || c == '(' || c == ')'
  }

  predicate IsUserinfoChar(c: octet) {
    || IsAlphaNum(c) || IsMark(c)
    || c == '%' || c == ';' || c == ':' || c == '&' || c == '=' || c == '+' || c == '$' || c == ','
  }

  predicate IsUrlChar(c: octet) { '!' <= c <= '~' && c != '#' && c != '?' }

  predicate IsHeaderChar(c: octet) {
    c == CR || c == LF || c == '\t' || (c as int > 31 && c as int != 127)
  }

  /** TOKEN: the lower-cased token character, or NUL when the byte is not one. */
  function Token(c: octet): octet {
    if 'A' <= c <= 'Z' then (c as int + 32) as char
    else if 'a' <= c <= 'z' || '0' <= c <= '9' || c == '!' || '#' <= c <= '\'' || c == '*' || c == '+'
            || c == '-' || c == '.' || '^' <= c <= '`' || c == '|' || c == '~' then c
    else NUL
  }

  predicate IsToken(c: octet) { Token(c) != NUL }

  /** unhex[]: the table spells out 128 entries, so the bytes from 128 up read as digit 0. */
  function Unhex(c: octet): (r: int)
    ensures -1 <= r <= 15
  {
    if '0' <= c <= '9' then c as int - '0' as int
    else if 'a' <= c <= 'f' then c as int - 'a' as int + 10
    else if 'A' <= c <= 'F' then c as int - 'A' as int + 10
    else if c as int >= 128 then 0
    else -1
  }

  function Digit(c: octet): int { c as int - '0' as int }

  /** A C string literal read at an index: its terminating NUL, or the byte there. */
  function At(s: string, i: nat): char { if i < |s| then s[i] else NUL }

  function MethodString(m: Method): string {
    match m
    case DELETE => "DELETE" case GET => "GET" case HEAD => "HEAD" case POST => "POST" case PUT => "PUT"
    case CONNECT => "CONNECT" case OPTIONS => "OPTIONS" case TRACE => "TRACE" case COPY => "COPY"
    case LOCK => "LOCK" case MKCOL => "MKCOL" case MOVE => "MOVE" case PROPFIND => "PROPFIND"
    case PROPPATCH => "PROPPATCH" case SEARCH => "SEARCH" case UNLOCK => "UNLOCK" case BIND => "BIND"
    case REBIND => "REBIND" case UNBIND => "UNBIND" case ACL => "ACL" case REPORT => "REPORT"
    case MKACTIVITY => "MKACTIVITY" case CHECKOUT => "CHECKOUT" case MERGE => "MERGE"
    case MSEARCH => "M-SEARCH" case NOTIFY => "NOTIFY" case SUBSCRIBE => "SUBSCRIBE"
    case UNSUBSCRIBE => "UNSUBSCRIBE" case PATCH => "PATCH" case PURGE => "PURGE"
    case MKCALENDAR => "MKCALENDAR" case LINK => "LINK" case UNLINK => "UNLINK" case SOURCE => "SOURCE"
  }
}
