/** The switch of http_parser_execute on one byte, as a function of the parser record. The mark
    variables and the callbacks appear as actions, which HttpTrace gives a meaning to. */
module HttpSwitch {
  import opened Wrappers
  import opened HttpTypes

  /** Call: CALLBACK_NOTIFY; Mark: MARK; Flush: CALLBACK_DATA up to the current byte;
      FlushThrough: the body callback that includes the current byte. */
  datatype Action = Call(note: Note) | Mark(kind: Kind) | Flush(kind: Kind) | FlushThrough(kind: Kind)

  /** How one pass through the switch ends: break, REEXECUTE, the exit on an upgrade, or an error. */
  datatype Pass =
    | Next(p: Parser, acts: seq<Action>)
    | Again(p: Parser, acts: seq<Action>)
    | Exit(p: Parser, acts: seq<Action>)
    | Fail(errno: Errno)

  function Goto(p: Parser, s: State): Pass { Next(p.(state := s), []) }

  function Expect(p: Parser, ok: bool, s: State, e: Errno): Pass {
    if ok then Goto(p, s) else Fail(e)
  }

  // The queries of the public interface.

  function NeedsEof(p: Parser): bool {
    if p.kind == Request then false
    else if p.statusCode / 100 == 1 || p.statusCode == 204 || p.statusCode == 304 || p.flags.skipBody then false
    else if p.usesTransferEncoding && !p.flags.chunked then true
    else if p.flags.chunked || p.contentLength != ULLONG_MAX then false
    else true
  }

  function ShouldKeepAlive(p: Parser): bool {
    if p.major > 0 && p.minor > 0 then !p.flags.close && !NeedsEof(p)
    else p.flags.keepAlive && !NeedsEof(p)
  }

  /** NEW_MESSAGE() in strict mode. */
  function NewMessage(p: Parser): State {
    if ShouldKeepAlive(p) then (if p.kind == Request then StartReq else StartRes) else Dead
  }

  // The URL machine.

  function ParseUrlChar(s: State, ch: octet): State {
    if ch == ' ' || ch == CR || ch == LF || ch == '\t' || ch as int == 12 then Dead
    else match s
      case ReqSpacesBeforeUrl =>
        if ch == '/' || ch == '*' then ReqPath else if IsAlpha(ch) then ReqSchema else Dead
      case ReqSchema => if IsAlpha(ch) then ReqSchema else if ch == ':' then ReqSchemaSlash else Dead
      case ReqSchemaSlash => if ch == '/' then ReqSchemaSlashSlash else Dead
      case ReqSchemaSlashSlash => if ch == '/' then ReqServerStart else Dead
      case ReqServerWithAt => if ch == '@' then Dead else ServerChar(ch)
      case ReqServerStart => ServerChar(ch)
      case ReqServer => ServerChar(ch)
      case ReqPath =>
        if IsUrlChar(ch) then ReqPath
        else if ch == '?' then ReqQueryStringStart
        else if ch == '#' then ReqFragmentStart else Dead
      case ReqQueryStringStart => QueryChar(ch)
      case ReqQueryString => QueryChar(ch)
      case ReqFragmentStart =>
        if IsUrlChar(ch) || ch == '?' then ReqFragment else if ch == '#' then ReqFragmentStart else Dead
      case ReqFragment => if IsUrlChar(ch) || ch == '?' || ch == '#' then ReqFragment else Dead
      case _ => Dead
  }

  function ServerChar(ch: octet): State {
    if ch == '/' then ReqPath
    else if ch == '?' then ReqQueryStringStart
    else if ch == '@' then ReqServerWithAt
    else if IsUserinfoChar(ch) || ch == '[' || ch == ']' then ReqServer
    else Dead
  }

  function QueryChar(ch: octet): State {
    if IsUrlChar(ch) || ch == '?' then ReqQueryString else if ch == '#' then ReqFragmentStart else Dead
  }

  // Start lines.

  function Fresh(p: Parser): Parser {
    p.(flags := NO_FLAGS, usesTransferEncoding := false, contentLength := ULLONG_MAX)
  }

  function SwitchStart(p: Parser, ch: octet): Pass {
    if p.state.Dead? then
      if ch == CR || ch == LF then Next(p, []) else Fail(ClosedConnection)
    else if p.state.StartReqOrRes? then
      if ch == CR || ch == LF then Next(p, [])
      else if ch == 'H' then Next(Fresh(p).(state := ResOrRespH), [Call(MessageBegin)])
      else Again(Fresh(p).(kind := Request, state := StartReq), [])
    else if p.state.ResOrRespH? then
      if ch == 'T' then Goto(p.(kind := Response), ResHT)
      else if ch == 'E' then Goto(p.(kind := Request, verb := HEAD, index := 2), ReqMethod)
      else Fail(InvalidConstant)
    else if p.state.StartRes? then
      if ch == CR || ch == LF then Next(p, [])
      else if ch == 'H' then Next(Fresh(p).(state := ResH), [Call(MessageBegin)])
      else Fail(InvalidConstant)
    else
      if ch == CR || ch == LF then Next(p, [])
      else if !IsAlpha(ch) then Fail(InvalidMethod)
      else match FirstLetter(ch)
        case Some(m) => Next(Fresh(p).(verb := m, index := 1, state := ReqMethod), [Call(MessageBegin)])
        case None => Fail(InvalidMethod)
  }

  function FirstLetter(ch: octet): Option<Method> {
    if ch == 'A' then Some(ACL) else if ch == 'B' then Some(BIND) else if ch == 'C' then Some(CONNECT)
    else if ch == 'D' then Some(DELETE) else if ch == 'G' then Some(GET) else if ch == 'H' then Some(HEAD)
    else if ch == 'L' then Some(LOCK) else if ch == 'M' then Some(MKCOL) else if ch == 'N' then Some(NOTIFY)
    else if ch == 'O' then Some(OPTIONS) else if ch == 'P' then Some(POST) else if ch == 'R' then Some(REPORT)
    else if ch == 'S' then Some(SUBSCRIBE) else if ch == 'T' then Some(TRACE) else if ch == 'U' then Some(UNLOCK)
    else None
  }

  /** The XX table: where a method guessed so far turns into another one. */
  function Redirect(m: Method, i: nat, ch: octet): Option<Method> {
    if m.POST? && i == 1 && ch == 'U' then Some(PUT)
    else if m.POST? && i == 1 && ch == 'A' then Some(PATCH)
    else if m.POST? && i == 1 && ch == 'R' then Some(PROPFIND)
    else if m.PUT? && i == 2 && ch == 'R' then Some(PURGE)
    else if m.CONNECT? && i == 1 && ch == 'H' then Some(CHECKOUT)
    else if m.CONNECT? && i == 2 && ch == 'P' then Some(COPY)
    else if m.MKCOL? && i == 1 && ch == 'O' then Some(MOVE)
    else if m.MKCOL? && i == 1 && ch == 'E' then Some(MERGE)
    else if m.MKCOL? && i == 1 && ch == '-' then Some(MSEARCH)
    else if m.MKCOL? && i == 2 && ch == 'A' then Some(MKACTIVITY)
    else if m.MKCOL? && i == 3 && ch == 'A' then Some(MKCALENDAR)
    else if m.SUBSCRIBE? && i == 1 && ch == 'E' then Some(SEARCH)
    else if m.SUBSCRIBE? && i == 1 && ch == 'O' then Some(SOURCE)
    else if m.REPORT? && i == 2 && ch == 'B' then Some(REBIND)
    else if m.PROPFIND? && i == 4 && ch == 'P' then Some(PROPPATCH)
    else if m.LOCK? && i == 1 && ch == 'I' then Some(LINK)
    else if m.UNLOCK? && i == 2 && ch == 'S' then Some(UNSUBSCRIBE)
    else if m.UNLOCK? && i == 2 && ch == 'B' then Some(UNBIND)
    else if m.UNLOCK? && i == 3 && ch == 'I' then Some(UNLINK)
    else None
  }

  function SwitchMethod(p: Parser, ch: octet): Pass {
    var bumped := p.(index := (p.index + 1) % 32);
    if ch == NUL then Fail(InvalidMethod)
    else if ch == ' ' && At(MethodString(p.verb), p.index) == NUL then Goto(bumped, ReqSpacesBeforeUrl)
    else if ch == At(MethodString(p.verb), p.index) then Next(bumped, [])
    else if 'A' <= ch <= 'Z' || ch == '-' then
      match Redirect(p.verb, p.index, ch)
      case Some(m) => Next(bumped.(verb := m), [])
      case None => Fail(InvalidMethod)
    else Fail(InvalidMethod)
  }

  function SwitchStatusLine(p: Parser, ch: octet): Pass {
    match p.state
    case ResH => Expect(p, ch == 'T', ResHT, Strict)
    case ResHT => Expect(p, ch == 'T', ResHTT, Strict)
    case ResHTT => Expect(p, ch == 'P', ResHTTP, Strict)
    case ResHTTP => Expect(p, ch == '/', ResHttpMajor, Strict)
    case ResHttpMajor => if IsNum(ch) then Goto(p.(major := Digit(ch)), ResHttpDot) else Fail(InvalidVersion)
    case ResHttpDot => Expect(p, ch == '.', ResHttpMinor, InvalidVersion)
    case ResHttpMinor => if IsNum(ch) then Goto(p.(minor := Digit(ch)), ResHttpEnd) else Fail(InvalidVersion)
    case ResHttpEnd => Expect(p, ch == ' ', ResFirstStatusCode, InvalidVersion)
    case ResFirstStatusCode =>
      if IsNum(ch) then Goto(p.(statusCode := Digit(ch)), ResStatusCode)
      else if ch == ' ' then Next(p, []) else Fail(InvalidStatus)
    case ResStatusCode =>
      if !IsNum(ch) then
        if ch == ' ' then Goto(p, ResStatusStart)
        else if ch == CR || ch == LF then Again(p.(state := ResStatusStart), [])
        else Fail(InvalidStatus)
      else
        var code := p.statusCode * 10 + Digit(ch);
        if code > 999 then Fail(InvalidStatus) else Next(p.(statusCode := code), [])
    case ResStatusStart =>
      var q := p.(state := ResStatus, index := 0);
      if ch == CR || ch == LF then Again(q, [Mark(Status)]) else Next(q, [Mark(Status)])
    case ResStatus =>
      if ch == CR then Next(p.(state := ResLineAlmostDone), [Flush(Status)])
      else if ch == LF then Next(p.(state := HeaderFieldStart), [Flush(Status)])
      else Next(p, [])
    case _ => Expect(p, ch == LF, HeaderFieldStart, Strict)
  }

  function SwitchUrl(p: Parser, ch: octet): Pass {
    match p.state
    case ReqSpacesBeforeUrl =>
      if ch == ' ' then Next(p, [])
      else
        var s := ParseUrlChar(if p.verb == CONNECT then ReqServerStart else p.state, ch);
        if s == Dead then Fail(InvalidUrl) else Next(p.(state := s), [Mark(Url)])
    case ReqServer => SwitchUrlTail(p, ch)
    case ReqServerWithAt => SwitchUrlTail(p, ch)
    case ReqPath => SwitchUrlTail(p, ch)
    case ReqQueryStringStart => SwitchUrlTail(p, ch)
    case ReqQueryString => SwitchUrlTail(p, ch)
    case ReqFragmentStart => SwitchUrlTail(p, ch)
    case ReqFragment => SwitchUrlTail(p, ch)
    case _ =>
      if ch == ' ' || ch == CR || ch == LF then Fail(InvalidUrl)
      else
        var s := ParseUrlChar(p.state, ch);
        if s == Dead then Fail(InvalidUrl) else Goto(p, s)
  }

  function SwitchUrlTail(p: Parser, ch: octet): Pass {
    if ch == ' ' then Next(p.(state := ReqHttpStart), [Flush(Url)])
    else if ch == CR then Next(p.(major := 0, minor := 9, state := ReqLineAlmostDone), [Flush(Url)])
    else if ch == LF then Next(p.(major := 0, minor := 9, state := HeaderFieldStart), [Flush(Url)])
    else
      var s := ParseUrlChar(p.state, ch);
      if s == Dead then Fail(InvalidUrl) else Goto(p, s)
  }

  function SwitchRequestVersion(p: Parser, ch: octet): Pass {
    match p.state
    case ReqHttpStart =>
      if ch == ' ' then Next(p, [])
      else if ch == 'H' then Goto(p, ReqHttpH)
      else if ch == 'I' && p.verb == SOURCE then Goto(p, ReqHttpI)
      else Fail(InvalidConstant)
    case ReqHttpH => Expect(p, ch == 'T', ReqHttpHT, Strict)
    case ReqHttpHT => Expect(p, ch == 'T', ReqHttpHTT, Strict)
    case ReqHttpHTT => Expect(p, ch == 'P', ReqHttpHTTP, Strict)
    case ReqHttpI => Expect(p, ch == 'C', ReqHttpIC, Strict)
    case ReqHttpIC => Expect(p, ch == 'E', ReqHttpHTTP, Strict)
    case ReqHttpHTTP => Expect(p, ch == '/', ReqHttpMajor, Strict)
    case ReqHttpMajor => if IsNum(ch) then Goto(p.(major := Digit(ch)), ReqHttpDot) else Fail(InvalidVersion)
    case ReqHttpDot => Expect(p, ch == '.', ReqHttpMinor, InvalidVersion)
    case ReqHttpMinor => if IsNum(ch) then Goto(p.(minor := Digit(ch)), ReqHttpEnd) else Fail(InvalidVersion)
    case ReqHttpEnd =>
      if ch == CR then Goto(p, ReqLineAlmostDone)
      else if ch == LF then Goto(p, HeaderFieldStart) else Fail(InvalidVersion)
    case _ => Expect(p, ch == LF, HeaderFieldStart, LfExpected)
  }

  // Header names.

  /** The matchers' variables while a header name is read. */
  datatype NameState = NameState(header: HeaderState, index: nat, usesTransferEncoding: bool)

  predicate NameMatcher(h: HeaderState) {
    || h.HGeneral? || h.HC? || h.HCO? || h.HCON? || h.HMatchingConnection? || h.HMatchingProxyConnection?
    || h.HMatchingContentLength? || h.HMatchingTransferEncoding? || h.HMatchingUpgrade?
    || h.HConnection? || h.HContentLength? || h.HTransferEncoding? || h.HUpgrade?
  }

  /** A matcher of one literal: the index moves first, then is compared. */
  function Matching(n: NameState, c: octet, literal: string, done: HeaderState): NameState {
    var i := (n.index + 1) % 32;
    if i > |literal| || c != At(literal, i) then n.(index := i, header := HGeneral)
    else if i == |literal| - 1 then n.(index := i, header := done)
    else n.(index := i)
  }

  /** One token byte of a header name; `c` is TOKEN(ch), which is never a space. */
  function NameByte(n: NameState, c: octet): NameState {
    var i := (n.index + 1) % 32;
    match n.header
    case HC => n.(index := i, header := if c == 'o' then HCO else HGeneral)
    case HCO => n.(index := i, header := if c == 'n' then HCON else HGeneral)
    case HCON =>
      n.(index := i, header := if c == 'n' then HMatchingConnection
                               else if c == 't' then HMatchingContentLength else HGeneral)
    case HMatchingConnection => Matching(n, c, "connection", HConnection)
    case HMatchingProxyConnection => Matching(n, c, "proxy-connection", HConnection)
    case HMatchingContentLength => Matching(n, c, "content-length", HContentLength)
    case HMatchingTransferEncoding =>
      var m := Matching(n, c, "transfer-encoding", HTransferEncoding);
      if m.header == HTransferEncoding then m.(usesTransferEncoding := true) else m
    case HMatchingUpgrade => Matching(n, c, "upgrade", HUpgrade)
    case HConnection => n.(header := HGeneral)
    case HContentLength => n.(header := HGeneral)
    case HTransferEncoding => n.(header := HGeneral)
    case HUpgrade => n.(header := HGeneral)
    case _ => n
  }

  function NameOf(p: Parser): NameState { NameState(p.headerState, p.index, p.usesTransferEncoding) }

  function WithName(p: Parser, n: NameState): Parser {
    p.(headerState := n.header, index := n.index, usesTransferEncoding := n.usesTransferEncoding)
  }

  function SwitchField(p: Parser, ch: octet): Pass {
    if IsToken(ch) then
      if NameMatcher(p.headerState) then Next(WithName(p, NameByte(NameOf(p), Token(ch))), [])
      else Fail(AssertionFailed)
    else if ch == ':' then Next(p.(state := HeaderValueDiscardWs), [Flush(Field)])
    else Fail(InvalidHeaderToken)
  }

  function FieldStartState(c: octet): HeaderState {
    if c == 'c' then HC
    else if c == 'p' then HMatchingProxyConnection
    else if c == 't' then HMatchingTransferEncoding
    else if c == 'u' then HMatchingUpgrade
    else HGeneral
  }

  function SwitchFieldStart(p: Parser, ch: octet): Pass {
    if ch == CR then Goto(p, HeadersAlmostDone)
    else if ch == LF then Again(p.(state := HeadersAlmostDone), [])
    else if !IsToken(ch) then Fail(InvalidHeaderToken)
    else Next(p.(index := 0, state := HeaderField, headerState := FieldStartState(Token(ch))), [Mark(Field)])
  }

  // Header values.

  /** The variables a header value moves. */
  datatype ValueState = ValueState(header: HeaderState, index: nat, contentLength: nat, flags: Flags)

  datatype ValuePass = Took(v: ValueState) | Rejected(errno: Errno)

  /** A matcher of one value token; a mismatch falls back to skipping the token. */
  function MatchingToken(v: ValueState, c: octet, literal: string, done: HeaderState, skip: HeaderState): ValuePass {
    var i := (v.index + 1) % 32;
    if i > |literal| || c != At(literal, i) then Took(v.(index := i, header := skip))
    else if i == |literal| - 1 then Took(v.(index := i, header := done))
    else Took(v.(index := i))
  }

  function LengthDigit(v: ValueState, ch: octet): ValuePass {
    if ch == ' ' then Took(v.(header := HContentLengthWs))
    else if !IsNum(ch) then Rejected(InvalidContentLength)
    else if (ULLONG_MAX - 10) / 10 < v.contentLength then Rejected(InvalidContentLength)
    else Took(v.(contentLength := (v.contentLength * 10 + Digit(ch)) % TWO_TO_64))
  }

  function ConnectionFlags(f: Flags, h: HeaderState): Flags {
    match h
    case HConnectionKeepAlive => f.(keepAlive := true)
    case HConnectionClose => f.(close := true)
    case HConnectionUpgrade => f.(connectionUpgrade := true)
    case _ => f
  }

  /** One byte of a header value that is neither CR nor LF. */
  function ValueByte(cfg: Config, v: ValueState, ch: octet): ValuePass {
    var c := Lower(ch);
    if !cfg.lenient && !IsHeaderChar(ch) then Rejected(InvalidHeaderToken)
    else match v.header
      case HGeneral => Took(v)
      case HConnection => Rejected(AssertionFailed)
      case HTransferEncoding => Rejected(AssertionFailed)
      case HContentLength => if ch == ' ' then Took(v) else LengthDigit(v.(header := HContentLengthNum), ch)
      case HContentLengthNum => LengthDigit(v, ch)
      case HContentLengthWs => if ch == ' ' then Took(v) else Rejected(InvalidContentLength)
      case HMatchingTransferEncodingTokenStart =>
        Took(if c == 'c' then v.(header := HMatchingTransferEncodingChunked)
             else if IsToken(c) then v.(header := HMatchingTransferEncodingToken)
             else if c == ' ' || c == '\t' then v
             else v.(header := HGeneral))
      case HMatchingTransferEncodingChunked =>
        MatchingToken(v, c, "chunked", HTransferEncodingChunked, HMatchingTransferEncodingToken)
      case HMatchingTransferEncodingToken =>
        Took(if ch == ',' then v.(header := HMatchingTransferEncodingTokenStart, index := 0) else v)
      case HMatchingConnectionTokenStart =>
        Took(if c == 'k' then v.(header := HMatchingConnectionKeepAlive)
             else if c == 'c' then v.(header := HMatchingConnectionClose)
             else if c == 'u' then v.(header := HMatchingConnectionUpgrade)
             else if IsToken(c) then v.(header := HMatchingConnectionToken)
             else if c == ' ' || c == '\t' then v
             else v.(header := HGeneral))
      case HMatchingConnectionKeepAlive =>
        MatchingToken(v, c, "keep-alive", HConnectionKeepAlive, HMatchingConnectionToken)
      case HMatchingConnectionClose =>
        MatchingToken(v, c, "close", HConnectionClose, HMatchingConnectionToken)
      case HMatchingConnectionUpgrade =>
        MatchingToken(v, c, "upgrade", HConnectionUpgrade, HMatchingConnectionToken)
      case HMatchingConnectionToken =>
        Took(if ch == ',' then v.(header := HMatchingConnectionTokenStart, index := 0) else v)
      case HTransferEncodingChunked =>
        Took(if ch != ' ' then v.(header := HMatchingTransferEncodingToken) else v)
      case HConnectionKeepAlive => Took(ConnectionDelimiter(v, ch))
      case HConnectionClose => Took(ConnectionDelimiter(v, ch))
      case HConnectionUpgrade => Took(ConnectionDelimiter(v, ch))
      case _ => Took(v.(header := HGeneral))
  }

  function ConnectionDelimiter(v: ValueState, ch: octet): ValueState {
    if ch == ',' then
      v.(flags := ConnectionFlags(v.flags, v.header), header := HMatchingConnectionTokenStart, index := 0)
    else if ch != ' ' then v.(header := HMatchingConnectionToken)
    else v
  }

  function ValueOf(p: Parser): ValueState { ValueState(p.headerState, p.index, p.contentLength, p.flags) }

  function WithValue(p: Parser, v: ValueState): Parser {
    p.(headerState := v.header, index := v.index, contentLength := v.contentLength, flags := v.flags)
  }

  function SwitchValue(cfg: Config, p: Parser, ch: octet): Pass {
    if ch == CR then Next(p.(state := HeaderAlmostDone), [Flush(Value)])
    else if ch == LF then Again(p.(state := HeaderAlmostDone), [Flush(Value)])
    else match ValueByte(cfg, ValueOf(p), ch)
      case Took(v) => Next(WithValue(p, v), [])
      case Rejected(e) => Fail(e)
  }

  function SwitchValueStart(p: Parser, ch: octet): Pass {
    var q := p.(state := HeaderValue, index := 0);
    var c := Lower(ch);
    var acts := [Mark(Value)];
    match p.headerState
    case HUpgrade => Next(q.(flags := q.flags.(upgrade := true), headerState := HGeneral), acts)
    case HTransferEncoding =>
      Next(q.(headerState := if c == 'c' then HMatchingTransferEncodingChunked else HMatchingTransferEncodingToken),
           acts)
    case HMatchingTransferEncodingTokenStart => Next(q, acts)
    case HContentLength =>
      if !IsNum(ch) then Fail(InvalidContentLength)
      else if p.flags.contentLength then Fail(UnexpectedContentLength)
      else Next(q.(flags := q.flags.(contentLength := true), contentLength := Digit(ch),
                   headerState := HContentLengthNum), acts)
    case HContentLengthWs => Next(q, acts)
    case HConnection =>
      Next(q.(headerState := if c == 'k' then HMatchingConnectionKeepAlive
                             else if c == 'c' then HMatchingConnectionClose
                             else if c == 'u' then HMatchingConnectionUpgrade
                             else HMatchingConnectionToken), acts)
    case HMatchingConnectionTokenStart => Next(q, acts)
    case _ => Next(q.(headerState := HGeneral), acts)
  }

  /** The flags that a finished header line sets. */
  function LineFlags(f: Flags, h: HeaderState): Flags {
    if h == HTransferEncodingChunked then f.(chunked := true) else ConnectionFlags(f, h)
  }

  function SwitchHeaderLine(cfg: Config, p: Parser, ch: octet): Pass {
    match p.state
    case HeaderFieldStart => SwitchFieldStart(p, ch)
    case HeaderField => SwitchField(p, ch)
    case HeaderValueDiscardWs =>
      if ch == ' ' || ch == '\t' then Next(p, [])
      else if ch == CR then Goto(p, HeaderValueDiscardWsAlmostDone)
      else if ch == LF then Goto(p, HeaderValueDiscardLws)
      else SwitchValueStart(p, ch)
    case HeaderValueStart => SwitchValueStart(p, ch)
    case HeaderValue => SwitchValue(cfg, p, ch)
    case HeaderAlmostDone => Expect(p, ch == LF, HeaderValueLws, LfExpected)
    case HeaderValueLws =>
      if ch == ' ' || ch == '\t' then
        Again(p.(headerState := if p.headerState == HContentLengthNum then HContentLengthWs else p.headerState,
                 state := HeaderValueStart), [])
      else
        Again(p.(flags := LineFlags(p.flags, p.headerState), state := HeaderFieldStart), [])
    case HeaderValueDiscardWsAlmostDone => Expect(p, ch == LF, HeaderValueDiscardLws, Strict)
    case _ =>
      if ch == ' ' || ch == '\t' then Goto(p, HeaderValueDiscardWs)
      else if p.headerState == HContentLength then Fail(InvalidContentLength)
      else Again(p.(flags := LineFlags(p.flags, p.headerState), state := HeaderFieldStart),
                 [Mark(Value), Flush(Value)])
  }

  // The end of the headers, and the body.

  function WantsUpgrade(p: Parser): bool {
    if p.flags.upgrade && p.flags.connectionUpgrade then p.kind == Request || p.statusCode == 101
    else p.verb == CONNECT
  }

  function SwitchHeadersEnd(cfg: Config, p: Parser, ch: octet): Pass {
    if ch != LF then Fail(Strict)
    else if p.flags.trailing then Again(p.(state := MessageDone), [Call(ChunkComplete)])
    else if p.usesTransferEncoding && p.flags.contentLength
            && (if p.flags.chunked then !cfg.allowChunkedLength else !cfg.lenient) then Fail(UnexpectedContentLength)
    else
      var q := p.(state := HeadersDone, upgrade := WantsUpgrade(p));
      var r := match cfg.reply
        case Proceed => q
        case NoBody => q.(flags := q.flags.(skipBody := true))
        case NoBodyUpgrade => q.(flags := q.flags.(skipBody := true), upgrade := true);
      Again(r, [Call(HeadersComplete)])
  }

  function SwitchHeadersDone(cfg: Config, p: Parser, ch: octet): Pass {
    if ch != LF then Fail(Strict)
    else
      var q := p.(nread := 0);
      var hasBody := p.flags.chunked || (p.contentLength > 0 && p.contentLength != ULLONG_MAX);
      var done := Next(q.(state := NewMessage(q)), [Call(MessageComplete)]);
      if p.upgrade && (p.verb == CONNECT || p.flags.skipBody || !hasBody) then Exit(done.p, done.acts)
      else if p.flags.skipBody then done
      else if p.flags.chunked then Goto(q, ChunkSizeStart)
      else if p.usesTransferEncoding then
        if p.kind == Request && !cfg.lenient then Fail(InvalidTransferEncoding) else Goto(q, BodyIdentityEof)
      else if p.contentLength == 0 then done
      else if p.contentLength != ULLONG_MAX then Goto(q, BodyIdentity)
      else if !NeedsEof(q) then done
      else Goto(q, BodyIdentityEof)
  }

  function SwitchBody(p: Parser, ch: octet): Pass {
    match p.state
    case BodyIdentity =>
      if p.contentLength == 0 || p.contentLength == ULLONG_MAX then Fail(AssertionFailed)
      else if p.contentLength == 1 then
        Again(p.(contentLength := 0, state := MessageDone), [Mark(Body), FlushThrough(Body)])
      else Next(p.(contentLength := p.contentLength - 1), [Mark(Body)])
    case BodyIdentityEof => Next(p, [Mark(Body)])
    case _ =>
      var q := p.(state := NewMessage(p));
      if p.upgrade then Exit(q, [Call(MessageComplete)]) else Next(q, [Call(MessageComplete)])
  }

  function SwitchChunk(p: Parser, ch: octet): Pass {
    if !p.flags.chunked then Fail(AssertionFailed)
    else match p.state
      case ChunkSizeStart =>
        if p.nread != 1 then Fail(AssertionFailed)
        else if Unhex(ch) == -1 then Fail(InvalidChunkSize)
        else Goto(p.(contentLength := Unhex(ch)), ChunkSize)
      case ChunkSize =>
        if ch == CR then Goto(p, ChunkSizeAlmostDone)
        else if Unhex(ch) == -1 then
          if ch == ';' || ch == ' ' then Goto(p, ChunkParameters) else Fail(InvalidChunkSize)
        else if (ULLONG_MAX - 16) / 16 < p.contentLength then Fail(InvalidContentLength)
        else Next(p.(contentLength := (p.contentLength * 16 + Unhex(ch)) % TWO_TO_64), [])
      case ChunkParameters => if ch == CR then Goto(p, ChunkSizeAlmostDone) else Next(p, [])
      case ChunkSizeAlmostDone =>
        if ch != LF then Fail(Strict)
        else if p.contentLength == 0 then
          Next(p.(nread := 0, flags := p.flags.(trailing := true), state := HeaderFieldStart),
               [Call(ChunkHeader(p.contentLength))])
        else Next(p.(nread := 0, state := ChunkData), [Call(ChunkHeader(p.contentLength))])
      case ChunkData =>
        if p.contentLength == 0 || p.contentLength == ULLONG_MAX then Fail(AssertionFailed)
        else if p.contentLength == 1 then Next(p.(contentLength := 0, state := ChunkDataAlmostDone), [Mark(Body)])
        else Next(p.(contentLength := p.contentLength - 1), [Mark(Body)])
      case ChunkDataAlmostDone =>
        if p.contentLength != 0 then Fail(AssertionFailed)
        else if ch != CR then Fail(Strict)
        else Next(p.(state := ChunkDataDone), [Flush(Body)])
      case _ =>
        if ch != LF then Fail(Strict)
        else Next(p.(nread := 0, state := ChunkSizeStart), [Call(ChunkComplete)])
  }

  /** The parts of the switch. */
  datatype Part =
    | PStart | PMethod | PStatusLine | PUrl | PVersion | PHeaderLine | PHeadersEnd | PHeadersDone | PChunk | PBody

  function PartOf(s: State): Part {
    match s
    case Dead => PStart
    case StartReqOrRes => PStart
    case ResOrRespH => PStart
    case StartRes => PStart
    case StartReq => PStart
    case ReqMethod => PMethod
    case ReqSpacesBeforeUrl => PUrl
    case ReqSchema => PUrl
    case ReqSchemaSlash => PUrl
    case ReqSchemaSlashSlash => PUrl
    case ReqServerStart => PUrl
    case ReqServer => PUrl
    case ReqServerWithAt => PUrl
    case ReqPath => PUrl
    case ReqQueryStringStart => PUrl
    case ReqQueryString => PUrl
    case ReqFragmentStart => PUrl
    case ReqFragment => PUrl
    case ReqHttpStart => PVersion
    case ReqHttpH => PVersion
    case ReqHttpHT => PVersion
    case ReqHttpHTT => PVersion
    case ReqHttpHTTP => PVersion
    case ReqHttpI => PVersion
    case ReqHttpIC => PVersion
    case ReqHttpMajor => PVersion
    case ReqHttpDot => PVersion
    case ReqHttpMinor => PVersion
    case ReqHttpEnd => PVersion
    case ReqLineAlmostDone => PVersion
    case HeaderFieldStart => PHeaderLine
    case HeaderField => PHeaderLine
    case HeaderValueDiscardWs => PHeaderLine
    case HeaderValueDiscardWsAlmostDone => PHeaderLine
    case HeaderValueDiscardLws => PHeaderLine
    case HeaderValueStart => PHeaderLine
    case HeaderValue => PHeaderLine
    case HeaderValueLws => PHeaderLine
    case HeaderAlmostDone => PHeaderLine
    case HeadersAlmostDone => PHeadersEnd
    case HeadersDone => PHeadersDone
    case BodyIdentity => PBody
    case BodyIdentityEof => PBody
    case MessageDone => PBody
    case ChunkSizeStart => PChunk
    case ChunkSize => PChunk
    case ChunkParameters => PChunk
    case ChunkSizeAlmostDone => PChunk
    case ChunkData => PChunk
    case ChunkDataAlmostDone => PChunk
    case ChunkDataDone => PChunk
    case _ => PStatusLine
  }

  /** The switch, on a buffer that ends after this byte. */
  function Switch(cfg: Config, p: Parser, ch: octet): Pass {
    match PartOf(p.state)
    case PStart => SwitchStart(p, ch)
    case PMethod => SwitchMethod(p, ch)
    case PStatusLine => SwitchStatusLine(p, ch)
    case PUrl => SwitchUrl(p, ch)
    case PVersion => SwitchRequestVersion(p, ch)
    case PHeaderLine => SwitchHeaderLine(cfg, p, ch)
    case PHeadersEnd => SwitchHeadersEnd(cfg, p, ch)
    case PHeadersDone => SwitchHeadersDone(cfg, p, ch)
    case PChunk => SwitchChunk(p, ch)
    case PBody => SwitchBody(p, ch)
  }
}
