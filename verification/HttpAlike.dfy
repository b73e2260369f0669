/** Which fields of the parser each state depends on: parsers that differ in others read every stream alike. */
module HttpAlike {
  import opened Wrappers
  import opened HttpTypes
  import opened HttpSwitch
  import opened HttpTrace
  import opened HttpRun

  // Which fields a state still depends on.

  predicate BetweenMessages(s: State) { s.Dead? || s.StartReq? || s.StartRes? || s.StartReqOrRes? }

  predicate BeforeBody(part: Part) { !part.PHeadersDone? && !part.PChunk? && !part.PBody? }

  predicate UpgradeLive(p: Parser) {
    !BetweenMessages(p.state) && (p.flags.trailing || !BeforeBody(PartOf(p.state)))
  }

  predicate HeaderLive(s: State) { PartOf(s).PHeaderLine? && !s.HeaderFieldStart? }

  predicate IndexLive(s: State) { s.ReqMethod? || s.HeaderField? || s.HeaderValue? }

  predicate BeforeMajor(s: State) {
    || PartOf(s).PStart? || PartOf(s).PMethod? || PartOf(s).PUrl?
    || s.ReqHttpStart? || s.ReqHttpH? || s.ReqHttpHT? || s.ReqHttpHTT? || s.ReqHttpHTTP? || s.ReqHttpI? || s.ReqHttpIC?
    || s.ReqHttpMajor? || s.ResH? || s.ResHT? || s.ResHTT? || s.ResHTTP? || s.ResHttpMajor?
  }

  predicate BeforeMinor(s: State) {
    BeforeMajor(s) || s.ReqHttpDot? || s.ReqHttpMinor? || s.ResHttpDot? || s.ResHttpMinor?
  }

  predicate StatusLive(p: Parser) {
    var s := p.state;
    if p.kind == Request then s.ResStatusCode?
    else !(|| s.Dead? || s.StartReqOrRes? || s.StartRes? || s.ResOrRespH?
           || s.ResH? || s.ResHT? || s.ResHTT? || s.ResHTTP?
           || s.ResHttpMajor? || s.ResHttpDot? || s.ResHttpMinor? || s.ResHttpEnd? || s.ResFirstStatusCode?)
  }

  /** They differ at most in fields that will be set again before they are read. */
  predicate Alike(p: Parser, q: Parser) {
    var s := p.state;
    && q.kind == p.kind && q.state == s && q.nread == p.nread
    && (!BetweenMessages(s) ==>
          q.flags == p.flags && q.usesTransferEncoding == p.usesTransferEncoding && q.contentLength == p.contentLength)
    && (HeaderLive(s) ==> q.headerState == p.headerState)
    && (IndexLive(s) ==> q.index == p.index)
    && (!BeforeMajor(s) ==> q.major == p.major)
    && (!BeforeMinor(s) ==> q.minor == p.minor)
    && (StatusLive(p) ==> q.statusCode == p.statusCode)
    && (!s.Dead? && !s.StartReq? ==> q.verb == p.verb)
    && (UpgradeLive(p) ==> q.upgrade == p.upgrade)
  }

  predicate SamePass(x: Pass, y: Pass) {
    match x
    case Next(p, acts) => y.Next? && y.acts == acts && Alike(p, y.p)
    case Again(p, acts) => y.Again? && y.acts == acts && Alike(p, y.p)
    case Exit(p, acts) => y.Exit? && y.acts == acts && Alike(p, y.p)
    case Fail(e) => y == x
  }

  lemma DeadSame(p: Parser, q: Parser, ch: octet)
    requires Alike(p, q) && p.state.Dead?
    ensures SamePass(SwitchStart(p, ch), SwitchStart(q, ch))
  {
    hide FirstLetter, Fresh, PartOf;
  }

  lemma StartResSame(p: Parser, q: Parser, ch: octet)
    requires Alike(p, q) && p.state.StartRes?
    ensures SamePass(SwitchStart(p, ch), SwitchStart(q, ch))
  {
    hide FirstLetter;
  }

  lemma StartReqSame(p: Parser, q: Parser, ch: octet)
    requires Alike(p, q) && p.state.StartReq?
    ensures SamePass(SwitchStart(p, ch), SwitchStart(q, ch))
  {
    hide FirstLetter;
  }

  lemma StartEitherSame(p: Parser, q: Parser, ch: octet)
    requires Alike(p, q) && p.state.StartReqOrRes?
    ensures SamePass(SwitchStart(p, ch), SwitchStart(q, ch))
  {
    hide FirstLetter;
  }

  lemma EitherMove(p: Parser, q: Parser)
    requires Alike(p, q) && p.state.ResOrRespH?
    ensures Alike(p.(kind := Response, state := ResHT), q.(kind := Response, state := ResHT))
    ensures Alike(p.(kind := Request, verb := HEAD, index := 2, state := ReqMethod),
                  q.(kind := Request, verb := HEAD, index := 2, state := ReqMethod))
  {
  }

  lemma EitherSame(p: Parser, q: Parser, ch: octet)
    requires Alike(p, q) && p.state.ResOrRespH?
    ensures SamePass(SwitchStart(p, ch), SwitchStart(q, ch))
  {
    hide FirstLetter, Alike, Fresh;
    SameFields(p, q);
    EitherMove(p, q);
  }

  lemma StartSame(p: Parser, q: Parser, ch: octet)
    requires Alike(p, q) && PartOf(p.state).PStart?
    ensures SamePass(SwitchStart(p, ch), SwitchStart(q, ch))
  {
    hide Alike, SamePass, SwitchStart;
    match p.state
    case Dead => DeadSame(p, q, ch);
    case StartRes => StartResSame(p, q, ch);
    case StartReq => StartReqSame(p, q, ch);
    case StartReqOrRes => StartEitherSame(p, q, ch);
    case _ => EitherSame(p, q, ch);
  }

  lemma ResMove(p: Parser, q: Parser, s: State)
    requires Alike(p, q) && (p.state.ResH? || p.state.ResHT? || p.state.ResHTT? || p.state.ResHTTP?)
    requires s == ResHT || s == ResHTT || s == ResHTTP || s == ResHttpMajor
    ensures Alike(p.(state := s), q.(state := s))
  {
  }

  lemma ResHSame(p: Parser, q: Parser, ch: octet)
    requires Alike(p, q) && (p.state.ResH? || p.state.ResHT?)
    ensures SamePass(SwitchStatusLine(p, ch), SwitchStatusLine(q, ch))
  {
    hide Alike, IsNum, Digit, PartOf;
    SameFields(p, q);
    ResMove(p, q, ResHT);
    ResMove(p, q, ResHTT);
  }

  lemma ResHTTSame(p: Parser, q: Parser, ch: octet)
    requires Alike(p, q) && (p.state.ResHTT? || p.state.ResHTTP?)
    ensures SamePass(SwitchStatusLine(p, ch), SwitchStatusLine(q, ch))
  {
    hide Alike, IsNum, Digit, PartOf;
    SameFields(p, q);
    ResMove(p, q, ResHTTP);
    ResMove(p, q, ResHttpMajor);
  }

  lemma ResMajorSame(p: Parser, q: Parser, ch: octet)
    requires Alike(p, q) && (p.state.ResHttpMajor? || p.state.ResHttpDot?)
    ensures SamePass(SwitchStatusLine(p, ch), SwitchStatusLine(q, ch))
  {
    hide IsNum, Digit;
  }

  lemma ResMinorSame(p: Parser, q: Parser, ch: octet)
    requires Alike(p, q) && (p.state.ResHttpMinor? || p.state.ResHttpEnd?)
    ensures SamePass(SwitchStatusLine(p, ch), SwitchStatusLine(q, ch))
  {
    hide IsNum, Digit;
  }

  lemma StatusCodeSame(p: Parser, q: Parser, ch: octet)
    requires Alike(p, q) && (p.state.ResFirstStatusCode? || p.state.ResStatusCode?)
    ensures SamePass(SwitchStatusLine(p, ch), SwitchStatusLine(q, ch))
  {
    hide IsNum, Digit;
  }

  lemma StatusStartSame(p: Parser, q: Parser, ch: octet)
    requires Alike(p, q) && p.state.ResStatusStart?
    ensures SamePass(SwitchStatusLine(p, ch), SwitchStatusLine(q, ch))
  {
  }

  lemma StatusMove(p: Parser, q: Parser, s: State)
    requires Alike(p, q) && (p.state.ResStatus? || p.state.ResLineAlmostDone?)
    requires s == ResLineAlmostDone || s == HeaderFieldStart
    ensures Alike(p.(state := s), q.(state := s))
  {
  }

  lemma StatusTextSame(p: Parser, q: Parser, ch: octet)
    requires Alike(p, q) && (p.state.ResStatus? || p.state.ResLineAlmostDone?)
    ensures SamePass(SwitchStatusLine(p, ch), SwitchStatusLine(q, ch))
  {
    hide Alike, IsNum, Digit;
    SameFields(p, q);
    StatusMove(p, q, ResLineAlmostDone);
    StatusMove(p, q, HeaderFieldStart);
  }

  lemma StatusLineSame(p: Parser, q: Parser, ch: octet)
    requires Alike(p, q) && PartOf(p.state).PStatusLine?
    ensures SamePass(SwitchStatusLine(p, ch), SwitchStatusLine(q, ch))
  {
    hide Alike, SamePass, SwitchStatusLine;
    match p.state
    case ResHttpMajor => ResMajorSame(p, q, ch);
    case ResHttpDot => ResMajorSame(p, q, ch);
    case ResHttpMinor => ResMinorSame(p, q, ch);
    case ResHttpEnd => ResMinorSame(p, q, ch);
    case ResFirstStatusCode => StatusCodeSame(p, q, ch);
    case ResStatusCode => StatusCodeSame(p, q, ch);
    case ResStatusStart => StatusStartSame(p, q, ch);
    case ResStatus => StatusTextSame(p, q, ch);
    case ResLineAlmostDone => StatusTextSame(p, q, ch);
    case ResHTT => ResHTTSame(p, q, ch);
    case ResHTTP => ResHTTSame(p, q, ch);
    case _ => ResHSame(p, q, ch);
  }

  lemma ReqMajorSame(p: Parser, q: Parser, ch: octet)
    requires Alike(p, q) && (p.state.ReqHttpMajor? || p.state.ReqHttpDot?)
    ensures SamePass(SwitchRequestVersion(p, ch), SwitchRequestVersion(q, ch))
  {
    hide IsNum, Digit;
  }

  lemma ReqMinorSame(p: Parser, q: Parser, ch: octet)
    requires Alike(p, q) && p.state.ReqHttpMinor?
    ensures SamePass(SwitchRequestVersion(p, ch), SwitchRequestVersion(q, ch))
  {
    hide IsNum, Digit;
  }

  lemma ReqLineEndSame(p: Parser, q: Parser, ch: octet)
    requires Alike(p, q) && (p.state.ReqHttpEnd? || p.state.ReqLineAlmostDone?)
    ensures SamePass(SwitchRequestVersion(p, ch), SwitchRequestVersion(q, ch))
  {
    hide IsNum, Digit;
  }

  /** The states that Alike treats as one: what they have in common is all but the dead fields. */
  lemma UrlMove(p: Parser, q: Parser, s: State)
    requires Alike(p, q) && PartOf(p.state).PUrl? && (PartOf(s).PUrl? || s == ReqHttpStart)
    ensures Alike(p.(state := s), q.(state := s))
  {
  }

  /** A request line without a version. */
  lemma UrlEnd(p: Parser, q: Parser, s: State)
    requires Alike(p, q) && PartOf(p.state).PUrl? && (s == ReqLineAlmostDone || s == HeaderFieldStart)
    ensures Alike(p.(major := 0, minor := 9, state := s), q.(major := 0, minor := 9, state := s))
  {
  }

  lemma UrlTailSame(p: Parser, q: Parser, ch: octet)
    requires Alike(p, q) && PartOf(p.state).PUrl?
    ensures SamePass(SwitchUrlTail(p, ch), SwitchUrlTail(q, ch))
  {
    hide Alike, PartOf, ParseUrlChar;
    SameFields(p, q);
    var s := ParseUrlChar(p.state, ch);
    UrlCharStates(p.state, ch);
    UrlMove(p, q, ReqHttpStart);
    UrlEnd(p, q, ReqLineAlmostDone);
    UrlEnd(p, q, HeaderFieldStart);
    if s != Dead {
      UrlMove(p, q, s);
    }
  }

  lemma BeforeUrlSame(p: Parser, q: Parser, ch: octet)
    requires Alike(p, q) && p.state.ReqSpacesBeforeUrl? && PartOf(p.state).PUrl?
    ensures SamePass(SwitchUrl(p, ch), SwitchUrl(q, ch))
  {
    hide Alike, PartOf, ParseUrlChar, SwitchUrlTail;
    SameFields(p, q);
    SameAfter(p, q);
    var s := ParseUrlChar(if p.verb == CONNECT then ReqServerStart else p.state, ch);
    UrlCharStates(p.state, ch);
    UrlCharStates(ReqServerStart, ch);
    if s != Dead {
      UrlMove(p, q, s);
    }
  }

  lemma UrlSame(p: Parser, q: Parser, ch: octet)
    requires Alike(p, q) && PartOf(p.state).PUrl? && !p.state.ReqSpacesBeforeUrl?
    ensures SamePass(SwitchUrl(p, ch), SwitchUrl(q, ch))
  {
    hide Alike, PartOf, ParseUrlChar, SwitchUrlTail;
    SameFields(p, q);
    var s := ParseUrlChar(p.state, ch);
    UrlCharStates(p.state, ch);
    UrlTailSame(p, q, ch);
    if s != Dead {
      UrlMove(p, q, s);
    }
  }

  /** What every state depends on. */
  lemma SameFields(p: Parser, q: Parser)
    requires Alike(p, q)
    ensures q.kind == p.kind && q.state == p.state && q.nread == p.nread
    ensures PartOf(p.state).PUrl? ==> !BetweenMessages(p.state)
  {
  }

  predicate ReqHttp(s: State) {
    || s.ReqHttpStart? || s.ReqHttpH? || s.ReqHttpHT? || s.ReqHttpHTT? || s.ReqHttpI? || s.ReqHttpIC? || s.ReqHttpHTTP?
    || s.ReqHttpMajor?
  }

  lemma ReqHttpMove(p: Parser, q: Parser, s: State)
    requires Alike(p, q) && ReqHttp(p.state) && ReqHttp(s)
    ensures Alike(p.(state := s), q.(state := s)) && q.verb == p.verb
  {
  }

  lemma ReqHttpSame(p: Parser, q: Parser, ch: octet)
    requires Alike(p, q) && (p.state.ReqHttpStart? || p.state.ReqHttpH? || p.state.ReqHttpI?)
    ensures SamePass(SwitchRequestVersion(p, ch), SwitchRequestVersion(q, ch))
  {
    hide Alike, PartOf;
    SameFields(p, q);
    ReqHttpMove(p, q, ReqHttpH);
    ReqHttpMove(p, q, ReqHttpHT);
    ReqHttpMove(p, q, ReqHttpI);
    ReqHttpMove(p, q, ReqHttpIC);
  }

  lemma ReqHttpEndSame(p: Parser, q: Parser, ch: octet)
    requires Alike(p, q)
    requires p.state.ReqHttpHT? || p.state.ReqHttpHTT? || p.state.ReqHttpHTTP? || p.state.ReqHttpIC?
    ensures SamePass(SwitchRequestVersion(p, ch), SwitchRequestVersion(q, ch))
  {
    hide Alike, PartOf;
    SameFields(p, q);
    ReqHttpMove(p, q, ReqHttpHTT);
    ReqHttpMove(p, q, ReqHttpHTTP);
    ReqHttpMove(p, q, ReqHttpMajor);
  }

  // Header lines.

  lemma NameMove(p: Parser, q: Parser, h: HeaderState)
    requires Alike(p, q) && p.state.HeaderFieldStart?
    ensures Alike(p.(index := 0, state := HeaderField, headerState := h),
                  q.(index := 0, state := HeaderField, headerState := h))
    ensures Alike(p.(state := HeadersAlmostDone), q.(state := HeadersAlmostDone))
  {
  }

  lemma FieldStartSame(p: Parser, q: Parser, ch: octet)
    requires Alike(p, q) && p.state.HeaderFieldStart?
    ensures SamePass(SwitchFieldStart(p, ch), SwitchFieldStart(q, ch))
  {
    hide FieldStartState, Token, IsToken, Alike;
    NameMove(p, q, FieldStartState(Token(ch)));
  }

  lemma FieldSame(p: Parser, q: Parser, ch: octet)
    requires Alike(p, q) && p.state.HeaderField?
    ensures SamePass(SwitchField(p, ch), SwitchField(q, ch))
  {
    hide NameByte, NameMatcher, Token, IsToken;
  }

  lemma SameHeader(p: Parser, q: Parser)
    requires Alike(p, q) && HeaderLive(p.state)
    ensures q.flags == p.flags && q.contentLength == p.contentLength && q.headerState == p.headerState
    ensures IndexLive(p.state) ==> q.index == p.index
  {
  }

  /** A step within a header line sets what the line depends on, and leaves the trailing flag. */
  lemma HeaderMove(p: Parser, q: Parser, v: ValueState)
    requires Alike(p, q) && HeaderLive(p.state) && v.flags.trailing == p.flags.trailing
    ensures Alike(WithValue(p.(state := HeaderValue), v), WithValue(q.(state := HeaderValue), v))
  {
  }

  lemma HeaderGoto(p: Parser, q: Parser, s: State)
    requires Alike(p, q) && HeaderLive(p.state)
    requires || s == HeaderAlmostDone || s == HeaderValueLws || s == HeaderValueDiscardWs
             || s == HeaderValueDiscardLws || s == HeaderValueDiscardWsAlmostDone
    ensures Alike(p.(state := s), q.(state := s))
  {
  }

  lemma HeaderFold(p: Parser, q: Parser, h: HeaderState)
    requires Alike(p, q) && HeaderLive(p.state)
    ensures Alike(p.(headerState := h, state := HeaderValueStart), q.(headerState := h, state := HeaderValueStart))
  {
  }

  lemma HeaderEnd(p: Parser, q: Parser, f: Flags)
    requires Alike(p, q) && HeaderLive(p.state) && f.trailing == p.flags.trailing
    ensures Alike(p.(flags := f, state := HeaderFieldStart), q.(flags := f, state := HeaderFieldStart))
  {
  }

  lemma ValueKeepsTrailing(cfg: Config, v: ValueState, ch: octet)
    ensures var r := ValueByte(cfg, v, ch); r.Took? ==> r.v.flags.trailing == v.flags.trailing
  {
    hide At, IsToken, IsHeaderChar, ConnectionDelimiter, LengthDigit, Lower;
    DelimiterKeepsTrailing(v, ch);
    LengthKeepsTrailing(v, ch);
    LengthKeepsTrailing(v.(header := HContentLengthNum), ch);
  }

  lemma DelimiterKeepsTrailing(v: ValueState, ch: octet)
    ensures ConnectionDelimiter(v, ch).flags.trailing == v.flags.trailing
  {
  }

  lemma LengthKeepsTrailing(v: ValueState, ch: octet)
    ensures var r := LengthDigit(v, ch); r.Took? ==> r.v.flags.trailing == v.flags.trailing
  {
  }

  lemma ValueSame(cfg: Config, p: Parser, q: Parser, ch: octet)
    requires Alike(p, q) && p.state.HeaderValue?
    ensures SamePass(SwitchValue(cfg, p, ch), SwitchValue(cfg, q, ch))
  {
    hide ValueByte, Alike;
    SameFields(p, q);
    SameHeader(p, q);
    HeaderGoto(p, q, HeaderAlmostDone);
    ValueKeepsTrailing(cfg, ValueOf(p), ch);
    var r := ValueByte(cfg, ValueOf(p), ch);
    if r.Took? {
      HeaderMove(p, q, r.v);
    }
  }

  lemma ValueStartMoves(p: Parser, ch: octet)
    ensures var x := SwitchValueStart(p, ch);
            x.Fail? || (x.Next? && x.p == WithValue(p.(state := HeaderValue), ValueOf(x.p))
                        && x.p.flags.trailing == p.flags.trailing)
  {
    hide Lower, IsNum, Digit;
  }

  lemma ValueStartReads(p: Parser, q: Parser, ch: octet)
    requires q.flags == p.flags && q.contentLength == p.contentLength && q.headerState == p.headerState
    ensures var x, y := SwitchValueStart(p, ch), SwitchValueStart(q, ch);
            if x.Next? then y.Next? && y.acts == x.acts && ValueOf(y.p) == ValueOf(x.p) else y == x
  {
    hide Lower, IsNum, Digit;
  }

  lemma ValueStartSame(p: Parser, q: Parser, ch: octet)
    requires Alike(p, q) && HeaderLive(p.state)
    ensures SamePass(SwitchValueStart(p, ch), SwitchValueStart(q, ch))
  {
    hide SwitchValueStart, Alike, HeaderLive;
    SameHeader(p, q);
    ValueStartMoves(p, ch);
    ValueStartMoves(q, ch);
    ValueStartReads(p, q, ch);
    var x := SwitchValueStart(p, ch);
    if x.Next? {
      HeaderMove(p, q, ValueOf(x.p));
    }
  }

  lemma LineFeedSame(cfg: Config, p: Parser, q: Parser, ch: octet)
    requires Alike(p, q) && p.state.HeaderAlmostDone?
    ensures SamePass(SwitchHeaderLine(cfg, p, ch), SwitchHeaderLine(cfg, q, ch))
  {
    hide Alike;
    SameFields(p, q);
    HeaderGoto(p, q, HeaderValueLws);
  }

  lemma EmptyLineFeedSame(cfg: Config, p: Parser, q: Parser, ch: octet)
    requires Alike(p, q) && p.state.HeaderValueDiscardWsAlmostDone?
    ensures SamePass(SwitchHeaderLine(cfg, p, ch), SwitchHeaderLine(cfg, q, ch))
  {
    hide Alike;
    SameFields(p, q);
    HeaderGoto(p, q, HeaderValueDiscardLws);
  }

  lemma FoldSame(cfg: Config, p: Parser, q: Parser, ch: octet)
    requires Alike(p, q) && p.state.HeaderValueLws?
    ensures SamePass(SwitchHeaderLine(cfg, p, ch), SwitchHeaderLine(cfg, q, ch))
  {
    hide LineFlags, Alike;
    SameFields(p, q);
    SameHeader(p, q);
    LineFlagsTrailing(p.flags, p.headerState);
    HeaderEnd(p, q, LineFlags(p.flags, p.headerState));
    HeaderFold(p, q, if p.headerState == HContentLengthNum then HContentLengthWs else p.headerState);
  }

  lemma EmptyFoldSame(cfg: Config, p: Parser, q: Parser, ch: octet)
    requires Alike(p, q) && p.state.HeaderValueDiscardLws?
    ensures SamePass(SwitchHeaderLine(cfg, p, ch), SwitchHeaderLine(cfg, q, ch))
  {
    hide LineFlags, Alike;
    SameFields(p, q);
    SameHeader(p, q);
    LineFlagsTrailing(p.flags, p.headerState);
    HeaderEnd(p, q, LineFlags(p.flags, p.headerState));
    HeaderGoto(p, q, HeaderValueDiscardWs);
  }

  lemma LineFlagsTrailing(f: Flags, h: HeaderState)
    ensures LineFlags(f, h).trailing == f.trailing
  {
  }

  predicate ChunkState(s: State) {
    || s.ChunkSizeStart? || s.ChunkSize? || s.ChunkParameters? || s.ChunkSizeAlmostDone?
    || s.ChunkData? || s.ChunkDataAlmostDone? || s.ChunkDataDone?
  }

  lemma ChunkMove(p: Parser, q: Parser, s: State, length: nat, nread: nat)
    requires Alike(p, q) && ChunkState(p.state) && ChunkState(s)
    ensures Alike(p.(state := s, contentLength := length, nread := nread),
                  q.(state := s, contentLength := length, nread := nread))
  {
  }

  lemma TrailerMove(p: Parser, q: Parser)
    requires Alike(p, q) && p.state.ChunkSizeAlmostDone?
    ensures var f := p.flags.(trailing := true);
            Alike(p.(nread := 0, flags := f, state := HeaderFieldStart),
                  q.(nread := 0, flags := f, state := HeaderFieldStart))
  {
  }

  lemma ChunkFields(p: Parser, q: Parser)
    requires Alike(p, q) && ChunkState(p.state)
    ensures q.flags == p.flags && q.contentLength == p.contentLength && q.nread == p.nread && q.state == p.state
  {
  }

  lemma ChunkSizeSame(p: Parser, q: Parser, ch: octet)
    requires Alike(p, q) && (p.state.ChunkSizeStart? || p.state.ChunkSize?)
    ensures SamePass(SwitchChunk(p, ch), SwitchChunk(q, ch))
  {
    hide Alike, Unhex;
    ChunkFields(p, q);
    var n, len := p.nread, p.contentLength;
    if Unhex(ch) != -1 {
      ChunkMove(p, q, ChunkSize, Unhex(ch), n);
      ChunkMove(p, q, ChunkSize, (len * 16 + Unhex(ch)) % TWO_TO_64, n);
    }
    ChunkMove(p, q, ChunkSizeAlmostDone, len, n);
    ChunkMove(p, q, ChunkParameters, len, n);
  }

  lemma ChunkLineSame(p: Parser, q: Parser, ch: octet)
    requires Alike(p, q) && (p.state.ChunkParameters? || p.state.ChunkSizeAlmostDone?)
    ensures SamePass(SwitchChunk(p, ch), SwitchChunk(q, ch))
  {
    hide Alike, Unhex;
    ChunkFields(p, q);
    if p.state.ChunkSizeAlmostDone? {
      TrailerMove(p, q);
    }
    ChunkMove(p, q, ChunkSizeAlmostDone, p.contentLength, p.nread);
    ChunkMove(p, q, ChunkData, p.contentLength, 0);
  }

  lemma ChunkDataSame(p: Parser, q: Parser, ch: octet)
    requires Alike(p, q) && p.state.ChunkData?
    ensures SamePass(SwitchChunk(p, ch), SwitchChunk(q, ch))
  {
    hide Alike, Unhex;
    ChunkFields(p, q);
    if p.contentLength > 0 {
      ChunkMove(p, q, ChunkData, p.contentLength - 1, p.nread);
    }
    ChunkMove(p, q, ChunkDataAlmostDone, 0, p.nread);
  }

  lemma ChunkEndSame(p: Parser, q: Parser, ch: octet)
    requires Alike(p, q) && (p.state.ChunkDataAlmostDone? || p.state.ChunkDataDone?)
    ensures SamePass(SwitchChunk(p, ch), SwitchChunk(q, ch))
  {
    hide Alike, Unhex;
    ChunkFields(p, q);
    ChunkMove(p, q, ChunkDataDone, p.contentLength, p.nread);
    ChunkMove(p, q, ChunkSizeStart, p.contentLength, 0);
  }

  lemma ChunkSame(p: Parser, q: Parser, ch: octet)
    requires Alike(p, q) && PartOf(p.state).PChunk?
    ensures SamePass(SwitchChunk(p, ch), SwitchChunk(q, ch))
  {
    hide Alike, SwitchChunk, SamePass;
    match p.state
    case ChunkData => ChunkDataSame(p, q, ch);
    case ChunkDataAlmostDone => ChunkEndSame(p, q, ch);
    case ChunkDataDone => ChunkEndSame(p, q, ch);
    case ChunkSizeStart => ChunkSizeSame(p, q, ch);
    case ChunkSize => ChunkSizeSame(p, q, ch);
    case _ => ChunkLineSame(p, q, ch);
  }

  lemma MethodMove(p: Parser, q: Parser, m: Method, i: nat)
    requires Alike(p, q) && p.state.ReqMethod?
    ensures Alike(p.(verb := m, index := i), q.(verb := m, index := i))
    ensures Alike(p.(index := i, state := ReqSpacesBeforeUrl), q.(index := i, state := ReqSpacesBeforeUrl))
    ensures q.verb == p.verb && q.index == p.index
  {
  }

  lemma MethodSame(p: Parser, q: Parser, ch: octet)
    requires Alike(p, q) && p.state.ReqMethod?
    ensures SamePass(SwitchMethod(p, ch), SwitchMethod(q, ch))
  {
    hide Redirect, MethodString, Alike;
    var i := (p.index + 1) % 32;
    MethodMove(p, q, p.verb, i);
    var r := Redirect(p.verb, p.index, ch);
    if r.Some? {
      MethodMove(p, q, r.value, i);
    }
  }

  lemma UrlCharStates(s: State, ch: octet)
    ensures var r := ParseUrlChar(s, ch); r == Dead || PartOf(r).PUrl?
  {
  }

  /** What the end of the headers and the body read. */
  lemma SameAfter(p: Parser, q: Parser)
    requires Alike(p, q) && !BetweenMessages(p.state)
    ensures q.kind == p.kind && q.state == p.state && q.nread == p.nread && q.verb == p.verb
    ensures q.flags == p.flags && q.usesTransferEncoding == p.usesTransferEncoding && q.contentLength == p.contentLength
    ensures UpgradeLive(p) ==> q.upgrade == p.upgrade
  {
    hide BeforeMajor, BeforeMinor, StatusLive, HeaderLive;
  }

  lemma SameUpgrade(p: Parser, q: Parser)
    requires Alike(p, q) && p.state.HeadersAlmostDone?
    ensures WantsUpgrade(p) == WantsUpgrade(q)
  {
  }

  lemma SameHeadersDone(p: Parser, q: Parser, flags: Flags, upgrade: bool)
    requires Alike(p, q) && p.state.HeadersAlmostDone?
    ensures Alike(p.(state := HeadersDone, upgrade := upgrade, flags := flags),
                  q.(state := HeadersDone, upgrade := upgrade, flags := flags))
    ensures p.flags.trailing ==> Alike(p.(state := MessageDone), q.(state := MessageDone))
  {
  }

  lemma HeadersEndSame(cfg: Config, p: Parser, q: Parser, ch: octet)
    requires Alike(p, q) && p.state.HeadersAlmostDone?
    ensures SamePass(SwitchHeadersEnd(cfg, p, ch), SwitchHeadersEnd(cfg, q, ch))
  {
    hide WantsUpgrade, Alike, UpgradeLive, BetweenMessages;
    assert !BetweenMessages(HeadersAlmostDone) by {
      NotBetween();
    }
    SameAfter(p, q);
    SameUpgrade(p, q);
    var skip := p.flags.(skipBody := true);
    SameHeadersDone(p, q, p.flags, WantsUpgrade(p));
    SameHeadersDone(p, q, skip, WantsUpgrade(p));
    SameHeadersDone(p, q, skip, true);
  }

  lemma NotBetween()
    ensures !BetweenMessages(HeadersAlmostDone) && !BetweenMessages(HeadersDone)
  {
  }

  lemma SameNewMessage(p: Parser, q: Parser)
    requires Alike(p, q) && (p.state.HeadersDone? || p.state.MessageDone?)
    ensures NewMessage(p) == NewMessage(q) && NewMessage(p) in {StartReq, StartRes, Dead}
    ensures NeedsEof(p) == NeedsEof(q) && q.upgrade == p.upgrade
  {
  }

  lemma SameNread(p: Parser, q: Parser)
    requires Alike(p, q) && p.state.HeadersDone?
    ensures Alike(p.(nread := 0), q.(nread := 0))
  {
    hide PartOf;
  }

  lemma SameDone(p: Parser, q: Parser, s: State)
    requires Alike(p, q) && p.state.HeadersDone?
    requires s in {StartReq, StartRes, Dead, ChunkSizeStart, BodyIdentity, BodyIdentityEof}
    ensures Alike(p.(state := s), q.(state := s))
  {
  }

  lemma HeadersDoneSame(cfg: Config, p: Parser, q: Parser, ch: octet)
    requires Alike(p, q) && p.state.HeadersDone?
    ensures SamePass(SwitchHeadersDone(cfg, p, ch), SwitchHeadersDone(cfg, q, ch))
  {
    hide NewMessage, Alike, NeedsEof, UpgradeLive, BetweenMessages;
    NotBetween();
    SameAfter(p, q);
    SameNewMessage(p, q);
    var a, b := p.(nread := 0), q.(nread := 0);
    SameNread(p, q);
    SameNewMessage(a, b);
    SameDone(a, b, NewMessage(a));
    SameDone(a, b, ChunkSizeStart);
    SameDone(a, b, BodyIdentity);
    SameDone(a, b, BodyIdentityEof);
  }

  lemma BodySame(p: Parser, q: Parser, ch: octet)
    requires Alike(p, q) && PartOf(p.state).PBody?
    ensures SamePass(SwitchBody(p, ch), SwitchBody(q, ch))
  {
    if p.state.MessageDone? {
      hide NewMessage;
      SameNewMessage(p, q);
    }
  }

  lemma VersionSame(p: Parser, q: Parser, ch: octet)
    requires Alike(p, q) && PartOf(p.state).PVersion?
    ensures SamePass(SwitchRequestVersion(p, ch), SwitchRequestVersion(q, ch))
  {
    hide Alike, SamePass, SwitchRequestVersion;
    match p.state
    case ReqHttpMajor => ReqMajorSame(p, q, ch);
    case ReqHttpDot => ReqMajorSame(p, q, ch);
    case ReqHttpMinor => ReqMinorSame(p, q, ch);
    case ReqHttpEnd => ReqLineEndSame(p, q, ch);
    case ReqLineAlmostDone => ReqLineEndSame(p, q, ch);
    case ReqHttpHT => ReqHttpEndSame(p, q, ch);
    case ReqHttpHTT => ReqHttpEndSame(p, q, ch);
    case ReqHttpHTTP => ReqHttpEndSame(p, q, ch);
    case ReqHttpIC => ReqHttpEndSame(p, q, ch);
    case _ => ReqHttpSame(p, q, ch);
  }

  lemma HeaderLineSame(cfg: Config, p: Parser, q: Parser, ch: octet)
    requires Alike(p, q) && PartOf(p.state).PHeaderLine?
    ensures SamePass(SwitchHeaderLine(cfg, p, ch), SwitchHeaderLine(cfg, q, ch))
  {
    hide SamePass, Alike, SwitchFieldStart, SwitchField, SwitchValueStart, SwitchValue, LineFlags;
    SameFields(p, q);
    match p.state
    case HeaderFieldStart => FieldStartSame(p, q, ch);
    case HeaderField => FieldSame(p, q, ch);
    case HeaderValueDiscardWs => DiscardSame(cfg, p, q, ch);
    case HeaderValueStart => ValueStartSame(p, q, ch);
    case HeaderValue => ValueSame(cfg, p, q, ch);
    case HeaderValueLws => FoldSame(cfg, p, q, ch);
    case HeaderValueDiscardLws => EmptyFoldSame(cfg, p, q, ch);
    case HeaderAlmostDone => LineFeedSame(cfg, p, q, ch);
    case _ => EmptyLineFeedSame(cfg, p, q, ch);
  }

  lemma DiscardSame(cfg: Config, p: Parser, q: Parser, ch: octet)
    requires Alike(p, q) && p.state.HeaderValueDiscardWs?
    ensures SamePass(SwitchHeaderLine(cfg, p, ch), SwitchHeaderLine(cfg, q, ch))
  {
    hide Alike, SwitchValueStart;
    SameFields(p, q);
    ValueStartSame(p, q, ch);
    HeaderGoto(p, q, HeaderValueDiscardWsAlmostDone);
    HeaderGoto(p, q, HeaderValueDiscardLws);
  }

  lemma UrlPartSame(p: Parser, q: Parser, ch: octet)
    requires Alike(p, q) && PartOf(p.state).PUrl?
    ensures SamePass(SwitchUrl(p, ch), SwitchUrl(q, ch))
  {
    hide Alike, SamePass, PartOf, SwitchUrl;
    if p.state.ReqSpacesBeforeUrl? {
      BeforeUrlSame(p, q, ch);
    } else {
      UrlSame(p, q, ch);
    }
  }

  lemma PartStates(s: State)
    ensures PartOf(s).PHeadersEnd? ==> s.HeadersAlmostDone?
    ensures PartOf(s).PHeadersDone? ==> s.HeadersDone?
    ensures PartOf(s).PMethod? ==> s.ReqMethod?
  {
  }

  lemma SwitchSame(cfg: Config, p: Parser, q: Parser, ch: octet)
    requires Alike(p, q)
    ensures SamePass(Switch(cfg, p, ch), Switch(cfg, q, ch))
  {
    hide Alike, SamePass, PartOf, SwitchStart, SwitchMethod, SwitchStatusLine, SwitchUrl, SwitchRequestVersion,
      SwitchHeaderLine, SwitchHeadersEnd, SwitchHeadersDone, SwitchChunk, SwitchBody;
    SameFields(p, q);
    PartStates(p.state);
    match PartOf(p.state)
    case PStart => StartSame(p, q, ch);
    case PMethod => MethodSame(p, q, ch);
    case PStatusLine => StatusLineSame(p, q, ch);
    case PUrl => UrlPartSame(p, q, ch);
    case PVersion => VersionSame(p, q, ch);
    case PHeaderLine => HeaderLineSame(cfg, p, q, ch);
    case PHeadersEnd => HeadersEndSame(cfg, p, q, ch);
    case PHeadersDone => HeadersDoneSame(cfg, p, q, ch);
    case PChunk => ChunkSame(p, q, ch);
    case PBody => BodySame(p, q, ch);
  }

  lemma {:induction false} ExecSame(cfg: Config, p: Parser, q: Parser, ch: octet)
    requires Alike(p, q)
    ensures SamePass(Exec(cfg, p, ch), Exec(cfg, q, ch))
    decreases Rank(p.state)
  {
    hide Switch, Alike, Shape, Rank;
    SwitchSame(cfg, p, q, ch);
    PassesOk(cfg, p, ch);
    PassesOk(cfg, q, ch);
    var x, y := Switch(cfg, p, ch), Switch(cfg, q, ch);
    if x.Again? {
      ExecSame(cfg, x.p, y.p, ch);
    }
  }

  // Runs.

  /** A trace that no later fragment is joined to. */
  predicate Closed(t: seq<Event>) { t == [] || t[|t| - 1].Notify? }

  lemma PushBehind(t: seq<Event>, u: seq<Event>, e: Event)
    requires Closed(t)
    ensures Push(t + u, e) == t + Push(u, e)
  {
    if u != [] {
      assert (t + u)[|t + u| - 1] == u[|u| - 1];
      assert (t + u)[..|t + u| - 1] == t + u[..|u| - 1];
    } else {
      assert t + u == t;
    }
  }

  lemma {:induction false} PushAllBehind(t: seq<Event>, u: seq<Event>, es: seq<Event>)
    requires Closed(t)
    ensures PushAll(t + u, es) == t + PushAll(u, es)
    decreases es
  {
    hide Push, Closed;
    if es != [] {
      PushBehind(t, u, es[0]);
      PushAllBehind(t, Push(u, es[0]), es[1..]);
    }
  }

  /** The same reading behind different pasts. */
  predicate SameReading(t: seq<Event>, a: Progress, b: Progress) {
    match a
    case Going(p, u) => b.Going? && Alike(p, b.p) && u == t + b.trace
    case Switched(p, u) => b.Switched? && Alike(p, b.p) && u == t + b.trace
    case Failed => b.Failed?
  }

  lemma CountedAlike(p: Parser, q: Parser, n: nat)
    requires Alike(p, q)
    ensures Alike(p.(nread := n), q.(nread := n))
  {
    hide PartOf;
  }

  lemma StepSame(cfg: Config, p: Parser, q: Parser, t: seq<Event>, u: seq<Event>, ch: octet)
    requires Alike(p, q) && Closed(t)
    ensures SameReading(t, StepByte(cfg, p, t + u, ch), StepByte(cfg, q, u, ch))
  {
    hide Exec, Alike, Closed, Push, PushAll, Play, Leftover, Live;
    SameFields(p, q);
    var counted := if p.state.ParsingHeader() then Count(cfg, p.nread, 1) else Some(p.nread);
    if counted.Some? {
      CountedAlike(p, q, counted.value);
      ExecSame(cfg, p.(nread := counted.value), q.(nread := counted.value), ch);
      var x := Exec(cfg, p.(nread := counted.value), ch);
      if x.Next? || x.Exit? {
        var played := Play(x.acts, InitialMarks(p.state), [ch], 0);
        PushAllBehind(t, u, played.1);
        PushAllBehind(t, PushAll(u, played.1), Leftover(played.0, [ch]));
      }
    }
  }

  lemma {:induction false} RunSame(cfg: Config, p: Parser, q: Parser, t: seq<Event>, u: seq<Event>, data: seq<octet>)
    requires Alike(p, q) && Closed(t)
    ensures SameReading(t, Run(cfg, Going(p, t + u), data), Run(cfg, Going(q, u), data))
  {
    hide StepByte, Alike, Closed;
    if data != [] {
      var n := |data| - 1;
      RunSame(cfg, p, q, t, u, data[..n]);
      var b := Run(cfg, Going(q, u), data[..n]);
      var a := Run(cfg, Going(p, t + u), data[..n]);
      if a.Going? {
        StepSame(cfg, a.p, b.p, t, b.trace, data[n]);
      }
    }
  }
}
