/** The invariant of every reachable parser, from which no assert() of the source can fire. */
module HttpInvariant {
  import opened Wrappers
  import opened HttpTypes
  import opened HttpSwitch
  import opened HttpTrace
  import opened HttpRun

  /** http_parser_init. */
  function Init(kind: MessageKind): Parser {
    Parser(kind, NO_FLAGS, if kind == Request then StartReq else if kind == Response then StartRes else StartReqOrRes,
           HGeneral, 0, false, 0, 0, 0, 0, 0, DELETE, false)
  }

  /** What a state says about the other fields; `first` is the header count a chunk-size line starts
      with: 0 between bytes, 1 once its byte is counted. */
  predicate StateOk(p: Parser, first: nat) {
    match p.state
    case HeaderField => NameMatcher(p.headerState)
    case HeaderValue => !p.headerState.HConnection? && !p.headerState.HTransferEncoding?
    case ChunkSizeStart => p.flags.chunked && p.nread == first
    case ChunkSize => p.flags.chunked && p.contentLength != ULLONG_MAX
    case ChunkParameters => p.flags.chunked && p.contentLength != ULLONG_MAX
    case ChunkSizeAlmostDone => p.flags.chunked && p.contentLength != ULLONG_MAX
    case ChunkData => p.flags.chunked && 0 < p.contentLength < ULLONG_MAX
    case ChunkDataAlmostDone => p.flags.chunked && p.contentLength == 0
    case ChunkDataDone => p.flags.chunked
    case BodyIdentity => 0 < p.contentLength < ULLONG_MAX
    case _ => true
  }

  predicate InvAt(cfg: Config, p: Parser, first: nat) {
    p.index < 32 && p.contentLength < TWO_TO_64 && p.nread <= cfg.maxHeaderSize && StateOk(p, first)
  }

  predicate Inv(cfg: Config, p: Parser) { InvAt(cfg, p, 0) }

  predicate PassInv(cfg: Config, pass: Pass) {
    match pass
    case Next(q, _) => InvAt(cfg, q, 0)
    case Exit(q, _) => InvAt(cfg, q, 0)
    case Again(q, _) => InvAt(cfg, q, 1)
    case Fail(e) => e != AssertionFailed
  }

  lemma StartInv(cfg: Config, p: Parser, ch: octet)
    requires InvAt(cfg, p, 1) && PartOf(p.state).PStart?
    ensures PassInv(cfg, SwitchStart(p, ch))
  {
  }

  lemma StatusLineInv(cfg: Config, p: Parser, ch: octet)
    requires InvAt(cfg, p, 1) && PartOf(p.state).PStatusLine?
    ensures PassInv(cfg, SwitchStatusLine(p, ch))
  {
    hide IsNum, Digit, PartOf;
    match p.state
    case ResH =>
    case ResHT =>
    case ResHTT =>
    case ResHTTP =>
    case ResHttpMajor =>
    case ResHttpDot =>
    case ResHttpMinor =>
    case ResHttpEnd =>
    case ResFirstStatusCode =>
    case ResStatusCode =>
    case ResStatusStart =>
    case ResStatus =>
    case ResLineAlmostDone =>
    case _ =>
  }

  lemma MethodInv(cfg: Config, p: Parser, ch: octet)
    requires InvAt(cfg, p, 1) && PartOf(p.state).PMethod?
    ensures PassInv(cfg, SwitchMethod(p, ch))
  {
    hide Redirect, MethodString;
  }

  lemma UrlCharPlain(s: State, ch: octet)
    ensures var r := ParseUrlChar(s, ch);
            !r.HeaderField? && !r.HeaderValue? && !r.BodyIdentity? && !PartOf(r).PChunk?
  {
  }

  lemma UrlInv(cfg: Config, p: Parser, ch: octet)
    requires InvAt(cfg, p, 1) && PartOf(p.state).PUrl?
    ensures PassInv(cfg, SwitchUrl(p, ch))
  {
    UrlCharPlain(p.state, ch);
    UrlCharPlain(if p.verb == CONNECT then ReqServerStart else p.state, ch);
    hide ParseUrlChar, IsUrlChar, IsAlpha;
  }

  lemma VersionInv(cfg: Config, p: Parser, ch: octet)
    requires InvAt(cfg, p, 1) && PartOf(p.state).PVersion?
    ensures PassInv(cfg, SwitchRequestVersion(p, ch))
  {
    hide IsNum, Digit;
    match p.state
    case ReqHttpStart =>
    case ReqHttpH =>
    case ReqHttpHT =>
    case ReqHttpHTT =>
    case ReqHttpI =>
    case ReqHttpIC =>
    case ReqHttpHTTP =>
    case ReqHttpMajor =>
    case ReqHttpDot =>
    case ReqHttpMinor =>
    case ReqHttpEnd =>
    case _ =>
  }

  lemma NameByteInv(n: NameState, c: octet)
    requires NameMatcher(n.header) && n.index < 32
    ensures NameMatcher(NameByte(n, c).header) && NameByte(n, c).index < 32
  {
    hide At;
  }

  predicate ValueStateOk(v: ValueState) {
    v.index < 32 && v.contentLength < TWO_TO_64 && !v.header.HConnection? && !v.header.HTransferEncoding?
  }

  lemma ValueByteInv(cfg: Config, v: ValueState, ch: octet)
    requires ValueStateOk(v)
    ensures match ValueByte(cfg, v, ch)
            case Took(w) => ValueStateOk(w)
            case Rejected(e) => e != AssertionFailed
  {
    hide At, IsToken, IsHeaderChar;
  }

  lemma ValueStartInv(cfg: Config, p: Parser, ch: octet)
    requires InvAt(cfg, p, 1) && PartOf(p.state).PHeaderLine?
    ensures PassInv(cfg, SwitchValueStart(p, ch))
  {
  }

  lemma HeaderLineInv(cfg: Config, p: Parser, ch: octet)
    requires InvAt(cfg, p, 1) && PartOf(p.state).PHeaderLine?
    ensures PassInv(cfg, SwitchHeaderLine(cfg, p, ch))
  {
    hide ValueByte, NameByte, LineFlags, Token, SwitchValueStart;
    match p.state
    case HeaderFieldStart =>
    case HeaderField => NameByteInv(NameOf(p), Token(ch));
    case HeaderValue => ValueByteInv(cfg, ValueOf(p), ch);
    case HeaderValueDiscardWs => ValueStartInv(cfg, p, ch);
    case HeaderValueStart => ValueStartInv(cfg, p, ch);
    case HeaderValueLws =>
    case HeaderAlmostDone =>
    case HeaderValueDiscardWsAlmostDone =>
    case HeaderValueDiscardLws =>
    case _ =>
  }

  lemma HeadersEndInv(cfg: Config, p: Parser, ch: octet)
    requires InvAt(cfg, p, 1) && PartOf(p.state).PHeadersEnd?
    ensures PassInv(cfg, SwitchHeadersEnd(cfg, p, ch))
  {
  }

  lemma HeadersDoneInv(cfg: Config, p: Parser, ch: octet)
    requires InvAt(cfg, p, 1) && PartOf(p.state).PHeadersDone?
    ensures PassInv(cfg, SwitchHeadersDone(cfg, p, ch))
  {
    NewMessageFresh(p.(nread := 0));
    hide NewMessage;
  }

  lemma BodyInv(cfg: Config, p: Parser, ch: octet)
    requires InvAt(cfg, p, 1) && PartOf(p.state).PBody?
    ensures PassInv(cfg, SwitchBody(p, ch))
  {
    NewMessageFresh(p);
    hide NewMessage;
  }

  lemma ChunkInv(cfg: Config, p: Parser, ch: octet)
    requires InvAt(cfg, p, 1) && PartOf(p.state).PChunk?
    ensures PassInv(cfg, SwitchChunk(p, ch))
  {
    hide Unhex;
    match p.state
    case ChunkSizeStart =>
    case ChunkSize =>
    case ChunkParameters =>
    case ChunkSizeAlmostDone =>
    case ChunkData =>
    case ChunkDataAlmostDone =>
    case ChunkDataDone =>
    case _ =>
  }

  lemma SwitchInv(cfg: Config, p: Parser, ch: octet)
    requires InvAt(cfg, p, 1)
    ensures PassInv(cfg, Switch(cfg, p, ch))
  {
    hide PassInv, SwitchStart, SwitchMethod, SwitchStatusLine, SwitchUrl, SwitchRequestVersion, SwitchHeaderLine,
      SwitchHeadersEnd, SwitchHeadersDone, SwitchChunk, SwitchBody;
    match PartOf(p.state)
    case PStart => StartInv(cfg, p, ch);
    case PMethod => MethodInv(cfg, p, ch);
    case PStatusLine => StatusLineInv(cfg, p, ch);
    case PUrl => UrlInv(cfg, p, ch);
    case PVersion => VersionInv(cfg, p, ch);
    case PHeaderLine => HeaderLineInv(cfg, p, ch);
    case PHeadersEnd => HeadersEndInv(cfg, p, ch);
    case PHeadersDone => HeadersDoneInv(cfg, p, ch);
    case PChunk => ChunkInv(cfg, p, ch);
    case PBody => BodyInv(cfg, p, ch);
  }

  lemma {:induction false} ExecInv(cfg: Config, p: Parser, ch: octet)
    requires InvAt(cfg, p, 1)
    ensures PassInv(cfg, Exec(cfg, p, ch))
    decreases Rank(p.state)
  {
    SwitchInv(cfg, p, ch);
    PassesOk(cfg, p, ch);
    var pass := Switch(cfg, p, ch);
    if pass.Again? {
      hide Switch, InvAt, Shape, Rank;
      assert Exec(cfg, p, ch) == Prepend(pass.acts, Exec(cfg, pass.p, ch));
      ExecInv(cfg, pass.p, ch);
    }
  }

  lemma StepInv(cfg: Config, p: Parser, trace: seq<Event>, ch: octet)
    requires Inv(cfg, p)
    ensures var g := StepByte(cfg, p, trace, ch);
            (g.Going? || g.Switched?) ==> Inv(cfg, g.p)
  {
    var counted := if p.state.ParsingHeader() then Count(cfg, p.nread, 1) else Some(p.nread);
    if counted.Some? {
      var q := p.(nread := counted.value);
      assert InvAt(cfg, q, 1) by {
        hide PartOf;
      }
      ExecInv(cfg, q, ch);
      hide Exec, InvAt, Play;
    }
  }

  /** Every parser reached from a good one is good, whatever the stream. */
  lemma {:induction false} RunInv(cfg: Config, g: Progress, data: seq<octet>)
    requires g.Failed? || Inv(cfg, g.p)
    ensures var r := Run(cfg, g, data);
            r.Failed? || Inv(cfg, r.p)
  {
    if data != [] {
      hide StepByte, Inv;
      var before := Run(cfg, g, data[..|data| - 1]);
      RunInv(cfg, g, data[..|data| - 1]);
      if before.Going? {
        StepInv(cfg, before.p, before.trace, data[|data| - 1]);
      }
    }
  }

  /** No assert() of the source fires, on any stream from a fresh parser: `ch` is the byte after `data`. */
  lemma AssertsHold(cfg: Config, kind: MessageKind, data: seq<octet>, ch: octet)
    requires Run(cfg, Going(Init(kind), []), data).Going?
    ensures var p := Run(cfg, Going(Init(kind), []), data).p;
            Inv(cfg, p) &&
            var counted := if p.state.ParsingHeader() then Count(cfg, p.nread, 1) else Some(p.nread);
            counted.Some? ==> Exec(cfg, p.(nread := counted.value), ch) != Fail(AssertionFailed)
  {
    hide Run, Exec, Switch;
    assert Inv(cfg, Init(kind));
    RunInv(cfg, Going(Init(kind), []), data);
    var p := Run(cfg, Going(Init(kind), []), data).p;
    var counted := if p.state.ParsingHeader() then Count(cfg, p.nread, 1) else Some(p.nread);
    if counted.Some? {
      var q := p.(nread := counted.value);
      assert InvAt(cfg, q, 1) by {
        hide PartOf;
      }
      ExecInv(cfg, q, ch);
    }
  }
}
