/** The reference reading of a stream: one byte at a time, each as its own buffer. */
module HttpRun {
  import opened Wrappers
  import opened HttpTypes
  import opened HttpSwitch
  import opened HttpTrace

  /** COUNT_HEADER_SIZE: a 32-bit counter against the limit. */
  function Count(cfg: Config, nread: nat, v: nat): Option<nat> {
    var n := (nread + v % TWO_TO_32) % TWO_TO_32;
    if n > cfg.maxHeaderSize then None else Some(n)
  }

  /** Every REEXECUTE goes to a state of lower rank. */
  function Rank(s: State): nat {
    match s
    case StartReqOrRes => 1
    case ResStatusCode => 2
    case ResStatusStart => 1
    case HeaderValueLws => 5
    case HeaderValueDiscardLws => 5
    case HeaderValueStart => 4
    case HeaderFieldStart => 3
    case HeadersAlmostDone => 2
    case HeadersDone => 1
    case BodyIdentity => 1
    case HeaderValue => 1
    case _ => 0
  }

  /** The action lists a pass can make between two open fields. */
  predicate Shape(before: Option<Kind>, acts: seq<Action>, after: Option<Kind>) {
    || (|acts| == 0 && (after == before || (before == None && after == Some(Body))))
    || (|acts| == 1 && acts[0].Call? && before == None && (after == None || after == Some(Body)))
    || (|acts| == 1 && acts[0].Mark? && after == Some(acts[0].kind)
        && (before == None || (before == Some(Body) && after == Some(Body))))
    || (|acts| == 1 && acts[0].Flush? && before == Some(acts[0].kind) && after == None)
    || (|acts| == 2 && acts[0] == Mark(Value) && acts[1] == Flush(Value) && before == None && after == None)
    || (|acts| == 2 && acts[0] == Mark(Body) && acts[1] == FlushThrough(Body) && before == Some(Body) && after == None)
  }

  /** What every pass keeps: at most the one open field of its state is marked, a byte of a body is
      marked, and REEXECUTE descends. */
  predicate PassOk(p: Parser, pass: Pass) {
    match pass
    case Next(q, acts) =>
      Shape(Live(p.state), acts, Live(q.state)) && (acts == [] ==> Live(p.state) != Some(Body))
    case Again(q, acts) => Shape(Live(p.state), acts, Live(q.state)) && Rank(q.state) < Rank(p.state)
    case Exit(q, acts) => Live(p.state) == None && Live(q.state) == None && |acts| == 1 && acts[0].Call?
    case Fail(_) => true
  }

  lemma NewMessageFresh(p: Parser)
    ensures NewMessage(p) in {StartReq, StartRes, Dead}
  {
  }

  lemma StartOk(p: Parser, ch: octet)
    requires PartOf(p.state).PStart?
    ensures PassOk(p, SwitchStart(p, ch))
  {
  }

  lemma StatusLineOk(p: Parser, ch: octet)
    requires PartOf(p.state).PStatusLine?
    ensures PassOk(p, SwitchStatusLine(p, ch))
  {
  }

  lemma UrlCharOk(s: State, ch: octet)
    ensures var r := ParseUrlChar(s, ch); r == Dead || Live(r) == Some(Url)
  {
  }

  lemma UrlOk(p: Parser, ch: octet)
    requires PartOf(p.state).PUrl?
    ensures PassOk(p, SwitchUrl(p, ch))
  {
    UrlCharOk(p.state, ch);
    UrlCharOk(if p.verb == CONNECT then ReqServerStart else p.state, ch);
    hide ParseUrlChar;
  }

  lemma VersionOk(p: Parser, ch: octet)
    requires PartOf(p.state).PVersion?
    ensures PassOk(p, SwitchRequestVersion(p, ch))
  {
  }

  lemma ValueStartOk(p: Parser, ch: octet)
    requires Live(p.state) == None
    ensures PassOk(p, SwitchValueStart(p, ch))
  {
  }

  lemma HeaderLineStates(s: State)
    requires PartOf(s).PHeaderLine?
    ensures || s.HeaderFieldStart? || s.HeaderField? || s.HeaderValueDiscardWs? || s.HeaderValueDiscardWsAlmostDone?
            || s.HeaderValueDiscardLws? || s.HeaderValueStart? || s.HeaderValue? || s.HeaderValueLws?
            || s.HeaderAlmostDone?
  {
  }

  lemma FieldStartOk(p: Parser, ch: octet)
    requires p.state.HeaderFieldStart?
    ensures PassOk(p, SwitchFieldStart(p, ch))
  {
    hide FieldStartState, IsToken, Token;
  }

  lemma FieldOk(p: Parser, ch: octet)
    requires p.state.HeaderField?
    ensures PassOk(p, SwitchField(p, ch))
  {
    hide NameByte, NameMatcher, IsToken, Token;
  }

  lemma ValueOk(cfg: Config, p: Parser, ch: octet)
    requires p.state.HeaderValue?
    ensures PassOk(p, SwitchValue(cfg, p, ch))
  {
    hide ValueByte;
  }

  lemma LineEndOk(cfg: Config, p: Parser, ch: octet)
    requires || p.state.HeaderValueLws? || p.state.HeaderAlmostDone? || p.state.HeaderValueDiscardWsAlmostDone?
             || p.state.HeaderValueDiscardLws?
    ensures PassOk(p, SwitchHeaderLine(cfg, p, ch))
  {
    hide LineFlags, PartOf;
  }

  lemma LineTextOk(cfg: Config, p: Parser, ch: octet)
    requires || p.state.HeaderFieldStart? || p.state.HeaderField? || p.state.HeaderValue?
             || p.state.HeaderValueDiscardWs? || p.state.HeaderValueStart?
    ensures PassOk(p, SwitchHeaderLine(cfg, p, ch))
  {
    hide SwitchValueStart, PartOf, SwitchFieldStart, SwitchField, SwitchValue;
    match p.state
    case HeaderFieldStart => FieldStartOk(p, ch);
    case HeaderField => FieldOk(p, ch);
    case HeaderValue => ValueOk(cfg, p, ch);
    case HeaderValueDiscardWs => ValueStartOk(p, ch);
    case HeaderValueStart => ValueStartOk(p, ch);
    case _ =>
  }

  lemma HeaderLineOk(cfg: Config, p: Parser, ch: octet)
    requires PartOf(p.state).PHeaderLine?
    ensures PassOk(p, SwitchHeaderLine(cfg, p, ch))
  {
    HeaderLineStates(p.state);
    hide PartOf, SwitchHeaderLine, PassOk;
    match p.state
    case HeaderValueLws => LineEndOk(cfg, p, ch);
    case HeaderAlmostDone => LineEndOk(cfg, p, ch);
    case HeaderValueDiscardWsAlmostDone => LineEndOk(cfg, p, ch);
    case HeaderValueDiscardLws => LineEndOk(cfg, p, ch);
    case _ => LineTextOk(cfg, p, ch);
  }

  lemma ChunkOk(p: Parser, ch: octet)
    requires PartOf(p.state).PChunk?
    ensures PassOk(p, SwitchChunk(p, ch))
  {
    hide Unhex;
  }

  lemma MethodOk(p: Parser, ch: octet)
    requires PartOf(p.state).PMethod?
    ensures PassOk(p, SwitchMethod(p, ch))
  {
    hide Redirect, MethodString;
  }

  lemma HeadersEndOk(cfg: Config, p: Parser, ch: octet)
    requires PartOf(p.state).PHeadersEnd?
    ensures PassOk(p, SwitchHeadersEnd(cfg, p, ch))
  {
  }

  lemma HeadersDoneOk(cfg: Config, p: Parser, ch: octet)
    requires PartOf(p.state).PHeadersDone?
    ensures PassOk(p, SwitchHeadersDone(cfg, p, ch))
  {
    NewMessageFresh(p.(nread := 0));
    hide NewMessage;
  }

  lemma BodyOk(p: Parser, ch: octet)
    requires PartOf(p.state).PBody?
    ensures PassOk(p, SwitchBody(p, ch))
  {
    NewMessageFresh(p);
    hide NewMessage;
  }

  lemma PassesOk(cfg: Config, p: Parser, ch: octet)
    ensures PassOk(p, Switch(cfg, p, ch))
  {
    hide PassOk, SwitchStart, SwitchMethod, SwitchStatusLine, SwitchUrl, SwitchRequestVersion, SwitchHeaderLine,
      SwitchHeadersEnd, SwitchHeadersDone, SwitchChunk, SwitchBody;
    match PartOf(p.state)
    case PStart => StartOk(p, ch);
    case PMethod => MethodOk(p, ch);
    case PStatusLine => StatusLineOk(p, ch);
    case PUrl => UrlOk(p, ch);
    case PVersion => VersionOk(p, ch);
    case PHeaderLine => HeaderLineOk(cfg, p, ch);
    case PHeadersEnd => HeadersEndOk(cfg, p, ch);
    case PHeadersDone => HeadersDoneOk(cfg, p, ch);
    case PChunk => ChunkOk(p, ch);
    case PBody => BodyOk(p, ch);
  }

  function Prepend(acts: seq<Action>, pass: Pass): Pass {
    match pass
    case Next(p, a) => Next(p, acts + a)
    case Again(p, a) => Again(p, acts + a)
    case Exit(p, a) => Exit(p, acts + a)
    case Fail(e) => pass
  }

  /** The switch with every REEXECUTE followed. */
  function Exec(cfg: Config, p: Parser, ch: octet): (r: Pass)
    ensures !r.Again?
    decreases Rank(p.state)
  {
    PassesOk(cfg, p, ch);
    var pass := Switch(cfg, p, ch);
    if pass.Again? then Prepend(pass.acts, Exec(cfg, pass.p, ch)) else pass
  }

  /** The parser and its joined trace while a stream is read. A failed stream stays failed; after an
      upgrade exit the rest of the stream is another protocol. */
  datatype Progress =
    | Going(p: Parser, trace: seq<Event>)
    | Switched(p: Parser, trace: seq<Event>)
    | Failed

  function StepByte(cfg: Config, p: Parser, trace: seq<Event>, ch: octet): Progress {
    var counted := if p.state.ParsingHeader() then Count(cfg, p.nread, 1) else Some(p.nread);
    if counted.None? then Failed
    else
      match Exec(cfg, p.(nread := counted.value), ch)
      case Next(q, acts) =>
        var played := Play(acts, InitialMarks(p.state), [ch], 0);
        Going(q, PushAll(PushAll(trace, played.1), Leftover(played.0, [ch])))
      case Exit(q, acts) =>
        Switched(q, PushAll(trace, Play(acts, InitialMarks(p.state), [ch], 0).1))
      case _ => Failed
  }

  function Step(cfg: Config, g: Progress, ch: octet): Progress {
    if g.Going? then StepByte(cfg, g.p, g.trace, ch) else g
  }

  function Run(cfg: Config, g: Progress, data: seq<octet>): Progress {
    if data == [] then g else Step(cfg, Run(cfg, g, data[..|data| - 1]), data[|data| - 1])
  }

  /** Reading is compositional: where the stream is cut does not matter. */
  lemma {:induction false} RunConcat(cfg: Config, g: Progress, a: seq<octet>, b: seq<octet>)
    ensures Run(cfg, g, a + b) == Run(cfg, Run(cfg, g, a), b)
  {
    hide Step;
    if b == [] {
      assert a + b == a;
    } else {
      var n := |b| - 1;
      assert (a + b)[..|a + b| - 1] == a + b[..n];
      assert (a + b)[|a + b| - 1] == b[n];
      RunConcat(cfg, g, a, b[..n]);
    }
  }

  lemma {:induction false} RunStopped(cfg: Config, g: Progress, data: seq<octet>)
    requires !g.Going?
    ensures Run(cfg, g, data) == g
  {
    hide StepByte;
    if data != [] {
      RunStopped(cfg, g, data[..|data| - 1]);
    }
  }
}
