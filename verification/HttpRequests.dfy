/** Whole requests, and any number of them in a row: what is sent is what is delivered, within max_header_size. */
module HttpRequests {
  import opened HttpTypes
  import opened HttpSwitch
  import opened HttpTrace
  import opened HttpRun
  import opened HttpInvariant
  import opened HttpBulk
  import opened HttpSteps
  import opened HttpLeads
  import Methods = HttpMethods
  import opened HttpRequestLine
  import opened HttpHeaders
  import opened HttpFraming
  import opened HttpMessages
  import Pipeline = HttpPipeline

  datatype RequestParts = RequestParts(verb: Method, target: seq<octet>, major: octet, minor: octet, message: Message)

  function MethodText(m: Method): (r: seq<octet>)
    ensures r == MethodString(m)
  {
    var s := MethodString(m);
    seq(|s|, i requires 0 <= i < |s| => MethodLetter(m, i))
  }

  function MethodLetter(m: Method, i: nat): (r: octet)
    requires i < |MethodString(m)|
    ensures r == MethodString(m)[i]
  {
    Methods.Letters(m, i);
    MethodString(m)[i]
  }

  function RequestLineText(r: RequestParts): seq<octet> {
    MethodText(r.verb) + [' '] + (r.target + [' ']) + VersionText(r.major, r.minor)
  }

  /** Request line and header lines, with the line end after them. */
  function HeadText(r: RequestParts): seq<octet> { RequestLineText(r) + FieldsText(r.message) + [LF] }

  function RequestText(r: RequestParts): seq<octet> { HeadText(r) + Wire(r.message.body) }

  function RequestCalls(r: RequestParts): seq<Event> {
    [Notify(MessageBegin), Data(Url, r.target)] + HeadersCalls(r.message.headers)
    + [Notify(HeadersComplete)] + BodyCalls(r.message.body)
  }

  function RequestHead(r: RequestParts): Head { Head(Request, 0, r.verb, r.message.headers) }

  /** A request in the grammar of RFC 7230, with a body in the framing that the code takes for it. */
  predicate RequestOk(cfg: Config, r: RequestParts) {
    && IsTarget(r.target, r.verb == CONNECT) && IsNum(r.major) && IsNum(r.minor)
    && HeadersOk(r.message.headers) && BodySent(cfg, RequestHead(r), r.message.body)
  }

  predicate KeepsOpen(r: RequestParts) { KeepsAlive(Num(r.major), Num(r.minor), r.message) }

  // The request line.

  lemma MethodStarts(m: Method, k: nat)
    requires 1 <= k <= |MethodText(m)|
    ensures Methods.StartsName(MethodText(m)[..k])
  {
    hide MethodString;
    var s := MethodText(m);
    forall i | 0 <= i < |s|
      ensures s[i] != CR && s[i] != LF && s[i] != ' '
    {
      Methods.Letters(m, i);
    }
  }

  lemma {:induction false} LeadsMethod(cfg: Config, p: Parser, t: seq<Event>, m: Method, k: nat)
    requires Limited(cfg, p) && p.state.StartReq? && 1 <= k <= |MethodText(m)|
    ensures Leads(cfg, p, t, MethodText(m)[..k], Methods.InMethod(p, k, Methods.GuessAt(m, k)),
            t + [Notify(MessageBegin)])
  {
    hide Leads, Run, Methods.StartsName, Methods.Guess, Methods.GuessAt, MethodString, MethodText;
    var name, u := MethodText(m), t + [Notify(MessageBegin)];
    var r := Methods.InMethod(p, k, Methods.GuessAt(m, k));
    MethodStarts(m, k);
    Methods.GuessName(m, name, k);
    if r.nread <= cfg.maxHeaderSize {
      Methods.RunName(cfg, p, t, name[..k]);
    }
    assert name[..k] == name[..k - 1] + [name[k - 1]];
    if k == 1 {
      assert name[..0] == [];
      LeadsNothing(cfg, p, t);
      LeadsMore(cfg, p, t, name[..0], name[0], p, t, r, u);
    } else {
      LeadsMethod(cfg, p, t, m, k - 1);
      LeadsMore(cfg, p, t, name[..k - 1], name[k - 1],
                Methods.InMethod(p, k - 1, Methods.GuessAt(m, k - 1)), u, r, u);
    }
  }

  lemma MethodSome(m: Method)
    ensures |MethodText(m)| >= 1
  {
    Methods.GuessFirst(m);
  }

  lemma LeadsMethodSpace(cfg: Config, p: Parser, t: seq<Event>, m: Method)
    requires Limited(cfg, p) && p.state.StartReq?
    ensures Leads(cfg, p, t, MethodText(m) + [' '], Methods.AfterMethod(p, MethodText(m), m),
            t + [Notify(MessageBegin)])
  {
    hide Leads, Run, Methods.StartsName, Methods.GuessAt, MethodString, MethodText;
    var name, u := MethodText(m), t + [Notify(MessageBegin)];
    MethodSome(m);
    LeadsMethod(cfg, p, t, m, |name|);
    assert name[..|name|] == name;
    Methods.GuessLast(m);
    var r := Methods.AfterMethod(p, name, m);
    if r.nread <= cfg.maxHeaderSize {
      MethodStarts(m, |name|);
      Methods.RecognisesMethod(cfg, p, t, name, m);
    }
    LeadsMore(cfg, p, t, name, ' ', Methods.InMethod(p, |name|, m), u, r, u);
  }

  /** The parser after a request line. */
  function AfterLine(p: Parser, r: RequestParts): Parser {
    Fresh(p).(verb := r.verb, index := |MethodString(r.verb)| + 1, state := HeaderFieldStart,
              nread := p.nread + |RequestLineText(r)|, major := Num(r.major), minor := Num(r.minor))
  }

  function Num(c: octet): nat { if IsNum(c) then Digit(c) else 0 }

  lemma PushUrl(t: seq<Event>, target: seq<octet>)
    ensures Push(t + [Notify(MessageBegin)], Data(Url, target)) == t + [Notify(MessageBegin), Data(Url, target)]
    ensures NoName(t + [Notify(MessageBegin), Data(Url, target)])
  {
    assert t + [Notify(MessageBegin)] + [Data(Url, target)] == t + [Notify(MessageBegin), Data(Url, target)];
  }

  /** Method, target and version. */
  lemma LeadsLine(cfg: Config, p: Parser, t: seq<Event>, r: RequestParts)
    requires Limited(cfg, p) && p.state.StartReq?
    requires IsTarget(r.target, r.verb == CONNECT) && IsNum(r.major) && IsNum(r.minor)
    ensures Leads(cfg, p, t, RequestLineText(r), AfterLine(p, r), t + [Notify(MessageBegin), Data(Url, r.target)])
  {
    hide Leads, IsTarget, Push, MethodString, MethodText, VersionText, IsNum, Digit;
    var name, version := MethodText(r.verb), VersionText(r.major, r.minor);
    var u, v := t + [Notify(MessageBegin)], t + [Notify(MessageBegin), Data(Url, r.target)];
    var a := Methods.AfterMethod(p, name, r.verb);
    var b := a.(state := ReqHttpStart, nread := a.nread + |r.target| + 1);
    var c := InVersion(b, r.major, r.minor, 10);
    LeadsMethodSpace(cfg, p, t, r.verb);
    PushUrl(t, r.target);
    if a.nread <= cfg.maxHeaderSize {
      LeadsTargetSpace(cfg, a, u, r.target);
    }
    LeadsConcat(cfg, p, t, name + [' '], r.target + [' '], a, u, b, v);
    if b.nread <= cfg.maxHeaderSize {
      LeadsVersion(cfg, b, v, r.major, r.minor, 10);
    }
    assert version[..10] == version;
    LeadsConcat(cfg, p, t, name + [' '] + (r.target + [' ']), version, b, v, c, v);
    assert c == AfterLine(p, r);
  }

  // Requests.

  /** The status code that a request parser has left from before does not matter. */
  lemma StatusApart(cfg: Config, m: Head, code: nat)
    requires m.kind == Request
    ensures var n := m.(statusCode := code);
            FramingOf(cfg, n) == FramingOf(cfg, m) && Switching(cfg, n) == Switching(cfg, m)
  {
    hide Saying, Prefixed, Measured, Upgrading, LengthOf;
  }

  lemma LineFields(cfg: Config, p: Parser, r: RequestParts)
    requires p.kind == Request && RequestOk(cfg, r)
    ensures var q, m := AfterLine(p, r), HeadOf(AfterLine(p, r), r.message.headers);
            && AtFields(q) && HeadersOk(r.message.headers) && BodySent(cfg, m, r.message.body)
            && Proceeds(cfg, m) == Proceeds(cfg, RequestHead(r)) && Switching(cfg, m) == Switching(cfg, RequestHead(r))
  {
    hide HeadersOk, IsTarget, IsNum, MethodString, RequestLineText, FramingOf, Switching, SentAs, Measured, LengthsOk;
    StatusApart(cfg, RequestHead(r), p.statusCode);
  }

  lemma HeadSplit(r: RequestParts)
    ensures RequestText(r) == RequestLineText(r) + (FieldsText(r.message) + ([LF] + Wire(r.message.body)))
  {
    hide RequestLineText, FieldsText, Wire;
  }

  /** A request as delivered, and what it leaves; one that asks for another protocol ends the stream. */
  ghost predicate Delivered(cfg: Config, t: seq<Event>, r: RequestParts, g: Progress) {
    && (if Switching(cfg, RequestHead(r)) && !r.message.body.UntilEnd? then g.Switched? else g.Going?)
    && g.trace == t + RequestCalls(r)
    && g.p.kind == Request && g.p.verb == r.verb && g.p.major == Num(r.major) && g.p.minor == Num(r.minor)
    && g.p.nread == LeftCount(r.message.body)
    && g.p.state == if r.message.body.UntilEnd? then BodyIdentityEof else if KeepsOpen(r) then StartReq else Dead
  }

  lemma FinishedDelivered(cfg: Config, p: Parser, t: seq<Event>, r: RequestParts, g: Progress)
    requires p.kind == Request && RequestOk(cfg, r)
    requires Finished(cfg, AfterLine(p, r), t + [Notify(MessageBegin), Data(Url, r.target)], r.message, g)
    ensures Delivered(cfg, t, r, g)
  {
    hide HeadersCalls, BodyCalls, RequestOk, KeepsAlive, RequestLineText, LeftCount, Switching, BodySent, HeadersOk,
      AtFields, Proceeds, MethodString;
    LineFields(cfg, p, r);
    assert t + [Notify(MessageBegin), Data(Url, r.target)] + HeadersCalls(r.message.headers)
           + [Notify(HeadersComplete)] + BodyCalls(r.message.body) == t + RequestCalls(r);
  }

  /** A request with any method, complete target, version and headers, and a body in the framing that the code takes for
      them, after which the connection has counted `p.nread` header bytes: it is delivered as exactly its parts, each
      once and in order, if the code goes on to the body and the head is within what is left of max_header_size, and
      refused if not. */
  lemma RequestDelivered(cfg: Config, p: Parser, t: seq<Event>, r: RequestParts)
    requires Limited(cfg, p) && p.kind == Request && p.state.StartReq? && RequestOk(cfg, r)
    ensures var g := Run(cfg, Going(p, t), RequestText(r));
            if Proceeds(cfg, RequestHead(r)) && p.nread + |HeadText(r)| <= cfg.maxHeaderSize
            then Delivered(cfg, t, r, g) else g == Failed
  {
    hide Run, Leads, FieldsText, RequestLineText, Wire, AfterLine, IsTarget, AtFields, Delivered, NoName, RequestText,
      IsNum, HeadersOk, BodySent, Proceeds, Finished, Switching;
    var q, u := AfterLine(p, r), t + [Notify(MessageBegin), Data(Url, r.target)];
    var rest := FieldsText(r.message) + ([LF] + Wire(r.message.body));
    HeadSplit(r);
    LineFields(cfg, p, r);
    PushUrl(t, r.target);
    LeadsLine(cfg, p, t, r);
    LeadsOn(cfg, p, t, RequestLineText(r), q, u, rest);
    LineNread(p, r);
    if q.nread <= cfg.maxHeaderSize {
      MessageRun(cfg, q, u, r.message);
      if Proceeds(cfg, RequestHead(r)) && p.nread + |HeadText(r)| <= cfg.maxHeaderSize {
        FinishedDelivered(cfg, p, t, r, Run(cfg, Going(p, t), RequestText(r)));
      }
    }
  }

  lemma LineNread(p: Parser, r: RequestParts)
    ensures AfterLine(p, r).nread == p.nread + |RequestLineText(r)|
  {
  }

  // Requests in a row.

  function RequestsText(rs: seq<RequestParts>): seq<octet> {
    if rs == [] then [] else RequestText(rs[0]) + RequestsText(rs[1..])
  }

  function RequestsCalls(rs: seq<RequestParts>): seq<Event> {
    if rs == [] then [] else RequestCalls(rs[0]) + RequestsCalls(rs[1..])
  }

  /** Requests that neither ask for another protocol nor end with the connection. */
  predicate RequestsOk(cfg: Config, rs: seq<RequestParts>) {
    forall i :: 0 <= i < |rs| ==>
      RequestOk(cfg, rs[i]) && !Switching(cfg, RequestHead(rs[i])) && !rs[i].message.body.UntilEnd?
  }

  /** The code goes on to every body, every head is within what the trailer before it leaves of max_header_size, and
      every request but the last keeps the connection. */
  predicate AllTaken(cfg: Config, n: nat, rs: seq<RequestParts>)
    decreases rs
  {
    rs != [] ==>
      && Proceeds(cfg, RequestHead(rs[0])) && n + |HeadText(rs[0])| <= cfg.maxHeaderSize
      && (|rs| > 1 ==> KeepsOpen(rs[0]) && AllTaken(cfg, LeftCount(rs[0].message.body), rs[1..]))
  }

  lemma RequestsTail(cfg: Config, rs: seq<RequestParts>)
    requires RequestsOk(cfg, rs) && rs != []
    ensures RequestOk(cfg, rs[0]) && RequestsOk(cfg, rs[1..])
    ensures !Switching(cfg, RequestHead(rs[0])) && !rs[0].message.body.UntilEnd?
    ensures Proceeds(cfg, RequestHead(rs[0])) ==> LeftCount(rs[0].message.body) <= cfg.maxHeaderSize
  {
    hide IsTarget, Switching, Proceeds, BodySent, HeadersOk;
    assert RequestOk(cfg, rs[0]);
    LeftWithin(cfg, RequestHead(rs[0]), rs[0].message.body);
  }

  lemma DeliveredNext(cfg: Config, t: seq<Event>, r: RequestParts, g: Progress)
    requires Delivered(cfg, t, r, g) && !Switching(cfg, RequestHead(r)) && !r.message.body.UntilEnd?
    ensures g.Going? && g.trace == t + RequestCalls(r) && g.p.kind == Request
    ensures g.p.nread == LeftCount(r.message.body) && g.p.state == if KeepsOpen(r) then StartReq else Dead
  {
    hide Switching, RequestCalls, KeepsOpen, LeftCount;
  }

  /** A connection that was not kept refuses the next request. */
  lemma DeadRefuses(cfg: Config, p: Parser, t: seq<Event>, r: RequestParts, rest: seq<octet>)
    requires Limited(cfg, p) && p.state.Dead?
    ensures Run(cfg, Going(p, t), RequestText(r) + rest) == Failed
  {
    hide Run, MethodText;
    MethodSome(r.verb);
    var text := RequestText(r) + rest;
    Pipeline.DeadRejects(cfg, p, t, text);
    assert text[0] == MethodText(r.verb)[0];
    MethodStart(r.verb);
  }

  lemma MethodStart(m: Method)
    ensures MethodText(m) != [] && MethodText(m)[0] != CR && MethodText(m)[0] != LF
  {
    MethodSome(m);
    MethodStarts(m, 1);
  }

  /** Any list of requests, one after another on a connection: each is delivered as if it were alone, exactly when
      every head fits and every request but the last keeps the connection; else the first that does not is refused. */
  lemma {:induction false} RequestsDelivered(cfg: Config, p: Parser, t: seq<Event>, rs: seq<RequestParts>)
    requires Limited(cfg, p) && p.kind == Request && p.state.StartReq? && RequestsOk(cfg, rs)
    ensures var g := Run(cfg, Going(p, t), RequestsText(rs));
            if AllTaken(cfg, p.nread, rs) then g.Going? && g.trace == t + RequestsCalls(rs) else g == Failed
    decreases rs
  {
    hide RequestText, RequestCalls, RequestOk, RequestsOk, HeadText, Run, KeepsOpen, LeftCount, Delivered, Switching,
      Proceeds;
    if rs == [] {
      assert t + [] == t;
      RunNothing(cfg, Going(p, t));
    } else {
      var r, tail := rs[0], rs[1..];
      RequestsTail(cfg, rs);
      RequestDelivered(cfg, p, t, r);
      var g := Run(cfg, Going(p, t), RequestText(r));
      RunConcat(cfg, Going(p, t), RequestText(r), RequestsText(tail));
      NotFailed(cfg, t, r, g);
      if g.Failed? {
        RunStopped(cfg, Failed, RequestsText(tail));
      } else {
        DeliveredNext(cfg, t, r, g);
        if tail == [] {
          RunNothing(cfg, g);
          assert RequestCalls(r) + [] == RequestCalls(r);
        } else if KeepsOpen(r) {
          RequestsDelivered(cfg, g.p, g.trace, tail);
          Assoc(t, RequestCalls(r), RequestsCalls(tail));
        } else {
          DeadRefuses(cfg, g.p, g.trace, tail[0], RequestsText(tail[1..]));
        }
      }
    }
  }

  // What is left of the header limit.

  lemma LineEndByte(cfg: Config, p: Parser, t: seq<Event>, ch: octet)
    requires cfg.maxHeaderSize + 1 < TWO_TO_32 && p.nread + 1 <= cfg.maxHeaderSize
    requires p.state.StartReq? && (ch == CR || ch == LF)
    ensures StepByte(cfg, p, t, ch) == Going(p.(nread := p.nread + 1), t)
  {
    hide StepByte, Counted;
    CountOne(cfg, p);
    StepQuiet(cfg, p, t, ch, p.(nread := p.nread + 1));
  }

  /** Line ends before a request are read and counted: every header count up to the limit is reached. */
  lemma {:induction false} LineEnds(cfg: Config, p: Parser, t: seq<Event>, ends: seq<octet>)
    requires cfg.maxHeaderSize + 1 < TWO_TO_32 && p.nread + |ends| <= cfg.maxHeaderSize
    requires p.state.StartReq? && forall i :: 0 <= i < |ends| ==> ends[i] == CR || ends[i] == LF
    ensures Run(cfg, Going(p, t), ends) == Going(p.(nread := p.nread + |ends|), t)
  {
    hide StepByte;
    if ends != [] {
      var n := |ends| - 1;
      LineEnds(cfg, p, t, ends[..n]);
      LineEndByte(cfg, p.(nread := p.nread + n), t, ends[n]);
    }
  }

  /** A request after any messages is delivered exactly when its head fits what they left of max_header_size. So it
      fares as with a fresh parser, unless it fits the limit but not what is left of it. */
  lemma NextRequest(cfg: Config, kind: MessageKind, first: seq<octet>, r: RequestParts)
    requires cfg.maxHeaderSize + 1 < TWO_TO_32 && RequestOk(cfg, r)
    requires var g := Run(cfg, Going(Init(kind), []), first); g.Going? && g.p.state.StartReq?
    ensures var g := Run(cfg, Going(Init(kind), []), first);
            var a := Run(cfg, Going(Init(kind), []), first + RequestText(r));
            var b := Run(cfg, Going(Init(Request), []), RequestText(r));
            var n, ok := |HeadText(r)|, Proceeds(cfg, RequestHead(r));
            && (if ok && g.p.nread + n <= cfg.maxHeaderSize then Delivered(cfg, g.trace, r, a) else a == Failed)
            && (if ok && n <= cfg.maxHeaderSize then Delivered(cfg, [], r, b) else b == Failed)
            && ((a == Failed <==> b == Failed) <==> !(ok && cfg.maxHeaderSize - g.p.nread < n <= cfg.maxHeaderSize))
  {
    hide Run, RequestOk, HeadText, RequestText, Proceeds;
    var start := Going(Init(kind), []);
    var g := Run(cfg, start, first);
    StartsAsRequest(cfg, kind, first);
    RunConcat(cfg, start, first, RequestText(r));
    RequestDelivered(cfg, g.p, g.trace, r);
    RequestDelivered(cfg, Init(Request), [], r);
    hide Delivered;
    NotFailed(cfg, g.trace, r, Run(cfg, start, first + RequestText(r)));
    NotFailed(cfg, [], r, Run(cfg, Going(Init(Request), []), RequestText(r)));
  }

  lemma NotFailed(cfg: Config, t: seq<Event>, r: RequestParts, g: Progress)
    ensures Delivered(cfg, t, r, g) ==> g != Failed
  {
    hide Switching;
  }

  lemma StartsAsRequest(cfg: Config, kind: MessageKind, first: seq<octet>)
    requires cfg.maxHeaderSize + 1 < TWO_TO_32
    requires var g := Run(cfg, Going(Init(kind), []), first); g.Going? && g.p.state.StartReq?
    ensures var p := Run(cfg, Going(Init(kind), []), first).p;
            p.kind == Request && Limited(cfg, p)
  {
    hide Run, AtLoop;
    assert first[..|first|] == first;
    var marks, log := Pipeline.Reached(cfg, kind, first, |first|);
    AtLoopInv(cfg, Going(Init(kind), []), first, |first|, Run(cfg, Going(Init(kind), []), first).p, marks, log);
  }

  /** Such messages exist: after as many line ends as the limit, every request is refused. */
  lemma CountIsLeft(cfg: Config, r: RequestParts)
    requires cfg.maxHeaderSize + 1 < TWO_TO_32 && RequestOk(cfg, r)
    requires Proceeds(cfg, RequestHead(r)) && |HeadText(r)| <= cfg.maxHeaderSize
    ensures Run(cfg, Going(Init(Request), []), seq(cfg.maxHeaderSize, _ => LF) + RequestText(r)) == Failed
    ensures Delivered(cfg, [], r, Run(cfg, Going(Init(Request), []), RequestText(r)))
  {
    hide Run, RequestOk, RequestText, Delivered, Proceeds;
    var ends := seq(cfg.maxHeaderSize, _ => LF);
    LineEnds(cfg, Init(Request), [], ends);
    NextRequest(cfg, Request, ends, r);
  }
}
