/** Message after message on one connection. */
module HttpPipeline {
  import opened Wrappers
  import opened HttpTypes
  import opened HttpSwitch
  import opened HttpTrace
  import opened HttpRun
  import opened HttpSync
  import opened HttpInvariant
  import opened HttpBulk
  import opened HttpAlike

  predicate RequestState(s: State) {
    || s.StartReqOrRes? || s.ResOrRespH? || s.StartReq? || s.ReqMethod? || s.ReqSpacesBeforeUrl?
    || s.ReqSchema? || s.ReqSchemaSlash? || s.ReqSchemaSlashSlash? || s.ReqServerStart? || s.ReqServer?
    || s.ReqServerWithAt? || s.ReqPath? || s.ReqQueryStringStart? || s.ReqQueryString? || s.ReqFragmentStart?
    || s.ReqFragment? || s.ReqHttpStart? || s.ReqHttpH? || s.ReqHttpHT? || s.ReqHttpHTT? || s.ReqHttpHTTP?
    || s.ReqHttpI? || s.ReqHttpIC? || s.ReqHttpMajor?
    || s.ReqHttpDot? || s.ReqHttpMinor? || s.ReqHttpEnd? || s.ReqLineAlmostDone?
  }

  /** The states that a kind of parser gets to; a parser of responses never sets the method. */
  predicate KindOk(p: Parser) {
    match p.kind
    case Request => !p.state.StartReqOrRes? && !p.state.ResOrRespH? && !p.state.StartRes?
    case Response => !RequestState(p.state) && p.verb == DELETE
    case Both => (p.state.StartReqOrRes? || p.state.ResOrRespH?) && p.verb == DELETE
  }

  /** A pass gets between messages by a callback, or was there before it; and it keeps to its kind. */
  predicate PassEnds(p: Parser, pass: Pass) {
    match pass
    case Next(q, acts) =>
      && (BetweenMessages(q.state) ==> if acts == [] then BetweenMessages(p.state) else acts[|acts| - 1].Call?)
      && (KindOk(p) ==> KindOk(q))
    case Again(q, acts) =>
      (BetweenMessages(q.state) ==> acts == [] && BetweenMessages(p.state)) && (KindOk(p) ==> KindOk(q))
    case _ => true
  }

  lemma StartEnds(p: Parser, ch: octet)
    requires PartOf(p.state).PStart?
    ensures PassEnds(p, SwitchStart(p, ch))
  {
    hide FirstLetter;
  }

  lemma StatusLineEnds(p: Parser, ch: octet)
    requires PartOf(p.state).PStatusLine?
    ensures PassEnds(p, SwitchStatusLine(p, ch))
  {
    hide IsNum, Digit, KindOk;
    var pass := SwitchStatusLine(p, ch);
    if pass.Next? || pass.Again? {
      KindMove(p, pass.p);
    }
  }

  lemma MethodEnds(p: Parser, ch: octet)
    requires p.state.ReqMethod?
    ensures PassEnds(p, SwitchMethod(p, ch))
  {
    hide Redirect, MethodString;
  }

  lemma UrlEnds(p: Parser, ch: octet)
    requires PartOf(p.state).PUrl?
    ensures PassEnds(p, SwitchUrl(p, ch))
  {
    hide ParseUrlChar, KindOk, PartOf, BetweenMessages;
    UrlCharOn(p.state, ch);
    UrlCharOn(ReqServerStart, ch);
    var pass := SwitchUrl(p, ch);
    if pass.Next? {
      UrlKind(p, pass.p);
    }
  }

  lemma UrlKind(p: Parser, q: Parser)
    requires PartOf(p.state).PUrl? && q.kind == p.kind
    requires || PartOf(q.state).PUrl? || q.state == ReqHttpStart || q.state == ReqLineAlmostDone
             || q.state == HeaderFieldStart
    ensures (KindOk(p) ==> KindOk(q)) && !BetweenMessages(q.state)
  {
  }

  lemma UrlCharOn(s: State, ch: octet)
    ensures var r := ParseUrlChar(s, ch); r == Dead || PartOf(r).PUrl?
  {
  }

  lemma VersionEnds(p: Parser, ch: octet)
    requires PartOf(p.state).PVersion?
    ensures PassEnds(p, SwitchRequestVersion(p, ch))
  {
    hide IsNum, Digit;
  }

  /** A move that leaves kind and method alone, to a state of no request line. */
  lemma KindMove(p: Parser, q: Parser)
    requires !RequestState(q.state) && !q.state.StartRes? && q.kind == p.kind && q.verb == p.verb
    requires !p.state.StartReqOrRes? && !p.state.ResOrRespH?
    ensures KindOk(p) ==> KindOk(q)
  {
  }

  lemma NoRequestStates()
    ensures !RequestState(HeaderFieldStart) && !RequestState(HeaderField) && !RequestState(HeadersAlmostDone)
    ensures !RequestState(HeaderValueDiscardWs) && !RequestState(HeaderValueDiscardWsAlmostDone)
    ensures !RequestState(HeaderValueDiscardLws) && !RequestState(HeaderValueStart) && !RequestState(HeaderValue)
    ensures !RequestState(HeaderValueLws) && !RequestState(HeaderAlmostDone)
  {
  }

  lemma HeaderLineEnds(cfg: Config, p: Parser, ch: octet)
    requires PartOf(p.state).PHeaderLine?
    ensures PassEnds(p, SwitchHeaderLine(cfg, p, ch))
  {
    HeaderLineStates(p.state);
    NoRequestStates();
    hide ValueByte, NameByte, NameMatcher, LineFlags, Token, IsToken, FieldStartState, Lower, IsNum, Digit, PartOf,
      RequestState, KindOk, SwitchValueStart;
    ValueStartEnds(p, ch);
    var pass := SwitchHeaderLine(cfg, p, ch);
    if pass.Next? || pass.Again? {
      KindMove(p, pass.p);
    }
  }

  lemma ValueStartEnds(p: Parser, ch: octet)
    ensures var x := SwitchValueStart(p, ch);
            x.Fail? || (x.Next? && x.p.state == HeaderValue && x.p.kind == p.kind && x.p.verb == p.verb)
  {
    hide Lower, IsNum, Digit;
  }

  lemma HeadersEndEnds(cfg: Config, p: Parser, ch: octet)
    requires p.state.HeadersAlmostDone?
    ensures PassEnds(p, SwitchHeadersEnd(cfg, p, ch))
  {
    hide WantsUpgrade;
  }

  lemma HeadersDoneEnds(cfg: Config, p: Parser, ch: octet)
    requires p.state.HeadersDone?
    ensures PassEnds(p, SwitchHeadersDone(cfg, p, ch))
  {
    hide NewMessage, NeedsEof, KindOk;
    NewMessageKind(p.(nread := 0));
    var pass := SwitchHeadersDone(cfg, p, ch);
    if pass.Next? {
      AfterHeadersKind(p, pass.p);
    }
  }

  lemma AfterHeadersKind(p: Parser, q: Parser)
    requires p.state.HeadersDone? && q.kind == p.kind && q.verb == p.verb
    requires || q.state == (if p.kind == Request then StartReq else StartRes) || q.state == Dead
             || q.state == ChunkSizeStart || q.state == BodyIdentity || q.state == BodyIdentityEof
    ensures KindOk(p) ==> KindOk(q)
  {
  }

  lemma NewMessageKind(p: Parser)
    ensures NewMessage(p) == (if p.kind == Request then StartReq else StartRes) || NewMessage(p) == Dead
  {
  }

  lemma ChunkEnds(p: Parser, ch: octet)
    requires PartOf(p.state).PChunk?
    ensures PassEnds(p, SwitchChunk(p, ch))
  {
    ChunkStates();
    hide Unhex, PartOf, KindOk, RequestState;
    var pass := SwitchChunk(p, ch);
    if pass.Next? {
      KindMove(p, pass.p);
    }
  }

  lemma ChunkStates()
    ensures !RequestState(ChunkSizeStart) && !RequestState(ChunkSize) && !RequestState(ChunkParameters)
    ensures !RequestState(ChunkSizeAlmostDone) && !RequestState(ChunkData) && !RequestState(ChunkDataAlmostDone)
    ensures !RequestState(ChunkDataDone) && !RequestState(HeaderFieldStart)
    ensures !PartOf(StartReqOrRes).PChunk? && !PartOf(ResOrRespH).PChunk?
  {
  }

  lemma BodyEnds(p: Parser, ch: octet)
    requires PartOf(p.state).PBody?
    ensures PassEnds(p, SwitchBody(p, ch))
  {
    hide NewMessage;
    NewMessageKind(p);
  }

  lemma SwitchEnds(cfg: Config, p: Parser, ch: octet)
    ensures PassEnds(p, Switch(cfg, p, ch))
  {
    hide PassEnds, PartOf, SwitchStart, SwitchMethod, SwitchStatusLine, SwitchUrl, SwitchRequestVersion,
      SwitchHeaderLine, SwitchHeadersEnd, SwitchHeadersDone, SwitchChunk, SwitchBody;
    PartStates(p.state);
    match PartOf(p.state)
    case PStart => StartEnds(p, ch);
    case PMethod => MethodEnds(p, ch);
    case PStatusLine => StatusLineEnds(p, ch);
    case PUrl => UrlEnds(p, ch);
    case PVersion => VersionEnds(p, ch);
    case PHeaderLine => HeaderLineEnds(cfg, p, ch);
    case PHeadersEnd => HeadersEndEnds(cfg, p, ch);
    case PHeadersDone => HeadersDoneEnds(cfg, p, ch);
    case PChunk => ChunkEnds(p, ch);
    case PBody => BodyEnds(p, ch);
  }

  lemma {:induction false} ExecEnds(cfg: Config, p: Parser, ch: octet)
    ensures PassEnds(p, Exec(cfg, p, ch))
    decreases Rank(p.state)
  {
    hide Switch, BetweenMessages, Shape, Rank, KindOk;
    SwitchEnds(cfg, p, ch);
    PassesOk(cfg, p, ch);
    var pass := Switch(cfg, p, ch);
    if pass.Again? {
      ExecEnds(cfg, pass.p, ch);
    }
  }

  lemma ClosedCallbacks(acts: seq<Action>, log: seq<Event>, marks: Marks, data: seq<octet>, i: nat)
    requires i < |data| && Within(marks, i)
    requires if acts == [] then Closed(log) else acts[|acts| - 1].Call?
    ensures Closed(log + Play(acts, marks, data, i).1)
  {
    if acts == [] {
      assert log + [] == log;
    } else {
      var n := |acts| - 1;
      assert acts == acts[..n] + [acts[n]];
      PlayConcat(acts[..n], [acts[n]], marks, data, i);
      PlaySingle(acts[n], Play(acts[..n], marks, data, i).0, data, i);
      hide Play;
    }
  }

  lemma ReachedNothing(cfg: Config, kind: MessageKind, data: seq<octet>)
    ensures AtLoop(cfg, Going(Init(kind), []), data, 0, Init(kind), map[], [])
    ensures KindOk(Init(kind)) && Closed([])
  {
    hide Rel, Live;
    assert data[..0] == [];
    StartMarks(kind);
    RelStart(Init(kind).state, [], data);
  }

  lemma GoingStep(cfg: Config, p: Parser, t: seq<Event>, ch: octet)
    requires StepByte(cfg, p, t, ch).Going?
    ensures Counted(cfg, p).Some?
    ensures var x := Exec(cfg, p.(nread := Counted(cfg, p).value), ch);
            x.Next? && x.p == StepByte(cfg, p, t, ch).p
  {
    hide Exec, Play, PushAll, Leftover;
  }

  lemma StartMarks(kind: MessageKind)
    ensures InitialMarks(Init(kind).state) == map[]
  {
  }

  lemma SameKind(p: Parser, n: nat)
    ensures KindOk(p.(nread := n)) <==> KindOk(p)
  {
  }

  /** After any bytes, read by a buffer-at-a-time parser: its marks and callbacks, the last of which is no fragment
      when the parser is between messages. */
  lemma {:induction false} Reached(cfg: Config, kind: MessageKind, data: seq<octet>, i: nat)
    returns (marks: Marks, log: seq<Event>)
    requires i <= |data| && Run(cfg, Going(Init(kind), []), data[..i]).Going?
    ensures var p := Run(cfg, Going(Init(kind), []), data[..i]).p;
            && AtLoop(cfg, Going(Init(kind), []), data, i, p, marks, log)
            && KindOk(p) && (BetweenMessages(p.state) ==> Closed(log))
  {
    hide StepByte, Exec, Rel, Closed, BetweenMessages, KindOk, Counted, Play, AtLoop;
    var from := Going(Init(kind), []);
    if i == 0 {
      marks, log := map[], [];
      ReachedNothing(cfg, kind, data);
    } else {
      RunSnoc(cfg, from, data, i - 1);
      var before := Run(cfg, from, data[..i - 1]);
      marks, log := Reached(cfg, kind, data, i - 1);
      GoingStep(cfg, before.p, before.trace, data[i - 1]);
      AtStep(cfg, from, data, i - 1, before.p, marks, log);
      var counted := before.p.(nread := Counted(cfg, before.p).value);
      var x := Exec(cfg, counted, data[i - 1]);
      ExecEnds(cfg, counted, data[i - 1]);
      SameKind(before.p, Counted(cfg, before.p).value);
      var m := Play(x.acts, marks, data, i - 1);
      if BetweenMessages(x.p.state) {
        ClosedCallbacks(x.acts, log, marks, data, i - 1);
      }
      marks, log := m.0, log + m.1;
    }
  }

  /** A fresh parser for the message after one that left `p`: all it takes over is the header count. */
  function FreshAfter(p: Parser): Parser { Init(p.kind).(nread := p.nread) }

  lemma FreshIsAlike(p: Parser)
    requires KindOk(p) && BetweenMessages(p.state) && !p.state.Dead?
    ensures Alike(p, FreshAfter(p))
  {
  }

  /** What the parser makes of the bytes after some messages is what a fresh parser makes of them: the same
      callbacks, error, upgrade, and fields. Nothing of the messages before is left but their header count. */
  lemma NextMessages(cfg: Config, kind: MessageKind, first: seq<octet>, rest: seq<octet>)
    requires var g := Run(cfg, Going(Init(kind), []), first);
             g.Going? && BetweenMessages(g.p.state) && !g.p.state.Dead?
    ensures var g := Run(cfg, Going(Init(kind), []), first);
            SameReading(g.trace, Run(cfg, Going(Init(kind), []), first + rest),
                        Run(cfg, Going(FreshAfter(g.p), []), rest))
  {
    hide Run, Alike, SameReading, KindOk, Rel, Live, Inv, BetweenMessages;
    var g := Run(cfg, Going(Init(kind), []), first);
    RunConcat(cfg, Going(Init(kind), []), first, rest);
    assert first[..|first|] == first;
    var marks, log := Reached(cfg, kind, first, |first|);
    NothingOpen(g.p.state);
    RelNone(log, marks, g.trace, first);
    JoinClosed(log, g.trace, first);
    FreshIsAlike(g.p);
    assert g.trace + [] == g.trace;
    RunSame(cfg, g.p, FreshAfter(g.p), g.trace, [], rest);
  }

  lemma NothingOpen(s: State)
    requires BetweenMessages(s)
    ensures Live(s) == None && InitialMarks(s) == map[]
  {
  }

  lemma RelNone(log: seq<Event>, marks: Marks, trace: seq<Event>, data: seq<octet>)
    requires Rel(None, map[], marks, log, trace, data, |data|)
    ensures marks == map[]
  {
  }

  lemma JoinClosed(log: seq<Event>, trace: seq<Event>, data: seq<octet>)
    requires Rel(None, map[], map[], log, trace, data, |data|) && Closed(log)
    ensures Closed(trace)
  {
    PushAllNone(Join(log));
    if log != [] {
      var n := |log| - 1;
      assert log == log[..n] + [log[n]];
      JoinSnoc(log[..n], log[n]);
    }
  }

  /** A parser that does not keep the connection reads line ends, as many as are left of max_header_size, and makes no
      callback for them; anything else it refuses. */
  lemma {:induction false} DeadRejects(cfg: Config, p: Parser, t: seq<Event>, data: seq<octet>)
    requires cfg.maxHeaderSize + 1 < TWO_TO_32 && p.nread <= cfg.maxHeaderSize && p.state.Dead?
    ensures Run(cfg, Going(p, t), data) ==
            if (forall i :: 0 <= i < |data| ==> data[i] == CR || data[i] == LF) && p.nread + |data| <= cfg.maxHeaderSize
            then Going(p.(nread := p.nread + |data|), t) else Failed
  {
    hide StepByte;
    if data != [] {
      var n := |data| - 1;
      DeadRejects(cfg, p, t, data[..n]);
      assert data == data[..n] + [data[n]];
      DeadStep(cfg, p.(nread := p.nread + n), t, data[n]);
    }
  }

  lemma DeadStep(cfg: Config, p: Parser, t: seq<Event>, ch: octet)
    requires cfg.maxHeaderSize + 1 < TWO_TO_32 && p.state.Dead?
    ensures p.nread <= cfg.maxHeaderSize ==>
              StepByte(cfg, p, t, ch) == if (ch == CR || ch == LF) && p.nread < cfg.maxHeaderSize
                                         then Going(p.(nread := p.nread + 1), t) else Failed
  {
    PushAllNone(t);
    LeftoverNone([ch]);
    if p.nread <= cfg.maxHeaderSize {
      CountOne(cfg, p);
    }
  }
}
