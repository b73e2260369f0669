/** What follows the headers of a message: how its body is framed, against RFC 7230, section 3.3.3. */
module HttpFraming {
  import opened Wrappers
  import opened HttpTypes
  import opened HttpNumerals
  import opened HttpSwitch
  import opened HttpTrace
  import opened HttpRun
  import opened HttpSync
  import opened HttpBulk
  import opened HttpSteps
  import opened HttpLeads
  import opened HttpNames
  import opened HttpBodies
  import opened HttpTokens
  import opened HttpLines
  import opened HttpHeaders
  import opened HttpChunked
  import opened HttpAlike

  /** Tunnel: the rest of the connection is another protocol. */
  datatype Framing = Tunnel | Empty | Length(n: nat) | Chunks | UntilClose | Refused

  function LengthFraming(n: nat): Framing { if n == 0 then Empty else Length(n) }

  // Messages.

  /** What a message says before its body, with the headers in the order they came. */
  datatype Head = Head(kind: MessageKind, statusCode: nat, verb: Method, headers: seq<Header>)

  /** The statuses whose responses have no body. */
  predicate BodilessStatus(code: nat) { code / 100 == 1 || code == 204 || code == 304 }

  predicate Bodiless(m: Head) { m.kind != Request && BodilessStatus(m.statusCode) }

  /** The client says, by on_headers_complete, that no body follows; that a response answers HEAD is known to it. */
  predicate Skipped(cfg: Config) { cfg.reply != Proceed }

  // The standard.

  predicate IsCoding(h: Header) { Folded(h.name) == TRANSFER_ENCODING }

  /** There is a Transfer-Encoding header. */
  predicate Coded(hs: seq<Header>) { exists h <- hs :: IsCoding(h) }

  /** The transfer codings of a message in the order they were applied. */
  function CodingsOf(hs: seq<Header>): seq<seq<octet>> {
    if hs == [] then [] else (if IsCoding(hs[0]) then Members(hs[0].value) else []) + CodingsOf(hs[1..])
  }

  predicate FinallyChunked(hs: seq<Header>) {
    var cs := CodingsOf(hs);
    cs != [] && Spells(cs[|cs| - 1], "chunked")
  }

  /** The values of the Content-Length headers, without the white space around them. */
  function LengthsOf(hs: seq<Header>): seq<seq<octet>> {
    if hs == [] then [] else (if IsLength(hs[0]) then [Trimmed(Chars(hs[0].value))] else []) + LengthsOf(hs[1..])
  }

  predicate ValidLength(e: seq<octet>) { e != [] && Decimal(e) }

  /** The length of a message, if all its Content-Length headers have the same valid value. */
  function StandardLength(hs: seq<Header>): Option<nat> {
    var ls := LengthsOf(hs);
    if ls != [] && ValidLength(ls[0]) && forall i :: 0 <= i < |ls| ==> ls[i] == ls[0] then Some(DecimalValue(ls[0]))
    else None
  }

  /** The rules of section 3.3.3 in their order. A message with both headers, or by section 3.3.2 with more than one
      length, may be refused. */
  predicate Permitted(cfg: Config, m: Head, f: Framing) {
    var hs := m.headers;
    || (f.Refused? && ((Coded(hs) && Measured(hs)) || |LengthsOf(hs)| > 1))
    || f == (if Bodiless(m) || Skipped(cfg) then Empty
             else if Coded(hs) then
               if FinallyChunked(hs) then Chunks else if m.kind == Request then Refused else UntilClose
             else if Measured(hs) then
               match StandardLength(hs) case Some(n) => LengthFraming(n) case None => Refused
             else if m.kind == Request then Empty else UntilClose)
  }

  // The code.

  /** The code hears "chunked" in some Transfer-Encoding line. */
  predicate Chunking(hs: seq<Header>) { Saying(hs, Chunked) }

  /** A Content-Length where the code does not let it through beside what it takes for a Transfer-Encoding. */
  predicate Conflicting(cfg: Config, m: Head) {
    && Prefixed(m.headers) && Measured(m.headers)
    && (if Chunking(m.headers) then !cfg.allowChunkedLength else !cfg.lenient)
  }

  /** The headers announce a body. */
  predicate Announcing(hs: seq<Header>) { Chunking(hs) || Prefixed(hs) || (Measured(hs) && LengthOf(hs) > 0) }

  /** The message asks for another protocol. */
  predicate Switching(cfg: Config, m: Head) {
    || cfg.reply == NoBodyUpgrade
    || (if Upgrading(m.headers) && Saying(m.headers, Upgrade) then m.kind == Request || m.statusCode == 101
        else m.verb == CONNECT)
  }

  predicate Tunnelling(cfg: Config, m: Head) {
    && Switching(cfg, m)
    && (m.verb == CONNECT || Skipped(cfg) || !(Chunking(m.headers) || (Measured(m.headers) && LengthOf(m.headers) > 0)))
  }

  /** The framing the code takes. */
  function FramingOf(cfg: Config, m: Head): Framing {
    if !LengthsOk(false, m.headers) || Conflicting(cfg, m) then Refused
    else if Tunnelling(cfg, m) then Tunnel
    else if Skipped(cfg) then Empty
    else if Chunking(m.headers) then Chunks
    else if Prefixed(m.headers) then if m.kind == Request && !cfg.lenient then Refused else UntilClose
    else if Measured(m.headers) then LengthFraming(LengthOf(m.headers))
    else if m.kind == Request || Bodiless(m) then Empty else UntilClose
  }

  // Where the two differ.

  /** A response with a status that has no body announces one all the same. */
  predicate AnnouncesNothing(cfg: Config, m: Head) { Bodiless(m) && !Skipped(cfg) && Announcing(m.headers) }

  /** A name that only starts like Transfer-Encoding is taken for it where the standard has no body or a length. */
  predicate Misnames(cfg: Config, m: Head) {
    && Prefixed(m.headers) && !Coded(m.headers)
    && (m.kind == Request || Measured(m.headers))
  }

  /** The code hears "chunked" though it is not the final coding, or does not hear it though it is. */
  predicate Mishears(m: Head) { Coded(m.headers) && Chunking(m.headers) != FinallyChunked(m.headers) }

  /** The lenient flag lets a request through whose body has no known end. */
  predicate LetsThrough(cfg: Config, m: Head) {
    cfg.lenient && m.kind == Request && Prefixed(m.headers) && !Chunking(m.headers)
  }

  /** The only length is refused, though it is valid (it has a tab after it, or it is too large) or has no account,
      because no body follows. */
  predicate Misreads(cfg: Config, m: Head) {
    var ls := LengthsOf(m.headers);
    |ls| == 1 && !Coded(m.headers) && (Bodiless(m) || Skipped(cfg) || ValidLength(ls[0]))
  }

  /** The code frames the message as the standard does not. That a length conflicts with a Transfer-Encoding is a
      reason to refuse it only if there is one. */
  predicate Deviates(cfg: Config, m: Head) {
    if !LengthsOk(false, m.headers) then Misreads(cfg, m)
    else if Conflicting(cfg, m) then !Coded(m.headers)
    else if Skipped(cfg) then false
    else AnnouncesNothing(cfg, m) || (!Bodiless(m) && (Misnames(cfg, m) || Mishears(m) || LetsThrough(cfg, m)))
  }

  lemma ChunkingCoded(hs: seq<Header>)
    ensures Chunking(hs) ==> Coded(hs)
    ensures Coded(hs) ==> Prefixed(hs)
  {
    hide Folded, Hears;
    if Chunking(hs) {
      var h :| h in hs && Says(h, Chunked);
      assert IsCoding(h);
    }
    if Coded(hs) {
      var h :| h in hs && IsCoding(h);
      assert IsPrefixed(h);
    }
  }

  /** A length as the parser reads it is a valid one, and has its value. */
  lemma LengthAgrees(v: seq<Symbol>)
    requires LengthText(v) && SymbolsOk(v)
    ensures var e := Trimmed(Chars(v)); ValidLength(e) && DecimalValue(e) == LengthValue(v)
  {
    hide Trimmed, IsHeaderChar, DecimalFits, DecimalValue;
    var d, c := Digits(v), Chars(v);
    assert forall i :: 0 <= i < d ==> IsNum(v[i].c) && c[i] == v[i].c;
    assert forall i :: d <= i < |v| ==> Padding(v[i]) && SymbolOk(v[i]) && c[i] == v[i].c;
    TrimmedAt(c, d);
    assert c[..d] == Chars(v[..d]);
  }

  lemma NoLengths(hs: seq<Header>)
    ensures Measured(hs) <==> LengthsOf(hs) != []
  {
    hide IsLength;
    if hs != [] {
      AnyOf(hs);
      NoLengths(hs[1..]);
    }
  }

  /** Acceptable lengths are at most one, and it is the standard's. */
  lemma {:induction false} LengthsAgree(seen: bool, hs: seq<Header>)
    requires HeadersOk(hs) && LengthsOk(seen, hs)
    ensures |LengthsOf(hs)| == if Measured(hs) then 1 else 0
    ensures Measured(hs) ==> !seen && StandardLength(hs) == Some(LengthOf(hs))
    decreases hs
  {
    hide IsLength, LengthText, LengthValue, Trimmed, ValidLength, DecimalValue, HeaderOk;
    if hs != [] {
      AnyOf(hs);
      LengthsAgree(seen || IsLength(hs[0]), hs[1..]);
      NoLengths(hs[1..]);
      if IsLength(hs[0]) {
        HeaderValueOk(hs[0]);
        LengthAgrees(hs[0].value);
        assert LengthsOf(hs) == [Trimmed(Chars(hs[0].value))] + [] == [Trimmed(Chars(hs[0].value))];
      } else {
        assert LengthsOf(hs) == [] + LengthsOf(hs[1..]) == LengthsOf(hs[1..]);
      }
    }
  }

  lemma HeaderValueOk(h: Header)
    requires HeaderOk(h)
    ensures SymbolsOk(h.value)
  {
  }

  lemma {:induction false} SomeLength(seen: bool, hs: seq<Header>)
    requires !LengthsOk(seen, hs)
    ensures Measured(hs)
    decreases hs
  {
    hide IsLength, LengthText;
    AnyOf(hs);
    if Acceptable(seen, hs[0]) {
      SomeLength(seen || IsLength(hs[0]), hs[1..]);
    }
    NoLengths(hs);
  }

  /** The framing the code takes is one the standard permits exactly when it does not deviate. */
  lemma PermittedIs(cfg: Config, m: Head)
    requires m.kind != Both && HeadersOk(m.headers) && !FramingOf(cfg, m).Tunnel?
    ensures Permitted(cfg, m, FramingOf(cfg, m)) <==> !Deviates(cfg, m)
  {
    ChunkingCoded(m.headers);
    NoLengths(m.headers);
    if LengthsOk(false, m.headers) {
      LengthsAgree(false, m.headers);
    } else {
      SomeLength(false, m.headers);
    }
    hide HeadersOk, LengthsOk, Saying, Coded, Prefixed, Measured, FinallyChunked, LengthOf, Switching, BodilessStatus,
      LengthsOf, ValidLength, DecimalValue;
  }

  // The end of the headers.

  /** How the parser goes on, seen from outside. */
  function Chosen(g: Progress): Framing {
    match g
    case Failed => Refused
    case Switched(_, _) => Tunnel
    case Going(p, _) =>
      if p.state.ChunkSizeStart? then Chunks
      else if p.state.BodyIdentity? then Length(p.contentLength)
      else if p.state.BodyIdentityEof? then UntilClose
      else Empty
  }

  /** The end of the headers: the byte before the last LF has been read. */
  predicate AtEnd(cfg: Config, p: Parser) {
    && cfg.maxHeaderSize + 1 < TWO_TO_32 && p.nread + 1 <= cfg.maxHeaderSize
    && p.state.HeadersAlmostDone? && !p.flags.trailing && !p.flags.skipBody && p.contentLength < TWO_TO_64
    && (p.kind == Request || (p.kind == Response && p.verb != CONNECT))
  }

  predicate Conflict(cfg: Config, p: Parser) {
    && p.usesTransferEncoding && p.flags.contentLength
    && (if p.flags.chunked then !cfg.allowChunkedLength else !cfg.lenient)
  }

  /** The parser as on_headers_complete leaves it. */
  function Answered(cfg: Config, p: Parser): Parser {
    var q := p.(state := HeadersDone, upgrade := WantsUpgrade(p), nread := p.nread + 1);
    match cfg.reply
    case Proceed => q
    case NoBody => q.(flags := q.flags.(skipBody := true))
    case NoBodyUpgrade => q.(flags := q.flags.(skipBody := true), upgrade := true)
  }

  predicate Tunnelled(q: Parser) {
    q.upgrade && (q.verb == CONNECT || q.flags.skipBody
                  || !(q.flags.chunked || (q.contentLength > 0 && q.contentLength != ULLONG_MAX)))
  }

  lemma ExecEnd(cfg: Config, p: Parser)
    requires p.state.HeadersAlmostDone? && !p.flags.trailing && p.nread > 0
    ensures Exec(cfg, p, LF) ==
            if Conflict(cfg, p) then Fail(UnexpectedContentLength)
            else Prepend([Call(HeadersComplete)], SwitchHeadersDone(cfg, Answered(cfg, p.(nread := p.nread - 1)), LF))
  {
    hide Exec, WantsUpgrade, SwitchHeadersDone;
    EndSwitch(cfg, p);
    ExecUnfold(cfg, p, LF);
    if !Conflict(cfg, p) {
      DoneExec(cfg, Answered(cfg, p.(nread := p.nread - 1)), LF);
    }
  }

  lemma EndSwitch(cfg: Config, p: Parser)
    requires p.state.HeadersAlmostDone? && !p.flags.trailing && p.nread > 0
    ensures Switch(cfg, p, LF) ==
            if Conflict(cfg, p) then Fail(UnexpectedContentLength)
            else Again(Answered(cfg, p.(nread := p.nread - 1)), [Call(HeadersComplete)])
  {
    hide WantsUpgrade;
    assert WantsUpgrade(p.(nread := p.nread - 1)) == WantsUpgrade(p) by {
      SameWants(p);
    }
  }

  lemma SameWants(p: Parser)
    requires p.nread > 0
    ensures WantsUpgrade(p.(nread := p.nread - 1)) == WantsUpgrade(p)
  {
  }

  lemma DoneExec(cfg: Config, p: Parser, ch: octet)
    requires p.state.HeadersDone?
    ensures Exec(cfg, p, ch) == SwitchHeadersDone(cfg, p, ch)
  {
    hide NewMessage, NeedsEof;
  }

  // One byte that makes calls.

  predicate DoneActs(acts: seq<Action>) { acts == [] || acts == [Call(MessageComplete)] }

  function DoneCalls(acts: seq<Action>): seq<Event> {
    [Notify(HeadersComplete)] + if acts == [] then [] else [Notify(MessageComplete)]
  }

  lemma DonePass(cfg: Config, q: Parser)
    requires q.state.HeadersDone?
    ensures var x := SwitchHeadersDone(cfg, q, LF);
            x.Fail? || ((x.Next? || x.Exit?) && DoneActs(x.acts))
  {
    hide NewMessage, NeedsEof;
  }

  lemma PlayDone(acts: seq<Action>, t: seq<Event>)
    requires DoneActs(acts)
    ensures var played := Play([Call(HeadersComplete)] + acts, map[], [LF], 0);
            played.0 == map[] && PushAll(t, played.1) == t + DoneCalls(acts)
  {
    hide Push;
    PushNote(t, HeadersComplete);
    if acts == [] {
      assert [Call(HeadersComplete)] + acts == [Call(HeadersComplete)];
      PlaySingle(Call(HeadersComplete), map[], [LF], 0);
      PushAllOne(t, Notify(HeadersComplete));
      assert [Notify(HeadersComplete)] + [] == [Notify(HeadersComplete)];
    } else {
      PlayTwo(Call(HeadersComplete), Call(MessageComplete), map[], [LF], 0);
      assert [Call(HeadersComplete)] + acts == [Call(HeadersComplete), Call(MessageComplete)];
      assert [Notify(HeadersComplete)] + [Notify(MessageComplete)]
          == [Notify(HeadersComplete), Notify(MessageComplete)];
      PushAllTwo(t, Notify(HeadersComplete), Notify(MessageComplete));
      PushNote(t + [Notify(HeadersComplete)], MessageComplete);
    }
  }

  /** The last byte of the headers. */
  lemma StepEnd(cfg: Config, p: Parser, t: seq<Event>)
    requires AtEnd(cfg, p)
    ensures var g := Run(cfg, Going(p, t), [LF]);
            var x := SwitchHeadersDone(cfg, Answered(cfg, p), LF);
            if Conflict(cfg, p) || x.Fail? then g == Failed
            else if x.Next? then g == Going(x.p, t + DoneCalls(x.acts))
            else x.Exit? && g == Switched(x.p, t + DoneCalls(x.acts))
  {
    hide Exec, SwitchHeadersDone, WantsUpgrade, Play, PushAll, Leftover;
    CountOne(cfg, p);
    var q := p.(nread := p.nread + 1);
    assert q.(nread := q.nread - 1) == p;
    ExecEnd(cfg, q);
    DonePass(cfg, Answered(cfg, p));
    RunOne(cfg, p, t, LF);
    var x := SwitchHeadersDone(cfg, Answered(cfg, p), LF);
    if !x.Fail? {
      PlayDone(x.acts, t);
      LeftoverNone([LF]);
      PushAllNone(t + DoneCalls(x.acts));
    }
  }

  // What is chosen, by the fields of the parser.

  function Taken(cfg: Config, p: Parser): Framing {
    if Conflict(cfg, p) then Refused
    else if Tunnelled(Answered(cfg, p)) then Tunnel
    else if Skipped(cfg) then Empty
    else if p.flags.chunked then Chunks
    else if p.usesTransferEncoding then if p.kind == Request && !cfg.lenient then Refused else UntilClose
    else if p.contentLength != ULLONG_MAX then LengthFraming(p.contentLength)
    else if p.kind == Request || BodilessStatus(p.statusCode) then Empty else UntilClose
  }

  lemma AnsweredIs(cfg: Config, p: Parser)
    ensures var q := Answered(cfg, p);
            q == p.(state := HeadersDone, nread := p.nread + 1, upgrade := q.upgrade,
                    flags := p.flags.(skipBody := p.flags.skipBody || Skipped(cfg)))
    ensures Answered(cfg, p).upgrade == (WantsUpgrade(p) || cfg.reply == NoBodyUpgrade)
  {
    hide WantsUpgrade;
  }

  /** The parser after the headers, when it goes on. */
  predicate Entered(cfg: Config, p: Parser, q: Parser) {
    && q.upgrade == Answered(cfg, p).upgrade && q.nread == 0 && q.flags.contentLength == p.flags.contentLength
    && SameMessage(p, q, [])
  }

  /** Where each framing takes the parser. */
  ghost predicate Enters(cfg: Config, p: Parser, t: seq<Event>, f: Framing, g: Progress) {
    match f
    case Refused => g == Failed
    case Tunnel => g.Switched? && Entered(cfg, p, g.p) && g.p.state == Kept(p) && g.p.upgrade
                   && g.trace == t + [Notify(HeadersComplete), Notify(MessageComplete)]
    case Empty => g.Going? && Entered(cfg, p, g.p) && g.p.state == Kept(p) && !g.p.upgrade
                  && g.trace == t + [Notify(HeadersComplete), Notify(MessageComplete)]
    case Length(n) => g.Going? && Entered(cfg, p, g.p) && g.trace == t + [Notify(HeadersComplete)]
                      && g.p.state.BodyIdentity? && 0 < n == g.p.contentLength < ULLONG_MAX && !g.p.usesTransferEncoding
    case Chunks => g.Going? && Entered(cfg, p, g.p) && g.trace == t + [Notify(HeadersComplete)] && AtChunk(g.p)
    case UntilClose => g.Going? && Entered(cfg, p, g.p) && g.trace == t + [Notify(HeadersComplete)]
                       && g.p.state.BodyIdentityEof?
  }

  /** Where a message leaves the parser that did not need the end of the connection: version and Connection headers
      decide. */
  function Kept(p: Parser): State {
    if (if p.major > 0 && p.minor > 0 then !p.flags.close else p.flags.keepAlive)
    then (if p.kind == Request then StartReq else StartRes) else Dead
  }

  lemma KeptIs(p: Parser)
    requires !NeedsEof(p)
    ensures NewMessage(p) == Kept(p) && BetweenMessages(Kept(p))
  {
  }

  /** The parser is still that of the same message, with the flags of some trailers. */
  predicate SameMessage(p: Parser, q: Parser, trailers: seq<Header>) {
    && q.kind == p.kind && q.major == p.major && q.minor == p.minor && q.verb == p.verb && q.statusCode == p.statusCode
    && q.flags.close == (p.flags.close || Saying(trailers, Close))
    && q.flags.keepAlive == (p.flags.keepAlive || Saying(trailers, KeepAlive))
  }

  lemma SameKept(p: Parser, q: Parser)
    requires SameMessage(p, q, [])
    ensures Kept(q) == Kept(p)
  {
  }

  /** When http_message_needs_eof says so. */
  lemma NoEof(q: Parser)
    ensures (q.kind != Request && !BodilessStatus(q.statusCode) && !q.flags.skipBody && !q.flags.chunked
             && (q.usesTransferEncoding || q.contentLength == ULLONG_MAX)) ==> NeedsEof(q)
    ensures q.flags.skipBody || q.kind == Request || BodilessStatus(q.statusCode) ==> !NeedsEof(q)
    ensures q.flags.chunked || (!q.usesTransferEncoding && q.contentLength != ULLONG_MAX) ==> !NeedsEof(q)
  {
  }

  lemma TunnelEnds(cfg: Config, p: Parser)
    requires AtEnd(cfg, p) && Tunnelled(Answered(cfg, p))
    ensures !NeedsEof(Answered(cfg, p).(nread := 0))
  {
  }

  lemma NothingSaid()
    ensures forall k: Keyword :: !Saying([], k)
  {
  }

  /** What the last byte of the headers does to the parser. */
  lemma DoneIs(cfg: Config, p: Parser)
    requires AtEnd(cfg, p) && !Conflict(cfg, p)
    ensures var q := Answered(cfg, p).(nread := 0);
            SwitchHeadersDone(cfg, Answered(cfg, p), LF) ==
            match Taken(cfg, p)
            case Refused => Fail(InvalidTransferEncoding)
            case Tunnel => Exit(q.(state := Kept(p)), [Call(MessageComplete)])
            case Empty => Next(q.(state := Kept(p)), [Call(MessageComplete)])
            case Length(n) => Next(q.(state := BodyIdentity), [])
            case Chunks => Next(q.(state := ChunkSizeStart), [])
            case UntilClose => Next(q.(state := BodyIdentityEof), [])
  {
    hide WantsUpgrade, Answered, NewMessage, Kept, NeedsEof, BodilessStatus;
    AnsweredIs(cfg, p);
    var q := Answered(cfg, p).(nread := 0);
    NoEof(q);
    NothingSaid();
    if Tunnelled(Answered(cfg, p)) {
      TunnelEnds(cfg, p);
    }
    if !NeedsEof(q) {
      KeptIs(q);
    }
    SameKept(p, q);
  }

  lemma EnteredIs(cfg: Config, p: Parser, s: State)
    ensures Entered(cfg, p, Answered(cfg, p).(nread := 0, state := s))
  {
    hide Answered;
    AnsweredIs(cfg, p);
    NothingSaid();
  }

  lemma NoUpgrade(cfg: Config, p: Parser)
    requires AtEnd(cfg, p)
    ensures Taken(cfg, p).Tunnel? ==> Answered(cfg, p).upgrade
    ensures Taken(cfg, p).Empty? ==> !Answered(cfg, p).upgrade
  {
    hide WantsUpgrade, Answered, BodilessStatus;
    AnsweredIs(cfg, p);
  }

  lemma KeptState(p: Parser)
    ensures BetweenMessages(Kept(p))
  {
  }

  /** The framing the parser takes, and where it takes it. */
  lemma TakenIs(cfg: Config, p: Parser, t: seq<Event>)
    requires AtEnd(cfg, p)
    ensures Enters(cfg, p, t, Taken(cfg, p), Run(cfg, Going(p, t), [LF]))
    ensures Chosen(Run(cfg, Going(p, t), [LF])) == Taken(cfg, p)
  {
    hide Run, Answered, Kept, SwitchHeadersDone, Entered, Tunnelled, BodilessStatus;
    StepEnd(cfg, p, t);
    KeptState(p);
    NoUpgrade(cfg, p);
    AnsweredIs(cfg, p);
    if !Conflict(cfg, p) {
      DoneIs(cfg, p);
      EnteredIs(cfg, p, Kept(p));
      EnteredIs(cfg, p, BodyIdentity);
      EnteredIs(cfg, p, ChunkSizeStart);
      EnteredIs(cfg, p, BodyIdentityEof);
    }
    assert [Notify(HeadersComplete)] + [] == [Notify(HeadersComplete)];
    assert [Notify(HeadersComplete)] + [Notify(MessageComplete)] == [Notify(HeadersComplete), Notify(MessageComplete)];
  }

  // What is chosen, by the headers.

  /** The parser at the start of the headers of a new message. */
  predicate AtFields(p: Parser) {
    && p.state.HeaderFieldStart? && p.flags == NO_FLAGS && !p.usesTransferEncoding && p.contentLength == ULLONG_MAX
    && (p.kind == Request || (p.kind == Response && p.verb != CONNECT))
  }

  function HeadOf(p: Parser, hs: seq<Header>): Head { Head(p.kind, p.statusCode, p.verb, hs) }

  /** The parser that the headers led to `q`, when the last line end is half read. */
  function AtLineEnd(q: Parser): Parser { q.(state := HeadersAlmostDone, nread := q.nread + 1) }

  lemma LengthBound(v: seq<Symbol>)
    requires LengthText(v)
    ensures LengthValue(v) < ULLONG_MAX
  {
    var d := Chars(v[..Digits(v)]);
    var n := |d| - 1;
    assert DecimalValue(d) == DecimalValue(d[..n]) * 10 + Digit(d[n]);
    hide DecimalValue;
  }

  lemma {:induction false} LengthOfBound(seen: bool, hs: seq<Header>)
    requires LengthsOk(seen, hs)
    ensures LengthOf(hs) < ULLONG_MAX
    decreases hs
  {
    hide LengthText, LengthValue, IsLength;
    if hs != [] {
      LengthOfBound(seen || IsLength(hs[0]), hs[1..]);
      if IsLength(hs[0]) {
        LengthBound(hs[0].value);
      }
    }
  }

  lemma LeftFields(p: Parser, hs: seq<Header>, q: Parser)
    requires AtFields(p) && AllLeave(p, hs, q)
    ensures q.flags == RememberedAll(NO_FLAGS, hs) && q.usesTransferEncoding == Prefixed(hs)
    ensures q.contentLength == if Measured(hs) then LengthOf(hs) else ULLONG_MAX
    ensures q == p.(headerState := q.headerState, index := q.index, nread := p.nread + |HeadersText(hs)|,
                    usesTransferEncoding := q.usesTransferEncoding, contentLength := q.contentLength, flags := q.flags)
  {
    hide HeadersText, RememberedAll, Prefixed, Measured, LengthOf;
  }

  lemma LeftFlags(hs: seq<Header>)
    ensures RememberedAll(NO_FLAGS, hs) ==
            Flags(Saying(hs, Chunked), Saying(hs, KeepAlive), Saying(hs, Close), Saying(hs, Upgrade),
                  false, Upgrading(hs), false, Measured(hs))
  {
    hide Saying, Upgrading, Measured;
  }

  /** The framing that the parser takes by its fields is that of the message. */
  lemma HeadIs(cfg: Config, p: Parser, hs: seq<Header>, q: Parser)
    requires AtFields(p) && LengthsOk(false, hs) && AllLeave(p, hs, q)
    requires cfg.maxHeaderSize + 1 < TWO_TO_32 && q.nread + 2 <= cfg.maxHeaderSize
    ensures var e, m := AtLineEnd(q), HeadOf(p, hs);
            && AtEnd(cfg, e) && Taken(cfg, e) == FramingOf(cfg, m)
            && Answered(cfg, e).upgrade == Switching(cfg, m) && e.flags.contentLength == Measured(hs)
  {
    hide LengthsOk, AllLeave, Saying, Upgrading, Measured, Prefixed, BodilessStatus, RememberedAll, HeadersText;
    LeftFields(p, hs, q);
    LeftFlags(hs);
    LengthOfBound(false, hs);
    AnsweredIs(cfg, AtLineEnd(q));
  }

  lemma HeadersLf(cfg: Config, p: Parser, t: seq<Event>, hs: seq<Header>, q: Parser, u: seq<Event>)
    requires Leads(cfg, p, t, HeadersText(hs) + [CR], AtLineEnd(q), u)
    requires p.nread + |HeadersText(hs)| + 2 <= cfg.maxHeaderSize
    ensures Run(cfg, Going(p, t), HeadersText(hs) + [CR, LF]) == Run(cfg, Going(AtLineEnd(q), u), [LF])
    ensures q.nread + 2 <= cfg.maxHeaderSize
  {
    hide Run;
    LeadsOn(cfg, p, t, HeadersText(hs) + [CR], AtLineEnd(q), u, [LF]);
    LeadsCount(cfg, p, t, HeadersText(hs) + [CR], AtLineEnd(q), u);
    assert HeadersText(hs) + [CR, LF] == (HeadersText(hs) + [CR]) + [LF];
  }

  /** Any headers in the grammar of RFC 7230 and the line end after them, within the limit: the framing chosen is
      `FramingOf`, and one that section 3.3.3 permits exactly when the message does not deviate. */
  lemma FramingIs(cfg: Config, p: Parser, t: seq<Event>, hs: seq<Header>)
    requires Limited(cfg, p) && AtFields(p) && HeadersOk(hs) && NoName(t)
    requires p.nread + |HeadersText(hs)| + 2 <= cfg.maxHeaderSize
    ensures var f, m := Chosen(Run(cfg, Going(p, t), HeadersText(hs) + [CR, LF])), HeadOf(p, hs);
            f == FramingOf(cfg, m) && (!f.Tunnel? ==> (Permitted(cfg, m, f) <==> !Deviates(cfg, m)))
  {
    hide Run, Leads, HeadersOk, LengthsOk, HeadersText, AllLeave, NoName, FramingOf, Permitted, Deviates, Taken, AtEnd;
    if LengthsOk(false, hs) {
      var q := LeadsLines(cfg, p, t, hs);
      HeadersLf(cfg, p, t, hs, q, t + HeadersCalls(hs));
      HeadIs(cfg, p, hs, q);
      TakenIs(cfg, AtLineEnd(q), t + HeadersCalls(hs));
    } else {
      var q := HeadersRead(cfg, p, t, hs);
      assert StartsLine([CR, LF]);
      NotAcceptable(cfg, HeadOf(p, hs));
    }
    if !FramingOf(cfg, HeadOf(p, hs)).Tunnel? {
      PermittedIs(cfg, HeadOf(p, hs));
    }
  }

  lemma NotAcceptable(cfg: Config, m: Head)
    requires !LengthsOk(false, m.headers)
    ensures FramingOf(cfg, m) == Refused
  {
    hide LengthsOk;
  }

  /** http_message_needs_eof, asked after the headers, is right about the body being read until the end of the
      connection, exactly when no transfer coding other than chunked is left to a request or to such a status. */
  lemma NeedsEofIs(cfg: Config, p: Parser, t: seq<Event>, hs: seq<Header>)
    requires Limited(cfg, p) && AtFields(p) && HeadersOk(hs) && NoName(t) && LengthsOk(false, hs)
    requires p.nread + |HeadersText(hs)| + 2 <= cfg.maxHeaderSize
    ensures var g, m := Run(cfg, Going(p, t), HeadersText(hs) + [CR, LF]), HeadOf(p, hs);
            g.Going? ==>
              ((NeedsEof(g.p) <==> Chosen(g) == UntilClose) <==>
               !(!Skipped(cfg) && Prefixed(hs) && !Chunking(hs) && (m.kind == Request || Bodiless(m))))
  {
    hide Run, Leads, HeadersOk, LengthsOk, HeadersText, AllLeave, NoName, Saying, Upgrading, Measured, Prefixed, AtEnd,
      WantsUpgrade, Tunnelled, RememberedAll, SwitchHeadersDone, NewMessage, Answered;
    var q := LeadsLines(cfg, p, t, hs);
    var u := t + HeadersCalls(hs);
    HeadersLf(cfg, p, t, hs, q, u);
    HeadIs(cfg, p, hs, q);
    var e := AtLineEnd(q);
    LeftFields(p, hs, q);
    LeftFlags(hs);
    TakenIs(cfg, e, u);
    StepEnd(cfg, e, u);
    if !Conflict(cfg, e) {
      DoneIs(cfg, e);
    }
    AnsweredIs(cfg, e);
  }

  // Whole messages.

  /** What is sent after the headers; UntilEnd is ended by the end of the connection. */
  datatype Sent =
    | Nothing
    | Plain(bytes: seq<octet>)
    | Pieces(cs: seq<Chunk>, last: seq<octet>, ext: seq<octet>, trailers: seq<Header>)
    | UntilEnd(bytes: seq<octet>)

  /** A body sent in a framing, after headers with or without a length. */
  predicate SentAs(cfg: Config, seen: bool, s: Sent, f: Framing) {
    match s
    case Nothing => f == Empty || f == Tunnel
    case Plain(b) => b != [] && f == Length(|b|)
    case Pieces(cs, last, ext, trailers) => f == Chunks && PiecesOk(cfg, seen, cs, last, ext, trailers)
    case UntilEnd(_) => f == UntilClose
  }

  predicate PiecesOk(cfg: Config, seen: bool, cs: seq<Chunk>, last: seq<octet>, ext: seq<octet>,
                     trailers: seq<Header>)
  {
    ChunksOk(cfg, cs) && LineOk(cfg, last, ext) && HexValue(last) == 0 && TrailersOk(cfg, seen, trailers)
  }

  function Wire(s: Sent): seq<octet> {
    match s
    case Nothing => []
    case Plain(b) => b
    case Pieces(cs, last, ext, trailers) => EncodeBody(cs, last, ext, trailers)
    case UntilEnd(b) => b
  }

  function Content(s: Sent): seq<octet> {
    match s
    case Nothing => []
    case Plain(b) => b
    case Pieces(cs, _, _, _) => Payload(cs)
    case UntilEnd(b) => b
  }

  function TrailersOf(s: Sent): seq<Header> { if s.Pieces? then s.trailers else [] }

  /** The callbacks up to the last byte that is sent. */
  function BodyCalls(s: Sent): seq<Event> {
    match s
    case Nothing => [Notify(MessageComplete)]
    case Plain(b) => [Data(Body, b), Notify(MessageComplete)]
    case Pieces(cs, _, _, trailers) => ChunksCalls(cs) + EndCalls(trailers)
    case UntilEnd(b) => if b == [] then [] else [Data(Body, b)]
  }

  /** The header count that a message leaves: the lines of its trailer. */
  function LeftCount(s: Sent): nat { if s.Pieces? then |HeadersText(s.trailers)| + 2 else 0 }

  lemma {:induction false} UntilEndBytes(cfg: Config, p: Parser, t: seq<Event>, b: seq<octet>)
    requires p.state.BodyIdentityEof? && b != []
    ensures Run(cfg, Going(p, t), b) == Going(p, Push(t, Data(Body, b)))
  {
    hide Exec, StepByte, Push, Run;
    var n := |b| - 1;
    ExecUntilEnd(cfg, p, b[n]);
    assert p.(nread := p.nread) == p;
    if n == 0 {
      assert b == [b[0]];
      RunOne(cfg, p, t, b[0]);
      StepData(cfg, p, t, b[0], p, Body, [Mark(Body)]);
    } else {
      UntilEndBytes(cfg, p, t, b[..n]);
      assert b == b[..n] + [b[n]];
      RunLast(cfg, Going(p, t), b[..n], b[n]);
      StepData(cfg, p, Push(t, Data(Body, b[..n])), b[n], p, Body, [Mark(Body)]);
      PushTwice(t, Body, b[..n], [b[n]]);
    }
  }

  lemma ExecUntilEnd(cfg: Config, p: Parser, ch: octet)
    requires p.state.BodyIdentityEof?
    ensures Exec(cfg, p, ch) == Next(p, [Mark(Body)])
    ensures InitialMarks(p.state) == map[]
  {
  }

  /** Where the last byte of a message leaves the parser: with the message delivered, and ready for what follows. A
      message that asks for another protocol ends the stream, unless its body only ends with the connection. */
  ghost predicate EndsMessage(p: Parser, t: seq<Event>, s: Sent, switching: bool, g: Progress) {
    && (if switching && !s.UntilEnd? then g.Switched? else g.Going?)
    && g.trace == t + [Notify(HeadersComplete)] + BodyCalls(s)
    && SameMessage(p, g.p, TrailersOf(s)) && g.p.nread == LeftCount(s)
    && g.p.state == if s.UntilEnd? then BodyIdentityEof else Kept(g.p)
  }

  lemma PlainDelivered(cfg: Config, p: Parser, t: seq<Event>, g: Progress, b: seq<octet>)
    requires g.Going? && g.p.state.BodyIdentity? && g.p.contentLength == |b| < ULLONG_MAX && b != []
    requires !g.p.usesTransferEncoding && g.p.nread == 0 && SameMessage(p, g.p, [])
    requires g.trace == t + [Notify(HeadersComplete)]
    ensures EndsMessage(p, t, Plain(b), g.p.upgrade, Run(cfg, g, b))
  {
    hide Run, Push, NewMessage, NeedsEof, Kept, Saying;
    var u := t + [Notify(HeadersComplete)];
    IdentityBody(cfg, g.p, g.trace, b);
    PushBody(u, HeadersComplete, b);
    var done := g.p.(contentLength := 0, state := MessageDone);
    NoEof(done);
    KeptIs(done);
    NothingSaid();
    SameKept(done, Run(cfg, g, b).p);
    assert u + [Data(Body, b)] + [Notify(MessageComplete)] == u + [Data(Body, b), Notify(MessageComplete)];
  }

  lemma TrailerFlags(p: Parser, trailers: seq<Header>, q: Parser)
    requires AllLeave(AfterLine(p, 0), trailers, q) && p.nread == 0
    ensures SameMessage(p, q, trailers) && q.nread == |HeadersText(trailers)| && q.upgrade == p.upgrade
    ensures q.flags.chunked == (p.flags.chunked || Saying(trailers, Chunked))
  {
    hide Saying, Upgrading, Measured, HeadersText;
  }

  lemma EndKept(p: Parser, q: Parser, trailers: seq<Header>)
    requires SameMessage(p, q, trailers) && q.flags.chunked
    ensures SameMessage(p, EndOf(q), trailers) && EndOf(q).state == Kept(EndOf(q)) && EndOf(q).nread == q.nread + 2
    ensures EndOf(q).upgrade == q.upgrade
  {
    hide NewMessage, NeedsEof, Kept, Saying;
    var done := q.(state := MessageDone);
    NoEof(done);
    KeptIs(done);
    NothingSaid();
    SameKept(done, EndOf(q));
  }

  lemma PiecesDelivered(cfg: Config, p: Parser, t: seq<Event>, g: Progress, s: Sent)
    requires cfg.maxHeaderSize + 1 < TWO_TO_32 && s.Pieces? && g.Going?
    requires PiecesOk(cfg, g.p.flags.contentLength, s.cs, s.last, s.ext, s.trailers)
    requires AtChunk(g.p) && SameMessage(p, g.p, [])
    requires g.trace == t + [Notify(HeadersComplete)]
    ensures EndsMessage(p, t, s, g.p.upgrade, Run(cfg, g, Wire(s)))
  {
    hide Run, Push, ChunksCalls, EncodeBody, HexValue, ChunksOk, LineOk, EndCalls, TrailersOk, Saying, HeadersText,
      EndOf, AllLeave, AfterLine, Kept;
    var u := t + [Notify(HeadersComplete)];
    var q := ChunkedRoundTrip(cfg, g.p, g.trace, s.cs, s.last, s.ext, s.trailers);
    TrailerFlags(g.p, s.trailers, q);
    NothingSaid();
    EndKept(p, q, s.trailers);
    Assoc(u, ChunksCalls(s.cs), EndCalls(s.trailers));
  }

  /** From the last byte of the headers to the end of the message: headers_complete, the body in the framing taken, and
      exactly one message_complete, which a body until the end of the connection leaves to it. */
  lemma MessageDelivered(cfg: Config, p: Parser, t: seq<Event>, s: Sent)
    requires AtEnd(cfg, p) && (Taken(cfg, p).Refused? || SentAs(cfg, p.flags.contentLength, s, Taken(cfg, p)))
    ensures var g := Run(cfg, Going(p, t), [LF] + Wire(s));
            if Taken(cfg, p).Refused? then g == Failed else EndsMessage(p, t, s, Answered(cfg, p).upgrade, g)
  {
    hide Run, Answered, Wire, Kept, PiecesOk, Push, Taken, AtEnd, Saying;
    TakenIs(cfg, p, t);
    RunConcat(cfg, Going(p, t), [LF], Wire(s));
    var g := Run(cfg, Going(p, t), [LF]);
    var u := t + [Notify(HeadersComplete)];
    if Taken(cfg, p).Refused? {
      RunStopped(cfg, Failed, Wire(s));
    } else {
      NothingSaid();
      SameKept(p, g.p);
      match s
      case Nothing =>
        WireOf(s);
        RunNothing(cfg, g);
        assert t + [Notify(HeadersComplete), Notify(MessageComplete)] == u + [Notify(MessageComplete)];
      case Plain(b) =>
        WireOf(s);
        PlainDelivered(cfg, p, t, g, b);
      case Pieces(_, _, _, _) =>
        EndLimit(cfg, p);
        PiecesDelivered(cfg, p, t, g, s);
      case UntilEnd(b) =>
        WireOf(s);
        if b == [] {
          RunNothing(cfg, g);
          assert u + [] == u;
        } else {
          UntilEndBytes(cfg, g.p, g.trace, b);
          PushBody(u, HeadersComplete, b);
        }
    }
  }

  lemma EndLimit(cfg: Config, p: Parser)
    requires AtEnd(cfg, p)
    ensures cfg.maxHeaderSize + 1 < TWO_TO_32
  {
  }

  lemma WireOf(s: Sent)
    ensures !s.Pieces? ==> Wire(s) == Content(s)
  {
  }

  lemma RunNothing(cfg: Config, g: Progress)
    ensures Run(cfg, g, []) == g
  {
  }

  lemma NoBody(hs: seq<Header>)
    ensures BodyBytesOf(HeadersCalls(hs)) == []
  {
    if hs != [] {
      var calls := HeaderCalls(hs[0]);
      NoBody(hs[1..]);
      BodyBytesConcat(calls, HeadersCalls(hs[1..]));
      assert calls[1..] == [Data(Value, Chars(hs[0].value))] && calls[1..][1..] == [];
      assert BodyBytesOf(calls[1..]) == [] by {
        assert BodyBytesOf(calls[1..][1..]) == [];
      }
    }
  }

  lemma EndNoBody(trailers: seq<Header>)
    ensures BodyBytesOf(EndCalls(trailers)) == []
  {
    var a, b, c := [Notify(ChunkHeader(0))], HeadersCalls(trailers), [Notify(ChunkComplete), Notify(MessageComplete)];
    NoBody(trailers);
    BodyBytesConcat(a, b);
    BodyBytesConcat(a + b, c);
    assert a[1..] == [] && c[1..] == [Notify(MessageComplete)] && c[1..][1..] == [];
    assert BodyBytesOf(a[1..]) == [];
    assert BodyBytesOf(c[1..]) == [] by {
      assert BodyBytesOf(c[1..][1..]) == [];
    }
  }

  /** What the body callbacks of a message deliver is what was sent. */
  lemma ContentDelivered(s: Sent)
    ensures BodyBytesOf(BodyCalls(s)) == Content(s)
  {
    hide ChunksCalls, EndCalls, Payload;
    match s
    case Nothing =>
    case Plain(b) =>
      assert BodyCalls(s)[1..] == [Notify(MessageComplete)] && [Notify(MessageComplete)][1..] == [];
      assert BodyBytesOf([Notify(MessageComplete)][1..]) == [] && BodyBytesOf([Notify(MessageComplete)]) == [];
    case Pieces(cs, _, _, trailers) =>
      DeliversPayload(cs);
      EndNoBody(trailers);
      BodyBytesConcat(ChunksCalls(cs), EndCalls(trailers));
    case UntilEnd(b) =>
      if b != [] {
        assert [Data(Body, b)][1..] == [];
      }
  }
}
