/** Whole responses, from status line to body. */
module HttpResponses {
  import opened Wrappers
  import opened HttpTypes
  import opened HttpNumerals
  import opened HttpSwitch
  import opened HttpTrace
  import opened HttpRun
  import opened HttpSync
  import opened HttpBulk
  import opened HttpSteps
  import opened HttpLeads
  import opened HttpLines
  import opened HttpHeaders
  import opened HttpFraming
  import opened HttpMessages

  datatype ResponseParts = ResponseParts(
    major: octet, minor: octet, code: seq<octet>, reason: seq<octet>, message: Message)

  function WordText(major: octet, minor: octet): (t: seq<octet>)
    ensures |t| == 9
  {
    ['H', 'T', 'T', 'P', '/', major, '.', minor, ' ']
  }

  function StatusLineText(r: ResponseParts): seq<octet> {
    WordText(r.major, r.minor) + (r.code + [' ']) + (r.reason + [CR, LF])
  }

  function HeadText(r: ResponseParts): seq<octet> { StatusLineText(r) + FieldsText(r.message) + [LF] }

  function ResponseText(r: ResponseParts): seq<octet> { HeadText(r) + Wire(r.message.body) }

  function ResponseCalls(r: ResponseParts): seq<Event> {
    [Notify(MessageBegin), Data(Status, r.reason)] + HeadersCalls(r.message.headers)
    + [Notify(HeadersComplete)] + BodyCalls(r.message.body)
  }

  predicate CodeOk(code: seq<octet>) { Decimal(code) && code != [] && DecimalValue(code) <= 999 }

  function ResponseHead(r: ResponseParts): Head
    requires Decimal(r.code)
  {
    Head(Response, DecimalValue(r.code), GET, r.message.headers)
  }

  /** A response in the grammar of RFC 7230, with a body in the framing that the code takes for it. */
  predicate ResponseOk(cfg: Config, r: ResponseParts) {
    && IsNum(r.major) && IsNum(r.minor) && CodeOk(r.code) && NoLine(r.reason)
    && HeadersOk(r.message.headers) && BodySent(cfg, ResponseHead(r), r.message.body)
  }

  // The status line.

  function WordState(k: nat): State {
    if k == 1 then ResH else if k == 2 then ResHT else if k == 3 then ResHTT else if k == 4 then ResHTTP
    else if k == 5 then ResHttpMajor else if k == 6 then ResHttpDot else if k == 7 then ResHttpMinor
    else if k == 8 then ResHttpEnd else ResFirstStatusCode
  }

  /** The parser after `k` bytes of "HTTP/d.d ". */
  function InWord(p: Parser, major: octet, minor: octet, k: nat): Parser
    requires IsNum(major) && IsNum(minor)
  {
    if k == 0 then p
    else Fresh(p).(state := WordState(k), nread := p.nread + k,
                   major := if k >= 6 then Digit(major) else p.major, minor := if k >= 8 then Digit(minor) else p.minor)
  }

  function WordTrace(t: seq<Event>, k: nat): seq<Event> { if k == 0 then t else t + [Notify(MessageBegin)] }

  lemma ExecStatusWord(cfg: Config, p: Parser, ch: octet)
    requires PartOf(p.state).PStatusLine? && !p.state.ResStatusCode? && !p.state.ResStatusStart?
    ensures Exec(cfg, p, ch) == SwitchStatusLine(p, ch)
  {
    hide IsNum, Digit;
  }

  lemma ExecStartRes(cfg: Config, p: Parser)
    requires p.state.StartRes?
    ensures Exec(cfg, p, 'H') == Next(Fresh(p).(state := ResH), [Call(MessageBegin)])
  {
  }

  lemma WordPart(k: nat)
    requires 1 <= k < 9
    ensures var s := WordState(k);
            PartOf(s).PStatusLine? && !s.ResStatusCode? && !s.ResStatusStart? && s.ParsingHeader() && Live(s) == None
  {
  }

  lemma WordByte(p: Parser, major: octet, minor: octet, k: nat)
    requires 1 <= k < 9 && IsNum(major) && IsNum(minor)
    ensures var q := InWord(p, major, minor, k);
            SwitchStatusLine(q.(nread := q.nread + 1), WordText(major, minor)[k]) ==
            Next(InWord(p, major, minor, k + 1), [])
  {
  }

  lemma WordStep(cfg: Config, p: Parser, t: seq<Event>, major: octet, minor: octet, k: nat)
    requires cfg.maxHeaderSize + 1 < TWO_TO_32 && p.nread + k + 1 <= cfg.maxHeaderSize
    requires p.state.StartRes? && k < 9 && IsNum(major) && IsNum(minor)
    ensures StepByte(cfg, InWord(p, major, minor, k), WordTrace(t, k), WordText(major, minor)[k]) ==
            Going(InWord(p, major, minor, k + 1), WordTrace(t, k + 1))
  {
    hide Exec, StepByte, WordState, IsNum, Digit, Counted, PartOf;
    var q := InWord(p, major, minor, k);
    var ch := WordText(major, minor)[k];
    if k == 0 {
      CountOne(cfg, p);
      ExecStartRes(cfg, p.(nread := p.nread + 1));
      FirstWord(p, major, minor);
      StepCall(cfg, p, t, 'H', InWord(p, major, minor, 1), MessageBegin);
    } else {
      WordPart(k);
      CountOne(cfg, q);
      ExecStatusWord(cfg, q.(nread := q.nread + 1), ch);
      WordByte(p, major, minor, k);
      StepQuiet(cfg, q, WordTrace(t, k), ch, InWord(p, major, minor, k + 1));
    }
  }

  lemma FirstWord(p: Parser, major: octet, minor: octet)
    requires IsNum(major) && IsNum(minor)
    ensures InWord(p, major, minor, 1) == Fresh(p.(nread := p.nread + 1)).(state := ResH)
  {
  }

  lemma {:induction false} LeadsWord(cfg: Config, p: Parser, t: seq<Event>, major: octet, minor: octet, k: nat)
    requires Limited(cfg, p) && p.state.StartRes? && IsNum(major) && IsNum(minor) && k <= 9
    ensures Leads(cfg, p, t, WordText(major, minor)[..k], InWord(p, major, minor, k), WordTrace(t, k))
  {
    hide Leads, StepByte, WordText, WordState, IsNum, Digit, Run, WordTrace;
    var text := WordText(major, minor);
    if k == 0 {
      assert text[..0] == [];
      NoWord(t);
      LeadsNothing(cfg, p, t);
    } else {
      LeadsWord(cfg, p, t, major, minor, k - 1);
      var q, r := InWord(p, major, minor, k - 1), InWord(p, major, minor, k);
      if k > 1 {
        WordPart(k - 1);
      }
      assert text[..k] == text[..k - 1] + [text[k - 1]];
      if r.nread <= cfg.maxHeaderSize {
        WordStep(cfg, p, t, major, minor, k - 1);
      }
      if q.nread <= cfg.maxHeaderSize {
        LeadsStep(cfg, q, WordTrace(t, k - 1), text[k - 1], r, WordTrace(t, k));
      }
      LeadsConcat(cfg, p, t, text[..k - 1], [text[k - 1]], q, WordTrace(t, k - 1), r, WordTrace(t, k));
    }
  }

  lemma NoWord(t: seq<Event>)
    ensures WordTrace(t, 0) == t
  {
  }

  // The status code.

  function AfterCode(p: Parser, d: seq<octet>): Parser
    requires Decimal(d)
  {
    p.(state := ResStatusCode, statusCode := DecimalValue(d), nread := p.nread + |d|)
  }

  lemma ExecFirstDigit(cfg: Config, p: Parser, ch: octet)
    requires p.state.ResFirstStatusCode? && IsNum(ch)
    ensures Exec(cfg, p, ch) == Next(p.(state := ResStatusCode, statusCode := Digit(ch)), [])
  {
  }

  lemma ExecDigit(cfg: Config, p: Parser, ch: octet)
    requires p.state.ResStatusCode? && IsNum(ch)
    ensures Exec(cfg, p, ch) ==
            var code := p.statusCode * 10 + Digit(ch);
            if code > 999 then Fail(InvalidStatus) else Next(p.(statusCode := code), [])
  {
  }

  lemma ExecCodeEnd(cfg: Config, p: Parser)
    requires p.state.ResStatusCode?
    ensures Exec(cfg, p, ' ') == Next(p.(state := ResStatusStart), [])
  {
  }

  /** A status code of any length: accepted exactly when its value is at most 999, and then status_code is that. */
  lemma {:induction false} ReadsCode(cfg: Config, p: Parser, t: seq<Event>, d: seq<octet>)
    requires cfg.maxHeaderSize + 1 < TWO_TO_32 && p.nread + |d| <= cfg.maxHeaderSize
    requires p.state.ResFirstStatusCode? && Decimal(d) && d != []
    ensures Run(cfg, Going(p, t), d) == if DecimalValue(d) <= 999 then Going(AfterCode(p, d), t) else Failed
  {
    hide Exec, StepByte, Run, DecimalValue, Counted;
    var n := |d| - 1;
    var ch := d[n];
    if n == 0 {
      assert d == [ch];
      OneDigit(ch);
      CountOne(cfg, p);
      ExecFirstDigit(cfg, p.(nread := p.nread + 1), ch);
      StepQuiet(cfg, p, t, ch, AfterCode(p, d));
      RunOne(cfg, p, t, ch);
    } else {
      ReadsCode(cfg, p, t, d[..n]);
      assert d == d[..n] + [ch];
      RunLast(cfg, Going(p, t), d[..n], ch);
      DecimalMonotonic(d, n);
      DecimalSnoc(d[..n], ch);
      if DecimalValue(d[..n]) <= 999 {
        CodeByte(cfg, p, t, d[..n], ch);
      }
    }
  }

  lemma OneDigit(ch: octet)
    requires IsNum(ch)
    ensures DecimalValue([ch]) == Digit(ch) <= 9
  {
    assert [ch][..0] == [];
  }

  lemma CodeByte(cfg: Config, p: Parser, t: seq<Event>, d: seq<octet>, ch: octet)
    requires cfg.maxHeaderSize + 1 < TWO_TO_32 && p.nread + |d| + 1 <= cfg.maxHeaderSize
    requires Decimal(d) && IsNum(ch)
    ensures StepByte(cfg, AfterCode(p, d), t, ch) ==
            if DecimalValue(d + [ch]) <= 999 then Going(AfterCode(p, d + [ch]), t) else Failed
  {
    hide Exec, StepByte, DecimalValue, Counted;
    var q := AfterCode(p, d);
    DecimalSnoc(d, ch);
    CountOne(cfg, q);
    ExecDigit(cfg, q.(nread := q.nread + 1), ch);
    if DecimalValue(d + [ch]) <= 999 {
      StepQuiet(cfg, q, t, ch, AfterCode(p, d + [ch]));
    } else {
      StepFail(cfg, q, t, ch);
    }
  }

  lemma {:induction false} LeadsCode(cfg: Config, p: Parser, t: seq<Event>, d: seq<octet>)
    requires Limited(cfg, p) && p.state.ResFirstStatusCode? && CodeOk(d)
    ensures Leads(cfg, p, t, d, AfterCode(p, d), t)
  {
    hide Leads, Run, DecimalValue;
    var n := |d| - 1;
    var r := AfterCode(p, d);
    if r.nread <= cfg.maxHeaderSize {
      ReadsCode(cfg, p, t, d);
    }
    if n == 0 {
      assert d == [d[0]] && [] + [d[0]] == d;
      LeadsNothing(cfg, p, t);
      LeadsMore(cfg, p, t, [], d[0], p, t, r, t);
    } else {
      DecimalMonotonic(d, n);
      LeadsCode(cfg, p, t, d[..n]);
      assert d == d[..n] + [d[n]];
      LeadsMore(cfg, p, t, d[..n], d[n], AfterCode(p, d[..n]), t, r, t);
    }
  }

  lemma LeadsCodeSpace(cfg: Config, p: Parser, t: seq<Event>, d: seq<octet>)
    requires Limited(cfg, p) && p.state.ResFirstStatusCode? && CodeOk(d)
    ensures var q := AfterCode(p, d);
            Leads(cfg, p, t, d + [' '], q.(state := ResStatusStart, nread := q.nread + 1), t)
  {
    hide Leads, Run, DecimalValue, Exec, StepByte, Counted;
    var q := AfterCode(p, d);
    var r := q.(state := ResStatusStart, nread := q.nread + 1);
    LeadsCode(cfg, p, t, d);
    if r.nread <= cfg.maxHeaderSize {
      CountOne(cfg, q);
      ExecCodeEnd(cfg, q.(nread := q.nread + 1));
      StepQuiet(cfg, q, t, ' ', r);
    }
    if q.nread <= cfg.maxHeaderSize {
      LeadsStep(cfg, q, t, ' ', r, t);
    }
    LeadsConcat(cfg, p, t, d, [' '], q, t, r, t);
  }

  // The reason.

  lemma ExecReasonStart(cfg: Config, p: Parser, ch: octet)
    requires p.state.ResStatusStart?
    ensures ch != CR && ch != LF ==> Exec(cfg, p, ch) == Next(p.(state := ResStatus, index := 0), [Mark(Status)])
    ensures Exec(cfg, p, CR) == Next(p.(state := ResLineAlmostDone, index := 0), [Mark(Status), Flush(Status)])
  {
    var q := p.(state := ResStatus, index := 0);
    assert Switch(cfg, p, CR) == Again(q, [Mark(Status)]);
    ExecAgain(cfg, p, CR, q, [Mark(Status)]);
    ExecReason(cfg, q, CR);
    assert [Mark(Status)] + [Flush(Status)] == [Mark(Status), Flush(Status)];
  }

  lemma ExecReason(cfg: Config, p: Parser, ch: octet)
    requires p.state.ResStatus?
    ensures ch != CR && ch != LF ==> Exec(cfg, p, ch) == Next(p, [])
    ensures Exec(cfg, p, CR) == Next(p.(state := ResLineAlmostDone), [Flush(Status)])
  {
  }

  lemma ExecStatusEnd(cfg: Config, p: Parser)
    requires p.state.ResLineAlmostDone?
    ensures Exec(cfg, p, LF) == Next(p.(state := HeaderFieldStart), [])
  {
  }

  function InReason(p: Parser, n: nat): Parser { p.(state := ResStatus, index := 0, nread := p.nread + n) }

  lemma ReasonByte(cfg: Config, p: Parser, t: seq<Event>, w: seq<octet>, ch: octet)
    requires cfg.maxHeaderSize + 1 < TWO_TO_32 && p.nread + |w| + 1 <= cfg.maxHeaderSize
    requires p.state.ResStatusStart? && ch != CR && ch != LF
    ensures var u := if w == [] then t else Push(t, Data(Status, w));
            StepByte(cfg, if w == [] then p else InReason(p, |w|), u, ch) ==
            Going(InReason(p, |w| + 1), Push(t, Data(Status, w + [ch])))
  {
    hide Exec, StepByte, Counted, Push;
    if w == [] {
      assert w + [ch] == [ch];
      CountOne(cfg, p);
      ExecReasonStart(cfg, p.(nread := p.nread + 1), ch);
      StepData(cfg, p, t, ch, InReason(p, 1), Status, [Mark(Status)]);
    } else {
      var q := InReason(p, |w|);
      CountOne(cfg, q);
      ExecReason(cfg, q.(nread := q.nread + 1), ch);
      StepData(cfg, q, Push(t, Data(Status, w)), ch, InReason(p, |w| + 1), Status, []);
      PushTwice(t, Status, w, [ch]);
    }
  }

  lemma {:induction false} LeadsReason(cfg: Config, p: Parser, t: seq<Event>, w: seq<octet>)
    requires Limited(cfg, p) && p.state.ResStatusStart? && NoLine(w)
    ensures Leads(cfg, p, t, w, if w == [] then p else InReason(p, |w|),
                  if w == [] then t else Push(t, Data(Status, w)))
  {
    hide Leads, StepByte, Push, Run;
    if w == [] {
      LeadsNothing(cfg, p, t);
    } else {
      var n := |w| - 1;
      var x := w[..n];
      LeadsReason(cfg, p, t, x);
      assert w == x + [w[n]];
      var q, u := if x == [] then p else InReason(p, n), if x == [] then t else Push(t, Data(Status, x));
      var r, v := InReason(p, |w|), Push(t, Data(Status, w));
      if r.nread <= cfg.maxHeaderSize {
        ReasonByte(cfg, p, t, x, w[n]);
      }
      if q.nread <= cfg.maxHeaderSize {
        LeadsStep(cfg, q, u, w[n], r, v);
      }
      LeadsConcat(cfg, p, t, x, [w[n]], q, u, r, v);
    }
  }

  /** The CR after a reason, which may be empty. */
  lemma ReasonCr(cfg: Config, p: Parser, t: seq<Event>, w: seq<octet>)
    requires cfg.maxHeaderSize + 1 < TWO_TO_32 && p.nread + |w| + 1 <= cfg.maxHeaderSize && p.state.ResStatusStart?
    ensures var u := if w == [] then t else Push(t, Data(Status, w));
            StepByte(cfg, if w == [] then p else InReason(p, |w|), u, CR) ==
            Going(p.(state := ResLineAlmostDone, index := 0, nread := p.nread + |w| + 1), Push(t, Data(Status, w)))
  {
    hide Exec, StepByte, Counted, Push;
    var r := p.(state := ResLineAlmostDone, index := 0, nread := p.nread + |w| + 1);
    if w == [] {
      CountOne(cfg, p);
      ExecReasonStart(cfg, p.(nread := p.nread + 1), CR);
      StepEmpty(cfg, p, t, CR, r, Status);
    } else {
      var q := InReason(p, |w|);
      CountOne(cfg, q);
      ExecReason(cfg, q.(nread := q.nread + 1), CR);
      StepFlush(cfg, q, Push(t, Data(Status, w)), CR, r, Status);
      PushTwice(t, Status, w, []);
      assert w + [] == w;
    }
  }

  /** A mark that is flushed at once. */
  lemma StepEmpty(cfg: Config, p: Parser, t: seq<Event>, ch: octet, q: Parser, k: Kind)
    requires Counted(cfg, p).Some?
    requires Exec(cfg, p.(nread := Counted(cfg, p).value), ch) == Next(q, [Mark(k), Flush(k)])
    requires InitialMarks(p.state) == map[]
    ensures StepByte(cfg, p, t, ch) == Going(q, Push(t, Data(k, [])))
  {
    hide Exec, Leftover, InitialMarks, PushAll;
    PlayTwo(Mark(k), Flush(k), map[], [ch], 0);
    var one := PlayOne(Mark(k), map[], [ch], 0);
    assert one == (map[k := 0], []);
    assert map[k := 0] - {k} == map[] && [ch][0..0] == [];
    var two := PlayOne(Flush(k), one.0, [ch], 0);
    assert two == (map[], [Data(k, [])]);
    assert one.1 + two.1 == [Data(k, [])];
    assert Play([Mark(k), Flush(k)], map[], [ch], 0) == (map[], [Data(k, [])]);
    LeftoverNone([ch]);
    PushAllOne(t, Data(k, []));
    PushAllNone(Push(t, Data(k, [])));
  }

  lemma LeadsReasonEnd(cfg: Config, p: Parser, t: seq<Event>, w: seq<octet>)
    requires Limited(cfg, p) && p.state.ResStatusStart? && NoLine(w)
    ensures Leads(cfg, p, t, w + [CR, LF], p.(state := HeaderFieldStart, index := 0, nread := p.nread + |w| + 2),
                  Push(t, Data(Status, w)))
  {
    hide Leads, Exec, StepByte, Push, Run, Counted;
    var q, u := if w == [] then p else InReason(p, |w|), if w == [] then t else Push(t, Data(Status, w));
    var v := Push(t, Data(Status, w));
    var r := p.(state := ResLineAlmostDone, index := 0, nread := p.nread + |w| + 1);
    var s := p.(state := HeaderFieldStart, index := 0, nread := p.nread + |w| + 2);
    LeadsReason(cfg, p, t, w);
    if r.nread <= cfg.maxHeaderSize {
      ReasonCr(cfg, p, t, w);
    }
    if q.nread <= cfg.maxHeaderSize {
      LeadsStep(cfg, q, u, CR, r, v);
    }
    LeadsConcat(cfg, p, t, w, [CR], q, u, r, v);
    if s.nread <= cfg.maxHeaderSize {
      CountOne(cfg, r);
      ExecStatusEnd(cfg, r.(nread := r.nread + 1));
      StepQuiet(cfg, r, v, LF, s);
    }
    if r.nread <= cfg.maxHeaderSize {
      LeadsStep(cfg, r, v, LF, s, v);
    }
    LeadsConcat(cfg, p, t, w + [CR], [LF], r, v, s, v);
    assert w + [CR, LF] == (w + [CR]) + [LF];
  }

  /** The parser after a status line. */
  function AfterLine(p: Parser, r: ResponseParts): Parser
    requires IsNum(r.major) && IsNum(r.minor) && Decimal(r.code)
  {
    Fresh(p).(state := HeaderFieldStart, index := 0, nread := p.nread + |StatusLineText(r)|,
              major := Digit(r.major), minor := Digit(r.minor), statusCode := DecimalValue(r.code))
  }

  lemma PushReason(t: seq<Event>, reason: seq<octet>)
    ensures Push(t + [Notify(MessageBegin)], Data(Status, reason)) == t + [Notify(MessageBegin), Data(Status, reason)]
    ensures NoName(t + [Notify(MessageBegin), Data(Status, reason)])
  {
    assert t + [Notify(MessageBegin)] + [Data(Status, reason)] == t + [Notify(MessageBegin), Data(Status, reason)];
  }

  /** Version, status code and reason. */
  lemma LeadsLine(cfg: Config, p: Parser, t: seq<Event>, r: ResponseParts)
    requires Limited(cfg, p) && p.state.StartRes?
    requires IsNum(r.major) && IsNum(r.minor) && CodeOk(r.code) && NoLine(r.reason)
    ensures Leads(cfg, p, t, StatusLineText(r), AfterLine(p, r), t + [Notify(MessageBegin), Data(Status, r.reason)])
  {
    hide Leads, Push, WordText, IsNum, Digit, DecimalValue, NoLine;
    var word, u := WordText(r.major, r.minor), t + [Notify(MessageBegin)];
    var v := t + [Notify(MessageBegin), Data(Status, r.reason)];
    var a := InWord(p, r.major, r.minor, 9);
    var b := AfterCode(a, r.code).(state := ResStatusStart, nread := a.nread + |r.code| + 1);
    var c := b.(state := HeaderFieldStart, index := 0, nread := b.nread + |r.reason| + 2);
    LeadsWord(cfg, p, t, r.major, r.minor, 9);
    assert word[..9] == word;
    if a.nread <= cfg.maxHeaderSize {
      LeadsCodeSpace(cfg, a, u, r.code);
    }
    LeadsConcat(cfg, p, t, word, r.code + [' '], a, u, b, u);
    PushReason(t, r.reason);
    if b.nread <= cfg.maxHeaderSize {
      LeadsReasonEnd(cfg, b, u, r.reason);
    }
    LeadsConcat(cfg, p, t, word + (r.code + [' ']), r.reason + [CR, LF], b, u, c, v);
    assert c == AfterLine(p, r);
  }

  // Responses.

  /** The method that a response parser has left from before matters only if it is CONNECT. */
  lemma VerbApart(cfg: Config, m: Head, verb: Method)
    requires m.kind == Response && m.verb != CONNECT && verb != CONNECT
    ensures var n := m.(verb := verb);
            FramingOf(cfg, n) == FramingOf(cfg, m) && Switching(cfg, n) == Switching(cfg, m)
  {
    hide Saying, Prefixed, Measured, Upgrading, LengthOf, BodilessStatus;
  }

  lemma LineFields(cfg: Config, p: Parser, r: ResponseParts)
    requires p.kind == Response && p.verb != CONNECT && ResponseOk(cfg, r)
    ensures var q, m := AfterLine(p, r), HeadOf(AfterLine(p, r), r.message.headers);
            && AtFields(q) && HeadersOk(r.message.headers) && BodySent(cfg, m, r.message.body)
            && Proceeds(cfg, m) == Proceeds(cfg, ResponseHead(r))
            && Switching(cfg, m) == Switching(cfg, ResponseHead(r))
  {
    hide HeadersOk, IsNum, StatusLineText, DecimalValue, NoLine, Decimal, FramingOf, Switching, SentAs, Measured,
      LengthsOk;
    VerbApart(cfg, ResponseHead(r), p.verb);
  }

  lemma HeadSplit(r: ResponseParts)
    ensures ResponseText(r) == StatusLineText(r) + (FieldsText(r.message) + ([LF] + Wire(r.message.body)))
  {
    hide StatusLineText, FieldsText, Wire;
  }

  predicate KeepsOpen(r: ResponseParts) { KeepsAlive(Digit(r.major), Digit(r.minor), r.message) }

  /** A response as delivered, and what it leaves; one that switches protocols ends the stream. */
  ghost predicate Delivered(cfg: Config, t: seq<Event>, r: ResponseParts, g: Progress)
    requires Decimal(r.code)
  {
    && (if Switching(cfg, ResponseHead(r)) && !r.message.body.UntilEnd? then g.Switched? else g.Going?)
    && g.trace == t + ResponseCalls(r)
    && g.p.kind == Response && g.p.statusCode == DecimalValue(r.code)
    && g.p.major == Digit(r.major) && g.p.minor == Digit(r.minor) && g.p.nread == LeftCount(r.message.body)
    && g.p.state == if r.message.body.UntilEnd? then BodyIdentityEof else if KeepsOpen(r) then StartRes else Dead
  }

  lemma FinishedDelivered(cfg: Config, p: Parser, t: seq<Event>, r: ResponseParts, g: Progress)
    requires p.kind == Response && p.verb != CONNECT && ResponseOk(cfg, r)
    requires Finished(cfg, AfterLine(p, r), t + [Notify(MessageBegin), Data(Status, r.reason)], r.message, g)
    ensures Delivered(cfg, t, r, g)
  {
    hide HeadersCalls, BodyCalls, KeepsAlive, StatusLineText, DecimalValue, NoLine, LeftCount, Switching, BodySent,
      HeadersOk, AtFields, Proceeds;
    LineFields(cfg, p, r);
    assert t + [Notify(MessageBegin), Data(Status, r.reason)] + HeadersCalls(r.message.headers)
           + [Notify(HeadersComplete)] + BodyCalls(r.message.body) == t + ResponseCalls(r);
  }

  /** A response with any version, status up to 999, reason and headers, and a body in the framing that the code takes
      for them: it is delivered as exactly its parts, each once and in order, if the code goes on to the body and the
      head is within what is left of max_header_size, and refused if not. */
  lemma ResponseDelivered(cfg: Config, p: Parser, t: seq<Event>, r: ResponseParts)
    requires Limited(cfg, p) && p.kind == Response && p.state.StartRes? && p.verb != CONNECT && ResponseOk(cfg, r)
    ensures var g := Run(cfg, Going(p, t), ResponseText(r));
            if Proceeds(cfg, ResponseHead(r)) && p.nread + |HeadText(r)| <= cfg.maxHeaderSize
            then Delivered(cfg, t, r, g) else g == Failed
  {
    hide Run, Leads, FieldsText, StatusLineText, Wire, AfterLine, AtFields, Delivered, NoName, ResponseText, IsNum,
      DecimalValue, NoLine, HeadersOk, BodySent, Proceeds, Finished, Switching;
    var q, u := AfterLine(p, r), t + [Notify(MessageBegin), Data(Status, r.reason)];
    var rest := FieldsText(r.message) + ([LF] + Wire(r.message.body));
    HeadSplit(r);
    LineFields(cfg, p, r);
    PushReason(t, r.reason);
    LeadsLine(cfg, p, t, r);
    LeadsOn(cfg, p, t, StatusLineText(r), q, u, rest);
    LineNread(p, r);
    if q.nread <= cfg.maxHeaderSize {
      MessageRun(cfg, q, u, r.message);
      if Proceeds(cfg, ResponseHead(r)) && p.nread + |HeadText(r)| <= cfg.maxHeaderSize {
        FinishedDelivered(cfg, p, t, r, Run(cfg, Going(p, t), ResponseText(r)));
      }
    }
  }

  lemma LineNread(p: Parser, r: ResponseParts)
    requires IsNum(r.major) && IsNum(r.minor) && Decimal(r.code)
    ensures AfterLine(p, r).nread == p.nread + |StatusLineText(r)|
  {
  }
}
