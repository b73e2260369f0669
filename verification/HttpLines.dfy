/** Reading one header line, byte by byte: what it delivers, whatever its value does to the parser. */
module HttpLines {
  import opened Wrappers
  import opened HttpTypes
  import opened HttpSwitch
  import opened HttpTrace
  import opened HttpRun
  import opened HttpSync
  import opened HttpBulk
  import opened HttpSteps
  import opened HttpLeads
  import opened HttpNames
  import opened HttpTokens

  /** A header line: its name, the white space after the colon, and its value. */
  datatype Header = Header(name: seq<octet>, lead: seq<Symbol>, value: seq<Symbol>)

  predicate NameText(name: seq<octet>) { name != [] && Tokens(name) }

  predicate Blanks(w: seq<Symbol>) { forall i :: 0 <= i < |w| ==> Blank(w[i].c) }

  /** A header field in the grammar of RFC 7230, section 3.2; white space before the line end counts to the value. */
  predicate HeaderOk(h: Header) {
    && NameText(h.name) && Blanks(h.lead) && SymbolsOk(h.value)
    && (h.value != [] ==> h.value[0].Byte? && !Blank(h.value[0].c))
  }

  function HeaderText(h: Header): seq<octet> {
    h.name + [':'] + SymbolsText(h.lead) + SymbolsText(h.value) + [CR, LF]
  }

  function HeaderCalls(h: Header): seq<Event> { [Data(Field, h.name), Data(Value, Chars(h.value))] }

  // The name and the white space.

  /** What a name may change. */
  function AfterColon(p: Parser, n: nat, h: HeaderState, i: nat, te: bool): Parser {
    p.(state := HeaderValueDiscardWs, headerState := h, index := i, usesTransferEncoding := te, nread := p.nread + n)
  }

  lemma {:induction false} LeadsName(cfg: Config, p: Parser, t: seq<Event>, name: seq<octet>)
    requires Limited(cfg, p) && p.state.HeaderFieldStart? && NameText(name)
    ensures Leads(cfg, p, t, name, AfterName(p, name), Push(t, Data(Field, name)))
  {
    hide Leads, StepByte, Run, Push, NameFold, Token, FieldStartState;
    var n := |name| - 1;
    var q := AfterName(p, name);
    if q.nread <= cfg.maxHeaderSize {
      RunName(cfg, p, t, name);
    }
    if n == 0 {
      assert name == [name[0]];
      LeadsNothing(cfg, p, t);
      assert [] + [name[0]] == name;
      LeadsMore(cfg, p, t, [], name[0], p, t, q, Push(t, Data(Field, name)));
    } else {
      LeadsName(cfg, p, t, name[..n]);
      assert name == name[..n] + [name[n]];
      LeadsMore(cfg, p, t, name[..n], name[n], AfterName(p, name[..n]), Push(t, Data(Field, name[..n])),
                q, Push(t, Data(Field, name)));
    }
  }

  /** A name and its colon. */
  lemma LeadsNamePart(cfg: Config, p: Parser, t: seq<Event>, name: seq<octet>) returns (q: Parser)
    requires Limited(cfg, p) && p.state.HeaderFieldStart? && NameText(name)
    ensures Leads(cfg, p, t, name + [':'], q, Push(t, Data(Field, name)))
    ensures q == AfterColon(p, |name| + 1, q.headerState, q.index, q.usesTransferEncoding) && NameMatcher(q.headerState)
    ensures q.headerState == HConnection <==> Folded(name) == CONNECTION || Folded(name) == PROXY_CONNECTION
    ensures q.headerState == HContentLength <==> Folded(name) == CONTENT_LENGTH
    ensures q.headerState == HTransferEncoding <==> Folded(name) == TRANSFER_ENCODING
    ensures q.headerState == HUpgrade <==> Folded(name) == UPGRADE
    ensures q.usesTransferEncoding <==> p.usesTransferEncoding || TRANSFER_ENCODING <= Folded(name)
  {
    hide Exec, StepByte, Run, Push, Folded, Token, FieldStartState, NameFold, Counted, NameMatcher, Leads;
    var u := Push(t, Data(Field, name));
    NameFacts(p, name);
    AfterNameMatcher(p, name);
    LeadsName(cfg, p, t, name);
    var c := AfterName(p, name);
    q := c.(nread := c.nread + 1, state := HeaderValueDiscardWs);
    if q.nread <= cfg.maxHeaderSize {
      RunColon(cfg, p, t, name);
    }
    LeadsMore(cfg, p, t, name, ':', c, u, q, u);
  }

  lemma ExecDiscard(cfg: Config, p: Parser, ch: octet)
    requires p.state.HeaderValueDiscardWs?
    ensures Blank(ch) ==> Exec(cfg, p, ch) == Next(p, [])
    ensures ch == CR ==> Exec(cfg, p, ch) == Next(p.(state := HeaderValueDiscardWsAlmostDone), [])
  {
    hide SwitchValueStart;
  }

  lemma ExecDiscardLine(cfg: Config, p: Parser, ch: octet)
    ensures p.state.HeaderValueDiscardWsAlmostDone? ==>
              Exec(cfg, p, LF) == Next(p.(state := HeaderValueDiscardLws), [])
    ensures p.state.HeaderValueDiscardLws? && Blank(ch) ==>
              Exec(cfg, p, ch) == Next(p.(state := HeaderValueDiscardWs), [])
  {
    hide LineFlags;
  }

  /** A byte of a header line that makes no call and moves no mark. */
  lemma LeadsQuiet(cfg: Config, p: Parser, t: seq<Event>, ch: octet, r: Parser)
    requires Limited(cfg, p) && p.state.ParsingHeader() && Live(p.state) == None && r.nread == p.nread + 1
    requires Exec(cfg, p.(nread := p.nread + 1), ch) == Next(r, [])
    ensures Leads(cfg, p, t, [ch], r, t)
  {
    hide Leads, Exec, StepByte, Counted, Live;
    if r.nread <= cfg.maxHeaderSize {
      CountOne(cfg, p);
      StepQuiet(cfg, p, t, ch, r);
    }
    LeadsStep(cfg, p, t, ch, r, t);
  }

  /** An empty line within the white space before a value. */
  lemma LeadsEmptyLine(cfg: Config, p: Parser, t: seq<Event>)
    requires Limited(cfg, p) && p.state.HeaderValueDiscardWs?
    ensures Leads(cfg, p, t, [CR, LF], p.(state := HeaderValueDiscardLws, nread := p.nread + 2), t)
  {
    hide Leads, Exec;
    var q := p.(state := HeaderValueDiscardWsAlmostDone, nread := p.nread + 1);
    var r := p.(state := HeaderValueDiscardLws, nread := p.nread + 2);
    ExecDiscard(cfg, p.(nread := p.nread + 1), CR);
    LeadsQuiet(cfg, p, t, CR, q);
    if q.nread <= cfg.maxHeaderSize {
      ExecDiscardLine(cfg, q.(nread := q.nread + 1), ' ');
      LeadsQuiet(cfg, q, t, LF, r);
    }
    assert [CR] + [LF] == [CR, LF];
    LeadsConcat(cfg, p, t, [CR], [LF], q, t, r, t);
  }

  lemma LeadsBlank(cfg: Config, p: Parser, t: seq<Event>, s: Symbol)
    requires Limited(cfg, p) && p.state.HeaderValueDiscardWs? && Blank(s.c)
    ensures Leads(cfg, p, t, SymbolText(s), p.(nread := p.nread + |SymbolText(s)|), t)
  {
    hide Leads, Exec;
    var r := p.(nread := p.nread + |SymbolText(s)|);
    if s.Fold? {
      var q := p.(state := HeaderValueDiscardLws, nread := p.nread + 2);
      LeadsEmptyLine(cfg, p, t);
      if q.nread <= cfg.maxHeaderSize {
        ExecDiscardLine(cfg, q.(nread := q.nread + 1), s.c);
        LeadsQuiet(cfg, q, t, s.c, r);
      }
      assert [CR, LF] + [s.c] == SymbolText(s);
      LeadsConcat(cfg, p, t, [CR, LF], [s.c], q, t, r, t);
    } else {
      ExecDiscard(cfg, r, s.c);
      LeadsQuiet(cfg, p, t, s.c, r);
    }
  }

  /** White space before a value, with any line ends in it, is skipped. */
  lemma {:induction false} LeadsLead(cfg: Config, p: Parser, t: seq<Event>, w: seq<Symbol>)
    requires Limited(cfg, p) && p.state.HeaderValueDiscardWs? && Blanks(w)
    ensures Leads(cfg, p, t, SymbolsText(w), p.(nread := p.nread + |SymbolsText(w)|), t)
  {
    hide Leads, SymbolText;
    if w == [] {
      LeadsNothing(cfg, p, t);
    } else {
      var n := |w| - 1;
      var q := p.(nread := p.nread + |SymbolsText(w[..n])|);
      LeadsLead(cfg, p, t, w[..n]);
      if q.nread <= cfg.maxHeaderSize {
        LeadsBlank(cfg, q, t, w[n]);
      }
      LeadsConcat(cfg, p, t, SymbolsText(w[..n]), SymbolText(w[n]), q, t,
                  p.(nread := p.nread + |SymbolsText(w)|), t);
    }
  }

  // The value.

  lemma ExecValueStart(cfg: Config, p: Parser, ch: octet)
    requires p.state.HeaderValueDiscardWs? && ch != ' ' && ch != '\t' && ch != CR && ch != LF
    ensures Exec(cfg, p, ch) == SwitchValueStart(p, ch)
  {
    ValueStartOnce(p, ch);
    hide SwitchValueStart;
  }

  lemma ValueStartOnce(p: Parser, ch: octet)
    ensures !SwitchValueStart(p, ch).Again?
  {
  }

  lemma RunValueFirst(cfg: Config, p: Parser, t: seq<Event>, ch: octet, r: Parser)
    requires cfg.maxHeaderSize + 1 < TWO_TO_32 && p.nread + 1 <= cfg.maxHeaderSize
    requires p.state.HeaderValueDiscardWs? && ch != ' ' && ch != '\t' && ch != CR && ch != LF
    requires SwitchValueStart(p.(nread := p.nread + 1), ch) == Next(r, [Mark(Value)])
    ensures Run(cfg, Going(p, t), [ch]) == Going(r, Push(t, Data(Value, [ch])))
  {
    hide Exec, StepByte, Run, SwitchValueStart, Push, Counted;
    CountOne(cfg, p);
    ExecValueStart(cfg, p.(nread := p.nread + 1), ch);
    StepData(cfg, p, t, ch, r, Value, [Mark(Value)]);
    RunOne(cfg, p, t, ch);
  }

  predicate NoLine(w: seq<octet>) { forall i :: 0 <= i < |w| ==> w[i] != CR && w[i] != LF }

  lemma ExecValueCr(cfg: Config, p: Parser)
    requires p.state.HeaderValue?
    ensures Exec(cfg, p, CR) == Next(p.(state := HeaderAlmostDone), [Flush(Value)])
  {
    hide ValueByte;
  }

  lemma ExecValueLf(cfg: Config, p: Parser)
    requires p.state.HeaderAlmostDone?
    ensures Exec(cfg, p, LF) == Next(p.(state := HeaderValueLws), [])
  {
  }

  lemma LeadsValueCr(cfg: Config, p: Parser, t: seq<Event>, v: seq<octet>)
    requires Limited(cfg, p) && p.state.HeaderValue?
    ensures Leads(cfg, p, Push(t, Data(Value, v)), [CR],
                  p.(state := HeaderAlmostDone, nread := p.nread + 1), Push(t, Data(Value, v)))
  {
    hide Leads, Exec, StepByte, Push, Counted;
    var q := p.(state := HeaderAlmostDone, nread := p.nread + 1);
    var u := Push(t, Data(Value, v));
    if q.nread <= cfg.maxHeaderSize {
      CountOne(cfg, p);
      ExecValueCr(cfg, p.(nread := p.nread + 1));
      StepFlush(cfg, p, u, CR, q, Value);
      PushTwice(t, Value, v, []);
      assert v + [] == v;
    }
    LeadsStep(cfg, p, u, CR, q, u);
  }

  lemma LeadsValueLf(cfg: Config, q: Parser, u: seq<Event>)
    requires Limited(cfg, q) && q.state.HeaderAlmostDone?
    ensures Leads(cfg, q, u, [LF], q.(state := HeaderValueLws, nread := q.nread + 1), u)
  {
    hide Leads, Exec, StepByte, Counted;
    var r := q.(state := HeaderValueLws, nread := q.nread + 1);
    ExecValueLf(cfg, q.(nread := q.nread + 1));
    LeadsQuiet(cfg, q, u, LF, r);
  }

  lemma LeadsValueEnd(cfg: Config, p: Parser, t: seq<Event>, v: seq<octet>)
    requires Limited(cfg, p) && p.state.HeaderValue?
    ensures Leads(cfg, p, Push(t, Data(Value, v)), [CR, LF],
                  p.(state := HeaderValueLws, nread := p.nread + 2), Push(t, Data(Value, v)))
  {
    hide Leads, Push;
    var q := p.(state := HeaderAlmostDone, nread := p.nread + 1);
    var r := p.(state := HeaderValueLws, nread := p.nread + 2);
    var u := Push(t, Data(Value, v));
    LeadsValueCr(cfg, p, t, v);
    if q.nread <= cfg.maxHeaderSize {
      LeadsValueLf(cfg, q, u);
    }
    LeadsConcat(cfg, p, u, [CR], [LF], q, u, r, u);
    assert [CR] + [LF] == [CR, LF];
  }


  // Symbols of a value.

  /** A state in which the parser can be within a value. */
  predicate InValue(h: HeaderState) { !(h.HConnection? || h.HContentLength? || h.HTransferEncoding? || h.HUpgrade?) }

  lemma TakeStays(cfg: Config, v: ValueState, s: Symbol)
    requires InValue(v.header) && TakeSymbol(cfg, v, s).Took?
    ensures InValue(TakeSymbol(cfg, v, s).v.header)
  {
    hide Lower, IsHeaderChar, IsToken;
  }

  lemma {:induction false} TakeAllStays(cfg: Config, v: ValueState, w: seq<Symbol>)
    requires InValue(v.header) && TakeAll(cfg, v, w).Took?
    ensures InValue(TakeAll(cfg, v, w).v.header)
  {
    hide TakeSymbol, InValue;
    if w != [] {
      TakeAllStays(cfg, v, w[..|w| - 1]);
      TakeStays(cfg, TakeAll(cfg, v, w[..|w| - 1]).v, w[|w| - 1]);
    }
  }

  lemma LeadsByte(cfg: Config, p: Parser, t: seq<Event>, x: seq<octet>, ch: octet, v: ValueState)
    requires Limited(cfg, p) && p.state.HeaderValue? && ch != CR && ch != LF
    requires ValueByte(cfg, ValueOf(p), ch) == Took(v)
    ensures Leads(cfg, p, Push(t, Data(Value, x)), [ch], WithValue(p, v).(nread := p.nread + 1),
                  Push(t, Data(Value, x + [ch])))
  {
    hide Leads, Exec, StepByte, Push, ValueByte, Counted;
    var r := WithValue(p, v).(nread := p.nread + 1);
    if r.nread <= cfg.maxHeaderSize {
      CountOne(cfg, p);
      ExecValue(cfg, p.(nread := p.nread + 1), ch);
      StepData(cfg, p, Push(t, Data(Value, x)), ch, r, Value, []);
      PushTwice(t, Value, x, [ch]);
    }
    LeadsStep(cfg, p, Push(t, Data(Value, x)), ch, r, Push(t, Data(Value, x + [ch])));
  }

  lemma RefoldStart(p: Parser, ch: octet)
    requires InValue(p.headerState)
    ensures var h := if p.headerState == HContentLengthNum then HContentLengthWs else p.headerState;
            SwitchValueStart(p.(headerState := h, state := HeaderValueStart), ch) ==
            Next(WithValue(p, Refolded(ValueOf(p))).(state := HeaderValue), [Mark(Value)])
  {
  }

  lemma SwitchRefold(cfg: Config, p: Parser, ch: octet)
    requires p.state.HeaderValueLws? && Blank(ch)
    ensures var h := if p.headerState == HContentLengthNum then HContentLengthWs else p.headerState;
            Switch(cfg, p, ch) == Again(p.(headerState := h, state := HeaderValueStart), [])
  {
    hide LineFlags;
  }

  lemma ExecStart(cfg: Config, p: Parser, ch: octet)
    requires p.state.HeaderValueStart?
    ensures Exec(cfg, p, ch) == SwitchValueStart(p, ch)
  {
    ValueStartOnce(p, ch);
    hide SwitchValueStart;
  }

  lemma ExecRefold(cfg: Config, p: Parser, ch: octet)
    requires p.state.HeaderValueLws? && Blank(ch) && InValue(p.headerState)
    ensures Exec(cfg, p, ch) == Next(WithValue(p, Refolded(ValueOf(p))).(state := HeaderValue), [Mark(Value)])
  {
    hide Exec, Switch, SwitchValueStart, InValue, Refolded, Blank;
    var q := p.(headerState := if p.headerState == HContentLengthNum then HContentLengthWs else p.headerState,
                state := HeaderValueStart);
    SwitchRefold(cfg, p, ch);
    ExecAgain(cfg, p, ch, q, []);
    ExecStart(cfg, q, ch);
    RefoldStart(p, ch);
    NothingFirst(Exec(cfg, q, ch));
  }

  lemma NothingFirst(pass: Pass)
    ensures Prepend([], pass) == pass
  {
    if !pass.Fail? {
      assert [] + pass.acts == pass.acts;
    }
  }

  /** The first character of a further line of a value. */
  lemma LeadsRefold(cfg: Config, p: Parser, t: seq<Event>, x: seq<octet>, ch: octet)
    requires Limited(cfg, p) && p.state.HeaderValueLws? && Blank(ch) && InValue(p.headerState)
    ensures Leads(cfg, p, Push(t, Data(Value, x)), [ch],
                  WithValue(p, Refolded(ValueOf(p))).(state := HeaderValue, nread := p.nread + 1),
                  Push(t, Data(Value, x + [ch])))
  {
    hide Leads, Exec, StepByte, Push, Counted, Refolded, InValue, Blank;
    var r := WithValue(p, Refolded(ValueOf(p))).(state := HeaderValue, nread := p.nread + 1);
    var u := Push(t, Data(Value, x));
    if r.nread <= cfg.maxHeaderSize {
      CountOne(cfg, p);
      ExecRefold(cfg, p.(nread := p.nread + 1), ch);
      StepData(cfg, p, u, ch, r, Value, [Mark(Value)]);
      PushTwice(t, Value, x, [ch]);
    }
    LeadsStep(cfg, p, u, ch, r, Push(t, Data(Value, x + [ch])));
  }

  lemma LeadsSymbol(cfg: Config, p: Parser, t: seq<Event>, x: seq<octet>, s: Symbol, v: ValueState)
    requires Limited(cfg, p) && p.state.HeaderValue? && SymbolOk(s) && InValue(p.headerState)
    requires TakeSymbol(cfg, ValueOf(p), s) == Took(v)
    ensures Leads(cfg, p, Push(t, Data(Value, x)), SymbolText(s), WithValue(p, v).(nread := p.nread + |SymbolText(s)|),
                  Push(t, Data(Value, x + [s.c])))
  {
    hide Leads, Push, ValueByte, Refolded, InValue, IsHeaderChar, Blank;
    var u, w := Push(t, Data(Value, x)), Push(t, Data(Value, x + [s.c]));
    if s.Fold? {
      var q := p.(state := HeaderValueLws, nread := p.nread + 2);
      var r := WithValue(p, v).(nread := p.nread + 3);
      LeadsValueEnd(cfg, p, t, x);
      assert ValueOf(q) == ValueOf(p);
      if q.nread <= cfg.maxHeaderSize {
        LeadsRefold(cfg, q, t, x, s.c);
      }
      assert [CR, LF] + [s.c] == SymbolText(s);
      LeadsConcat(cfg, p, u, [CR, LF], [s.c], q, u, r, w);
    } else {
      LeadsByte(cfg, p, t, x, s.c, v);
    }
  }

  lemma {:induction false} LeadsSymbols(cfg: Config, p: Parser, t: seq<Event>, x: seq<octet>, w: seq<Symbol>)
    requires Limited(cfg, p) && p.state.HeaderValue? && SymbolsOk(w) && InValue(p.headerState)
    requires TakeAll(cfg, ValueOf(p), w).Took?
    ensures Leads(cfg, p, Push(t, Data(Value, x)), SymbolsText(w),
                  WithValue(p, TakeAll(cfg, ValueOf(p), w).v).(nread := p.nread + |SymbolsText(w)|),
                  Push(t, Data(Value, x + Chars(w))))
  {
    hide Leads, Push, TakeSymbol, SymbolText, InValue, SymbolOk;
    var u := Push(t, Data(Value, x));
    if w == [] {
      assert x + Chars([]) == x;
      LeadsNothing(cfg, p, u);
    } else {
      var n := |w| - 1;
      LeadsSymbols(cfg, p, t, x, w[..n]);
      TakeAllStays(cfg, ValueOf(p), w[..n]);
      var q := WithValue(p, TakeAll(cfg, ValueOf(p), w[..n]).v).(nread := p.nread + |SymbolsText(w[..n])|);
      var r := WithValue(p, TakeAll(cfg, ValueOf(p), w).v).(nread := p.nread + |SymbolsText(w)|);
      if q.nread <= cfg.maxHeaderSize {
        LeadsSymbol(cfg, q, t, x + Chars(w[..n]), w[n], TakeAll(cfg, ValueOf(p), w).v);
      }
      assert x + Chars(w[..n]) + [w[n].c] == x + Chars(w);
      LeadsConcat(cfg, p, u, SymbolsText(w[..n]), SymbolText(w[n]), q, Push(t, Data(Value, x + Chars(w[..n]))),
                  r, Push(t, Data(Value, x + Chars(w))));
    }
  }

  // The end of a line.

  /** The line is over when the next one does not start with white space. */
  function Resumed(p: Parser): Parser { p.(flags := LineFlags(p.flags, p.headerState), state := HeaderFieldStart) }

  lemma ResumeByte(cfg: Config, p: Parser, t: seq<Event>, ch: octet)
    requires p.state.HeaderValueLws? && ch != ' ' && ch != '\t'
    ensures StepByte(cfg, p, t, ch) == StepByte(cfg, Resumed(p), t, ch)
  {
    hide Play, PushAll, Leftover, LineFlags, Switch, Exec;
    assert Resumed(p).state.ParsingHeader() && InitialMarks(Resumed(p).state) == InitialMarks(p.state) == map[];
    var counted := Count(cfg, p.nread, 1);
    if counted.Some? {
      var q := p.(nread := counted.value);
      ResumeSwitch(cfg, q, ch);
      ExecAgain(cfg, q, ch, Resumed(q), []);
      NothingFirst(Exec(cfg, Resumed(q), ch));
    }
  }

  lemma ResumeSwitch(cfg: Config, p: Parser, ch: octet)
    requires p.state.HeaderValueLws? && ch != ' ' && ch != '\t'
    ensures Switch(cfg, p, ch) == Again(Resumed(p), [])
  {
    hide LineFlags;
  }

  lemma {:induction false} Resumes(cfg: Config, p: Parser, t: seq<Event>, rest: seq<octet>)
    requires p.state.HeaderValueLws? && rest != [] && rest[0] != ' ' && rest[0] != '\t'
    ensures Run(cfg, Going(p, t), rest) == Run(cfg, Going(Resumed(p), t), rest)
  {
    hide StepByte;
    if |rest| == 1 {
      assert rest == [rest[0]];
      RunOne(cfg, p, t, rest[0]);
      RunOne(cfg, Resumed(p), t, rest[0]);
      ResumeByte(cfg, p, t, rest[0]);
    } else {
      Resumes(cfg, p, t, rest[..|rest| - 1]);
    }
  }

  /** An empty value is delivered only now. */
  lemma SwitchEmpty(cfg: Config, p: Parser, ch: octet)
    requires p.state.HeaderValueDiscardLws? && !Blank(ch) && !p.headerState.HContentLength?
    ensures Switch(cfg, p, ch) == Again(Resumed(p), [Mark(Value), Flush(Value)])
  {
    hide LineFlags;
  }

  lemma PlayEmpty(acts: seq<Action>, ch: octet)
    ensures var x := Play(acts, map[], [ch], 0);
            Play([Mark(Value), Flush(Value)] + acts, map[], [ch], 0) == (x.0, [Data(Value, [])] + x.1)
  {
    PlayTwo(Mark(Value), Flush(Value), map[], [ch], 0);
    var one := PlayOne(Mark(Value), map[], [ch], 0);
    assert one == (map[Value := 0], []);
    assert map[Value := 0] - {Value} == map[] && [ch][0..0] == [];
    assert PlayOne(Flush(Value), one.0, [ch], 0) == (map[], [Data(Value, [])]);
    assert [] + [Data(Value, [])] == [Data(Value, [])];
    PlayConcat([Mark(Value), Flush(Value)], acts, map[], [ch], 0);
  }

  lemma PushFirst(t: seq<Event>, e: Event, es: seq<Event>)
    ensures PushAll(t, [e] + es) == PushAll(Push(t, e), es)
  {
    hide Push;
    PushAllConcat(t, [e], es);
    PushAllOne(t, e);
  }

  lemma EmptyByte(cfg: Config, p: Parser, t: seq<Event>, ch: octet)
    requires p.state.HeaderValueDiscardLws? && !Blank(ch) && !p.headerState.HContentLength?
    ensures StepByte(cfg, p, t, ch) == StepByte(cfg, Resumed(p), Push(t, Data(Value, [])), ch)
  {
    hide Play, PushAll, Leftover, LineFlags, Switch, Exec, Push, Blank;
    assert Resumed(p).state.ParsingHeader() && InitialMarks(Resumed(p).state) == InitialMarks(p.state) == map[];
    var counted := Count(cfg, p.nread, 1);
    if counted.Some? {
      var q := p.(nread := counted.value);
      SwitchEmpty(cfg, q, ch);
      ExecAgain(cfg, q, ch, Resumed(q), [Mark(Value), Flush(Value)]);
      var x := Exec(cfg, Resumed(q), ch);
      if !x.Fail? {
        PlayEmpty(x.acts, ch);
        PushFirst(t, Data(Value, []), Play(x.acts, map[], [ch], 0).1);
      }
    }
  }

  lemma {:induction false} ResumesEmpty(cfg: Config, p: Parser, t: seq<Event>, rest: seq<octet>)
    requires p.state.HeaderValueDiscardLws? && !p.headerState.HContentLength? && rest != [] && !Blank(rest[0])
    ensures Run(cfg, Going(p, t), rest) == Run(cfg, Going(Resumed(p), Push(t, Data(Value, []))), rest)
  {
    hide StepByte, Push;
    if |rest| == 1 {
      assert rest == [rest[0]];
      RunOne(cfg, p, t, rest[0]);
      RunOne(cfg, Resumed(p), Push(t, Data(Value, [])), rest[0]);
      EmptyByte(cfg, p, t, rest[0]);
    } else {
      ResumesEmpty(cfg, p, t, rest[..|rest| - 1]);
    }
  }

  predicate StartsLine(rest: seq<octet>) { rest != [] && rest[0] != ' ' && rest[0] != '\t' }

  /** Whatever starts a line is read after `text` as from `q`, with the trace `u`; beyond the limit reading fails. */
  ghost predicate Passes(cfg: Config, p: Parser, t: seq<Event>, text: seq<octet>, q: Parser, u: seq<Event>) {
    && q.nread == p.nread + |text|
    && forall rest | StartsLine(rest) ::
         Run(cfg, Going(p, t), text + rest) == if q.nread <= cfg.maxHeaderSize then Run(cfg, Going(q, u), rest)
                                               else Failed
  }

  lemma PassesLine(cfg: Config, p: Parser, t: seq<Event>, text: seq<octet>, r: Parser, u: seq<Event>)
    requires Leads(cfg, p, t, text, r, u)
    requires r.state.HeaderValueLws? || (r.state.HeaderValueDiscardLws? && !r.headerState.HContentLength?)
    ensures Passes(cfg, p, t, text, Resumed(r), if r.state.HeaderValueLws? then u else Push(u, Data(Value, [])))
  {
    hide Run, Leads, Push, Resumed;
    var v := if r.state.HeaderValueLws? then u else Push(u, Data(Value, []));
    ResumedCount(r);
    LeadsCount(cfg, p, t, text, r, u);
    forall rest | StartsLine(rest)
      ensures Run(cfg, Going(p, t), text + rest) ==
              if r.nread <= cfg.maxHeaderSize then Run(cfg, Going(Resumed(r), v), rest) else Failed
    {
      LeadsOn(cfg, p, t, text, r, u, rest);
      if r.state.HeaderValueLws? {
        Resumes(cfg, r, u, rest);
      } else {
        ResumesEmpty(cfg, r, u, rest);
      }
    }
  }

  lemma ResumedCount(r: Parser)
    ensures Resumed(r).nread == r.nread && Resumed(r).state.HeaderFieldStart?
  {
    hide LineFlags;
  }

  lemma LeadsCount(cfg: Config, p: Parser, t: seq<Event>, text: seq<octet>, r: Parser, u: seq<Event>)
    requires Leads(cfg, p, t, text, r, u)
    ensures r.nread == p.nread + |text|
  {
    hide Run;
  }

  lemma {:induction false} SymbolsTextFirst(v: seq<Symbol>)
    requires v != []
    ensures SymbolsText(v) == SymbolText(v[0]) + SymbolsText(v[1..])
  {
    hide SymbolText;
    var n := |v| - 1;
    if n == 0 {
      assert v[..0] == [] && v[1..] == [];
      assert SymbolsText(v) == [] + SymbolText(v[0]);
    } else {
      SymbolsTextFirst(v[..n]);
      assert v[..n][1..] == v[1..][..n - 1];
      assert SymbolText(v[0]) + SymbolsText(v[1..][..n - 1]) + SymbolText(v[n])
          == SymbolText(v[0]) + (SymbolsText(v[1..][..n - 1]) + SymbolText(v[n]));
    }
  }

  /** Name and white space together. */
  lemma LeadsToValue(cfg: Config, p: Parser, t: seq<Event>, h: Header, q: Parser)
    requires Limited(cfg, p) && HeaderOk(h) && q.state.HeaderValueDiscardWs?
    requires Leads(cfg, p, t, h.name + [':'], q, Push(t, Data(Field, h.name)))
    ensures Leads(cfg, p, t, h.name + [':'] + SymbolsText(h.lead), q.(nread := q.nread + |SymbolsText(h.lead)|),
                  Push(t, Data(Field, h.name)))
  {
    hide Leads, Push, SymbolsText, NameText, SymbolsOk;
    var u := Push(t, Data(Field, h.name));
    if q.nread <= cfg.maxHeaderSize {
      LeadsLead(cfg, q, u, h.lead);
    }
    LeadsConcat(cfg, p, t, h.name + [':'], SymbolsText(h.lead), q, u, q.(nread := q.nread + |SymbolsText(h.lead)|), u);
  }

  lemma LeadsValue(cfg: Config, q: Parser, u: seq<Event>, value: seq<Symbol>, r: Parser, v: ValueState)
    requires Limited(cfg, q) && q.state.HeaderValueDiscardWs? && SymbolsOk(value)
    requires value != [] && value[0].Byte? && !Blank(value[0].c)
    requires SwitchValueStart(q.(nread := q.nread + 1), value[0].c) == Next(r, [Mark(Value)])
    requires r.state.HeaderValue? && r.nread == q.nread + 1 && InValue(r.headerState)
    requires TakeAll(cfg, ValueOf(r), value[1..]) == Took(v)
    ensures Leads(cfg, q, u, SymbolsText(value), WithValue(r, v).(nread := q.nread + |SymbolsText(value)|),
                  Push(u, Data(Value, Chars(value))))
  {
    hide Leads, Run, Push, SwitchValueStart, TakeAll, SymbolsText, InValue, IsHeaderChar;
    var first, w := value[0].c, value[1..];
    SymbolsTextFirst(value);
    assert SymbolOk(value[0]) && [first] + Chars(w) == Chars(value);
    var s := WithValue(r, v).(nread := q.nread + |SymbolsText(value)|);
    if r.nread <= cfg.maxHeaderSize {
      RunValueFirst(cfg, q, u, first, r);
      RunOne(cfg, q, u, first);
      LeadsSymbols(cfg, r, u, [first], w);
    }
    LeadsStep(cfg, q, u, first, r, Push(u, Data(Value, [first])));
    LeadsConcat(cfg, q, u, [first], SymbolsText(w), r, Push(u, Data(Value, [first])), s,
                Push(u, Data(Value, Chars(value))));
  }

  function LineTrace(t: seq<Event>, h: Header): seq<Event> {
    Push(Push(t, Data(Field, h.name)), Data(Value, Chars(h.value)))
  }

  /** A line whose name led to `q`, the first character of its value to `r`, and the rest of the value to `v`. */
  lemma FinishLine(cfg: Config, p: Parser, t: seq<Event>, h: Header, q: Parser, r: Parser, v: ValueState)
    requires Limited(cfg, p) && HeaderOk(h) && h.value != [] && q.state.HeaderValueDiscardWs?
    requires Leads(cfg, p, t, h.name + [':'], q, Push(t, Data(Field, h.name)))
    requires SwitchValueStart(q.(nread := q.nread + |SymbolsText(h.lead)| + 1), h.value[0].c) == Next(r, [Mark(Value)])
    requires r.state.HeaderValue? && r.nread == q.nread + |SymbolsText(h.lead)| + 1 && InValue(r.headerState)
    requires TakeAll(cfg, ValueOf(r), h.value[1..]) == Took(v)
    ensures Passes(cfg, p, t, HeaderText(h),
                   Resumed(WithValue(r, v).(state := HeaderValueLws, nread := p.nread + |HeaderText(h)|)),
                   LineTrace(t, h))
  {
    hide Leads, Push, SwitchValueStart, TakeAll, Resumed, Passes, SymbolsText, InValue, NameText, SymbolsOk;
    var u := Push(t, Data(Field, h.name));
    var w := Push(u, Data(Value, Chars(h.value)));
    var lead, value := h.name + [':'] + SymbolsText(h.lead), SymbolsText(h.value);
    var a := q.(nread := q.nread + |SymbolsText(h.lead)|);
    var b := WithValue(r, v).(nread := a.nread + |value|);
    var e := b.(state := HeaderValueLws, nread := b.nread + 2);
    LeadsToValue(cfg, p, t, h, q);
    LeadsCount(cfg, p, t, lead, a, u);
    if a.nread <= cfg.maxHeaderSize {
      LeadsValue(cfg, a, u, h.value, r, v);
    }
    LeadsConcat(cfg, p, t, lead, value, a, u, b, w);
    if b.nread <= cfg.maxHeaderSize {
      LeadsValueEnd(cfg, b, u, Chars(h.value));
    }
    LeadsConcat(cfg, p, t, lead + value, [CR, LF], b, w, e, w);
    PassesLine(cfg, p, t, HeaderText(h), e, w);
  }

  /** A line with an empty value. */
  lemma EmptyLine(cfg: Config, p: Parser, t: seq<Event>, h: Header, q: Parser)
    requires Limited(cfg, p) && HeaderOk(h) && h.value == [] && q.state.HeaderValueDiscardWs?
    requires Leads(cfg, p, t, h.name + [':'], q, Push(t, Data(Field, h.name))) && !q.headerState.HContentLength?
    ensures Passes(cfg, p, t, HeaderText(h),
                   Resumed(q.(state := HeaderValueDiscardLws, nread := p.nread + |HeaderText(h)|)), LineTrace(t, h))
  {
    hide Leads, Push, Resumed, Passes, NameText;
    var u := Push(t, Data(Field, h.name));
    var lead := h.name + [':'] + SymbolsText(h.lead);
    var a := q.(nread := q.nread + |SymbolsText(h.lead)|);
    var e := a.(state := HeaderValueDiscardLws, nread := a.nread + 2);
    LeadsToValue(cfg, p, t, h, q);
    LeadsCount(cfg, p, t, lead, a, u);
    if a.nread <= cfg.maxHeaderSize {
      LeadsEmptyLine(cfg, a, u);
    }
    LeadsConcat(cfg, p, t, lead, [CR, LF], a, u, e, u);
    assert lead + SymbolsText([]) == lead && Chars(h.value) == [];
    PassesLine(cfg, p, t, HeaderText(h), e, u);
  }
}
