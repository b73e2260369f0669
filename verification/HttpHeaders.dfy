/** Whole header lines, and lists of them: what they leave in the parser, and which are refused. */
module HttpHeaders {
  import opened HttpTypes
  import opened HttpNumerals
  import opened HttpSwitch
  import opened HttpTrace
  import opened HttpRun
  import opened HttpBulk
  import opened HttpSteps
  import opened HttpLeads
  import opened HttpNames
  import opened HttpBodies
  import opened HttpTokens
  import opened HttpLines

  // What a line leaves.

  predicate ListName(n: string, l: Listing) {
    if l.Codings? then n == TRANSFER_ENCODING else n == CONNECTION || n == PROXY_CONNECTION
  }

  /** The word is heard in the line. */
  predicate Says(h: Header, k: Keyword) { ListName(Folded(h.name), ListOf(k)) && Hears(k, h.value) }

  predicate IsUpgrade(h: Header) { Folded(h.name) == UPGRADE && h.value != [] }

  predicate IsLength(h: Header) { Folded(h.name) == CONTENT_LENGTH }

  /** The parser takes every name that starts like this one for it. */
  predicate IsPrefixed(h: Header) { TRANSFER_ENCODING <= Folded(h.name) }

  function Digits(v: seq<Symbol>): (n: nat)
    ensures n <= |v|
    ensures forall i :: 0 <= i < n ==> v[i].Byte? && IsNum(v[i].c)
  {
    if v != [] && v[0].Byte? && IsNum(v[0].c) then 1 + Digits(v[1..]) else 0
  }

  predicate Padding(s: Symbol) { s.Fold? || s.c == ' ' }

  /** A length as the parser reads it: digits that fit, and then spaces and line ends; a tab is an error. */
  predicate LengthText(v: seq<Symbol>) {
    var n := Digits(v);
    && n > 0 && DecimalFits(Chars(v[..n]))
    && forall i :: n <= i < |v| ==> Padding(v[i])
  }

  function LengthValue(v: seq<Symbol>): nat { DecimalValue(Chars(v[..Digits(v)])) }

  /** What the flags remember of a line. */
  function Remembered(f: Flags, h: Header): Flags {
    var g := OptionFlags(f, Says(h, Close), Says(h, KeepAlive), Says(h, Upgrade));
    g.(chunked := g.chunked || Says(h, Chunked), upgrade := g.upgrade || IsUpgrade(h),
       contentLength := g.contentLength || IsLength(h))
  }

  /** What a line of length `n` leaves, whatever the matcher's variables are. */
  predicate Leaves(p: Parser, h: Header, q: Parser) {
    q == p.(state := HeaderFieldStart, headerState := q.headerState, index := q.index,
            nread := p.nread + |HeaderText(h)|, usesTransferEncoding := p.usesTransferEncoding || IsPrefixed(h),
            contentLength := if IsLength(h) then LengthValue(h.value) else p.contentLength,
            flags := Remembered(p.flags, h))
  }

  lemma OtherNames()
    ensures !(TRANSFER_ENCODING <= UPGRADE) && !(TRANSFER_ENCODING <= CONTENT_LENGTH)
    ensures !(TRANSFER_ENCODING <= CONNECTION) && !(TRANSFER_ENCODING <= PROXY_CONNECTION)
    ensures TRANSFER_ENCODING <= TRANSFER_ENCODING
  {
  }

  lemma HearsNothing(k: Keyword)
    ensures !Hears(k, [])
  {
    NothingSeen(ListOf(k), AtFirst);
    hide ElementSeen;
  }

  /** Nothing to remember but a length, an Upgrade or a list. */
  lemma RememberedPlain(f: Flags, h: Header)
    requires !IsLength(h) && !IsUpgrade(h)
    requires h.value == [] || forall l: Listing :: !ListName(Folded(h.name), l)
    ensures Remembered(f, h) == f
  {
    HearsNothing(Close);
    HearsNothing(KeepAlive);
    HearsNothing(Upgrade);
    HearsNothing(Chunked);
    hide Folded, Hears;
  }

  lemma RememberedList(f: Flags, h: Header, l: Listing)
    requires ListName(Folded(h.name), l)
    ensures Remembered(f, h) == Heeding(f, l, h.value)
  {
    hide Folded, Hears;
  }

  lemma RememberedUpgrade(f: Flags, h: Header)
    requires IsUpgrade(h)
    ensures Remembered(f, h) == f.(upgrade := true)
  {
    hide Folded, Hears;
  }

  lemma RememberedLength(f: Flags, h: Header)
    requires IsLength(h)
    ensures Remembered(f, h) == f.(contentLength := true)
  {
    hide Folded, Hears;
  }

  // Lines the parser only delivers, and Upgrade.

  lemma {:induction false} GeneralTake(cfg: Config, v: ValueState, w: seq<Symbol>)
    requires v.header.HGeneral? && v.index == 0 && SymbolsOk(w)
    ensures TakeAll(cfg, v, w) == Took(v)
  {
    hide IsHeaderChar, IsToken;
    if w != [] {
      GeneralTake(cfg, v, w[..|w| - 1]);
    }
  }

  lemma GeneralStart(p: Parser, ch: octet)
    requires NameMatcher(p.headerState) && !p.headerState.HConnection? && !p.headerState.HContentLength?
    requires !p.headerState.HTransferEncoding?
    ensures SwitchValueStart(p, ch) ==
            Next(p.(state := HeaderValue, index := 0, headerState := HGeneral,
                    flags := if p.headerState.HUpgrade? then p.flags.(upgrade := true) else p.flags), [Mark(Value)])
  {
  }

  lemma GeneralResumed(r: Parser, n: nat)
    requires r.headerState.HGeneral?
    ensures Resumed(WithValue(r, ValueOf(r)).(state := HeaderValueLws, nread := n))
         == r.(state := HeaderFieldStart, nread := n)
  {
  }

  /** Any line that is no list and no length. */
  lemma GeneralLine(cfg: Config, p: Parser, t: seq<Event>, h: Header) returns (q: Parser)
    requires Limited(cfg, p) && p.state.HeaderFieldStart? && HeaderOk(h) && h.value != [] && !IsLength(h)
    requires forall l: Listing :: !ListName(Folded(h.name), l)
    ensures Leaves(p, h, q) && Passes(cfg, p, t, HeaderText(h), q, LineTrace(t, h))
  {
    hide Leads, Push, Folded, SwitchValueStart, TakeAll, Passes, LineTrace, Tokens, SymbolsText, Resumed, HeaderText,
      Remembered, NameMatcher, IsHeaderChar, Hears;
    assert !ListName(Folded(h.name), Codings) && !ListName(Folded(h.name), Options);
    var c := LeadsNamePart(cfg, p, t, h.name);
    var m := c.nread + |SymbolsText(h.lead)| + 1;
    GeneralStart(c.(nread := m), h.value[0].c);
    var r := c.(state := HeaderValue, index := 0, headerState := HGeneral, nread := m,
                flags := if c.headerState.HUpgrade? then c.flags.(upgrade := true) else c.flags);
    GeneralInValue();
    ValueTail(h);
    GeneralTake(cfg, ValueOf(r), h.value[1..]);
    FinishLine(cfg, p, t, h, c, r, ValueOf(r));
    var n := p.nread + |HeaderText(h)|;
    GeneralResumed(r, n);
    q := r.(state := HeaderFieldStart, nread := n);
    if IsUpgrade(h) {
      RememberedUpgrade(p.flags, h);
    } else {
      RememberedPlain(p.flags, h);
    }
  }

  lemma GeneralInValue()
    ensures InValue(HGeneral)
  {
  }

  lemma ValueTail(h: Header)
    requires HeaderOk(h) && h.value != []
    ensures SymbolsOk(h.value[1..]) && SymbolOk(h.value[0])
  {
    hide SymbolOk;
  }

  lemma EmptyResumed(q: Parser, n: nat)
    requires NameMatcher(q.headerState)
    ensures Resumed(q.(state := HeaderValueDiscardLws, nread := n)) == q.(state := HeaderFieldStart, nread := n)
  {
  }

  lemma EmptyLineLeaves(cfg: Config, p: Parser, t: seq<Event>, h: Header) returns (q: Parser)
    requires Limited(cfg, p) && p.state.HeaderFieldStart? && HeaderOk(h) && h.value == [] && !IsLength(h)
    ensures Leaves(p, h, q) && Passes(cfg, p, t, HeaderText(h), q, LineTrace(t, h))
  {
    hide Leads, Push, Folded, Passes, LineTrace, Tokens, SymbolsText, Resumed, HeaderText, Remembered, NameMatcher,
      Hears;
    var c := LeadsNamePart(cfg, p, t, h.name);
    EmptyLine(cfg, p, t, h, c);
    var n := p.nread + |HeaderText(h)|;
    EmptyResumed(c, n);
    q := c.(state := HeaderFieldStart, nread := n);
    RememberedPlain(p.flags, h);
  }

  // Lists.

  lemma ListStart(p: Parser, l: Listing, ch: octet)
    requires p.headerState == if l.Codings? then HTransferEncoding else HConnection
    ensures SwitchValueStart(p, ch) ==
            Next(p.(state := HeaderValue, index := 0,
                    headerState := match Sought(l, ch) case Some(k) => Seeking(k) case None => AnyToken(l)),
                 [Mark(Value)])
  {
    hide Lower;
  }

  lemma ListInValue(l: Listing, ch: octet)
    ensures InValue(match Sought(l, ch) case Some(k) => Seeking(k) case None => AnyToken(l))
  {
    hide Lower;
  }

  lemma ListResumed(l: Listing, r: Parser, v: seq<Symbol>, w: ValueState, n: nat)
    requires Listed(l, ValueOf(r), v, w)
    ensures var q := Resumed(WithValue(r, w).(state := HeaderValueLws, nread := n));
            q == r.(state := HeaderFieldStart, headerState := w.header, index := w.index, nread := n,
                    flags := Heeding(r.flags, l, v))
  {
    ListEnd(l, ValueOf(r), v, w);
    hide Heeding, ListFlags, Stands, LineFlags, Complete;
  }

  /** A Transfer-Encoding or Connection line sets the flags of the words that are heard in it. */
  lemma ListLine(cfg: Config, p: Parser, t: seq<Event>, h: Header, l: Listing) returns (q: Parser)
    requires Limited(cfg, p) && p.state.HeaderFieldStart? && HeaderOk(h) && h.value != []
    requires ListName(Folded(h.name), l)
    ensures Leaves(p, h, q) && Passes(cfg, p, t, HeaderText(h), q, LineTrace(t, h))
  {
    hide Leads, Push, Folded, SwitchValueStart, TakeAll, Passes, LineTrace, Tokens, SymbolsText, Resumed, HeaderText,
      Remembered, Heeding, Listed, Sought, Seeking, AnyToken, IsHeaderChar, NameMatcher, InValue;
    OtherNames();
    var c := LeadsNamePart(cfg, p, t, h.name);
    var m := c.nread + |SymbolsText(h.lead)| + 1;
    ListStart(c.(nread := m), l, h.value[0].c);
    ListInValue(l, h.value[0].c);
    var r := SwitchValueStart(c.(nread := m), h.value[0].c).p;
    ListValue(cfg, l, ValueOf(r), h.value);
    var w := TakeAll(cfg, ValueOf(r), h.value[1..]).v;
    FinishLine(cfg, p, t, h, c, r, w);
    var n := p.nread + |HeaderText(h)|;
    ListResumed(l, r, h.value, w, n);
    q := Resumed(WithValue(r, w).(state := HeaderValueLws, nread := n));
    RememberedList(p.flags, h, l);
  }

  // Lengths.

  predicate IsDigit(s: Symbol) { s.Byte? && IsNum(s.c) }

  lemma DigitsSnoc(v: seq<Symbol>, s: Symbol)
    ensures Digits(v + [s]) == if Digits(v) == |v| && IsDigit(s) then |v| + 1 else Digits(v)
  {
    if v == [] {
      assert ([] + [s])[1..] == [];
    } else {
      assert (v + [s])[1..] == v[1..] + [s];
      DigitsSnoc(v[1..], s);
    }
  }

  /** The variables while a length is read: within its digits, or in the white space after them. */
  function LengthState(r: ValueState, v: seq<Symbol>): ValueState {
    r.(header := if Digits(v) == |v| then HContentLengthNum else HContentLengthWs, contentLength := LengthValue(v))
  }

  lemma LengthByte(cfg: Config, v: ValueState, s: Symbol)
    requires SymbolOk(s) && v.index == 0 && (v.header == HContentLengthNum || v.header == HContentLengthWs)
    ensures TakeSymbol(cfg, v, s) ==
            if Padding(s) then Took(v.(header := HContentLengthWs))
            else if v.header == HContentLengthNum && IsDigit(s) && v.contentLength <= DECIMAL_LIMIT
            then Took(v.(contentLength := v.contentLength * 10 + Digit(s.c)))
            else Rejected(InvalidContentLength)
  {
    hide Lower;
  }

  lemma LengthTextSnoc(v: seq<Symbol>, s: Symbol)
    requires v != []
    ensures LengthText(v + [s]) <==>
            && LengthText(v)
            && (Padding(s) || (Digits(v) == |v| && IsDigit(s) && LengthValue(v) <= DECIMAL_LIMIT))
    ensures LengthText(v + [s]) ==>
              LengthValue(v + [s]) == if Padding(s) then LengthValue(v) else LengthValue(v) * 10 + Digit(s.c)
    ensures Padding(s) ==> !IsDigit(s)
  {
    hide DecimalValue, Digits, DecimalFits, Padding;
    var w := v + [s];
    DigitsSnoc(v, s);
    SpaceIsNoDigit(s);
    assert forall i :: 0 <= i < |v| ==> w[i] == v[i];
    if Digits(v) == |v| && IsDigit(s) {
      assert v[..|v|] == v && w[..|w|] == w && Chars(w) == Chars(v) + [s.c];
      FitsMore(Chars(v), s.c);
      assert !Padding(w[|v|]);
    } else {
      assert w[..Digits(v)] == v[..Digits(v)];
      assert Digits(v) == 0 || Digits(v) <= |v|;
      assert w[|v|] == s;
    }
  }

  lemma SpaceIsNoDigit(s: Symbol)
    ensures Padding(s) ==> !IsDigit(s)
  {
  }

  lemma FitsMore(d: seq<octet>, ch: octet)
    requires d != [] && Decimal(d) && IsNum(ch)
    ensures Decimal(d + [ch]) && (DecimalFits(d + [ch]) <==> DecimalValue(d) <= DECIMAL_LIMIT)
    ensures DecimalValue(d + [ch]) == DecimalValue(d) * 10 + Digit(ch)
    ensures DecimalFits(d + [ch]) ==> DecimalFits(d)
  {
    hide DecimalValue;
    DecimalSnoc(d, ch);
    assert (d + [ch])[..|d|] == d;
    DecimalMonotonic(d, |d| - 1);
  }

  /** Any value that starts with a digit: taken exactly when it is a length as above, and then read as that. */
  lemma {:induction false} LengthTake(cfg: Config, r: ValueState, v: seq<Symbol>)
    requires v != [] && SymbolsOk(v) && IsDigit(v[0])
    requires r.header == HContentLengthNum && r.index == 0 && r.contentLength == Digit(v[0].c)
    ensures TakeAll(cfg, r, v[1..]) == if LengthText(v) then Took(LengthState(r, v)) else Rejected(InvalidContentLength)
  {
    hide LengthText, LengthValue, TakeSymbol, Padding, SymbolOk, Digits;
    var n := |v| - 1;
    if n == 0 {
      OneLength(r, v);
      assert v[1..] == [];
    } else {
      LengthTake(cfg, r, v[..n]);
      assert v[..n][1..] == v[1..][..n - 1] && v == v[..n] + [v[n]];
      LengthTextSnoc(v[..n], v[n]);
      DigitsSnoc(v[..n], v[n]);
      LengthByte(cfg, LengthState(r, v[..n]), v[n]);
    }
  }

  lemma OneLength(r: ValueState, v: seq<Symbol>)
    requires |v| == 1 && IsDigit(v[0])
    ensures Digits(v) == 1 && LengthText(v) && LengthValue(v) == Digit(v[0].c)
  {
    assert v[1..] == [] && v[..1] == v;
    assert Chars(v) == [v[0].c] && [v[0].c][..0] == [];
  }

  lemma LengthStart(p: Parser, ch: octet)
    requires p.headerState.HContentLength?
    ensures SwitchValueStart(p, ch) ==
            if !IsNum(ch) then Fail(InvalidContentLength)
            else if p.flags.contentLength then Fail(UnexpectedContentLength)
            else Next(p.(state := HeaderValue, index := 0, flags := p.flags.(contentLength := true),
                         contentLength := Digit(ch), headerState := HContentLengthNum), [Mark(Value)])
  {
    hide IsNum, Digit, Lower;
  }

  lemma LengthResumed(r: Parser, w: ValueState, n: nat)
    requires w.header == HContentLengthNum || w.header == HContentLengthWs
    ensures Resumed(WithValue(r, w).(state := HeaderValueLws, nread := n))
         == WithValue(r, w).(state := HeaderFieldStart, nread := n)
  {
  }

  lemma LengthInValue()
    ensures InValue(HContentLengthNum)
  {
  }

  lemma LengthDigits(v: seq<Symbol>)
    requires LengthText(v)
    ensures v != [] && IsDigit(v[0])
  {
  }

  /** A Content-Length line leaves its value, if it has one and it is the first. */
  lemma LengthLine(cfg: Config, p: Parser, t: seq<Event>, h: Header) returns (q: Parser)
    requires Limited(cfg, p) && p.state.HeaderFieldStart? && HeaderOk(h)
    requires IsLength(h) && LengthText(h.value) && !p.flags.contentLength
    ensures Leaves(p, h, q) && Passes(cfg, p, t, HeaderText(h), q, LineTrace(t, h))
  {
    hide Leads, Push, Folded, SwitchValueStart, TakeAll, Passes, LineTrace, Tokens, SymbolsText, Resumed, HeaderText,
      Remembered, LengthText, LengthValue, IsNum, Digit, IsHeaderChar, NameMatcher, InValue;
    OtherNames();
    LengthDigits(h.value);
    var c := LeadsNamePart(cfg, p, t, h.name);
    var m := c.nread + |SymbolsText(h.lead)| + 1;
    var ch := h.value[0].c;
    LengthStart(c.(nread := m), ch);
    LengthInValue();
    var r := SwitchValueStart(c.(nread := m), ch).p;
    LengthTake(cfg, ValueOf(r), h.value);
    var w := LengthState(ValueOf(r), h.value);
    FinishLine(cfg, p, t, h, c, r, w);
    var n := p.nread + |HeaderText(h)|;
    LengthResumed(r, w, n);
    q := Resumed(WithValue(r, w).(state := HeaderValueLws, nread := n));
    RememberedLength(p.flags, h);
  }

  // Lengths that are refused.

  /** Whatever starts a line, reading `text` and that fails. */
  ghost predicate Refuses(cfg: Config, p: Parser, t: seq<Event>, text: seq<octet>) {
    forall rest | StartsLine(rest) :: Run(cfg, Going(p, t), text + rest) == Failed
  }

  lemma FailsThere(cfg: Config, p: Parser, t: seq<Event>, text: seq<octet>, q: Parser, u: seq<Event>, more: seq<octet>)
    requires Leads(cfg, p, t, text, q, u) && more != []
    requires q.nread <= cfg.maxHeaderSize ==> StepByte(cfg, q, u, more[0]) == Failed
    ensures Run(cfg, Going(p, t), text + more) == Failed
  {
    hide Leads, Run, StepByte;
    LeadsOn(cfg, p, t, text, q, u, more);
    assert more == [more[0]] + more[1..];
    if q.nread <= cfg.maxHeaderSize {
      RunOne(cfg, q, u, more[0]);
      RunConcat(cfg, Going(q, u), [more[0]], more[1..]);
      RunStopped(cfg, Failed, more[1..]);
    }
  }

  /** A byte of a header line that is an error, or one too many. */
  lemma FailsHere(cfg: Config, q: Parser, u: seq<Event>, ch: octet)
    requires Limited(cfg, q) && q.state.ParsingHeader() && Exec(cfg, q.(nread := q.nread + 1), ch).Fail?
    ensures StepByte(cfg, q, u, ch) == Failed
  {
    hide Exec, StepByte, Counted;
    if q.nread == cfg.maxHeaderSize {
      StepOver(cfg, q, u, ch);
    } else {
      CountOne(cfg, q);
      StepFail(cfg, q, u, ch);
    }
  }

  lemma {:induction false} TakeRejected(cfg: Config, p: Parser, t: seq<Event>, x: seq<octet>, w: seq<Symbol>)
    requires Limited(cfg, p) && p.state.HeaderValue? && SymbolsOk(w) && InValue(p.headerState)
    requires TakeAll(cfg, ValueOf(p), w).Rejected?
    ensures Run(cfg, Going(p, Push(t, Data(Value, x))), SymbolsText(w)) == Failed
  {
    hide Leads, Push, StepByte, Run, ValueByte, InValue, SymbolOk, SymbolText, Exec;
    var n := |w| - 1;
    var u := Push(t, Data(Value, x));
    if TakeAll(cfg, ValueOf(p), w[..n]).Rejected? {
      TakeRejected(cfg, p, t, x, w[..n]);
      RunConcat(cfg, Going(p, u), SymbolsText(w[..n]), SymbolText(w[n]));
      RunStopped(cfg, Failed, SymbolText(w[n]));
    } else {
      var v := TakeAll(cfg, ValueOf(p), w[..n]).v;
      var q := WithValue(p, v).(nread := p.nread + |SymbolsText(w[..n])|);
      LeadsSymbols(cfg, p, t, x, w[..n]);
      RejectedByte(w[n]);
      if q.nread <= cfg.maxHeaderSize {
        assert ValueOf(q) == v;
        ExecValue(cfg, q.(nread := q.nread + 1), w[n].c);
        FailsHere(cfg, q, Push(t, Data(Value, x + Chars(w[..n]))), w[n].c);
      }
      FailsThere(cfg, p, u, SymbolsText(w[..n]), q, Push(t, Data(Value, x + Chars(w[..n]))), SymbolText(w[n]));
    }
  }

  lemma RejectedByte(s: Symbol)
    requires SymbolOk(s)
    ensures s.Byte? ==> SymbolText(s) == [s.c] && s.c != CR && s.c != LF
    ensures SymbolText(s) != []
  {
    hide IsHeaderChar;
  }

  lemma ExecNoLength(cfg: Config, p: Parser, ch: octet)
    requires p.state.HeaderValueDiscardLws? && p.headerState.HContentLength? && !Blank(ch)
    ensures Exec(cfg, p, ch).Fail?
  {
    hide LineFlags;
  }

  lemma NoLengthRefused(cfg: Config, p: Parser, t: seq<Event>, h: Header, c: Parser, rest: seq<octet>)
    requires Limited(cfg, p) && HeaderOk(h) && h.value == [] && StartsLine(rest)
    requires c.state.HeaderValueDiscardWs? && c.headerState.HContentLength?
    requires Leads(cfg, p, t, h.name + [':'], c, Push(t, Data(Field, h.name)))
    ensures Run(cfg, Going(p, t), HeaderText(h) + rest) == Failed
  {
    hide Leads, Push, Run, Exec, NameText, StepByte;
    var u := Push(t, Data(Field, h.name));
    var lead := h.name + [':'] + SymbolsText(h.lead);
    var a := c.(nread := c.nread + |SymbolsText(h.lead)|);
    var e := a.(state := HeaderValueDiscardLws, nread := a.nread + 2);
    LeadsToValue(cfg, p, t, h, c);
    if a.nread <= cfg.maxHeaderSize {
      LeadsEmptyLine(cfg, a, u);
    }
    LeadsConcat(cfg, p, t, lead, [CR, LF], a, u, e, u);
    assert lead + SymbolsText([]) == lead && HeaderText(h) == lead + [CR, LF];
    ExecNoLength(cfg, e.(nread := e.nread + 1), rest[0]);
    if e.nread <= cfg.maxHeaderSize {
      FailsHere(cfg, e, u, rest[0]);
    }
    FailsThere(cfg, p, t, HeaderText(h), e, u, rest);
  }

  /** The value of a length line from its first byte. */
  lemma LengthRejected(cfg: Config, a: Parser, u: seq<Event>, value: seq<Symbol>, more: seq<octet>)
    requires Limited(cfg, a) && a.state.HeaderValueDiscardWs? && a.headerState.HContentLength?
    requires value != [] && SymbolsOk(value) && value[0].Byte? && !Blank(value[0].c)
    requires !LengthText(value) || a.flags.contentLength
    ensures Run(cfg, Going(a, u), SymbolsText(value) + more) == Failed
  {
    hide Leads, Push, Run, Exec, StepByte, SwitchValueStart, TakeAll, LengthText, SymbolsText, IsHeaderChar, InValue;
    var ch, w := value[0].c, value[1..];
    var text := SymbolsText(w) + more;
    SymbolsTextFirst(value);
    assert SymbolOk(value[0]);
    assert SymbolsText(value) + more == [ch] + text;
    LengthStart(a.(nread := a.nread + 1), ch);
    LeadsNothing(cfg, a, u);
    assert [] + ([ch] + text) == [ch] + text;
    ExecValueStart(cfg, a.(nread := a.nread + 1), ch);
    if !IsNum(ch) || a.flags.contentLength {
      FailsHere(cfg, a, u, ch);
      FailsThere(cfg, a, u, [], a, u, [ch] + text);
    } else {
      var r := SwitchValueStart(a.(nread := a.nread + 1), ch).p;
      var v := Push(u, Data(Value, [ch]));
      if r.nread <= cfg.maxHeaderSize {
        RunValueFirst(cfg, a, u, ch, r);
        RunOne(cfg, a, u, ch);
      }
      LeadsStep(cfg, a, u, ch, r, v);
      LeadsOn(cfg, a, u, [ch], r, v, text);
      if r.nread <= cfg.maxHeaderSize {
        LengthInValue();
        LengthTake(cfg, ValueOf(r), value);
        TakeRejected(cfg, r, u, [ch], w);
        RunConcat(cfg, Going(r, v), SymbolsText(w), more);
        RunStopped(cfg, Failed, more);
      }
    }
  }

  /** Any other Content-Length line is an error: an empty one, one that is no length, and a second one. */
  lemma LengthRefused(cfg: Config, p: Parser, t: seq<Event>, h: Header)
    requires Limited(cfg, p) && p.state.HeaderFieldStart? && HeaderOk(h)
    requires IsLength(h) && (!LengthText(h.value) || p.flags.contentLength)
    ensures Refuses(cfg, p, t, HeaderText(h))
  {
    hide Leads, Push, Run, Folded, NameText, LengthText, NameMatcher, SymbolsText, SymbolsOk;
    var c := LeadsNamePart(cfg, p, t, h.name);
    forall rest | StartsLine(rest)
      ensures Run(cfg, Going(p, t), HeaderText(h) + rest) == Failed
    {
      if h.value == [] {
        NoLengthRefused(cfg, p, t, h, c, rest);
      } else {
        var u := Push(t, Data(Field, h.name));
        var lead, more := h.name + [':'] + SymbolsText(h.lead), SymbolsText(h.value) + ([CR, LF] + rest);
        var a := c.(nread := c.nread + |SymbolsText(h.lead)|);
        LeadsToValue(cfg, p, t, h, c);
        assert HeaderText(h) + rest == lead + more;
        LeadsOn(cfg, p, t, lead, a, u, more);
        if a.nread <= cfg.maxHeaderSize {
          LengthRejected(cfg, a, u, h.value, [CR, LF] + rest);
        }
      }
    }
  }

  // Any line.

  /** A length is taken once, and only if it is one. */
  predicate Acceptable(seen: bool, h: Header) { IsLength(h) ==> !seen && LengthText(h.value) }

  /** Any header line in the grammar is delivered once, and leaves what `Leaves` says, if it is acceptable; it is
      refused if not. */
  lemma LineRead(cfg: Config, p: Parser, t: seq<Event>, h: Header) returns (q: Parser)
    requires Limited(cfg, p) && p.state.HeaderFieldStart? && HeaderOk(h)
    ensures if Acceptable(p.flags.contentLength, h)
            then Leaves(p, h, q) && Passes(cfg, p, t, HeaderText(h), q, LineTrace(t, h))
            else Refuses(cfg, p, t, HeaderText(h))
  {
    hide Leaves, Passes, Refuses, LineTrace, HeaderText, Folded, LengthText, Tokens, SymbolsOk;
    q := p;
    if !Acceptable(p.flags.contentLength, h) {
      LengthRefused(cfg, p, t, h);
    } else if IsLength(h) {
      q := LengthLine(cfg, p, t, h);
    } else if h.value == [] {
      q := EmptyLineLeaves(cfg, p, t, h);
    } else if ListName(Folded(h.name), Codings) {
      q := ListLine(cfg, p, t, h, Codings);
    } else if ListName(Folded(h.name), Options) {
      q := ListLine(cfg, p, t, h, Options);
    } else {
      forall l: Listing
        ensures !ListName(Folded(h.name), l)
      {
        if l.Codings? {
        }
      }
      q := GeneralLine(cfg, p, t, h);
    }
  }

  // Lists of header lines.

  predicate HeadersOk(hs: seq<Header>) { forall i :: 0 <= i < |hs| ==> HeaderOk(hs[i]) }

  predicate LengthsOk(seen: bool, hs: seq<Header>)
    decreases hs
  {
    hs != [] ==> Acceptable(seen, hs[0]) && LengthsOk(seen || IsLength(hs[0]), hs[1..])
  }

  function HeadersText(hs: seq<Header>): seq<octet> {
    if hs == [] then [] else HeaderText(hs[0]) + HeadersText(hs[1..])
  }

  function HeadersCalls(hs: seq<Header>): seq<Event> {
    if hs == [] then [] else HeaderCalls(hs[0]) + HeadersCalls(hs[1..])
  }

  predicate Saying(hs: seq<Header>, k: Keyword) { exists h <- hs :: Says(h, k) }

  predicate Upgrading(hs: seq<Header>) { exists h <- hs :: IsUpgrade(h) }

  predicate Measured(hs: seq<Header>) { exists h <- hs :: IsLength(h) }

  predicate Prefixed(hs: seq<Header>) { exists h <- hs :: IsPrefixed(h) }

  /** The last length. */
  function LengthOf(hs: seq<Header>): nat {
    if hs == [] then 0 else if Measured(hs[1..]) || !IsLength(hs[0]) then LengthOf(hs[1..])
    else LengthValue(hs[0].value)
  }

  function RememberedAll(f: Flags, hs: seq<Header>): Flags {
    var g := OptionFlags(f, Saying(hs, Close), Saying(hs, KeepAlive), Saying(hs, Upgrade));
    g.(chunked := g.chunked || Saying(hs, Chunked), upgrade := g.upgrade || Upgrading(hs),
       contentLength := g.contentLength || Measured(hs))
  }

  /** What header lines leave. */
  predicate AllLeave(p: Parser, hs: seq<Header>, q: Parser) {
    q == p.(headerState := q.headerState, index := q.index,
            nread := p.nread + |HeadersText(hs)|, usesTransferEncoding := p.usesTransferEncoding || Prefixed(hs),
            contentLength := if Measured(hs) then LengthOf(hs) else p.contentLength,
            flags := RememberedAll(p.flags, hs))
  }

  lemma AnyOf(hs: seq<Header>)
    requires hs != []
    ensures forall k: Keyword :: Saying(hs, k) <==> Says(hs[0], k) || Saying(hs[1..], k)
    ensures Upgrading(hs) <==> IsUpgrade(hs[0]) || Upgrading(hs[1..])
    ensures Measured(hs) <==> IsLength(hs[0]) || Measured(hs[1..])
    ensures Prefixed(hs) <==> IsPrefixed(hs[0]) || Prefixed(hs[1..])
  {
    hide Says, IsUpgrade, IsLength, IsPrefixed;
    assert hs == [hs[0]] + hs[1..];
  }

  lemma FlagsOf(f: Flags, hs: seq<Header>)
    requires hs != []
    ensures RememberedAll(Remembered(f, hs[0]), hs[1..]) == RememberedAll(f, hs)
  {
    AnyOf(hs);
    hide Says, Saying, IsUpgrade, IsLength, Upgrading, Measured;
  }

  lemma NothingLeaves(p: Parser)
    ensures AllLeave(p, [], p)
  {
  }

  lemma LeaveMore(p: Parser, hs: seq<Header>, q: Parser, r: Parser)
    requires hs != [] && p.state.HeaderFieldStart? && Leaves(p, hs[0], q) && AllLeave(q, hs[1..], r)
    ensures AllLeave(p, hs, r)
  {
    FlagsOf(p.flags, hs);
    AnyOf(hs);
    hide Says, Saying, IsUpgrade, IsLength, IsPrefixed, Upgrading, Measured, Prefixed, Remembered, RememberedAll,
      HeaderText, LengthValue;
  }

  /** No header name is open at the end of the trace. */
  predicate NoName(t: seq<Event>) { t != [] ==> !(t[|t| - 1].Data? && t[|t| - 1].kind == Field) }

  lemma LineTraceIs(t: seq<Event>, h: Header)
    requires NoName(t)
    ensures LineTrace(t, h) == t + HeaderCalls(h) && NoName(t + HeaderCalls(h))
  {
    assert t + [Data(Field, h.name)] + [Data(Value, Chars(h.value))] == t + HeaderCalls(h);
  }

  lemma LineStarts(h: Header, more: seq<octet>)
    requires HeaderOk(h)
    ensures StartsLine(HeaderText(h) + more)
  {
    assert IsToken(h.name[0]);
    assert (HeaderText(h) + more)[0] == h.name[0];
  }

  lemma HeadersStart(hs: seq<Header>, rest: seq<octet>)
    requires HeadersOk(hs) && StartsLine(rest)
    ensures StartsLine(HeadersText(hs) + rest)
  {
    hide StartsLine, HeaderText, HeaderOk;
    if hs == [] {
      assert [] + rest == rest;
    } else {
      LineStarts(hs[0], HeadersText(hs[1..]) + rest);
      Assoc(HeaderText(hs[0]), HeadersText(hs[1..]), rest);
    }
  }

  lemma Assoc<T>(a: seq<T>, b: seq<T>, c: seq<T>)
    ensures (a + b) + c == a + (b + c)
  {
  }

  lemma PassesNothing(cfg: Config, p: Parser, t: seq<Event>)
    requires Limited(cfg, p)
    ensures Passes(cfg, p, t, [], p, t)
  {
    hide Run;
    forall rest | StartsLine(rest)
      ensures Run(cfg, Going(p, t), [] + rest) == Run(cfg, Going(p, t), rest)
    {
      assert [] + rest == rest;
    }
  }

  lemma PassesMore(cfg: Config, p: Parser, t: seq<Event>, a: seq<octet>, q: Parser, u: seq<Event>,
                   hs: seq<Header>, r: Parser, v: seq<Event>)
    requires Passes(cfg, p, t, a, q, u) && HeadersOk(hs) && r.nread == q.nread + |HeadersText(hs)|
    requires q.nread <= cfg.maxHeaderSize ==> Passes(cfg, q, u, HeadersText(hs), r, v)
    ensures Passes(cfg, p, t, a + HeadersText(hs), r, v)
  {
    hide Run, StartsLine, HeadersText, HeadersOk;
    var b := HeadersText(hs);
    forall rest | StartsLine(rest)
      ensures Run(cfg, Going(p, t), a + b + rest)
           == if r.nread <= cfg.maxHeaderSize then Run(cfg, Going(r, v), rest) else Failed
    {
      HeadersStart(hs, rest);
      Assoc(a, b, rest);
    }
  }

  lemma RefusesMore(cfg: Config, p: Parser, t: seq<Event>, a: seq<octet>, q: Parser, u: seq<Event>, hs: seq<Header>)
    requires Passes(cfg, p, t, a, q, u) && HeadersOk(hs)
    requires q.nread <= cfg.maxHeaderSize ==> Refuses(cfg, q, u, HeadersText(hs))
    ensures Refuses(cfg, p, t, a + HeadersText(hs))
  {
    hide Run, StartsLine, HeadersText, HeadersOk;
    var b := HeadersText(hs);
    forall rest | StartsLine(rest)
      ensures Run(cfg, Going(p, t), a + b + rest) == Failed
    {
      HeadersStart(hs, rest);
      Assoc(a, b, rest);
    }
  }

  lemma RefusesFirst(cfg: Config, p: Parser, t: seq<Event>, a: seq<octet>, hs: seq<Header>)
    requires Refuses(cfg, p, t, a) && HeadersOk(hs)
    ensures Refuses(cfg, p, t, a + HeadersText(hs))
  {
    hide Run, StartsLine, HeadersText, HeadersOk;
    var b := HeadersText(hs);
    forall rest | StartsLine(rest)
      ensures Run(cfg, Going(p, t), a + b + rest) == Failed
    {
      HeadersStart(hs, rest);
      Assoc(a, b, rest);
    }
  }

  /** What the lines would leave, but for the variables of the matcher. */
  function Leaving(p: Parser, hs: seq<Header>): Parser {
    p.(nread := p.nread + |HeadersText(hs)|, usesTransferEncoding := p.usesTransferEncoding || Prefixed(hs),
       contentLength := if Measured(hs) then LengthOf(hs) else p.contentLength, flags := RememberedAll(p.flags, hs))
  }

  lemma LeavingLeaves(p: Parser, hs: seq<Header>)
    ensures AllLeave(p, hs, Leaving(p, hs))
  {
    hide Prefixed, Measured, LengthOf, RememberedAll, HeadersText;
  }

  lemma LeavesCount(p: Parser, h: Header, q: Parser)
    requires Leaves(p, h, q)
    ensures q.nread == p.nread + |HeaderText(h)| && q.state.HeaderFieldStart?
    ensures q.flags.contentLength == (p.flags.contentLength || IsLength(h))
  {
    hide HeaderText, IsLength, Says, IsUpgrade;
  }

  lemma AllLeaveCount(p: Parser, hs: seq<Header>, q: Parser)
    requires AllLeave(p, hs, q)
    ensures q.nread == p.nread + |HeadersText(hs)| && q.state == p.state
  {
    hide HeadersText, RememberedAll;
  }

  /** Any list of header lines in the grammar, within the limit: each is delivered once, in order, and they leave what
      `AllLeave` says, if their lengths are acceptable; they are refused if not. */
  lemma {:induction false} HeadersRead(cfg: Config, p: Parser, t: seq<Event>, hs: seq<Header>) returns (q: Parser)
    requires Limited(cfg, p) && p.state.HeaderFieldStart? && HeadersOk(hs) && NoName(t)
    ensures if LengthsOk(p.flags.contentLength, hs)
            then AllLeave(p, hs, q) && Passes(cfg, p, t, HeadersText(hs), q, t + HeadersCalls(hs))
            else Refuses(cfg, p, t, HeadersText(hs))
    decreases hs
  {
    hide HeaderOk, Leaves, AllLeave, Passes, Refuses, Acceptable, HeaderText, HeaderCalls, NoName, LineTrace, IsLength;
    if hs == [] {
      q := p;
      NothingLeaves(p);
      PassesNothing(cfg, p, t);
      assert t + [] == t;
    } else {
      var h, tail := hs[0], hs[1..];
      var u := t + HeaderCalls(h);
      var r := LineRead(cfg, p, t, h);
      LineTraceIs(t, h);
      if !Acceptable(p.flags.contentLength, h) {
        RefusesFirst(cfg, p, t, HeaderText(h), tail);
        q := r;
      } else {
        LeavesCount(p, h, r);
        q := Leaving(r, tail);
        LeavingLeaves(r, tail);
        if r.nread <= cfg.maxHeaderSize {
          q := HeadersRead(cfg, r, u, tail);
        }
        if LengthsOk(r.flags.contentLength, tail) {
          LeaveMore(p, hs, r, q);
          AllLeaveCount(r, tail, q);
          Assoc(t, HeaderCalls(h), HeadersCalls(tail));
          PassesMore(cfg, p, t, HeaderText(h), r, u, tail, q, u + HeadersCalls(tail));
        } else {
          RefusesMore(cfg, p, t, HeaderText(h), r, u, tail);
        }
      }
    }
  }
}
