/** The rest of a request line after the method: the target, as UrlSections reads it, and the version. */
module HttpRequestLine {
  import opened Wrappers
  import opened HttpTypes
  import opened HttpSwitch
  import opened HttpTrace
  import opened HttpRun
  import opened HttpBulk
  import opened HttpSteps
  import opened HttpLeads
  import opened UrlSections

  // The target.

  /** Bytes that neither end a target nor come before it. */
  predicate TargetText(t: seq<octet>) {
    t != [] && forall i :: 0 <= i < |t| ==> t[i] != ' ' && t[i] != CR && t[i] != LF
  }

  /** A target may end here: not within its schema, nor where the server must follow. */
  predicate MayEnd(s: State) {
    || s.ReqServer? || s.ReqServerWithAt? || s.ReqPath? || s.ReqQueryStringStart? || s.ReqQueryString?
    || s.ReqFragmentStart? || s.ReqFragment?
  }

  /** A complete target. */
  predicate IsTarget(t: seq<octet>, connect: bool) {
    TargetText(t) && Read(t, connect).Some? && MayEnd(StateOf(Read(t, connect).value, connect))
  }

  lemma ExecUrl(cfg: Config, p: Parser, ch: octet)
    requires PartOf(p.state).PUrl?
    ensures Exec(cfg, p, ch) == SwitchUrl(p, ch)
  {
    hide ParseUrlChar;
  }

  lemma UrlStates(s: State)
    requires PartOf(s).PUrl?
    ensures s == ReqSpacesBeforeUrl || InitialMarks(s) == map[Url := 0]
    ensures s.ParsingHeader()
  {
  }

  lemma FirstUrlByte(p: Parser, ch: octet)
    requires p.state.ReqSpacesBeforeUrl? && ch != ' '
    ensures var s := ParseUrlChar(StateOf(NOTHING, p.verb == CONNECT), ch);
            SwitchUrl(p, ch) == if s == Dead then Fail(InvalidUrl) else Next(p.(state := s), [Mark(Url)])
  {
    hide ParseUrlChar;
  }

  lemma UrlByte(p: Parser, ch: octet)
    requires PartOf(p.state).PUrl? && !p.state.ReqSpacesBeforeUrl? && ch != ' ' && ch != CR && ch != LF
    ensures var s := ParseUrlChar(p.state, ch);
            SwitchUrl(p, ch) == if s == Dead then Fail(InvalidUrl) else Next(p.(state := s), [])
  {
    hide ParseUrlChar;
  }

  lemma StateOfPart(u: Sections, connect: bool)
    ensures PartOf(StateOf(u, connect)).PUrl?
    ensures StateOf(u, connect) == ReqSpacesBeforeUrl ==> u.path == [] && u.schema == [] && !u.qmark && !connect
  {
  }

  /** Nothing else is in the state before the URL. */
  lemma ReadOn(t: seq<octet>, connect: bool)
    requires t != [] && Read(t, connect).Some?
    ensures Valid(Read(t, connect).value, connect) && StateOf(Read(t, connect).value, connect) != ReqSpacesBeforeUrl
  {
    hide Read, Valid, Append, ParseUrlChar, StateOf;
    var u := Read(t, connect).value;
    ReadIff(t, connect, u);
    if StateOf(u, connect) == ReqSpacesBeforeUrl {
      OnlyNothing(u, connect);
      NothingRendered(u, connect);
    }
  }

  lemma OnlyNothing(u: Sections, connect: bool)
    requires Valid(u, connect) && StateOf(u, connect) == ReqSpacesBeforeUrl
    ensures u == NOTHING
  {
    hide IsUrlChar, IsAlpha, IsUserinfoChar, ServerText;
  }

  /** The machine that reads the target is the one that takes it apart. */
  lemma ReadSnoc(t: seq<octet>, ch: octet, connect: bool)
    ensures Read(t + [ch], connect) ==
            match Read(t, connect)
            case None => None
            case Some(u) =>
              var s := ParseUrlChar(StateOf(u, connect), ch);
              if s == Dead then None else Some(Append(u, s, ch))
  {
    hide ParseUrlChar, StateOf, Append;
    assert (t + [ch])[..|t|] == t;
  }

  lemma ReadState(t: seq<octet>, ch: octet, connect: bool)
    requires Read(t + [ch], connect).Some?
    ensures Read(t, connect).Some?
    ensures StateOf(Read(t + [ch], connect).value, connect) ==
            ParseUrlChar(StateOf(Read(t, connect).value, connect), ch)
  {
    hide Read, ParseUrlChar, StateOf, Append, Valid, Fits;
    ReadSnoc(t, ch, connect);
    var u := Read(t, connect).value;
    ReadIff(t, connect, u);
    StepFits(u, connect, ch);
    AppendState(u, connect, ParseUrlChar(StateOf(u, connect), ch), ch);
  }

  /** The parser within a target. */
  function InTarget(p: Parser, t: seq<octet>): Parser
    requires Read(t, p.verb == CONNECT).Some?
  {
    p.(state := StateOf(Read(t, p.verb == CONNECT).value, p.verb == CONNECT), nread := p.nread + |t|)
  }

  lemma TargetFirst(cfg: Config, p: Parser, u: seq<Event>, ch: octet)
    requires cfg.maxHeaderSize + 1 < TWO_TO_32 && p.nread + 1 <= cfg.maxHeaderSize
    requires p.state.ReqSpacesBeforeUrl? && ch != ' '
    ensures var g := StepByte(cfg, p, u, ch);
            if Read([ch], p.verb == CONNECT).None? then g == Failed
            else g == Going(InTarget(p, [ch]), Push(u, Data(Url, [ch])))
  {
    hide Exec, StepByte, Read, ParseUrlChar, StateOf, Append, Counted, Push;
    var connect := p.verb == CONNECT;
    assert [] + [ch] == [ch];
    ReadSnoc([], ch, connect);
    ReadNothing(connect);
    if Read([ch], connect).Some? {
      ReadState([], ch, connect);
    }
    CountOne(cfg, p);
    var q := p.(nread := p.nread + 1);
    ExecUrl(cfg, q, ch);
    FirstUrlByte(q, ch);
    var x := SwitchUrl(q, ch);
    if x.Next? {
      StepData(cfg, p, u, ch, x.p, Url, [Mark(Url)]);
    } else {
      StepFail(cfg, p, u, ch);
    }
  }

  lemma ReadNothing(connect: bool)
    ensures Read([], connect) == Some(NOTHING)
  {
  }

  lemma TargetByte(cfg: Config, p: Parser, u: seq<Event>, t: seq<octet>, ch: octet)
    requires cfg.maxHeaderSize + 1 < TWO_TO_32 && p.nread + |t| + 1 <= cfg.maxHeaderSize
    requires t != [] && ch != ' ' && ch != CR && ch != LF && Read(t, p.verb == CONNECT).Some?
    ensures var g := StepByte(cfg, InTarget(p, t), u, ch);
            if Read(t + [ch], p.verb == CONNECT).None? then g == Failed
            else g == Going(InTarget(p, t + [ch]), Push(u, Data(Url, [ch])))
  {
    hide Exec, StepByte, Read, ParseUrlChar, StateOf, Append, Counted, Push, PartOf, Valid;
    var connect := p.verb == CONNECT;
    ReadSnoc(t, ch, connect);
    ReadOn(t, connect);
    StateOfPart(Read(t, connect).value, connect);
    if Read(t + [ch], connect).Some? {
      ReadState(t, ch, connect);
    }
    var before := InTarget(p, t);
    UrlStates(before.state);
    CountOne(cfg, before);
    var q := before.(nread := before.nread + 1);
    ExecUrl(cfg, q, ch);
    UrlByte(q, ch);
    var x := SwitchUrl(q, ch);
    if x.Next? {
      StepData(cfg, before, u, ch, x.p, Url, []);
    } else {
      StepFail(cfg, before, u, ch);
    }
  }

  lemma {:induction false} RunTarget(cfg: Config, p: Parser, u: seq<Event>, t: seq<octet>)
    requires cfg.maxHeaderSize + 1 < TWO_TO_32 && p.nread + |t| <= cfg.maxHeaderSize
    requires p.state.ReqSpacesBeforeUrl? && TargetText(t)
    ensures var g := Run(cfg, Going(p, u), t);
            if Read(t, p.verb == CONNECT).None? then g == Failed
            else g == Going(InTarget(p, t), Push(u, Data(Url, t)))
  {
    hide StepByte, Run, Read, Push;
    var n := |t| - 1;
    if n == 0 {
      assert t == [t[0]];
      RunOne(cfg, p, u, t[0]);
      TargetFirst(cfg, p, u, t[0]);
    } else {
      RunTarget(cfg, p, u, t[..n]);
      assert t == t[..n] + [t[n]];
      RunLast(cfg, Going(p, u), t[..n], t[n]);
      ReadSnoc(t[..n], t[n], p.verb == CONNECT);
      if Read(t[..n], p.verb == CONNECT).Some? {
        TargetByte(cfg, p, Push(u, Data(Url, t[..n])), t[..n], t[n]);
        PushTwice(u, Url, t[..n], [t[n]]);
      }
    }
  }

  lemma EndTarget(p: Parser)
    requires PartOf(p.state).PUrl? && !p.state.ReqSpacesBeforeUrl?
    ensures SwitchUrl(p, ' ') ==
            if MayEnd(p.state) then Next(p.(state := ReqHttpStart), [Flush(Url)]) else Fail(InvalidUrl)
  {
  }

  /** The space after a target. */
  lemma SpaceByte(cfg: Config, q: Parser, v: seq<Event>)
    requires cfg.maxHeaderSize + 1 < TWO_TO_32 && q.nread + 1 <= cfg.maxHeaderSize
    requires PartOf(q.state).PUrl? && !q.state.ReqSpacesBeforeUrl?
    ensures StepByte(cfg, q, v, ' ') ==
            if MayEnd(q.state) then Going(q.(state := ReqHttpStart, nread := q.nread + 1), Push(v, Data(Url, [])))
            else Failed
  {
    hide Exec, StepByte, Push, PartOf, Counted, MayEnd;
    UrlStates(q.state);
    CountOne(cfg, q);
    var r := q.(nread := q.nread + 1);
    ExecUrl(cfg, r, ' ');
    EndTarget(r);
    if MayEnd(q.state) {
      StepFlush(cfg, q, v, ' ', r.(state := ReqHttpStart), Url);
    } else {
      StepFail(cfg, q, v, ' ');
    }
  }

  /** The parser takes a target, of any length, up to the next space exactly when it is complete and has sections in
      the sense of http_parser_parse_url; it is delivered once. */
  lemma ReadsTarget(cfg: Config, p: Parser, u: seq<Event>, t: seq<octet>)
    requires cfg.maxHeaderSize + 1 < TWO_TO_32 && p.nread + |t| + 1 <= cfg.maxHeaderSize
    requires p.state.ReqSpacesBeforeUrl? && TargetText(t)
    ensures Run(cfg, Going(p, u), t + [' ']) ==
            if IsTarget(t, p.verb == CONNECT)
            then Going(p.(state := ReqHttpStart, nread := p.nread + |t| + 1), Push(u, Data(Url, t)))
            else Failed
  {
    hide StepByte, Run, Read, Push, StateOf, PartOf, Valid, MayEnd, TargetText;
    var connect := p.verb == CONNECT;
    RunTarget(cfg, p, u, t);
    RunLast(cfg, Going(p, u), t, ' ');
    if Read(t, connect).Some? {
      NonEmpty(t);
      ReadOn(t, connect);
      StateOfPart(Read(t, connect).value, connect);
      SpaceByte(cfg, InTarget(p, t), Push(u, Data(Url, t)));
      PushTwice(u, Url, t, []);
      assert t + [] == t;
    }
  }

  lemma NonEmpty(t: seq<octet>)
    requires TargetText(t)
    ensures t != []
  {
  }

  lemma ReadBefore(t: seq<octet>, ch: octet, connect: bool)
    requires Read(t + [ch], connect).Some?
    ensures Read(t, connect).Some?
  {
    hide Read, ParseUrlChar, StateOf, Append;
    ReadSnoc(t, ch, connect);
  }

  lemma TargetCounted(p: Parser, t: seq<octet>)
    requires Read(t, p.verb == CONNECT).Some?
    ensures InTarget(p, t).state.ParsingHeader() && InTarget(p, t).nread == p.nread + |t|
  {
    hide Read, PartOf;
    StateOfPart(Read(t, p.verb == CONNECT).value, p.verb == CONNECT);
    UrlStates(InTarget(p, t).state);
  }

  lemma {:induction false} LeadsTarget(cfg: Config, p: Parser, u: seq<Event>, t: seq<octet>)
    requires Limited(cfg, p) && p.state.ReqSpacesBeforeUrl? && TargetText(t) && Read(t, p.verb == CONNECT).Some?
    ensures Leads(cfg, p, u, t, InTarget(p, t), Push(u, Data(Url, t)))
  {
    hide Leads, StepByte, Run, Read, Push, InTarget;
    var n := |t| - 1;
    var q, v := InTarget(p, t), Push(u, Data(Url, t));
    TargetCounted(p, t);
    if q.nread <= cfg.maxHeaderSize {
      RunTarget(cfg, p, u, t);
    }
    if n == 0 {
      assert t == [t[0]] && [] + [t[0]] == t;
      LeadsNothing(cfg, p, u);
      LeadsMore(cfg, p, u, [], t[0], p, u, q, v);
    } else {
      assert t == t[..n] + [t[n]];
      ReadBefore(t[..n], t[n], p.verb == CONNECT);
      LeadsTarget(cfg, p, u, t[..n]);
      TargetCounted(p, t[..n]);
      LeadsMore(cfg, p, u, t[..n], t[n], InTarget(p, t[..n]), Push(u, Data(Url, t[..n])), q, v);
    }
  }

  /** A complete target and its space. */
  lemma LeadsTargetSpace(cfg: Config, p: Parser, u: seq<Event>, t: seq<octet>)
    requires Limited(cfg, p) && p.state.ReqSpacesBeforeUrl? && IsTarget(t, p.verb == CONNECT)
    ensures Leads(cfg, p, u, t + [' '], p.(state := ReqHttpStart, nread := p.nread + |t| + 1), Push(u, Data(Url, t)))
  {
    hide Leads, StepByte, Run, Read, Push, InTarget, TargetText;
    LeadsTarget(cfg, p, u, t);
    TargetCounted(p, t);
    var r := p.(state := ReqHttpStart, nread := p.nread + |t| + 1);
    if r.nread <= cfg.maxHeaderSize {
      ReadsTarget(cfg, p, u, t);
    }
    LeadsMore(cfg, p, u, t, ' ', InTarget(p, t), Push(u, Data(Url, t)), r, Push(u, Data(Url, t)));
  }

  // The version.

  function VersionText(major: octet, minor: octet): (t: seq<octet>)
    ensures |t| == 10
  {
    ['H', 'T', 'T', 'P', '/', major, '.', minor, CR, LF]
  }

  function VersionState(k: nat): State {
    if k == 0 then ReqHttpStart else if k == 1 then ReqHttpH else if k == 2 then ReqHttpHT
    else if k == 3 then ReqHttpHTT else if k == 4 then ReqHttpHTTP else if k == 5 then ReqHttpMajor
    else if k == 6 then ReqHttpDot
    else if k == 7 then ReqHttpMinor else if k == 8 then ReqHttpEnd else if k == 9 then ReqLineAlmostDone
    else HeaderFieldStart
  }

  /** The parser after `k` bytes of the version. */
  function InVersion(p: Parser, major: octet, minor: octet, k: nat): Parser
    requires IsNum(major) && IsNum(minor)
  {
    p.(state := VersionState(k), nread := p.nread + k,
       major := if k >= 6 then Digit(major) else p.major, minor := if k >= 8 then Digit(minor) else p.minor)
  }

  lemma ExecVersion(cfg: Config, p: Parser, ch: octet)
    requires PartOf(p.state).PVersion?
    ensures Exec(cfg, p, ch) == SwitchRequestVersion(p, ch)
  {
    hide IsNum, Digit;
  }

  lemma VersionPart(k: nat)
    requires k < 10
    ensures PartOf(VersionState(k)).PVersion? && VersionState(k).ParsingHeader() && Live(VersionState(k)) == None
  {
  }

  lemma VersionByte(p: Parser, major: octet, minor: octet, k: nat)
    requires k < 10 && IsNum(major) && IsNum(minor)
    ensures var q := InVersion(p, major, minor, k);
            SwitchRequestVersion(q.(nread := q.nread + 1), VersionText(major, minor)[k]) ==
            Next(InVersion(p, major, minor, k + 1), [])
  {
  }

  lemma VersionStep(cfg: Config, p: Parser, t: seq<Event>, major: octet, minor: octet, k: nat)
    requires cfg.maxHeaderSize + 1 < TWO_TO_32 && p.nread + k + 1 <= cfg.maxHeaderSize
    requires k < 10 && IsNum(major) && IsNum(minor)
    ensures StepByte(cfg, InVersion(p, major, minor, k), t, VersionText(major, minor)[k]) ==
            Going(InVersion(p, major, minor, k + 1), t)
  {
    hide Exec, StepByte, VersionText, VersionState, IsNum, Digit, Counted, PartOf;
    var q := InVersion(p, major, minor, k);
    var ch := VersionText(major, minor)[k];
    VersionPart(k);
    CountOne(cfg, q);
    ExecVersion(cfg, q.(nread := q.nread + 1), ch);
    VersionByte(p, major, minor, k);
    StepQuiet(cfg, q, t, ch, InVersion(p, major, minor, k + 1));
  }

  lemma {:induction false} RunVersion(cfg: Config, p: Parser, t: seq<Event>, major: octet, minor: octet, k: nat)
    requires cfg.maxHeaderSize + 1 < TWO_TO_32 && p.nread + k <= cfg.maxHeaderSize
    requires p.state.ReqHttpStart? && IsNum(major) && IsNum(minor) && k <= 10
    ensures Run(cfg, Going(p, t), VersionText(major, minor)[..k]) == Going(InVersion(p, major, minor, k), t)
  {
    hide StepByte, VersionText, InVersion, IsNum;
    var text := VersionText(major, minor);
    if k == 0 {
      assert text[..0] == [];
      StartVersion(p, major, minor);
    } else {
      RunVersion(cfg, p, t, major, minor, k - 1);
      assert text[..k][..k - 1] == text[..k - 1];
      VersionStep(cfg, p, t, major, minor, k - 1);
    }
  }

  lemma StartVersion(p: Parser, major: octet, minor: octet)
    requires p.state.ReqHttpStart? && IsNum(major) && IsNum(minor)
    ensures InVersion(p, major, minor, 0) == p
  {
  }

  lemma {:induction false} LeadsVersion(cfg: Config, p: Parser, t: seq<Event>, major: octet, minor: octet, k: nat)
    requires Limited(cfg, p) && p.state.ReqHttpStart? && IsNum(major) && IsNum(minor) && k <= 10
    ensures Leads(cfg, p, t, VersionText(major, minor)[..k], InVersion(p, major, minor, k), t)
  {
    hide Leads, StepByte, Run, VersionText, VersionState, IsNum, Digit;
    var text := VersionText(major, minor);
    if k == 0 {
      assert text[..0] == [];
      StartVersion(p, major, minor);
      LeadsNothing(cfg, p, t);
    } else {
      LeadsVersion(cfg, p, t, major, minor, k - 1);
      VersionPart(k - 1);
      var q, r := InVersion(p, major, minor, k - 1), InVersion(p, major, minor, k);
      if r.nread <= cfg.maxHeaderSize {
        RunVersion(cfg, p, t, major, minor, k);
      }
      assert text[..k] == text[..k - 1] + [text[k - 1]];
      LeadsMore(cfg, p, t, text[..k - 1], text[k - 1], q, t, r, t);
    }
  }
}
