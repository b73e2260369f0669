/** Which headers the parser acts on, for names of any length and, by HttpExecute, however cut into buffers. */
module HttpNames {
  import opened HttpTypes
  import opened HttpSwitch
  import opened HttpTrace
  import opened HttpRun
  import opened HttpBulk
  import opened HttpSteps

  predicate Tokens(name: seq<octet>) { forall i :: 0 <= i < |name| ==> IsToken(name[i]) }

  /** The case-folded name. */
  function Folded(name: seq<octet>): (r: string)
    ensures |r| == |name|
  {
    seq(|name|, i requires 0 <= i < |name| => Token(name[i]))
  }

  predicate StartsIn(n: string, literal: string) { |n| <= |literal| && n == literal[..|n|] }

  const CONNECTION := "connection"
  const PROXY_CONNECTION := "proxy-connection"
  const CONTENT_LENGTH := "content-length"
  const TRANSFER_ENCODING := "transfer-encoding"
  const UPGRADE := "upgrade"

  /** The matcher state that a case-folded prefix of a name calls for. */
  function Matcher(n: string): HeaderState {
    if n == "" then HGeneral
    else if StartsIn(n, CONNECTION) then
      if |n| == 1 then HC else if |n| == 2 then HCO else if |n| == 3 then HCON
      else if |n| == 10 then HConnection else HMatchingConnection
    else if StartsIn(n, CONTENT_LENGTH) then if |n| == 14 then HContentLength else HMatchingContentLength
    else if StartsIn(n, PROXY_CONNECTION) then if |n| == 16 then HConnection else HMatchingProxyConnection
    else if StartsIn(n, TRANSFER_ENCODING) then if |n| == 17 then HTransferEncoding else HMatchingTransferEncoding
    else if StartsIn(n, UPGRADE) then if |n| == 7 then HUpgrade else HMatchingUpgrade
    else HGeneral
  }

  lemma StartsInSnoc(n: string, c: char, literal: string)
    ensures StartsIn(n + [c], literal) <==> StartsIn(n, literal) && |n| < |literal| && literal[|n|] == c
  {
    if |n| < |literal| {
      assert literal[..|n| + 1] == literal[..|n|] + [literal[|n|]];
      assert (n + [c])[..|n|] == n && literal[..|n| + 1][..|n|] == literal[..|n|];
      assert (n + [c])[|n|] == c;
    }
  }

  /** No two literals share a prefix, but for the "con" of two of them. */
  lemma Apart(n: string)
    requires n != ""
    ensures StartsIn(n, CONNECTION) ==> |n| <= 10 && n[0] == 'c' && (|n| > 3 ==> n[3] == 'n')
    ensures StartsIn(n, CONTENT_LENGTH) ==> |n| <= 14 && n[0] == 'c' && (|n| > 3 ==> n[3] == 't')
    ensures StartsIn(n, PROXY_CONNECTION) ==> |n| <= 16 && n[0] == 'p'
    ensures StartsIn(n, TRANSFER_ENCODING) ==> |n| <= 17 && n[0] == 't'
    ensures StartsIn(n, UPGRADE) ==> |n| <= 7 && n[0] == 'u'
    ensures |n| <= 3 ==> (StartsIn(n, CONNECTION) <==> StartsIn(n, CONTENT_LENGTH))
  {
    LetterAt(n, CONNECTION);
    LetterAt(n, CONTENT_LENGTH);
    LetterAt(n, PROXY_CONNECTION);
    LetterAt(n, TRANSFER_ENCODING);
    LetterAt(n, UPGRADE);
    if |n| <= 3 {
      ShareCon(n);
    }
    hide StartsIn;
  }

  lemma LetterAt(n: string, literal: string)
    requires n != ""
    ensures StartsIn(n, literal) ==> |n| <= |literal| && n[0] == literal[0] && (|n| > 3 ==> n[3] == literal[3])
  {
  }

  lemma ShareCon(n: string)
    requires 1 <= |n| <= 3
    ensures StartsIn(n, CONNECTION) <==> StartsIn(n, CONTENT_LENGTH)
  {
    assert CONNECTION[..1] == CONTENT_LENGTH[..1] == "c";
    assert CONNECTION[..2] == CONTENT_LENGTH[..2] == "co";
    assert CONNECTION[..3] == CONTENT_LENGTH[..3] == "con";
  }

  /** The state of the matchers after the case-folded prefix `n`. */
  predicate MatchedSoFar(s: NameState, n: string) {
    s.header == Matcher(n) && (s.header != HGeneral ==> s.index == |n| - 1)
  }

  /** A literal matcher goes on exactly while the name goes on along the literal. */
  lemma LiteralByte(s: NameState, n: string, c: octet, literal: string, done: HeaderState)
    requires n != "" && StartsIn(n, literal) && |n| < |literal| < 31 && s.index == |n| - 1
    ensures var r := Matching(s, c, literal, done);
            && r.index == |n|
            && r.usesTransferEncoding == s.usesTransferEncoding
            && r.header == if !StartsIn(n + [c], literal) then HGeneral
                           else if |n| + 1 == |literal| then done else s.header
  {
    StartsInSnoc(n, c, literal);
  }

  lemma MatcherByte(s: NameState, n: string, c: octet)
    requires n != "" && MatchedSoFar(s, n) && c != NUL
    ensures MatchedSoFar(NameByte(s, c), n + [c])
    ensures NameByte(s, c).usesTransferEncoding == (s.usesTransferEncoding || n + [c] == TRANSFER_ENCODING)
  {
    hide Matching, StartsIn;
    var m := n + [c];
    assert m != "" && |m| == |n| + 1 && m[0] == n[0] && (|n| > 3 ==> m[3] == n[3]) && (|n| == 3 ==> m[3] == c);
    Apart(n);
    Apart(m);
    StartsInSnoc(n, c, CONNECTION);
    StartsInSnoc(n, c, CONTENT_LENGTH);
    StartsInSnoc(n, c, PROXY_CONNECTION);
    StartsInSnoc(n, c, TRANSFER_ENCODING);
    StartsInSnoc(n, c, UPGRADE);
    WholeName(m);
    if s.header.HMatchingConnection? {
      LiteralByte(s, n, c, CONNECTION, HConnection);
    } else if s.header.HMatchingContentLength? {
      LiteralByte(s, n, c, CONTENT_LENGTH, HContentLength);
    } else if s.header.HMatchingProxyConnection? {
      LiteralByte(s, n, c, PROXY_CONNECTION, HConnection);
    } else if s.header.HMatchingTransferEncoding? {
      LiteralByte(s, n, c, TRANSFER_ENCODING, HTransferEncoding);
    } else if s.header.HMatchingUpgrade? {
      LiteralByte(s, n, c, UPGRADE, HUpgrade);
    } else if s.header.HC? || s.header.HCO? || s.header.HCON? {
      ConLetters();
    }
  }

  lemma ConLetters()
    ensures CONNECTION[1] == CONTENT_LENGTH[1] == 'o' && CONNECTION[2] == CONTENT_LENGTH[2] == 'n'
    ensures CONNECTION[3] == 'n' && CONTENT_LENGTH[3] == 't'
  {
  }

  lemma WholeName(n: string)
    ensures n == CONNECTION <==> StartsIn(n, CONNECTION) && |n| == 10
    ensures n == PROXY_CONNECTION <==> StartsIn(n, PROXY_CONNECTION) && |n| == 16
    ensures n == CONTENT_LENGTH <==> StartsIn(n, CONTENT_LENGTH) && |n| == 14
    ensures n == TRANSFER_ENCODING <==> StartsIn(n, TRANSFER_ENCODING) && |n| == 17
    ensures n == UPGRADE <==> StartsIn(n, UPGRADE) && |n| == 7
  {
    assert CONNECTION[..10] == CONNECTION;
    assert PROXY_CONNECTION[..16] == PROXY_CONNECTION;
    assert CONTENT_LENGTH[..14] == CONTENT_LENGTH;
    assert TRANSFER_ENCODING[..17] == TRANSFER_ENCODING;
    assert UPGRADE[..7] == UPGRADE;
  }

  lemma FoldedSnoc(name: seq<octet>)
    requires name != []
    ensures var n := |name| - 1;
            Folded(name) == Folded(name[..n]) + [Token(name[n])]
  {
  }

  /** The matchers after the first byte of a name and after the rest of it. */
  lemma {:induction false} MatcherName(name: seq<octet>, seen: bool)
    requires name != [] && Tokens(name)
    ensures var s := NameFold(NameState(FieldStartState(Token(name[0])), 0, seen), name[1..]);
            && MatchedSoFar(s, Folded(name))
            && s.usesTransferEncoding == (seen || TRANSFER_ENCODING <= Folded(name))
  {
    hide NameByte, Matcher, FieldStartState, Token;
    var start := NameState(FieldStartState(Token(name[0])), 0, seen);
    var n := |name| - 1;
    if n == 0 {
      assert name[1..] == [];
      MatcherFirst(name[0]);
      assert Folded(name) == [Token(name[0])];
    } else {
      MatcherName(name[..n], seen);
      assert name[..n][1..] == name[1..][..n - 1] && name[..n][0] == name[0];
      var before := Folded(name[..n]);
      FoldedSnoc(name);
      MatcherByte(NameFold(start, name[1..][..n - 1]), before, Token(name[n]));
      assert Folded(name)[..n] == before;
    }
  }

  lemma MatcherFirst(ch: octet)
    requires IsToken(ch)
    ensures Matcher([Token(ch)]) == FieldStartState(Token(ch))
  {
    var c := Token(ch);
    StartsInSnoc("", c, CONNECTION);
    StartsInSnoc("", c, CONTENT_LENGTH);
    StartsInSnoc("", c, PROXY_CONNECTION);
    StartsInSnoc("", c, TRANSFER_ENCODING);
    StartsInSnoc("", c, UPGRADE);
    assert "" + [c] == [c];
    hide Token;
  }

  lemma ExecFieldStart(cfg: Config, p: Parser, ch: octet)
    requires p.state.HeaderFieldStart? && IsToken(ch)
    ensures Exec(cfg, p, ch) ==
            Next(p.(index := 0, state := HeaderField, headerState := FieldStartState(Token(ch))), [Mark(Field)])
  {
    assert ch != CR && ch != LF;
    hide FieldStartState, Token;
  }

  lemma ExecColon(cfg: Config, p: Parser)
    requires p.state.HeaderField?
    ensures Exec(cfg, p, ':') == Next(p.(state := HeaderValueDiscardWs), [Flush(Field)])
  {
    assert !IsToken(':');
    hide Token;
  }

  lemma {:induction false} NameMatcherFold(s: NameState, bytes: seq<octet>)
    requires NameMatcher(s.header)
    ensures NameMatcher(NameFold(s, bytes).header)
  {
    if bytes != [] {
      hide Matching;
      NameMatcherFold(s, bytes[..|bytes| - 1]);
      MatchingStays(NameFold(s, bytes[..|bytes| - 1]), Token(bytes[|bytes| - 1]));
    }
  }

  lemma MatchingStays(s: NameState, c: octet)
    requires NameMatcher(s.header)
    ensures NameMatcher(NameByte(s, c).header)
  {
    hide At;
  }

  /** The parser after the name bytes `name`, read from a field start. */
  function AfterName(p: Parser, name: seq<octet>): Parser
    requires name != []
  {
    WithName(p.(state := HeaderField, nread := p.nread + |name|),
             NameFold(NameState(FieldStartState(Token(name[0])), 0, p.usesTransferEncoding), name[1..]))
  }

  lemma AfterNameSnoc(p: Parser, name: seq<octet>)
    requires |name| > 1
    ensures var n := |name| - 1;
            var q := AfterName(p, name[..n]);
            AfterName(p, name) ==
            WithName(q.(nread := q.nread + 1), NameByte(NameOf(q), Token(name[n])))
  {
    hide NameByte, FieldStartState, Token;
    var n := |name| - 1;
    assert name[..n][0] == name[0] && name[..n][1..] == name[1..][..n - 1] && name[1..][n - 1] == name[n];
  }

  lemma AfterNameMatcher(p: Parser, name: seq<octet>)
    requires name != []
    ensures NameMatcher(AfterName(p, name).headerState)
  {
    hide NameByte, NameFold, NameMatcher, Token;
    FieldStartMatcher(Token(name[0]));
    NameMatcherFold(NameState(FieldStartState(Token(name[0])), 0, p.usesTransferEncoding), name[1..]);
  }

  lemma RunNameStart(cfg: Config, p: Parser, t: seq<Event>, ch: octet)
    requires cfg.maxHeaderSize + 1 < TWO_TO_32 && p.state.HeaderFieldStart? && IsToken(ch)
    requires p.nread + 1 <= cfg.maxHeaderSize
    ensures Run(cfg, Going(p, t), [ch]) == Going(AfterName(p, [ch]), Push(t, Data(Field, [ch])))
  {
    hide Exec, StepByte, NameByte, FieldStartState, Token, Push, Run;
    CountOne(cfg, p);
    assert [ch][1..] == [];
    var counted := p.(nread := p.nread + 1);
    ExecFieldStart(cfg, counted, ch);
    StepData(cfg, p, t, ch,
             counted.(index := 0, state := HeaderField, headerState := FieldStartState(Token(ch))),
             Field, [Mark(Field)]);
    RunOne(cfg, p, t, ch);
  }

  lemma RunNameByte(cfg: Config, q: Parser, t: seq<Event>, ch: octet)
    requires cfg.maxHeaderSize + 1 < TWO_TO_32 && q.state.HeaderField? && IsToken(ch) && NameMatcher(q.headerState)
    requires q.nread + 1 <= cfg.maxHeaderSize
    ensures StepByte(cfg, q, t, ch) ==
            Going(WithName(q.(nread := q.nread + 1), NameByte(NameOf(q), Token(ch))), Push(t, Data(Field, [ch])))
  {
    hide Exec, StepByte, NameByte, Token, Push;
    CountOne(cfg, q);
    ExecField(cfg, q.(nread := q.nread + 1), ch);
    StepData(cfg, q, t, ch, WithName(q.(nread := q.nread + 1), NameByte(NameOf(q), Token(ch))), Field, []);
  }

  /** Reading a header name: the matcher's state is the fold, the name is delivered as one fragment. */
  lemma {:induction false} RunName(cfg: Config, p: Parser, t: seq<Event>, name: seq<octet>)
    requires cfg.maxHeaderSize + 1 < TWO_TO_32 && p.state.HeaderFieldStart?
    requires name != [] && Tokens(name) && p.nread + |name| <= cfg.maxHeaderSize
    ensures Run(cfg, Going(p, t), name) == Going(AfterName(p, name), Push(t, Data(Field, name)))
  {
    hide StepByte, Token, Push, Run, NameMatcher, NameByte;
    var n := |name| - 1;
    var ch := name[n];
    if n == 0 {
      assert name == [ch];
      RunNameStart(cfg, p, t, ch);
    } else {
      RunName(cfg, p, t, name[..n]);
      assert name == name[..n] + [ch];
      var q := AfterName(p, name[..n]);
      AfterNameMatcher(p, name[..n]);
      AfterNameSnoc(p, name);
      RunLast(cfg, Going(p, t), name[..n], ch);
      RunNameByte(cfg, q, Push(t, Data(Field, name[..n])), ch);
      PushTwice(t, Field, name[..n], [ch]);
    }
  }

  lemma FieldStartMatcher(c: octet)
    ensures NameMatcher(FieldStartState(c))
  {
  }

  /** The matchers after a whole name, by the case-folded name. */
  lemma NameFacts(p: Parser, name: seq<octet>)
    requires name != [] && Tokens(name)
    ensures var q, n := AfterName(p, name), Folded(name);
            && (q.headerState == HConnection <==> n == CONNECTION || n == PROXY_CONNECTION)
            && (q.headerState == HContentLength <==> n == CONTENT_LENGTH)
            && (q.headerState == HTransferEncoding <==> n == TRANSFER_ENCODING)
            && (q.headerState == HUpgrade <==> n == UPGRADE)
            && (q.usesTransferEncoding <==> p.usesTransferEncoding || TRANSFER_ENCODING <= n)
  {
    hide NameFold;
    MatcherName(name, p.usesTransferEncoding);
    WholeName(Folded(name));
    Apart(Folded(name));
    hide StartsIn, FieldStartState, Token, Folded;
  }

  /** A header name of any length, up to its colon: the parser takes it for one of the headers it acts on
      exactly when the case-folded name is that header's. Only the transfer-encoding bit is set on a prefix. */
  lemma RecognisesName(cfg: Config, p: Parser, t: seq<Event>, name: seq<octet>)
    requires cfg.maxHeaderSize + 1 < TWO_TO_32 && p.state.HeaderFieldStart?
    requires name != [] && Tokens(name) && p.nread + |name| + 1 <= cfg.maxHeaderSize
    ensures var g := Run(cfg, Going(p, t), name + [':']);
            && g.Going? && g.p.state == HeaderValueDiscardWs
            && g.trace == Push(t, Data(Field, name))
            && (g.p.headerState == HConnection <==>
                  Folded(name) == CONNECTION || Folded(name) == PROXY_CONNECTION)
            && (g.p.headerState == HContentLength <==> Folded(name) == CONTENT_LENGTH)
            && (g.p.headerState == HTransferEncoding <==> Folded(name) == TRANSFER_ENCODING)
            && (g.p.headerState == HUpgrade <==> Folded(name) == UPGRADE)
            && (g.p.usesTransferEncoding <==> p.usesTransferEncoding || TRANSFER_ENCODING <= Folded(name))
  {
    hide StepByte, NameFold, Run, Push, FieldStartState, Token, Folded;
    RunColon(cfg, p, t, name);
    NameFacts(p, name);
  }

  lemma RunColon(cfg: Config, p: Parser, t: seq<Event>, name: seq<octet>)
    requires cfg.maxHeaderSize + 1 < TWO_TO_32 && p.state.HeaderFieldStart?
    requires name != [] && Tokens(name) && p.nread + |name| + 1 <= cfg.maxHeaderSize
    ensures var q := AfterName(p, name);
            Run(cfg, Going(p, t), name + [':']) ==
            Going(q.(nread := q.nread + 1, state := HeaderValueDiscardWs), Push(t, Data(Field, name)))
  {
    hide Exec, StepByte, Run, Push, NameFold, FieldStartState, Token;
    RunName(cfg, p, t, name);
    var q := AfterName(p, name);
    CountOne(cfg, q);
    ExecColon(cfg, q.(nread := q.nread + 1));
    RunLast(cfg, Going(p, t), name, ':');
    StepFlush(cfg, q, Push(t, Data(Field, name)), ':',
              q.(nread := q.nread + 1, state := HeaderValueDiscardWs), Field);
    PushTwice(t, Field, name, []);
    assert name + [] == name;
  }
}
