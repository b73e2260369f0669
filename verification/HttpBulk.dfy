/** What the bulk loops of http_parser_execute skip over, in terms of the byte-at-a-time reading. */
module HttpBulk {
  import opened Wrappers
  import opened HttpTypes
  import opened HttpSwitch
  import opened HttpTrace
  import opened HttpRun
  import opened HttpSync
  import opened HttpInvariant

  /** The head of the main loop: `data[..i]` has been read, with parser `p`, marks and callbacks `log` as
      in the source, in step with the byte-at-a-time reading. */
  ghost predicate AtLoop(cfg: Config, from: Progress, data: seq<octet>, i: nat, p: Parser, marks: Marks,
                         log: seq<Event>)
  {
    && i <= |data|
    && var g := Run(cfg, from, data[..i]);
    && g.Going? && g.p == p
    && Rel(Live(p.state), InitialMarks(p.state), marks, log, g.trace, data, i)
    && Inv(cfg, p)
    && forall k <- marks :: marks[k] < |data|
  }

  lemma AtLoopInv(cfg: Config, from: Progress, data: seq<octet>, i: nat, p: Parser, marks: Marks, log: seq<Event>)
    requires AtLoop(cfg, from, data, i, p, marks, log)
    ensures i <= |data| && Inv(cfg, p)
  {
    hide Run, Rel, Live, InitialMarks, Inv;
  }

  function Counted(cfg: Config, p: Parser): Option<nat> {
    if p.state.ParsingHeader() then Count(cfg, p.nread, 1) else Some(p.nread)
  }

  lemma RunSnoc(cfg: Config, from: Progress, data: seq<octet>, i: nat)
    requires i < |data|
    ensures Run(cfg, from, data[..i + 1]) == Step(cfg, Run(cfg, from, data[..i]), data[i])
  {
    hide Step;
    assert data[..i + 1][..i] == data[..i];
  }

  /** A stream that stopped at some byte stays as it stopped. */
  lemma StoppedAt(cfg: Config, from: Progress, data: seq<octet>, i: nat)
    requires i <= |data| && !Run(cfg, from, data[..i]).Going?
    ensures Run(cfg, from, data) == Run(cfg, from, data[..i])
  {
    hide Run;
    assert data == data[..i] + data[i..];
    RunConcat(cfg, from, data[..i], data[i..]);
    RunStopped(cfg, Run(cfg, from, data[..i]), data[i..]);
  }

  lemma PlayBound(acts: seq<Action>, marks: Marks, data: seq<octet>, i: nat)
    requires i < |data| && Within(marks, i)
    ensures forall k <- Play(acts, marks, data, i).0 :: Play(acts, marks, data, i).0[k] < |data|
  {
    assert Within(Play(acts, marks, data, i).0, i);
  }

  /** One byte that no bulk loop takes. */
  lemma AtStep(cfg: Config, from: Progress, data: seq<octet>, i: nat, p: Parser, marks: Marks, log: seq<Event>)
    requires i < |data| && AtLoop(cfg, from, data, i, p, marks, log)
    ensures Within(marks, i)
    ensures Counted(cfg, p).None? ==> Run(cfg, from, data) == Failed
    ensures Counted(cfg, p).Some? ==>
              var x := Exec(cfg, p.(nread := Counted(cfg, p).value), data[i]);
              if x.Next? then
                var m := Play(x.acts, marks, data, i);
                AtLoop(cfg, from, data, i + 1, x.p, m.0, log + m.1)
              else if x.Exit? then
                var m := Play(x.acts, marks, data, i);
                Run(cfg, from, data[..i + 1]) == Switched(x.p, Join(log + m.1)) && m.0 == map[] && Inv(cfg, x.p)
              else Run(cfg, from, data) == Failed
  {
    var trace := Run(cfg, from, data[..i]).trace;
    var g := StepByte(cfg, p, trace, data[i]);
    RunSnoc(cfg, from, data, i);
    StepInv(cfg, p, trace, data[i]);
    if Counted(cfg, p).None? {
      Uncounted(cfg, p, trace, data[i]);
    }
    assert Within(marks, i);
    if Counted(cfg, p).Some? {
      RelStep(cfg, p, marks, log, trace, data, i, Counted(cfg, p).value);
      var x := Exec(cfg, p.(nread := Counted(cfg, p).value), data[i]);
      hide StepByte, Exec, Rel, Play, Run, Inv, Live, InitialMarks;
      assert Run(cfg, from, data[..i + 1]) == g;
      if x.Next? || x.Exit? {
        PlayBound(x.acts, marks, data, i);
      }
    }
    if !g.Going? {
      hide StepByte, Exec, Rel, Play, Run;
      StoppedAt(cfg, from, data, i + 1);
    }
  }

  lemma Uncounted(cfg: Config, p: Parser, trace: seq<Event>, ch: octet)
    requires Counted(cfg, p).None?
    ensures StepByte(cfg, p, trace, ch) == Failed
  {
  }

  /** A byte that makes no callback and moves no mark. */
  lemma AtQuietStep(cfg: Config, from: Progress, data: seq<octet>, i: nat, p: Parser, marks: Marks,
                    log: seq<Event>, q: Parser)
    requires i < |data| && AtLoop(cfg, from, data, i, p, marks, log)
    requires Counted(cfg, p).Some? && Exec(cfg, p.(nread := Counted(cfg, p).value), data[i]) == Next(q, [])
    ensures AtLoop(cfg, from, data, i + 1, q, marks, log)
  {
    AtStep(cfg, from, data, i, p, marks, log);
    hide Exec, AtLoop;
    assert Play([], marks, data, i) == (marks, []);
    assert log + [] == log;
  }

  lemma CountOne(cfg: Config, p: Parser)
    requires cfg.maxHeaderSize < TWO_TO_32 && p.state.ParsingHeader() && p.nread <= cfg.maxHeaderSize
    ensures cfg.maxHeaderSize + 1 < TWO_TO_32 ==>
              Counted(cfg, p) == if p.nread < cfg.maxHeaderSize then Some(p.nread + 1) else None
  {
  }

  // Header names.

  function NameFold(n: NameState, bytes: seq<octet>): NameState {
    if bytes == [] then n
    else NameByte(NameFold(n, bytes[..|bytes| - 1]), Token(bytes[|bytes| - 1]))
  }

  lemma NameFoldSnoc(n: NameState, data: seq<octet>, i: nat, j: nat)
    requires i <= j < |data|
    ensures NameFold(n, data[i..j + 1]) == NameByte(NameFold(n, data[i..j]), Token(data[j]))
  {
    hide NameByte;
    assert data[i..j + 1][..j - i] == data[i..j];
  }

  lemma ExecField(cfg: Config, p: Parser, ch: octet)
    requires p.state.HeaderField? && NameMatcher(p.headerState) && IsToken(ch)
    ensures Exec(cfg, p, ch) == Next(WithName(p, NameByte(NameOf(p), Token(ch))), [])
  {
    hide NameByte;
  }

  /** Token bytes of a name move only the matcher and the header count. */
  lemma {:induction false} FieldRun(cfg: Config, from: Progress, data: seq<octet>, i: nat, j: nat, p: Parser,
                                    marks: Marks, log: seq<Event>)
    requires cfg.maxHeaderSize + 1 < TWO_TO_32
    requires AtLoop(cfg, from, data, i, p, marks, log) && p.state.HeaderField?
    requires i <= j <= |data| && forall k :: i <= k < j ==> IsToken(data[k])
    requires p.nread + (j - i) <= cfg.maxHeaderSize
    ensures AtLoop(cfg, from, data, j,
                   WithName(p, NameFold(NameOf(p), data[i..j])).(nread := p.nread + (j - i)), marks, log)
  {
    hide AtLoop, NameByte, NameMatcher, Token, Exec;
    if j == i {
      assert data[i..j] == [];
    } else {
      FieldRun(cfg, from, data, i, j - 1, p, marks, log);
      var n := NameFold(NameOf(p), data[i..j - 1]);
      var q := WithName(p, n).(nread := p.nread + (j - 1 - i));
      AtLoopInv(cfg, from, data, j - 1, q, marks, log);
      CountOne(cfg, q);
      ExecField(cfg, q.(nread := q.nread + 1), data[j - 1]);
      NameFoldSnoc(NameOf(p), data, i, j - 1);
      AtQuietStep(cfg, from, data, j - 1, q, marks, log,
                  WithName(q.(nread := q.nread + 1), NameByte(n, Token(data[j - 1]))));
    }
  }

  /** More header bytes than the limit: the byte-at-a-time reading fails too. */
  lemma FieldOverflow(cfg: Config, from: Progress, data: seq<octet>, i: nat, j: nat, p: Parser,
                      marks: Marks, log: seq<Event>)
    requires cfg.maxHeaderSize + 1 < TWO_TO_32
    requires AtLoop(cfg, from, data, i, p, marks, log) && p.state.HeaderField?
    requires i <= j < |data| && forall k :: i <= k < j ==> IsToken(data[k])
    requires p.nread + (j - i) + 1 > cfg.maxHeaderSize
    ensures Run(cfg, from, data) == Failed
  {
    hide AtLoop, Exec, Run, NameFold, IsToken, Play;
    AtLoopInv(cfg, from, data, i, p, marks, log);
    var full := i + (cfg.maxHeaderSize - p.nread);
    FieldRun(cfg, from, data, i, full, p, marks, log);
    var q := WithName(p, NameFold(NameOf(p), data[i..full])).(nread := cfg.maxHeaderSize);
    CountOne(cfg, q);
    AtStep(cfg, from, data, full, q, marks, log);
  }

  // Header values.

  function ValueFold(cfg: Config, v: ValueState, bytes: seq<octet>): ValuePass {
    if bytes == [] then Took(v)
    else
      match ValueFold(cfg, v, bytes[..|bytes| - 1])
      case Took(w) => ValueByte(cfg, w, bytes[|bytes| - 1])
      case Rejected(e) => Rejected(e)
  }

  lemma ValueFoldSnoc(cfg: Config, v: ValueState, data: seq<octet>, i: nat, j: nat)
    requires i <= j < |data| && ValueFold(cfg, v, data[i..j]).Took?
    ensures ValueFold(cfg, v, data[i..j + 1]) == ValueByte(cfg, ValueFold(cfg, v, data[i..j]).v, data[j])
  {
    hide ValueByte;
    assert data[i..j + 1][..j - i] == data[i..j];
  }

  predicate NoLineEnd(data: seq<octet>, i: nat, j: nat)
    requires i <= j <= |data|
  {
    forall k :: i <= k < j ==> data[k] != CR && data[k] != LF
  }

  lemma ExecValue(cfg: Config, p: Parser, ch: octet)
    requires p.state.HeaderValue? && ch != CR && ch != LF
    ensures Exec(cfg, p, ch) ==
            match ValueByte(cfg, ValueOf(p), ch)
            case Took(v) => Next(WithValue(p, v), [])
            case Rejected(e) => Fail(e)
  {
    hide ValueByte;
  }

  /** Bytes of a value move only the value's variables and the header count. */
  lemma {:induction false} ValueRun(cfg: Config, from: Progress, data: seq<octet>, i: nat, j: nat, p: Parser,
                                    marks: Marks, log: seq<Event>)
    requires cfg.maxHeaderSize + 1 < TWO_TO_32
    requires AtLoop(cfg, from, data, i, p, marks, log) && p.state.HeaderValue?
    requires i <= j <= |data| && NoLineEnd(data, i, j) && ValueFold(cfg, ValueOf(p), data[i..j]).Took?
    requires p.nread + (j - i) <= cfg.maxHeaderSize
    ensures AtLoop(cfg, from, data, j,
                   WithValue(p, ValueFold(cfg, ValueOf(p), data[i..j]).v).(nread := p.nread + (j - i)), marks, log)
  {
    hide AtLoop, ValueByte, Exec;
    if j == i {
      assert data[i..j] == [];
    } else {
      assert data[i..j][..j - 1 - i] == data[i..j - 1];
      ValueRun(cfg, from, data, i, j - 1, p, marks, log);
      var v := ValueFold(cfg, ValueOf(p), data[i..j - 1]).v;
      var q := WithValue(p, v).(nread := p.nread + (j - 1 - i));
      CountOne(cfg, q);
      ExecValue(cfg, q.(nread := q.nread + 1), data[j - 1]);
      ValueFoldSnoc(cfg, ValueOf(p), data, i, j - 1);
      AtQuietStep(cfg, from, data, j - 1, q, marks, log,
                  WithValue(q.(nread := q.nread + 1), ValueByte(cfg, v, data[j - 1]).v));
    }
  }

  /** More header bytes than the limit: the byte-at-a-time reading fails too. */
  lemma ValueOverflow(cfg: Config, from: Progress, data: seq<octet>, i: nat, j: nat, p: Parser,
                      marks: Marks, log: seq<Event>)
    requires cfg.maxHeaderSize + 1 < TWO_TO_32
    requires AtLoop(cfg, from, data, i, p, marks, log) && p.state.HeaderValue?
    requires i <= j < |data| && NoLineEnd(data, i, j) && ValueFold(cfg, ValueOf(p), data[i..j]).Took?
    requires p.nread + (j - i) + 1 > cfg.maxHeaderSize
    ensures Run(cfg, from, data) == Failed
  {
    hide AtLoop, Exec, Run, ValueByte, Play;
    AtLoopInv(cfg, from, data, i, p, marks, log);
    var full := i + (cfg.maxHeaderSize - p.nread);
    ValuePrefixTook(cfg, ValueOf(p), data, i, full, j);
    ValueRun(cfg, from, data, i, full, p, marks, log);
    var q := WithValue(p, ValueFold(cfg, ValueOf(p), data[i..full]).v).(nread := cfg.maxHeaderSize);
    CountOne(cfg, q);
    AtStep(cfg, from, data, full, q, marks, log);
  }

  lemma {:induction false} ValuePrefixTook(cfg: Config, v: ValueState, data: seq<octet>, i: nat, m: nat, j: nat)
    requires i <= m <= j <= |data| && ValueFold(cfg, v, data[i..j]).Took?
    ensures ValueFold(cfg, v, data[i..m]).Took?
  {
    hide ValueByte;
    if m < j {
      assert data[i..j][..j - 1 - i] == data[i..j - 1];
      ValuePrefixTook(cfg, v, data, i, m, j - 1);
    }
  }

  /** A byte the value rejects: the byte-at-a-time reading fails there, or before on the limit. */
  lemma ValueRejected(cfg: Config, from: Progress, data: seq<octet>, i: nat, j: nat, p: Parser,
                      marks: Marks, log: seq<Event>)
    requires cfg.maxHeaderSize + 1 < TWO_TO_32
    requires AtLoop(cfg, from, data, i, p, marks, log) && p.state.HeaderValue?
    requires i <= j < |data| && NoLineEnd(data, i, j + 1) && ValueFold(cfg, ValueOf(p), data[i..j]).Took?
    requires ValueByte(cfg, ValueFold(cfg, ValueOf(p), data[i..j]).v, data[j]).Rejected?
    ensures Run(cfg, from, data) == Failed
  {
    hide AtLoop, ValueByte, Exec, ValueFold, Play, Run, Inv, Within;
    if p.nread + (j - i) + 1 > cfg.maxHeaderSize {
      ValueOverflow(cfg, from, data, i, j, p, marks, log);
    } else {
      ValueRun(cfg, from, data, i, j, p, marks, log);
      var v := ValueFold(cfg, ValueOf(p), data[i..j]).v;
      var q := WithValue(p, v).(nread := p.nread + (j - i));
      CountOne(cfg, q);
      ExecValue(cfg, q.(nread := q.nread + 1), data[j]);
      AtStep(cfg, from, data, j, q, marks, log);
    }
  }

  // Bodies.

  function Marked(marks: Marks, i: nat): Marks { if Body in marks then marks else marks[Body := i] }

  predicate CountedBody(s: State) { s.BodyIdentity? || s.ChunkData? }

  lemma ExecBody(cfg: Config, p: Parser, ch: octet)
    requires CountedBody(p.state) && Inv(cfg, p) && p.contentLength > 1
    ensures Exec(cfg, p, ch) == Next(p.(contentLength := p.contentLength - 1), [Mark(Body)])
  {
  }

  lemma AtBodyByte(cfg: Config, from: Progress, data: seq<octet>, i: nat, p: Parser, marks: Marks,
                   log: seq<Event>, q: Parser)
    requires i < |data| && AtLoop(cfg, from, data, i, p, marks, log) && !p.state.ParsingHeader()
    requires Exec(cfg, p, data[i]) == Next(q, [Mark(Body)])
    ensures AtLoop(cfg, from, data, i + 1, q, Marked(marks, i), log)
  {
    AtStep(cfg, from, data, i, p, marks, log);
    assert p.(nread := p.nread) == p;
    hide Exec, AtLoop;
    PlaySingle(Mark(Body), marks, data, i);
    assert log + [] == log;
  }

  /** Body bytes short of the last one only count down. */
  lemma {:induction false} BodyRun(cfg: Config, from: Progress, data: seq<octet>, i: nat, j: nat, p: Parser,
                                   marks: Marks, log: seq<Event>)
    requires AtLoop(cfg, from, data, i, p, marks, log) && CountedBody(p.state)
    requires i < j <= |data| && j - i < p.contentLength
    ensures AtLoop(cfg, from, data, j, p.(contentLength := p.contentLength - (j - i)), Marked(marks, i), log)
  {
    hide AtLoop, Exec;
    var q, m := p, marks;
    if j - 1 > i {
      BodyRun(cfg, from, data, i, j - 1, p, marks, log);
      q, m := p.(contentLength := p.contentLength - (j - 1 - i)), Marked(marks, i);
    }
    AtLoopInv(cfg, from, data, j - 1, q, m, log);
    ExecBody(cfg, q, data[j - 1]);
    AtBodyByte(cfg, from, data, j - 1, q, m, log, q.(contentLength := q.contentLength - 1));
  }

  lemma {:induction false} EofRun(cfg: Config, from: Progress, data: seq<octet>, i: nat, j: nat, p: Parser,
                                  marks: Marks, log: seq<Event>)
    requires AtLoop(cfg, from, data, i, p, marks, log) && p.state.BodyIdentityEof?
    requires i < j <= |data|
    ensures AtLoop(cfg, from, data, j, p, Marked(marks, i), log)
  {
    hide AtLoop;
    var m := marks;
    if j - 1 > i {
      EofRun(cfg, from, data, i, j - 1, p, marks, log);
      m := Marked(marks, i);
    }
    assert Exec(cfg, p, data[j - 1]) == Next(p, [Mark(Body)]);
    hide Exec;
    AtBodyByte(cfg, from, data, j - 1, p, m, log, p);
  }
}
