/** HTTP_BOTH: which kind of message the first bytes of a stream announce. */
module HttpKinds {
  import opened Wrappers
  import opened HttpTypes
  import opened HttpSwitch
  import opened HttpTrace
  import opened HttpRun
  import opened HttpInvariant
  import opened HttpBulk
  import opened HttpSteps

  predicate LineEnd(c: octet) { c == CR || c == LF }

  /** A parser that has read nothing, but for its count. */
  function Unread(kind: MessageKind, n: nat): Parser { Init(kind).(nread := n) }

  /** What 'H' makes of it. */
  function Begun(kind: MessageKind, n: nat): Parser {
    var p := Fresh(Unread(kind, n));
    match kind
    case Both => p.(state := ResOrRespH)
    case Response => p.(state := ResH)
    case Request => p.(verb := HEAD, index := 1, state := ReqMethod)
  }

  lemma ExecStart(cfg: Config, p: Parser, ch: octet)
    requires PartOf(p.state).PStart? && !SwitchStart(p, ch).Again?
    ensures Exec(cfg, p, ch) == SwitchStart(p, ch)
  {
    hide SwitchStart;
  }

  lemma EndExec(cfg: Config, kind: MessageKind, n: nat, ch: octet)
    requires LineEnd(ch)
    ensures Exec(cfg, Unread(kind, n), ch) == Next(Unread(kind, n), [])
  {
    hide Exec;
    ExecStart(cfg, Unread(kind, n), ch);
  }

  lemma HExec(cfg: Config, kind: MessageKind, n: nat)
    ensures Exec(cfg, Unread(kind, n), 'H') == Next(Begun(kind, n), [Call(MessageBegin)])
  {
    hide Exec;
    ExecStart(cfg, Unread(kind, n), 'H');
  }

  lemma OtherExec(cfg: Config, n: nat, ch: octet)
    requires !LineEnd(ch) && ch != 'H'
    ensures Exec(cfg, Unread(Both, n), ch) == Exec(cfg, Unread(Request, n), ch)
  {
    hide Exec, FirstLetter, IsAlpha;
    var q := Fresh(Unread(Both, n)).(kind := Request, state := StartReq);
    ExecAgain(cfg, Unread(Both, n), ch, q, []);
    ExecStart(cfg, q, ch);
    ExecStart(cfg, Unread(Request, n), ch);
  }

  lemma SecondExec(cfg: Config, n: nat, ch: octet)
    ensures var x := Exec(cfg, Begun(Both, n), ch);
            var y := Exec(cfg, Begun(if ch == 'T' then Response else Request, n), ch);
            x == y || (x.Fail? && y.Fail?)
  {
    ExecStart(cfg, Begun(Both, n), ch);
  }

  lemma States(kind: MessageKind, n: nat)
    ensures var p, q := Unread(kind, n), Begun(kind, n);
            && p.state.ParsingHeader() && q.state.ParsingHeader() && p.nread == q.nread == n
            && InitialMarks(p.state) == InitialMarks(q.state) == map[] && Live(p.state) == None
  {
  }

  lemma Recounted(kind: MessageKind, n: nat, k: nat)
    ensures Unread(kind, n).(nread := k) == Unread(kind, k)
  {
  }

  /** Passes alike make steps alike. */
  lemma StepSame(cfg: Config, p: Parser, q: Parser, t: seq<Event>, ch: octet)
    requires p.nread == q.nread && p.state.ParsingHeader() && q.state.ParsingHeader()
    requires InitialMarks(p.state) == InitialMarks(q.state)
    requires forall n: nat ::
               var x, y := Exec(cfg, p.(nread := n), ch), Exec(cfg, q.(nread := n), ch);
               x == y || (x.Fail? && y.Fail?)
    ensures StepByte(cfg, p, t, ch) == StepByte(cfg, q, t, ch)
  {
    hide Exec, Play, PushAll, Leftover, InitialMarks;
    var n := Counted(cfg, p);
    if n.Some? {
      var x, y := Exec(cfg, p.(nread := n.value), ch), Exec(cfg, q.(nread := n.value), ch);
      assert x == y || (x.Fail? && y.Fail?);
    }
  }

  lemma EndStep(cfg: Config, kind: MessageKind, n: nat, ch: octet)
    requires LineEnd(ch)
    ensures StepByte(cfg, Unread(kind, n), [], ch) ==
            match Count(cfg, n, 1) case None => Failed case Some(k) => Going(Unread(kind, k), [])
  {
    hide Exec, Count, Unread, Begun, Play, Leftover, PushAll;
    States(kind, n);
    var k := Count(cfg, n, 1);
    if k.Some? {
      Recounted(kind, n, k.value);
      EndExec(cfg, kind, k.value, ch);
      StepQuiet(cfg, Unread(kind, n), [], ch, Unread(kind, k.value));
    }
  }

  lemma HStep(cfg: Config, kind: MessageKind, n: nat)
    ensures StepByte(cfg, Unread(kind, n), [], 'H') ==
            match Count(cfg, n, 1) case None => Failed case Some(k) => Going(Begun(kind, k), [Notify(MessageBegin)])
  {
    hide Exec, Count, Unread, Begun, Play, Leftover, PushAll;
    States(kind, n);
    var k := Count(cfg, n, 1);
    if k.Some? {
      Recounted(kind, n, k.value);
      HExec(cfg, kind, k.value);
      StepCall(cfg, Unread(kind, n), [], 'H', Begun(kind, k.value), MessageBegin);
    }
  }

  lemma OtherStep(cfg: Config, n: nat, ch: octet)
    requires !LineEnd(ch) && ch != 'H'
    ensures StepByte(cfg, Unread(Both, n), [], ch) == StepByte(cfg, Unread(Request, n), [], ch)
  {
    hide Exec, StepByte;
    States(Both, n);
    States(Request, n);
    forall k: nat
      ensures Exec(cfg, Unread(Both, n).(nread := k), ch) == Exec(cfg, Unread(Request, n).(nread := k), ch)
    {
      OtherExec(cfg, k, ch);
    }
    StepSame(cfg, Unread(Both, n), Unread(Request, n), [], ch);
  }

  lemma SecondStep(cfg: Config, n: nat, t: seq<Event>, ch: octet)
    ensures StepByte(cfg, Begun(Both, n), t, ch) ==
            StepByte(cfg, Begun(if ch == 'T' then Response else Request, n), t, ch)
  {
    hide Exec, StepByte;
    var kind := if ch == 'T' then Response else Request;
    States(Both, n);
    States(kind, n);
    forall k: nat
      ensures var x, y := Exec(cfg, Begun(Both, n).(nread := k), ch), Exec(cfg, Begun(kind, n).(nread := k), ch);
              x == y || (x.Fail? && y.Fail?)
    {
      SecondExec(cfg, k, ch);
    }
    StepSame(cfg, Begun(Both, n), Begun(kind, n), t, ch);
  }

  /** Line ends before the first message are counted and nothing else, whatever the kind. */
  lemma {:induction false} EndsSame(cfg: Config, kind: MessageKind, ends: seq<octet>) returns (n: nat)
    requires forall i :: 0 <= i < |ends| ==> LineEnd(ends[i])
    ensures var g, h := Run(cfg, Going(Init(Both), []), ends), Run(cfg, Going(Init(kind), []), ends);
            (g == h == Failed) || (g == Going(Unread(Both, n), []) && h == Going(Unread(kind, n), []))
  {
    hide StepByte, Count;
    if ends == [] {
      n := 0;
    } else {
      var k := |ends| - 1;
      n := EndsSame(cfg, kind, ends[..k]);
      EndStep(cfg, Both, n, ends[k]);
      EndStep(cfg, kind, n, ends[k]);
      var c := Count(cfg, n, 1);
      n := if c.Some? then c.value else 0;
    }
  }

  lemma {:induction false} FailedStays(cfg: Config, data: seq<octet>)
    ensures Run(cfg, Failed, data) == Failed
  {
    if data != [] {
      FailedStays(cfg, data[..|data| - 1]);
    }
  }

  lemma AfterH(cfg: Config, n: nat, rest: seq<octet>)
    requires rest != []
    ensures Run(cfg, Going(Unread(Both, n), []), ['H'] + rest) ==
            Run(cfg, Going(Unread(if rest[0] == 'T' then Response else Request, n), []), ['H'] + rest)
  {
    hide StepByte, Run, Count, Unread, Begun;
    var kind := if rest[0] == 'T' then Response else Request;
    var a, b := Going(Unread(Both, n), []), Going(Unread(kind, n), []);
    RunConcat(cfg, a, ['H'], rest);
    RunConcat(cfg, b, ['H'], rest);
    RunOne(cfg, Unread(Both, n), [], 'H');
    RunOne(cfg, Unread(kind, n), [], 'H');
    HStep(cfg, Both, n);
    HStep(cfg, kind, n);
    var c := Count(cfg, n, 1);
    if c.Some? {
      var t := [Notify(MessageBegin)];
      assert rest == [rest[0]] + rest[1..];
      RunConcat(cfg, Going(Begun(Both, c.value), t), [rest[0]], rest[1..]);
      RunConcat(cfg, Going(Begun(kind, c.value), t), [rest[0]], rest[1..]);
      RunOne(cfg, Begun(Both, c.value), t, rest[0]);
      RunOne(cfg, Begun(kind, c.value), t, rest[0]);
      SecondStep(cfg, c.value, t, rest[0]);
    }
  }

  lemma AfterOther(cfg: Config, n: nat, first: octet, rest: seq<octet>)
    requires !LineEnd(first) && first != 'H'
    ensures Run(cfg, Going(Unread(Both, n), []), [first] + rest) ==
            Run(cfg, Going(Unread(Request, n), []), [first] + rest)
  {
    hide StepByte, Run, Unread;
    RunConcat(cfg, Going(Unread(Both, n), []), [first], rest);
    RunConcat(cfg, Going(Unread(Request, n), []), [first], rest);
    RunOne(cfg, Unread(Both, n), [], first);
    RunOne(cfg, Unread(Request, n), [], first);
    OtherStep(cfg, n, first);
  }

  /** A parser for both kinds reads a stream that begins with HT, after any line ends, as a parser for responses does;
      and every other stream of which more than an 'H' has come as one for requests. */
  lemma EitherKind(cfg: Config, ends: seq<octet>, first: octet, rest: seq<octet>)
    requires forall i :: 0 <= i < |ends| ==> LineEnd(ends[i])
    requires !LineEnd(first) && (first == 'H' ==> rest != [])
    ensures var kind := if first == 'H' && rest[0] == 'T' then Response else Request;
            var data := ends + [first] + rest;
            Run(cfg, Going(Init(Both), []), data) == Run(cfg, Going(Init(kind), []), data)
  {
    hide Run, Init, LineEnd;
    var kind := if first == 'H' && rest[0] == 'T' then Response else Request;
    var a, b := Going(Init(Both), []), Going(Init(kind), []);
    var n := EndsSame(cfg, kind, ends);
    assert ends + [first] + rest == ends + ([first] + rest);
    RunConcat(cfg, a, ends, [first] + rest);
    RunConcat(cfg, b, ends, [first] + rest);
    FailedStays(cfg, [first] + rest);
    if first == 'H' {
      AfterH(cfg, n, rest);
    } else {
      AfterOther(cfg, n, first, rest);
    }
  }
}
