/** Announced lengths and the bodies they frame. By HttpExecute all of this holds however the stream is cut
    into buffers. */
module HttpBodies {
  import opened HttpTypes
  import opened HttpNumerals
  import opened HttpSwitch
  import opened HttpTrace
  import opened HttpRun
  import opened HttpSync
  import opened HttpBulk
  import opened HttpSteps

  // Content-Length.

  /** The largest value that one more digit may be added to. */
  const DECIMAL_LIMIT: nat := (ULLONG_MAX - 10) / 10

  /** The digit strings the source accepts: all but the last digit stay within the limit. */
  predicate DecimalFits(d: seq<octet>)
    requires Decimal(d) && d != []
  {
    DecimalValue(d[..|d| - 1]) <= DECIMAL_LIMIT
  }

  lemma ExecLengthStart(cfg: Config, p: Parser, ch: octet)
    requires p.state.HeaderValueStart? || p.state.HeaderValueDiscardWs?
    requires p.headerState.HContentLength? && !p.flags.contentLength && IsNum(ch)
    ensures Exec(cfg, p, ch) ==
            Next(p.(state := HeaderValue, index := 0, flags := p.flags.(contentLength := true),
                    contentLength := Digit(ch), headerState := HContentLengthNum), [Mark(Value)])
  {
  }

  lemma ExecLengthDigit(cfg: Config, p: Parser, ch: octet)
    requires p.state.HeaderValue? && p.headerState.HContentLengthNum? && IsNum(ch)
    ensures Exec(cfg, p, ch) ==
            if p.contentLength > DECIMAL_LIMIT then Fail(InvalidContentLength)
            else Next(p.(contentLength := p.contentLength * 10 + Digit(ch)), [])
  {
  }

  /** The parser after the digits `d` of a Content-Length value. */
  function AfterLength(p: Parser, d: seq<octet>): Parser
    requires Decimal(d)
  {
    p.(state := HeaderValue, index := 0, flags := p.flags.(contentLength := true),
       contentLength := DecimalValue(d), headerState := HContentLengthNum, nread := p.nread + |d|)
  }

  lemma LengthFirst(cfg: Config, p: Parser, t: seq<Event>, ch: octet)
    requires cfg.maxHeaderSize + 1 < TWO_TO_32 && p.nread + 1 <= cfg.maxHeaderSize
    requires p.state.HeaderValueStart? || p.state.HeaderValueDiscardWs?
    requires p.headerState.HContentLength? && !p.flags.contentLength && IsNum(ch)
    ensures Run(cfg, Going(p, t), [ch]) == Going(AfterLength(p, [ch]), Push(t, Data(Value, [ch])))
  {
    hide Exec, StepByte, Push, Run;
    assert DecimalValue([ch]) == Digit(ch) by {
      assert [ch][..0] == [];
    }
    CountOne(cfg, p);
    var q := p.(nread := p.nread + 1);
    ExecLengthStart(cfg, q, ch);
    StepData(cfg, p, t, ch, AfterLength(p, [ch]), Value, [Mark(Value)]);
    RunOne(cfg, p, t, ch);
  }

  lemma LengthByte(cfg: Config, p: Parser, t: seq<Event>, d: seq<octet>, ch: octet)
    requires cfg.maxHeaderSize + 1 < TWO_TO_32 && p.nread + |d| + 1 <= cfg.maxHeaderSize
    requires Decimal(d) && IsNum(ch)
    ensures StepByte(cfg, AfterLength(p, d), t, ch) ==
            if DecimalValue(d) > DECIMAL_LIMIT then Failed
            else Going(AfterLength(p, d + [ch]), Push(t, Data(Value, [ch])))
  {
    hide Exec, StepByte, Push, Counted, DecimalValue;
    var q := AfterLength(p, d);
    var next := AfterLength(p, d + [ch]);
    CountOne(cfg, q);
    ExecLengthDigit(cfg, q.(nread := q.nread + 1), ch);
    DecimalSnoc(d, ch);
    if DecimalValue(d) <= DECIMAL_LIMIT {
      assert next == q.(nread := q.nread + 1, contentLength := DecimalValue(d) * 10 + Digit(ch));
      StepData(cfg, q, t, ch, next, Value, []);
    } else {
      StepFail(cfg, q, t, ch);
    }
  }

  lemma FitsLast(d: seq<octet>)
    requires Decimal(d) && d != []
    ensures var n := |d| - 1;
            DecimalFits(d) <==> n == 0 || (DecimalFits(d[..n]) && DecimalValue(d[..n]) <= DECIMAL_LIMIT)
    ensures DecimalFits(d) ==> DecimalValue(d) < ULLONG_MAX
  {
    var n := |d| - 1;
    if n == 0 {
      assert d[..0] == [];
    } else {
      DecimalMonotonic(d[..n], n - 1);
    }
  }

  /** A Content-Length digit string of any length: accepted exactly when it fits, and then `contentLength` is its
      decimal value, with no wrap and never the "none seen" sentinel. */
  lemma {:induction false} ContentLengthValue(cfg: Config, p: Parser, t: seq<Event>, d: seq<octet>)
    requires cfg.maxHeaderSize + 1 < TWO_TO_32 && p.nread + |d| <= cfg.maxHeaderSize
    requires p.state.HeaderValueStart? || p.state.HeaderValueDiscardWs?
    requires p.headerState.HContentLength? && !p.flags.contentLength
    requires Decimal(d) && d != []
    ensures var g := Run(cfg, Going(p, t), d);
            if DecimalFits(d) then
              && g == Going(AfterLength(p, d), Push(t, Data(Value, d)))
              && g.p.contentLength == DecimalValue(d) < ULLONG_MAX
            else g == Failed
  {
    hide StepByte, Push, Run, DecimalValue, DecimalFits;
    var n := |d| - 1;
    var ch := d[n];
    FitsLast(d);
    if n == 0 {
      assert d == [ch];
      LengthFirst(cfg, p, t, ch);
    } else {
      ContentLengthValue(cfg, p, t, d[..n]);
      assert d == d[..n] + [ch];
      RunLast(cfg, Going(p, t), d[..n], ch);
      if DecimalFits(d[..n]) {
        LengthByte(cfg, p, Push(t, Data(Value, d[..n])), d[..n], ch);
        PushTwice(t, Value, d[..n], [ch]);
      }
    }
  }

  // Bodies of a known length.

  /** Body bytes short of the last: delivered as one fragment, counting down. */
  lemma {:induction false} BodyBytes(cfg: Config, p: Parser, t: seq<Event>, b: seq<octet>)
    requires CountedBody(p.state) && (p.state.ChunkData? ==> p.flags.chunked)
    requires b != [] && |b| < p.contentLength < ULLONG_MAX
    ensures Run(cfg, Going(p, t), b) ==
            Going(p.(contentLength := p.contentLength - |b|), Push(t, Data(Body, b)))
  {
    hide Exec, StepByte, Push, Run;
    var n := |b| - 1;
    var ch := b[n];
    var q := p.(contentLength := p.contentLength - n);
    assert q.(nread := q.nread) == q;
    BodyByte(cfg, q, ch);
    if n == 0 {
      assert b == [ch];
      RunOne(cfg, p, t, ch);
      StepData(cfg, p, t, ch, p.(contentLength := p.contentLength - 1), Body, [Mark(Body)]);
    } else {
      BodyBytes(cfg, p, t, b[..n]);
      assert b == b[..n] + [ch];
      RunLast(cfg, Going(p, t), b[..n], ch);
      StepData(cfg, q, Push(t, Data(Body, b[..n])), ch, q.(contentLength := q.contentLength - 1), Body, [Mark(Body)]);
      PushTwice(t, Body, b[..n], [ch]);
    }
  }

  lemma BodyByte(cfg: Config, p: Parser, ch: octet)
    requires CountedBody(p.state) && (p.state.ChunkData? ==> p.flags.chunked) && 1 < p.contentLength < ULLONG_MAX
    ensures Exec(cfg, p, ch) == Next(p.(contentLength := p.contentLength - 1), [Mark(Body)])
    ensures InitialMarks(p.state) == map[]
  {
  }

  /** A chunk's data: exactly `contentLength` bytes, delivered as one fragment. */
  lemma ChunkBytes(cfg: Config, p: Parser, t: seq<Event>, b: seq<octet>)
    requires p.state.ChunkData? && p.flags.chunked && b != [] && |b| == p.contentLength < ULLONG_MAX
    ensures Run(cfg, Going(p, t), b) ==
            Going(p.(contentLength := 0, state := ChunkDataAlmostDone), Push(t, Data(Body, b)))
  {
    hide StepByte, Push, Run;
    var n := |b| - 1;
    var ch := b[n];
    var q := p.(contentLength := 1);
    var done := p.(contentLength := 0, state := ChunkDataAlmostDone);
    hide Exec;
    assert q.(nread := q.nread) == q;
    ExecChunk(cfg, q, ch);
    if n == 0 {
      assert b == [ch];
      RunOne(cfg, p, t, ch);
      StepData(cfg, p, t, ch, done, Body, [Mark(Body)]);
    } else {
      BodyBytes(cfg, p, t, b[..n]);
      assert b == b[..n] + [ch];
      RunLast(cfg, Going(p, t), b[..n], ch);
      StepData(cfg, q, Push(t, Data(Body, b[..n])), ch, done, Body, [Mark(Body)]);
      PushTwice(t, Body, b[..n], [ch]);
    }
  }

  /** The end of an identity body: its last byte, and s_message_done on that same byte. */
  lemma IdentityLast(cfg: Config, p: Parser, t: seq<Event>, ch: octet)
    requires p.state.BodyIdentity? && p.contentLength == 1
    ensures var q := p.(contentLength := 0, state := NewMessage(p.(contentLength := 0, state := MessageDone)));
            var u := Push(t, Data(Body, [ch])) + [Notify(MessageComplete)];
            StepByte(cfg, p, t, ch) == if p.upgrade then Switched(q, u) else Going(q, u)
  {
    hide Exec, NewMessage, Push, PushAll, Play, Leftover;
    IdentityLastExec(cfg, p, ch);
    assert p.(nread := p.nread) == p;
    PlayLast(ch);
    var es := [Data(Body, [ch]), Notify(MessageComplete)];
    PushAllTwo(t, Data(Body, [ch]), Notify(MessageComplete));
    LeftoverNone([ch]);
    PushAllNone(PushAll(t, es));
    PushNote(Push(t, Data(Body, [ch])), MessageComplete);
  }

  lemma PlayLast(ch: octet)
    ensures Play([Mark(Body), FlushThrough(Body), Call(MessageComplete)], map[], [ch], 0) ==
            (map[], [Data(Body, [ch]), Notify(MessageComplete)])
  {
    PlayTwo(Mark(Body), FlushThrough(Body), map[], [ch], 0);
    PlaySingle(Call(MessageComplete), map[], [ch], 0);
    PlayConcat([Mark(Body), FlushThrough(Body)], [Call(MessageComplete)], map[], [ch], 0);
    assert [Mark(Body), FlushThrough(Body), Call(MessageComplete)]
        == [Mark(Body), FlushThrough(Body)] + [Call(MessageComplete)];
    var one := PlayOne(Mark(Body), map[], [ch], 0);
    assert one == (map[Body := 0], []);
    var two := PlayOne(FlushThrough(Body), one.0, [ch], 0);
    assert map[Body := 0] - {Body} == map[] && [ch][0..1] == [ch];
    assert two == (map[], [Data(Body, [ch])]);
    assert one.1 + two.1 + [Notify(MessageComplete)] == [Data(Body, [ch]), Notify(MessageComplete)];
  }

  lemma PushNote(t: seq<Event>, note: Note)
    ensures Push(t, Notify(note)) == t + [Notify(note)]
  {
  }

  lemma PushAllTwo(t: seq<Event>, a: Event, b: Event)
    ensures PushAll(t, [a, b]) == Push(Push(t, a), b)
  {
    assert [a, b] == [a] + [b];
    PushAllConcat(t, [a], [b]);
    PushAllOne(t, a);
    PushAllOne(Push(t, a), b);
  }

  lemma IdentityLastExec(cfg: Config, p: Parser, ch: octet)
    requires p.state.BodyIdentity? && p.contentLength == 1
    ensures var q := p.(contentLength := 0, state := NewMessage(p.(contentLength := 0, state := MessageDone)));
            var acts := [Mark(Body), FlushThrough(Body), Call(MessageComplete)];
            Exec(cfg, p, ch) == if p.upgrade then Exit(q, acts) else Next(q, acts)
  {
    var m := p.(contentLength := 0, state := MessageDone);
    hide Exec, NewMessage;
    ExecAgain(cfg, p, ch, m, [Mark(Body), FlushThrough(Body)]);
    ExecDone(cfg, m, ch);
    assert [Mark(Body), FlushThrough(Body)] + [Call(MessageComplete)]
        == [Mark(Body), FlushThrough(Body), Call(MessageComplete)];
  }

  /** An identity body of the announced length: exactly those bytes, then one message_complete. */
  lemma IdentityBody(cfg: Config, p: Parser, t: seq<Event>, b: seq<octet>)
    requires p.state.BodyIdentity? && b != [] && |b| == p.contentLength < ULLONG_MAX
    ensures var q := p.(contentLength := 0, state := NewMessage(p.(contentLength := 0, state := MessageDone)));
            var u := Push(t, Data(Body, b)) + [Notify(MessageComplete)];
            Run(cfg, Going(p, t), b) == if p.upgrade then Switched(q, u) else Going(q, u)
  {
    hide StepByte, Push, Run, Exec, NewMessage;
    var n := |b| - 1;
    var ch := b[n];
    if n == 0 {
      assert b == [ch];
      RunOne(cfg, p, t, ch);
      IdentityLast(cfg, p, t, ch);
    } else {
      BodyBytes(cfg, p, t, b[..n]);
      assert b == b[..n] + [ch];
      RunLast(cfg, Going(p, t), b[..n], ch);
      IdentityLast(cfg, p.(contentLength := 1), Push(t, Data(Body, b[..n])), ch);
      PushTwice(t, Body, b[..n], [ch]);
      assert p.(contentLength := 1).(contentLength := 0, state := MessageDone)
          == p.(contentLength := 0, state := MessageDone);
    }
  }
}
