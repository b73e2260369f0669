/** http_parser_execute: the resumable parser object and its main loop, bulk inner loops included. */
module HttpExecute {
  import opened Wrappers
  import opened HttpTypes
  import opened HttpSwitch
  import opened HttpTrace
  import opened HttpRun
  import opened HttpSync
  import opened HttpInvariant
  import opened HttpBulk

  function Min(a: nat, b: nat): nat { if a < b then a else b }

  /** The loop of s_header_field: stops at the first byte that is no token. */
  method ScanName(cfg: Config, n0: NameState, data: seq<octet>, start: nat) returns (i: nat, n: NameState)
    requires start <= |data|
    ensures start <= i <= |data|
    ensures forall k :: start <= k < i ==> IsToken(data[k])
    ensures i < |data| ==> !IsToken(data[i])
    ensures n == NameFold(n0, data[start..i])
  {
    hide Token, NameByte;
    i, n := start, n0;
    assert data[start..start] == [];
    while i < |data|
      invariant start <= i <= |data|
      invariant forall k :: start <= k < i ==> IsToken(data[k])
      invariant n == NameFold(n0, data[start..i])
    {
      if !IsToken(data[i]) {
        return;
      }
      NameFoldSnoc(n0, data, start, i);
      if n.header.HGeneral? {
        GeneralStays(n, Token(data[i]));
        var end := i + Min(|data| - i, cfg.maxHeaderSize);
        while i + 1 < end && IsToken(data[i + 1])
          invariant start <= i < |data| && end <= |data|
          invariant forall k :: start <= k <= i ==> IsToken(data[k])
          invariant n == NameFold(n0, data[start..i + 1])
        {
          i := i + 1;
          NameFoldSnoc(n0, data, start, i);
          GeneralStays(n, Token(data[i]));
        }
      } else {
        n := NameByte(n, Token(data[i]));
      }
      i := i + 1;
    }
  }

  lemma GeneralStays(n: NameState, c: octet)
    requires n.header.HGeneral?
    ensures NameByte(n, c) == n
  {
  }

  datatype ScanEnd = AtCr | AtLf | AtEnd | AtBad(errno: Errno)

  /** What ScanValue found in `data[start..]`. */
  ghost predicate ScanFound(cfg: Config, v0: ValueState, data: seq<octet>, start: nat, i: nat, v: ValueState,
                            end: ScanEnd)
    requires start <= |data|
  {
    && start <= i <= |data|
    && NoLineEnd(data, start, i)
    && ValueFold(cfg, v0, data[start..i]) == Took(v)
    && (match end
        case AtCr => i < |data| && data[i] == CR
        case AtLf => i < |data| && data[i] == LF
        case AtEnd => i == |data|
        case AtBad(_) => i < |data| && data[i] != CR && data[i] != LF && ValueByte(cfg, v, data[i]).Rejected?)
  }

  /** The bulk loop ran `maxHeaderSize` bytes up to `d` and stepped over the byte there unread. */
  ghost predicate ScanSkipped(cfg: Config, v0: ValueState, data: seq<octet>, start: nat, d: nat)
    requires start <= |data|
  {
    && start <= d < |data|
    && d - start >= cfg.maxHeaderSize
    && NoLineEnd(data, start, d)
    && ValueFold(cfg, v0, data[start..d]).Took?
  }

  lemma GeneralTakes(cfg: Config, v0: ValueState, data: seq<octet>, start: nat, i: nat)
    requires start <= i < |data|
    requires ValueFold(cfg, v0, data[start..i]).Took? && ValueFold(cfg, v0, data[start..i]).v.header.HGeneral?
    ensures var v := ValueFold(cfg, v0, data[start..i]).v;
            ValueByte(cfg, v, data[i]) ==
            if !cfg.lenient && !IsHeaderChar(data[i]) then Rejected(InvalidHeaderToken) else Took(v)
    ensures ValueFold(cfg, v0, data[start..i + 1]) ==
            ValueByte(cfg, ValueFold(cfg, v0, data[start..i]).v, data[i])
  {
    ValueFoldSnoc(cfg, v0, data, start, i);
  }

  /** The loop of s_header_value. In h_general it runs on in an inner loop of at most maxHeaderSize bytes,
      after which it steps over one byte more without looking at it. */
  method ScanValue(cfg: Config, v0: ValueState, data: seq<octet>, start: nat)
    returns (i: nat, v: ValueState, end: ScanEnd, ghost skipped: bool, ghost d: nat)
    requires start <= |data|
    ensures start <= i <= |data|
    ensures end.AtEnd? <==> i == |data|
    ensures !skipped ==> ScanFound(cfg, v0, data, start, i, v, end)
    ensures skipped ==> ScanSkipped(cfg, v0, data, start, d) && d < i
  {
    hide ValueByte, IsHeaderChar;
    i, v, skipped, d, end := start, v0, false, start, AtEnd;
    assert data[start..start] == [];
    while i < |data|
      invariant start <= i <= |data|
      invariant !skipped ==> NoLineEnd(data, start, i) && ValueFold(cfg, v0, data[start..i]) == Took(v)
      invariant skipped ==> v.header.HGeneral? && ScanSkipped(cfg, v0, data, start, d) && d < i
      decreases |data| - i
    {
      if data[i] == CR {
        end := AtCr;
        return;
      }
      if data[i] == LF {
        end := AtLf;
        return;
      }
      if v.header.HGeneral? {
        if !skipped {
          GeneralTakes(cfg, v0, data, start, i);
        }
        if !cfg.lenient && !IsHeaderChar(data[i]) {
          end := AtBad(InvalidHeaderToken);
          return;
        }
        var first, stop := i, i + Min(|data| - i, cfg.maxHeaderSize);
        while i < stop && data[i] != CR && data[i] != LF
          invariant first <= i <= stop <= |data|
          invariant i == first ==> i < |data| && data[i] != CR && data[i] != LF
          invariant !skipped ==> NoLineEnd(data, start, i) && ValueFold(cfg, v0, data[start..i]) == Took(v)
          invariant skipped ==> ScanSkipped(cfg, v0, data, start, d) && d < i
        {
          if !skipped {
            GeneralTakes(cfg, v0, data, start, i);
          }
          if !cfg.lenient && !IsHeaderChar(data[i]) {
            end := AtBad(InvalidHeaderToken);
            return;
          }
          i := i + 1;
        }
        if i == stop && i < |data| {
          if !skipped {
            skipped, d := true, i;
          }
          i := i + 1;
        }
      } else {
        ValueFoldSnoc(cfg, v0, data, start, i);
        match ValueByte(cfg, v, data[i]) {
          case Took(w) => v := w;
          case Rejected(e) =>
            end := AtBad(e);
            return;
        }
        i := i + 1;
      }
    }
  }

  /** Where one turn of the main loop leaves it: further on, out on an upgrade, or in error. */
  datatype Turn =
    | Onward(i: nat, p: Parser, marks: Marks, log: seq<Event>)
    | Upgraded(n: nat, p: Parser, log: seq<Event>)
    | Stopped(errno: Errno)

  /** A turn that began at byte `i` agrees with the byte-at-a-time reading. */
  ghost predicate TurnOk(cfg: Config, from: Progress, data: seq<octet>, i: nat, t: Turn) {
    match t
    case Onward(j, p, marks, log) => i < j && AtLoop(cfg, from, data, j, p, marks, log)
    case Upgraded(n, p, log) =>
      i < n <= |data| && Run(cfg, from, data[..n]) == Switched(p, Join(log)) && Inv(cfg, p)
    case Stopped(_) => Run(cfg, from, data) == Failed
  }

  /** One byte through the switch, from a state without a bulk loop. */
  method Single(cfg: Config, ghost from: Progress, data: seq<octet>, i: nat, p: Parser, marks: Marks, log: seq<Event>)
    returns (t: Turn)
    requires i < |data| && AtLoop(cfg, from, data, i, p, marks, log)
    ensures TurnOk(cfg, from, data, i, t)
  {
    hide AtLoop, Exec, Run, Play, Inv;
    AtStep(cfg, from, data, i, p, marks, log);
    var counted := Counted(cfg, p);
    if counted.None? {
      return Stopped(HeaderOverflow);
    }
    match Exec(cfg, p.(nread := counted.value), data[i])
    case Next(q, acts) =>
      var played := Play(acts, marks, data, i);
      t := Onward(i + 1, q, played.0, log + played.1);
    case Exit(q, acts) =>
      t := Upgraded(i + 1, q, log + Play(acts, marks, data, i).1);
    case Fail(e) =>
      t := Stopped(e);
    case Again(_, _) =>
      assert false;
  }

  lemma CountMany(cfg: Config, nread: nat, v: nat)
    requires nread <= cfg.maxHeaderSize && cfg.maxHeaderSize + v < TWO_TO_32
    ensures Count(cfg, nread, v) == if nread + v <= cfg.maxHeaderSize then Some(nread + v) else None
  {
  }

  /** Counting v bytes one by one, as the main loop does. */
  function CountEach(cfg: Config, nread: nat, v: nat): Option<nat> {
    if v == 0 then Some(nread)
    else
      var n := CountEach(cfg, nread, v - 1);
      if n.None? then None else Count(cfg, n.value, 1)
  }

  lemma {:induction false} CountEachIs(cfg: Config, nread: nat, v: nat)
    requires nread <= cfg.maxHeaderSize && cfg.maxHeaderSize + 1 < TWO_TO_32
    ensures CountEach(cfg, nread, v) == if nread + v <= cfg.maxHeaderSize then Some(nread + v) else None
    decreases v
  {
    hide Count;
    if v > 0 {
      CountEachIs(cfg, nread, v - 1);
      if nread + v - 1 <= cfg.maxHeaderSize {
        CountMany(cfg, nread + v - 1, 1);
      }
    }
  }

  /** The bulk loops count each header byte once exactly when the 32-bit counter does not wrap into the allowed
      range; it cannot when the limit and the data of a call together stay below 2^32. */
  lemma CountOnce(cfg: Config, nread: nat, v: nat)
    requires nread <= cfg.maxHeaderSize && cfg.maxHeaderSize + 1 < TWO_TO_32
    ensures Count(cfg, nread, v) == CountEach(cfg, nread, v) <==>
            nread + v <= cfg.maxHeaderSize || (nread + v) % TWO_TO_32 > cfg.maxHeaderSize
  {
    CountEachIs(cfg, nread, v);
    WrapSum(nread, v);
  }

  lemma WrapSum(a: nat, b: nat)
    ensures (a + b % TWO_TO_32) % TWO_TO_32 == (a + b) % TWO_TO_32
  {
    assert a + b == a + b % TWO_TO_32 + b / TWO_TO_32 * TWO_TO_32;
  }

  lemma CountWraps(cfg: Config)
    requires cfg.maxHeaderSize + 1 < TWO_TO_32
    ensures Count(cfg, 0, TWO_TO_32) != CountEach(cfg, 0, TWO_TO_32)
  {
    CountOnce(cfg, 0, TWO_TO_32);
  }

  lemma AtColon(cfg: Config, p: Parser, ch: octet)
    requires p.state.HeaderField? && !IsToken(ch)
    ensures Exec(cfg, p, ch) ==
            if ch == ':' then Next(p.(state := HeaderValueDiscardWs), [Flush(Field)]) else Fail(InvalidHeaderToken)
  {
  }

  /** s_header_field: the first byte is counted by the main loop, the rest when the scan ends. */
  method NameTurn(cfg: Config, ghost from: Progress, data: seq<octet>, i: nat, p: Parser, marks: Marks, log: seq<Event>)
    returns (t: Turn)
    requires cfg.maxHeaderSize + |data| < TWO_TO_32
    requires i < |data| && AtLoop(cfg, from, data, i, p, marks, log) && p.state.HeaderField?
    ensures TurnOk(cfg, from, data, i, t)
  {
    hide AtLoop, Exec, Run, Play, Inv, IsToken, NameByte, NameFold, Count;
    AtLoopInv(cfg, from, data, i, p, marks, log);
    InvCount(cfg, p);
    CountMany(cfg, p.nread, 1);
    var first := Count(cfg, p.nread, 1);
    var j, n := ScanName(cfg, NameOf(p), data, i);
    if first.None? {
      AtStep(cfg, from, data, i, p, marks, log);
      return Stopped(HeaderOverflow);
    }
    var rest := if j == |data| then j - 1 - i else j - i;
    CountMany(cfg, first.value, rest);
    var counted := Count(cfg, first.value, rest);
    if counted.None? {
      FieldOverflow(cfg, from, data, i, if j == |data| then j - 1 else j, p, marks, log);
      return Stopped(HeaderOverflow);
    }
    if j == |data| {
      FieldRun(cfg, from, data, i, j, p, marks, log);
      return Onward(j, WithName(p, n).(nread := counted.value), marks, log);
    }
    FieldRun(cfg, from, data, i, j, p, marks, log);
    ghost var q := WithName(p, n).(nread := p.nread + (j - i));
    CountMany(cfg, q.nread, 1);
    AtStep(cfg, from, data, j, q, marks, log);
    AtColon(cfg, q.(nread := counted.value), data[j]);
    if data[j] == ':' {
      var played := Play([Flush(Field)], marks, data, j);
      t := Onward(j + 1, WithName(p, n).(nread := counted.value, state := HeaderValueDiscardWs),
                  played.0, log + played.1);
    } else {
      t := Stopped(InvalidHeaderToken);
    }
  }

  lemma InvCount(cfg: Config, p: Parser)
    requires Inv(cfg, p)
    ensures p.nread <= cfg.maxHeaderSize
  {
    hide StateOk;
  }

  lemma AtCrOfValue(cfg: Config, p: Parser)
    requires p.state.HeaderValue?
    ensures Exec(cfg, p, CR) == Next(p.(state := HeaderAlmostDone), [Flush(Value)])
  {
  }

  lemma AtLfOfValue(cfg: Config, p: Parser)
    requires p.state.HeaderValue?
    ensures Exec(cfg, p, LF) == Next(p.(state := HeaderValueLws), [Flush(Value)])
    ensures Exec(cfg, p.(state := HeaderAlmostDone), LF) == Next(p.(state := HeaderValueLws), [])
  {
    var q := p.(state := HeaderAlmostDone);
    assert Exec(cfg, q, LF) == Next(q.(state := HeaderValueLws), []);
    assert Switch(cfg, p, LF) == Again(q, [Flush(Value)]);
    assert [Flush(Value)] + [] == [Flush(Value)];
  }

  /** Over the limit, the byte-at-a-time reading of a value fails as well. */
  lemma ValueLimit(cfg: Config, from: Progress, data: seq<octet>, i: nat, j: nat, p: Parser, marks: Marks,
                   log: seq<Event>, v: ValueState, end: ScanEnd, skipped: bool, d: nat)
    requires cfg.maxHeaderSize + |data| < TWO_TO_32
    requires i < |data| && AtLoop(cfg, from, data, i, p, marks, log) && p.state.HeaderValue?
    requires skipped ==> ScanSkipped(cfg, ValueOf(p), data, i, d)
    requires !skipped ==> ScanFound(cfg, ValueOf(p), data, i, j, v, end)
    requires !skipped ==> end.AtBad? || p.nread + 1 + ((if j == |data| then j - 1 else j) - i) > cfg.maxHeaderSize
    ensures Run(cfg, from, data) == Failed
  {
    hide AtLoop, Run, ValueByte, Inv;
    if skipped {
      ValueOverflow(cfg, from, data, i, d, p, marks, log);
    } else if end.AtBad? {
      ValueRejected(cfg, from, data, i, j, p, marks, log);
    } else {
      AtLoopInv(cfg, from, data, i, p, marks, log);
      InvCount(cfg, p);
      var last := if j == |data| then j - 1 else j;
      ValuePrefixTook(cfg, ValueOf(p), data, i, if j > i then last else i, j);
      ValueOverflow(cfg, from, data, i, last, p, marks, log);
    }
  }

  /** s_header_value. */
  method ValueTurn(cfg: Config, ghost from: Progress, data: seq<octet>, i: nat, p: Parser, marks: Marks,
                   log: seq<Event>)
    returns (t: Turn)
    requires cfg.maxHeaderSize + |data| < TWO_TO_32
    requires i < |data| && AtLoop(cfg, from, data, i, p, marks, log) && p.state.HeaderValue?
    ensures TurnOk(cfg, from, data, i, t)
  {
    hide AtLoop, Exec, Run, Play, Inv, ValueByte, ValueFold, Count, ScanSkipped;
    AtLoopInv(cfg, from, data, i, p, marks, log);
    InvCount(cfg, p);
    CountMany(cfg, p.nread, 1);
    var first := Count(cfg, p.nread, 1);
    if first.None? {
      AtStep(cfg, from, data, i, p, marks, log);
      return Stopped(HeaderOverflow);
    }
    ghost var skipped, d;
    var j, v, end;
    j, v, end, skipped, d := ScanValue(cfg, ValueOf(p), data, i);
    if end.AtBad? {
      ValueLimit(cfg, from, data, i, j, p, marks, log, v, end, skipped, d);
      return Stopped(end.errno);
    }
    var rest := if j == |data| then j - 1 - i else j - i;
    CountMany(cfg, first.value, rest);
    var counted := Count(cfg, first.value, rest);
    if counted.None? {
      if skipped {
        SkipLimit(cfg, ValueOf(p), data, i, d);
      }
      ValueLimit(cfg, from, data, i, j, p, marks, log, v, end, skipped, d);
      return Stopped(HeaderOverflow);
    }
    if skipped {
      SkipLimit(cfg, ValueOf(p), data, i, d);
      assert false;
    }
    ValueRun(cfg, from, data, i, j, p, marks, log);
    ghost var q := WithValue(p, v).(nread := p.nread + (j - i));
    if j == |data| {
      return Onward(j, WithValue(p, v).(nread := counted.value), marks, log);
    }
    CountMany(cfg, q.nread, 1);
    AtStep(cfg, from, data, j, q, marks, log);
    var played := Play([Flush(Value)], marks, data, j);
    if end.AtCr? {
      AtCrOfValue(cfg, q.(nread := counted.value));
      t := Onward(j + 1, WithValue(p, v).(nread := counted.value, state := HeaderAlmostDone),
                  played.0, log + played.1);
    } else {
      AtLfOfValue(cfg, q.(nread := counted.value));
      t := Onward(j + 1, WithValue(p, v).(nread := counted.value, state := HeaderValueLws),
                  played.0, log + played.1);
    }
  }

  lemma SkipLimit(cfg: Config, v0: ValueState, data: seq<octet>, start: nat, d: nat)
    requires start <= |data| && ScanSkipped(cfg, v0, data, start, d)
    ensures start <= d < |data| && d - start >= cfg.maxHeaderSize
  {
  }

  // Bodies.

  lemma ExecBodyEnd(cfg: Config, p: Parser, ch: octet)
    requires Inv(cfg, p) && p.contentLength == 1
    requires CountedBody(p.state)
    ensures p.state.ChunkData? ==>
              Exec(cfg, p, ch) == Next(p.(contentLength := 0, state := ChunkDataAlmostDone), [Mark(Body)])
    ensures p.state.BodyIdentity? ==>
              Exec(cfg, p, ch) ==
              Prepend([Mark(Body), FlushThrough(Body)], Exec(cfg, p.(contentLength := 0, state := MessageDone), ch))
  {
  }

  /** The last byte of an identity body: its callback, then s_message_done on the same byte. */
  lemma IdentityEnd(cfg: Config, from: Progress, data: seq<octet>, i: nat, p: Parser, marks: Marks, log: seq<Event>,
                    x: Pass)
    requires i < |data| && AtLoop(cfg, from, data, i, p, marks, log)
    requires p.state.BodyIdentity? && p.contentLength == 1
    requires x == Exec(cfg, p.(contentLength := 0, state := MessageDone), data[i])
    ensures Within(marks, i) && Within(Marked(marks, i), i)
    ensures var flushed := PlayOne(FlushThrough(Body), Marked(marks, i), data, i);
            var log' := log + flushed.1;
            if x.Next? then
              var played := Play(x.acts, flushed.0, data, i);
              TurnOk(cfg, from, data, i, Onward(i + 1, x.p, played.0, log' + played.1))
            else if x.Exit? then
              var played := Play(x.acts, flushed.0, data, i);
              TurnOk(cfg, from, data, i, Upgraded(i + 1, x.p, log' + played.1))
            else x.Fail? && TurnOk(cfg, from, data, i, Stopped(x.errno))
  {
    hide AtLoop, Run, Play, Inv, Exec, PlayOne, Within;
    AtLoopInv(cfg, from, data, i, p, marks, log);
    AtLoopMarks(cfg, from, data, i, p, marks, log);
    AtStep(cfg, from, data, i, p, marks, log);
    ExecBodyEnd(cfg, p, data[i]);
    assert p.(nread := p.nread) == p;
    MarkedWithin(marks, i);
    if x.Next? || x.Exit? {
      PlayEnd(x.acts, marks, data, i);
      var flushed := PlayOne(FlushThrough(Body), Marked(marks, i), data, i);
      var played := Play(x.acts, flushed.0, data, i);
      assert log + flushed.1 + played.1 == log + (flushed.1 + played.1);
    }
  }

  lemma MarkedWithin(marks: Marks, i: nat)
    requires Within(marks, i)
    ensures Within(Marked(marks, i), i)
  {
  }

  lemma PlayEnd(acts: seq<Action>, marks: Marks, data: seq<octet>, i: nat)
    requires i < |data| && Within(marks, i)
    ensures Within(Marked(marks, i), i)
    ensures var flushed := PlayOne(FlushThrough(Body), Marked(marks, i), data, i);
            var played := Play(acts, flushed.0, data, i);
            Play([Mark(Body), FlushThrough(Body)] + acts, marks, data, i) == (played.0, flushed.1 + played.1)
  {
    PlayTwo(Mark(Body), FlushThrough(Body), marks, data, i);
    PlayConcat([Mark(Body), FlushThrough(Body)], acts, marks, data, i);
    hide Play;
    var flushed := PlayOne(FlushThrough(Body), Marked(marks, i), data, i);
    assert [] + flushed.1 == flushed.1;
  }

  lemma ChunkEnd(cfg: Config, from: Progress, data: seq<octet>, i: nat, p: Parser, marks: Marks, log: seq<Event>)
    requires i < |data| && AtLoop(cfg, from, data, i, p, marks, log)
    requires p.state.ChunkData? && p.contentLength == 1
    ensures AtLoop(cfg, from, data, i + 1, p.(contentLength := 0, state := ChunkDataAlmostDone), Marked(marks, i), log)
  {
    AtLoopInv(cfg, from, data, i, p, marks, log);
    hide AtLoop, Run, Play, Inv, Exec;
    ExecBodyEnd(cfg, p, data[i]);
    AtBodyByte(cfg, from, data, i, p, marks, log, p.(contentLength := 0, state := ChunkDataAlmostDone));
  }

  /** s_body_identity and s_chunk_data: everything up to the announced length at once. */
  method BodyTurn(cfg: Config, ghost from: Progress, data: seq<octet>, i: nat, p: Parser, marks: Marks, log: seq<Event>)
    returns (t: Turn)
    requires i < |data| && AtLoop(cfg, from, data, i, p, marks, log) && CountedBody(p.state)
    ensures TurnOk(cfg, from, data, i, t)
  {
    hide AtLoop, Exec, Run, Play, Inv, PlayOne;
    AtLoopInv(cfg, from, data, i, p, marks, log);
    AtLoopMarks(cfg, from, data, i, p, marks, log);
    BodyLength(cfg, p);
    var toRead := Min(p.contentLength, |data| - i);
    var j := i + toRead;
    var marked := Marked(marks, i);
    var q := p.(contentLength := p.contentLength - toRead);
    if q.contentLength > 0 {
      BodyRun(cfg, from, data, i, j, p, marks, log);
      return Onward(j, q, marked, log);
    }
    ghost var before, m := p, marks;
    if toRead > 1 {
      BodyRun(cfg, from, data, i, j - 1, p, marks, log);
      before, m := p.(contentLength := 1), marked;
    }
    if p.state.ChunkData? {
      ChunkEnd(cfg, from, data, j - 1, before, m, log);
      return Onward(j, q.(state := ChunkDataAlmostDone), marked, log);
    }
    var x := Exec(cfg, q.(state := MessageDone), data[i]);
    DoneExec(cfg, q.(state := MessageDone), data[j - 1], data[i]);
    IdentityEnd(cfg, from, data, j - 1, before, m, log, x);
    AtLoopMarks(cfg, from, data, j - 1, before, m, log);
    assert Marked(m, j - 1) == marked;
    var flushed := PlayOne(FlushThrough(Body), marked, data, j - 1);
    match x
    case Next(r, acts) =>
      var played := Play(acts, flushed.0, data, j - 1);
      t := Onward(j, r, played.0, log + flushed.1 + played.1);
    case Exit(r, acts) =>
      t := Upgraded(j, r, log + flushed.1 + Play(acts, flushed.0, data, j - 1).1);
    case Fail(e) =>
      t := Stopped(e);
    case Again(_, _) =>
      assert false;
  }

  lemma BodyLength(cfg: Config, p: Parser)
    requires Inv(cfg, p) && CountedBody(p.state)
    ensures p.contentLength > 0
  {
  }

  lemma DoneExec(cfg: Config, p: Parser, a: octet, b: octet)
    requires p.state.MessageDone?
    ensures Exec(cfg, p, a) == Exec(cfg, p, b)
  {
  }

  lemma AtLoopMarks(cfg: Config, from: Progress, data: seq<octet>, i: nat, p: Parser, marks: Marks, log: seq<Event>)
    requires AtLoop(cfg, from, data, i, p, marks, log)
    ensures i <= |data| && Within(marks, i)
  {
    hide Run, Inv, Live, InitialMarks;
  }

  /** s_body_identity_eof: the rest of the buffer. */
  method EofTurn(cfg: Config, ghost from: Progress, data: seq<octet>, i: nat, p: Parser, marks: Marks, log: seq<Event>)
    returns (t: Turn)
    requires i < |data| && AtLoop(cfg, from, data, i, p, marks, log) && p.state.BodyIdentityEof?
    ensures TurnOk(cfg, from, data, i, t)
  {
    hide AtLoop;
    EofRun(cfg, from, data, i, |data|, p, marks, log);
    t := Onward(|data|, p, Marked(marks, i), log);
  }

  /** One turn of the main loop. */
  method OneTurn(cfg: Config, ghost from: Progress, data: seq<octet>, i: nat, p: Parser, marks: Marks, log: seq<Event>)
    returns (t: Turn)
    requires cfg.maxHeaderSize + |data| < TWO_TO_32
    requires i < |data| && AtLoop(cfg, from, data, i, p, marks, log)
    ensures TurnOk(cfg, from, data, i, t)
  {
    hide AtLoop, TurnOk;
    match p.state
    case HeaderField => t := NameTurn(cfg, from, data, i, p, marks, log);
    case HeaderValue => t := ValueTurn(cfg, from, data, i, p, marks, log);
    case BodyIdentity => t := BodyTurn(cfg, from, data, i, p, marks, log);
    case ChunkData => t := BodyTurn(cfg, from, data, i, p, marks, log);
    case BodyIdentityEof => t := EofTurn(cfg, from, data, i, p, marks, log);
    case _ => t := Single(cfg, from, data, i, p, marks, log);
  }

  /** A connection: the parser record, its error, and the callbacks made so far. */
  class Connection {
    const cfg: Config
    var parser: Parser
    var errno: Option<Errno>
    var calls: seq<Event>

    ghost predicate Valid()
      reads this
    {
      cfg.maxHeaderSize < TWO_TO_32 && Inv(cfg, parser)
    }

    /** What the client can tell of the stream so far. */
    ghost function View(): Progress
      reads this
    {
      if errno.Some? then Failed else Going(parser, Join(calls))
    }

    constructor (cfg: Config, kind: MessageKind)
      requires cfg.maxHeaderSize < TWO_TO_32
      ensures Valid() && this.cfg == cfg && View() == Going(Init(kind), [])
    {
      this.cfg := cfg;
      parser, errno, calls := Init(kind), None, [];
    }

    /** http_parser_execute on a non-empty buffer: the outcome is that of the byte-at-a-time reading. */
    method Execute(data: seq<octet>) returns (n: nat)
      requires Valid() && data != [] && cfg.maxHeaderSize + |data| < TWO_TO_32
      modifies this
      ensures Valid() && n <= |data|
      ensures var g := Run(cfg, old(View()), data);
              match g
              case Going(_, _) => View() == g && n == |data|
              case Switched(p, t) => View() == Going(p, t) && Run(cfg, old(View()), data[..n]) == g
              case Failed => View() == Failed
    {
      if errno.Some? {
        RunStopped(cfg, Failed, data);
        return 0;
      }
      ghost var from := View();
      var p, marks, log, i := parser, InitialMarks(parser.state), calls, 0;
      assert AtLoop(cfg, from, data, 0, p, marks, log) by {
        RelStart(p.state, log, data);
        assert data[..0] == [];
      }
      hide AtLoop, Run, Inv, Leftover, Join, InitialMarks;
      while i < |data|
        invariant i <= |data| && AtLoop(cfg, from, data, i, p, marks, log)
        invariant errno == old(errno) && parser == old(parser) && calls == old(calls)
      {
        var t := OneTurn(cfg, from, data, i, p, marks, log);
        match t
        case Onward(j, q, ms, l) =>
          AtLoopInv(cfg, from, data, j, q, ms, l);
          i, p, marks, log := j, q, ms, l;
        case Upgraded(m, q, l) =>
          StoppedAt(cfg, from, data, m);
          parser, calls := q, l;
          return m;
        case Stopped(e) =>
          errno := Some(e);
          return i;
      }
      assert data[..|data|] == data;
      AtEndOfBuffer(cfg, from, data, p, marks, log);
      parser, calls := p, log + Leftover(marks, data);
      n := |data|;
    }

    /** http_parser_execute with length 0, which tells the parser that the stream has ended. */
    method ExecuteEof() returns (n: nat)
      requires Valid()
      modifies this
      ensures Valid()
      ensures old(errno.Some?) ==> View() == Failed && n == 0
      ensures old(errno.None?) ==>
                match old(parser.state)
                case BodyIdentityEof =>
                  n == 0 && View() == Going(old(parser), Push(old(Join(calls)), Notify(MessageComplete)))
                case Dead => n == 0 && View() == old(View())
                case StartReqOrRes => n == 0 && View() == old(View())
                case StartRes => n == 0 && View() == old(View())
                case StartReq => n == 0 && View() == old(View())
                case _ => n == 1 && View() == Failed
    {
      if errno.Some? {
        return 0;
      }
      match parser.state
      case BodyIdentityEof =>
        JoinSnoc(calls, Notify(MessageComplete));
        calls := calls + [Notify(MessageComplete)];
        n := 0;
      case Dead => n := 0;
      case StartReqOrRes => n := 0;
      case StartRes => n := 0;
      case StartReq => n := 0;
      case _ =>
        errno := Some(InvalidEofState);
        n := 1;
    }
  }

  lemma AtEndOfBuffer(cfg: Config, from: Progress, data: seq<octet>, p: Parser, marks: Marks, log: seq<Event>)
    requires data != [] && AtLoop(cfg, from, data, |data|, p, marks, log)
    ensures Within(marks, |data|) && Run(cfg, from, data) == Going(p, Join(log + Leftover(marks, data)))
    ensures Inv(cfg, p)
  {
    hide Run, Inv;
    assert data[..|data|] == data;
    RelFinish(p.state, marks, log, Run(cfg, from, data).trace, data);
  }

  /** Where a stream is cut does not matter: one buffer or two, the two connections end the same. */
  method SplitInvariance(whole: Connection, parts: Connection, a: seq<octet>, b: seq<octet>)
    requires whole != parts && whole.Valid() && parts.Valid()
    requires whole.cfg == parts.cfg && whole.View() == parts.View()
    requires a != [] && b != [] && whole.cfg.maxHeaderSize + |a| + |b| < TWO_TO_32
    requires !Run(whole.cfg, whole.View(), a + b).Switched?
    modifies whole, parts
    ensures whole.View() == parts.View()
  {
    ghost var cfg, from := whole.cfg, whole.View();
    hide Run;
    RunConcat(cfg, from, a, b);
    if Run(cfg, from, a).Switched? {
      RunStopped(cfg, Run(cfg, from, a), b);
    }
    var _ := whole.Execute(a + b);
    var _ := parts.Execute(a);
    if Run(cfg, from, a).Failed? {
      RunStopped(cfg, Failed, b);
    }
    var _ := parts.Execute(b);
  }
}
