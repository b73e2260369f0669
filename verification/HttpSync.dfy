/** Reading a byte inside a larger buffer and reading it as its own buffer make the same joined trace. */
module HttpSync {
  import opened Wrappers
  import opened HttpTypes
  import opened HttpSwitch
  import opened HttpTrace
  import opened HttpRun

  /** The bytes of the open field that no callback has delivered yet. */
  function Pending(live: Option<Kind>, marks: Marks, data: seq<octet>, i: nat): seq<Event>
    requires i <= |data| && Within(marks, i)
  {
    if live.Some? && live.value in marks && marks[live.value] < i
    then [Data(live.value, data[marks[live.value]..i])] else []
  }

  /** The two readings before byte `i`: the long buffer has `marks` set and has made the callbacks `log`;
      the one-byte buffer has `own` set; `trace` joins what the one-byte readings have made. */
  ghost predicate Rel(live: Option<Kind>, own: Marks, marks: Marks, log: seq<Event>, trace: seq<Event>,
                      data: seq<octet>, i: nat)
    requires i <= |data|
  {
    && Within(marks, i)
    && (match live
        case None => own == map[] && marks == map[]
        case Some(k) =>
          && (marks == map[] || marks.Keys == {k})
          && (own == map[] || own == map[k := 0])
          && (own != map[] ==> marks != map[])
          && (marks != map[] && own == map[] ==> marks[k] < i)
          && (k != Body ==> own != map[]))
    && trace == PushAll(Join(log), Pending(live, marks, data, i))
  }

  lemma PushAllOne(t: seq<Event>, e: Event)
    ensures PushAll(t, [e]) == Push(t, e)
  {
    assert [e][1..] == [];
    assert PushAll(Push(t, e), []) == Push(t, e);
  }

  lemma JoinSnoc(log: seq<Event>, e: Event)
    ensures Join(log + [e]) == Push(Join(log), e)
  {
    PushAllConcat([], log, [e]);
    PushAllOne(Join(log), e);
  }

  lemma PlaySingle(act: Action, marks: Marks, data: seq<octet>, i: nat)
    requires i < |data| && Within(marks, i)
    ensures Play([act], marks, data, i) == PlayOne(act, marks, data, i)
  {
    var first := PlayOne(act, marks, data, i);
    assert [act][1..] == [];
    assert Play([], first.0, data, i) == (first.0, []);
    assert first.1 + [] == first.1;
  }

  lemma PlayTwo(a: Action, b: Action, marks: Marks, data: seq<octet>, i: nat)
    requires i < |data| && Within(marks, i)
    ensures var x := PlayOne(a, marks, data, i);
            var y := PlayOne(b, x.0, data, i);
            Play([a, b], marks, data, i) == (y.0, x.1 + y.1)
  {
    PlaySingle(a, marks, data, i);
    PlaySingle(b, PlayOne(a, marks, data, i).0, data, i);
    assert [a] + [b] == [a, b];
    PlayConcat([a], [b], marks, data, i);
  }

  lemma RelCall(note: Note, after: Option<Kind>, log: seq<Event>, trace: seq<Event>, data: seq<octet>, i: nat)
    requires i < |data|
    requires Rel(None, map[], map[], log, trace, data, i)
    requires after == None || after == Some(Body)
    ensures Rel(after, map[], map[], log + [Notify(note)], PushAll(trace, [Notify(note)]), data, i)
  {
    JoinSnoc(log, Notify(note));
    PushAllOne(trace, Notify(note));
  }

  lemma RelMark(live: Option<Kind>, k: Kind, own: Marks, marks: Marks, log: seq<Event>, trace: seq<Event>,
                data: seq<octet>, i: nat)
    requires i < |data|
    requires Rel(live, own, marks, log, trace, data, i)
    requires live == None || (live == Some(Body) && k == Body)
    ensures var o := PlayOne(Mark(k), own, [data[i]], 0);
            var m := PlayOne(Mark(k), marks, data, i);
            o.1 == m.1 == [] && o.0 != map[] && Rel(Some(k), o.0, m.0, log, trace, data, i)
  {
    var m := PlayOne(Mark(k), marks, data, i).0;
    assert k in m;
    var o := PlayOne(Mark(k), own, [data[i]], 0).0;
    assert k in o && o == map[k := 0];
  }

  lemma RelFlush(k: Kind, own: Marks, marks: Marks, log: seq<Event>, trace: seq<Event>, data: seq<octet>, i: nat)
    requires i < |data|
    requires Rel(Some(k), own, marks, log, trace, data, i)
    ensures var o := PlayOne(Flush(k), own, [data[i]], 0);
            var m := PlayOne(Flush(k), marks, data, i);
            Rel(None, o.0, m.0, log + m.1, PushAll(trace, o.1), data, i)
  {
    var o := PlayOne(Flush(k), own, [data[i]], 0);
    var m := PlayOne(Flush(k), marks, data, i);
    assert o.0 == map[] && m.0 == map[];
    if k in marks {
      var bytes := data[marks[k]..i];
      JoinSnoc(log, Data(k, bytes));
      PushAllOne(Join(log), Data(k, bytes));
      if k in own {
        assert own[k] == 0 && [data[i]][0..0] == [];
        PushAllOne(trace, Data(k, []));
        PushTwice(Join(log), k, bytes, []);
        assert bytes + [] == bytes;
      }
    } else {
      assert log + [] == log;
    }
  }

  lemma RelFlushThrough(own: Marks, marks: Marks, log: seq<Event>, trace: seq<Event>, data: seq<octet>, i: nat)
    requires i < |data| && own != map[]
    requires Rel(Some(Body), own, marks, log, trace, data, i)
    ensures var o := PlayOne(FlushThrough(Body), own, [data[i]], 0);
            var m := PlayOne(FlushThrough(Body), marks, data, i);
            Rel(None, o.0, m.0, log + m.1, PushAll(trace, o.1), data, i)
  {
    var o := PlayOne(FlushThrough(Body), own, [data[i]], 0);
    var m := PlayOne(FlushThrough(Body), marks, data, i);
    assert o.0 == map[] && m.0 == map[];
    var from := marks[Body];
    var bytes := data[from..i];
    assert data[from..i + 1] == bytes + [data[i]];
    assert [data[i]][0..1] == [data[i]];
    JoinSnoc(log, Data(Body, bytes + [data[i]]));
    PushAllOne(trace, Data(Body, [data[i]]));
    PushAllOne(Join(log), Data(Body, bytes));
    PushTwice(Join(log), Body, bytes, [data[i]]);
    assert from == i ==> bytes + [data[i]] == [data[i]];
  }

  /** Any action list of the right shape keeps the two readings together. */
  lemma RelActs(live: Option<Kind>, acts: seq<Action>, after: Option<Kind>, own: Marks, marks: Marks,
                log: seq<Event>, trace: seq<Event>, data: seq<octet>, i: nat)
    requires i < |data|
    requires Rel(live, own, marks, log, trace, data, i)
    requires Shape(live, acts, after)
    ensures var o := Play(acts, own, [data[i]], 0);
            var m := Play(acts, marks, data, i);
            && Rel(after, o.0, m.0, log + m.1, PushAll(trace, o.1), data, i)
            && (live != Some(Body) || acts != [] ==> (m.0 != map[] ==> o.0 != map[]))
  {
    hide PlayOne, Push, PushAll;
    assert PushAll(trace, []) == trace by { PushAllNone(trace); }
    assert log + [] == log;
    if acts == [] {
      PushAllNone(Join(log));
    } else if |acts| == 1 {
      PlaySingle(acts[0], own, [data[i]], 0);
      PlaySingle(acts[0], marks, data, i);
      assert acts == [acts[0]];
      match acts[0]
      case Call(n) => RelCallPlay(n, after, log, trace, data, i);
      case Mark(k) => RelMark(live, k, own, marks, log, trace, data, i);
      case Flush(k) => RelFlush(k, own, marks, log, trace, data, i);
      case FlushThrough(k) =>
    } else if acts[0] == Mark(Value) {
      assert acts == [acts[0], acts[1]];
      PlayTwo(acts[0], acts[1], own, [data[i]], 0);
      PlayTwo(acts[0], acts[1], marks, data, i);
      RelMark(live, Value, own, marks, log, trace, data, i);
      var o := PlayOne(Mark(Value), own, [data[i]], 0);
      var m := PlayOne(Mark(Value), marks, data, i);
      RelFlush(Value, o.0, m.0, log, trace, data, i);
      NothingBefore(PlayOne(Flush(Value), o.0, [data[i]], 0).1);
      NothingBefore(PlayOne(Flush(Value), m.0, data, i).1);
    } else {
      assert acts == [acts[0], acts[1]];
      PlayTwo(acts[0], acts[1], own, [data[i]], 0);
      PlayTwo(acts[0], acts[1], marks, data, i);
      RelMark(live, Body, own, marks, log, trace, data, i);
      var o := PlayOne(Mark(Body), own, [data[i]], 0);
      var m := PlayOne(Mark(Body), marks, data, i);
      RelFlushThrough(o.0, m.0, log, trace, data, i);
      NothingBefore(PlayOne(FlushThrough(Body), o.0, [data[i]], 0).1);
      NothingBefore(PlayOne(FlushThrough(Body), m.0, data, i).1);
    }
  }

  lemma PushAllNone(t: seq<Event>)
    ensures PushAll(t, []) == t
  {
  }

  lemma NothingBefore(es: seq<Event>)
    ensures [] + es == es
  {
  }

  lemma RelCallPlay(note: Note, after: Option<Kind>, log: seq<Event>, trace: seq<Event>, data: seq<octet>, i: nat)
    requires i < |data|
    requires Rel(None, map[], map[], log, trace, data, i)
    requires after == None || after == Some(Body)
    ensures var o := PlayOne(Call(note), map[], [data[i]], 0);
            var m := PlayOne(Call(note), map[], data, i);
            o.0 == m.0 == map[] && Rel(after, o.0, m.0, log + m.1, PushAll(trace, o.1), data, i)
  {
    RelCall(note, after, log, trace, data, i);
  }

  lemma ExecUnfold(cfg: Config, p: Parser, ch: octet)
    ensures var pass := Switch(cfg, p, ch);
            && PassOk(p, pass)
            && Exec(cfg, p, ch) == if pass.Again? then Prepend(pass.acts, Exec(cfg, pass.p, ch)) else pass
  {
    hide Switch;
    PassesOk(cfg, p, ch);
  }

  /** The two readings are together after the pass or chain `x` from these marks. */
  ghost predicate Together(x: Pass, own: Marks, marks: Marks, log: seq<Event>,
                           trace: seq<Event>, data: seq<octet>, i: nat)
    requires i < |data| && Within(own, 0) && Within(marks, i) && !x.Fail?
  {
    var o := Play(x.acts, own, [data[i]], 0);
    var m := Play(x.acts, marks, data, i);
    && Rel(Live(x.p.state), o.0, m.0, log + m.1, PushAll(trace, o.1), data, i)
    && (!x.Again? ==> m.0 != map[] ==> o.0 != map[])
  }

  lemma RelPass(p: Parser, pass: Pass, own: Marks, marks: Marks, log: seq<Event>,
                trace: seq<Event>, data: seq<octet>, i: nat)
    requires i < |data|
    requires Rel(Live(p.state), own, marks, log, trace, data, i)
    requires PassOk(p, pass) && !pass.Fail?
    ensures Together(pass, own, marks, log, trace, data, i)
  {
    hide Play, PushAll, Rel;
    RelActs(Live(p.state), pass.acts, Live(pass.p.state), own, marks, log, trace, data, i);
  }

  lemma TogetherIs(x: Pass, own: Marks, marks: Marks, log: seq<Event>, trace: seq<Event>, data: seq<octet>, i: nat,
                   o: (Marks, seq<Event>), m: (Marks, seq<Event>))
    requires i < |data| && Within(own, 0) && Within(marks, i) && !x.Fail?
    requires o == Play(x.acts, own, [data[i]], 0) && m == Play(x.acts, marks, data, i)
    ensures Together(x, own, marks, log, trace, data, i) <==>
            && Rel(Live(x.p.state), o.0, m.0, log + m.1, PushAll(trace, o.1), data, i)
            && (!x.Again? ==> m.0 != map[] ==> o.0 != map[])
  {
    hide Play, Rel, PushAll, Live;
  }

  lemma TogetherThen(pass: Pass, y: Pass, own: Marks, marks: Marks, log: seq<Event>,
                     trace: seq<Event>, data: seq<octet>, i: nat)
    requires i < |data| && Within(own, 0) && Within(marks, i)
    requires pass.Again? && (y.Next? || y.Exit?)
    requires Together(pass, own, marks, log, trace, data, i)
    requires var o := Play(pass.acts, own, [data[i]], 0);
             var m := Play(pass.acts, marks, data, i);
             Together(y, o.0, m.0, log + m.1, PushAll(trace, o.1), data, i)
    ensures Together(Prepend(pass.acts, y), own, marks, log, trace, data, i)
  {
    hide Together, Play, Rel, PushAll, Live, Within;
    var o := Play(pass.acts, own, [data[i]], 0);
    var m := Play(pass.acts, marks, data, i);
    var o' := Play(y.acts, o.0, [data[i]], 0);
    var m' := Play(y.acts, m.0, data, i);
    PlayConcat(pass.acts, y.acts, own, [data[i]], 0);
    PlayConcat(pass.acts, y.acts, marks, data, i);
    PushAllConcat(trace, o.1, o'.1);
    assert log + m.1 + m'.1 == log + (m.1 + m'.1);
    TogetherIs(y, o.0, m.0, log + m.1, PushAll(trace, o.1), data, i, o', m');
    TogetherIs(Prepend(pass.acts, y), own, marks, log, trace, data, i, (o'.0, o.1 + o'.1), (m'.0, m.1 + m'.1));
  }

  /** The readings stay together through a whole chain of REEXECUTEs. */
  lemma {:induction false} RelExec(cfg: Config, p: Parser, own: Marks, marks: Marks, log: seq<Event>,
                                   trace: seq<Event>, data: seq<octet>, i: nat)
    requires i < |data|
    requires Rel(Live(p.state), own, marks, log, trace, data, i)
    ensures var x := Exec(cfg, p, data[i]);
            !x.Fail? ==>
              && Together(x, own, marks, log, trace, data, i)
              && (x.Exit? ==> Live(x.p.state) == None)
    decreases Rank(p.state)
  {
    var ch := data[i];
    assert Within(own, 0) && Within(marks, i);
    ExecUnfold(cfg, p, ch);
    var pass := Switch(cfg, p, ch);
    hide Switch, Exec, Together, Rel, Shape, Live;
    if !pass.Fail? {
      RelPass(p, pass, own, marks, log, trace, data, i);
    }
    if pass.Again? {
      var o := Play(pass.acts, own, [ch], 0);
      var m := Play(pass.acts, marks, data, i);
      hide Play, PushAll;
      TogetherRel(pass, own, marks, log, trace, data, i);
      RelExec(cfg, pass.p, o.0, m.0, log + m.1, PushAll(trace, o.1), data, i);
      var y := Exec(cfg, pass.p, ch);
      if !y.Fail? {
        TogetherThen(pass, y, own, marks, log, trace, data, i);
      }
    }
  }

  lemma TogetherRel(x: Pass, own: Marks, marks: Marks, log: seq<Event>,
                    trace: seq<Event>, data: seq<octet>, i: nat)
    requires i < |data| && Within(own, 0) && Within(marks, i) && !x.Fail?
    requires Together(x, own, marks, log, trace, data, i)
    ensures var o := Play(x.acts, own, [data[i]], 0);
            var m := Play(x.acts, marks, data, i);
            Rel(Live(x.p.state), o.0, m.0, log + m.1, PushAll(trace, o.1), data, i)
  {
  }

  lemma LeftoverNone(data: seq<octet>)
    ensures Leftover(map[], data) == []
  {
  }

  lemma LeftoverOne(k: Kind, marks: Marks, data: seq<octet>)
    requires marks.Keys == {k} && Within(marks, |data|)
    ensures Leftover(marks, data) == [Data(k, data[marks[k]..])]
  {
  }

  lemma EndOpen(k: Kind, own: Marks, marks: Marks, log: seq<Event>, trace: seq<Event>,
                data: seq<octet>, i: nat, next: Marks)
    requires i < |data| && own != map[]
    requires Rel(Some(k), own, marks, log, trace, data, i)
    requires next == if k == Body then map[] else map[k := 0]
    ensures Within(own, 1)
    ensures Rel(Some(k), next, marks, log, PushAll(trace, Leftover(own, [data[i]])), data, i + 1)
  {
    hide Leftover, Push, PushAll, Join;
    LeftoverOne(k, own, [data[i]]);
    var from := marks[k];
    assert data[from..i + 1] == data[from..i] + [data[i]];
    assert [data[i]][0..] == [data[i]];
    PushAllNone(Join(log));
    PushAllOne(trace, Data(k, [data[i]]));
    PushAllOne(Join(log), Data(k, data[from..i]));
    PushAllOne(Join(log), Data(k, data[from..i + 1]));
    PushTwice(Join(log), k, data[from..i], [data[i]]);
    assert from == i ==> data[from..i + 1] == [data[i]];
  }

  /** At the end of a byte, its own buffer delivers it and the long buffer keeps it pending. */
  lemma RelEndOfByte(s: State, own: Marks, marks: Marks, log: seq<Event>, trace: seq<Event>,
                     data: seq<octet>, i: nat)
    requires i < |data|
    requires Rel(Live(s), own, marks, log, trace, data, i)
    requires marks != map[] ==> own != map[]
    ensures Within(own, 1)
    ensures Rel(Live(s), InitialMarks(s), marks, log, PushAll(trace, Leftover(own, [data[i]])), data, i + 1)
  {
    hide Leftover, Push, PushAll, Join;
    if own != map[] {
      EndOpen(Live(s).value, own, marks, log, trace, data, i, InitialMarks(s));
    } else {
      hide Live;
      LeftoverNone([data[i]]);
      PushAllNone(trace);
    }
  }

  /** One byte of a long buffer against StepByte. */
  lemma RelStep(cfg: Config, p: Parser, marks: Marks, log: seq<Event>, trace: seq<Event>,
                data: seq<octet>, i: nat, nread: nat)
    requires i < |data|
    requires Rel(Live(p.state), InitialMarks(p.state), marks, log, trace, data, i)
    requires (if p.state.ParsingHeader() then Count(cfg, p.nread, 1) else Some(p.nread)) == Some(nread)
    ensures var x := Exec(cfg, p.(nread := nread), data[i]);
            var g := StepByte(cfg, p, trace, data[i]);
            if x.Next? then
              var m := Play(x.acts, marks, data, i);
              && g.Going? && g.p == x.p
              && Rel(Live(x.p.state), InitialMarks(x.p.state), m.0, log + m.1, g.trace, data, i + 1)
            else if x.Exit? then
              var m := Play(x.acts, marks, data, i);
              g == Switched(x.p, Join(log + m.1)) && m.0 == map[]
            else g == Failed
  {
    var q := p.(nread := nread);
    var x := Exec(cfg, q, data[i]);
    RelExec(cfg, q, InitialMarks(p.state), marks, log, trace, data, i);
    if x.Next? || x.Exit? {
      var o := Play(x.acts, InitialMarks(p.state), [data[i]], 0);
      var m := Play(x.acts, marks, data, i);
      if x.Next? {
        RelEndOfByte(x.p.state, o.0, m.0, log + m.1, PushAll(trace, o.1), data, i);
      } else {
        hide Exec, Play;
        PushAllNone(Join(log + m.1));
      }
    }
  }

  lemma RelStart(s: State, log: seq<Event>, data: seq<octet>)
    ensures Rel(Live(s), InitialMarks(s), InitialMarks(s), log, Join(log), data, 0)
  {
    match Live(s) {
      case None =>
      case Some(k) => assert k == Body || k in InitialMarks(s);
    }
    hide Live;
    PushAllNone(Join(log));
  }

  lemma RelFinish(s: State, marks: Marks, log: seq<Event>, trace: seq<Event>, data: seq<octet>)
    requires data != []
    requires Rel(Live(s), InitialMarks(s), marks, log, trace, data, |data|)
    requires forall k <- marks :: marks[k] < |data|
    ensures trace == Join(log + Leftover(marks, data))
  {
    match Live(s)
    case None =>
      LeftoverNone(data);
      assert log + [] == log;
    case Some(k) =>
      if marks == map[] {
        LeftoverNone(data);
        assert log + [] == log;
      } else {
        LeftoverOne(k, marks, data);
        assert data[marks[k]..|data|] == data[marks[k]..];
        JoinSnoc(log, Data(k, data[marks[k]..]));
        PushAllOne(Join(log), Data(k, data[marks[k]..]));
      }
  }
}
