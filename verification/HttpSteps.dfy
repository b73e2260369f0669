/** One byte of the byte-at-a-time reading, by the kind of action it causes. */
module HttpSteps {
  import opened Wrappers
  import opened HttpTypes
  import opened HttpSwitch
  import opened HttpTrace
  import opened HttpRun
  import opened HttpSync
  import opened HttpBulk

  /** The chunk states never re-execute. */
  lemma ExecChunk(cfg: Config, p: Parser, ch: octet)
    requires PartOf(p.state).PChunk?
    ensures Exec(cfg, p, ch) == SwitchChunk(p, ch)
  {
    hide Unhex;
  }

  /** s_message_done never re-executes. */
  lemma ExecDone(cfg: Config, p: Parser, ch: octet)
    requires p.state.MessageDone?
    ensures Exec(cfg, p, ch) == if p.upgrade then Exit(p.(state := NewMessage(p)), [Call(MessageComplete)])
                                else Next(p.(state := NewMessage(p)), [Call(MessageComplete)])
  {
    hide NewMessage;
  }

  /** One REEXECUTE, then whatever the state it goes to does. */
  lemma ExecAgain(cfg: Config, p: Parser, ch: octet, q: Parser, acts: seq<Action>)
    requires Switch(cfg, p, ch) == Again(q, acts)
    ensures Exec(cfg, p, ch) == Prepend(acts, Exec(cfg, q, ch))
  {
    hide Switch;
    ExecUnfold(cfg, p, ch);
  }

  lemma StepQuiet(cfg: Config, p: Parser, t: seq<Event>, ch: octet, q: Parser)
    requires Counted(cfg, p).Some? && Exec(cfg, p.(nread := Counted(cfg, p).value), ch) == Next(q, [])
    requires Live(p.state) == None
    ensures StepByte(cfg, p, t, ch) == Going(q, t)
  {
    hide Exec;
    LeftoverNone([ch]);
  }

  lemma StepCall(cfg: Config, p: Parser, t: seq<Event>, ch: octet, q: Parser, note: Note)
    requires Counted(cfg, p).Some? && Exec(cfg, p.(nread := Counted(cfg, p).value), ch) == Next(q, [Call(note)])
    requires Live(p.state) == None
    ensures StepByte(cfg, p, t, ch) == Going(q, t + [Notify(note)])
  {
    hide Exec;
    PlaySingle(Call(note), map[], [ch], 0);
    PushAllOne(t, Notify(note));
    LeftoverNone([ch]);
  }

  /** A byte of the open field `k`: either its mark was set before the byte, or the byte sets it. */
  lemma StepData(cfg: Config, p: Parser, t: seq<Event>, ch: octet, q: Parser, k: Kind, acts: seq<Action>)
    requires Counted(cfg, p).Some? && Exec(cfg, p.(nread := Counted(cfg, p).value), ch) == Next(q, acts)
    requires acts == [] ==> InitialMarks(p.state) == map[k := 0]
    requires acts != [] ==> acts == [Mark(k)] && InitialMarks(p.state) == map[]
    ensures StepByte(cfg, p, t, ch) == Going(q, Push(t, Data(k, [ch])))
  {
    hide Exec, Leftover, InitialMarks, PushAll;
    var own := InitialMarks(p.state);
    if acts != [] {
      PlaySingle(Mark(k), own, [ch], 0);
    }
    var played := Play(acts, own, [ch], 0);
    assert played == (map[k := 0], []);
    LeftoverOne(k, played.0, [ch]);
    assert [ch][0..] == [ch];
    PushAllNone(t);
    PushAllOne(t, Data(k, [ch]));
  }

  lemma StepFlush(cfg: Config, p: Parser, t: seq<Event>, ch: octet, q: Parser, k: Kind)
    requires Counted(cfg, p).Some? && Exec(cfg, p.(nread := Counted(cfg, p).value), ch) == Next(q, [Flush(k)])
    requires InitialMarks(p.state) == map[k := 0]
    ensures StepByte(cfg, p, t, ch) == Going(q, Push(t, Data(k, [])))
  {
    hide Exec, Leftover, InitialMarks, PushAll;
    var own := InitialMarks(p.state);
    PlaySingle(Flush(k), own, [ch], 0);
    assert own - {k} == map[];
    assert [ch][0..0] == [];
    LeftoverNone([ch]);
    PushAllOne(t, Data(k, []));
    PushAllNone(Push(t, Data(k, [])));
  }

  lemma StepFail(cfg: Config, p: Parser, t: seq<Event>, ch: octet)
    requires Counted(cfg, p).None? || Exec(cfg, p.(nread := Counted(cfg, p).value), ch).Fail?
    ensures StepByte(cfg, p, t, ch) == Failed
  {
    hide Exec;
  }

  lemma RunOne(cfg: Config, p: Parser, t: seq<Event>, ch: octet)
    ensures Run(cfg, Going(p, t), [ch]) == StepByte(cfg, p, t, ch)
  {
    hide StepByte;
    assert [ch][..0] == [];
  }

  lemma RunLast(cfg: Config, g: Progress, data: seq<octet>, ch: octet)
    ensures Run(cfg, g, data + [ch]) == Step(cfg, Run(cfg, g, data), ch)
  {
    hide Step;
    assert (data + [ch])[..|data|] == data;
  }

  lemma RunTwo(cfg: Config, p: Parser, t: seq<Event>, a: octet, b: octet, q: Parser, u: seq<Event>)
    requires StepByte(cfg, p, t, a) == Going(q, u)
    ensures Run(cfg, Going(p, t), [a, b]) == StepByte(cfg, q, u, b)
  {
    hide StepByte;
    assert [a] + [b] == [a, b];
    RunOne(cfg, p, t, a);
    RunLast(cfg, Going(p, t), [a], b);
  }
}
