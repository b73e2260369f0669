/** Header bytes against max_header_size: what is read within the limit, and that anything longer fails. */
module HttpLeads {
  import opened HttpTypes
  import opened HttpRun
  import opened HttpBulk
  import opened HttpSteps

  /** Reading `data` counts each of its bytes, and leads from one parser and trace to the other exactly within the
      limit; beyond it reading fails. */
  ghost predicate Leads(cfg: Config, p: Parser, t: seq<Event>, data: seq<octet>, q: Parser, u: seq<Event>) {
    && q.nread == p.nread + |data|
    && Run(cfg, Going(p, t), data) == if q.nread <= cfg.maxHeaderSize then Going(q, u) else Failed
  }

  /** A limit that the 32-bit counter can pass, and a parser within it. */
  predicate Limited(cfg: Config, p: Parser) { cfg.maxHeaderSize + 1 < TWO_TO_32 && p.nread <= cfg.maxHeaderSize }

  lemma LeadsNothing(cfg: Config, p: Parser, t: seq<Event>)
    requires Limited(cfg, p)
    ensures Leads(cfg, p, t, [], p, t)
  {
  }

  lemma StepOver(cfg: Config, p: Parser, t: seq<Event>, ch: octet)
    requires cfg.maxHeaderSize + 1 < TWO_TO_32 && p.state.ParsingHeader() && p.nread == cfg.maxHeaderSize
    ensures StepByte(cfg, p, t, ch) == Failed
  {
    hide Exec;
    CountOne(cfg, p);
  }

  /** One more byte, when within the limit it is read as said. */
  lemma LeadsMore(cfg: Config, p: Parser, t: seq<Event>, data: seq<octet>, ch: octet,
                  q: Parser, u: seq<Event>, r: Parser, v: seq<Event>)
    requires Limited(cfg, p) && Leads(cfg, p, t, data, q, u) && q.state.ParsingHeader() && r.nread == q.nread + 1
    requires r.nread <= cfg.maxHeaderSize ==> Run(cfg, Going(p, t), data + [ch]) == Going(r, v)
    ensures Leads(cfg, p, t, data + [ch], r, v)
  {
    hide StepByte, Run;
    RunLast(cfg, Going(p, t), data, ch);
    if q.nread == cfg.maxHeaderSize {
      StepOver(cfg, q, u, ch);
    }
  }

  lemma LeadsStep(cfg: Config, p: Parser, t: seq<Event>, ch: octet, r: Parser, v: seq<Event>)
    requires Limited(cfg, p) && p.state.ParsingHeader() && r.nread == p.nread + 1
    requires r.nread <= cfg.maxHeaderSize ==> StepByte(cfg, p, t, ch) == Going(r, v)
    ensures Leads(cfg, p, t, [ch], r, v)
  {
    hide StepByte;
    RunOne(cfg, p, t, ch);
    if p.nread == cfg.maxHeaderSize {
      StepOver(cfg, p, t, ch);
    }
  }

  lemma LeadsConcat(cfg: Config, p: Parser, t: seq<Event>, a: seq<octet>, b: seq<octet>,
                    q: Parser, u: seq<Event>, r: Parser, v: seq<Event>)
    requires Leads(cfg, p, t, a, q, u) && (q.nread <= cfg.maxHeaderSize ==> Leads(cfg, q, u, b, r, v))
    requires r.nread == q.nread + |b|
    ensures Leads(cfg, p, t, a + b, r, v)
  {
    hide Run;
    RunConcat(cfg, Going(p, t), a, b);
    if q.nread > cfg.maxHeaderSize {
      RunStopped(cfg, Failed, b);
    }
  }

  /** Within the limit, what follows is read from where the data leads. */
  lemma LeadsOn(cfg: Config, p: Parser, t: seq<Event>, a: seq<octet>, q: Parser, u: seq<Event>, b: seq<octet>)
    requires Leads(cfg, p, t, a, q, u)
    ensures Run(cfg, Going(p, t), a + b) ==
            if q.nread <= cfg.maxHeaderSize then Run(cfg, Going(q, u), b) else Failed
  {
    hide Run;
    RunConcat(cfg, Going(p, t), a, b);
    if q.nread > cfg.maxHeaderSize {
      RunStopped(cfg, Failed, b);
    }
  }
}
