/** Chunked framing (RFC 7230, section 4.1): what the parser makes of an encoded list of chunks. */
module HttpChunked {
  import opened Wrappers
  import opened HttpTypes
  import opened HttpNumerals
  import opened HttpSwitch
  import opened HttpTrace
  import opened HttpRun
  import opened HttpSync
  import opened HttpBulk
  import opened HttpSteps
  import opened HttpLeads
  import opened HttpBodies
  import opened HttpLines
  import opened HttpHeaders

  const HEX_LIMIT: nat := (ULLONG_MAX - 16) / 16

  /** The size strings the source accepts: all but the last digit stay within the limit. */
  predicate HexFits(d: seq<octet>)
    requires Hex(d) && d != []
  {
    HexValue(d[..|d| - 1]) <= HEX_LIMIT
  }

  /** At the head of a chunk: the parser that has just seen chunked headers, or the end of a chunk. */
  predicate AtChunk(p: Parser) { p.state.ChunkSizeStart? && p.flags.chunked && p.nread == 0 }

  function AfterSize(p: Parser, d: seq<octet>): Parser
    requires Hex(d)
  {
    p.(state := ChunkSize, contentLength := HexValue(d), nread := |d|)
  }

  lemma ExecSizeStart(cfg: Config, p: Parser, ch: octet)
    requires p.state.ChunkSizeStart? && p.flags.chunked && p.nread == 1
    ensures Exec(cfg, p, ch) ==
            if SizeDigit(ch) then Next(p.(state := ChunkSize, contentLength := Unhex(ch)), [])
            else Fail(InvalidChunkSize)
  {
    ExecChunk(cfg, p, ch);
    hide Exec;
  }

  lemma ExecSizeDigit(cfg: Config, p: Parser, ch: octet)
    requires p.state.ChunkSize? && p.flags.chunked && SizeDigit(ch)
    ensures Exec(cfg, p, ch) ==
            if p.contentLength > HEX_LIMIT then Fail(InvalidContentLength)
            else Next(p.(contentLength := p.contentLength * 16 + Unhex(ch)), [])
  {
    ExecChunk(cfg, p, ch);
    hide Exec;
  }

  lemma SizeByte(cfg: Config, p: Parser, t: seq<Event>, d: seq<octet>, ch: octet)
    requires cfg.maxHeaderSize + 1 < TWO_TO_32 && |d| + 1 <= cfg.maxHeaderSize
    requires AtChunk(p) && Hex(d) && SizeDigit(ch)
    ensures StepByte(cfg, AfterSize(p, d), t, ch) ==
            if HexValue(d) > HEX_LIMIT then Failed else Going(AfterSize(p, d + [ch]), t)
  {
    hide Exec, StepByte, Counted, HexValue;
    var q := AfterSize(p, d);
    var next := AfterSize(p, d + [ch]);
    CountOne(cfg, q);
    ExecSizeDigit(cfg, q.(nread := q.nread + 1), ch);
    HexSnoc(d, ch);
    if HexValue(d) <= HEX_LIMIT {
      assert next == q.(nread := q.nread + 1, contentLength := HexValue(d) * 16 + Unhex(ch));
      StepQuiet(cfg, q, t, ch, next);
    } else {
      StepFail(cfg, q, t, ch);
    }
  }

  lemma SizeFirst(cfg: Config, p: Parser, t: seq<Event>, ch: octet)
    requires cfg.maxHeaderSize + 1 < TWO_TO_32 && 1 <= cfg.maxHeaderSize && AtChunk(p)
    ensures StepByte(cfg, p, t, ch) == if SizeDigit(ch) then Going(AfterSize(p, [ch]), t) else Failed
  {
    hide Exec, StepByte, Counted, SizeDigit;
    assert HexValue([]) == 0 && [ch][..0] == [];
    CountOne(cfg, p);
    ExecSizeStart(cfg, p.(nread := 1), ch);
    if SizeDigit(ch) {
      StepQuiet(cfg, p, t, ch, AfterSize(p, [ch]));
    } else {
      StepFail(cfg, p, t, ch);
    }
  }

  /** A byte that neither ends a chunk size nor is a digit of one. */
  lemma NoSizeByte(cfg: Config, p: Parser, t: seq<Event>, d: seq<octet>, ch: octet)
    requires cfg.maxHeaderSize + 1 < TWO_TO_32 && |d| + 1 <= cfg.maxHeaderSize
    requires AtChunk(p) && Hex(d) && !SizeDigit(ch) && ch != CR && ch != ';' && ch != ' '
    ensures StepByte(cfg, AfterSize(p, d), t, ch) == Failed
  {
    hide Exec, StepByte, Counted, HexValue;
    var q := AfterSize(p, d);
    CountOne(cfg, q);
    ExecChunk(cfg, q.(nread := q.nread + 1), ch);
    StepFail(cfg, q, t, ch);
  }

  predicate NoSizeEnd(d: seq<octet>) { forall i :: 0 <= i < |d| ==> d[i] != CR && d[i] != ';' && d[i] != ' ' }

  /** What reading the bytes of a chunk size comes to. */
  function SizeRead(p: Parser, t: seq<Event>, d: seq<octet>): Progress
    requires d != []
  {
    if Hex(d) && HexFits(d) then Going(AfterSize(p, d), t) else Failed
  }

  lemma FitsSnoc(d: seq<octet>, ch: octet)
    requires d != []
    ensures Hex(d + [ch]) <==> Hex(d) && SizeDigit(ch)
    ensures Hex(d) && SizeDigit(ch) ==> (HexFits(d + [ch]) <==> HexValue(d) <= HEX_LIMIT)
    ensures Hex(d) && HexValue(d) <= HEX_LIMIT ==> HexFits(d)
  {
    hide SizeDigit;
    var e := d + [ch];
    assert e[..|d|] == d && e[|d|] == ch && forall i :: 0 <= i < |d| ==> e[i] == d[i];
    if Hex(d) {
      HexMonotonic(d, |d| - 1);
    }
  }

  lemma SizeStep(cfg: Config, p: Parser, t: seq<Event>, d: seq<octet>, ch: octet)
    requires cfg.maxHeaderSize + 1 < TWO_TO_32 && |d| + 1 <= cfg.maxHeaderSize
    requires AtChunk(p) && d != [] && ch != CR && ch != ';' && ch != ' '
    ensures Step(cfg, SizeRead(p, t, d), ch) == SizeRead(p, t, d + [ch])
  {
    hide StepByte, Hex, HexFits, HexValue, SizeDigit, AfterSize, AtChunk;
    FitsSnoc(d, ch);
    if Hex(d) && HexFits(d) {
      if SizeDigit(ch) {
        SizeByte(cfg, p, t, d, ch);
      } else {
        NoSizeByte(cfg, p, t, d, ch);
      }
    }
  }

  /** Any bytes of any length up to the end of a chunk size: accepted exactly when they are digits of the table whose
      value fits, and then `contentLength` is that value, with no wrap and never the "none seen" sentinel. */
  lemma {:induction false} ReadsSize(cfg: Config, p: Parser, t: seq<Event>, d: seq<octet>)
    requires cfg.maxHeaderSize + 1 < TWO_TO_32 && |d| <= cfg.maxHeaderSize
    requires AtChunk(p) && d != [] && NoSizeEnd(d)
    ensures Run(cfg, Going(p, t), d) == if Hex(d) && HexFits(d) then Going(AfterSize(p, d), t) else Failed
    ensures Hex(d) && HexFits(d) ==> AfterSize(p, d).contentLength == HexValue(d) < ULLONG_MAX
  {
    hide StepByte, Step, Hex, HexFits, HexValue, AfterSize, AtChunk;
    var n := |d| - 1;
    if n == 0 {
      assert d == [d[0]];
      OneSize(p, t, d[0]);
      SizeFirst(cfg, p, t, d[0]);
      RunOne(cfg, p, t, d[0]);
    } else {
      ReadsSize(cfg, p, t, d[..n]);
      assert d == d[..n] + [d[n]];
      SizeStep(cfg, p, t, d[..n], d[n]);
    }
    SizeBound(p, d);
  }

  lemma OneSize(p: Parser, t: seq<Event>, ch: octet)
    ensures SizeRead(p, t, [ch]) == if SizeDigit(ch) then Going(AfterSize(p, [ch]), t) else Failed
  {
    hide SizeDigit;
    assert [ch][..0] == [];
  }

  lemma SizeBound(p: Parser, d: seq<octet>)
    requires d != []
    ensures Hex(d) && HexFits(d) ==> AfterSize(p, d).contentLength == HexValue(d) < ULLONG_MAX
  {
    hide SizeDigit;
  }

  lemma HexNoEnd(d: seq<octet>)
    requires Hex(d)
    ensures NoSizeEnd(d)
  {
  }

  /** A chunk-ext: nothing, or bytes after ';' or ' ' up to the end of the line. */
  predicate Extension(ext: seq<octet>) { ext == [] || ((ext[0] == ';' || ext[0] == ' ') && CR !in ext) }

  lemma {:induction false} RunExtension(cfg: Config, p: Parser, t: seq<Event>, ext: seq<octet>)
    requires cfg.maxHeaderSize + 1 < TWO_TO_32 && p.nread + |ext| <= cfg.maxHeaderSize
    requires p.state.ChunkSize? && p.flags.chunked && Extension(ext) && ext != []
    ensures Run(cfg, Going(p, t), ext) == Going(p.(state := ChunkParameters, nread := p.nread + |ext|), t)
  {
    hide StepByte, Run;
    hide Exec;
    var n := |ext| - 1;
    var ch := ext[n];
    if n == 0 {
      assert ext == [ch];
      CountOne(cfg, p);
      var q := p.(nread := p.nread + 1);
      ExecChunk(cfg, q, ch);
      StepQuiet(cfg, p, t, ch, q.(state := ChunkParameters));
      RunOne(cfg, p, t, ch);
    } else {
      assert ext == ext[..n] + [ch];
      var q := p.(state := ChunkParameters, nread := p.nread + n);
      var r := q.(nread := q.nread + 1);
      ExecChunk(cfg, r, ch);
      RunExtension(cfg, p, t, ext[..n]);
      RunLast(cfg, Going(p, t), ext[..n], ch);
      CountOne(cfg, q);
      StepQuiet(cfg, q, t, ch, r);
    }
  }

  /** The parser after a whole chunk-size line of value `v`. */
  function AfterLine(p: Parser, v: nat): Parser {
    if v == 0 then p.(nread := 0, contentLength := 0, flags := p.flags.(trailing := true), state := HeaderFieldStart)
    else p.(nread := 0, contentLength := v, state := ChunkData)
  }

  lemma ChunkParts(s: State)
    requires || s.ChunkSize? || s.ChunkParameters? || s.ChunkSizeAlmostDone? || s.ChunkDataAlmostDone?
             || s.ChunkDataDone?
    ensures PartOf(s).PChunk?
  {
  }

  lemma ExecLineCr(cfg: Config, p: Parser)
    requires (p.state.ChunkSize? || p.state.ChunkParameters?) && p.flags.chunked
    ensures Exec(cfg, p, CR) == Next(p.(state := ChunkSizeAlmostDone), [])
  {
    hide Exec, Unhex, PartOf;
    ChunkParts(p.state);
    ExecChunk(cfg, p, CR);
  }

  lemma ExecLineLf(cfg: Config, p: Parser)
    requires p.state.ChunkSizeAlmostDone? && p.flags.chunked
    ensures Exec(cfg, p, LF) == Next(AfterLine(p, p.contentLength), [Call(ChunkHeader(p.contentLength))])
  {
    hide Exec, PartOf;
    ChunkParts(p.state);
    ExecChunk(cfg, p, LF);
  }

  lemma SameAfterLine(p: Parser, n: nat)
    ensures AfterLine(p.(state := ChunkSizeAlmostDone, nread := n), p.contentLength) == AfterLine(p, p.contentLength)
  {
  }

  lemma RunLineEnd(cfg: Config, p: Parser, t: seq<Event>)
    requires cfg.maxHeaderSize + 1 < TWO_TO_32 && p.nread + 2 <= cfg.maxHeaderSize
    requires (p.state.ChunkSize? || p.state.ChunkParameters?) && p.flags.chunked
    ensures Run(cfg, Going(p, t), [CR, LF]) ==
            Going(AfterLine(p, p.contentLength), t + [Notify(ChunkHeader(p.contentLength))])
  {
    hide Exec, StepByte, Counted, Run, AfterLine;
    SameAfterLine(p, p.nread + 2);
    var q := p.(state := ChunkSizeAlmostDone, nread := p.nread + 1);
    var r := q.(nread := q.nread + 1);
    CountOne(cfg, p);
    CountOne(cfg, q);
    ExecLineCr(cfg, p.(nread := p.nread + 1));
    ExecLineLf(cfg, r);
    hide Exec, StepByte;
    StepQuiet(cfg, p, t, CR, q);
    StepCall(cfg, q, t, LF, AfterLine(p, p.contentLength), ChunkHeader(p.contentLength));
    RunTwo(cfg, p, t, CR, LF, q, t);
  }

  function Line(size: seq<octet>, ext: seq<octet>): seq<octet> { size + ext + [CR, LF] }

  predicate LineOk(cfg: Config, size: seq<octet>, ext: seq<octet>) {
    Hex(size) && size != [] && HexFits(size) && Extension(ext) && |size| + |ext| + 2 <= cfg.maxHeaderSize
  }

  lemma RunLine(cfg: Config, p: Parser, t: seq<Event>, size: seq<octet>, ext: seq<octet>)
    requires cfg.maxHeaderSize + 1 < TWO_TO_32 && AtChunk(p) && LineOk(cfg, size, ext)
    ensures Run(cfg, Going(p, t), Line(size, ext)) ==
            Going(AfterLine(p, HexValue(size)), t + [Notify(ChunkHeader(HexValue(size)))])
  {
    hide StepByte, Run, HexValue, Step;
    HexNoEnd(size);
    ReadsSize(cfg, p, t, size);
    var q := AfterSize(p, size);
    if ext == [] {
      assert Line(size, ext) == size + [CR, LF];
      RunConcat(cfg, Going(p, t), size, [CR, LF]);
      RunLineEnd(cfg, q, t);
    } else {
      RunExtension(cfg, q, t, ext);
      RunConcat(cfg, Going(p, t), size, ext);
      RunConcat(cfg, Going(p, t), size + ext, [CR, LF]);
      RunLineEnd(cfg, q.(state := ChunkParameters, nread := q.nread + |ext|), t);
    }
  }

  /** A chunk as it is sent: its size as the sender wrote it, its extension, and its data. */
  datatype Chunk = Chunk(size: seq<octet>, ext: seq<octet>, data: seq<octet>)

  predicate ChunkOk(cfg: Config, c: Chunk) {
    LineOk(cfg, c.size, c.ext) && c.data != [] && HexValue(c.size) == |c.data|
  }

  function EncodeChunk(c: Chunk): seq<octet> { Line(c.size, c.ext) + c.data + [CR, LF] }

  function ChunkCalls(c: Chunk): seq<Event> {
    [Notify(ChunkHeader(|c.data|)), Data(Body, c.data), Notify(ChunkComplete)]
  }

  lemma ExecDataEnd(cfg: Config, p: Parser, q: Parser)
    requires p.state.ChunkDataAlmostDone? && p.flags.chunked && p.contentLength == 0
    requires q.state.ChunkDataDone? && q.flags.chunked
    ensures Exec(cfg, p, CR) == Next(p.(state := ChunkDataDone), [Flush(Body)])
    ensures Exec(cfg, q, LF) == Next(q.(state := ChunkSizeStart, nread := 0), [Call(ChunkComplete)])
  {
    hide Exec, PartOf;
    ChunkParts(p.state);
    ChunkParts(q.state);
    ExecChunk(cfg, p, CR);
    ExecChunk(cfg, q, LF);
  }

  lemma RunDataEnd(cfg: Config, p: Parser, t: seq<Event>, bytes: seq<octet>)
    requires p.state.ChunkDataAlmostDone? && p.flags.chunked && p.contentLength == 0
    ensures Run(cfg, Going(p, t + [Data(Body, bytes)]), [CR, LF]) ==
            Going(p.(state := ChunkSizeStart, nread := 0), t + [Data(Body, bytes), Notify(ChunkComplete)])
  {
    hide Exec, StepByte;
    var u := t + [Data(Body, bytes)];
    var q := p.(state := ChunkDataDone);
    ExecDataEnd(cfg, p, q);
    assert p.(nread := p.nread) == p && q.(nread := q.nread) == q;
    StepUnmarked(cfg, p, u, CR, q);
    StepCall(cfg, q, u, LF, q.(state := ChunkSizeStart, nread := 0), ChunkComplete);
    RunTwo(cfg, p, u, CR, LF, q, u);
    assert u + [Notify(ChunkComplete)] == t + [Data(Body, bytes), Notify(ChunkComplete)];
  }

  /** The CR after the data: read as its own buffer, it has no mark to flush. */
  lemma StepUnmarked(cfg: Config, p: Parser, t: seq<Event>, ch: octet, q: Parser)
    requires p.state.ChunkDataAlmostDone? && Exec(cfg, p.(nread := p.nread), ch) == Next(q, [Flush(Body)])
    ensures StepByte(cfg, p, t, ch) == Going(q, t)
  {
    hide Exec;
    PlaySingle(Flush(Body), map[], [ch], 0);
    PushAllNone(t);
    LeftoverNone([ch]);
  }

  /** One chunk: its header, its data in one fragment, its end; the parser is at a chunk again. */
  lemma RunChunk(cfg: Config, p: Parser, t: seq<Event>, c: Chunk)
    requires cfg.maxHeaderSize + 1 < TWO_TO_32 && AtChunk(p) && ChunkOk(cfg, c)
    ensures Run(cfg, Going(p, t), EncodeChunk(c)) == Going(p.(contentLength := 0), t + ChunkCalls(c))
  {
    hide StepByte, Run, HexValue, Step, Push;
    var line := Line(c.size, c.ext);
    RunLine(cfg, p, t, c.size, c.ext);
    HexNoEnd(c.size);
    ReadsSize(cfg, p, t, c.size);
    var q := AfterLine(p, |c.data|);
    var u := t + [Notify(ChunkHeader(|c.data|))];
    ChunkBytes(cfg, q, u, c.data);
    PushBody(u, ChunkHeader(|c.data|), c.data);
    RunDataEnd(cfg, q.(contentLength := 0, state := ChunkDataAlmostDone), u, c.data);
    RunConcat(cfg, Going(p, t), line, c.data);
    RunConcat(cfg, Going(p, t), line + c.data, [CR, LF]);
    assert u + [Data(Body, c.data), Notify(ChunkComplete)] == t + ChunkCalls(c);
  }

  lemma PushBody(u: seq<Event>, note: Note, bytes: seq<octet>)
    requires u != [] && u[|u| - 1] == Notify(note)
    ensures Push(u, Data(Body, bytes)) == u + [Data(Body, bytes)]
  {
  }

  // Whole bodies.

  function EncodeChunks(cs: seq<Chunk>): seq<octet> {
    if cs == [] then [] else EncodeChunk(cs[0]) + EncodeChunks(cs[1..])
  }

  function ChunksCalls(cs: seq<Chunk>): seq<Event> {
    if cs == [] then [] else ChunkCalls(cs[0]) + ChunksCalls(cs[1..])
  }

  predicate ChunksOk(cfg: Config, cs: seq<Chunk>) { forall i :: 0 <= i < |cs| ==> ChunkOk(cfg, cs[i]) }

  lemma {:induction false} RunChunks(cfg: Config, p: Parser, t: seq<Event>, cs: seq<Chunk>)
    requires cfg.maxHeaderSize + 1 < TWO_TO_32 && AtChunk(p) && ChunksOk(cfg, cs)
    ensures Run(cfg, Going(p, t), EncodeChunks(cs)) ==
            Going(if cs == [] then p else p.(contentLength := 0), t + ChunksCalls(cs))
    decreases cs
  {
    hide StepByte, EncodeChunk, ChunkCalls, Step, ChunkOk;
    if cs == [] {
      assert t + [] == t;
    } else {
      RunChunk(cfg, p, t, cs[0]);
      RunChunks(cfg, p.(contentLength := 0), t + ChunkCalls(cs[0]), cs[1..]);
      RunConcat(cfg, Going(p, t), EncodeChunk(cs[0]), EncodeChunks(cs[1..]));
      assert t + ChunkCalls(cs[0]) + ChunksCalls(cs[1..]) == t + ChunksCalls(cs);
    }
  }

  // The trailer.

  lemma LeadsCr(cfg: Config, p: Parser, t: seq<Event>)
    requires Limited(cfg, p) && p.state.HeaderFieldStart?
    ensures Leads(cfg, p, t, [CR], p.(state := HeadersAlmostDone, nread := p.nread + 1), t)
  {
    hide Leads, Exec, StepByte, Counted;
    var q := p.(state := HeadersAlmostDone, nread := p.nread + 1);
    if q.nread <= cfg.maxHeaderSize {
      CountOne(cfg, p);
      ExecTrailerStart(cfg, p.(nread := p.nread + 1));
      StepQuiet(cfg, p, t, CR, q);
    }
    LeadsStep(cfg, p, t, CR, q, t);
  }

  /** Header lines and the first byte of the empty line after them. */
  lemma LeadsLines(cfg: Config, p: Parser, t: seq<Event>, hs: seq<Header>) returns (q: Parser)
    requires Limited(cfg, p) && p.state.HeaderFieldStart? && HeadersOk(hs) && NoName(t)
    requires LengthsOk(p.flags.contentLength, hs)
    ensures AllLeave(p, hs, q)
    ensures Leads(cfg, p, t, HeadersText(hs) + [CR], q.(state := HeadersAlmostDone, nread := q.nread + 1),
                  t + HeadersCalls(hs))
  {
    hide Run, HeadersOk, LengthsOk, HeadersText, HeadersCalls, AllLeave, NoName;
    q := HeadersRead(cfg, p, t, hs);
    AllLeaveCount(p, hs, q);
    var u := t + HeadersCalls(hs);
    if q.nread <= cfg.maxHeaderSize {
      LeadsCr(cfg, q, u);
    }
    assert StartsLine([CR]);
  }

  function EndOf(p: Parser): Parser { p.(state := NewMessage(p.(state := MessageDone)), nread := p.nread + 2) }

  /** A message that ends, with the callbacks up to there; the rest of the stream may be another protocol. */
  function Ended(p: Parser, t: seq<Event>): Progress { if p.upgrade then Switched(p, t) else Going(p, t) }

  /** The trailer and the empty line after it: LF ends the last chunk and the message. */
  lemma RunEnd(cfg: Config, p: Parser, t: seq<Event>, trailers: seq<Header>) returns (q: Parser)
    requires |HeadersText(trailers)| + 2 <= cfg.maxHeaderSize && cfg.maxHeaderSize + 1 < TWO_TO_32
    requires p.state.HeaderFieldStart? && p.flags.trailing && p.nread == 0
    requires HeadersOk(trailers) && LengthsOk(p.flags.contentLength, trailers) && NoName(t)
    ensures AllLeave(p, trailers, q)
    ensures Run(cfg, Going(p, t), HeadersText(trailers) + [CR, LF]) ==
            Ended(EndOf(q), t + HeadersCalls(trailers) + [Notify(ChunkComplete), Notify(MessageComplete)])
  {
    hide StepByte, NewMessage, Run, HeadersOk, HeadersText, HeadersCalls, AllLeave, NoName, LengthsOk;
    var u := t + HeadersCalls(trailers);
    q := LeadsLines(cfg, p, t, trailers);
    var r := q.(state := HeadersAlmostDone, nread := q.nread + 1);
    AllLeaveKeeps(p, trailers, q);
    LeadsReads(cfg, p, t, HeadersText(trailers) + [CR], r, u);
    TrailerLf(cfg, r, u);
    SameNewMessage(q, r);
    assert HeadersText(trailers) + [CR, LF] == (HeadersText(trailers) + [CR]) + [LF];
    RunLast(cfg, Going(p, t), HeadersText(trailers) + [CR], LF);
  }

  lemma LeadsReads(cfg: Config, p: Parser, t: seq<Event>, data: seq<octet>, q: Parser, u: seq<Event>)
    requires Leads(cfg, p, t, data, q, u) && q.nread <= cfg.maxHeaderSize
    ensures Run(cfg, Going(p, t), data) == Going(q, u)
  {
    hide Run;
  }

  lemma AllLeaveKeeps(p: Parser, hs: seq<Header>, q: Parser)
    requires AllLeave(p, hs, q)
    ensures q.nread == p.nread + |HeadersText(hs)| && q.upgrade == p.upgrade && q.flags.trailing == p.flags.trailing
  {
    hide HeadersText, Saying, Upgrading, Measured;
  }

  lemma TrailerLf(cfg: Config, p: Parser, t: seq<Event>)
    requires p.nread + 1 <= cfg.maxHeaderSize && cfg.maxHeaderSize + 1 < TWO_TO_32
    requires p.state.HeadersAlmostDone? && p.flags.trailing
    ensures StepByte(cfg, p, t, LF) ==
            Ended(p.(state := NewMessage(p.(state := MessageDone)), nread := p.nread + 1),
                  t + [Notify(ChunkComplete), Notify(MessageComplete)])
  {
    hide Exec, StepByte, Counted, NewMessage;
    var q := p.(nread := p.nread + 1);
    CountOne(cfg, p);
    ExecTrailerEnd(cfg, q);
    SameNewMessage(p, q);
    StepTwoCalls(cfg, p, t, LF, q.(state := NewMessage(q.(state := MessageDone))), ChunkComplete, MessageComplete);
  }

  /** NEW_MESSAGE() looks at neither the state nor the header count. */
  lemma SameNewMessage(p: Parser, q: Parser)
    requires q == p.(state := q.state, nread := q.nread)
    ensures NewMessage(q.(state := MessageDone)) == NewMessage(p.(state := MessageDone))
  {
  }

  lemma ExecTrailerStart(cfg: Config, p: Parser)
    requires p.state.HeaderFieldStart?
    ensures Exec(cfg, p, CR) == Next(p.(state := HeadersAlmostDone), [])
  {
    hide FieldStartState, Token;
  }

  lemma ExecTrailerEnd(cfg: Config, p: Parser)
    requires p.state.HeadersAlmostDone? && p.flags.trailing
    ensures var q := p.(state := NewMessage(p.(state := MessageDone)));
            var acts := [Call(ChunkComplete), Call(MessageComplete)];
            Exec(cfg, p, LF) == if p.upgrade then Exit(q, acts) else Next(q, acts)
  {
    hide Exec, NewMessage;
    var m := p.(state := MessageDone);
    ExecAgain(cfg, p, LF, m, [Call(ChunkComplete)]);
    ExecDone(cfg, m, LF);
    assert [Call(ChunkComplete)] + [Call(MessageComplete)] == [Call(ChunkComplete), Call(MessageComplete)];
  }

  lemma StepTwoCalls(cfg: Config, p: Parser, t: seq<Event>, ch: octet, q: Parser, a: Note, b: Note)
    requires Counted(cfg, p).Some?
    requires Exec(cfg, p.(nread := Counted(cfg, p).value), ch) ==
             if q.upgrade then Exit(q, [Call(a), Call(b)]) else Next(q, [Call(a), Call(b)])
    requires Live(p.state) == None
    ensures StepByte(cfg, p, t, ch) == Ended(q, t + [Notify(a), Notify(b)])
  {
    hide Exec, Push;
    PlayTwo(Call(a), Call(b), map[], [ch], 0);
    assert [Notify(a)] + [Notify(b)] == [Notify(a), Notify(b)];
    PushAllTwo(t, Notify(a), Notify(b));
    PushNote(t, a);
    PushNote(t + [Notify(a)], b);
    LeftoverNone([ch]);
    PushAllNone(t + [Notify(a), Notify(b)]);
    assert t + [Notify(a)] + [Notify(b)] == t + [Notify(a), Notify(b)];
  }

  /** A chunked body: the chunks, the last chunk of value 0, the trailer. */
  function EncodeBody(cs: seq<Chunk>, last: seq<octet>, ext: seq<octet>, trailers: seq<Header>): seq<octet> {
    EncodeChunks(cs) + Line(last, ext) + (HeadersText(trailers) + [CR, LF])
  }

  function EndCalls(trailers: seq<Header>): seq<Event> {
    [Notify(ChunkHeader(0))] + HeadersCalls(trailers) + [Notify(ChunkComplete), Notify(MessageComplete)]
  }

  /** A trailer of any header lines, after headers with or without a length. */
  predicate TrailersOk(cfg: Config, seen: bool, trailers: seq<Header>) {
    HeadersOk(trailers) && LengthsOk(seen, trailers) && |HeadersText(trailers)| + 2 <= cfg.maxHeaderSize
  }

  /** Any list of non-empty chunks, in any spelling of their sizes, with any extensions: every chunk's header, data and
      end in order, then the last chunk's header, the trailer, its end, and exactly one message_complete. */
  lemma ChunkedRoundTrip(cfg: Config, p: Parser, t: seq<Event>, cs: seq<Chunk>, last: seq<octet>, ext: seq<octet>,
                         trailers: seq<Header>)
    returns (q: Parser)
    requires cfg.maxHeaderSize + 1 < TWO_TO_32 && AtChunk(p) && ChunksOk(cfg, cs) && LineOk(cfg, last, ext)
    requires HexValue(last) == 0 && TrailersOk(cfg, p.flags.contentLength, trailers)
    ensures AllLeave(AfterLine(p, 0), trailers, q)
    ensures Run(cfg, Going(p, t), EncodeBody(cs, last, ext, trailers)) ==
            Ended(EndOf(q), t + ChunksCalls(cs) + EndCalls(trailers))
  {
    hide Step, Run, HexValue, HeadersOk, HeadersText, HeadersCalls, LengthsOk, AllLeave, EndOf, ChunksOk, LineOk, Line,
      EncodeChunks, ChunksCalls, NoName, EndCalls;
    var u := t + ChunksCalls(cs);
    var v := u + [Notify(ChunkHeader(0))];
    NoteIsNoName(u, ChunkHeader(0));
    RunSizes(cfg, p, t, cs, last, ext);
    q := RunEnd(cfg, AfterLine(p, 0), v, trailers);
    RunConcat(cfg, Going(p, t), EncodeChunks(cs) + Line(last, ext), HeadersText(trailers) + [CR, LF]);
    EndTrace(u, trailers);
  }

  /** The chunks and the last chunk's line. */
  lemma RunSizes(cfg: Config, p: Parser, t: seq<Event>, cs: seq<Chunk>, last: seq<octet>, ext: seq<octet>)
    requires cfg.maxHeaderSize + 1 < TWO_TO_32 && AtChunk(p) && ChunksOk(cfg, cs) && LineOk(cfg, last, ext)
    requires HexValue(last) == 0
    ensures Run(cfg, Going(p, t), EncodeChunks(cs) + Line(last, ext)) ==
            Going(AfterLine(p, 0), t + ChunksCalls(cs) + [Notify(ChunkHeader(0))])
  {
    hide Step, Run, HexValue, ChunksOk, LineOk, Line, EncodeChunks, ChunksCalls;
    RunChunks(cfg, p, t, cs);
    var r := if cs == [] then p else p.(contentLength := 0);
    RunLine(cfg, r, t + ChunksCalls(cs), last, ext);
    RunConcat(cfg, Going(p, t), EncodeChunks(cs), Line(last, ext));
  }

  lemma NoteIsNoName(u: seq<Event>, note: Note)
    ensures NoName(u + [Notify(note)])
  {
  }

  lemma EndTrace(u: seq<Event>, trailers: seq<Header>)
    ensures u + [Notify(ChunkHeader(0))] + HeadersCalls(trailers) + [Notify(ChunkComplete), Notify(MessageComplete)]
         == u + EndCalls(trailers)
  {
    hide HeadersCalls;
  }

  /** What the body callbacks of a trace deliver. */
  function BodyBytesOf(t: seq<Event>): seq<octet> {
    if t == [] then []
    else (if t[0].Data? && t[0].kind == Body then t[0].bytes else []) + BodyBytesOf(t[1..])
  }

  function Payload(cs: seq<Chunk>): seq<octet> {
    if cs == [] then [] else cs[0].data + Payload(cs[1..])
  }

  lemma {:induction false} BodyBytesConcat(a: seq<Event>, b: seq<Event>)
    ensures BodyBytesOf(a + b) == BodyBytesOf(a) + BodyBytesOf(b)
    decreases a
  {
    if a == [] {
      assert a + b == b;
    } else {
      assert (a + b)[1..] == a[1..] + b;
      BodyBytesConcat(a[1..], b);
    }
  }

  /** The body callbacks of a chunked message concatenate to its payload. */
  lemma {:induction false} DeliversPayload(cs: seq<Chunk>)
    ensures BodyBytesOf(ChunksCalls(cs)) == Payload(cs)
  {
    if cs != [] {
      DeliversPayload(cs[1..]);
      BodyBytesConcat(ChunkCalls(cs[0]), ChunksCalls(cs[1..]));
      var calls := ChunkCalls(cs[0]);
      assert calls[1..] == [Data(Body, cs[0].data), Notify(ChunkComplete)];
      assert calls[1..][1..] == [Notify(ChunkComplete)] && calls[1..][1..][1..] == [];
      assert BodyBytesOf(calls) == cs[0].data by {
        assert BodyBytesOf(calls[1..][1..]) == [];
      }
    }
  }
}
