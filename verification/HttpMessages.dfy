/** Header lines and body of a message, whatever its first line. */
module HttpMessages {
  import opened HttpTypes
  import opened HttpNumerals
  import opened HttpRun
  import opened HttpSteps
  import opened HttpLeads
  import opened HttpNames
  import opened HttpTokens
  import opened HttpLines
  import opened HttpHeaders
  import opened HttpChunked
  import opened HttpFraming

  datatype Message = Message(headers: seq<Header>, body: Sent)

  /** The header lines and the first byte of the line end after them. */
  function FieldsText(m: Message): seq<octet> { HeadersText(m.headers) + [CR] }

  /** The code goes on to the body. */
  predicate Proceeds(cfg: Config, head: Head) { FramingOf(cfg, head) != Refused }

  /** The body is sent in the framing the code takes, if it takes one. */
  predicate BodySent(cfg: Config, head: Head, body: Sent) {
    Proceeds(cfg, head) ==> SentAs(cfg, Measured(head.headers), body, FramingOf(cfg, head))
  }

  lemma LeftWithin(cfg: Config, head: Head, body: Sent)
    requires BodySent(cfg, head, body)
    ensures Proceeds(cfg, head) ==> LeftCount(body) <= cfg.maxHeaderSize
  {
    hide HeadersOk, LengthsOk, FramingOf, HeadersText, ChunksOk, LineOk, HexValue, Measured;
  }

  // The next message.

  /** How the code decides whether the connection is kept: it hears the headers and the trailer. */
  predicate KeepsAlive(major: int, minor: int, m: Message) {
    var hs, ts := m.headers, TrailersOf(m.body);
    if major > 0 && minor > 0 then !Saying(hs, Close) && !Saying(ts, Close)
    else Saying(hs, KeepAlive) || Saying(ts, KeepAlive)
  }

  /** Some Connection header has the option. */
  predicate Opts(hs: seq<Header>, k: Keyword) { exists h <- hs :: Folded(h.name) == CONNECTION && Lists(k, h.value) }

  /** RFC 7230, section 6.3, on the options that the headers list: "close" always closes, versions from 1.1 keep
      otherwise, and 1.0 only with "keep-alive". */
  predicate Persists(major: int, minor: int, m: Message) {
    && !Opts(m.headers, Close)
    && (major > 1 || (major == 1 && (minor > 0 || Opts(m.headers, KeepAlive))))
  }

  /** The code agrees with the standard exactly when it hears what is listed, in headers and trailer, and: "close" does
      not come with "keep-alive" in version 1.0; "keep-alive" does not come before it; and in versions n.0 above, which
      it takes for old ones, there is "keep-alive" or else "close". */
  lemma KeepsAliveIs(major: nat, minor: nat, m: Message)
    ensures var close, keep := Opts(m.headers, Close), Opts(m.headers, KeepAlive);
            var closeHeard := Saying(m.headers, Close) || Saying(TrailersOf(m.body), Close);
            var keepHeard := Saying(m.headers, KeepAlive) || Saying(TrailersOf(m.body), KeepAlive);
            (KeepsAlive(major, minor, m) <==> Persists(major, minor, m)) <==>
            if major == 0 then !keepHeard
            else if minor > 0 then closeHeard == close
            else if major == 1 then keepHeard == (keep && !close)
            else keepHeard != close
  {
    hide Saying, TrailersOf, Opts;
  }

  /** Connection headers in which every comma is noticed, and no Proxy-Connection: what is heard is what is listed. */
  lemma OptionsHeard(hs: seq<Header>, k: Keyword)
    requires k != Chunked
    requires forall h <- hs :: Folded(h.name) != PROXY_CONNECTION
    requires forall h <- hs :: Folded(h.name) == CONNECTION ==> Tidy(Options, h.value)
    ensures Saying(hs, k) <==> Opts(hs, k)
  {
    hide Folded, Tidy, Lists, Hears;
    forall h | h in hs
      ensures Says(h, k) <==> Folded(h.name) == CONNECTION && Lists(k, h.value)
    {
      if Folded(h.name) == CONNECTION {
        HearsIs(k, h.value);
      }
    }
  }

  // The whole message.

  /** Where a message leaves the parser that was at its headers: delivered as exactly its parts, each once and in order.
      A message that asks for another protocol ends the stream, unless its body only ends with the connection. */
  ghost predicate Finished(cfg: Config, p: Parser, t: seq<Event>, m: Message, g: Progress) {
    && (if Switching(cfg, HeadOf(p, m.headers)) && !m.body.UntilEnd? then g.Switched? else g.Going?)
    && g.trace == t + HeadersCalls(m.headers) + [Notify(HeadersComplete)] + BodyCalls(m.body)
    && g.p.kind == p.kind && g.p.major == p.major && g.p.minor == p.minor && g.p.verb == p.verb
    && g.p.statusCode == p.statusCode && g.p.nread == LeftCount(m.body)
    && g.p.state == if m.body.UntilEnd? then BodyIdentityEof
                    else if !KeepsAlive(p.major, p.minor, m) then Dead
                    else if p.kind == Request then StartReq else StartRes
  }

  lemma HeadFinished(cfg: Config, p: Parser, t: seq<Event>, m: Message, q: Parser, g: Progress)
    requires AtFields(p) && AllLeave(p, m.headers, q)
    requires EndsMessage(AtLineEnd(q), t + HeadersCalls(m.headers), m.body, Switching(cfg, HeadOf(p, m.headers)), g)
    ensures Finished(cfg, p, t, m, g)
  {
    hide Switching, HeadersCalls, BodyCalls, TrailersOf, LeftCount, AllLeave, RememberedAll, HeadersText, Saying,
      Upgrading, Measured;
    LeftFields(p, m.headers, q);
    LeftFlags(m.headers);
  }

  /** Headers in the grammar of RFC 7230, and a body in the framing that the code takes for them, from a parser that has
      counted `p.nread` header bytes: the message is delivered exactly when the code goes on to the body and the headers
      are within what is left of max_header_size, and refused otherwise. */
  lemma MessageRun(cfg: Config, p: Parser, t: seq<Event>, m: Message)
    requires Limited(cfg, p) && AtFields(p) && HeadersOk(m.headers) && NoName(t)
    requires BodySent(cfg, HeadOf(p, m.headers), m.body)
    ensures var g := Run(cfg, Going(p, t), FieldsText(m) + ([LF] + Wire(m.body)));
            if Proceeds(cfg, HeadOf(p, m.headers)) && p.nread + |FieldsText(m)| + 1 <= cfg.maxHeaderSize
            then Finished(cfg, p, t, m, g) else g == Failed
  {
    hide Run, HeadersOk, LengthsOk, EndsMessage, AtEnd, NoName, Wire, Answered, StepByte, Leads, AllLeave, HeadersText,
      Finished, FramingOf, SentAs, Switching, Taken, HeadersCalls, AtFields, Measured;
    var hs, rest := m.headers, [LF] + Wire(m.body);
    var u := t + HeadersCalls(hs);
    if LengthsOk(false, hs) {
      FieldsFresh(p);
      var q := LeadsLines(cfg, p, t, hs);
      var e := AtLineEnd(q);
      AllLeaveCount(p, hs, q);
      LeadsOn(cfg, p, t, FieldsText(m), e, u, rest);
      if e.nread == cfg.maxHeaderSize {
        StepOver(cfg, e, u, LF);
        RunOne(cfg, e, u, LF);
        RunConcat(cfg, Going(e, u), [LF], Wire(m.body));
        RunStopped(cfg, Failed, Wire(m.body));
      } else if e.nread < cfg.maxHeaderSize {
        HeadIs(cfg, p, hs, q);
        MessageDelivered(cfg, e, u, m.body);
        if Proceeds(cfg, HeadOf(p, hs)) {
          HeadFinished(cfg, p, t, m, q, Run(cfg, Going(e, u), rest));
        }
      }
    } else {
      FieldsFresh(p);
      var q := HeadersRead(cfg, p, t, hs);
      assert StartsLine([CR] + rest);
      NotAcceptable(cfg, HeadOf(p, hs));
      Assoc(HeadersText(hs), [CR], rest);
    }
  }

  lemma FieldsFresh(p: Parser)
    requires AtFields(p)
    ensures p.state.HeaderFieldStart? && !p.flags.contentLength
  {
  }
}
