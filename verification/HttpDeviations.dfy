/** Messages on which the code departs from RFC 7230, section 3.3.3: one for every condition of HttpFraming.Deviates;
    and that transfer codings as they are commonly written are heard as they are. */
module HttpDeviations {
  import opened HttpTypes
  import opened HttpNumerals
  import opened HttpNames
  import opened HttpTokens
  import opened HttpLines
  import opened HttpHeaders
  import opened HttpFraming

  // Transfer codings that are heard.

  lemma CodingsElsewhere(hs: seq<Header>)
    requires !Coded(hs)
    ensures CodingsOf(hs) == []
  {
    hide IsCoding;
    if hs != [] {
      assert hs == [hs[0]] + hs[1..];
      CodingsElsewhere(hs[1..]);
    }
  }

  /** One Transfer-Encoding line whose commas are all noticed: "chunked" is heard exactly when it is the final
      coding. */
  lemma OneLineHeard(before: seq<Header>, h: Header, after: seq<Header>)
    requires IsCoding(h) && Tidy(Codings, h.value) && !Coded(before) && !Coded(after)
    ensures Chunking(before + [h] + after) <==> FinallyChunked(before + [h] + after)
    decreases before
  {
    hide IsCoding, Tidy, Spells, Members, Hears;
    var hs := before + [h] + after;
    HearsIs(Chunked, h.value);
    OneLineCodings(before, h, after);
    SaysCoded(hs);
    forall x | x in hs && x != h
      ensures !IsCoding(x)
    {
      assert x in before || x in after;
    }
    assert h in hs;
  }

  lemma SaysCoded(hs: seq<Header>)
    ensures Chunking(hs) <==> exists x <- hs :: IsCoding(x) && Hears(Chunked, x.value)
  {
    hide Folded, Hears;
    forall x: Header
      ensures Says(x, Chunked) <==> IsCoding(x) && Hears(Chunked, x.value)
    {
    }
  }

  lemma {:induction false} OneLineCodings(before: seq<Header>, h: Header, after: seq<Header>)
    requires IsCoding(h) && !Coded(before) && !Coded(after)
    ensures CodingsOf(before + [h] + after) == Members(h.value)
    decreases before
  {
    hide IsCoding, Members;
    var hs := before + [h] + after;
    if before == [] {
      assert hs[0] == h && hs[1..] == after;
      CodingsElsewhere(after);
      assert Members(h.value) + [] == Members(h.value);
    } else {
      assert before == [before[0]] + before[1..];
      OneLineCodings(before[1..], h, after);
      assert hs[0] == before[0] && hs[1..] == before[1..] + [h] + after;
      assert !IsCoding(before[0]);
    }
  }

  // Header lines to show it by.

  const TE: seq<octet> := ['t', 'r', 'a', 'n', 's', 'f', 'e', 'r', '-', 'e', 'n', 'c', 'o', 'd', 'i', 'n', 'g']
  const CHUNKED: seq<Symbol> :=
    [Byte('c'), Byte('h'), Byte('u'), Byte('n'), Byte('k'), Byte('e'), Byte('d')]
  const GZIP: seq<Symbol> := [Byte('g'), Byte('z'), Byte('i'), Byte('p')]
  const ONE_SPACE: seq<Symbol> := [Byte(' ')]

  /** A Transfer-Encoding line. */
  function CodingLine(value: seq<Symbol>): Header { Header(TE, ONE_SPACE, value) }

  lemma TeName()
    ensures NameText(TE) && Folded(TE) == TRANSFER_ENCODING
    ensures forall v: seq<Symbol> :: IsCoding(CodingLine(v)) && IsPrefixed(CodingLine(v)) && !IsLength(CodingLine(v))
    ensures forall v: seq<Symbol> :: !IsUpgrade(CodingLine(v)) && !ListName(Folded(CodingLine(v).name), Options)
  {
    assert Folded(TE) == TRANSFER_ENCODING;
    hide Folded;
    OtherNames();
  }

  lemma {:induction false} NoCommas(v: seq<Symbol>)
    requires forall i :: 0 <= i < |v| ==> v[i] != Byte(',')
    ensures Complete(v) == [] && Current(v) == v
  {
    if v != [] {
      NoCommas(v[..|v| - 1]);
      assert v == v[..|v| - 1] + [v[|v| - 1]];
    }
  }

  /** A value with a single element. */
  lemma OneElement(v: seq<Symbol>)
    requires v != [] && forall i :: 0 <= i < |v| ==> v[i].Byte? && v[i].c != ','
    ensures Hears(Chunked, v) <==> SeenIn(Codings, Chars(v)) == Whole(Chunked)
    ensures Trimmed(Chars(v)) != [] ==> Members(v) == [Trimmed(Chars(v))]
  {
    hide SeenIn, Trimmed;
    NoCommas(v);
    var all := Complete(v) + [Current(v)];
    assert all == [v] && all[..0] == [] && NonEmpty(all[..0]) == [];
  }

  predicate ValueOk(v: seq<Symbol>) { SymbolsOk(v) && v != [] && v[0].Byte? && !Blank(v[0].c) }

  lemma NotTrimmed(c: seq<octet>)
    requires c != [] && !Blank(c[0]) && !Blank(c[|c| - 1])
    ensures Trimmed(c) == c
  {
  }

  lemma ChunkedText()
    ensures var c := Chars(CHUNKED);
            && |c| == 7 && c[0] == 'c' && c[6] == 'd' && Spells(c, "chunked")
            && forall i :: 0 <= i < 7 ==> CHUNKED[i].Byte? && c[i] != ',' && c[i] != '\t'
    ensures ValueOk(CHUNKED)
  {
  }

  lemma ChunkedValue()
    ensures ValueOk(CHUNKED) && Hears(Chunked, CHUNKED)
    ensures Members(CHUNKED) == [Chars(CHUNKED)] && Spells(Chars(CHUNKED), "chunked")
  {
    ChunkedText();
    hide Spells, SeenIn, Hears, Trimmed, Members;
    NotTrimmed(Chars(CHUNKED));
    OneElement(CHUNKED);
    WholeIs(Codings, Chunked, Chars(CHUNKED));
  }

  lemma GzipValue()
    ensures ValueOk(GZIP) && !Hears(Chunked, GZIP)
    ensures Members(GZIP) == [Chars(GZIP)] && !Spells(Chars(GZIP), "chunked")
  {
    OneElement(GZIP);
  }

  /** A tab after "chunked" is white space that the parser does not skip. */
  lemma TabValue()
    ensures var v := CHUNKED + [Byte('\t')];
            ValueOk(v) && !Hears(Chunked, v) && Members(v) == [Chars(CHUNKED)]
  {
    var v := CHUNKED + [Byte('\t')];
    var c := Chars(v);
    OneElement(v);
    assert c[..7] == Chars(CHUNKED) && c[7..][0] == '\t';
    assert Trimmed(c[..7]) == c[..7];
  }

  lemma OneCoding(v: seq<Symbol>)
    ensures var hs := [CodingLine(v)];
            && Prefixed(hs) && Coded(hs) && !Measured(hs) && !Upgrading(hs)
            && (Chunking(hs) <==> Hears(Chunked, v)) && CodingsOf(hs) == Members(v)
  {
    hide CodingLine, IsCoding, IsPrefixed, IsLength, IsUpgrade, Hears, Members, Folded;
    TeName();
    var h := CodingLine(v);
    SaysCoded([h]);
    assert [h][1..] == [] && Members(v) + [] == Members(v);
    CodingValue(v);
  }

  lemma CodingValue(v: seq<Symbol>)
    ensures CodingLine(v).value == v
  {
  }

  lemma TwoCodings(v: seq<Symbol>, w: seq<Symbol>)
    ensures var hs := [CodingLine(v), CodingLine(w)];
            && Prefixed(hs) && Coded(hs) && !Measured(hs) && !Upgrading(hs)
            && (Chunking(hs) <==> Hears(Chunked, v) || Hears(Chunked, w)) && CodingsOf(hs) == Members(v) + Members(w)
  {
    hide CodingLine, IsCoding, IsPrefixed, IsLength, IsUpgrade, Hears, Members, Folded;
    TeName();
    var hs := [CodingLine(v), CodingLine(w)];
    SaysCoded(hs);
    OneCoding(w);
    assert hs[1..] == [CodingLine(w)];
    CodingValue(v);
    CodingValue(w);
  }

  lemma CodingOk(v: seq<Symbol>)
    requires ValueOk(v)
    ensures HeaderOk(CodingLine(v)) && !IsLength(CodingLine(v))
  {
    TeName();
    hide Folded;
  }

  // Deviations.

  /** Only this framing is permitted, and the code takes another. */
  ghost predicate Departs(cfg: Config, m: Head, taken: Framing, standard: Framing) {
    && HeadersOk(m.headers) && Deviates(cfg, m)
    && FramingOf(cfg, m) == taken && taken != standard && forall f :: Permitted(cfg, m, f) <==> f == standard
  }

  lemma {:induction false} Unmeasured(seen: bool, hs: seq<Header>)
    requires !Measured(hs)
    ensures LengthsOk(seen, hs)
    decreases hs
  {
    hide IsLength, LengthText;
    if hs != [] {
      AnyOf(hs);
      Unmeasured(seen, hs[1..]);
    }
  }

  /** A GET with no length and no Upgrade. */
  lemma PlainRequest(cfg: Config, hs: seq<Header>)
    requires cfg.reply == Proceed && HeadersOk(hs) && !Measured(hs) && !Upgrading(hs) && Prefixed(hs)
    ensures var m := Head(Request, 0, GET, hs);
            var taken := if Chunking(hs) then Chunks else if cfg.lenient then UntilClose else Refused;
            var standard := if !Coded(hs) then Empty else if FinallyChunked(hs) then Chunks else Refused;
            taken != standard ==> Departs(cfg, m, taken, standard)
  {
    Unmeasured(false, hs);
    NoLengths(hs);
    ChunkingCoded(hs);
    PermittedIs(cfg, Head(Request, 0, GET, hs));
    hide HeadersOk, LengthsOk, LengthsOf, StandardLength, Measured, Upgrading, Prefixed, Saying, Coded,
      FinallyChunked, Deviates;
  }

  /** Any header whose name properly extends Transfer-Encoding: a request with it, and no other header, has no body, and
      is refused. */
  lemma ExtendedName(cfg: Config, h: Header)
    requires !cfg.lenient && cfg.reply == Proceed && HeaderOk(h) && IsPrefixed(h) && !IsCoding(h)
    ensures Departs(cfg, Head(Request, 0, GET, [h]), Refused, Empty)
  {
    hide HeaderOk, Folded, Hears, Departs, CodingsOf;
    OtherNames();
    assert !IsLength(h) && !IsUpgrade(h) && h in [h];
    SaysCoded([h]);
    PlainRequest(cfg, [h]);
  }

  /** "chunked" and, on a second line, another coding: the length of the body of a request is not known, and chunks are
      read. */
  lemma SecondCoding(cfg: Config)
    requires cfg.reply == Proceed
    ensures Departs(cfg, Head(Request, 0, GET, [CodingLine(CHUNKED), CodingLine(GZIP)]), Chunks, Refused)
  {
    hide CHUNKED, GZIP, CodingLine, HeaderOk, Prefixed, Coded, Measured, Upgrading, Saying, CodingsOf, Members,
      Departs, Spells, ValueOk;
    ChunkedValue();
    GzipValue();
    CodingOk(CHUNKED);
    CodingOk(GZIP);
    TwoCodings(CHUNKED, GZIP);
    PlainRequest(cfg, [CodingLine(CHUNKED), CodingLine(GZIP)]);
  }

  /** "chunked" and a tab: a request in chunks is refused. */
  lemma TabAfterChunked(cfg: Config)
    requires cfg.reply == Proceed && !cfg.lenient
    ensures Departs(cfg, Head(Request, 0, GET, [CodingLine(CHUNKED + [Byte('\t')])]), Refused, Chunks)
  {
    hide CHUNKED, CodingLine, HeaderOk, Prefixed, Coded, Measured, Upgrading, Saying, CodingsOf, Members, Departs,
      Spells, ValueOk;
    var v := CHUNKED + [Byte('\t')];
    ChunkedValue();
    TabValue();
    CodingOk(v);
    OneCoding(v);
    PlainRequest(cfg, [CodingLine(v)]);
  }

  /** Another coding than "chunked" and the lenient flag: a request to be refused is read until the end of the
      connection. */
  lemma LenientCoding(cfg: Config)
    requires cfg.reply == Proceed && cfg.lenient
    ensures Departs(cfg, Head(Request, 0, GET, [CodingLine(GZIP)]), UntilClose, Refused)
  {
    hide GZIP, CodingLine, HeaderOk, Prefixed, Coded, Measured, Upgrading, Saying, CodingsOf, Members, Departs, Spells,
      ValueOk;
    GzipValue();
    CodingOk(GZIP);
    OneCoding(GZIP);
    PlainRequest(cfg, [CodingLine(GZIP)]);
  }

  /** Any response with a status that has no body, and a length all the same: so many bytes are read. */
  lemma NoContent(cfg: Config, m: Head)
    requires cfg.reply == Proceed && m.kind == Response && BodilessStatus(m.statusCode) && m.verb != CONNECT
    requires HeadersOk(m.headers) && LengthsOk(false, m.headers) && !Prefixed(m.headers) && !Upgrading(m.headers)
    requires Measured(m.headers) && LengthOf(m.headers) > 0
    ensures Departs(cfg, m, Length(LengthOf(m.headers)), Empty)
  {
    ChunkingCoded(m.headers);
    LengthsAgree(false, m.headers);
    PermittedIs(cfg, m);
    hide HeadersOk, LengthsOk, LengthsOf, StandardLength, Measured, Upgrading, Prefixed, Saying, Coded,
      FinallyChunked, LengthOf, BodilessStatus;
  }

  // A length with a tab after it.

  const LENGTH: seq<octet> := ['c', 'o', 'n', 't', 'e', 'n', 't', '-', 'l', 'e', 'n', 'g', 't', 'h']

  function LengthHeader(value: seq<Symbol>): Header { Header(LENGTH, ONE_SPACE, value) }

  lemma LengthName()
    ensures NameText(LENGTH)
    ensures forall v: seq<Symbol> :: IsLength(LengthHeader(v)) && !IsCoding(LengthHeader(v))
    ensures forall v: seq<Symbol> :: !IsUpgrade(LengthHeader(v)) && !IsPrefixed(LengthHeader(v))
  {
    assert Folded(LENGTH) == CONTENT_LENGTH;
    hide Folded;
    OtherNames();
  }

  lemma FiveAndTab()
    ensures var v := [Byte('5'), Byte('\t')];
            ValueOk(v) && !LengthText(v) && Trimmed(Chars(v)) == ['5'] && DecimalValue(['5']) == 5
  {
    var v := [Byte('5'), Byte('\t')];
    assert v[1..] == [Byte('\t')] && Digits(v[1..]) == 0;
    var c := Chars(v);
    TrimmedAt(c, 1);
    assert c[..1] == ['5'] && ['5'][..0] == [];
  }

  /** A length and a tab: a request with so many bytes is refused. */
  lemma TabAfterLength(cfg: Config)
    requires cfg.reply == Proceed
    ensures Departs(cfg, Head(Request, 0, GET, [LengthHeader([Byte('5'), Byte('\t')])]), Refused, Length(5))
  {
    hide LengthHeader, IsLength, IsCoding, IsUpgrade, IsPrefixed, LengthText, Trimmed, ValueOk, DecimalValue, Hears;
    var v := [Byte('5'), Byte('\t')];
    var h := LengthHeader(v);
    LengthName();
    FiveAndTab();
    HasValue(v);
    assert [h][1..] == [] && LengthsOf([h]) == [['5']] + [] == [['5']];
    assert h in [h];
    assert Measured([h]) && !Coded([h]) && HeadersOk([h]);
    PermittedIs(cfg, Head(Request, 0, GET, [h]));
  }

  lemma HasValue(v: seq<Symbol>)
    ensures LengthHeader(v).value == v && (ValueOk(v) ==> HeaderOk(LengthHeader(v)))
  {
    LengthName();
    hide Folded;
  }
}
