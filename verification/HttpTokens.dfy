/** Header values that are lists of tokens: which words the parser hears in them. */
module HttpTokens {
  import opened Wrappers
  import opened HttpTypes
  import opened HttpSwitch

  /** A character of a header value. Fold is white space that starts a new line (obs-fold, RFC 7230, section 3.2.4). */
  datatype Symbol = Byte(c: octet) | Fold(c: octet)

  predicate Blank(c: octet) { c == ' ' || c == '\t' }

  predicate SymbolOk(s: Symbol) {
    if s.Fold? then Blank(s.c) else IsHeaderChar(s.c) && s.c != CR && s.c != LF
  }

  predicate SymbolsOk(v: seq<Symbol>) { forall i :: 0 <= i < |v| ==> SymbolOk(v[i]) }

  function SymbolText(s: Symbol): seq<octet> { if s.Fold? then [CR, LF, s.c] else [s.c] }

  /** A value as it is sent. */
  function SymbolsText(v: seq<Symbol>): seq<octet> {
    if v == [] then [] else SymbolsText(v[..|v| - 1]) + SymbolText(v[|v| - 1])
  }

  /** A value as it is delivered: without its line ends. */
  function Chars(v: seq<Symbol>): (r: seq<octet>)
    ensures |r| == |v|
  {
    seq(|v|, i requires 0 <= i < |v| => v[i].c)
  }

  // The words.

  datatype Keyword = Chunked | Close | KeepAlive | Upgrade

  /** Transfer-Encoding lists codings, Connection and Proxy-Connection list options. */
  datatype Listing = Codings | Options

  function ListOf(k: Keyword): Listing { if k.Chunked? then Codings else Options }

  function Word(k: Keyword): string {
    match k case Chunked => "chunked" case Close => "close" case KeepAlive => "keep-alive" case Upgrade => "upgrade"
  }

  /** A text spells a word, in any case. */
  predicate Spells(e: seq<octet>, word: string) {
    |e| == |word| && forall i :: 0 <= i < |e| ==> Lower(e[i]) == word[i]
  }

  predicate Spaces(e: seq<octet>) { forall i :: 0 <= i < |e| ==> e[i] == ' ' }

  // The elements of a list, as RFC 7230, section 7, has them: between commas.

  /** The elements that a comma has ended. */
  function Complete(v: seq<Symbol>): seq<seq<Symbol>> {
    if v == [] then []
    else if v[|v| - 1] == Byte(',') then Complete(v[..|v| - 1]) + [Current(v[..|v| - 1])]
    else Complete(v[..|v| - 1])
  }

  /** The element after the last comma. */
  function Current(v: seq<Symbol>): seq<Symbol> {
    if v == [] || v[|v| - 1] == Byte(',') then [] else Current(v[..|v| - 1]) + [v[|v| - 1]]
  }

  /** A text without the white space around it. */
  function Trimmed(e: seq<octet>): seq<octet> {
    if e != [] && Blank(e[0]) then Trimmed(e[1..])
    else if e != [] && Blank(e[|e| - 1]) then Trimmed(e[..|e| - 1])
    else e
  }

  function NonEmpty(es: seq<seq<Symbol>>): seq<seq<octet>> {
    if es == [] then []
    else
      var e := Trimmed(Chars(es[|es| - 1]));
      NonEmpty(es[..|es| - 1]) + if e == [] then [] else [e]
  }

  /** The elements of a list: empty ones do not count, and a new line is white space. Options are tokens. A coding can
      hold a comma in a quoted string, which divides here, too; but its last part then has the closing quote, so that
      whether the last element is "chunked" stays the same. */
  function Members(v: seq<Symbol>): seq<seq<octet>> { NonEmpty(Complete(v) + [Current(v)]) }

  // How the code hears them.

  /** The one word of a list that starts with a letter. */
  function Sought(l: Listing, ch: octet): Option<Keyword> {
    var c := Lower(ch);
    if l.Codings? then if c == 'c' then Some(Chunked) else None
    else if c == 'k' then Some(KeepAlive) else if c == 'c' then Some(Close) else if c == 'u' then Some(Upgrade)
    else None
  }

  /** What an element has come to: nothing yet, a part of a word, a whole word and spaces, another token, or a place
      from which the rest of the value is not read. */
  datatype Seen = NoneYet | Part(k: Keyword) | Whole(k: Keyword) | Other | Unread

  function SeenIn(l: Listing, e: seq<octet>): Seen {
    if e == [] then NoneYet
    else
      match Sought(l, e[0])
      case None => Other
      case Some(k) =>
        if |e| < |Word(k)| && Spells(e, Word(k)[..|e|]) then Part(k)
        else if |Word(k)| <= |e| && Spells(e[..|Word(k)|], Word(k)) && Spaces(e[|Word(k)|..]) then Whole(k)
        else Other
  }

  /** How an element is met: as the first one, after a comma that was noticed, after one that was not, or never. */
  datatype Mode = AtFirst | Noticed | Unnoticed | Lost

  /** An element without the spaces and line ends before it; a tab stays. */
  function Stripped(x: seq<Symbol>): seq<Symbol> {
    if x != [] && (x[0].Fold? || x[0].c == ' ') then Stripped(x[1..]) else x
  }

  function Met(m: Mode, x: seq<Symbol>): seq<Symbol> { if m.Noticed? then Stripped(x) else x }

  /** A line end within an element, or after a comma a character of no token, ends the reading of the value. */
  predicate Unreadable(m: Mode, x: seq<Symbol>) {
    || m.Lost?
    || (exists i :: 0 <= i < |x| && x[i].Fold?)
    || (m.Noticed? && x != [] && !IsToken(Lower(x[0].c)))
  }

  function ElementSeen(l: Listing, m: Mode, x: seq<Symbol>): Seen {
    var y := Met(m, x);
    if Unreadable(m, y) then Unread else if m.Unnoticed? then Other else SeenIn(l, Chars(y))
  }

  /** The comma after a part of a word is not noticed, nor the one after "chunked"; that after nothing is no token. */
  function After(l: Listing, m: Mode, x: seq<Symbol>): Mode {
    match ElementSeen(l, m, x)
    case NoneYet => if m.AtFirst? then Unnoticed else Lost
    case Part(_) => Unnoticed
    case Whole(_) => if l.Codings? then Unnoticed else Noticed
    case Other => Noticed
    case Unread => Lost
  }

  function ModeAfter(l: Listing, es: seq<seq<Symbol>>): Mode {
    if es == [] then AtFirst else After(l, ModeAfter(l, es[..|es| - 1]), es[|es| - 1])
  }

  /** The word is heard in some of these elements. */
  predicate Among(k: Keyword, es: seq<seq<Symbol>>) {
    && es != []
    && (|| Among(k, es[..|es| - 1])
        || ElementSeen(ListOf(k), ModeAfter(ListOf(k), es[..|es| - 1]), es[|es| - 1]) == Whole(k))
  }

  /** The word is heard in a value: a coding as the last element, an option anywhere. */
  predicate Hears(k: Keyword, v: seq<Symbol>) {
    || (k != Chunked && Among(k, Complete(v)))
    || ElementSeen(ListOf(k), ModeAfter(ListOf(k), Complete(v)), Current(v)) == Whole(k)
  }

  // The states of the machine.

  function TokenStart(l: Listing): HeaderState {
    if l.Codings? then HMatchingTransferEncodingTokenStart else HMatchingConnectionTokenStart
  }

  function AnyToken(l: Listing): HeaderState {
    if l.Codings? then HMatchingTransferEncodingToken else HMatchingConnectionToken
  }

  function Seeking(k: Keyword): HeaderState {
    match k
    case Chunked => HMatchingTransferEncodingChunked
    case Close => HMatchingConnectionClose
    case KeepAlive => HMatchingConnectionKeepAlive
    case Upgrade => HMatchingConnectionUpgrade
  }

  function Found(k: Keyword): HeaderState {
    match k
    case Chunked => HTransferEncodingChunked
    case Close => HConnectionClose
    case KeepAlive => HConnectionKeepAlive
    case Upgrade => HConnectionUpgrade
  }

  function HeaderFor(l: Listing, s: Seen): HeaderState {
    match s
    case NoneYet => TokenStart(l)
    case Part(k) => Seeking(k)
    case Whole(k) => Found(k)
    case Other => AnyToken(l)
    case Unread => HGeneral
  }

  function Flagged(f: Flags, k: Keyword): Flags {
    match k
    case Chunked => f.(chunked := true)
    case Close => f.(close := true)
    case KeepAlive => f.(keepAlive := true)
    case Upgrade => f.(connectionUpgrade := true)
  }

  /** The variables of the machine stand for an element of which `n` characters have been met. */
  predicate StandsFor(l: Listing, v: ValueState, s: Seen, n: nat) {
    && v.header == HeaderFor(l, s)
    && (s.NoneYet? ==> v.index == 0) && (s.Part? ==> 0 < n < |Word(s.k)| && v.index == n - 1)
    && (s.Part? || s.Whole? ==> ListOf(s.k) == l)
  }

  predicate Stands(l: Listing, v: ValueState, m: Mode, x: seq<Symbol>) {
    StandsFor(l, v, ElementSeen(l, m, x), |Met(m, x)|)
  }

  // One character more.

  function NextSeen(l: Listing, m: Mode, s: Seen, n: nat, ch: octet): Seen
    requires s.Part? ==> n < |Word(s.k)|
  {
    match s
    case NoneYet =>
      if m.Noticed? && ch == ' ' then NoneYet
      else if m.Noticed? && !IsToken(Lower(ch)) then Unread
      else (match Sought(l, ch) case Some(k) => Part(k) case None => Other)
    case Part(k) =>
      if Lower(ch) != Word(k)[n] then Other else if n + 1 == |Word(k)| then Whole(k) else Part(k)
    case Whole(k) => if ch == ' ' then Whole(k) else Other
    case _ => s
  }

  lemma WordStarts(l: Listing, ch: octet)
    ensures Sought(l, ch).Some? ==>
              var k := Sought(l, ch).value;
              ListOf(k) == l && Word(k)[0] == Lower(ch) && |Word(k)| > 1 && IsToken(Lower(ch))
  {
  }

  lemma SpaceStarts(l: Listing)
    ensures Sought(l, ' ').None?
  {
  }

  lemma PartLength(l: Listing, e: seq<octet>)
    ensures var s := SeenIn(l, e);
            && (s.Part? ==> 0 < |e| < |Word(s.k)|) && (s.NoneYet? <==> e == []) && !s.Unread?
            && (s.Part? || s.Whole? ==> ListOf(s.k) == l)
  {
    hide Lower, Word, Spells, Spaces;
    if e != [] {
      WordStarts(l, e[0]);
    }
  }

  lemma SpellsMore(e: seq<octet>, ch: octet, word: string)
    requires |e| < |word|
    ensures Spells(e + [ch], word[..|e| + 1]) <==> Spells(e, word[..|e|]) && Lower(ch) == word[|e|]
  {
    hide Lower;
    var d := e + [ch];
    assert d[|e|] == ch && forall i :: 0 <= i < |e| ==> d[i] == e[i];
  }

  lemma SpacesMore(e: seq<octet>, ch: octet, word: string)
    requires |word| <= |e|
    ensures (e + [ch])[..|word|] == e[..|word|]
    ensures Spaces((e + [ch])[|word|..]) <==> Spaces(e[|word|..]) && ch == ' '
  {
    var d := e + [ch];
    assert d[|word|..] == e[|word|..] + [ch];
    assert d[|word|..][|e| - |word|] == ch;
    if Spaces(d[|word|..]) {
      assert forall i :: 0 <= i < |e| - |word| ==> e[|word|..][i] == d[|word|..][i];
    }
  }

  lemma SeenSnoc(l: Listing, e: seq<octet>, ch: octet)
    ensures e == [] ==>
              SeenIn(l, [ch]) == match Sought(l, ch) case Some(k) => Part(k) case None => Other
    ensures e != [] ==>
              var s := SeenIn(l, e);
              (s.Part? ==> |e| < |Word(s.k)|) && SeenIn(l, e + [ch]) == NextSeen(l, AtFirst, s, |e|, ch)
  {
    hide Lower, Word, Spells, Spaces;
    var d := e + [ch];
    WordStarts(l, d[0]);
    assert e != [] ==> d[0] == e[0];
    if Sought(l, d[0]).Some? {
      var word := Word(Sought(l, d[0]).value);
      assert word[..|word|] == word;
      if e == [] {
        SpellsOne(ch, word);
        assert [ch][0] == ch;
      } else if |e| < |word| {
        SpellsMore(e, ch, word);
        if |d| == |word| {
          assert d[..|word|] == d && d[|word|..] == [];
          NoSpaces();
        }
      } else {
        SpacesMore(e, ch, word);
      }
    }
  }

  lemma NoSpaces()
    ensures Spaces([])
  {
  }

  lemma SpellsOne(ch: octet, word: string)
    requires |word| > 0 && word[0] == Lower(ch)
    ensures Spells([ch], word[..1])
  {
  }

  lemma StrippedSnoc(x: seq<Symbol>, s: Symbol)
    ensures Stripped(x + [s]) == if Stripped(x) == [] && (s.Fold? || s.c == ' ') then [] else Stripped(x) + [s]
  {
    if x == [] {
      assert [] + [s] == [s];
    } else if x[0].Fold? || x[0].c == ' ' {
      assert (x + [s])[1..] == x[1..] + [s];
      StrippedSnoc(x[1..], s);
    }
  }

  lemma CharsSnoc(x: seq<Symbol>, s: Symbol)
    ensures Chars(x + [s]) == Chars(x) + [s.c]
  {
  }

  lemma UnreadableSnoc(m: Mode, x: seq<Symbol>, s: Symbol)
    ensures Unreadable(m, x + [s]) <==>
            Unreadable(m, x) || s.Fold? || (m.Noticed? && x == [] && !IsToken(Lower(s.c)))
  {
    var y := x + [s];
    assert y[|x|] == s && forall i :: 0 <= i < |x| ==> y[i] == x[i];
    hide Lower, IsToken;
  }

  /** A character within an element. */
  lemma ElementSnoc(l: Listing, m: Mode, x: seq<Symbol>, ch: octet)
    ensures var s, y := ElementSeen(l, m, x), Met(m, x);
            && (s.Part? ==> |y| < |Word(s.k)|)
            && ElementSeen(l, m, x + [Byte(ch)]) == NextSeen(l, m, s, |y|, ch)
            && (s.NoneYet? <==> !Unreadable(m, y) && !m.Unnoticed? && y == [])
            && |Met(m, x + [Byte(ch)])| == if m.Noticed? && y == [] && ch == ' ' then 0 else |y| + 1
  {
    hide Lower, IsToken, Word, SeenIn, Sought;
    var y := Met(m, x);
    StrippedSnoc(x, Byte(ch));
    UnreadableSnoc(m, y, Byte(ch));
    CharsSnoc(y, Byte(ch));
    SeenSnoc(l, Chars(y), ch);
    PartLength(l, Chars(y));
    WordStarts(l, ch);
    if y == [] {
      assert Chars(y) + [ch] == [ch];
    }
  }

  /** White space on a new line within an element. */
  lemma ElementFold(l: Listing, m: Mode, x: seq<Symbol>, ch: octet)
    requires m.AtFirst? ==> x != []
    ensures ElementSeen(l, m, x + [Fold(ch)]) == if ElementSeen(l, m, x).NoneYet? then NoneYet else Unread
  {
    hide Lower, IsToken, SeenIn;
    StrippedSnoc(x, Fold(ch));
    UnreadableSnoc(m, Met(m, x), Fold(ch));
    PartLength(l, Chars(Met(m, x)));
    NothingSeen(l, m);
  }

  lemma NothingSeen(l: Listing, m: Mode)
    ensures ElementSeen(l, m, []) == if m.Lost? then Unread else if m.Unnoticed? then Other else NoneYet
  {
  }

  // The machine, one character at a time.

  lemma ByteSeeking(cfg: Config, v: ValueState, k: Keyword, ch: octet)
    requires IsHeaderChar(ch) && v.header == Seeking(k) && v.index + 1 < |Word(k)|
    ensures ValueByte(cfg, v, ch) ==
            Took(v.(index := v.index + 1,
                    header := if Lower(ch) != Word(k)[v.index + 1] then AnyToken(ListOf(k))
                              else if v.index + 2 == |Word(k)| then Found(k) else Seeking(k)))
  {
    hide Lower, IsHeaderChar;
  }

  lemma ByteFound(cfg: Config, v: ValueState, k: Keyword, ch: octet)
    requires IsHeaderChar(ch) && v.header == Found(k)
    ensures ValueByte(cfg, v, ch) ==
            Took(if ch == ' ' then v
                 else if ch == ',' && k != Chunked
                 then v.(flags := Flagged(v.flags, k), header := TokenStart(Options), index := 0)
                 else v.(header := AnyToken(ListOf(k))))
  {
    hide Lower, IsHeaderChar;
  }

  lemma ByteFresh(cfg: Config, v: ValueState, l: Listing, ch: octet)
    requires IsHeaderChar(ch) && v.header == TokenStart(l)
    ensures ValueByte(cfg, v, ch) ==
            Took(match Sought(l, ch)
                 case Some(k) => v.(header := Seeking(k))
                 case None => if ch == ' ' then v
                              else v.(header := if IsToken(Lower(ch)) then AnyToken(l) else HGeneral))
  {
    assert Lower(ch) == ' ' <==> ch == ' ' || ch == NUL;
    assert !IsToken(' ') && Lower(ch) != '\t';
    hide IsToken;
  }

  lemma ByteOther(cfg: Config, v: ValueState, l: Listing, ch: octet)
    requires IsHeaderChar(ch) && (v.header == AnyToken(l) || v.header == HGeneral)
    ensures ValueByte(cfg, v, ch) ==
            Took(if v.header == AnyToken(l) && ch == ',' then v.(header := TokenStart(l), index := 0) else v)
  {
    hide Lower, IsHeaderChar;
  }

  lemma NextByte(cfg: Config, l: Listing, v: ValueState, m: Mode, s: Seen, n: nat, ch: octet)
    requires IsHeaderChar(ch) && ch != ',' && StandsFor(l, v, s, n) && (s.NoneYet? ==> m.Noticed? && n == 0)
    ensures ValueByte(cfg, v, ch).Took?
    ensures var w := ValueByte(cfg, v, ch).v;
            && w == v.(header := w.header, index := w.index)
            && StandsFor(l, w, NextSeen(l, m, s, n, ch), if s.NoneYet? && ch == ' ' then 0 else n + 1)
  {
    hide ValueByte, Lower, IsHeaderChar, IsToken, Word, Sought;
    WordStarts(l, ch);
    match s
    case NoneYet =>
      ByteFresh(cfg, v, l, ch);
      SpaceStarts(l);
    case Part(k) => ByteSeeking(cfg, v, k, ch);
    case Whole(k) => ByteFound(cfg, v, k, ch);
    case _ => ByteOther(cfg, v, l, ch);
  }

  lemma StandsByte(cfg: Config, l: Listing, v: ValueState, m: Mode, x: seq<Symbol>, ch: octet)
    requires IsHeaderChar(ch) && ch != ',' && Stands(l, v, m, x) && (m.AtFirst? ==> x != [])
    ensures ValueByte(cfg, v, ch).Took?
    ensures var w := ValueByte(cfg, v, ch).v;
            w == v.(header := w.header, index := w.index) && Stands(l, w, m, x + [Byte(ch)])
  {
    hide ValueByte, IsHeaderChar, ElementSeen, NextSeen, StandsFor, IsToken, Lower;
    NoneMet(l, m, x);
    ElementSnoc(l, m, x, ch);
    NextByte(cfg, l, v, m, ElementSeen(l, m, x), |Met(m, x)|, ch);
  }

  /** What a comma notes of the element before it. */
  function Noted(f: Flags, l: Listing, s: Seen): Flags {
    if l.Options? && s.Whole? then Flagged(f, s.k) else f
  }

  lemma StandsComma(cfg: Config, l: Listing, v: ValueState, m: Mode, x: seq<Symbol>)
    requires Stands(l, v, m, x) && (m.AtFirst? ==> x != [])
    ensures ValueByte(cfg, v, ',').Took?
    ensures var w := ValueByte(cfg, v, ',').v;
            && w == v.(header := w.header, index := w.index, flags := Noted(v.flags, l, ElementSeen(l, m, x)))
            && Stands(l, w, After(l, m, x), [])
  {
    var s := ElementSeen(l, m, x);
    NoneMet(l, m, x);
    NothingSeen(l, After(l, m, x));
    hide ValueByte, ElementSeen, Word, Unreadable;
    CommaWords();
    match s
    case NoneYet => ByteFresh(cfg, v, l, ',');
    case Part(k) => ByteSeeking(cfg, v, k, ',');
    case Whole(k) => ByteFound(cfg, v, k, ',');
    case _ => ByteOther(cfg, v, l, ',');
  }

  lemma NoneMet(l: Listing, m: Mode, x: seq<Symbol>)
    ensures ElementSeen(l, m, x).NoneYet? ==> Met(m, x) == [] && (m.AtFirst? || m.Noticed?)
  {
    PartLength(l, Chars(Met(m, x)));
    hide SeenIn;
  }

  lemma CommaWords()
    ensures Sought(Codings, ',').None? && Sought(Options, ',').None? && !IsToken(Lower(','))
    ensures forall k: Keyword, i :: 0 <= i < |Word(k)| ==> Word(k)[i] != Lower(',')
  {
  }

  // White space on a new line: the machine starts the value once more.

  function Refolded(v: ValueState): ValueState {
    v.(index := 0,
       header := if v.header == HContentLengthNum || v.header == HContentLengthWs then HContentLengthWs
                 else if v.header == TokenStart(Codings) || v.header == TokenStart(Options) then v.header
                 else HGeneral)
  }

  lemma StandsFold(l: Listing, v: ValueState, m: Mode, x: seq<Symbol>, ch: octet)
    requires Stands(l, v, m, x) && (m.AtFirst? ==> x != [])
    ensures Stands(l, Refolded(v), m, x + [Fold(ch)])
  {
    ElementFold(l, m, x, ch);
    hide ElementSeen, Unreadable, Word;
  }

  // Whole values.

  function TakeSymbol(cfg: Config, v: ValueState, s: Symbol): ValuePass {
    if s.Fold? then Took(Refolded(v)) else ValueByte(cfg, v, s.c)
  }

  /** What the symbols of a value, after its first, leave of the machine's variables. */
  function TakeAll(cfg: Config, v: ValueState, w: seq<Symbol>): ValuePass {
    if w == [] then Took(v)
    else
      match TakeAll(cfg, v, w[..|w| - 1])
      case Took(u) => TakeSymbol(cfg, u, w[|w| - 1])
      case Rejected(e) => Rejected(e)
  }

  /** The flags that the commas of a list set. */
  function ListFlags(f: Flags, l: Listing, es: seq<seq<Symbol>>): Flags {
    if es == [] then f
    else
      var n := |es| - 1;
      Noted(ListFlags(f, l, es[..n]), l, ElementSeen(l, ModeAfter(l, es[..n]), es[n]))
  }

  /** The variables after the first character of a list. */
  predicate StartsList(l: Listing, r: ValueState, v: seq<Symbol>) {
    && v != [] && SymbolsOk(v) && v[0].Byte? && !Blank(v[0].c) && r.index == 0
    && r.header == match Sought(l, v[0].c) case Some(k) => Seeking(k) case None => AnyToken(l)
  }

  predicate Listed(l: Listing, r: ValueState, v: seq<Symbol>, w: ValueState) {
    && w == r.(header := w.header, index := w.index, flags := ListFlags(r.flags, l, Complete(v)))
    && Stands(l, w, ModeAfter(l, Complete(v)), Current(v))
  }

  lemma StartOnce(l: Listing, v: seq<Symbol>)
    requires v != []
    ensures ModeAfter(l, Complete(v)).AtFirst? ==> Current(v) != []
  {
    var es := Complete(v);
    if es != [] {
      AfterStarted(l, ModeAfter(l, es[..|es| - 1]), es[|es| - 1]);
    }
    hide After;
  }

  lemma AfterStarted(l: Listing, m: Mode, x: seq<Symbol>)
    ensures !After(l, m, x).AtFirst?
  {
    hide ElementSeen;
  }

  lemma ListFirst(l: Listing, r: ValueState, v: seq<Symbol>)
    requires StartsList(l, r, v) && |v| == 1
    ensures Listed(l, r, v, r)
  {
    var ch := v[0].c;
    assert v == [Byte(ch)] && v[..0] == [];
    WordStarts(l, ch);
    if ch == ',' {
      CommaWords();
      var one: seq<seq<Symbol>> := [[]];
      assert v[0] == Byte(',') && Complete(v[..0]) == [] && Current(v[..0]) == [];
      assert Complete(v) == [] + [Current(v[..0])] == one;
      assert one[..0] == [];
      NothingSeen(l, AtFirst);
      NothingSeen(l, Unnoticed);
      hide ElementSeen, Sought, Lower;
      assert ModeAfter(l, Complete(v)) == Unnoticed;
      assert ListFlags(r.flags, l, one) == ListFlags(r.flags, l, []);
    } else {
      assert [] + [Byte(ch)] == v;
      ElementSnoc(l, AtFirst, [], ch);
      NothingSeen(l, AtFirst);
      hide ElementSeen, Sought, Lower, Word;
      assert Complete(v) == [] && Current(v) == v;
    }
  }

  lemma ListNext(cfg: Config, l: Listing, r: ValueState, v: seq<Symbol>, w: ValueState, s: Symbol)
    requires v != [] && Listed(l, r, v, w) && SymbolOk(s)
    ensures TakeSymbol(cfg, w, s).Took? && Listed(l, r, v + [s], TakeSymbol(cfg, w, s).v)
  {
    hide ValueByte, IsHeaderChar, Stands, Refolded, ElementSeen, After, Noted;
    var m, x := ModeAfter(l, Complete(v)), Current(v);
    StartOnce(l, v);
    assert (v + [s])[..|v|] == v;
    if s.Fold? {
      StandsFold(l, w, m, x, s.c);
      FoldKeeps(w);
    } else if s.c == ',' {
      StandsComma(cfg, l, w, m, x);
      var es := Complete(v) + [x];
      assert es[..|es| - 1] == Complete(v);
    } else {
      StandsByte(cfg, l, w, m, x, s.c);
    }
  }

  lemma FoldKeeps(v: ValueState)
    ensures var w := Refolded(v); w == v.(header := w.header, index := w.index)
  {
  }

  /** How a list is read, for any value: the machine ends where its last element stands, with a flag set for every
      option heard before it. */
  lemma {:induction false} ListValue(cfg: Config, l: Listing, r: ValueState, v: seq<Symbol>)
    requires StartsList(l, r, v)
    ensures TakeAll(cfg, r, v[1..]).Took? && Listed(l, r, v, TakeAll(cfg, r, v[1..]).v)
  {
    hide TakeSymbol, Listed, Sought;
    if |v| == 1 {
      ListFirst(l, r, v);
    } else {
      var n := |v| - 1;
      ListValue(cfg, l, r, v[..n]);
      assert v[..n][1..] == v[1..][..n - 1] && v == v[..n] + [v[n]];
      ListNext(cfg, l, r, v[..n], TakeAll(cfg, r, v[..n][1..]).v, v[n]);
    }
  }

  // What a line with a list leaves.

  function OptionFlags(f: Flags, close: bool, keepAlive: bool, upgrade: bool): Flags {
    f.(close := f.close || close, keepAlive := f.keepAlive || keepAlive,
       connectionUpgrade := f.connectionUpgrade || upgrade)
  }

  function Heeding(f: Flags, l: Listing, v: seq<Symbol>): Flags {
    if l.Codings? then f.(chunked := f.chunked || Hears(Chunked, v))
    else OptionFlags(f, Hears(Close, v), Hears(KeepAlive, v), Hears(Upgrade, v))
  }

  lemma NotedIs(f: Flags, l: Listing, s: Seen)
    requires s.Whole? ==> ListOf(s.k) == l
    ensures Noted(f, l, s) ==
            if l.Codings? then f else OptionFlags(f, s == Whole(Close), s == Whole(KeepAlive), s == Whole(Upgrade))
  {
  }

  lemma OptionsTwice(f: Flags, a: bool, b: bool, c: bool, d: bool, e: bool, g: bool)
    ensures OptionFlags(OptionFlags(f, a, b, c), d, e, g) == OptionFlags(f, a || d, b || e, c || g)
    ensures OptionFlags(f, false, false, false) == f
  {
  }

  lemma {:induction false} ListFlagsIs(f: Flags, l: Listing, es: seq<seq<Symbol>>)
    ensures ListFlags(f, l, es) ==
            if l.Codings? then f else OptionFlags(f, Among(Close, es), Among(KeepAlive, es), Among(Upgrade, es))
  {
    hide ElementSeen, ModeAfter, OptionFlags, Noted;
    if es == [] {
      OptionsTwice(f, false, false, false, false, false, false);
    } else {
      var n := |es| - 1;
      var s := ElementSeen(l, ModeAfter(l, es[..n]), es[n]);
      ListFlagsIs(f, l, es[..n]);
      SeenListed(l, ModeAfter(l, es[..n]), es[n]);
      NotedIs(ListFlags(f, l, es[..n]), l, s);
      OptionsTwice(f, Among(Close, es[..n]), Among(KeepAlive, es[..n]), Among(Upgrade, es[..n]),
                   s == Whole(Close), s == Whole(KeepAlive), s == Whole(Upgrade));
    }
  }

  lemma SeenListed(l: Listing, m: Mode, x: seq<Symbol>)
    ensures var s := ElementSeen(l, m, x); s.Whole? ==> ListOf(s.k) == l
  {
    PartLength(l, Chars(Met(m, x)));
    hide SeenIn;
  }

  lemma LineNotes(f: Flags, l: Listing, s: Seen)
    requires s.Whole? ==> ListOf(s.k) == l
    ensures LineFlags(f, HeaderFor(l, s)) ==
            if l.Codings? then f.(chunked := f.chunked || s == Whole(Chunked)) else Noted(f, l, s)
  {
  }

  lemma ListedEnd(l: Listing, r: ValueState, v: seq<Symbol>, w: ValueState)
    requires Listed(l, r, v, w)
    ensures var s := ElementSeen(l, ModeAfter(l, Complete(v)), Current(v));
            w.header == HeaderFor(l, s) && (s.Whole? ==> ListOf(s.k) == l)
    ensures w.flags == ListFlags(r.flags, l, Complete(v))
  {
    hide ElementSeen, ModeAfter, ListFlags, HeaderFor;
    SeenListed(l, ModeAfter(l, Complete(v)), Current(v));
  }

  /** The end of the line sets the flag of its last element. */
  lemma ListEnd(l: Listing, r: ValueState, v: seq<Symbol>, w: ValueState)
    requires Listed(l, r, v, w)
    ensures LineFlags(w.flags, w.header) == Heeding(r.flags, l, v)
  {
    hide ElementSeen, ModeAfter, Among, ListFlags, Word, LineFlags, HeaderFor, OptionFlags, Noted, Listed, Complete,
      Current;
    var es, s := Complete(v), ElementSeen(l, ModeAfter(l, Complete(v)), Current(v));
    ListedEnd(l, r, v, w);
    ListFlagsIs(r.flags, l, es);
    LineNotes(w.flags, l, s);
    NotedIs(w.flags, l, s);
    OptionsTwice(r.flags, Among(Close, es), Among(KeepAlive, es), Among(Upgrade, es),
                 s == Whole(Close), s == Whole(KeepAlive), s == Whole(Upgrade));
  }

  // Lists that are heard as section 7 has them.

  /** A value of one line, without tabs. */
  predicate Simple(v: seq<Symbol>) { forall i :: 0 <= i < |v| ==> v[i].Byte? && v[i].c != '\t' }

  /** Every comma is noticed: what is before it is a token, but no part of a word, and in a list of codings none. */
  predicate Tidy(l: Listing, v: seq<Symbol>) {
    && v != [] && Simple(v) && v[0].c != ' '
    && forall e <- Complete(v) :: After(l, Noticed, e) == Noticed
  }

  /** White space at the end comes off. */
  lemma {:induction false} TrimmedEnd(c: seq<octet>) returns (n: nat)
    requires c != [] && !Blank(c[0])
    ensures 0 < n <= |c| && Trimmed(c) == c[..n] && !Blank(c[n - 1])
    ensures forall i :: n <= i < |c| ==> Blank(c[i])
  {
    n := |c|;
    assert c[..n] == c;
    if Blank(c[n - 1]) {
      var d := c[..n - 1];
      n := TrimmedEnd(d);
      assert d[..n] == c[..n];
    }
  }

  lemma {:induction false} TrimmedAt(c: seq<octet>, n: nat)
    requires 0 < n <= |c|
    requires forall i :: 0 <= i < |c| ==> (Blank(c[i]) <==> n <= i)
    ensures Trimmed(c) == c[..n]
  {
    hide Blank;
    if n < |c| {
      var d := c[..|c| - 1];
      TrimmedAt(d, n);
      assert d[..n] == c[..n];
    } else {
      assert c[..n] == c;
    }
  }

  lemma {:induction false} TrimmedStart(x: seq<Symbol>)
    requires Simple(x)
    ensures Trimmed(Chars(x)) == Trimmed(Chars(Stripped(x)))
    ensures var y := Stripped(x); Simple(y) && (y != [] ==> !Blank(y[0].c))
  {
    if x != [] && x[0].c == ' ' {
      TrimmedStart(x[1..]);
      assert Chars(x)[1..] == Chars(x[1..]);
    }
  }

  lemma WordLetters(k: Keyword, i: nat, ch: octet)
    requires i < |Word(k)| && Lower(ch) == Word(k)[i]
    ensures !Blank(ch)
  {
  }

  lemma WordFirst(l: Listing, ch: octet, k: Keyword)
    requires ListOf(k) == l && Lower(ch) == Word(k)[0]
    ensures Sought(l, ch) == Some(k)
  {
    hide Lower;
  }

  /** A text is heard as a word exactly when it spells the word and spaces. */
  lemma WholeIs(l: Listing, k: Keyword, c: seq<octet>)
    requires ListOf(k) == l && c != [] && !Blank(c[0]) && forall i :: 0 <= i < |c| ==> c[i] != '\t'
    ensures SeenIn(l, c) == Whole(k) <==> Spells(Trimmed(c), Word(k))
  {
    hide Lower, Word, Sought, Trimmed;
    WordStarts(l, c[0]);
    var n := TrimmedEnd(c);
    var m := |Word(k)|;
    if SeenIn(l, c) == Whole(k) {
      WordLetters(k, m - 1, c[..m][m - 1]);
      assert forall i :: m <= i < |c| ==> c[m..][i - m] == ' ' == c[i];
      assert n == m;
    }
    if Spells(c[..n], Word(k)) {
      WordFirst(l, c[0], k);
      assert Spaces(c[m..]);
    }
  }

  lemma ElementIs(m: Mode, k: Keyword, x: seq<Symbol>)
    requires Simple(x) && (m.Noticed? || (m.AtFirst? && (x != [] ==> x[0].c != ' ')))
    ensures ElementSeen(ListOf(k), m, x) == Whole(k) <==> Spells(Trimmed(Chars(x)), Word(k))
  {
    hide Lower, Word, Sought, Trimmed, SeenIn, IsToken;
    var l, y := ListOf(k), Stripped(x);
    TrimmedStart(x);
    PartLength(l, Chars(y));
    if y == [] {
      NoWordEmpty(k);
    } else {
      WholeIs(l, k, Chars(y));
      var n := TrimmedEnd(Chars(y));
      if Spells(Chars(y)[..n], Word(k)) {
        WordFirst(l, y[0].c, k);
        WordStarts(l, y[0].c);
      }
    }
  }

  lemma NoWordEmpty(k: Keyword)
    ensures Chars([]) == [] && Trimmed([]) == [] && !Spells([], Word(k))
  {
  }

  lemma AfterFirst(l: Listing, x: seq<Symbol>)
    requires (x != [] ==> x[0].Byte? && x[0].c != ' ') && After(l, Noticed, x) == Noticed
    ensures x != [] && After(l, AtFirst, x) == Noticed
  {
    hide SeenIn, Lower, IsToken;
    PartLength(l, Chars(x));
  }

  lemma {:induction false} SimpleParts(v: seq<Symbol>)
    requires Simple(v)
    ensures (forall e <- Complete(v) :: Simple(e)) && Simple(Current(v))
  {
    if v != [] {
      SimpleParts(v[..|v| - 1]);
    }
  }

  /** The first element starts as the value does. */
  lemma {:induction false} FirstPart(v: seq<Symbol>)
    requires v != []
    ensures Complete(v) == [] ==> Current(v) == v
    ensures Complete(v) != [] ==> Complete(v)[0] == [] || Complete(v)[0][0] == v[0]
  {
    var n := |v| - 1;
    if n > 0 {
      FirstPart(v[..n]);
      assert v == v[..n] + [v[n]];
    } else {
      assert v[..0] == [] && v == [v[0]];
    }
  }

  predicate FirstNotBlank(es: seq<seq<Symbol>>) { es != [] && es[0] != [] ==> es[0][0].Byte? && es[0][0].c != ' ' }

  lemma {:induction false} ModeTidy(l: Listing, es: seq<seq<Symbol>>)
    requires FirstNotBlank(es) && forall e <- es :: After(l, Noticed, e) == Noticed
    ensures ModeAfter(l, es) == if es == [] then AtFirst else Noticed
  {
    hide After;
    if es != [] {
      var n := |es| - 1;
      ModeTidy(l, es[..n]);
      assert es[n] in es;
      if n == 0 {
        AfterFirst(l, es[0]);
      }
    }
  }

  lemma {:induction false} AmongIs(k: Keyword, es: seq<seq<Symbol>>)
    requires FirstNotBlank(es) && forall e <- es :: After(ListOf(k), Noticed, e) == Noticed && Simple(e)
    ensures Among(k, es) <==> exists e <- es :: Spells(Trimmed(Chars(e)), Word(k))
  {
    hide After, Spells, Trimmed, Word, ElementSeen, Simple;
    if es != [] {
      var n := |es| - 1;
      AmongIs(k, es[..n]);
      ModeTidy(ListOf(k), es[..n]);
      assert es[n] in es && es == es[..n] + [es[n]];
      ElementIs(ModeAfter(ListOf(k), es[..n]), k, es[n]);
    }
  }

  lemma {:induction false} NonEmptyIs(es: seq<seq<Symbol>>, t: seq<octet>)
    ensures t in NonEmpty(es) <==> t != [] && exists e <- es :: t == Trimmed(Chars(e))
  {
    hide Trimmed;
    if es != [] {
      var n := |es| - 1;
      NonEmptyIs(es[..n], t);
      assert es == es[..n] + [es[n]];
    }
  }

  /** The word is in the list: a coding as its last element, an option as any. */
  predicate Lists(k: Keyword, v: seq<Symbol>) {
    var ts := Members(v);
    if k.Chunked? then ts != [] && Spells(ts[|ts| - 1], Word(k)) else exists t <- ts :: Spells(t, Word(k))
  }

  lemma HearsElement(k: Keyword, v: seq<Symbol>)
    requires Tidy(ListOf(k), v)
    ensures Hears(k, v) <==>
            || (k != Chunked && exists e <- Complete(v) :: Spells(Trimmed(Chars(e)), Word(k)))
            || Spells(Trimmed(Chars(Current(v))), Word(k))
  {
    hide After, Spells, Trimmed, Word, ElementSeen, Simple, Among;
    FirstPart(v);
    assert v[0].Byte? by {
      SimpleFirst(v);
    }
    SimpleParts(v);
    ModeTidy(ListOf(k), Complete(v));
    AmongIs(k, Complete(v));
    ElementIs(ModeAfter(ListOf(k), Complete(v)), k, Current(v));
  }

  lemma SimpleFirst(v: seq<Symbol>)
    requires v != [] && Simple(v)
    ensures v[0].Byte?
  {
  }

  /** No coding before a noticed comma is "chunked". */
  lemma TidyCoding(e: seq<Symbol>)
    requires Simple(e) && After(Codings, Noticed, e) == Noticed
    ensures Trimmed(Chars(e)) != [] && !Spells(Trimmed(Chars(e)), Word(Chunked))
  {
    ElementIs(Noticed, Chunked, e);
    TrimmedStart(e);
    NoneMet(Codings, Noticed, e);
    var y := Stripped(e);
    if y == [] {
      PartLength(Codings, Chars(y));
    } else {
      var n := TrimmedEnd(Chars(y));
    }
    hide SeenIn, Trimmed, Spells;
  }

  /** Wherever every comma is noticed, the words are heard exactly as they are listed. */
  lemma HearsIs(k: Keyword, v: seq<Symbol>)
    requires Tidy(ListOf(k), v)
    ensures Hears(k, v) <==> Lists(k, v)
  {
    hide After, Trimmed, Hears, Simple, Complete, Current, Word;
    var es, x := Complete(v), Current(v);
    var t, all := Trimmed(Chars(x)), es + [x];
    HearsElement(k, v);
    SimpleParts(v);
    NoWordEmpty(k);
    assert all[..|es|] == es && all[|es|] == x;
    if k.Chunked? {
      if t == [] && es != [] {
        var e := es[|es| - 1];
        assert e in es;
        TidyCoding(e);
        assert NonEmpty(es) == NonEmpty(es[..|es| - 1]) + [Trimmed(Chars(e))];
        assert Members(v) == NonEmpty(es) + [] == NonEmpty(es);
      }
    } else {
      forall e
        ensures e in NonEmpty(all) <==> e != [] && exists y <- all :: e == Trimmed(Chars(y))
      {
        NonEmptyIs(all, e);
      }
    }
  }
}
