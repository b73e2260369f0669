/** The first pass of http_parser_parse_url: which sections a URL has, and where they are. */
module UrlSections {
  import opened Wrappers
  import opened HttpTypes
  import opened HttpSwitch

  type text = seq<octet>

  datatype UrlPart = Schema | Host | Port | Path | Query | Fragment | UserInfo

  /** An element of field_data. */
  datatype Span = Span(off: nat, len: nat)

  /** The elements of field_data whose bit is in field_set. */
  type Fields = map<UrlPart, Span>

  /** The sections of a URL as they stand in it; `slashes` counts the characters of "://", `hashes` those that
      start the fragment. */
  datatype Sections = Sections(
    schema: text, slashes: nat, host: text, path: text, qmark: bool, query: text, hashes: nat, fragment: text)

  const NOTHING := Sections([], 0, [], [], false, [], 0, [])

  const DELIMITER: text := [':', '/', '/']

  function Hashes(n: nat): (r: text)
    ensures |r| == n
  {
    seq(n, _ => '#')
  }

  function ToHost(u: Sections): text
    requires u.slashes <= 3
  {
    u.schema + DELIMITER[..u.slashes] + u.host
  }

  function ToQuery(u: Sections): text
    requires u.slashes <= 3
  {
    ToHost(u) + u.path + (if u.qmark then ['?'] else []) + u.query
  }

  function Render(u: Sections): text
    requires u.slashes <= 3
  {
    ToQuery(u) + Hashes(u.hashes) + u.fragment
  }

  predicate IsServerChar(c: octet) { IsUserinfoChar(c) || c == '[' || c == ']' || c == '@' }

  /** Server characters without two @ in a row. */
  predicate ServerText(t: text) {
    && (forall i :: 0 <= i < |t| ==> IsServerChar(t[i]))
    && (forall i :: 0 <= i < |t| - 1 ==> !(t[i] == '@' && t[i + 1] == '@'))
  }

  /** A server, a path or a query may come next: the schema is complete, or it is CONNECT's target. */
  predicate ServerStarted(u: Sections, connect: bool) { u.slashes == 3 || connect }

  /** What the sections of a URL are made of. */
  predicate Valid(u: Sections, connect: bool) {
    && u.slashes <= 3 && (connect ==> u.schema == []) && (u.schema == [] ==> u.slashes == 0)
    && (forall i :: 0 <= i < |u.schema| ==> IsAlpha(u.schema[i]))
    && ServerText(u.host) && (u.host != [] ==> ServerStarted(u, connect))
    && (u.path != [] ==>
          if ServerStarted(u, connect) then u.path[0] == '/'
          else u.schema == [] && (u.path[0] == '/' || u.path[0] == '*'))
    && (forall i :: 0 <= i < |u.path| ==> IsUrlChar(u.path[i]))
    && (u.qmark ==> u.path != [] || ServerStarted(u, connect))
    && (u.query != [] ==> u.qmark)
    && (forall i :: 0 <= i < |u.query| ==> IsUrlChar(u.query[i]) || u.query[i] == '?')
    && (u.hashes > 0 ==> u.path != [] || u.qmark)
    && (u.fragment != [] ==> u.hashes > 0 && u.fragment[0] != '#')
    && (forall i :: 0 <= i < |u.fragment| ==> IsUrlChar(u.fragment[i]) || u.fragment[i] == '?' || u.fragment[i] == '#')
  }

  /** The state of the machine after a text with these sections. */
  function StateOf(u: Sections, connect: bool): State {
    if u.fragment != [] then ReqFragment
    else if u.hashes > 0 then ReqFragmentStart
    else if u.query != [] then ReqQueryString
    else if u.qmark then ReqQueryStringStart
    else if u.path != [] then ReqPath
    else if u.host != [] then if u.host[|u.host| - 1] == '@' then ReqServerWithAt else ReqServer
    else if ServerStarted(u, connect) then ReqServerStart
    else if u.slashes == 2 then ReqSchemaSlashSlash
    else if u.slashes == 1 then ReqSchemaSlash
    else if u.schema != [] then ReqSchema
    else ReqSpacesBeforeUrl
  }

  /** The sections with one more character, which leads to state `s`. */
  function Append(u: Sections, s: State, ch: octet): Sections {
    match s
    case ReqSchema => u.(schema := u.schema + [ch])
    case ReqSchemaSlash => u.(slashes := 1)
    case ReqSchemaSlashSlash => u.(slashes := 2)
    case ReqServerStart => u.(slashes := 3)
    case ReqServer => u.(host := u.host + [ch])
    case ReqServerWithAt => u.(host := u.host + [ch])
    case ReqPath => u.(path := u.path + [ch])
    case ReqQueryStringStart => u.(qmark := true)
    case ReqQueryString => u.(query := u.query + [ch])
    case ReqFragmentStart => u.(hashes := u.hashes + 1)
    case _ => u.(fragment := u.fragment + [ch])
  }

  /** Nothing comes after the path, or after the query, ... in these sections. */
  predicate NoFragment(u: Sections) { u.hashes == 0 && u.fragment == [] }

  predicate NoQuery(u: Sections) { !u.qmark && u.query == [] && NoFragment(u) }

  predicate NoPath(u: Sections) { u.path == [] && NoQuery(u) }

  predicate NoHost(u: Sections) { u.host == [] && NoPath(u) }

  /** When a character can be added, and where. */
  predicate Fits(u: Sections, connect: bool, s: State, ch: octet) {
    match s
    case ReqSchema => NoHost(u) && u.slashes == 0 && !connect && IsAlpha(ch)
    case ReqSchemaSlash => NoHost(u) && u.slashes == 0 && u.schema != [] && ch == ':'
    case ReqSchemaSlashSlash => NoHost(u) && u.slashes == 1 && ch == '/'
    case ReqServerStart => NoHost(u) && u.slashes == 2 && ch == '/'
    case ReqServer => NoPath(u) && ServerStarted(u, connect) && IsServerChar(ch) && ch != '@'
    case ReqServerWithAt =>
      NoPath(u) && ServerStarted(u, connect) && ch == '@' && (u.host != [] ==> u.host[|u.host| - 1] != '@')
    case ReqPath =>
      && NoQuery(u) && IsUrlChar(ch)
      && (u.path == [] ==>
            if ServerStarted(u, connect) then ch == '/' else u.schema == [] && (ch == '/' || ch == '*'))
    case ReqQueryStringStart => NoQuery(u) && ch == '?' && (u.path != [] || ServerStarted(u, connect))
    case ReqQueryString => NoFragment(u) && u.qmark && (IsUrlChar(ch) || ch == '?')
    case ReqFragmentStart => u.fragment == [] && ch == '#' && (u.path != [] || u.qmark)
    case ReqFragment =>
      u.hashes > 0 && (IsUrlChar(ch) || ch == '?' || ch == '#') && (u.fragment == [] ==> ch != '#')
    case _ => false
  }

  lemma StepFits(u: Sections, connect: bool, ch: octet)
    requires Valid(u, connect) && ParseUrlChar(StateOf(u, connect), ch) != Dead
    ensures Fits(u, connect, ParseUrlChar(StateOf(u, connect), ch), ch)
  {
    hide IsUrlChar, IsAlpha, IsUserinfoChar, ServerText;
    UrlSlash();
  }

  lemma UrlSlash()
    ensures IsUrlChar('/') && IsUrlChar('*') && !IsUrlChar('#') && !IsUrlChar('?')
    ensures !IsUserinfoChar('/') && !IsUserinfoChar('?') && !IsUserinfoChar('@')
  {
  }

  lemma Printable(ch: octet)
    ensures IsUrlChar(ch) || IsAlpha(ch) || IsServerChar(ch) ==>
              ch != ' ' && ch != CR && ch != LF && ch != '\t' && ch as int != 12
    ensures IsServerChar(ch) ==> ch != '/' && ch != '?'
    ensures IsAlpha(ch) ==> ch != '/' && ch != '*' && ch != ':'
  {
  }

  lemma FitsSteps(u: Sections, connect: bool, s: State, ch: octet)
    requires Valid(u, connect) && Fits(u, connect, s, ch)
    ensures ParseUrlChar(StateOf(u, connect), ch) == s
  {
    hide ServerText, IsUrlChar, IsAlpha, IsUserinfoChar;
    UrlSlash();
    Printable(ch);
  }

  lemma AppendState(u: Sections, connect: bool, s: State, ch: octet)
    requires Valid(u, connect) && Fits(u, connect, s, ch)
    ensures StateOf(Append(u, s, ch), connect) == s
  {
    hide IsUrlChar, IsAlpha, IsUserinfoChar;
  }

  lemma AppendValid(u: Sections, connect: bool, s: State, ch: octet)
    requires Valid(u, connect) && Fits(u, connect, s, ch)
    ensures Valid(Append(u, s, ch), connect)
  {
    hide IsUrlChar, IsAlpha, IsUserinfoChar;
    UrlSlash();
  }

  lemma AppendToHost(u: Sections, connect: bool, s: State, ch: octet)
    requires Valid(u, connect) && Fits(u, connect, s, ch) && NoPath(u) && NoPath(Append(u, s, ch))
    ensures var v := Append(u, s, ch);
            v.slashes <= 3 && ToHost(v) == ToHost(u) + [ch]
  {
    hide IsUrlChar, IsAlpha, IsUserinfoChar, ServerText;
  }

  lemma AppendToQuery(u: Sections, connect: bool, s: State, ch: octet)
    requires Valid(u, connect) && Fits(u, connect, s, ch) && NoFragment(u) && NoFragment(Append(u, s, ch))
    ensures var v := Append(u, s, ch);
            v.slashes <= 3 && ToQuery(v) == ToQuery(u) + [ch]
  {
    hide IsUrlChar, IsAlpha, IsUserinfoChar, ServerText, ToHost;
    var v := Append(u, s, ch);
    if NoPath(u) && NoPath(v) {
      AppendToHost(u, connect, s, ch);
    } else {
      assert ToHost(v) == ToHost(u) by {
        SameToHost(u, v);
      }
    }
  }

  lemma SameToHost(u: Sections, v: Sections)
    requires u.slashes == v.slashes <= 3 && u.schema == v.schema && u.host == v.host
    ensures ToHost(u) == ToHost(v)
  {
  }

  lemma SameToQuery(u: Sections, v: Sections)
    requires u.slashes == v.slashes <= 3 && u.schema == v.schema && u.host == v.host && u.path == v.path
    requires u.qmark == v.qmark && u.query == v.query
    ensures ToQuery(u) == ToQuery(v)
  {
  }

  lemma AppendRender(u: Sections, connect: bool, s: State, ch: octet)
    requires Valid(u, connect) && Fits(u, connect, s, ch)
    ensures Append(u, s, ch).slashes <= 3 && Render(Append(u, s, ch)) == Render(u) + [ch]
  {
    hide IsUrlChar, IsAlpha, IsUserinfoChar, ServerText, ToQuery;
    var v := Append(u, s, ch);
    if NoFragment(u) && NoFragment(v) {
      AppendToQuery(u, connect, s, ch);
    } else {
      SameToQuery(u, v);
    }
  }

  // The text and its sections determine each other.

  /** The sections of a text, if it is the start of a URL. */
  function Read(t: text, connect: bool): Option<Sections> {
    if t == [] then Some(NOTHING)
    else
      var n := |t| - 1;
      var before := Read(t[..n], connect);
      if before.None? then None
      else
        var s := ParseUrlChar(StateOf(before.value, connect), t[n]);
        if s == Dead then None else Some(Append(before.value, s, t[n]))
  }

  /** The last character of the sections, and the sections without it. */
  function Shorter(u: Sections): Sections {
    if u.fragment != [] then u.(fragment := u.fragment[..|u.fragment| - 1])
    else if u.hashes > 0 then u.(hashes := u.hashes - 1)
    else if u.query != [] then u.(query := u.query[..|u.query| - 1])
    else if u.qmark then u.(qmark := false)
    else if u.path != [] then u.(path := u.path[..|u.path| - 1])
    else if u.host != [] then u.(host := u.host[..|u.host| - 1])
    else if u.slashes > 0 then u.(slashes := u.slashes - 1)
    else if u.schema != [] then u.(schema := u.schema[..|u.schema| - 1])
    else u
  }

  function LastChar(u: Sections): octet
    requires u.slashes <= 3
  {
    if u.fragment != [] then u.fragment[|u.fragment| - 1]
    else if u.hashes > 0 then '#'
    else if u.query != [] then u.query[|u.query| - 1]
    else if u.qmark then '?'
    else if u.path != [] then u.path[|u.path| - 1]
    else if u.host != [] then u.host[|u.host| - 1]
    else if u.slashes > 0 then DELIMITER[u.slashes - 1]
    else if u.schema != [] then u.schema[|u.schema| - 1]
    else 'a'
  }

  lemma ShorterFragment(u: Sections, connect: bool)
    requires Valid(u, connect) && (u.fragment != [] || u.hashes > 0)
    ensures var v, s, ch := Shorter(u), StateOf(u, connect), LastChar(u);
            Valid(v, connect) && Fits(v, connect, s, ch) && Append(v, s, ch) == u
  {
    hide IsUrlChar, IsAlpha, IsUserinfoChar, ServerText;
  }

  lemma ShorterQuery(u: Sections, connect: bool)
    requires Valid(u, connect) && NoFragment(u) && (u.query != [] || u.qmark)
    ensures var v, s, ch := Shorter(u), StateOf(u, connect), LastChar(u);
            Valid(v, connect) && Fits(v, connect, s, ch) && Append(v, s, ch) == u
  {
    hide IsUrlChar, IsAlpha, IsUserinfoChar, ServerText;
  }

  lemma ShorterPath(u: Sections, connect: bool)
    requires Valid(u, connect) && NoQuery(u) && u.path != []
    ensures var v, s, ch := Shorter(u), StateOf(u, connect), LastChar(u);
            Valid(v, connect) && Fits(v, connect, s, ch) && Append(v, s, ch) == u
  {
    hide IsUrlChar, IsAlpha, IsUserinfoChar, ServerText;
  }

  lemma ShorterHost(u: Sections, connect: bool)
    requires Valid(u, connect) && NoPath(u) && u.host != []
    ensures var v, s, ch := Shorter(u), StateOf(u, connect), LastChar(u);
            Valid(v, connect) && Fits(v, connect, s, ch) && Append(v, s, ch) == u
  {
    hide IsUrlChar, IsAlpha, IsUserinfoChar;
  }

  lemma ShorterSchema(u: Sections, connect: bool)
    requires Valid(u, connect) && NoHost(u) && u != NOTHING
    ensures var v, s, ch := Shorter(u), StateOf(u, connect), LastChar(u);
            Valid(v, connect) && Fits(v, connect, s, ch) && Append(v, s, ch) == u
  {
    hide IsUrlChar, IsAlpha, IsUserinfoChar;
  }

  lemma ShorterFits(u: Sections, connect: bool)
    requires Valid(u, connect) && u != NOTHING
    ensures var v, s, ch := Shorter(u), StateOf(u, connect), LastChar(u);
            Valid(v, connect) && Fits(v, connect, s, ch) && Append(v, s, ch) == u
  {
    hide Valid, Fits, Append, StateOf, Shorter, LastChar;
    if !NoFragment(u) {
      ShorterFragment(u, connect);
    } else if !NoQuery(u) {
      ShorterQuery(u, connect);
    } else if !NoPath(u) {
      ShorterPath(u, connect);
    } else if !NoHost(u) {
      ShorterHost(u, connect);
    } else {
      ShorterSchema(u, connect);
    }
  }

  lemma NothingRendered(u: Sections, connect: bool)
    requires Valid(u, connect)
    ensures Render(u) == [] <==> u == NOTHING
    ensures Valid(NOTHING, connect)
  {
    hide IsUrlChar, IsAlpha, IsUserinfoChar;
  }

  /** Reading finds the sections of a text exactly when it has valid ones, and then these: every URL is split in one
      way, into runs that follow one another in their order. */
  lemma {:induction false} ReadIff(t: text, connect: bool, u: Sections)
    ensures Read(t, connect) == Some(u) <==> Valid(u, connect) && Render(u) == t
    decreases |t|
  {
    hide Valid, Render, Append, Fits, StateOf, ParseUrlChar, Shorter, LastChar;
    if t == [] {
      NothingRenderedIff(u, connect);
    } else {
      var n := |t| - 1;
      assert t == t[..n] + [t[n]];
      if Read(t, connect) == Some(u) {
        var v := Read(t[..n], connect).value;
        ReadIff(t[..n], connect, v);
        StepFits(v, connect, t[n]);
        var s := ParseUrlChar(StateOf(v, connect), t[n]);
        AppendValid(v, connect, s, t[n]);
        AppendRender(v, connect, s, t[n]);
      }
      if ValidRender(u, connect, t) {
        NothingRendered(u, connect);
        ValidSlashes(u, connect);
        ShorterFits(u, connect);
        ValidSlashes(Shorter(u), connect);
        var v, s, ch := Shorter(u), StateOf(u, connect), LastChar(u);
        AppendRender(v, connect, s, ch);
        assert t[..n] == Render(v) && t[n] == ch;
        ReadIff(t[..n], connect, v);
        FitsSteps(v, connect, s, ch);
        FitsAlive(v, connect, s, ch);
      }
    }
  }

  lemma ValidSlashes(u: Sections, connect: bool)
    requires Valid(u, connect)
    ensures u.slashes <= 3
  {
  }

  predicate ValidRender(u: Sections, connect: bool, t: text) { Valid(u, connect) && Render(u) == t }

  lemma NothingRenderedIff(u: Sections, connect: bool)
    ensures u == NOTHING <==> ValidRender(u, connect, [])
  {
    hide IsUrlChar, IsAlpha, IsUserinfoChar;
  }

  lemma FitsAlive(u: Sections, connect: bool, s: State, ch: octet)
    requires Fits(u, connect, s, ch)
    ensures s != Dead
  {
  }
}
