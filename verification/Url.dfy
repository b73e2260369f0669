/** http_parser_parse_url: the fields of struct http_parser_url for a text of at most 65535 octets. */
module Url {
  import opened Wrappers
  import opened HttpTypes
  import opened HttpNumerals
  import opened HttpSwitch
  import opened UrlSections
  import opened UrlHost

  const MAX_LENGTH: nat := 0xFFFF

  function Nonempty(off: nat, t: text): Option<Span> { if t == [] then None else Some(Span(off, |t|)) }

  function Longer(x: Span): Span { Span(x.off, x.len + 1) }

  /** Where a section is in the text: the sections and their delimiters follow one another. */
  function SectionSpan(u: Sections, p: UrlPart): Option<Span> {
    var host := |u.schema| + u.slashes;
    var path := host + |u.host|;
    var query := path + |u.path| + if u.qmark then 1 else 0;
    match p
    case Schema => Nonempty(0, u.schema)
    case Host => Nonempty(host, u.host)
    case Path => Nonempty(path, u.path)
    case Query => Nonempty(query, u.query)
    case Fragment => Nonempty(query + |u.query| + u.hashes, u.fragment)
    case _ => None
  }

  ghost predicate Located(f: Fields, u: Sections) {
    forall p: UrlPart :: if p in f then SectionSpan(u, p) == Some(f[p]) else SectionSpan(u, p) == None
  }

  /** The section a state belongs to; delimiters belong to none. */
  function SectionOf(s: State): Option<UrlPart> {
    match s
    case ReqSchema => Some(Schema)
    case ReqServer => Some(Host)
    case ReqServerWithAt => Some(Host)
    case ReqPath => Some(Path)
    case ReqQueryString => Some(Query)
    case ReqFragment => Some(Fragment)
    case _ => None
  }

  /** The section that was added to last. */
  function LastPart(u: Sections): Option<UrlPart> {
    if u.fragment != [] then Some(Fragment)
    else if u.query != [] then Some(Query)
    else if u.path != [] then Some(Path)
    else if u.host != [] then Some(Host)
    else if u.schema != [] then Some(Schema)
    else None
  }

  /** One turn of the loop over the fields: `f` and `uf` before it, the state after it, and the index. */
  function MarkField(f: Fields, uf: Option<UrlPart>, s: State, p: nat): Fields {
    var part := SectionOf(s);
    if part.None? then f
    else if part == uf && part.value in f then f[part.value := Span(f[part.value].off, f[part.value].len + 1)]
    else f[part.value := Span(p, 1)]
  }

  lemma RenderLength(u: Sections)
    requires u.slashes <= 3
    ensures |Render(u)| == |u.schema| + u.slashes + |u.host| + |u.path| + (if u.qmark then 1 else 0) + |u.query|
                           + u.hashes + |u.fragment|
  {
  }

  /** Adding to one section leaves all others where they were. */
  lemma SpanKept(u: Sections, connect: bool, s: State, ch: octet, p: UrlPart)
    requires Fits(u, connect, s, ch) && SectionOf(s) != Some(p)
    ensures SectionSpan(Append(u, s, ch), p) == SectionSpan(u, p)
  {
    hide IsUrlChar, IsAlpha, IsUserinfoChar;
  }

  lemma SpanMade(u: Sections, connect: bool, s: State, ch: octet, p: UrlPart)
    requires u.slashes <= 3 && Fits(u, connect, s, ch) && SectionOf(s) == Some(p)
    ensures LastPart(u) == Some(p) <==> SectionSpan(u, p).Some?
    ensures SectionSpan(Append(u, s, ch), p) ==
            Some(if LastPart(u) == Some(p) then Longer(SectionSpan(u, p).value) else Span(|Render(u)|, 1))
  {
    hide IsUrlChar, IsAlpha, IsUserinfoChar, ServerText, Render;
    RenderLength(u);
  }

  lemma MarkAt(f: Fields, u: Sections, connect: bool, s: State, ch: octet, p: UrlPart)
    requires u.slashes <= 3 && Fits(u, connect, s, ch) && Located(f, u)
    ensures var g, v := MarkField(f, LastPart(u), s, |Render(u)|), Append(u, s, ch);
            if p in g then SectionSpan(v, p) == Some(g[p]) else SectionSpan(v, p) == None
  {
    hide Fits, Append, SectionSpan, Render, LastPart;
    assert if p in f then SectionSpan(u, p) == Some(f[p]) else SectionSpan(u, p) == None;
    if SectionOf(s) == Some(p) {
      SpanMade(u, connect, s, ch, p);
    } else {
      SpanKept(u, connect, s, ch, p);
    }
  }

  lemma AppendLast(u: Sections, connect: bool, s: State, ch: octet)
    requires Fits(u, connect, s, ch)
    ensures LastPart(Append(u, s, ch)) == if SectionOf(s).Some? then SectionOf(s) else LastPart(u)
  {
    hide IsUrlChar, IsAlpha, IsUserinfoChar, ServerText;
  }

  lemma MarkLocated(f: Fields, u: Sections, connect: bool, s: State, ch: octet)
    requires u.slashes <= 3 && Fits(u, connect, s, ch) && Located(f, u)
    ensures Located(MarkField(f, LastPart(u), s, |Render(u)|), Append(u, s, ch))
  {
    hide Render, Fits, Append, MarkField;
    forall p: UrlPart
      ensures var g, v := MarkField(f, LastPart(u), s, |Render(u)|), Append(u, s, ch);
              if p in g then SectionSpan(v, p) == Some(g[p]) else SectionSpan(v, p) == None
    {
      MarkAt(f, u, connect, s, ch, p);
    }
  }

  lemma AtFound(u: Sections, connect: bool, s: State, ch: octet)
    requires Fits(u, connect, s, ch)
    ensures '@' in Append(u, s, ch).host <==> '@' in u.host || s == ReqServerWithAt
  {
    hide IsUrlChar, IsAlpha, IsUserinfoChar, ServerText;
  }

  // The second pass.

  function ServerSpan(base: nat, v: Server, p: UrlPart): Option<Span> {
    match p
    case UserInfo => Nonempty(base, v.userinfo)
    case Host => if v.host == [] then Some(Span(base, 0)) else Some(Span(base + |ToName(v)|, |Name(v)|))
    case Port =>
      Nonempty(base + |ToName(v)| + |Name(v)| + (if v.brackets == 2 then 1 else 0) + (if v.colon then 1 else 0), v.port)
    case _ => None
  }

  predicate ServerPart(p: UrlPart) { p == UserInfo || p == Host || p == Port }

  ghost predicate ServerLocated(f: Fields, base: nat, v: Server) {
    forall p: UrlPart :: ServerPart(p) ==>
      if p in f then ServerSpan(base, v, p) == Some(f[p]) else ServerSpan(base, v, p) == None
  }

  /** One turn of the loop of http_parse_host, from state s to state n at index p. */
  function MarkServer(f: Fields, s: HostState, n: HostState, p: nat): Fields
    requires Host in f && (s == InPort ==> Port in f) && (s == InUserinfo ==> UserInfo in f)
  {
    match n
    case InHost => f[Host := Span(if s != InHost then p else f[Host].off, f[Host].len + 1)]
    case InV6 => f[Host := Span(if s != InV6 then p else f[Host].off, f[Host].len + 1)]
    case V6ZoneStart => f[Host := Longer(f[Host])]
    case InV6Zone => f[Host := Longer(f[Host])]
    case InPort => f[Port := Longer(if s != InPort then Span(p, 0) else f[Port])]
    case InUserinfo => f[UserInfo := Longer(if s != InUserinfo then Span(p, 0) else f[UserInfo])]
    case _ => f
  }

  lemma ServerMarks(f: Fields, base: nat, v: Server, foundAt: bool)
    requires ServerLocated(f, base, v)
    ensures Host in f && (ServerState(v, foundAt) == InPort ==> Port in f)
    ensures ValidServer(v, foundAt) && ServerState(v, foundAt) == InUserinfo ==> UserInfo in f
  {
    hide ToName, Name, IsHostChar, IsV6Char, IsZoneChar, IsNum, IsUserinfoChar;
    assert ServerPart(Host) && ServerPart(Port) && ServerPart(UserInfo);
  }

  lemma ServerLength(v: Server)
    ensures |RenderServer(v)| ==
            |ToName(v)| + |Name(v)| + (if v.brackets == 2 then 1 else 0) + (if v.colon then 1 else 0) + |v.port|
    ensures |Name(v)| == |v.host| + (if v.percent then 1 else 0) + |v.zone|
    ensures |ToName(v)| == |v.userinfo| + (if v.at then 1 else 0) + (if v.brackets >= 1 then 1 else 0)
  {
  }

  lemma MarkServerAt(f: Fields, base: nat, v: Server, foundAt: bool, n: HostState, ch: octet, p: UrlPart)
    requires ValidServer(v, foundAt) && FitsServer(v, foundAt, n, ch) && ServerLocated(f, base, v) && ServerPart(p)
    requires Host in f && (ServerState(v, foundAt) == InPort ==> Port in f)
    requires ServerState(v, foundAt) == InUserinfo ==> UserInfo in f
    ensures var g, w := MarkServer(f, ServerState(v, foundAt), n, base + |RenderServer(v)|), AppendServer(v, n, ch);
            if p in g then ServerSpan(base, w, p) == Some(g[p]) else ServerSpan(base, w, p) == None
  {
    hide ToName, Name, RenderServer, IsHostChar, IsV6Char, IsZoneChar, IsNum, IsUserinfoChar;
    ServerLength(v);
    ServerLength(AppendServer(v, n, ch));
    assert if p in f then ServerSpan(base, v, p) == Some(f[p]) else ServerSpan(base, v, p) == None;
  }

  /** The sections may end here: a port, a bracket or a name is complete. */
  predicate Complete(v: Server) {
    v.port != [] || (!v.colon && (v.brackets == 2 || (v.brackets == 0 && v.host != [])))
  }

  lemma CompleteIs(v: Server, foundAt: bool)
    requires ValidServer(v, foundAt)
    ensures var s := ServerState(v, foundAt);
            Complete(v) <==> s == InHost || s == V6End || s == InPort
  {
    hide IsHostChar, IsV6Char, IsZoneChar, IsNum, IsUserinfoChar;
  }

  // The port.

  lemma DecimalNext(t: text, k: nat)
    requires k < |t| && Decimal(t)
    ensures DecimalValue(t[..k + 1]) == 10 * DecimalValue(t[..k]) + Digit(t[k])
  {
    assert t[..k + 1][..k] == t[..k];
  }

  /** The loop that converts the port, and stops above 65535. */
  method ParsePort(digits: text) returns (r: Option<nat>)
    requires Decimal(digits)
    ensures r == if DecimalValue(digits) <= MAX_LENGTH then Some(DecimalValue(digits)) else None
  {
    hide IsNum;
    var v := 0;
    assert digits[..0] == [];
    for k := 0 to |digits|
      invariant v == DecimalValue(digits[..k]) && v <= MAX_LENGTH
    {
      DecimalNext(digits, k);
      DecimalMonotonic(digits, k + 1);
      v := v * 10 + Digit(digits[k]);
      if v > MAX_LENGTH {
        return None;
      }
    }
    assert digits[..|digits|] == digits;
    return Some(v);
  }

  // The whole.

  /** What http_parser_parse_url accepts: sections `u` and, in the server section, parts `v`. */
  ghost predicate Accepted(buf: text, connect: bool, u: Sections, v: Server) {
    && buf != [] && Valid(u, connect) && Render(u) == buf
    && (u.schema != [] ==> u.host != [])
    && (if u.host == [] then v == NO_SERVER
        else ValidServer(v, '@' in u.host) && RenderServer(v) == u.host && Complete(v))
    && (connect ==> u.path == u.query == u.fragment == v.userinfo == [] && v.port != [])
    && (v.port != [] ==> PortFits(v.port))
  }

  predicate PortFits(t: text) { Decimal(t) && DecimalValue(t) <= MAX_LENGTH }

  /** Where each field of an accepted text is; the host of the result is the name in the server section. */
  function FieldSpan(u: Sections, v: Server, p: UrlPart): Option<Span> {
    if u.host != [] && ServerPart(p) then ServerSpan(|u.schema| + u.slashes, v, p)
    else SectionSpan(u, p)
  }

  /** The order of the fields in a text. */
  function Rank(p: UrlPart): nat {
    match p
    case Schema => 0 case UserInfo => 1 case Host => 2 case Port => 3 case Path => 4 case Query => 5 case Fragment => 6
  }

  /** The text of a field. */
  function PartText(u: Sections, v: Server, p: UrlPart): text {
    match p
    case Schema => u.schema case UserInfo => v.userinfo case Host => Name(v) case Port => v.port
    case Path => u.path case Query => u.query case Fragment => u.fragment
  }

  /** The fields are runs of the text, in their order and with nothing shared. */
  predicate InOrder(f: Fields, n: nat) {
    && (forall p <- f :: f[p].off + f[p].len <= n)
    && (forall p <- f, q <- f :: Rank(p) < Rank(q) ==> f[p].off + f[p].len <= f[q].off)
  }

  /** Each field is the run of the text of its part. */
  predicate Texts(f: Fields, buf: text, u: Sections, v: Server) {
    forall p <- f :: f[p].off + f[p].len <= |buf| && buf[f[p].off..f[p].off + f[p].len] == PartText(u, v, p)
  }

  lemma CompleteHost(v: Server, foundAt: bool)
    requires ValidServer(v, foundAt) && Complete(v)
    ensures v.host != []
  {
    hide IsHostChar, IsV6Char, IsZoneChar, IsNum, IsUserinfoChar;
  }

  lemma AcceptedShape(buf: text, connect: bool, u: Sections, v: Server)
    requires Accepted(buf, connect, u, v)
    ensures u.slashes <= 3 && Render(u) == buf && (u.host != [] ==> RenderServer(v) == u.host && v.host != [])
    ensures u.host == [] ==> v == NO_SERVER
  {
    hide Valid, Render, ValidServer, RenderServer, Complete;
    ValidSlashes(u, connect);
    if u.host != [] {
      CompleteHost(v, '@' in u.host);
    }
  }

  lemma FieldsApart(buf: text, connect: bool, u: Sections, v: Server, p: UrlPart, q: UrlPart)
    requires Accepted(buf, connect, u, v) && FieldSpan(u, v, p).Some?
    ensures FieldSpan(u, v, p).value.off + FieldSpan(u, v, p).value.len <= |buf|
    ensures FieldSpan(u, v, q).Some? && Rank(p) < Rank(q) ==>
              FieldSpan(u, v, p).value.off + FieldSpan(u, v, p).value.len <= FieldSpan(u, v, q).value.off
  {
    hide Render, RenderServer, ToName, Name, Accepted;
    AcceptedShape(buf, connect, u, v);
    RenderLength(u);
    ServerLength(v);
  }

  lemma Slice(whole: text, pre: text, part: text, post: text)
    requires whole == pre + part + post
    ensures |pre| + |part| <= |whole| && whole[|pre|..|pre| + |part|] == part
  {
  }

  lemma SliceOfSlice(t: text, base: nat, whole: text, off: nat, part: text)
    requires base + |whole| <= |t| && t[base..base + |whole|] == whole
    requires off + |part| <= |whole| && whole[off..off + |part|] == part
    ensures t[base + off..base + off + |part|] == part
  {
    forall k | 0 <= k < |part|
      ensures t[base + off + k] == part[k]
    {
      assert t[base..base + |whole|][off + k] == whole[off..off + |part|][k];
    }
  }

  lemma SchemaText(u: Sections)
    requires u.slashes <= 3
    ensures |u.schema| <= |Render(u)| && Render(u)[..|u.schema|] == u.schema
  {
    assert ToHost(u)[..|u.schema|] == u.schema;
    assert Render(u)[..|ToHost(u)|] == ToHost(u);
  }

  lemma PathText(u: Sections)
    requires u.slashes <= 3
    ensures var n := |ToHost(u)|;
            n + |u.path| <= |Render(u)| && Render(u)[n..n + |u.path|] == u.path
  {
    hide ToHost;
    var q: text := if u.qmark then ['?'] else [];
    Slice(ToQuery(u), ToHost(u), u.path, q + u.query);
    assert Render(u)[..|ToQuery(u)|] == ToQuery(u);
  }

  lemma QueryText(u: Sections)
    requires u.slashes <= 3
    ensures var n := |ToQuery(u)| - |u.query|;
            0 <= n && n + |u.query| <= |Render(u)| && Render(u)[n..n + |u.query|] == u.query
  {
    hide ToHost;
    assert Render(u)[..|ToQuery(u)|] == ToQuery(u);
  }

  lemma FragmentText(u: Sections)
    requires u.slashes <= 3
    ensures var n := |Render(u)| - |u.fragment|;
            0 <= n && Render(u)[n..n + |u.fragment|] == u.fragment
  {
    hide ToQuery, Hashes;
  }

  lemma SectionText(u: Sections, p: UrlPart)
    requires u.slashes <= 3 && !ServerPart(p) && SectionSpan(u, p).Some?
    ensures var a := SectionSpan(u, p).value;
            a.off + a.len <= |Render(u)| && Render(u)[a.off..a.off + a.len] == PartText(u, NO_SERVER, p)
  {
    SectionLengths(u);
    hide Render, ToHost, ToQuery, Hashes;
    match p
    case Schema => SchemaText(u);
    case Path => PathText(u);
    case Query => QueryText(u);
    case Fragment => FragmentText(u);
    case _ =>
  }

  lemma SectionLengths(u: Sections)
    requires u.slashes <= 3
    ensures |ToHost(u)| == |u.schema| + u.slashes + |u.host|
    ensures |ToQuery(u)| == |ToHost(u)| + |u.path| + (if u.qmark then 1 else 0) + |u.query|
    ensures |Render(u)| == |ToQuery(u)| + u.hashes + |u.fragment|
  {
  }

  lemma UserInfoText(v: Server)
    ensures |v.userinfo| <= |RenderServer(v)| && RenderServer(v)[..|v.userinfo|] == v.userinfo
  {
    hide Name;
    assert ToName(v)[..|v.userinfo|] == v.userinfo;
    assert RenderServer(v)[..|ToName(v)|] == ToName(v);
  }

  lemma NameText(v: Server)
    ensures var n := |ToName(v)|;
            n + |Name(v)| <= |RenderServer(v)| && RenderServer(v)[n..n + |Name(v)|] == Name(v)
  {
    hide Name, ToName;
  }

  lemma PortPart(v: Server)
    ensures var n := |RenderServer(v)| - |v.port|;
            0 <= n && RenderServer(v)[n..n + |v.port|] == v.port
  {
    hide Name, ToName;
  }

  lemma ServerPartText(v: Server, p: UrlPart)
    requires v.host != [] && ServerPart(p) && ServerSpan(0, v, p).Some?
    ensures var a := ServerSpan(0, v, p).value;
            && a.off + a.len <= |RenderServer(v)| && a.len == |PartText(NOTHING, v, p)|
            && RenderServer(v)[a.off..a.off + a.len] == PartText(NOTHING, v, p)
  {
    hide Name, ToName, RenderServer;
    ServerLength(v);
    match p
    case UserInfo => UserInfoText(v);
    case Host => NameText(v);
    case Port => PortPart(v);
    case _ =>
  }

  lemma ServerShift(base: nat, v: Server, p: UrlPart)
    ensures ServerSpan(base, v, p).Some? <==> ServerSpan(0, v, p).Some?
    ensures ServerSpan(base, v, p).Some? ==>
              ServerSpan(base, v, p).value == Span(base + ServerSpan(0, v, p).value.off, ServerSpan(0, v, p).value.len)
  {
    hide ToName, Name;
  }

  lemma ServerFieldText(buf: text, u: Sections, v: Server, p: UrlPart)
    requires u.slashes <= 3 && Render(u) == buf && RenderServer(v) == u.host && v.host != [] && ServerPart(p)
    requires ServerSpan(|u.schema| + u.slashes, v, p).Some?
    ensures var a := ServerSpan(|u.schema| + u.slashes, v, p).value;
            a.off + a.len <= |buf| && buf[a.off..a.off + a.len] == PartText(u, v, p)
  {
    hide Render, RenderServer, ToName, Name, ServerSpan;
    var base := |u.schema| + u.slashes;
    ServerShift(base, v, p);
    ServerPartText(v, p);
    HostText(u);
    SliceOfSlice(buf, base, u.host, ServerSpan(0, v, p).value.off, PartText(NOTHING, v, p));
  }

  /** Every field of an accepted text is the run of its part. */
  lemma FieldText(buf: text, connect: bool, u: Sections, v: Server, p: UrlPart)
    requires Accepted(buf, connect, u, v) && FieldSpan(u, v, p).Some?
    ensures var a := FieldSpan(u, v, p).value;
            a.off + a.len <= |buf| && buf[a.off..a.off + a.len] == PartText(u, v, p)
  {
    hide Render, RenderServer, ToName, Name, Accepted, SectionSpan, ServerSpan;
    AcceptedShape(buf, connect, u, v);
    if u.host != [] && ServerPart(p) {
      ServerFieldText(buf, u, v, p);
    } else {
      NoServerSection(u, p);
      SectionText(u, p);
    }
  }

  lemma NoServerSection(u: Sections, p: UrlPart)
    requires SectionSpan(u, p).Some? && (u.host == [] || !ServerPart(p))
    ensures !ServerPart(p)
  {
  }

  lemma FieldsInOrder(buf: text, connect: bool, u: Sections, v: Server, f: Fields)
    requires Accepted(buf, connect, u, v) && forall p <- f :: FieldSpan(u, v, p) == Some(f[p])
    ensures InOrder(f, |buf|) && Texts(f, buf, u, v)
  {
    hide Accepted, FieldSpan, Rank, PartText;
    forall p <- f
      ensures f[p].off + f[p].len <= |buf| && buf[f[p].off..f[p].off + f[p].len] == PartText(u, v, p)
    {
      FieldText(buf, connect, u, v, p);
    }
    forall p <- f, q <- f
      ensures Rank(p) < Rank(q) ==> f[p].off + f[p].len <= f[q].off
    {
      FieldsApart(buf, connect, u, v, p, q);
    }
  }

  /** struct http_parser_url. */
  class Url {
    var fields: Fields
    var port: nat

    constructor ()
      ensures fields == map[] && port == 0
    {
      fields, port := map[], 0;
    }

    /** The first loop of http_parser_parse_url. */
    method FindSections(buf: text, connect: bool) returns (ok: bool, foundAt: bool, ghost u: Sections)
      requires |buf| <= MAX_LENGTH
      modifies this`fields
      ensures ok <==> Read(buf, connect).Some?
      ensures ok ==> Read(buf, connect) == Some(u) && Located(fields, u) && (foundAt <==> '@' in u.host)
    {
      hide ParseUrlChar, Valid, Render, Fits, Append, Located, MarkField, LastPart, StateOf, Read, SectionOf;
      fields, foundAt, u := map[], false, NOTHING;
      var s := if connect then ReqServerStart else ReqSpacesBeforeUrl;
      var uf: Option<UrlPart> := None;
      NothingLocated(connect);
      assert buf[..0] == [];
      for p := 0 to |buf|
        invariant Read(buf[..p], connect) == Some(u) && Valid(u, connect) && u.slashes <= 3 && Render(u) == buf[..p]
        invariant s == StateOf(u, connect) && uf == LastPart(u) && Located(fields, u) && (foundAt <==> '@' in u.host)
      {
        ReadNext(buf, p, connect);
        var n := ParseUrlChar(s, buf[p]);
        if n == Dead {
          ReadDead(buf, p + 1, connect);
          return false, foundAt, u;
        }
        StepFits(u, connect, buf[p]);
        AppendState(u, connect, n, buf[p]);
        AppendValid(u, connect, n, buf[p]);
        ValidSlashes(u, connect);
        AppendRender(u, connect, n, buf[p]);
        AppendLast(u, connect, n, buf[p]);
        AtFound(u, connect, n, buf[p]);
        MarkLocated(fields, u, connect, n, buf[p]);
        assert buf[..p + 1] == buf[..p] + [buf[p]];
        s := n;
        if s == ReqServerWithAt {
          foundAt := true;
        }
        fields := MarkField(fields, uf, s, p);
        if SectionOf(s).Some? {
          uf := SectionOf(s);
        }
        u := Append(u, n, buf[p]);
      }
      assert buf[..|buf|] == buf;
      return true, foundAt, u;
    }

    /** http_parse_host: it splits the host field, which is the server section, further. */
    method FindServer(buf: text, foundAt: bool, ghost host: text) returns (ok: bool, ghost v: Server)
      requires Host in fields && Port !in fields && UserInfo !in fields
      requires fields[Host].off + fields[Host].len <= |buf|
      requires buf[fields[Host].off..fields[Host].off + fields[Host].len] == host
      modifies this`fields
      ensures ok <==> ReadServer(host, foundAt).Some? && Complete(ReadServer(host, foundAt).value)
      ensures ok ==> ReadServer(host, foundAt) == Some(v) && ServerLocated(fields, old(fields)[Host].off, v)
      ensures forall p :: !ServerPart(p) ==>
                (p in fields <==> p in old(fields)) && (p in fields ==> fields[p] == old(fields)[p])
    {
      hide ParseHostChar, ValidServer, RenderServer, FitsServer, AppendServer, ServerLocated, MarkServer, ServerState,
           ReadServer, Complete;
      ghost var before := fields;
      var base, end := fields[Host].off, fields[Host].off + fields[Host].len;
      fields := fields[Host := Span(base, 0)];
      v := NO_SERVER;
      var s := if foundAt then UserinfoStart else HostStart;
      NoServerLocated(fields, base, foundAt);
      assert host[..0] == [];
      for p := base to end
        invariant ReadServer(host[..p - base], foundAt) == Some(v) && ValidServer(v, foundAt)
        invariant RenderServer(v) == host[..p - base] && s == ServerState(v, foundAt) && ServerLocated(fields, base, v)
        invariant forall p :: !ServerPart(p) ==>
                    (p in fields <==> p in before) && (p in fields ==> fields[p] == before[p])
      {
        ghost var k := p - base;
        assert buf[p] == host[k];
        ReadServerNext(host, k, foundAt);
        var n := ParseHostChar(s, buf[p]);
        if n == HostDead {
          ReadServerDead(host, k + 1, foundAt);
          return false, v;
        }
        StepFitsServer(v, foundAt, buf[p]);
        AppendServerState(v, foundAt, n, buf[p]);
        AppendServerValid(v, foundAt, n, buf[p]);
        AppendServerRender(v, foundAt, n, buf[p]);
        ServerMarks(fields, base, v, foundAt);
        MarkServerLocated(fields, base, v, foundAt, n, buf[p]);
        assert host[..k + 1] == host[..k] + [buf[p]];
        MarkServerOnly(fields, s, n, p);
        fields := MarkServer(fields, s, n, p);
        v := AppendServer(v, n, buf[p]);
        s := n;
      }
      assert host[..end - base] == host;
      CompleteIs(v, foundAt);
      return s == InHost || s == V6End || s == InPort, v;
    }

    /** http_parser_parse_url: it succeeds exactly on texts made of valid sections, and then finds them all. */
    method ParseUrl(buf: text, connect: bool) returns (ok: bool, ghost u: Sections, ghost v: Server)
      requires |buf| <= MAX_LENGTH
      modifies this
      ensures ok ==> Accepted(buf, connect, u, v)
      ensures ok ==> forall p: UrlPart ::
                       if p in fields then FieldSpan(u, v, p) == Some(fields[p]) else FieldSpan(u, v, p) == None
      ensures ok ==> InOrder(fields, |buf|) && Texts(fields, buf, u, v)
      ensures ok ==> port == if v.port == [] then 0 else DecimalValue(v.port)
      ensures !ok ==> forall u', v' :: !Accepted(buf, connect, u', v')
    {
      hide Valid, Render, ValidServer, RenderServer, Complete, Located, ServerLocated, Read, ReadServer, DecimalValue,
        IsNum, InOrder, Texts, FieldSpan;
      u, v := NOTHING, NO_SERVER;
      port := 0;
      if |buf| == 0 {
        return false, u, v;
      }
      var found, foundAt, sections := FindSections(buf, connect);
      u := sections;
      OnlySections(buf, connect);
      if !found {
        return false, u, v;
      }
      SectionsFound(buf, connect, u, fields);
      ghost var before := fields;
      if Schema in fields && Host !in fields {
        return false, u, v;
      }
      if Host in fields {
        OnlyServer(u.host, foundAt);
        var complete, server := FindServer(buf, foundAt, u.host);
        v := server;
        if !complete {
          return false, u, v;
        }
      }
      FieldsFound(buf, connect, u, v, fields, before);
      if connect && fields.Keys != {Host, Port} {
        return false, u, v;
      }
      if Port in fields {
        var off, len := fields[Port].off, fields[Port].len;
        assert off + len <= |buf|;
        var digits := buf[off..off + len];
        assert digits == v.port;
        var value := ParsePort(digits);
        if value.None? {
          return false, u, v;
        }
        port := value.value;
      }
      FieldsInOrder(buf, connect, u, v, fields);
      return true, u, v;
    }
  }

  lemma NothingLocated(connect: bool)
    ensures Located(map[], NOTHING) && Valid(NOTHING, connect) && Render(NOTHING) == []
    ensures StateOf(NOTHING, connect) == if connect then ReqServerStart else ReqSpacesBeforeUrl
    ensures Read([], connect) == Some(NOTHING) && LastPart(NOTHING) == None
  {
  }

  lemma ReadNext(buf: text, p: nat, connect: bool)
    requires p < |buf| && Read(buf[..p], connect).Some?
    ensures var u := Read(buf[..p], connect).value;
            var s := ParseUrlChar(StateOf(u, connect), buf[p]);
            Read(buf[..p + 1], connect) == if s == Dead then None else Some(Append(u, s, buf[p]))
  {
    hide ParseUrlChar, StateOf, Append;
    assert buf[..p + 1][..p] == buf[..p];
  }

  lemma {:induction false} ReadDead(buf: text, p: nat, connect: bool)
    requires p <= |buf| && Read(buf[..p], connect).None?
    ensures Read(buf, connect).None?
    decreases |buf|
  {
    hide ParseUrlChar, StateOf, Append;
    if p < |buf| {
      assert buf[..|buf| - 1][..p] == buf[..p];
      ReadDead(buf[..|buf| - 1], p, connect);
    } else {
      assert buf[..p] == buf;
    }
  }

  lemma NoServerLocated(f: Fields, base: nat, foundAt: bool)
    requires Host in f && f[Host] == Span(base, 0) && Port !in f && UserInfo !in f
    ensures ServerLocated(f, base, NO_SERVER) && ValidServer(NO_SERVER, foundAt) && RenderServer(NO_SERVER) == []
    ensures ServerState(NO_SERVER, foundAt) == if foundAt then UserinfoStart else HostStart
    ensures ReadServer([], foundAt) == Some(NO_SERVER)
  {
  }

  lemma ReadServerNext(t: text, p: nat, foundAt: bool)
    requires p < |t| && ReadServer(t[..p], foundAt).Some?
    ensures var v := ReadServer(t[..p], foundAt).value;
            var s := ParseHostChar(ServerState(v, foundAt), t[p]);
            ReadServer(t[..p + 1], foundAt) == if s == HostDead then None else Some(AppendServer(v, s, t[p]))
  {
    hide ParseHostChar, ServerState, AppendServer;
    assert t[..p + 1][..p] == t[..p];
  }

  lemma {:induction false} ReadServerDead(t: text, p: nat, foundAt: bool)
    requires p <= |t| && ReadServer(t[..p], foundAt).None?
    ensures ReadServer(t, foundAt).None?
    decreases |t|
  {
    hide ParseHostChar, ServerState, AppendServer;
    if p < |t| {
      assert t[..|t| - 1][..p] == t[..p];
      ReadServerDead(t[..|t| - 1], p, foundAt);
    } else {
      assert t[..p] == t;
    }
  }

  lemma MarkServerLocated(f: Fields, base: nat, v: Server, foundAt: bool, n: HostState, ch: octet)
    requires ValidServer(v, foundAt) && FitsServer(v, foundAt, n, ch) && ServerLocated(f, base, v)
    requires Host in f && (ServerState(v, foundAt) == InPort ==> Port in f)
    requires ServerState(v, foundAt) == InUserinfo ==> UserInfo in f
    ensures var g := MarkServer(f, ServerState(v, foundAt), n, base + |RenderServer(v)|);
            ServerLocated(g, base, AppendServer(v, n, ch))
  {
    hide MarkServer, ServerState, RenderServer, AppendServer, FitsServer, ValidServer;
    forall p: UrlPart | ServerPart(p)
      ensures var g, w := MarkServer(f, ServerState(v, foundAt), n, base + |RenderServer(v)|), AppendServer(v, n, ch);
              if p in g then ServerSpan(base, w, p) == Some(g[p]) else ServerSpan(base, w, p) == None
    {
      MarkServerAt(f, base, v, foundAt, n, ch, p);
    }
  }

  lemma MarkServerOnly(f: Fields, s: HostState, n: HostState, k: nat)
    requires Host in f && (s == InPort ==> Port in f) && (s == InUserinfo ==> UserInfo in f)
    ensures var g := MarkServer(f, s, n, k);
            forall p :: !ServerPart(p) ==> (p in g <==> p in f) && (p in g ==> g[p] == f[p])
  {
  }

  lemma OnlySections(buf: text, connect: bool)
    ensures forall u, v :: Accepted(buf, connect, u, v) ==> Read(buf, connect) == Some(u)
  {
    hide Valid, Render, ValidServer, RenderServer, Read;
    forall u, v | Accepted(buf, connect, u, v)
      ensures Read(buf, connect) == Some(u)
    {
      ReadIff(buf, connect, u);
    }
  }

  lemma OnlyServer(host: text, foundAt: bool)
    ensures forall v :: ValidServer(v, foundAt) && RenderServer(v) == host ==> ReadServer(host, foundAt) == Some(v)
    ensures ReadServer(host, foundAt).Some? ==>
              var v := ReadServer(host, foundAt).value;
              ValidServer(v, foundAt) && RenderServer(v) == host
  {
    hide ValidServer, RenderServer, ReadServer;
    forall v | ValidServer(v, foundAt) && RenderServer(v) == host
      ensures ReadServer(host, foundAt) == Some(v)
    {
      ReadServerIff(host, foundAt, v);
    }
    if ReadServer(host, foundAt).Some? {
      ReadServerIff(host, foundAt, ReadServer(host, foundAt).value);
    }
  }

  lemma HostText(u: Sections)
    requires u.slashes <= 3
    ensures var base := |u.schema| + u.slashes;
            base + |u.host| <= |Render(u)| && Render(u)[base..base + |u.host|] == u.host
  {
    var base := |u.schema| + u.slashes;
    assert ToHost(u)[base..] == u.host;
    assert Render(u)[..|ToHost(u)|] == ToHost(u);
  }

  lemma SectionsFound(buf: text, connect: bool, u: Sections, f: Fields)
    requires Read(buf, connect) == Some(u) && Located(f, u)
    ensures Valid(u, connect) && u.slashes <= 3 && Render(u) == buf
    ensures (Schema in f <==> u.schema != []) && (Host in f <==> u.host != []) && Port !in f && UserInfo !in f
    ensures Host in f ==> f[Host] == Span(|u.schema| + u.slashes, |u.host|) && f[Host].off + f[Host].len <= |buf|
    ensures Host in f ==> buf[f[Host].off..f[Host].off + f[Host].len] == u.host
  {
    hide Valid, Render, Read;
    ReadIff(buf, connect, u);
    ValidSlashes(u, connect);
    HostText(u);
    SectionAt(f, u, Schema);
    SectionAt(f, u, Host);
    SectionAt(f, u, Port);
    SectionAt(f, u, UserInfo);
  }

  lemma SectionAt(f: Fields, u: Sections, p: UrlPart)
    requires Located(f, u)
    ensures if p in f then SectionSpan(u, p) == Some(f[p]) else SectionSpan(u, p) == None
  {
    hide SectionSpan;
  }

  lemma ServerAt(f: Fields, base: nat, v: Server, p: UrlPart)
    requires ServerLocated(f, base, v) && ServerPart(p)
    ensures if p in f then ServerSpan(base, v, p) == Some(f[p]) else ServerSpan(base, v, p) == None
  {
    hide ServerSpan;
  }

  /** The port is the end of the server section. */
  lemma PortText(u: Sections, v: Server)
    requires u.slashes <= 3 && RenderServer(v) == u.host && v.port != []
    ensures var s := ServerSpan(|u.schema| + u.slashes, v, Port);
            s.Some? && s.value.off + s.value.len <= |Render(u)|
            && Render(u)[s.value.off..s.value.off + s.value.len] == v.port
  {
    hide Render, ToName, Name;
    HostText(u);
    ServerLength(v);
    var base, n := |u.schema| + u.slashes, |u.host| - |v.port|;
    assert u.host[n..] == v.port;
    assert Render(u)[base..base + |u.host|][n..] == v.port;
    hide RenderServer;
    assert Render(u)[base + n..base + |u.host|] == v.port;
  }

  predicate WithServer(u: Sections, v: Server, f: Fields, before: Fields) {
    && (forall p :: !ServerPart(p) ==> (p in f <==> p in before) && (p in f ==> f[p] == before[p]))
  }

  /** The fields of both passes together. */
  lemma FieldsFound(buf: text, connect: bool, u: Sections, v: Server, f: Fields, before: Fields)
    requires Valid(u, connect) && u.slashes <= 3 && Render(u) == buf && Located(before, u)
    requires if u.host == [] then f == before && v == NO_SERVER
             else
               && ValidServer(v, '@' in u.host) && RenderServer(v) == u.host
               && ServerLocated(f, |u.schema| + u.slashes, v) && WithServer(u, v, f, before)
    ensures forall p: UrlPart :: if p in f then FieldSpan(u, v, p) == Some(f[p]) else FieldSpan(u, v, p) == None
    ensures connect ==>
              (f.Keys == {Host, Port} <==> u.path == u.query == u.fragment == v.userinfo == [] && v.port != [])
    ensures Port in f <==> v.port != []
    ensures Port in f ==> f[Port].off + f[Port].len <= |buf| && buf[f[Port].off..f[Port].off + f[Port].len] == v.port
    ensures forall i :: 0 <= i < |v.port| ==> IsNum(v.port[i])
  {
    hide Render, RenderServer, ServerLocated, Located, SectionSpan, ServerSpan, Valid, ValidServer;
    forall p: UrlPart
      ensures if p in f then FieldSpan(u, v, p) == Some(f[p]) else FieldSpan(u, v, p) == None
    {
      SectionAt(before, u, p);
      if u.host != [] && ServerPart(p) {
        ServerAt(f, |u.schema| + u.slashes, v, p);
      }
    }
    FieldKeys(u, v, connect, f);
    PortOf(u, v, '@' in u.host);
    if v.port != [] {
      PortText(u, v);
      ServerAt(f, |u.schema| + u.slashes, v, Port);
    }
  }

  lemma PortOf(u: Sections, v: Server, foundAt: bool)
    requires if u.host == [] then v == NO_SERVER else ValidServer(v, foundAt)
    ensures forall i :: 0 <= i < |v.port| ==> IsNum(v.port[i])
    ensures v.port != [] ==> u.host != []
  {
    hide IsNum;
  }

  lemma FieldKeys(u: Sections, v: Server, connect: bool, f: Fields)
    requires Valid(u, connect) && (u.host == [] ==> v == NO_SERVER) && (u.host != [] ==> ValidServer(v, '@' in u.host))
    requires forall p: UrlPart :: if p in f then FieldSpan(u, v, p) == Some(f[p]) else FieldSpan(u, v, p) == None
    ensures Port in f <==> v.port != []
    ensures connect ==>
              (f.Keys == {Host, Port} <==> u.path == u.query == u.fragment == v.userinfo == [] && v.port != [])
  {
    hide ToName, Name, IsUrlChar, IsUserinfoChar, IsAlpha, IsNum, IsHostChar, IsV6Char, IsZoneChar, ServerText;
    forall p: UrlPart
      ensures p in f <==> FieldSpan(u, v, p).Some?
    {
    }
    assert f.Keys == {Host, Port} <==> forall p: UrlPart :: p in f <==> p == Host || p == Port;
    assert Schema in f <==> FieldSpan(u, v, Schema).Some?;
    assert Path in f <==> FieldSpan(u, v, Path).Some?;
    assert Query in f <==> FieldSpan(u, v, Query).Some?;
    assert Fragment in f <==> FieldSpan(u, v, Fragment).Some?;
    assert UserInfo in f <==> FieldSpan(u, v, UserInfo).Some?;
    assert Host in f <==> FieldSpan(u, v, Host).Some?;
    assert Port in f <==> FieldSpan(u, v, Port).Some?;
  }
}
