/** The second pass of http_parser_parse_url: user information, host and port in the server section. */
module UrlHost {
  import opened Wrappers
  import opened HttpTypes
  import opened UrlSections

  datatype HostState =
    | HostDead | UserinfoStart | InUserinfo | HostStart | V6Start | InHost | InV6 | V6End
    | V6ZoneStart | InV6Zone | PortStart | InPort

  predicate IsHex(c: octet) { IsNum(c) || 'a' <= c <= 'f' || 'A' <= c <= 'F' }

  predicate IsHostChar(c: octet) { IsAlphaNum(c) || c == '.' || c == '-' }

  predicate IsV6Char(c: octet) { IsHex(c) || c == ':' || c == '.' }

  predicate IsZoneChar(c: octet) { IsAlphaNum(c) || c == '%' || c == '.' || c == '-' || c == '_' || c == '~' }

  /** http_parse_host_char. */
  function ParseHostChar(s: HostState, ch: octet): HostState {
    match s
    case InUserinfo => UserinfoChar(ch)
    case UserinfoStart => UserinfoChar(ch)
    case HostStart => if ch == '[' then V6Start else if IsHostChar(ch) then InHost else HostDead
    case InHost => if IsHostChar(ch) then InHost else if ch == ':' then PortStart else HostDead
    case V6End => if ch == ':' then PortStart else HostDead
    case InV6 => if ch == ']' then V6End else if IsV6Char(ch) then InV6 else if ch == '%' then V6ZoneStart else HostDead
    case V6Start => if IsV6Char(ch) then InV6 else HostDead
    case InV6Zone => if ch == ']' then V6End else if IsZoneChar(ch) then InV6Zone else HostDead
    case V6ZoneStart => if IsZoneChar(ch) then InV6Zone else HostDead
    case InPort => if IsNum(ch) then InPort else HostDead
    case PortStart => if IsNum(ch) then InPort else HostDead
    case HostDead => HostDead
  }

  function UserinfoChar(ch: octet): HostState {
    if ch == '@' then HostStart else if IsUserinfoChar(ch) then InUserinfo else HostDead
  }

  /** What a server section is made of; `brackets` counts those around an address of version 6, which may have
      a zone after a percent sign. */
  datatype Server = Server(
    userinfo: text, at: bool, brackets: nat, host: text, percent: bool, zone: text, colon: bool, port: text)

  const NO_SERVER := Server([], false, 0, [], false, [], false, [])

  function One(b: bool, c: octet): text { if b then [c] else [] }

  function ToName(v: Server): text { v.userinfo + One(v.at, '@') + One(v.brackets >= 1, '[') }

  function Name(v: Server): text { v.host + One(v.percent, '%') + v.zone }

  function RenderServer(v: Server): text {
    ToName(v) + Name(v) + One(v.brackets == 2, ']') + One(v.colon, ':') + v.port
  }

  predicate NameStarted(v: Server, foundAt: bool) { v.at || !foundAt }

  predicate ValidServer(v: Server, foundAt: bool) {
    && v.brackets <= 2
    && (forall i :: 0 <= i < |v.userinfo| ==> IsUserinfoChar(v.userinfo[i]))
    && (v.userinfo != [] || v.at ==> foundAt)
    && (v.brackets > 0 || v.host != [] ==> NameStarted(v, foundAt))
    && (forall i :: 0 <= i < |v.host| ==> if v.brackets == 0 then IsHostChar(v.host[i]) else IsV6Char(v.host[i]))
    && (v.percent ==> v.brackets > 0 && v.host != [])
    && (v.zone != [] ==> v.percent)
    && (forall i :: 0 <= i < |v.zone| ==> IsZoneChar(v.zone[i]))
    && (v.brackets == 2 ==> v.host != [] && (v.percent ==> v.zone != []))
    && (v.colon ==> v.host != [] && v.brackets != 1)
    && (v.port != [] ==> v.colon)
    && (forall i :: 0 <= i < |v.port| ==> IsNum(v.port[i]))
  }

  function ServerState(v: Server, foundAt: bool): HostState {
    if v.port != [] then InPort
    else if v.colon then PortStart
    else if v.brackets == 2 then V6End
    else if v.zone != [] then InV6Zone
    else if v.percent then V6ZoneStart
    else if v.brackets == 1 then if v.host == [] then V6Start else InV6
    else if v.host != [] then InHost
    else if NameStarted(v, foundAt) then HostStart
    else if v.userinfo != [] then InUserinfo else UserinfoStart
  }

  function AppendServer(v: Server, s: HostState, ch: octet): Server {
    match s
    case InUserinfo => v.(userinfo := v.userinfo + [ch])
    case HostStart => v.(at := true)
    case V6Start => v.(brackets := 1)
    case InHost => v.(host := v.host + [ch])
    case InV6 => v.(host := v.host + [ch])
    case V6ZoneStart => v.(percent := true)
    case InV6Zone => v.(zone := v.zone + [ch])
    case V6End => v.(brackets := 2)
    case PortStart => v.(colon := true)
    case _ => v.(port := v.port + [ch])
  }

  predicate NoPort(v: Server) { !v.colon && v.port == [] }

  predicate NoZone(v: Server) { v.zone == [] && v.brackets <= 1 && NoPort(v) }

  predicate NoName(v: Server) { v.host == [] && !v.percent && NoZone(v) }

  predicate FitsServer(v: Server, foundAt: bool, s: HostState, ch: octet) {
    match s
    case InUserinfo => NoName(v) && v.brackets == 0 && !v.at && foundAt && IsUserinfoChar(ch)
    case HostStart => NoName(v) && v.brackets == 0 && !v.at && foundAt && ch == '@'
    case V6Start => NoName(v) && v.brackets == 0 && NameStarted(v, foundAt) && ch == '['
    case InHost => NoZone(v) && v.brackets == 0 && !v.percent && NameStarted(v, foundAt) && IsHostChar(ch)
    case InV6 => NoZone(v) && v.brackets == 1 && !v.percent && IsV6Char(ch)
    case V6ZoneStart => NoZone(v) && v.brackets == 1 && !v.percent && v.host != [] && ch == '%'
    case InV6Zone => NoPort(v) && v.brackets == 1 && v.percent && IsZoneChar(ch)
    case V6End => NoPort(v) && v.brackets == 1 && v.host != [] && (v.percent ==> v.zone != []) && ch == ']'
    case PortStart => NoPort(v) && v.brackets != 1 && v.host != [] && ch == ':'
    case InPort => v.colon && IsNum(ch)
    case _ => false
  }

  lemma StepFitsServer(v: Server, foundAt: bool, ch: octet)
    requires ValidServer(v, foundAt) && ParseHostChar(ServerState(v, foundAt), ch) != HostDead
    ensures FitsServer(v, foundAt, ParseHostChar(ServerState(v, foundAt), ch), ch)
  {
    hide IsHostChar, IsV6Char, IsZoneChar, IsNum, IsUserinfoChar;
  }

  lemma OtherChars(ch: octet)
    ensures !IsHostChar('[') && !IsHostChar(':') && !IsUserinfoChar('@')
    ensures !IsV6Char(']') && !IsV6Char('%') && !IsZoneChar(']')
  {
  }

  lemma FitsServerSteps(v: Server, foundAt: bool, s: HostState, ch: octet)
    requires ValidServer(v, foundAt) && FitsServer(v, foundAt, s, ch)
    ensures ParseHostChar(ServerState(v, foundAt), ch) == s && s != HostDead
  {
    hide IsHostChar, IsV6Char, IsZoneChar, IsNum, IsUserinfoChar;
    OtherChars(ch);
  }

  lemma AppendServerState(v: Server, foundAt: bool, s: HostState, ch: octet)
    requires ValidServer(v, foundAt) && FitsServer(v, foundAt, s, ch)
    ensures ServerState(AppendServer(v, s, ch), foundAt) == s
  {
    hide IsHostChar, IsV6Char, IsZoneChar, IsNum, IsUserinfoChar;
  }

  lemma AppendServerValid(v: Server, foundAt: bool, s: HostState, ch: octet)
    requires ValidServer(v, foundAt) && FitsServer(v, foundAt, s, ch)
    ensures ValidServer(AppendServer(v, s, ch), foundAt)
  {
    hide IsHostChar, IsV6Char, IsZoneChar, IsNum, IsUserinfoChar;
  }

  lemma AppendToName(v: Server, foundAt: bool, s: HostState, ch: octet)
    requires FitsServer(v, foundAt, s, ch) && (s == InUserinfo || s == HostStart || s == V6Start)
    ensures var w := AppendServer(v, s, ch);
            && ToName(w) == ToName(v) + [ch] && Name(w) == Name(v) == []
            && w.brackets != 2 && v.brackets != 2 && NoPort(v) && NoPort(w)
  {
    hide IsUserinfoChar;
  }

  lemma AppendName(v: Server, foundAt: bool, s: HostState, ch: octet)
    requires ValidServer(v, foundAt) && FitsServer(v, foundAt, s, ch)
    requires s == InHost || s == InV6 || s == V6ZoneStart || s == InV6Zone
    ensures var w := AppendServer(v, s, ch);
            && ToName(w) == ToName(v) && Name(w) == Name(v) + [ch]
            && w.brackets != 2 && v.brackets != 2 && NoPort(v) && NoPort(w)
  {
    hide IsHostChar, IsV6Char, IsZoneChar, IsNum, IsUserinfoChar, ToName, Name;
    var w := AppendServer(v, s, ch);
    SameToName(v, w);
    MoreName(v, w, ch);
  }

  lemma SameToName(v: Server, w: Server)
    requires v.userinfo == w.userinfo && v.at == w.at && (v.brackets >= 1) == (w.brackets >= 1)
    ensures ToName(v) == ToName(w)
  {
  }

  lemma MoreName(v: Server, w: Server, ch: octet)
    requires
      || (w.host == v.host + [ch] && !v.percent && !w.percent && v.zone == w.zone == [])
      || (w.host == v.host && !v.percent && w.percent && ch == '%' && v.zone == w.zone == [])
      || (w.host == v.host && v.percent && w.percent && w.zone == v.zone + [ch])
    ensures Name(w) == Name(v) + [ch]
  {
  }

  lemma AppendServerRender(v: Server, foundAt: bool, s: HostState, ch: octet)
    requires ValidServer(v, foundAt) && FitsServer(v, foundAt, s, ch)
    ensures RenderServer(AppendServer(v, s, ch)) == RenderServer(v) + [ch]
  {
    hide IsHostChar, IsV6Char, IsZoneChar, IsNum, IsUserinfoChar, ToName, Name;
    var w := AppendServer(v, s, ch);
    if s == InUserinfo || s == HostStart || s == V6Start {
      AppendToName(v, foundAt, s, ch);
    } else if s == InHost || s == InV6 || s == V6ZoneStart || s == InV6Zone {
      AppendName(v, foundAt, s, ch);
    } else {
      SameName(v, w);
    }
  }

  lemma SameName(v: Server, w: Server)
    requires v.userinfo == w.userinfo && v.at == w.at && (v.brackets >= 1) == (w.brackets >= 1)
    requires v.host == w.host && v.percent == w.percent && v.zone == w.zone
    ensures ToName(v) == ToName(w) && Name(v) == Name(w)
  {
  }

  // The section and its parts determine each other.

  function ReadServer(t: text, foundAt: bool): Option<Server> {
    if t == [] then Some(NO_SERVER)
    else
      var n := |t| - 1;
      var before := ReadServer(t[..n], foundAt);
      if before.None? then None
      else
        var s := ParseHostChar(ServerState(before.value, foundAt), t[n]);
        if s == HostDead then None else Some(AppendServer(before.value, s, t[n]))
  }

  function ShorterServer(v: Server): Server {
    if v.port != [] then v.(port := v.port[..|v.port| - 1])
    else if v.colon then v.(colon := false)
    else if v.brackets == 2 then v.(brackets := 1)
    else if v.zone != [] then v.(zone := v.zone[..|v.zone| - 1])
    else if v.percent then v.(percent := false)
    else if v.host != [] then v.(host := v.host[..|v.host| - 1])
    else if v.brackets == 1 then v.(brackets := 0)
    else if v.at then v.(at := false)
    else if v.userinfo != [] then v.(userinfo := v.userinfo[..|v.userinfo| - 1])
    else v
  }

  function LastServerChar(v: Server): octet {
    if v.port != [] then v.port[|v.port| - 1]
    else if v.colon then ':'
    else if v.brackets == 2 then ']'
    else if v.zone != [] then v.zone[|v.zone| - 1]
    else if v.percent then '%'
    else if v.host != [] then v.host[|v.host| - 1]
    else if v.brackets == 1 then '['
    else if v.at then '@'
    else if v.userinfo != [] then v.userinfo[|v.userinfo| - 1]
    else 'a'
  }

  lemma ShorterServerPort(v: Server, foundAt: bool)
    requires ValidServer(v, foundAt) && !NoPort(v)
    ensures var w, s, ch := ShorterServer(v), ServerState(v, foundAt), LastServerChar(v);
            ValidServer(w, foundAt) && FitsServer(w, foundAt, s, ch) && AppendServer(w, s, ch) == v
  {
    hide IsHostChar, IsV6Char, IsZoneChar, IsNum, IsUserinfoChar;
  }

  lemma ShorterServerZone(v: Server, foundAt: bool)
    requires ValidServer(v, foundAt) && NoPort(v) && !NoZone(v)
    ensures var w, s, ch := ShorterServer(v), ServerState(v, foundAt), LastServerChar(v);
            ValidServer(w, foundAt) && FitsServer(w, foundAt, s, ch) && AppendServer(w, s, ch) == v
  {
    hide IsHostChar, IsV6Char, IsZoneChar, IsNum, IsUserinfoChar;
  }

  lemma ShorterServerName(v: Server, foundAt: bool)
    requires ValidServer(v, foundAt) && NoZone(v) && v != NO_SERVER
    ensures var w, s, ch := ShorterServer(v), ServerState(v, foundAt), LastServerChar(v);
            ValidServer(w, foundAt) && FitsServer(w, foundAt, s, ch) && AppendServer(w, s, ch) == v
  {
    hide IsHostChar, IsV6Char, IsZoneChar, IsNum, IsUserinfoChar;
  }

  predicate ValidServerText(v: Server, foundAt: bool, t: text) { ValidServer(v, foundAt) && RenderServer(v) == t }

  lemma NoServerIff(v: Server, foundAt: bool)
    ensures v == NO_SERVER <==> ValidServerText(v, foundAt, [])
  {
    hide IsHostChar, IsV6Char, IsZoneChar, IsNum, IsUserinfoChar;
  }

  /** As for the sections: a server section splits in one way. */
  lemma {:induction false} ReadServerIff(t: text, foundAt: bool, v: Server)
    ensures ReadServer(t, foundAt) == Some(v) <==> ValidServer(v, foundAt) && RenderServer(v) == t
    decreases |t|
  {
    hide ValidServer, RenderServer, AppendServer, FitsServer, ServerState, ParseHostChar, ShorterServer, LastServerChar;
    NoServerIff(v, foundAt);
    if t != [] {
      var n := |t| - 1;
      assert t == t[..n] + [t[n]];
      if ReadServer(t, foundAt) == Some(v) {
        var w := ReadServer(t[..n], foundAt).value;
        ReadServerIff(t[..n], foundAt, w);
        StepFitsServer(w, foundAt, t[n]);
        var s := ParseHostChar(ServerState(w, foundAt), t[n]);
        AppendServerValid(w, foundAt, s, t[n]);
        AppendServerRender(w, foundAt, s, t[n]);
      }
      if ValidServerText(v, foundAt, t) {
        if !NoPort(v) {
          ShorterServerPort(v, foundAt);
        } else if !NoZone(v) {
          ShorterServerZone(v, foundAt);
        } else {
          ShorterServerName(v, foundAt);
        }
        var w, s, ch := ShorterServer(v), ServerState(v, foundAt), LastServerChar(v);
        AppendServerRender(w, foundAt, s, ch);
        assert t[..n] == RenderServer(w) && t[n] == ch;
        ReadServerIff(t[..n], foundAt, w);
        FitsServerSteps(w, foundAt, s, ch);
      }
    }
  }
}
