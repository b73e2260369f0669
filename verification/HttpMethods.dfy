/** Which request methods the parser recognises: one is guessed from the first letter, and corrected on the way. */
module HttpMethods {
  import opened Wrappers
  import opened HttpTypes
  import opened HttpSwitch
  import opened HttpRun
  import opened HttpBulk
  import opened HttpSteps

  /** The method guessed after the byte at index `i` of a name that is no space. */
  function NextGuess(m: Method, i: nat, ch: octet): Option<Method> {
    if ch == NUL then None
    else if ch == At(MethodString(m), i) then Some(m)
    else if 'A' <= ch <= 'Z' || ch == '-' then Redirect(m, i, ch)
    else None
  }

  /** The method guessed after a name. */
  function Guess(name: seq<octet>): Option<Method> {
    if name == [] then None
    else
      var n := |name| - 1;
      if n == 0 then FirstLetter(name[0])
      else
        match Guess(name[..n])
        case None => None
        case Some(m) => NextGuess(m, n, name[n])
  }

  // A guess fits what has been read.

  /** The method that `m` is guessed as before its byte at index `at` tells them apart. */
  function Before(m: Method): Option<(Method, nat)> {
    match m
    case PUT => Some((POST, 1)) case PATCH => Some((POST, 1)) case PROPFIND => Some((POST, 1))
    case PURGE => Some((PUT, 2)) case CHECKOUT => Some((CONNECT, 1)) case COPY => Some((CONNECT, 2))
    case MOVE => Some((MKCOL, 1)) case MERGE => Some((MKCOL, 1)) case MSEARCH => Some((MKCOL, 1))
    case MKACTIVITY => Some((MKCOL, 2)) case MKCALENDAR => Some((MKCOL, 3))
    case SEARCH => Some((SUBSCRIBE, 1)) case SOURCE => Some((SUBSCRIBE, 1))
    case REBIND => Some((REPORT, 2)) case PROPPATCH => Some((PROPFIND, 4)) case LINK => Some((LOCK, 1))
    case UNSUBSCRIBE => Some((UNLOCK, 2)) case UNBIND => Some((UNLOCK, 2)) case UNLINK => Some((UNLOCK, 3))
    case _ => None
  }

  lemma BeforeAgrees(m: Method)
    requires Before(m).Some?
    ensures var from, at := Before(m).value.0, Before(m).value.1;
            var s, r := MethodString(from), MethodString(m);
            && 1 <= at < |s| && at < |r| && (forall k :: 0 <= k < at ==> s[k] == r[k])
            && s[at] != r[at] && ('A' <= r[at] <= 'Z' || r[at] == '-')
            && Redirect(from, at, r[at]) == Some(m)
            && (Before(from).Some? ==> Before(from).value.1 < at)
  {
  }

  predicate Agrees(name: seq<octet>, m: Method) {
    |name| <= |MethodString(m)| && forall k :: 0 <= k < |name| ==> name[k] == MethodString(m)[k]
  }

  lemma RedirectBefore(m: Method, i: nat, ch: octet)
    requires Redirect(m, i, ch).Some?
    ensures Before(Redirect(m, i, ch).value) == Some((m, i))
  {
  }

  lemma RedirectLetter(m: Method, i: nat, ch: octet)
    requires Redirect(m, i, ch).Some?
    ensures At(MethodString(Redirect(m, i, ch).value), i) == ch
  {
  }

  lemma RedirectAgrees(m: Method, i: nat, ch: octet)
    requires Redirect(m, i, ch).Some?
    ensures var s, r := MethodString(m), MethodString(Redirect(m, i, ch).value);
            i < |s| && i < |r| && r[i] == ch && forall k :: 0 <= k < i ==> s[k] == r[k]
  {
    hide Redirect, Before, MethodString;
    RedirectBefore(m, i, ch);
    RedirectLetter(m, i, ch);
    BeforeAgrees(Redirect(m, i, ch).value);
  }

  lemma FirstAgrees(ch: octet)
    requires FirstLetter(ch).Some?
    ensures IsAlpha(ch) && MethodString(FirstLetter(ch).value) != "" && MethodString(FirstLetter(ch).value)[0] == ch
  {
  }

  lemma {:induction false} GuessAgrees(name: seq<octet>)
    requires Guess(name).Some?
    ensures Agrees(name, Guess(name).value)
  {
    hide Redirect, MethodString, FirstLetter;
    var n := |name| - 1;
    if n == 0 {
      FirstAgrees(name[0]);
    } else {
      var m := Guess(name[..n]).value;
      GuessAgrees(name[..n]);
      if name[n] != At(MethodString(m), n) {
        RedirectAgrees(m, n, name[n]);
      }
    }
  }

  // Every method is guessed in the end.

  function Depth(m: Method): nat {
    if m.PURGE? || m.PROPPATCH? then 2 else if Before(m).Some? then 1 else 0
  }

  /** The guess after `i` bytes of the name of `m`. */
  function GuessAt(m: Method, i: nat): Method
    decreases Depth(m)
  {
    match Before(m)
    case Some((from, at)) => if i <= at then GuessAt(from, i) else m
    case None => m
  }

  lemma Letters(m: Method, i: nat)
    requires i < |MethodString(m)|
    ensures 'A' <= MethodString(m)[i] <= 'Z' || MethodString(m)[i] == '-'
    ensures |MethodString(m)| < 32
  {
  }

  lemma {:induction false} GuessNext(m: Method, i: nat)
    requires 1 <= i < |MethodString(m)|
    ensures MethodString(m)[i] as int < 256
    ensures NextGuess(GuessAt(m, i), i, MethodString(m)[i]) == Some(GuessAt(m, i + 1))
    decreases Depth(m)
  {
    hide Redirect, MethodString;
    Letters(m, i);
    if Before(m).Some? {
      BeforeAgrees(m);
      var from, at := Before(m).value.0, Before(m).value.1;
      if i < at {
        GuessNext(from, i);
      }
    }
  }

  lemma {:induction false} GuessFirst(m: Method)
    ensures var s := MethodString(m);
            s != "" && s[0] as int < 256 && FirstLetter(s[0]) == Some(GuessAt(m, 1))
    decreases Depth(m)
  {
    if Before(m).Some? {
      hide MethodString, FirstLetter;
      BeforeAgrees(m);
      GuessFirst(Before(m).value.0);
    } else {
      FirstGuessed(m);
    }
  }

  lemma FirstGuessed(m: Method)
    requires Before(m).None?
    ensures var s := MethodString(m);
            s != "" && s[0] as int < 256 && FirstLetter(s[0]) == Some(m)
  {
  }

  lemma {:induction false} GuessName(m: Method, name: seq<octet>, i: nat)
    requires name == MethodString(m) && 1 <= i <= |name|
    ensures Guess(name[..i]) == Some(GuessAt(m, i))
  {
    hide MethodString, GuessAt, FirstLetter, NextGuess;
    if i == 1 {
      GuessFirst(m);
    } else {
      GuessName(m, name, i - 1);
      GuessNext(m, i - 1);
      assert name[..i][..i - 1] == name[..i - 1];
    }
  }

  lemma GuessLast(m: Method)
    ensures GuessAt(m, |MethodString(m)|) == m
  {
    if Before(m).Some? {
      BeforeAgrees(m);
    }
  }

  // Reading it.

  /** The parser within a method name, after `i` bytes of it. */
  function InMethod(p: Parser, i: nat, m: Method): Parser {
    Fresh(p).(verb := m, index := i, state := ReqMethod, nread := p.nread + i)
  }

  lemma ExecFirst(cfg: Config, p: Parser, ch: octet)
    requires p.state.StartReq? && ch != CR && ch != LF
    ensures Exec(cfg, p, ch) ==
            match FirstLetter(ch)
            case Some(m) => Next(Fresh(p).(verb := m, index := 1, state := ReqMethod), [Call(MessageBegin)])
            case None => Fail(InvalidMethod)
  {
  }

  lemma ExecMethod(cfg: Config, p: Parser, ch: octet)
    requires p.state.ReqMethod?
    ensures Exec(cfg, p, ch) == SwitchMethod(p, ch)
  {
    hide Redirect, MethodString;
  }

  lemma NoSpace(m: Method, i: nat)
    ensures At(MethodString(m), i) != ' '
    ensures At(MethodString(m), i) == NUL <==> i >= |MethodString(m)|
  {
    if i < |MethodString(m)| {
      Letters(m, i);
    }
  }

  lemma MethodByte(cfg: Config, p: Parser, t: seq<Event>, i: nat, m: Method, ch: octet)
    requires cfg.maxHeaderSize + 1 < TWO_TO_32 && p.nread + i + 1 <= cfg.maxHeaderSize && i < 31
    ensures StepByte(cfg, InMethod(p, i, m), t, ch) ==
            if ch == ' ' then
              if i >= |MethodString(m)| then Going(InMethod(p, i + 1, m).(state := ReqSpacesBeforeUrl), t) else Failed
            else match NextGuess(m, i, ch)
                 case Some(g) => Going(InMethod(p, i + 1, g), t)
                 case None => Failed
  {
    hide Exec, StepByte, Redirect, MethodString, At, Counted;
    var q := InMethod(p, i, m);
    CountOne(cfg, q);
    var r := q.(nread := q.nread + 1);
    ExecMethod(cfg, r, ch);
    NoSpace(m, i);
    var x := SwitchMethod(r, ch);
    if x.Next? {
      StepQuiet(cfg, q, t, ch, x.p);
    } else {
      StepFail(cfg, q, t, ch);
    }
  }

  predicate StartsName(name: seq<octet>) { name != [] && name[0] != CR && name[0] != LF && ' ' !in name }

  /** Reading a name, up to the first byte that no method goes on with. */
  lemma {:induction false} RunName(cfg: Config, p: Parser, t: seq<Event>, name: seq<octet>)
    requires cfg.maxHeaderSize + 1 < TWO_TO_32 && p.nread + |name| <= cfg.maxHeaderSize
    requires p.state.StartReq? && StartsName(name)
    ensures var g := Run(cfg, Going(p, t), name);
            match Guess(name)
            case Some(m) => |name| < 31 && g == Going(InMethod(p, |name|, m), t + [Notify(MessageBegin)])
            case None => g == Failed
  {
    hide StepByte, Run, Exec, FirstLetter, NextGuess, MethodString, Counted;
    var n := |name| - 1;
    if n == 0 {
      assert name == [name[0]];
      RunOne(cfg, p, t, name[0]);
      CountOne(cfg, p);
      var q := p.(nread := p.nread + 1);
      ExecFirst(cfg, q, name[0]);
      match FirstLetter(name[0]) {
        case Some(m) => StepCall(cfg, p, t, name[0], InMethod(p, 1, m), MessageBegin);
        case None => StepFail(cfg, p, t, name[0]);
      }
    } else {
      RunName(cfg, p, t, name[..n]);
      assert name == name[..n] + [name[n]];
      RunLast(cfg, Going(p, t), name[..n], name[n]);
      if Guess(name[..n]).Some? {
        var m := Guess(name[..n]).value;
        MethodByte(cfg, p, t + [Notify(MessageBegin)], n, m, name[n]);
        if Guess(name).Some? {
          GuessShort(name);
        }
      }
    }
  }

  lemma GuessShort(name: seq<octet>)
    requires Guess(name).Some?
    ensures |name| < 31
  {
    GuessAgrees(name);
    Short(Guess(name).value);
    hide Guess, MethodString;
  }

  lemma Short(m: Method)
    ensures |MethodString(m)| < 30
  {
  }

  /** The parser after a method name and a space. */
  function AfterMethod(p: Parser, name: seq<octet>, m: Method): Parser {
    InMethod(p, |name| + 1, m).(state := ReqSpacesBeforeUrl)
  }

  /** A request line starts with a method exactly when it is one of the known names, for names of any length; then
      this is the method, whatever was guessed on the way, and message_begin has been called once. */
  lemma RecognisesMethod(cfg: Config, p: Parser, t: seq<Event>, name: seq<octet>, m: Method)
    requires cfg.maxHeaderSize + 1 < TWO_TO_32 && p.nread + |name| + 1 <= cfg.maxHeaderSize
    requires p.state.StartReq? && StartsName(name)
    ensures var g := Run(cfg, Going(p, t), name + [' ']);
            && (g.Going? && g.p.verb == m <==> name == MethodString(m))
            && (g.Going? ==> g == Going(AfterMethod(p, name, g.p.verb), t + [Notify(MessageBegin)]))
  {
    hide StepByte, Run, Guess, MethodString;
    RunName(cfg, p, t, name);
    RunLast(cfg, Going(p, t), name, ' ');
    if name == MethodString(m) {
      GuessName(m, name, |name|);
      GuessLast(m);
      assert name[..|name|] == name;
    }
    if Guess(name).Some? {
      GuessAgrees(name);
      MethodByte(cfg, p, t + [Notify(MessageBegin)], |name|, Guess(name).value, ' ');
    }
  }
}
