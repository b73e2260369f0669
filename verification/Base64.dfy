/** The Base64 encoder and its strict decoder. Octets and digits are numbers: where the code joins two fields that
    share no bit with |, this adds them. */
module Base64 {
  import opened Wrappers

  type Byte = x: int | 0 <= x < 256

  predicate Digit(v: int) { 0 <= v < 64 }

  /** Base64[v]. */
  function Letter(v: int): char
    requires Digit(v)
  {
    if v < 26 then 'A' + v as char
    else if v < 52 then 'a' + (v - 26) as char
    else if v < 62 then '0' + (v - 52) as char
    else if v == 62 then '+' else '/'
  }

  /** strchr(Base64, c) - Base64, for a character other than NUL. */
  function Value(c: char): (r: Option<int>)
    ensures r.Some? ==> Digit(r.value)
  {
    if 'A' <= c <= 'Z' then Some(c as int - 'A' as int)
    else if 'a' <= c <= 'z' then Some(c as int - 'a' as int + 26)
    else if '0' <= c <= '9' then Some(c as int - '0' as int + 52)
    else if c == '+' then Some(62) else if c == '/' then Some(63) else None
  }

  const PAD := '='

  lemma LetterValue(v: int, c: char)
    requires Digit(v)
    ensures Value(Letter(v)) == Some(v) && Letter(v) != PAD && !Space(Letter(v))
    ensures Value(c).Some? ==> Letter(Value(c).value) == c
  {
  }

  /** isspace in the C locale. */
  predicate Space(c: char) { c == ' ' || 9 as char <= c <= 13 as char }

  predicate Digits(d: seq<int>) { forall k :: 0 <= k < |d| ==> Digit(d[k]) }

  function Letters(d: seq<int>): (s: string)
    requires Digits(d)
    ensures |s| == |d|
  {
    seq(|d|, k requires 0 <= k < |d| => Letter(d[k]))
  }

  // The encoding: RFC 4648, section 4.

  /** Three octets as four digits. */
  function Sextets(a: Byte, b: Byte, c: Byte): (d: seq<int>)
    ensures |d| == 4 && Digits(d)
  {
    [a / 4, a % 4 * 16 + b / 16, b % 16 * 4 + c / 64, c % 64]
  }

  function Groups(x: seq<Byte>): (d: seq<int>)
    requires |x| % 3 == 0
    ensures Digits(d) && 3 * |d| == 4 * |x|
  {
    if x == [] then []
    else
      var n := |x| - 3;
      Groups(x[..n]) + Sextets(x[n], x[n + 1], x[n + 2])
  }

  /** The final quantum of one or two octets, filled up with zero bits and padding. */
  function Tail(x: seq<Byte>): string
    requires |x| < 3
  {
    if |x| == 0 then ""
    else if |x| == 1 then Letters(Sextets(x[0], 0, 0)[..2]) + [PAD, PAD]
    else Letters(Sextets(x[0], x[1], 0)[..3]) + [PAD]
  }

  function Encoded(x: seq<Byte>): string {
    var n := |x| - |x| % 3;
    Letters(Groups(x[..n])) + Tail(x[n..])
  }

  lemma EncodedLength(x: seq<Byte>)
    ensures |Encoded(x)| == 4 * ((|x| + 2) / 3)
  {
    hide Letters, Groups, Sextets;
    var n := |x| - |x| % 3;
    assert |Groups(x[..n])| == 4 * (n / 3);
    assert |Tail(x[n..])| == if |x| % 3 == 0 then 0 else 4;
  }

  /** b64_output_encode_len and b64_output_decode_len. */
  function EncodeLen(n: nat): nat { 4 * ((n + 4) / 3) + 1 }

  function DecodeLen(n: nat): nat { (n / 4 + 1) * 3 + 1 }

  lemma GroupsMore(x: seq<Byte>, n: nat)
    requires n + 3 <= |x| && n % 3 == 0
    ensures Groups(x[..n + 3]) == Groups(x[..n]) + Sextets(x[n], x[n + 1], x[n + 2])
  {
    var y := x[..n + 3];
    assert y[..n] == x[..n];
  }

  lemma LettersConcat(a: seq<int>, b: seq<int>)
    requires Digits(a) && Digits(b)
    ensures Digits(a + b) && Letters(a + b) == Letters(a) + Letters(b)
  {
  }

  lemma EncodedIs(x: seq<Byte>, k: nat)
    requires k <= |x| < k + 3 && k % 3 == 0
    ensures Encoded(x) == Letters(Groups(x[..k])) + Tail(x[k..])
  {
    hide Letters, Groups, Tail;
    WholeGroups(|x|, k);
  }

  lemma WholeGroups(n: nat, k: nat)
    requires k <= n < k + 3 && k % 3 == 0
    ensures n - n % 3 == k
  {
    assert n == 3 * (k / 3) + (n - k);
  }

  lemma EncodedShort(x: seq<Byte>, k: nat)
    requires k + 3 <= |x| && k % 3 == 0
    ensures 4 * (k + 3) <= 3 * |Encoded(x)|
  {
    EncodedLength(x);
  }

  /** b64_encode: the encoding and a NUL, exactly when there is room for both. */
  method Encode(src: seq<Byte>, target: array<char>) returns (r: Option<nat>)
    modifies target
    ensures r == if |Encoded(src)| < target.Length then Some(|Encoded(src)|) else None
    ensures r.Some? ==> target[..r.value] == Encoded(src) && target[r.value] == '\0'
  {
    hide Sextets, Letter, Groups, Encoded, Letters, Tail;
    var k: nat, length: nat := 0, 0;
    NoGroups(src);
    while 2 < |src| - k
      invariant k <= |src| && k % 3 == 0 && 3 * length == 4 * k && length <= target.Length
      invariant target[..length] == Letters(Groups(src[..k]))
    {
      GroupsMore(src, k);
      EncodedShort(src, k);
      var d := Sextets(src[k], src[k + 1], src[k + 2]);
      LettersConcat(Groups(src[..k]), d);
      k := k + 3;
      if length + 4 > target.Length {
        return None;
      }
      length := Store(target, length, d, 4);
    }
    EncodedIs(src, k);
    TailLength(src[k..]);
    if k < |src| {
      if length + 4 > target.Length {
        return None;
      }
      length := StoreTail(target, length, src[k..]);
    } else {
      NoTail(src[k..]);
    }
    if length >= target.Length {
      return None;
    }
    target[length] := '\0';
    return Some(length);
  }

  lemma TailLength(x: seq<Byte>)
    requires |x| < 3
    ensures |Tail(x)| == if x == [] then 0 else 4
  {
  }

  lemma NoTail(x: seq<Byte>)
    requires x == []
    ensures Tail(x) == ""
  {
  }

  /** The padding part of b64_encode. */
  method StoreTail(target: array<char>, at: nat, x: seq<Byte>) returns (next: nat)
    requires 1 <= |x| <= 2 && at + 4 <= target.Length
    modifies target
    ensures next == at + 4 && target[..next] == old(target[..at]) + Tail(x)
  {
    hide Sextets, Letters;
    var d := Sextets(x[0], if |x| == 2 then x[1] else 0, 0);
    if |x| == 1 {
      next := Store(target, at, d[..2], 2);
      ghost var stored := target[..next];
      target[next] := PAD;
      next := next + 1;
      assert target[..next] == stored + [PAD];
    } else {
      next := Store(target, at, d[..3], 3);
    }
    ghost var before := target[..next];
    target[next] := PAD;
    next := next + 1;
    assert target[..next] == before + [PAD];
    if |x| == 1 {
      assert Tail(x) == Letters(d[..2]) + [PAD, PAD];
    } else {
      assert Tail(x) == Letters(d[..3]) + [PAD];
    }
  }

  lemma NoGroups(x: seq<Byte>)
    ensures Groups(x[..0]) == []
  {
  }

  method Store(target: array<char>, at: nat, d: seq<int>, n: nat) returns (next: nat)
    requires |d| == n && Digits(d) && at + n <= target.Length
    modifies target
    ensures next == at + n && target[..next] == old(target[..at]) + Letters(d)
  {
    for k := 0 to n
      invariant target[..at + k] == old(target[..at]) + Letters(d)[..k]
    {
      target[at + k] := Letter(d[k]);
    }
    next := at + n;
  }

  // Digits back into octets.

  /** The octets that are complete, and the bits of the next one. */
  datatype Partial = Partial(out: seq<Byte>, part: int)

  predicate PartOk(p: Partial, n: nat) {
    && |p.out| == 3 * (n / 4) + (if n % 4 <= 1 then 0 else n % 4 - 1)
    && 0 <= p.part < 256
    && (n % 4 == 0 ==> p.part == 0) && (n % 4 == 1 ==> p.part % 4 == 0)
    && (n % 4 == 2 ==> p.part % 16 == 0) && (n % 4 == 3 ==> p.part % 64 == 0)
  }

  lemma CountNext(n: nat)
    ensures if n % 4 == 3 then (n + 1) / 4 == n / 4 + 1 && (n + 1) % 4 == 0
            else (n + 1) / 4 == n / 4 && (n + 1) % 4 == n % 4 + 1
  {
  }

  /** One more digit, after n digits. */
  function Put(p: Partial, n: nat, v: int): (q: Partial)
    requires Digit(v) && PartOk(p, n)
    ensures PartOk(q, n + 1)
  {
    CountNext(n);
    if n % 4 == 0 then Partial(p.out, v * 4)
    else if n % 4 == 1 then Partial(p.out + [p.part + v / 16], v % 16 * 16)
    else if n % 4 == 2 then Partial(p.out + [p.part + v / 4], v % 4 * 64)
    else Partial(p.out + [p.part + v], 0)
  }

  function Read(d: seq<int>): (p: Partial)
    requires Digits(d)
    ensures PartOk(p, |d|)
  {
    if d == [] then Partial([], 0) else Put(Read(d[..|d| - 1]), |d| - 1, d[|d| - 1])
  }

  /** What digits say about the octets read from them. */
  ghost predicate Reads(d: seq<int>, p: Partial)
    requires Digits(d) && PartOk(p, |d|)
  {
    var g, st := |d| / 4, |d| % 4;
    var e, o := d[4 * g..], p.out[3 * g..];
    && Groups(p.out[..3 * g]) == d[..4 * g]
    && (st == 1 ==> p.part == e[0] * 4)
    && (st == 2 ==> o[0] == e[0] * 4 + e[1] / 16 && p.part == e[1] % 16 * 16)
    && (st == 3 ==> o[0] == e[0] * 4 + e[1] / 16 && o[1] == e[1] % 16 * 16 + e[2] / 4 && p.part == e[2] % 4 * 64)
  }

  lemma SextetsOf(e0: int, e1: int, e2: int, e3: int)
    requires Digit(e0) && Digit(e1) && Digit(e2) && Digit(e3)
    ensures Sextets(e0 * 4 + e1 / 16, e1 % 16 * 16 + e2 / 4, e2 % 4 * 64 + e3) == [e0, e1, e2, e3]
  {
    var a, b, c := e0 * 4 + e1 / 16, e1 % 16 * 16 + e2 / 4, e2 % 4 * 64 + e3;
    Fields(e0, e1 / 16, 4);
    Fields(e1 % 16, e2 / 4, 16);
    Fields(e2 % 4, e3, 64);
    assert a / 4 == e0 && a % 4 == e1 / 16 && b / 16 == e1 % 16 && b % 16 == e2 / 4 && c / 64 == e2 % 4 && c % 64 == e3;
  }

  lemma Fields(high: int, low: int, unit: int)
    requires 0 <= high && 0 <= low < unit
    ensures (high * unit + low) / unit == high && (high * unit + low) % unit == low
  {
    var n := high * unit + low;
    assert n == n / unit * unit + n % unit;
    Unique(high, low, n / unit, n % unit, unit);
  }

  lemma Unique(a: int, r: int, b: int, s: int, unit: int)
    requires 0 <= r < unit && 0 <= s < unit && a * unit + r == b * unit + s
    ensures a == b && r == s
  {
    if a < b {
      FurtherUp(a, b, unit);
    } else if b < a {
      FurtherUp(b, a, unit);
    }
  }

  lemma FurtherUp(a: int, b: int, unit: int)
    requires a < b && 0 < unit
    ensures a * unit + unit <= b * unit
  {
    assert (b - a - 1) * unit >= 0;
    assert b * unit == a * unit + unit + (b - a - 1) * unit;
  }

  lemma OctetsOf(a: Byte, b: Byte, c: Byte)
    ensures var e := Sextets(a, b, c);
            a == e[0] * 4 + e[1] / 16 && b == e[1] % 16 * 16 + e[2] / 4 && c == e[2] % 4 * 64 + e[3]
  {
  }

  lemma FullGroup(d: seq<int>, p: Partial, v: int)
    requires Digits(d) && PartOk(p, |d|) && Reads(d, p) && Digit(v) && |d| % 4 == 3
    ensures Groups(p.out + [p.part + v]) == d + [v] && Digits(d + [v])
  {
    hide Sextets, Groups;
    var g := |d| / 4;
    var e, out := d[4 * g..], p.out + [p.part + v];
    SextetsOf(e[0], e[1], e[2], v);
    GroupsMore(out, 3 * g);
    assert out[..3 * g] == p.out[..3 * g] && out[..3 * g + 3] == out;
    assert d + [v] == d[..4 * g] + [e[0], e[1], e[2], v];
  }

  lemma ReadsStep(d: seq<int>, p: Partial, v: int)
    requires Digits(d) && PartOk(p, |d|) && Reads(d, p) && Digit(v)
    ensures Digits(d + [v]) && Reads(d + [v], Put(p, |d|, v))
  {
    hide Groups;
    CountNext(|d|);
    var g, st := |d| / 4, |d| % 4;
    var more, q := d + [v], Put(p, |d|, v);
    if st == 3 {
      FullGroup(d, p, v);
      assert more[..4 * (g + 1)] == more && q.out[..3 * (g + 1)] == q.out;
    } else {
      assert more[..4 * g] == d[..4 * g] && q.out[..3 * g] == p.out[..3 * g];
      assert more[4 * g..] == d[4 * g..] + [v];
    }
  }

  lemma {:induction false} ReadIs(d: seq<int>)
    requires Digits(d)
    ensures Reads(d, Read(d))
  {
    hide Put, Groups;
    if d == [] {
      NoGroups([]);
    } else {
      var n := |d| - 1;
      ReadIs(d[..n]);
      ReadsStep(d[..n], Read(d[..n]), d[n]);
      assert d[..n] + [d[n]] == d;
    }
  }

  // Text.

  function Strip(s: string): string { if s == "" then "" else (if Space(s[0]) then "" else [s[0]]) + Strip(s[1..]) }

  lemma {:induction false} StripConcat(a: string, b: string)
    ensures Strip(a + b) == Strip(a) + Strip(b)
  {
    if a == "" {
      assert a + b == b;
    } else {
      var head := if Space(a[0]) then "" else [a[0]];
      assert (a + b)[0] == a[0] && (a + b)[1..] == a[1..] + b;
      StripConcat(a[1..], b);
      Associate(head, Strip(a[1..]), Strip(b));
    }
  }

  lemma Associate(a: string, b: string, c: string)
    ensures a + (b + c) == a + b + c
  {
  }

  lemma StripNext(s: string, k: nat)
    requires k < |s|
    ensures Strip(s[..k + 1]) == Strip(s[..k]) + if Space(s[k]) then "" else [s[k]]
  {
    hide Strip;
    assert s[..k + 1] == s[..k] + [s[k]];
    StripConcat(s[..k], [s[k]]);
    StripOne(s[k]);
  }

  lemma StripFrom(s: string, k: nat)
    requires k < |s|
    ensures Strip(s[k..]) == (if Space(s[k]) then "" else [s[k]]) + Strip(s[k + 1..])
  {
    assert s[k..][1..] == s[k + 1..];
  }

  lemma StripWhole(s: string, k: nat)
    requires k <= |s|
    ensures Strip(s) == Strip(s[..k]) + Strip(s[k..])
  {
    hide Strip;
    assert s == s[..k] + s[k..];
    StripConcat(s[..k], s[k..]);
  }

  lemma StripOne(c: char)
    ensures Strip([c]) == if Space(c) then "" else [c]
  {
    assert [c][1..] == "";
  }

  /** How many characters at the start of s are letters of the alphabet. */
  function LetterRun(s: string): (n: nat)
    ensures n <= |s|
    ensures forall k :: 0 <= k < n ==> Value(s[k]).Some?
    ensures n < |s| ==> Value(s[n]).None?
  {
    if s == "" || Value(s[0]).None? then 0 else 1 + LetterRun(s[1..])
  }

  function DigitsIn(s: string): (d: seq<int>)
    ensures Digits(d) && |d| == LetterRun(s)
  {
    seq(LetterRun(s), k requires 0 <= k < LetterRun(s) => Value(s[k]).value)
  }

  function Pads(n: nat): string { if n % 4 == 2 then [PAD, PAD] else if n % 4 == 3 then [PAD] else "" }

  /** Letters in whole groups, or completed by padding. */
  predicate Syntax(s: string) {
    var n := LetterRun(s);
    n % 4 != 1 && s[n..] == Pads(n)
  }

  lemma RunIs(s: string, d: seq<int>, rest: string)
    requires Digits(d) && s == Letters(d) + rest && (rest == "" || Value(rest[0]).None?)
    ensures LetterRun(s) == |d| && DigitsIn(s) == d && s[|d|..] == rest
  {
    hide Letter, Value;
    forall k | 0 <= k < |d|
      ensures Value(s[k]) == Some(d[k])
    {
      LetterValue(d[k], ' ');
    }
    if |d| < |s| {
      assert s[|d|] == rest[0];
    }
  }

  /** The octets the target must hold for n digits. */
  function Room(n: nat): nat { if n % 4 == 0 then n / 4 * 3 else n / 4 * 3 + n % 4 }

  /** What the decoder accepts: with a target, also that it is long enough and that no bit is left over. */
  predicate Accepts(s: string, room: Option<nat>) {
    Syntax(s) && (room.Some? ==> Room(LetterRun(s)) <= room.value && Read(DigitsIn(s)).part == 0)
  }

  lemma {:induction false} GroupsInjective(x: seq<Byte>, y: seq<Byte>)
    requires |x| % 3 == 0 && |y| % 3 == 0 && Groups(x) == Groups(y)
    ensures x == y
  {
    hide Sextets;
    if x != [] && y != [] {
      var n := |x| - 3;
      assert |x| == |y|;
      assert Groups(x)[..|Groups(x[..n])|] == Groups(x[..n]) && Groups(y)[..|Groups(y[..n])|] == Groups(y[..n]);
      GroupsInjective(x[..n], y[..n]);
      assert Groups(x)[|Groups(x[..n])|..] == Sextets(x[n], x[n + 1], x[n + 2]);
      assert Groups(y)[|Groups(y[..n])|..] == Sextets(y[n], y[n + 1], y[n + 2]);
      OctetsOf(x[n], x[n + 1], x[n + 2]);
      OctetsOf(y[n], y[n + 1], y[n + 2]);
    }
  }

  /** The digits of the final quantum. */
  function TailDigits(x: seq<Byte>): (d: seq<int>)
    requires |x| < 3
    ensures Digits(d) && |d| == if x == [] then 0 else |x| + 1
  {
    if |x| == 0 then [] else if |x| == 1 then Sextets(x[0], 0, 0)[..2] else Sextets(x[0], x[1], 0)[..3]
  }

  lemma TailIs(x: seq<Byte>)
    requires |x| < 3
    ensures Tail(x) == Letters(TailDigits(x)) + Pads(|TailDigits(x)|)
  {
    hide Sextets, Letter;
  }

  function AllDigits(x: seq<Byte>): (d: seq<int>)
    ensures Digits(d)
  {
    var n := |x| - |x| % 3;
    Groups(x[..n]) + TailDigits(x[n..])
  }

  lemma CountDigits(x: seq<Byte>)
    ensures |AllDigits(x)| == 4 * (|x| / 3) + if |x| % 3 == 0 then 0 else |x| % 3 + 1
  {
    hide Groups, TailDigits;
    var g, n := |x| / 3, |x| - |x| % 3;
    assert n == 3 * g;
    assert 3 * |Groups(x[..n])| == 4 * n;
  }

  lemma EncodedDigits(x: seq<Byte>)
    ensures Encoded(x) == Letters(AllDigits(x)) + Pads(|AllDigits(x)|) && |AllDigits(x)| % 4 != 1
  {
    hide Groups, Letters, Tail, TailDigits;
    var n := |x| - |x| % 3;
    var a, b := Groups(x[..n]), TailDigits(x[n..]);
    TailIs(x[n..]);
    LettersConcat(a, b);
    CountDigits(x);
    assert |a| % 4 == 0 by {
      assert n == 3 * (|x| / 3) && |a| == 4 * (|x| / 3);
    }
    PadsAfter(|a|, |b|);
    assert Letters(a) + (Letters(b) + Pads(|b|)) == Letters(a) + Letters(b) + Pads(|b|);
  }

  lemma PadsAfter(m: nat, n: nat)
    requires m % 4 == 0
    ensures Pads(m + n) == Pads(n) && (m + n) % 4 == n % 4
  {
  }

  lemma TailRead(t: seq<Byte>, e: seq<int>, o: seq<Byte>, part: int)
    requires 1 <= |t| <= 2 && e == TailDigits(t) && |o| == |t|
    requires o[0] == e[0] * 4 + e[1] / 16
    requires |t| == 1 ==> part == e[1] % 16 * 16
    requires |t| == 2 ==> o[1] == e[1] % 16 * 16 + e[2] / 4 && part == e[2] % 4 * 64
    ensures o == t && part == 0
  {
    if |t| == 1 {
      OctetsOf(t[0], 0, 0);
      assert e[1] == t[0] % 4 * 16;
    } else {
      OctetsOf(t[0], t[1], 0);
      assert e[2] == t[1] % 16 * 4;
    }
  }

  /** Reading the digits of an encoding gives the octets, with no bits left over. */
  lemma ReadEncoded(x: seq<Byte>)
    ensures Read(AllDigits(x)) == Partial(x, 0)
  {
    hide Groups, Read, TailDigits;
    var n := |x| - |x| % 3;
    var d := AllDigits(x);
    var p := Read(d);
    CountDigits(x);
    ReadIs(d);
    var g := |d| / 4;
    assert n == 3 * g && d[..4 * g] == Groups(x[..n]);
    GroupsInjective(p.out[..n], x[..n]);
    assert d[4 * g..] == TailDigits(x[n..]);
    if n < |x| {
      TailRead(x[n..], d[4 * g..], p.out[n..], p.part);
    }
    assert p.out == p.out[..n] + p.out[n..] && x == x[..n] + x[n..];
  }

  /** The octets a target must have to receive n of them: one more when the text is padded. */
  function Need(n: nat): nat { if n % 3 == 0 then n else n + 1 }

  lemma TailWritten(e: seq<int>, o: seq<Byte>, part: int)
    requires Digits(e) && 2 <= |e| <= 3 && |o| == |e| - 1 && part == 0
    requires o[0] == e[0] * 4 + e[1] / 16
    requires |e| == 2 ==> part == e[1] % 16 * 16
    requires |e| == 3 ==> o[1] == e[1] % 16 * 16 + e[2] / 4 && part == e[2] % 4 * 64
    ensures TailDigits(o) == e
  {
    hide Sextets;
    if |e| == 2 {
      SextetsOf(e[0], e[1], 0, 0);
      assert e[1] % 16 * 16 + 0 / 4 == 0 && 0 % 4 * 64 + 0 == 0;
      assert Sextets(o[0], 0, 0) == [e[0], e[1], 0, 0];
    } else {
      SextetsOf(e[0], e[1], e[2], 0);
      assert e[2] % 4 * 64 + 0 == 0;
      assert Sextets(o[0], o[1], 0) == [e[0], e[1], e[2], 0];
    }
  }

  lemma WholeOctets(n: nat, k: nat)
    requires n % 4 != 1 && k == 3 * (n / 4) + (if n % 4 <= 1 then 0 else n % 4 - 1)
    ensures k - k % 3 == 3 * (n / 4) && Room(n) == Need(k)
  {
    WholeGroups(k, 3 * (n / 4));
  }

  lemma AllDigitsAt(x: seq<Byte>, n: nat)
    requires n <= |x| < n + 3 && n % 3 == 0
    ensures AllDigits(x) == Groups(x[..n]) + TailDigits(x[n..])
  {
    hide Groups, TailDigits;
    WholeGroups(|x|, n);
  }

  /** Accepted digits with nothing left over are the digits of the octets read. */
  lemma DigitsCanonical(d: seq<int>)
    requires Digits(d) && |d| % 4 != 1 && Read(d).part == 0
    ensures AllDigits(Read(d).out) == d && Room(|d|) == Need(|Read(d).out|)
  {
    hide Groups, Read, TailDigits, AllDigits, Room, Need;
    var p, g := Read(d), |d| / 4;
    ReadIs(d);
    WholeOctets(|d|, |p.out|);
    if |d| % 4 != 0 {
      TailWritten(d[4 * g..], p.out[3 * g..], p.part);
    } else {
      NoTailDigits(p.out[3 * g..]);
    }
    AllDigitsAt(p.out, 3 * g);
    assert d == d[..4 * g] + d[4 * g..];
  }

  lemma NoTailDigits(x: seq<Byte>)
    requires x == []
    ensures TailDigits(x) == []
  {
  }

  /** What the decoder accepts for a target is canonical: the encoding of what it delivers. */
  lemma AcceptedIsEncoding(s: string, room: nat)
    requires Accepts(s, Some(room))
    ensures var x := Read(DigitsIn(s)).out;
            s == Encoded(x) && Need(|x|) <= room
  {
    hide Read, AllDigits, Encoded, Room, Need, Pads;
    var d := DigitsIn(s);
    DigitsCanonical(d);
    EncodedDigits(Read(d).out);
    LettersOf(s);
    assert s == s[..|d|] + s[|d|..];
  }

  lemma LettersOf(s: string)
    ensures Letters(DigitsIn(s)) == s[..LetterRun(s)]
  {
    hide Letter, Value;
    forall k | 0 <= k < LetterRun(s)
      ensures Letter(DigitsIn(s)[k]) == s[k]
    {
      LetterValue(0, s[k]);
    }
  }

  lemma PadsStop(n: nat)
    ensures Pads(n) == "" || Value(Pads(n)[0]).None?
  {
  }

  /** Every encoding is accepted when the target has room, and decodes to what was encoded. */
  lemma EncodingIsAccepted(x: seq<Byte>, room: nat)
    ensures Accepts(Encoded(x), Some(room)) <==> Need(|x|) <= room
    ensures Read(DigitsIn(Encoded(x))).out == x
  {
    hide Read, AllDigits, Encoded, Room, Need, Pads, DigitsIn, LetterRun;
    var d := AllDigits(x);
    EncodedDigits(x);
    PadsStop(|d|);
    RunIs(Encoded(x), d, Pads(|d|));
    ReadEncoded(x);
    DigitsCanonical(d);
  }

  // The decoder.

  datatype Stop = AtEnd | AtPad | BadCharacter | NoRoom

  ghost predicate Holds(target: array?<Byte>, d: seq<int>)
    requires Digits(d)
    reads target
  {
    target != null ==>
      var p := Read(d);
      && Room(|d|) <= target.Length && |p.out| <= target.Length && target[..|p.out|] == p.out
      && (|d| % 4 != 0 ==> |p.out| < target.Length && target[|p.out|] == p.part)
  }

  lemma ReadNext(d: seq<int>, v: int)
    requires Digits(d) && Digit(v)
    ensures Digits(d + [v]) && Read(d + [v]) == Put(Read(d), |d|, v)
  {
    assert (d + [v])[..|d|] == d;
  }

  lemma RoomNext(n: nat)
    ensures Room(n) <= Room(n + 1)
    ensures Room(n + 1) == n / 4 * 3 + (if n % 4 == 3 then 3 else n % 4 + 1)
  {
    assert n % 4 == 3 ==> (n + 1) / 4 == n / 4 + 1;
  }

  /** The switch of b64_decode: the digit v, in the given state. */
  method PutDigit(target: array?<Byte>, tarindex: nat, state: nat, v: int, ghost d: seq<int>)
    returns (ok: bool, next: nat)
    requires Digits(d) && Digit(v) && tarindex == |Read(d).out| && state == |d| % 4 && Holds(target, d)
    modifies if target == null then {} else {target}
    ensures Digits(d + [v])
    ensures ok == (target != null ==> Room(|d| + 1) <= target.Length)
    ensures ok ==> next == |Read(d + [v]).out| && Holds(target, d + [v])
  {
    hide Read, Room;
    ReadNext(d, v);
    RoomNext(|d|);
    ok, next := true, tarindex;
    if state == 0 {
      if target != null {
        if tarindex >= target.Length {
          ok := false;
          return;
        }
        target[tarindex] := v * 4;
      }
    } else if state == 1 {
      if target != null {
        if tarindex + 1 >= target.Length {
          ok := false;
          return;
        }
        target[tarindex] := target[tarindex] + v / 16;
        target[tarindex + 1] := v % 16 * 16;
      }
      next := tarindex + 1;
    } else if state == 2 {
      if target != null {
        if tarindex + 1 >= target.Length {
          ok := false;
          return;
        }
        target[tarindex] := target[tarindex] + v / 4;
        target[tarindex + 1] := v % 4 * 64;
      }
      next := tarindex + 1;
    } else {
      if target != null {
        if tarindex >= target.Length {
          ok := false;
          return;
        }
        target[tarindex] := target[tarindex] + v;
      }
      next := tarindex + 1;
    }
  }

  predicate Ascii(text: string) { forall k :: 0 <= k < |text| ==> 0 < text[k] as int < 128 }

  /** The loop of b64_decode, up to what ends it. */
  method ReadDigits(text: string, target: array?<Byte>)
    returns (k: nat, state: nat, tarindex: nat, stop: Stop, ghost d: seq<int>)
    requires Ascii(text)
    modifies if target == null then {} else {target}
    ensures k <= |text| && Digits(d) && Strip(text[..k]) == Letters(d)
    ensures match stop
            case AtEnd => k == |text|
            case AtPad => k < |text| && text[k] == PAD
            case BadCharacter => k < |text| && Value(text[k]).None? && !Space(text[k]) && text[k] != PAD
            case NoRoom => k < |text| && Value(text[k]).Some? && target != null && Room(|d| + 1) > target.Length
    ensures stop.AtEnd? || stop.AtPad? ==> state == |d| % 4 && tarindex == |Read(d).out| && Holds(target, d)
  {
    hide Strip, Letters, Letter, Value, Read, Holds, Room;
    k, state, tarindex, d := 0, 0, 0, [];
    NothingRead(text, target);
    while k < |text|
      invariant k <= |text| && Digits(d) && Strip(text[..k]) == Letters(d)
      invariant state == |d| % 4 && tarindex == |Read(d).out| && Holds(target, d)
    {
      var ch := text[k];
      StripNext(text, k);
      if Space(ch) {
        k := k + 1;
        continue;
      }
      if ch == PAD {
        stop := AtPad;
        return;
      }
      var pos := Value(ch);
      if pos.None? {
        stop := BadCharacter;
        return;
      }
      var ok, next := PutDigit(target, tarindex, state, pos.value, d);
      if !ok {
        stop := NoRoom;
        return;
      }
      LettersNext(d, ch);
      d := d + [pos.value];
      k, state, tarindex := k + 1, (state + 1) % 4, next;
    }
    stop := AtEnd;
  }

  lemma NothingRead(text: string, target: array?<Byte>)
    ensures Strip(text[..0]) == Letters([]) && Read([]) == Partial([], 0) && Holds(target, [])
  {
    assert target != null ==> target[..0] == [];
  }

  lemma LettersNext(d: seq<int>, c: char)
    requires Digits(d) && Value(c).Some?
    ensures Digits(d + [Value(c).value]) && Letters(d + [Value(c).value]) == Letters(d) + [c]
  {
    LetterValue(0, c);
    LettersConcat(d, [Value(c).value]);
  }

  lemma AfterDigits(text: string, k: nat, d: seq<int>)
    requires k <= |text| && Digits(d) && Strip(text[..k]) == Letters(d)
    requires k == |text| || (!Space(text[k]) && Value(text[k]).None?)
    ensures var s := Strip(text);
            && LetterRun(s) == |d| && DigitsIn(s) == d && s[|d|..] == Strip(text[k..])
            && (k == |text| ==> Strip(text[k..]) == "")
            && (k < |text| ==> Strip(text[k..]) == [text[k]] + Strip(text[k + 1..]))
  {
    hide DigitsIn, LetterRun, Letters, Value;
    StripWhole(text, k);
    if k < |text| {
      StripFrom(text, k);
    }
    RunIs(Strip(text), d, Strip(text[k..]));
  }

  lemma {:induction false} RunAtLeast(s: string, n: nat)
    requires n <= |s| && forall j :: 0 <= j < n ==> Value(s[j]).Some?
    ensures n <= LetterRun(s)
  {
    if n > 0 {
      RunAtLeast(s[1..], n - 1);
    }
  }

  lemma {:induction false} RoomGrows(m: nat, n: nat)
    requires m <= n
    ensures Room(m) <= Room(n)
    decreases n - m
  {
    hide Room;
    if m < n {
      RoomNext(m);
      RoomGrows(m + 1, n);
    }
  }

  /** When the target is full, it is too short for the text. */
  lemma FullTarget(text: string, k: nat, d: seq<int>, room: nat)
    requires k < |text| && Digits(d) && Strip(text[..k]) == Letters(d) && Value(text[k]).Some?
    requires Room(|d| + 1) > room
    ensures !Accepts(Strip(text), Some(room))
  {
    hide DigitsIn, LetterRun, Letters, Value, Read, Pads, Room;
    StripWhole(text, k);
    StripFrom(text, k);
    LetterValue(0, text[k]);
    NotSpace(text[k]);
    var s := Strip(text);
    LettersAre(d);
    forall j | 0 <= j < |d| + 1
      ensures Value(s[j]).Some?
    {
      assert j < |d| ==> s[j] == Letters(d)[j];
    }
    RunAtLeast(s, |d| + 1);
    RoomGrows(|d| + 1, LetterRun(s));
  }

  lemma NotSpace(c: char)
    requires Value(c).Some?
    ensures !Space(c)
  {
  }

  lemma LettersAre(d: seq<int>)
    requires Digits(d)
    ensures forall j :: 0 <= j < |d| ==> Value(Letters(d)[j]).Some?
  {
    hide Letter, Value;
    forall j | 0 <= j < |d|
      ensures Value(Letters(d)[j]).Some?
    {
      LetterValue(d[j], ' ');
    }
  }

  lemma PadIsNoLetter(c: char)
    ensures Value(PAD).None? && !Space(PAD)
  {
  }

  /** What may come after the first pad, with n digits before it. */
  lemma PadsAre(n: nat, rest: string)
    ensures [PAD] + rest == Pads(n) <==> (n % 4 == 2 && rest == [PAD]) || (n % 4 == 3 && rest == "")
  {
    assert rest == "" ==> [PAD] + rest == [PAD];
    assert n % 4 == 2 && [PAD] + rest == Pads(n) ==> rest == ([PAD] + rest)[1..];
  }

  method SkipSpaces(text: string, start: nat) returns (k: nat)
    requires start <= |text|
    ensures start <= k <= |text| && Strip(text[start..]) == Strip(text[k..])
    ensures k < |text| ==> !Space(text[k]) && Strip(text[k..]) == [text[k]] + Strip(text[k + 1..])
    ensures k == |text| ==> Strip(text[k..]) == ""
  {
    k := start;
    while k < |text| && Space(text[k])
      invariant start <= k <= |text| && Strip(text[start..]) == Strip(text[k..])
    {
      StripFrom(text, k);
      k := k + 1;
    }
    if k < |text| {
      StripFrom(text, k);
    }
  }

  /** b64_decode. With a target it accepts exactly the canonical texts it has room for, whatever white space is in
      them; without one it accepts left-over bits too. */
  method Decode(text: string, target: array?<Byte>) returns (r: Option<nat>)
    requires Ascii(text)
    modifies if target == null then {} else {target}
    ensures r.Some? <==> Accepts(Strip(text), if target == null then None else Some(target.Length))
    ensures r.Some? ==>
              var out := Read(DigitsIn(Strip(text))).out;
              r.value == |out| && (target != null ==> r.value <= target.Length && target[..r.value] == out)
  {
    hide Strip, Letters, Value, Read, Room, DigitsIn, LetterRun, Pads;
    var k, state, tarindex, stop, d := ReadDigits(text, target);
    PadIsNoLetter(PAD);
    if stop.NoRoom? {
      FullTarget(text, k, d, target.Length);
      return None;
    }
    AfterDigits(text, k, d);
    PadsStart(|d|);
    if stop.BadCharacter? {
      return None;
    }
    if stop.AtEnd? {
      if state != 0 {
        return None;
      }
      return Some(tarindex);
    }
    PadsAre(|d|, Strip(text[k + 1..]));
    k := k + 1;
    if state == 0 || state == 1 {
      return None;
    }
    if state == 2 {
      k := SkipSpaces(text, k);
      if k == |text| || text[k] != PAD {
        return None;
      }
      k := k + 1;
      assert Strip(text[k..]) == "" <==> [PAD] + Strip(text[k..]) == [PAD];
    }
    k := SkipSpaces(text, k);
    if k < |text| {
      return None;
    }
    if target != null && target[tarindex] != 0 {
      return None;
    }
    return Some(tarindex);
  }

  lemma PadsStart(n: nat)
    ensures Pads(n) == "" <==> n % 4 <= 1
    ensures Pads(n) != "" ==> Pads(n)[0] == PAD
  {
  }

  /** Encoding into a buffer of b64_output_encode_len octets, and decoding that, with the same or other white space,
      into one of b64_output_decode_len octets, gives the octets back. */
  method RoundTrip(x: seq<Byte>, spaced: string) returns (y: seq<Byte>)
    requires Ascii(spaced) && Strip(spaced) == Encoded(x)
    ensures y == x
  {
    hide Strip, Encoded, Read, DigitsIn, Accepts;
    EncodedLength(x);
    Lengths(|x|);
    var text := new char[EncodeLen(|x|)](_ => ' ');
    var length := Encode(x, text);
    var target := new Byte[DecodeLen(length.value)](_ => 0);
    EncodingIsAccepted(x, target.Length);
    var n := Decode(spaced, target);
    return target[..n.value];
  }

  /** The room asked for is enough, and at most four characters or octets more than that. */
  lemma Lengths(n: nat)
    ensures var length := 4 * ((n + 2) / 3);
            && EncodeLen(n) == length + 1 + (if n % 3 == 1 then 0 else 4)
            && Need(n) <= DecodeLen(length) == 3 * ((n + 2) / 3) + 4
  {
    var g := (n + 2) / 3;
    assert n <= 3 * g && (n + 4) / 3 >= g;
    assert 4 * g / 4 == g;
  }

  // The alphabet and the numbers: table 1 and section 4 of RFC 4648.

  lemma LetterIs(v: int)
    requires Digit(v)
    ensures Letter(v) == ("ABCDEFGHIJKLMNOPQRSTUVWXYZ" + "abcdefghijklmnopqrstuvwxyz" + "0123456789+/")[v]
  {
    assert v < 26 ==> Letter(v) == "ABCDEFGHIJKLMNOPQRSTUVWXYZ"[v];
    assert 26 <= v < 52 ==> Letter(v) == "abcdefghijklmnopqrstuvwxyz"[v - 26];
    assert 52 <= v ==> Letter(v) == "0123456789+/"[v - 52];
  }

  /** A number written with the digits `d`, the first counting most. */
  function Positional(base: nat, d: seq<int>): int {
    if d == [] then 0 else base * Positional(base, d[..|d| - 1]) + d[|d| - 1]
  }

  lemma PositionalMore(base: nat, d: seq<int>, v: int)
    ensures Positional(base, d + [v]) == base * Positional(base, d) + v
  {
    assert (d + [v])[..|d|] == d;
  }

  lemma SextetsValue(a: Byte, b: Byte, c: Byte)
    ensures var d := Sextets(a, b, c);
            0x40 * (0x40 * (0x40 * d[0] + d[1]) + d[2]) + d[3] == 0x100 * (0x100 * a as int + b) + c
  {
  }

  /** Four digits more make what three octets more do. */
  lemma QuantumValue(d: seq<int>, x: seq<Byte>, a: Byte, b: Byte, c: Byte)
    requires Positional(0x40, d) == Positional(0x100, x)
    ensures Positional(0x40, d + Sextets(a, b, c)) == Positional(0x100, x + [a, b, c])
  {
    hide Positional, Sextets;
    var e := Sextets(a, b, c);
    SextetsValue(a, b, c);
    PositionalMore(0x40, d, e[0]);
    PositionalMore(0x40, d + [e[0]], e[1]);
    PositionalMore(0x40, d + [e[0]] + [e[1]], e[2]);
    PositionalMore(0x40, d + [e[0]] + [e[1]] + [e[2]], e[3]);
    assert d + e == d + [e[0]] + [e[1]] + [e[2]] + [e[3]];
    PositionalMore(0x100, x, a);
    PositionalMore(0x100, x + [a], b);
    PositionalMore(0x100, x + [a] + [b], c);
    assert x + [a, b, c] == x + [a] + [b] + [c];
  }

  lemma {:induction false} GroupsValue(x: seq<Byte>)
    requires |x| % 3 == 0
    ensures Positional(0x40, Groups(x)) == Positional(0x100, x)
  {
    hide Positional, Sextets;
    if x == [] {
      NoDigits();
    } else {
      var n := |x| - 3;
      GroupsValue(x[..n]);
      QuantumValue(Groups(x[..n]), x[..n], x[n], x[n + 1], x[n + 2]);
      assert x == x[..n] + [x[n], x[n + 1], x[n + 2]];
    }
  }

  lemma NoDigits()
    ensures Positional(0x40, []) == Positional(0x100, []) == 0
  {
  }

  /** The encoding: letters for the digits to base 64 of the octets as one number, this moved up to fill the last
      digit, and as many '=' as octets are missing from the last three. */
  lemma EncodedValue(x: seq<Byte>) returns (d: seq<int>)
    ensures Digits(d) && Encoded(x) == Letters(d) + (if |x| % 3 == 0 then "" else if |x| % 3 == 1 then "==" else "=")
    ensures |d| == (4 * |x| + 2) / 3
    ensures Positional(0x40, d) ==
            Positional(0x100, x) * (if |x| % 3 == 0 then 1 else if |x| % 3 == 1 then 0x10 else 4)
  {
    hide Positional, Letters, Sextets, Groups;
    var n := |x| - |x| % 3;
    var g := Groups(x[..n]);
    GroupsValue(x[..n]);
    if |x| % 3 == 0 {
      assert x[..n] == x;
      d := g;
    } else if |x| % 3 == 1 {
      var e := Sextets(x[n], 0, 0);
      TailValue1(x[n]);
      PositionalMore(0x40, g, e[0]);
      PositionalMore(0x40, g + [e[0]], e[1]);
      PositionalMore(0x100, x[..n], x[n]);
      assert x == x[..n] + [x[n]];
      d := g + [e[0]] + [e[1]];
      assert d == g + e[..2];
      LettersConcat(g, e[..2]);
    } else {
      var e := Sextets(x[n], x[n + 1], 0);
      TailValue2(x[n], x[n + 1]);
      PositionalMore(0x40, g, e[0]);
      PositionalMore(0x40, g + [e[0]], e[1]);
      PositionalMore(0x40, g + [e[0]] + [e[1]], e[2]);
      PositionalMore(0x100, x[..n], x[n]);
      PositionalMore(0x100, x[..n] + [x[n]], x[n + 1]);
      assert x == x[..n] + [x[n]] + [x[n + 1]];
      d := g + [e[0]] + [e[1]] + [e[2]];
      assert d == g + e[..3];
      LettersConcat(g, e[..3]);
    }
  }

  lemma TailValue1(a: Byte)
    ensures var d := Sextets(a, 0, 0); 0x40 * d[0] + d[1] == 0x10 * a as int
  {
  }

  lemma TailValue2(a: Byte, b: Byte)
    ensures var d := Sextets(a, b, 0); 0x40 * (0x40 * d[0] + d[1]) + d[2] == 4 * (0x100 * a as int + b)
  {
  }
}
