/** Canonical composition, with the Hangul syllables computed and the tables abstract. */
module Utf8Compose {
  import opened Wrappers
  import opened Utf8Order

  const SBASE := 0xAC00
  const LBASE := 0x1100
  const VBASE := 0x1161
  const TBASE := 0x11A7
  const LCOUNT := 19
  const VCOUNT := 21
  const TCOUNT := 28
  const NCOUNT := 588
  const SCOUNT := 11172

  /** The property tables: combining classes, full decompositions, and the compositions the options allow. */
  datatype Tables = Tables(
    ccc: int -> nat, decomposition: int -> Option<seq<int>>, combination: (int, int) -> Option<int>)

  function Combination(t: Tables, a: int, c: int): Option<int> { t.combination(a, c) }

  predicate Syllable(uc: int) { 0 <= uc - SBASE < SCOUNT }

  predicate LeadingJamo(uc: int) { 0 <= uc - LBASE < LCOUNT }

  predicate VowelJamo(uc: int) { 0 <= uc - VBASE < VCOUNT }

  /** TBASE itself is no jamo, but the code takes it for one. */
  predicate TrailingIndex(uc: int) { 0 <= uc - TBASE < TCOUNT }

  /** The characters a composition makes are starters, and so are the syllables. */
  ghost predicate TablesOk(t: Tables) {
    && (forall a, c :: Combination(t, a, c).Some? ==> Class(t.ccc, Combination(t, a, c).value) == 0)
    && (forall uc :: Syllable(uc) ==> Class(t.ccc, uc) == 0)
  }

  /** What a starter and a character become together. */
  function Joined(t: Tables, a: int, c: int): Option<int> {
    if LeadingJamo(a) && VowelJamo(c) then Some(SBASE + ((a - LBASE) * VCOUNT + (c - VBASE)) * TCOUNT)
    else if Syllable(a) && (a - SBASE) % TCOUNT == 0 && TrailingIndex(c) then Some(a + (c - TBASE))
    else Combination(t, a, c)
  }

  // Composition as in the Unicode Standard, section 3.11, D115 to D117, on what is composed so far, but for TBASE.

  /** The place of the last starter, or -1. */
  function LastStarter(t: Tables, s: seq<int>): (i: int)
    ensures -1 <= i < |s|
    ensures i >= 0 ==> Class(t.ccc, s[i]) == 0
    ensures forall k :: i < k < |s| ==> Class(t.ccc, s[k]) != 0
  {
    if s == [] then -1
    else if Class(t.ccc, s[|s| - 1]) == 0 then |s| - 1
    else LastStarter(t, s[..|s| - 1])
  }

  /** Something after place i keeps c from the character there. */
  predicate Blocked(t: Tables, s: seq<int>, i: int, c: int)
    requires -1 <= i < |s|
  {
    exists k :: i < k < |s| && (Class(t.ccc, s[k]) == 0 || Class(t.ccc, s[k]) >= Class(t.ccc, c))
  }

  function Next(t: Tables, s: seq<int>, c: int): seq<int> {
    var i := LastStarter(t, s);
    if i >= 0 && !Blocked(t, s, i, c) && Joined(t, s[i], c).Some? then s[i := Joined(t, s[i], c).value]
    else s + [c]
  }

  function Compose(t: Tables, s: seq<int>): seq<int> {
    if s == [] then [] else Next(t, Compose(t, s[..|s| - 1]), s[|s| - 1])
  }

  // The loop.

  /** `max` is the highest class after place i, or -1 when there is nothing. */
  ghost predicate Highest(t: Tables, s: seq<int>, i: int, max: int)
    requires -1 <= i < |s|
  {
    && -1 <= max
    && (forall k :: i < k < |s| ==> 0 < Class(t.ccc, s[k]) <= max)
    && (max >= 0 ==> exists k :: i < k < |s| && Class(t.ccc, s[k]) == max)
  }

  lemma BlockedIff(t: Tables, s: seq<int>, i: int, max: int, c: int)
    requires -1 <= i < |s| && Highest(t, s, i, max)
    ensures Blocked(t, s, i, c) <==> Class(t.ccc, c) <= max
  {
  }

  lemma LastStarterIs(t: Tables, s: seq<int>, i: int)
    requires -1 <= i < |s| && (i >= 0 ==> Class(t.ccc, s[i]) == 0)
    requires forall k :: i < k < |s| ==> Class(t.ccc, s[k]) != 0
    ensures LastStarter(t, s) == i
  {
  }

  lemma JoinedStarter(t: Tables, a: int, c: int)
    requires TablesOk(t) && Joined(t, a, c).Some?
    ensures Class(t.ccc, Joined(t, a, c).value) == 0
  {
    if LeadingJamo(a) && VowelJamo(c) {
      assert (a - LBASE) * VCOUNT + (c - VBASE) <= 18 * 21 + 20;
      assert Syllable(Joined(t, a, c).value);
    } else if Syllable(a) && (a - SBASE) % TCOUNT == 0 && TrailingIndex(c) {
      assert a - SBASE <= 398 * 28;
      assert Syllable(Joined(t, a, c).value);
    }
  }

  /** What the loop knows: `starter` is the last starter, `max` the highest class after it. */
  ghost predicate Scanned(t: Tables, s: seq<int>, starter: int, max: int) {
    && -1 <= starter < |s|
    && (starter >= 0 ==> Class(t.ccc, s[starter]) == 0)
    && (forall k :: starter < k < |s| ==> Class(t.ccc, s[k]) != 0)
    && Highest(t, s, starter, max)
  }

  lemma ScanJoin(t: Tables, s: seq<int>, starter: int, max: int, c: int)
    requires TablesOk(t) && Scanned(t, s, starter, max) && 0 <= starter && Class(t.ccc, c) > max
             && Joined(t, s[starter], c).Some?
    ensures Next(t, s, c) == s[starter := Joined(t, s[starter], c).value] && Scanned(t, Next(t, s, c), starter, max)
  {
    JoinedStarter(t, s[starter], c);
    hide Joined;
    LastStarterIs(t, s, starter);
    BlockedIff(t, s, starter, max, c);
    var u := s[starter := Joined(t, s[starter], c).value];
    assert forall k :: starter < k < |s| ==> u[k] == s[k];
  }

  lemma ScanKeep(t: Tables, s: seq<int>, starter: int, max: int, c: int)
    requires Scanned(t, s, starter, max)
    requires starter < 0 || Class(t.ccc, c) <= max || Joined(t, s[starter], c).None?
    ensures Next(t, s, c) == s + [c]
    ensures if Class(t.ccc, c) == 0 then Scanned(t, s + [c], |s|, -1)
            else Scanned(t, s + [c], starter, if Class(t.ccc, c) > max then Class(t.ccc, c) else max)
  {
    hide Joined;
    LastStarterIs(t, s, starter);
    BlockedIff(t, s, starter, max, c);
    var u := s + [c];
    assert u[|s|] == c && forall k :: 0 <= k < |s| ==> u[k] == s[k];
  }

  /** The composing loop of utf8proc_normalize_utf32, in place; what its result has to do with the standard, StandardIs
      says. */
  method ComposeInPlace(buffer: array<int>, length: nat, t: Tables) returns (r: nat)
    requires length <= buffer.Length && TablesOk(t)
    modifies buffer
    ensures r <= length && buffer[..r] == Compose(t, old(buffer[..length]))
  {
    hide Compose, Next, TablesOk, Scanned;
    ghost var s := buffer[..length];
    var starter: int, max: int := -1, -1;
    var wpos := 0;
    ScannedNothing(t, s);
    for rpos := 0 to length
      invariant 0 <= wpos <= rpos && -1 <= starter < wpos && -1 <= max
      invariant buffer[..wpos] == Compose(t, s[..rpos]) && Scanned(t, buffer[..wpos], starter, max)
      invariant forall k :: rpos <= k < length ==> buffer[k] == s[k]
    {
      var current := buffer[rpos];
      ghost var out := buffer[..wpos];
      ComposeNext(t, s, rpos);
      if starter >= 0 && Class(t.ccc, current) > max {
        assert buffer[starter] == out[starter];
        var joined := Joined(t, buffer[starter], current);
        if joined.Some? {
          ScanJoin(t, out, starter, max, current);
          buffer[starter] := joined.value;
          assert buffer[..wpos] == out[starter := joined.value];
          continue;
        }
      }
      ScannedRange(t, out, starter, max);
      ScanKeep(t, out, starter, max, current);
      buffer[wpos] := current;
      if Class(t.ccc, current) != 0 {
        if Class(t.ccc, current) > max {
          max := Class(t.ccc, current);
        }
      } else {
        starter, max := wpos, -1;
      }
      wpos := wpos + 1;
      assert buffer[..wpos] == out + [current];
    }
    assert s[..length] == s;
    return wpos;
  }

  lemma ScannedNothing(t: Tables, s: seq<int>)
    ensures Compose(t, s[..0]) == [] && Scanned(t, [], -1, -1)
  {
  }

  lemma ScannedRange(t: Tables, s: seq<int>, starter: int, max: int)
    requires Scanned(t, s, starter, max)
    ensures -1 <= starter < |s|
  {
  }

  lemma ComposeNext(t: Tables, s: seq<int>, n: nat)
    requires n < |s|
    ensures Compose(t, s[..n + 1]) == Next(t, Compose(t, s[..n]), s[n])
  {
    assert s[..n + 1][..n] == s[..n];
  }

  // The standard.

  /** A syllable without a trailing consonant. */
  predicate Open(uc: int) { Syllable(uc) && (uc - SBASE) % TCOUNT == 0 }

  /** Section 3.12; in the standard TBASE, which is 0x11A7, is no trailing consonant. */
  function StandardJoined(t: Tables, a: int, c: int): Option<int> {
    if 0x1100 <= a <= 0x1112 && 0x1161 <= c <= 0x1175 then Some(0xAC00 + (a - 0x1100) * 588 + (c - 0x1161) * 28)
    else if 0xAC00 <= a <= 0xD7A3 && (a - 0xAC00) % 28 == 0 && 0x11A8 <= c <= 0x11C2 then Some(a + (c - 0x11A7))
    else Combination(t, a, c)
  }

  function StandardNext(t: Tables, s: seq<int>, c: int): seq<int> {
    var i := LastStarter(t, s);
    if i >= 0 && !Blocked(t, s, i, c) && StandardJoined(t, s[i], c).Some?
    then s[i := StandardJoined(t, s[i], c).value]
    else s + [c]
  }

  function StandardCompose(t: Tables, s: seq<int>): seq<int> {
    if s == [] then [] else StandardNext(t, StandardCompose(t, s[..|s| - 1]), s[|s| - 1])
  }

  /** TBASE is a starter that is in no composition, as in the tables of the standard. */
  ghost predicate TBaseAlone(t: Tables) {
    && Class(t.ccc, TBASE) == 0
    && (forall c :: Combination(t, TBASE, c).None?)
    && (forall a :: Open(a) ==> Combination(t, a, TBASE).None?)
    && (forall a, c :: Combination(t, a, c) != Some(TBASE))
  }

  /** The end of what is composed so far is an open syllable that nothing keeps from TBASE. */
  predicate Awaits(t: Tables, out: seq<int>) {
    var i := LastStarter(t, out);
    i >= 0 && !Blocked(t, out, i, TBASE) && Open(out[i])
  }

  /** Some TBASE meets an open syllable. */
  predicate Meets(t: Tables, s: seq<int>) {
    exists n :: 0 <= n < |s| && s[n] == TBASE && Awaits(t, Compose(t, s[..n]))
  }

  /** From here on the two results differ: one keeps a TBASE after the open syllable at n, the other has none there. */
  predicate Parted(t: Tables, c: seq<int>, s: seq<int>, n: nat) {
    && n < |c| && n + 1 < |s| && Class(t.ccc, c[n]) == 0
    && Open(s[n]) && s[n + 1] == TBASE
    && (n + 1 < |c| && c[n + 1] == TBASE ==> !Open(c[n]))
  }

  lemma MeetsNext(t: Tables, s: seq<int>)
    requires s != []
    ensures var n := |s| - 1;
            Meets(t, s) <==> Meets(t, s[..n]) || (s[n] == TBASE && Awaits(t, Compose(t, s[..n])))
  {
    hide Awaits, Compose;
    var n := |s| - 1;
    if Meets(t, s) {
      var k :| 0 <= k < |s| && s[k] == TBASE && Awaits(t, Compose(t, s[..k]));
      if k < n {
        assert s[..n][k] == s[k] && s[..n][..k] == s[..k];
      }
    }
    if Meets(t, s[..n]) {
      var k :| 0 <= k < n && s[..n][k] == TBASE && Awaits(t, Compose(t, s[..n][..k]));
      assert s[..n][..k] == s[..k] && s[k] == TBASE;
    }
  }

  lemma SameJoined(t: Tables, a: int, c: int)
    ensures !(Open(a) && c == TBASE) ==> Joined(t, a, c) == StandardJoined(t, a, c)
    ensures Open(a) && c == TBASE ==> Joined(t, a, c) == Some(a) && StandardJoined(t, a, c) == Combination(t, a, c)
  {
  }

  lemma NoTBaseJoined(t: Tables, a: int, c: int)
    requires TBaseAlone(t)
    ensures Joined(t, a, c) != Some(TBASE) && StandardJoined(t, TBASE, c).None?
  {
  }

  lemma Parts(t: Tables, out: seq<int>)
    requires TBaseAlone(t) && Awaits(t, out)
    ensures out != [] && Parted(t, Next(t, out, TBASE), StandardNext(t, out, TBASE), |out| - 1)
  {
    hide Joined, StandardJoined, Syllable;
    var i := LastStarter(t, out);
    SameJoined(t, out[i], TBASE);
    assert i == |out| - 1 && out[i := out[i]] == out;
  }

  lemma CodeParted(t: Tables, c: seq<int>, s: seq<int>, n: nat, ch: int)
    requires TablesOk(t) && TBaseAlone(t) && Parted(t, c, s, n)
    ensures Parted(t, Next(t, c, ch), s, n)
  {
    hide Joined, Syllable;
    var i := LastStarter(t, c);
    assert i >= n;
    var next := Next(t, c, ch);
    if next != c + [ch] {
      JoinedStarter(t, c[i], ch);
      NoTBaseJoined(t, c[i], ch);
    } else if |c| == n + 1 && ch == TBASE {
      SameJoined(t, c[n], TBASE);
    }
  }

  lemma StandardParted(t: Tables, c: seq<int>, s: seq<int>, n: nat, ch: int)
    requires TBaseAlone(t) && Parted(t, c, s, n)
    ensures Parted(t, c, StandardNext(t, s, ch), n)
  {
    hide StandardJoined, Syllable;
    var i := LastStarter(t, s);
    assert i >= n + 1;
    NoTBaseJoined(t, TBASE, ch);
  }

  lemma SameNext(t: Tables, out: seq<int>, ch: int)
    requires !(ch == TBASE && Awaits(t, out))
    ensures Next(t, out, ch) == StandardNext(t, out, ch)
  {
    hide Joined, StandardJoined;
    var i := LastStarter(t, out);
    if i >= 0 {
      SameJoined(t, out[i], ch);
    }
  }

  lemma {:induction false} Compared(t: Tables, s: seq<int>) returns (n: nat)
    requires TablesOk(t) && TBaseAlone(t)
    ensures if Meets(t, s) then Parted(t, Compose(t, s), StandardCompose(t, s), n)
            else Compose(t, s) == StandardCompose(t, s)
  {
    hide Meets, Awaits, Parted, Next, StandardNext, TablesOk, TBaseAlone;
    n := 0;
    if s == [] {
      MeetsNothing(t);
    } else {
      var before, ch := s[..|s| - 1], s[|s| - 1];
      var out, std := Compose(t, before), StandardCompose(t, before);
      n := Compared(t, before);
      MeetsNext(t, s);
      if Meets(t, before) {
        CodeParted(t, out, std, n, ch);
        StandardParted(t, Next(t, out, ch), std, n, ch);
      } else if ch == TBASE && Awaits(t, out) {
        Parts(t, out);
        n := |out| - 1;
      } else {
        SameNext(t, out, ch);
      }
    }
  }

  lemma MeetsNothing(t: Tables)
    ensures !Meets(t, [])
  {
  }

  lemma PartedDiffer(t: Tables, s: seq<int>, n: nat)
    ensures !Parted(t, s, s, n)
  {
  }

  /** What the code composes is the composition of section 3.11 exactly when no TBASE meets an open syllable. */
  lemma StandardIs(t: Tables, s: seq<int>)
    requires TablesOk(t) && TBaseAlone(t)
    ensures Compose(t, s) == StandardCompose(t, s) <==> !Meets(t, s)
  {
    hide Meets, Parted, Compose, StandardCompose, TablesOk, TBaseAlone;
    var n := Compared(t, s);
    PartedDiffer(t, Compose(t, s), n);
  }

  // Hangul.

  /** The Hangul part of utf8proc_decompose_char. */
  function Jamo(uc: int): (r: seq<int>)
    requires Syllable(uc)
    ensures 2 <= |r| <= 3
  {
    var i := uc - SBASE;
    [LBASE + i / NCOUNT, VBASE + i % NCOUNT / TCOUNT] + if i % TCOUNT == 0 then [] else [TBASE + i % TCOUNT]
  }

  /** Syllables and jamo are starters, and the tables combine none of them. */
  ghost predicate HangulOk(t: Tables) {
    && TablesOk(t)
    && (forall uc :: LeadingJamo(uc) || VowelJamo(uc) || TrailingIndex(uc) ==> Class(t.ccc, uc) == 0)
    && (forall a, c :: Syllable(a) && LeadingJamo(c) ==> Combination(t, a, c).None?)
  }

  function Decomposed(s: seq<int>): seq<int>
    requires forall uc <- s :: Syllable(uc)
  {
    if s == [] then [] else Decomposed(s[..|s| - 1]) + Jamo(s[|s| - 1])
  }

  lemma JamoParts(uc: int)
    requires Syllable(uc)
    ensures var i := uc - SBASE;
            && 0 <= i / NCOUNT < LCOUNT && 0 <= i % NCOUNT / TCOUNT < VCOUNT
            && uc == SBASE + (i / NCOUNT * VCOUNT + i % NCOUNT / TCOUNT) * TCOUNT + i % TCOUNT
  {
    var i := uc - SBASE;
    assert i % NCOUNT % TCOUNT == i % TCOUNT by {
      assert i == i / NCOUNT * 588 + i % NCOUNT;
      assert i / NCOUNT * 588 == i / NCOUNT * 21 * 28;
    }
  }

  lemma NextStarter(t: Tables, s: seq<int>, c: int)
    requires s != [] && Class(t.ccc, s[|s| - 1]) == 0
    ensures var a := s[|s| - 1];
            Next(t, s, c) == if Joined(t, a, c).Some? then s[|s| - 1 := Joined(t, a, c).value] else s + [c]
  {
    hide Joined;
  }

  lemma ComposeConcat(t: Tables, a: seq<int>, c: int)
    ensures Compose(t, a + [c]) == Next(t, Compose(t, a), c)
  {
    assert (a + [c])[..|a|] == a;
  }

  /** Composing the jamo of one more syllable. */
  lemma ComposeSyllable(t: Tables, before: seq<int>, out: seq<int>, uc: int)
    requires HangulOk(t) && Syllable(uc) && Compose(t, before) == out && LeadingStays(t, out)
    ensures Compose(t, before + Jamo(uc)) == out + [uc]
  {
    hide Compose, Next;
    JamoParts(uc);
    var i, jamo := uc - SBASE, Jamo(uc);
    var l, v := jamo[0], jamo[1];
    var lv := uc - i % TCOUNT;
    ComposeConcat(t, before, l);
    ComposeConcat(t, before + [l], v);
    NextStarter(t, out + [l], v);
    assert Joined(t, l, v) == Some(lv);
    assert Compose(t, before + [l] + [v]) == out + [lv];
    assert before + [l] + [v] == before + [l, v];
    if i % TCOUNT != 0 {
      var tr := jamo[2];
      ComposeConcat(t, before + [l, v], tr);
      NextStarter(t, out + [lv], tr);
      LvMultiple(uc);
      assert Joined(t, lv, tr) == Some(uc);
      assert before + [l, v] + [tr] == before + jamo;
    } else {
      assert jamo == [l, v];
    }
  }

  lemma LvMultiple(uc: int)
    requires Syllable(uc)
    ensures var lv := uc - (uc - SBASE) % TCOUNT;
            Syllable(lv) && (lv - SBASE) % TCOUNT == 0
  {
  }

  /** A leading jamo is not joined to the end of `out`. */
  ghost predicate LeadingStays(t: Tables, out: seq<int>) { forall l :: LeadingJamo(l) ==> Next(t, out, l) == out + [l] }

  lemma SyllableStays(t: Tables, out: seq<int>)
    requires HangulOk(t) && (out != [] ==> Syllable(out[|out| - 1]))
    ensures LeadingStays(t, out)
  {
    forall l | LeadingJamo(l)
      ensures Next(t, out, l) == out + [l]
    {
      if out != [] {
        NextStarter(t, out, l);
      }
    }
  }

  ghost predicate AllStarters(t: Tables, s: seq<int>) { forall k :: 0 <= k < |s| ==> Class(t.ccc, s[k]) == 0 }

  lemma JamoAllStarters(t: Tables, uc: int)
    requires HangulOk(t) && Syllable(uc)
    ensures AllStarters(t, Jamo(uc))
  {
    JamoParts(uc);
    var jamo := Jamo(uc);
    assert LeadingJamo(jamo[0]) && VowelJamo(jamo[1]) && (|jamo| == 3 ==> TrailingIndex(jamo[2]));
  }

  lemma {:induction false} DecomposedStarters(t: Tables, s: seq<int>)
    requires HangulOk(t) && forall uc <- s :: Syllable(uc)
    ensures AllStarters(t, Decomposed(s))
  {
    hide HangulOk, Jamo;
    if s != [] {
      DecomposedStarters(t, s[..|s| - 1]);
      JamoAllStarters(t, s[|s| - 1]);
    }
  }

  lemma AllStartersOrdered(t: Tables, s: seq<int>)
    requires AllStarters(t, s)
    ensures Ordered(t.ccc, s)
  {
  }

  /** Decomposing syllables and composing again restores the string; the ordering in between changes nothing. */
  lemma {:induction false} HangulRoundTrip(t: Tables, s: seq<int>)
    requires HangulOk(t) && forall uc <- s :: Syllable(uc)
    ensures Compose(t, Decomposed(s)) == s && Ordered(t.ccc, Decomposed(s))
  {
    hide Next, HangulOk, Jamo, AllStarters, LeadingStays;
    if s != [] {
      var n := |s| - 1;
      HangulRoundTrip(t, s[..n]);
      SyllableStays(t, s[..n]);
      ComposeSyllable(t, Decomposed(s[..n]), s[..n], s[n]);
      assert s == s[..n] + [s[n]];
    }
    DecomposedStarters(t, s);
    AllStartersOrdered(t, Decomposed(s));
  }

  // Strings with TBASE in them, which is no syllable and no jamo.

  predicate SyllableOrTBase(uc: int) { Syllable(uc) || uc == TBASE }

  predicate Mixed(s: seq<int>) { forall i :: 0 <= i < |s| ==> SyllableOrTBase(s[i]) }

  /** Nor do the tables combine TBASE with anything. */
  ghost predicate TBaseOk(t: Tables) {
    && HangulOk(t) && Combination(t, TBASE, TBASE).None?
    && (forall uc :: Syllable(uc) ==> Combination(t, uc, TBASE).None?)
    && (forall uc :: LeadingJamo(uc) ==> Combination(t, TBASE, uc).None?)
  }

  function Unpacked(uc: int): seq<int>
    requires SyllableOrTBase(uc)
  {
    if Syllable(uc) then Jamo(uc) else [uc]
  }

  function UnpackedAll(s: seq<int>): seq<int>
    requires Mixed(s)
  {
    if s == [] then [] else UnpackedAll(s[..|s| - 1]) + Unpacked(s[|s| - 1])
  }

  /** What composing leaves of a string: every TBASE after an open syllable is gone. */
  function Squeezed(s: seq<int>): (r: seq<int>)
    ensures |r| <= |s|
  {
    if s == [] then []
    else
      var out := Squeezed(s[..|s| - 1]);
      if s[|s| - 1] == TBASE && out != [] && Open(out[|out| - 1]) then out else out + [s[|s| - 1]]
  }

  /** Some TBASE is right after an open syllable. */
  predicate Absorbs(s: seq<int>) { exists i :: 0 <= i < |s| - 1 && Open(s[i]) && s[i + 1] == TBASE }

  lemma TBaseStays(t: Tables, out: seq<int>)
    requires TBaseOk(t) && (out != [] ==> SyllableOrTBase(out[|out| - 1]))
    ensures LeadingStays(t, out)
  {
    forall l | LeadingJamo(l)
      ensures Next(t, out, l) == out + [l]
    {
      if out != [] {
        assert TrailingIndex(TBASE);
        NextStarter(t, out, l);
      }
    }
  }

  lemma NextTBase(t: Tables, out: seq<int>)
    requires TBaseOk(t) && (out != [] ==> SyllableOrTBase(out[|out| - 1]))
    ensures Next(t, out, TBASE) == if out != [] && Open(out[|out| - 1]) then out else out + [TBASE]
  {
    if out != [] {
      var a := out[|out| - 1];
      assert TrailingIndex(TBASE);
      NextStarter(t, out, TBASE);
      assert Open(a) ==> Joined(t, a, TBASE) == Some(a);
      assert out[|out| - 1 := a] == out;
    }
  }

  lemma {:induction false} SqueezedMixed(s: seq<int>)
    requires Mixed(s)
    ensures Mixed(Squeezed(s))
  {
    hide Open, SyllableOrTBase;
    if s != [] {
      SqueezedMixed(s[..|s| - 1]);
    }
  }

  /** Composing what one more character unpacks to. */
  lemma ComposeMore(t: Tables, before: seq<int>, out: seq<int>, uc: int)
    requires TBaseOk(t) && Mixed(out) && SyllableOrTBase(uc) && Compose(t, before) == out
    ensures Compose(t, before + Unpacked(uc)) ==
            if uc == TBASE && out != [] && Open(out[|out| - 1]) then out else out + [uc]
  {
    hide Compose, Next, HangulOk, Jamo, LeadingStays, Open;
    if Syllable(uc) {
      TBaseStays(t, out);
      ComposeSyllable(t, before, out, uc);
    } else {
      NextTBase(t, out);
      ComposeConcat(t, before, TBASE);
    }
  }

  lemma {:induction false} ComposeUnpacked(t: Tables, s: seq<int>)
    requires TBaseOk(t) && Mixed(s)
    ensures Compose(t, UnpackedAll(s)) == Squeezed(s)
  {
    hide Next, TBaseOk, Unpacked, Open, SyllableOrTBase;
    if s != [] {
      var n := |s| - 1;
      ComposeUnpacked(t, s[..n]);
      SqueezedMixed(s[..n]);
      ComposeMore(t, UnpackedAll(s[..n]), Squeezed(s[..n]), s[n]);
    }
  }

  lemma SameEnd(a: seq<int>, b: seq<int>, c: int)
    ensures a + [c] == b + [c] <==> a == b
  {
    assert (a + [c])[..|a|] == a && (b + [c])[..|b|] == b;
  }

  lemma {:induction false} SqueezedIff(s: seq<int>)
    ensures Squeezed(s) == s <==> !Absorbs(s)
  {
    hide Open, Absorbs;
    if s == [] {
      AbsorbsNothing();
    } else {
      var n := |s| - 1;
      SqueezedIff(s[..n]);
      AbsorbsNext(s);
      SameEnd(Squeezed(s[..n]), s[..n], s[n]);
      assert s == s[..n] + [s[n]];
    }
  }

  lemma AbsorbsNothing()
    ensures !Absorbs([])
  {
  }

  lemma AbsorbsNext(s: seq<int>)
    requires s != []
    ensures var n := |s| - 1;
            Absorbs(s) <==> Absorbs(s[..n]) || (n > 0 && Open(s[n - 1]) && s[n] == TBASE)
  {
    hide Open;
    var n := |s| - 1;
    if Absorbs(s) {
      var i :| 0 <= i < n && Open(s[i]) && s[i + 1] == TBASE;
      if i < n - 1 {
        assert s[..n][i] == s[i] && s[..n][i + 1] == s[i + 1];
      }
    }
    if Absorbs(s[..n]) {
      var i :| 0 <= i < n - 1 && Open(s[..n][i]) && s[..n][i + 1] == TBASE;
      assert Open(s[i]) && s[i + 1] == TBASE;
    }
  }

  /** Strings of syllables and TBASE come back exactly when no TBASE is right after an open syllable. */
  lemma TBaseRoundTrip(t: Tables, s: seq<int>)
    requires TBaseOk(t) && Mixed(s)
    ensures Compose(t, UnpackedAll(s)) == s <==> !Absorbs(s)
    ensures Ordered(t.ccc, UnpackedAll(s))
  {
    hide Compose, Squeezed, Absorbs, TBaseOk, AllStarters;
    ComposeUnpacked(t, s);
    SqueezedIff(s);
    UnpackedStarters(t, s);
    AllStartersOrdered(t, UnpackedAll(s));
  }

  lemma {:induction false} UnpackedStarters(t: Tables, s: seq<int>)
    requires TBaseOk(t) && Mixed(s)
    ensures AllStarters(t, UnpackedAll(s))
  {
    hide Unpacked, TBaseOk, SyllableOrTBase;
    if s != [] {
      UnpackedStarters(t, s[..|s| - 1]);
      UnpackedStarter(t, s[|s| - 1]);
    }
  }

  lemma UnpackedStarter(t: Tables, uc: int)
    requires TBaseOk(t) && SyllableOrTBase(uc)
    ensures AllStarters(t, Unpacked(uc))
  {
    hide Jamo;
    if Syllable(uc) {
      JamoAllStarters(t, uc);
    } else {
      assert TrailingIndex(uc);
    }
  }

  /** The shortest string that does not come back. */
  lemma TBaseIsLost(t: Tables)
    requires HangulOk(t)
    ensures Compose(t, [SBASE, TBASE]) == [SBASE]
  {
    assert [SBASE][..0] == [] && Compose(t, [SBASE]) == [SBASE];
    ComposeConcat(t, [SBASE], TBASE);
    assert [SBASE] + [TBASE] == [SBASE, TBASE];
    NextStarter(t, [SBASE], TBASE);
    assert Joined(t, SBASE, TBASE) == Some(SBASE) && [SBASE][0 := SBASE] == [SBASE];
  }
}
