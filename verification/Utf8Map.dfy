/** utf8proc_map: decoding and decomposing, ordering, composing, and re-encoding in the same memory. */
module Utf8Map {
  import opened Wrappers
  import opened Utf8
  import opened Utf8Order
  import opened Utf8Compose

  /** SSIZE_MAX / sizeof(utf8proc_int32_t) / 2. */
  const LONGEST: nat := 0x7FFF_FFFF_FFFF_FFFF / 4 / 2

  datatype Length = Count(n: nat) | InvalidUtf8 | Overflow

  /** What utf8proc_decompose_char makes of a code point: with COMPOSE or DECOMPOSE, jamo or what the tables say. */
  function Parts(t: Tables, normalize: bool, uc: int): seq<int> {
    if normalize && Syllable(uc) then Jamo(uc)
    else if normalize && t.decomposition(uc).Some? then t.decomposition(uc).value
    else [uc]
  }

  function PartsAll(t: Tables, normalize: bool, cs: seq<int>): seq<int> {
    if cs == [] then [] else PartsAll(t, normalize, cs[..|cs| - 1]) + Parts(t, normalize, cs[|cs| - 1])
  }

  /** How the decomposing loop ends: the first error decides. */
  function Measure(t: Tables, normalize: bool, s: seq<Byte>, wpos: nat): Length {
    if s == [] then Count(wpos)
    else
      var d := Iterate(s);
      if !d.Char? then InvalidUtf8
      else
        var w := wpos + |Parts(t, normalize, d.uc)|;
        if w > LONGEST then Overflow else Measure(t, normalize, s[d.len..], w)
  }

  lemma {:induction false} PartsAllFirst(t: Tables, normalize: bool, uc: int, cs: seq<int>)
    ensures PartsAll(t, normalize, [uc] + cs) == Parts(t, normalize, uc) + PartsAll(t, normalize, cs)
  {
    hide Parts;
    if cs == [] {
      assert [uc] + cs == [uc] && [uc][..0] == [];
    } else {
      var n := |cs| - 1;
      assert ([uc] + cs)[..n + 1] == [uc] + cs[..n];
      PartsAllFirst(t, normalize, uc, cs[..n]);
    }
  }

  /** The loop succeeds exactly on valid UTF-8 whose decomposition is not too long. */
  lemma {:induction false} MeasureIs(t: Tables, normalize: bool, s: seq<Byte>, wpos: nat)
    requires wpos <= LONGEST
    ensures var cs, m := DecodeAll(s), Measure(t, normalize, s, wpos);
            if cs.None? then !m.Count?
            else
              var total := wpos + |PartsAll(t, normalize, cs.value)|;
              m == if total <= LONGEST then Count(total) else Overflow
    decreases |s|
  {
    hide Parts, PartsAll, Iterate;
    MeasureEnds(t, normalize, s);
    if s != [] {
      var d := Iterate(s);
      if d.Char? {
        var w := wpos + |Parts(t, normalize, d.uc)|;
        var rest := DecodeAll(s[d.len..]);
        if rest.Some? {
          PartsAllFirst(t, normalize, d.uc, rest.value);
        }
        if w <= LONGEST {
          MeasureIs(t, normalize, s[d.len..], w);
        }
      }
    }
  }

  lemma PartsMore(t: Tables, normalize: bool, cs: seq<int>, uc: int)
    ensures PartsAll(t, normalize, cs + [uc]) == PartsAll(t, normalize, cs) + Parts(t, normalize, uc)
  {
    hide Parts;
    assert (cs + [uc])[..|cs|] == cs;
  }

  /** As much of s as fits. */
  function Fitting(s: seq<int>, size: nat): seq<int> { if |s| <= size then s else s[..size] }

  /** The writes of utf8proc_decompose_char at `wpos`: what does not fit is only counted. */
  method WriteParts(buffer: array<int>, wpos: nat, parts: seq<int>, ghost all: seq<int>)
    requires wpos == |all| && Fitting(all, buffer.Length) <= buffer[..]
    modifies buffer
    ensures Fitting(all + parts, buffer.Length) <= buffer[..]
  {
    var k := 0;
    while k < |parts| && wpos + k < buffer.Length
      invariant 0 <= k <= |parts|
      invariant Fitting(all + parts[..k], buffer.Length) <= buffer[..]
    {
      buffer[wpos + k] := parts[k];
      assert all + parts[..k + 1] == all + parts[..k] + [parts[k]];
      k := k + 1;
    }
    assert k == |parts| ==> parts[..k] == parts;
  }

  lemma DecodeStep(s: seq<Byte>, rpos: nat, done: seq<int>)
    requires rpos < |s| && Iterate(s[rpos..]).Char?
    ensures var d := Iterate(s[rpos..]);
            && rpos + d.len <= |s| && s[rpos..][d.len..] == s[rpos + d.len..]
            && Prepend(done, DecodeAll(s[rpos..])) == Prepend(done + [d.uc], DecodeAll(s[rpos + d.len..]))
  {
    var d := Iterate(s[rpos..]);
    assert s[rpos..][d.len..] == s[rpos + d.len..];
    var rest := DecodeAll(s[rpos + d.len..]);
    if rest.Some? {
      assert done + ([d.uc] + rest.value) == done + [d.uc] + rest.value;
    }
  }

  function Prepend(done: seq<int>, rest: Option<seq<int>>): Option<seq<int>> {
    if rest.None? then None else Some(done + rest.value)
  }

  /** utf8proc_decompose_custom, without NULLTERM and with no custom function. */
  method Decompose(str: seq<Byte>, buffer: array<int>, normalize: bool, t: Tables) returns (r: Length)
    modifies buffer
    ensures r == Measure(t, normalize, str, 0)
    ensures r.Count? ==>
              && DecodeAll(str).Some?
              && var all := PartsAll(t, normalize, DecodeAll(str).value);
                 && |all| == r.n
                 && (r.n < buffer.Length ==> buffer[r.n] == 0)
                 && (r.n <= buffer.Length ==>
                      if normalize then Ordered(t.ccc, buffer[..r.n]) && StableReordering(t.ccc, all, buffer[..r.n])
                      else buffer[..r.n] == all)
  {
    hide Parts, PartsAll, Measure, DecodeAll, Iterate, StableReordering, Ordered;
    ghost var done: seq<int> := [];
    var wpos: nat, rpos: nat := 0, 0;
    MeasureEnds(t, normalize, str);
    assert str[0..] == str;
    while rpos < |str|
      invariant rpos <= |str|
      invariant Measure(t, normalize, str, 0) == Measure(t, normalize, str[rpos..], wpos)
      invariant DecodeAll(str) == Prepend(done, DecodeAll(str[rpos..]))
      invariant wpos == |PartsAll(t, normalize, done)|
      invariant Fitting(PartsAll(t, normalize, done), buffer.Length) <= buffer[..]
    {
      var d := Iterate(str[rpos..]);
      MeasureStep(t, normalize, str[rpos..], wpos);
      if !d.Char? {
        return InvalidUtf8;
      }
      DecodeStep(str, rpos, done);
      PartsMore(t, normalize, done, d.uc);
      var parts := Parts(t, normalize, d.uc);
      WriteParts(buffer, wpos, parts, PartsAll(t, normalize, done));
      done := done + [d.uc];
      rpos := rpos + d.len;
      wpos := wpos + |parts|;
      if wpos > LONGEST {
        return Overflow;
      }
    }
    MeasureEnds(t, normalize, str[rpos..]);
    assert done + [] == done;
    assert wpos <= buffer.Length ==> buffer[..wpos] == PartsAll(t, normalize, done);
    if normalize && buffer.Length >= wpos {
      Reorder(buffer, wpos, t.ccc);
    }
    if wpos < buffer.Length {
      ghost var kept := buffer[..wpos];
      buffer[wpos] := 0;
      assert buffer[..wpos] == kept;
    }
    return Count(wpos);
  }

  lemma MeasureEnds(t: Tables, normalize: bool, s: seq<Byte>)
    ensures PartsAll(t, normalize, []) == [] && DecodeAll([]) == Some([])
    ensures DecodeAll(s) == Prepend([], DecodeAll(s))
    ensures forall w: nat :: s == [] ==> Measure(t, normalize, s, w) == Count(w)
  {
    hide Iterate, Parts;
    if DecodeAll(s).Some? {
      assert [] + DecodeAll(s).value == DecodeAll(s).value;
    }
  }

  lemma MeasureStep(t: Tables, normalize: bool, s: seq<Byte>, wpos: nat)
    requires s != []
    ensures var d := Iterate(s);
            Measure(t, normalize, s, wpos) ==
            if !d.Char? then InvalidUtf8
            else
              var w := wpos + |Parts(t, normalize, d.uc)|;
              if w > LONGEST then Overflow else Measure(t, normalize, s[d.len..], w)
  {
    hide Iterate, Parts;
  }

  // Re-encoding in place.

  /** A utf8proc_int32_t in memory, little-endian. */
  function Word(b0: int, b1: int, b2: int, b3: int): int {
    var u := b0 + 256 * b1 + 65536 * b2 + 16777216 * b3;
    if u < 0x8000_0000 then u else u - 0x1_0000_0000
  }

  /** The buffer's first words are these numbers, and there is a spare byte after them. */
  ghost predicate Stored(mem: seq<Byte>, words: seq<int>) {
    && 4 * |words| + 1 <= |mem|
    && forall k :: 0 <= k < |words| ==> Word(mem[4 * k], mem[4 * k + 1], mem[4 * k + 2], mem[4 * k + 3]) == words[k]
  }

  lemma {:induction false} EncodeAllLast(cs: seq<int>, c: int)
    ensures EncodeAll(cs + [c]) == EncodeAll(cs) + Encode(c)
  {
    hide Encode;
    if cs == [] {
      assert cs + [c] == [c] && [c][1..] == [];
    } else {
      assert (cs + [c])[1..] == cs[1..] + [c];
      EncodeAllLast(cs[1..], c);
    }
  }

  /** The loop of utf8proc_reencode without CHARBOUND: it writes UTF-8 over the numbers it has read, and never over
      one that it has not. */
  method Reencode(mem: array<Byte>, length: nat, ghost words: seq<int>) returns (wpos: nat)
    requires Stored(mem[..], words) && length == |words|
    modifies mem
    ensures wpos < mem.Length && mem[..wpos] == EncodeAll(words) && mem[wpos] == 0
  {
    hide Encode, EncodeAll, Word;
    wpos := 0;
    EncodeNothing(words);
    for rpos := 0 to length
      invariant wpos <= 4 * rpos && mem[..wpos] == EncodeAll(words[..rpos])
      invariant mem[4 * rpos..] == old(mem[4 * rpos..])
    {
      var i := 4 * rpos;
      assert forall k :: i <= k < mem.Length ==> mem[k] == old(mem[k]) by {
        assert forall k :: i <= k < mem.Length ==> mem[k] == mem[i..][k - i] && old(mem[k]) == old(mem[i..])[k - i];
      }
      var uc := Word(mem[i], mem[i + 1], mem[i + 2], mem[i + 3]);
      assert uc == words[rpos];
      var e := Encode(uc);
      EncodeAllLast(words[..rpos], uc);
      assert words[..rpos + 1] == words[..rpos] + [uc];
      wpos := WriteBytes(mem, wpos, e);
    }
    assert words[..length] == words;
    mem[wpos] := 0;
  }

  lemma EncodeNothing(cs: seq<int>)
    ensures EncodeAll(cs[..0]) == []
  {
  }

  /** The writes of utf8proc_encode_char. */
  method WriteBytes(mem: array<Byte>, at: nat, e: seq<Byte>) returns (next: nat)
    requires at + |e| <= mem.Length
    modifies mem
    ensures next == at + |e| && mem[..next] == old(mem[..at]) + e
    ensures mem[next..] == old(mem[next..])
  {
    for k := 0 to |e|
      invariant mem[..at] == old(mem[..at]) && mem[at..at + k] == e[..k]
      invariant forall j :: at + |e| <= j < mem.Length ==> mem[j] == old(mem[j])
    {
      mem[at + k] := e[k];
    }
    next := at + |e|;
    assert mem[..next] == mem[..at] + mem[at..next];
  }

  // The whole pipeline.

  datatype Mode = Plain | Decomposing | Composing

  datatype Mapped = Text(bytes: seq<Byte>) | Failed(error: Length)

  predicate Code(c: int) { 0 <= c < 0x110000 }

  ghost predicate Codes(s: seq<int>) { forall k :: 0 <= k < |s| ==> Code(s[k]) }

  /** The tables give code points. */
  ghost predicate TablesInRange(t: Tables) {
    && (forall uc :: t.decomposition(uc).Some? ==> Codes(t.decomposition(uc).value))
    && (forall a, c :: Combination(t, a, c).Some? ==> Code(Combination(t, a, c).value))
  }

  lemma PartsCodes(t: Tables, normalize: bool, uc: int)
    requires TablesInRange(t) && Code(uc)
    ensures Codes(Parts(t, normalize, uc))
  {
    hide Jamo;
    if normalize && Syllable(uc) {
      JamoCodes(uc);
    }
  }

  lemma JamoCodes(uc: int)
    requires Syllable(uc)
    ensures Codes(Jamo(uc))
  {
    JamoParts(uc);
  }

  lemma {:induction false} PartsAllCodes(t: Tables, normalize: bool, cs: seq<int>)
    requires TablesInRange(t) && Codes(cs)
    ensures Codes(PartsAll(t, normalize, cs))
  {
    hide Parts, TablesInRange;
    if cs != [] {
      PartsAllCodes(t, normalize, cs[..|cs| - 1]);
      PartsCodes(t, normalize, cs[|cs| - 1]);
    }
  }

  lemma NextCodes(t: Tables, s: seq<int>, c: int)
    requires TablesInRange(t) && Codes(s) && Code(c)
    ensures Codes(Next(t, s, c))
  {
    var i := LastStarter(t, s);
    if i >= 0 && Joined(t, s[i], c).Some? {
      JoinedCode(t, s[i], c);
    }
  }

  lemma JoinedCode(t: Tables, a: int, c: int)
    requires TablesInRange(t) && Code(a) && Code(c) && Joined(t, a, c).Some?
    ensures Code(Joined(t, a, c).value)
  {
    if LeadingJamo(a) && VowelJamo(c) {
      assert 0 <= (a - LBASE) * VCOUNT + (c - VBASE) <= 18 * 21 + 20;
    }
  }

  lemma {:induction false} ComposeCodes(t: Tables, s: seq<int>)
    requires TablesInRange(t) && Codes(s)
    ensures Codes(Compose(t, s))
  {
    hide Next, TablesInRange;
    if s != [] {
      ComposeCodes(t, s[..|s| - 1]);
      NextCodes(t, Compose(t, s[..|s| - 1]), s[|s| - 1]);
    }
  }

  lemma SameBagCodes(a: seq<int>, b: seq<int>)
    requires multiset(a) == multiset(b) && Codes(a)
    ensures Codes(b)
  {
    forall k | 0 <= k < |b|
      ensures Code(b[k])
    {
      assert b[k] in multiset(b) && b[k] in multiset(a);
      assert b[k] in a;
    }
  }

  function ByteOf(w: int, k: nat): Byte
    requires Code(w) && k < 4
  {
    if k == 0 then w % 256 else if k == 1 then w / 256 % 256 else if k == 2 then w / 65536 else 0
  }

  lemma WordOfBytes(w: int)
    requires Code(w)
    ensures Word(ByteOf(w, 0), ByteOf(w, 1), ByteOf(w, 2), ByteOf(w, 3)) == w
  {
    assert w / 256 == w / 65536 * 256 + w / 256 % 256;
  }

  /** The numbers as they lie in memory, with the spare byte. */
  method InMemory(buffer: array<int>, length: nat) returns (mem: array<Byte>)
    requires length <= buffer.Length && Codes(buffer[..length])
    ensures fresh(mem) && Stored(mem[..], buffer[..length])
  {
    hide Word, ByteOf;
    mem := new Byte[4 * buffer.Length + 1](_ => 0);
    for i := 0 to length
      invariant forall k :: 0 <= k < i ==>
                  Word(mem[4 * k], mem[4 * k + 1], mem[4 * k + 2], mem[4 * k + 3]) == buffer[k]
    {
      var w := buffer[i];
      assert w == buffer[..length][i];
      WordOfBytes(w);
      mem[4 * i], mem[4 * i + 1] := ByteOf(w, 0), ByteOf(w, 1);
      mem[4 * i + 2], mem[4 * i + 3] := ByteOf(w, 2), ByteOf(w, 3);
    }
  }

  /** The text is the encoding of `order`, the canonical order of the decomposition, composed if that is asked for;
      without normalization it is the text that was decoded. */
  ghost predicate IsResult(t: Tables, mode: Mode, cs: seq<int>, order: seq<int>, bytes: seq<Byte>) {
    var all := PartsAll(t, mode != Plain, cs);
    && (if mode == Plain then order == all else Ordered(t.ccc, order) && StableReordering(t.ccc, all, order))
    && bytes == EncodeAll(if mode == Composing then Compose(t, order) else order)
  }

  /** utf8proc_map with option 0, DECOMPOSE or COMPOSE: it measures, decomposes, composes and re-encodes. */
  method Map(str: seq<Byte>, mode: Mode, t: Tables) returns (r: Mapped)
    requires TablesOk(t) && TablesInRange(t)
    ensures var m := Measure(t, mode != Plain, str, 0);
            if !m.Count? then r == Failed(m)
            else r.Text? && DecodeAll(str).Some?
                 && exists order :: IsResult(t, mode, DecodeAll(str).value, order, r.bytes)
  {
    hide Measure, PartsAll, DecodeAll, EncodeAll, Ordered, StableReordering, Compose, TablesOk, TablesInRange, Codes;
    var none := new int[0];
    var size := Decompose(str, none, mode != Plain, t);
    if !size.Count? {
      return Failed(size);
    }
    ghost var cs := DecodeAll(str).value;
    DecodedCodes(str, cs);
    PartsAllCodes(t, mode != Plain, cs);
    var buffer := new int[size.n];
    var length := Decompose(str, buffer, mode != Plain, t);
    var n := length.n;
    ghost var order := buffer[..n];
    OrderCodes(t, PartsAll(t, mode != Plain, cs), order);
    if mode == Composing {
      ComposeCodes(t, order);
      n := ComposeInPlace(buffer, n, t);
    }
    ghost var words := buffer[..n];
    var mem := InMemory(buffer, n);
    var wpos := Reencode(mem, n, words);
    r := Text(mem[..wpos]);
    assert IsResult(t, mode, cs, order, r.bytes);
  }

  lemma OrderCodes(t: Tables, all: seq<int>, order: seq<int>)
    requires Codes(all) && (order == all || StableReordering(t.ccc, all, order))
    ensures Codes(order)
  {
    hide Line, Codes;
    SameBagCodes(all, order);
  }

  lemma DecodedCodes(str: seq<Byte>, cs: seq<int>)
    requires DecodeAll(str) == Some(cs)
    ensures Codes(cs)
  {
    DecodeIff(str, cs);
    forall k | 0 <= k < |cs|
      ensures Code(cs[k])
    {
      assert cs[k] in cs;
    }
  }

  // Identities.

  lemma {:induction false} PlainParts(t: Tables, cs: seq<int>)
    ensures PartsAll(t, false, cs) == cs
  {
    if cs != [] {
      PlainParts(t, cs[..|cs| - 1]);
      assert cs == cs[..|cs| - 1] + [cs[|cs| - 1]];
    }
  }

  /** With option 0 every valid UTF-8 string comes back as it was. */
  lemma PlainIdentity(t: Tables, str: seq<Byte>, order: seq<int>, bytes: seq<Byte>)
    requires DecodeAll(str).Some? && IsResult(t, Plain, DecodeAll(str).value, order, bytes)
    ensures bytes == str
  {
    hide EncodeAll, DecodeAll, PartsAll;
    PlainParts(t, DecodeAll(str).value);
    DecodeIff(str, DecodeAll(str).value);
  }

  lemma {:induction false} SyllableParts(t: Tables, cs: seq<int>)
    requires forall c <- cs :: Syllable(c)
    ensures PartsAll(t, true, cs) == Decomposed(cs)
  {
    if cs != [] {
      SyllableParts(t, cs[..|cs| - 1]);
    }
  }

  /** With COMPOSE, every string of precomposed Hangul syllables comes back as it was. */
  lemma HangulIdentity(t: Tables, str: seq<Byte>, order: seq<int>, bytes: seq<Byte>)
    requires HangulOk(t) && DecodeAll(str).Some? && forall c <- DecodeAll(str).value :: Syllable(c)
    requires IsResult(t, Composing, DecodeAll(str).value, order, bytes)
    ensures bytes == str
  {
    hide EncodeAll, DecodeAll, PartsAll, Decomposed, Compose, Ordered, StableReordering, HangulOk;
    var cs := DecodeAll(str).value;
    SyllableParts(t, cs);
    HangulRoundTrip(t, cs);
    OrderedUnique(t.ccc, Decomposed(cs), order);
    DecodeIff(str, cs);
  }

  lemma {:induction false} MixedParts(t: Tables, cs: seq<int>)
    requires Mixed(cs) && t.decomposition(TBASE).None?
    ensures PartsAll(t, true, cs) == UnpackedAll(cs)
  {
    hide Jamo;
    if cs != [] {
      MixedParts(t, cs[..|cs| - 1]);
    }
  }

  lemma MixedScalars(s: seq<int>)
    requires Mixed(s)
    ensures Scalars(s)
  {
  }

  /** With COMPOSE, a string of precomposed syllables and U+11A7 comes back exactly when no U+11A7 is right after a
      syllable without a trailing consonant. */
  lemma TBaseIdentity(t: Tables, str: seq<Byte>, order: seq<int>, bytes: seq<Byte>)
    requires TBaseOk(t) && t.decomposition(TBASE).None?
    requires DecodeAll(str).Some? && Mixed(DecodeAll(str).value)
    requires IsResult(t, Composing, DecodeAll(str).value, order, bytes)
    ensures bytes == str <==> !Absorbs(DecodeAll(str).value)
  {
    hide EncodeAll, DecodeAll, PartsAll, UnpackedAll, Compose, Ordered, StableReordering, TBaseOk, Mixed, Scalars,
      Absorbs, Squeezed;
    var cs := DecodeAll(str).value;
    MixedParts(t, cs);
    TBaseRoundTrip(t, cs);
    OrderedUnique(t.ccc, UnpackedAll(cs), order);
    ComposeUnpacked(t, cs);
    SqueezedMixed(cs);
    MixedScalars(Squeezed(cs));
    DecodeIff(str, cs);
    DecodeIff(bytes, Squeezed(cs));
  }

  // Decomposition.

  /** What one code point is decomposed to: a Hangul syllable to its jamo, as section 3.12 of the Unicode Standard
      computes them, what the tables have an entry for to that, and anything else to itself. */
  predicate DecomposedAs(t: Tables, c: int, p: seq<int>) {
    if 0xAC00 <= c <= 0xD7A3 then
      var l, v, x := (c - 0xAC00) / 588, (c - 0xAC00) % 588 / 28, (c - 0xAC00) % 28;
      p == [0x1100 + l, 0x1161 + v] + if x == 0 then [] else [0x11A7 + x]
    else if t.decomposition(c).Some? then p == t.decomposition(c).value
    else p == [c]
  }

  predicate AllDecomposedAs(t: Tables, cs: seq<int>, ps: seq<seq<int>>) {
    |ps| == |cs| && forall i :: 0 <= i < |cs| ==> DecomposedAs(t, cs[i], ps[i])
  }

  function Flat(ps: seq<seq<int>>): seq<int> { if ps == [] then [] else Flat(ps[..|ps| - 1]) + ps[|ps| - 1] }

  lemma PartsAre(t: Tables, c: int)
    ensures DecomposedAs(t, c, Parts(t, true, c))
  {
  }

  /** What is decomposed is what the code points give, one after the other. */
  lemma {:induction false} PartsFlat(t: Tables, cs: seq<int>) returns (ps: seq<seq<int>>)
    ensures AllDecomposedAs(t, cs, ps) && PartsAll(t, true, cs) == Flat(ps)
  {
    hide Parts, DecomposedAs;
    if cs == [] {
      ps := [];
    } else {
      var n := |cs| - 1;
      var before := PartsFlat(t, cs[..n]);
      PartsAre(t, cs[n]);
      ps := before + [Parts(t, true, cs[n])];
      assert ps[..n] == before;
      assert forall i :: 0 <= i < n ==> cs[..n][i] == cs[i] && ps[i] == before[i];
    }
  }

  /** With DECOMPOSE every valid text becomes the encoding of its code points, decomposed one by one, in canonical
      order; with COMPOSE that is composed. */
  lemma DecomposeIs(t: Tables, mode: Mode, str: seq<Byte>, order: seq<int>, bytes: seq<Byte>)
    requires mode != Plain && DecodeAll(str).Some? && IsResult(t, mode, DecodeAll(str).value, order, bytes)
    ensures exists ps ::
              && AllDecomposedAs(t, DecodeAll(str).value, ps)
              && Ordered(t.ccc, order) && StableReordering(t.ccc, Flat(ps), order)
              && bytes == EncodeAll(if mode == Composing then Compose(t, order) else order)
  {
    hide PartsAll, DecodeAll, EncodeAll, Ordered, StableReordering, AllDecomposedAs, Flat, Compose;
    var ps := PartsFlat(t, DecodeAll(str).value);
  }

  /** The tables decompose fully: what they give are scalar values that are not decomposed, nor are jamo. */
  ghost predicate Full(t: Tables) {
    && (forall uc :: t.decomposition(uc).Some? ==>
          forall k :: 0 <= k < |t.decomposition(uc).value| ==> Bare(t, t.decomposition(uc).value[k]))
    && (forall uc :: LeadingJamo(uc) || VowelJamo(uc) || TrailingIndex(uc) ==> t.decomposition(uc).None?)
  }

  /** No syllable, and no entry in the tables. */
  predicate Bare(t: Tables, c: int) { Scalar(c) && !Syllable(c) && t.decomposition(c).None? }

  predicate AllBare(t: Tables, s: seq<int>) { forall k :: 0 <= k < |s| ==> Bare(t, s[k]) }

  lemma PartsBare(t: Tables, uc: int)
    requires Full(t) && Scalar(uc)
    ensures AllBare(t, Parts(t, true, uc))
  {
    if Syllable(uc) {
      JamoParts(uc);
      var j := Jamo(uc);
      assert LeadingJamo(j[0]) && VowelJamo(j[1]) && (|j| == 3 ==> TrailingIndex(j[2]));
    }
  }

  lemma {:induction false} PartsAllBare(t: Tables, cs: seq<int>)
    requires Full(t) && Scalars(cs)
    ensures AllBare(t, PartsAll(t, true, cs))
  {
    hide Parts, Full, Bare, Scalar;
    if cs != [] {
      PartsAllBare(t, cs[..|cs| - 1]);
      assert cs[|cs| - 1] in cs;
      PartsBare(t, cs[|cs| - 1]);
    }
  }

  lemma {:induction false} BareParts(t: Tables, s: seq<int>)
    requires AllBare(t, s)
    ensures PartsAll(t, true, s) == s
  {
    hide Jamo, Scalar;
    if s != [] {
      var n := |s| - 1;
      BareParts(t, s[..n]);
      assert s == s[..n] + [s[n]];
    }
  }

  lemma SameBagBare(t: Tables, a: seq<int>, b: seq<int>)
    requires multiset(a) == multiset(b) && AllBare(t, a)
    ensures AllBare(t, b) && Scalars(b)
  {
    hide Syllable, Scalar;
    forall k | 0 <= k < |b|
      ensures Bare(t, b[k])
    {
      assert b[k] in multiset(b) && b[k] in multiset(a);
      assert b[k] in a;
    }
  }

  lemma ReorderedBag(t: Tables, a: seq<int>, b: seq<int>)
    requires StableReordering(t.ccc, a, b)
    ensures multiset(a) == multiset(b)
  {
    hide Line;
  }

  /** With tables that decompose fully, nothing in the result can be decomposed, and mapping it again changes
      nothing. */
  lemma DecomposeTwice(t: Tables, str: seq<Byte>, order: seq<int>, bytes: seq<Byte>, again: seq<int>, more: seq<Byte>)
    requires Full(t) && DecodeAll(str).Some? && IsResult(t, Decomposing, DecodeAll(str).value, order, bytes)
    ensures AllBare(t, order) && DecodeAll(bytes) == Some(order)
    ensures IsResult(t, Decomposing, order, again, more) ==> more == bytes
  {
    hide EncodeAll, DecodeAll, PartsAll, Ordered, StableReordering, Full, Bare, Scalars;
    var cs := DecodeAll(str).value;
    DecodeIff(str, cs);
    PartsAllBare(t, cs);
    ReorderedBag(t, PartsAll(t, true, cs), order);
    SameBagBare(t, PartsAll(t, true, cs), order);
    DecodeIff(bytes, order);
    BareParts(t, order);
    if IsResult(t, Decomposing, order, again, more) {
      OrderedUnique(t.ccc, order, again);
    }
  }
}
