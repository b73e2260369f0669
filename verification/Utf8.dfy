/** Strict UTF-8: the decoder and the encoder of one code point, and what they say about whole strings. */
module Utf8 {
  import opened Wrappers

  type Byte = x: int | 0 <= x < 256

  /** What utf8proc_iterate reads: nothing, an error, or a code point of so many bytes. */
  datatype Decoded = End | Invalid | Char(uc: int, len: nat)

  predicate Cont(b: Byte) { 0x80 <= b < 0xC0 }

  // The payload bits of a sequence, put together.

  function Join2(a: int, b: int): int { a % 32 * 64 + b % 64 }

  function Join3(a: int, b: int, c: int): int { a % 16 * 4096 + b % 64 * 64 + c % 64 }

  function Join4(a: int, b: int, c: int, d: int): int { a % 8 * 262144 + b % 64 * 4096 + c % 64 * 64 + d % 64 }

  /** utf8proc_iterate; `s` is what is left of the string. */
  function Iterate(s: seq<Byte>): (r: Decoded)
    ensures r.Char? ==> 1 <= r.len <= |s|
  {
    if |s| == 0 then End
    else if s[0] < 0x80 then Char(s[0], 1)
    else if s[0] < 0xC2 || s[0] > 0xF4 then Invalid
    else if s[0] < 0xE0 then
      if |s| < 2 || !Cont(s[1]) then Invalid else Char(Join2(s[0], s[1]), 2)
    else if s[0] < 0xF0 then
      if |s| < 3 || !Cont(s[1]) || !Cont(s[2]) then Invalid
      else if s[0] == 0xED && s[1] > 0x9F then Invalid
      else
        var uc := Join3(s[0], s[1], s[2]);
        if uc < 0x800 then Invalid else Char(uc, 3)
    else
      if |s| < 4 || !Cont(s[1]) || !Cont(s[2]) || !Cont(s[3]) then Invalid
      else if s[0] == 0xF0 && s[1] < 0x90 then Invalid
      else if s[0] == 0xF4 && s[1] > 0x8F then Invalid
      else Char(Join4(s[0], s[1], s[2], s[3]), 4)
  }

  /** utf8proc_codepoint_valid. */
  predicate Scalar(uc: int) { 0 <= uc < 0xD800 || 0xE000 <= uc < 0x110000 }

  /** utf8proc_encode_char: the bytes it writes; surrogates are written too, and other numbers give nothing. */
  function Encode(uc: int): (r: seq<Byte>)
    ensures |r| <= 4
  {
    if uc < 0 then []
    else if uc < 0x80 then [uc]
    else if uc < 0x800 then [0xC0 + uc / 64, 0x80 + uc % 64]
    else if uc < 0x10000 then [0xE0 + uc / 4096, 0x80 + uc / 64 % 64, 0x80 + uc % 64]
    else if uc < 0x110000 then
      [0xF0 + uc / 262144, 0x80 + uc / 4096 % 64, 0x80 + uc / 64 % 64, 0x80 + uc % 64]
    else []
  }

  // A number and its groups of six bits.

  lemma Split2(x: int, y: int)
    requires 0 <= x && 0 <= y < 64
    ensures (x * 64 + y) / 64 == x && (x * 64 + y) % 64 == y
  {
  }

  lemma Split3(x: int, y: int, z: int)
    requires 0 <= x && 0 <= y < 64 && 0 <= z < 64
    ensures var uc := x * 4096 + y * 64 + z;
            uc / 4096 == x && uc / 64 % 64 == y && uc % 64 == z
  {
    Split2(x * 64 + y, z);
    Split2(x, y);
  }

  lemma Split4(w: int, x: int, y: int, z: int)
    requires 0 <= w && 0 <= x < 64 && 0 <= y < 64 && 0 <= z < 64
    ensures var uc := w * 262144 + x * 4096 + y * 64 + z;
            uc / 262144 == w && uc / 4096 % 64 == x && uc / 64 % 64 == y && uc % 64 == z
  {
    Split3(w * 64 + x, y, z);
    Split2(w, x);
  }

  lemma Twice64(n: int)
    requires 0 <= n
    ensures n / 64 / 64 == n / 4096 && n == n / 64 * 64 + n % 64
  {
    var q, r := n / 64, n % 64;
    assert q == q / 64 * 64 + q % 64;
    Split2(q / 64, q % 64);
    assert n == q / 64 * 4096 + (q % 64 * 64 + r) && 0 <= q % 64 * 64 + r < 4096;
  }

  lemma Groups(uc: int)
    requires 0 <= uc
    ensures uc == uc / 64 * 64 + uc % 64
    ensures uc == uc / 4096 * 4096 + uc / 64 % 64 * 64 + uc % 64
    ensures uc == uc / 262144 * 262144 + uc / 4096 % 64 * 4096 + uc / 64 % 64 * 64 + uc % 64
  {
    Twice64(uc);
    Twice64(uc / 64);
    Thrice64(uc);
  }

  lemma Thrice64(n: int)
    requires 0 <= n
    ensures n / 4096 / 64 == n / 262144 && n / 4096 == n / 4096 / 64 * 64 + n / 4096 % 64
    ensures n == n / 4096 * 4096 + n / 64 % 64 * 64 + n % 64
  {
    Twice64(n);
    var q, r := n / 4096, n % 4096;
    assert q == q / 64 * 64 + q % 64;
    assert n == q / 64 * 262144 + (q % 64 * 4096 + r) && 0 <= q % 64 * 4096 + r < 262144;
    assert n / 64 == n / 64 / 64 * 64 + n / 64 % 64;
  }

  lemma EncodeGroups2(x: int, y: int)
    requires 2 <= x < 32 && 0 <= y < 64
    ensures Encode(x * 64 + y) == [0xC0 + x, 0x80 + y]
  {
    Split2(x, y);
  }

  lemma EncodeGroups3(x: int, y: int, z: int)
    requires 0 <= x < 16 && 0 <= y < 64 && 0 <= z < 64 && 0x800 <= x * 4096 + y * 64 + z
    ensures Encode(x * 4096 + y * 64 + z) == [0xE0 + x, 0x80 + y, 0x80 + z]
  {
    Split3(x, y, z);
  }

  lemma EncodeGroups4(w: int, x: int, y: int, z: int)
    requires 0 <= w < 5 && 0 <= x < 64 && 0 <= y < 64 && 0 <= z < 64
    requires 0x10000 <= w * 262144 + x * 4096 + y * 64 + z < 0x110000
    ensures Encode(w * 262144 + x * 4096 + y * 64 + z) == [0xF0 + w, 0x80 + x, 0x80 + y, 0x80 + z]
  {
    Split4(w, x, y, z);
  }

  lemma Low6(b: Byte)
    requires Cont(b)
    ensures b % 64 == b - 0x80
  {
  }

  lemma Join2Is(a: Byte, b: Byte)
    requires 0xC2 <= a < 0xE0 && Cont(b)
    ensures var uc := Join2(a, b);
            0x80 <= uc < 0x800 && Encode(uc) == [a, b]
  {
    Low6(b);
    assert a % 32 == a - 0xC0;
    hide Encode;
    EncodeGroups2(a - 0xC0, b - 0x80);
  }

  lemma Join3Is(a: Byte, b: Byte, c: Byte)
    requires 0xE0 <= a < 0xF0 && Cont(b) && Cont(c) && Join3(a, b, c) >= 0x800
    ensures var uc := Join3(a, b, c);
            && uc < 0x10000 && Encode(uc) == [a, b, c]
            && (Scalar(uc) <==> !(a == 0xED && b > 0x9F))
  {
    hide Encode;
    Low6(b);
    Low6(c);
    assert a % 16 == a - 0xE0;
    EncodeGroups3(a - 0xE0, b - 0x80, c - 0x80);
  }

  lemma Join4Is(a: Byte, b: Byte, c: Byte, d: Byte)
    requires 0xF0 <= a <= 0xF4 && Cont(b) && Cont(c) && Cont(d)
    requires (a == 0xF0 ==> b >= 0x90) && (a == 0xF4 ==> b <= 0x8F)
    ensures var uc := Join4(a, b, c, d);
            0x10000 <= uc < 0x110000 && Encode(uc) == [a, b, c, d]
  {
    hide Encode;
    Low6(b);
    Low6(c);
    Low6(d);
    assert a % 8 == a - 0xF0;
    EncodeGroups4(a - 0xF0, b - 0x80, c - 0x80, d - 0x80);
  }

  lemma Encode2Is(uc: int)
    requires 0x80 <= uc < 0x800
    ensures var e := Encode(uc);
            |e| == 2 && 0xC2 <= e[0] < 0xE0 && Cont(e[1]) && Join2(e[0], e[1]) == uc
  {
    Groups(uc);
  }

  lemma Encode3Is(uc: int)
    requires 0x800 <= uc < 0x10000
    ensures var e := Encode(uc);
            && |e| == 3 && 0xE0 <= e[0] < 0xF0 && Cont(e[1]) && Cont(e[2]) && Join3(e[0], e[1], e[2]) == uc
            && (e[0] == 0xED && e[1] > 0x9F <==> 0xD800 <= uc < 0xE000)
  {
    Groups(uc);
  }

  lemma Encode4Is(uc: int)
    requires 0x10000 <= uc < 0x110000
    ensures var e := Encode(uc);
            && |e| == 4 && 0xF0 <= e[0] <= 0xF4 && Cont(e[1]) && Cont(e[2]) && Cont(e[3])
            && Join4(e[0], e[1], e[2], e[3]) == uc
            && (e[0] == 0xF0 ==> e[1] >= 0x90) && (e[0] == 0xF4 ==> e[1] <= 0x8F)
  {
    Groups(uc);
  }

  /** The decoder reads the encoding of a scalar value back, whatever follows it. */
  lemma IterateEncode(uc: int, rest: seq<Byte>)
    requires Scalar(uc)
    ensures Iterate(Encode(uc) + rest) == Char(uc, |Encode(uc)|)
  {
    hide Join2, Join3, Join4;
    var e := Encode(uc);
    if uc < 0x80 {
    } else if uc < 0x800 {
      Encode2Is(uc);
    } else if uc < 0x10000 {
      Encode3Is(uc);
    } else {
      Encode4Is(uc);
    }
    hide Encode;
    var s := e + rest;
    assert |s| == |e| + |rest| && forall k :: 0 <= k < |e| ==> s[k] == e[k];
  }

  /** The decoder accepts nothing else: what it reads is the encoding of a scalar value, so overlong forms,
      surrogates and numbers above 10FFFF are refused. */
  lemma EncodeIterate(s: seq<Byte>)
    requires Iterate(s).Char?
    ensures var d := Iterate(s);
            Scalar(d.uc) && s[..d.len] == Encode(d.uc)
  {
    hide Join2, Join3, Join4, Encode;
    var d := Iterate(s);
    if d.len == 1 {
      EncodeAscii(s[0]);
    } else if d.len == 2 {
      Join2Is(s[0], s[1]);
    } else if d.len == 3 {
      Join3Is(s[0], s[1], s[2]);
    } else {
      Join4Is(s[0], s[1], s[2], s[3]);
    }
  }

  lemma EncodeAscii(b: Byte)
    requires b < 0x80
    ensures Encode(b) == [b]
  {
  }

  // Strings.

  predicate Scalars(cs: seq<int>) { forall c <- cs :: Scalar(c) }

  function EncodeAll(cs: seq<int>): seq<Byte> { if cs == [] then [] else Encode(cs[0]) + EncodeAll(cs[1..]) }

  function DecodeAll(s: seq<Byte>): Option<seq<int>> {
    if s == [] then Some([])
    else
      var d := Iterate(s);
      if !d.Char? then None
      else
        var rest := DecodeAll(s[d.len..]);
        if rest.None? then None else Some([d.uc] + rest.value)
  }

  /** Decoding and encoding are inverse: a string decodes exactly when it is the encoding of scalar values. */
  lemma {:induction false} DecodeIff(s: seq<Byte>, cs: seq<int>)
    ensures DecodeAll(s) == Some(cs) <==> Scalars(cs) && EncodeAll(cs) == s
    decreases |s|, |cs|
  {
    if s == [] {
      if cs != [] && Scalar(cs[0]) {
        IterateEncode(cs[0], EncodeAll(cs[1..]));
      }
    } else if cs != [] {
      var d := Iterate(s);
      if d.Char? {
        EncodeIterate(s);
        DecodeIff(s[d.len..], cs[1..]);
        assert s == s[..d.len] + s[d.len..];
        assert cs == [cs[0]] + cs[1..];
      }
      if Scalars(cs) && EncodeAll(cs) == s {
        IterateEncode(cs[0], EncodeAll(cs[1..]));
        assert s[d.len..] == EncodeAll(cs[1..]);
      }
    }
  }

  function Above(b: int, mark: int): int { b - mark }

  /** The bit distribution of UTF-8 (Unicode Standard, section 3.9, table 3-6): how many bytes there are, what marks
      them, and which number their other bits make. */
  lemma EncodingForm(uc: int)
    requires Scalar(uc)
    ensures var e := Encode(uc);
            && (uc <= 0x7F ==> e == [uc])
            && (0x80 <= uc <= 0x7FF ==>
                  |e| == 2 && 0xC0 <= e[0] <= 0xDF && 0x80 <= e[1] <= 0xBF
                  && Above(e[0], 0xC0) * 0x40 + Above(e[1], 0x80) == uc)
            && (0x800 <= uc <= 0xFFFF ==>
                  |e| == 3 && 0xE0 <= e[0] <= 0xEF && 0x80 <= e[1] <= 0xBF && 0x80 <= e[2] <= 0xBF
                  && Above(e[0], 0xE0) * 0x1000 + Above(e[1], 0x80) * 0x40 + Above(e[2], 0x80) == uc)
            && (0x10000 <= uc ==>
                  |e| == 4 && 0xF0 <= e[0] <= 0xF7
                  && 0x80 <= e[1] <= 0xBF && 0x80 <= e[2] <= 0xBF && 0x80 <= e[3] <= 0xBF
                  && Above(e[0], 0xF0) * 0x40000 + Above(e[1], 0x80) * 0x1000 + Above(e[2], 0x80) * 0x40
                     + Above(e[3], 0x80) == uc)
  {
    Groups(uc);
  }
}
