/** The numbers in messages and in URLs: what strings of digits stand for. */
module HttpNumerals {
  import opened HttpTypes

  // Decimal.

  predicate Decimal(d: seq<octet>) { forall i :: 0 <= i < |d| ==> IsNum(d[i]) }

  /** The value of a decimal digit string. */
  function DecimalValue(d: seq<octet>): nat
    requires Decimal(d)
  {
    if d == [] then 0 else DecimalValue(d[..|d| - 1]) * 10 + Digit(d[|d| - 1])
  }

  lemma {:induction false} DecimalMonotonic(d: seq<octet>, n: nat)
    requires Decimal(d) && n <= |d|
    ensures DecimalValue(d[..n]) <= DecimalValue(d)
  {
    if n < |d| {
      assert d[..|d| - 1][..n] == d[..n];
      DecimalMonotonic(d[..|d| - 1], n);
    } else {
      assert d[..n] == d;
    }
  }

  lemma DecimalSnoc(d: seq<octet>, ch: octet)
    requires Decimal(d) && IsNum(ch)
    ensures Decimal(d + [ch]) && DecimalValue(d + [ch]) == DecimalValue(d) * 10 + Digit(ch)
  {
    assert (d + [ch])[..|d|] == d;
  }

  const FIGURES: string := "0123456789"

  /** A way to write a number in decimal, any zeros in front. */
  predicate Writes(s: seq<octet>, n: nat) {
    if s == [] then n == 0 else s[|s| - 1] == FIGURES[n % 10] && Writes(s[..|s| - 1], n / 10)
  }

  /** The shortest one, but for 0. */
  function Numeral(n: nat): (s: seq<octet>)
    ensures s != []
  {
    if n < 10 then [FIGURES[n]] else Numeral(n / 10) + [FIGURES[n % 10]]
  }

  lemma FigureIs(c: octet)
    ensures IsNum(c) <==> c in FIGURES
    ensures IsNum(c) ==> 0 <= Digit(c) < 10 && FIGURES[Digit(c)] == c
  {
  }

  lemma FigureDigit(k: nat)
    requires k < 10
    ensures IsNum(FIGURES[k]) && Digit(FIGURES[k]) == k
  {
  }

  /** The strings of digits read as a number are those that write it. */
  lemma {:induction false} DecimalRoundTrip(s: seq<octet>, n: nat)
    ensures Writes(s, n) <==> Decimal(s) && DecimalValue(s) == n
  {
    if s != [] {
      var k := |s| - 1;
      DecimalRoundTrip(s[..k], n / 10);
      FigureIs(s[k]);
      FigureDigit(n % 10);
      assert s == s[..k] + [s[k]];
    }
  }

  /** A number written is read as that number. */
  lemma {:induction false} NumeralValue(n: nat)
    ensures Decimal(Numeral(n)) && DecimalValue(Numeral(n)) == n
  {
    hide DecimalValue;
    NumeralWrites(n);
    DecimalRoundTrip(Numeral(n), n);
  }

  lemma {:induction false} NumeralWrites(n: nat)
    ensures Writes(Numeral(n), n)
  {
    var s := Numeral(n);
    if n >= 10 {
      NumeralWrites(n / 10);
      assert s[..|s| - 1] == Numeral(n / 10);
    } else {
      assert s[..0] == [];
    }
  }

  // Hexadecimal, the letters in either case.

  const LOWER_FIGURES: string := "0123456789abcdef"
  const UPPER_FIGURES: string := "0123456789ABCDEF"

  /** What the table takes for a digit. */
  predicate SizeDigit(c: octet) { Unhex(c) != -1 }

  /** RFC 7230 wants hexadecimal digits; the source also takes any byte from 128 up, as a 0. */
  lemma SizeDigitIs(c: octet)
    ensures SizeDigit(c) <==> c in LOWER_FIGURES || c in UPPER_FIGURES || c as int >= 128
    ensures SizeDigit(c) && c as int < 128 ==> c == LOWER_FIGURES[Unhex(c)] || c == UPPER_FIGURES[Unhex(c)]
    ensures c as int >= 128 ==> Unhex(c) == 0
  {
  }

  predicate Hex(d: seq<octet>) { forall i :: 0 <= i < |d| ==> SizeDigit(d[i]) }

  /** The value of a chunk size. */
  function HexValue(d: seq<octet>): nat
    requires Hex(d)
  {
    if d == [] then 0 else HexValue(d[..|d| - 1]) * 16 + Unhex(d[|d| - 1])
  }

  lemma {:induction false} HexMonotonic(d: seq<octet>, n: nat)
    requires Hex(d) && n <= |d|
    ensures HexValue(d[..n]) <= HexValue(d)
  {
    if n < |d| {
      assert d[..|d| - 1][..n] == d[..n];
      HexMonotonic(d[..|d| - 1], n);
    } else {
      assert d[..n] == d;
    }
  }

  lemma HexSnoc(d: seq<octet>, ch: octet)
    requires Hex(d) && SizeDigit(ch)
    ensures Hex(d + [ch]) && HexValue(d + [ch]) == HexValue(d) * 16 + Unhex(ch)
  {
    assert (d + [ch])[..|d|] == d;
  }

  /** A way to write a number in hexadecimal: any zeros in front, and each letter in either case. */
  predicate WritesHex(s: seq<octet>, n: nat) {
    if s == [] then n == 0
    else
      var c := s[|s| - 1];
      (c == LOWER_FIGURES[n % 16] || c == UPPER_FIGURES[n % 16]) && WritesHex(s[..|s| - 1], n / 16)
  }

  /** The strings read as a number, of those without bytes from 128 up, are those that write it. */
  lemma {:induction false} HexRoundTrip(s: seq<octet>, n: nat)
    ensures WritesHex(s, n) <==>
            Hex(s) && HexValue(s) == n && forall i :: 0 <= i < |s| ==> s[i] as int < 128
  {
    if s != [] {
      var k := |s| - 1;
      HexRoundTrip(s[..k], n / 16);
      SizeDigitIs(s[k]);
      SizeFigure(n % 16);
      assert s == s[..k] + [s[k]];
    }
  }

  lemma SizeFigure(k: nat)
    requires k < 16
    ensures Unhex(LOWER_FIGURES[k]) == Unhex(UPPER_FIGURES[k]) == k
    ensures LOWER_FIGURES[k] as int < 128 && UPPER_FIGURES[k] as int < 128
  {
  }
}
