/** The character classes of the parser and of the URL machines against the grammars of the standards. */
module HttpClasses {
  import opened HttpTypes
  import opened UrlHost

  // RFC 5234, appendix B.1.

  predicate Alpha(c: octet) { 0x41 <= c as int <= 0x5A || 0x61 <= c as int <= 0x7A }

  predicate DecimalDigit(c: octet) { 0x30 <= c as int <= 0x39 }

  predicate Visible(c: octet) { 0x21 <= c as int <= 0x7E }

  // RFC 3986, section 2.

  predicate Unreserved(c: octet) { Alpha(c) || DecimalDigit(c) || c in {'-', '.', '_', '~'} }

  predicate SubDelimiter(c: octet) { c in {'!', '$', '&', '\'', '(', ')', '*', '+', ',', ';', '='} }

  /** The user information of a server section: what section 3.2.1 of RFC 3986 allows, '%' for an escaped octet. */
  lemma UserinfoIs(c: octet)
    ensures IsUserinfoChar(c) <==> Unreserved(c) || SubDelimiter(c) || c == '%' || c == ':'
  {
  }

  /** A path: what section 3.3 allows, and eleven visible characters that it does not. */
  lemma UrlCharIs(c: octet)
    ensures IsUrlChar(c) <==>
            || Unreserved(c) || SubDelimiter(c) || c in {'%', ':', '@', '/'}
            || c in {'\"', '<', '>', '[', '\\', ']', '^', '`', '{', '|', '}'}
    ensures IsUrlChar(c) <==> Visible(c) && c != '#' && c != '?'
  {
  }

  /** The name of a host has fewer characters than section 3.2.2 allows. */
  lemma HostCharIs(c: octet)
    ensures IsHostChar(c) <==> Alpha(c) || DecimalDigit(c) || c in {'-', '.'}
    ensures IsHostChar(c) ==> Unreserved(c)
  {
  }

  /** Between brackets: an address of section 3.2.2, and after a '%' the zone of RFC 6874. */
  lemma V6CharIs(c: octet)
    ensures IsV6Char(c) <==>
            DecimalDigit(c) || c in {'A', 'B', 'C', 'D', 'E', 'F', 'a', 'b', 'c', 'd', 'e', 'f', ':', '.'}
    ensures IsZoneChar(c) <==> Unreserved(c) || c == '%'
  {
  }

  // RFC 7230, section 3.2.

  /** A token: what section 3.2.6 allows, letters in lower case. */
  lemma TokenIs(c: octet)
    ensures IsToken(c) <==>
            || Alpha(c) || DecimalDigit(c)
            || c in {'!', '#', '$', '%', '&', '\'', '*', '+', '-', '.', '^', '_', '`', '|', '~'}
    ensures IsToken(c) ==> Token(c) as int == c as int + if 0x41 <= c as int <= 0x5A then 0x20 else 0
  {
  }

  /** A value: visible characters and octets from 128 up, spaces and tabs, and the line ends that the machine sees
      first. */
  lemma HeaderCharIs(c: octet)
    ensures IsHeaderChar(c) <==>
            || Visible(c) || 0x80 <= c as int <= 0xFF
            || c as int == 0x20 || c as int == 9 || c as int == 13 || c as int == 10
  {
  }

  /** Lower folds letters, and what is folded to a letter is that letter in one of its cases. */
  lemma LowerIs(c: octet, letter: octet)
    requires 0x61 <= letter as int <= 0x7A
    ensures Lower(c) == letter <==> c == letter || c as int == letter as int - 0x20
  {
  }
}
