/** The character classes of HTTP (RFC 9110), as the reader knows them. */
module HttpText {
  import opened HttpReader

  /** Characters are bytes here. */
  predicate IsByte(c: char) { c as int < 256 }

  const DELIMITERS := "\"(),/:;<=>?@[\\]{}"

  const DIGITS := "0123456789abcdef"

  /** Token characters are the visible ones that are no delimiters (section 5.6.2 of RFC 9110). */
  lemma TokensAreVisible(c: char)
    ensures IsTokenChar(c) <==> '!' <= c <= '~' && c !in DELIMITERS
  {
    MarksAreNoDelimiters(c);
    if '!' <= c <= '~' && !IsLetterOrDigit(c) { VisibleIsKnown(c); }
  }

  const MARKS := "!#$%&'*+.^_`|~-"

  predicate IsLetterOrDigit(c: char) { '0' <= c <= '9' || 'a' <= c <= 'z' || 'A' <= c <= 'Z' }

  lemma MarksAreNoDelimiters(c: char)
    ensures c in MARKS ==> '!' <= c <= '~' && c !in DELIMITERS && !IsLetterOrDigit(c)
    ensures c in DELIMITERS ==> '!' <= c <= '~' && !IsLetterOrDigit(c)
  {
    if c in MARKS {
      MarksAreVisible(c);
      MarksAreApart(c);
    }
    if c in DELIMITERS { DelimitersAreVisible(c); }
  }

  lemma MarksAreVisible(c: char)
    requires c in MARKS
    ensures '!' <= c <= '~' && !IsLetterOrDigit(c)
  {
  }

  lemma DelimitersAreVisible(c: char)
    requires c in DELIMITERS
    ensures '!' <= c <= '~' && !IsLetterOrDigit(c)
  {
  }

  lemma MarksAreApart(c: char)
    requires c in MARKS
    ensures c !in DELIMITERS
  {
  }

  /** Every visible character is a letter, a digit, a mark or a delimiter. */
  lemma VisibleIsKnown(c: char)
    requires '!' <= c <= '~' && !IsLetterOrDigit(c)
    ensures c in MARKS || c in DELIMITERS
  {
    var i := if c < '0' then c as int - '!' as int
      else if c < 'A' then c as int - ':' as int + 15
      else if c < 'a' then c as int - '[' as int + 22
      else c as int - '{' as int + 28;
    assert ("!\"#$%&'()*+,-./:;<=>?@[\\]^_`{|}~")[i] == c;
  }

  /** A field value may hold anything but control characters; a tab is allowed (section 5.5 of RFC 9110). */
  lemma FieldsHoldNoControls(c: char)
    requires IsByte(c)
    ensures IsFieldChar(c) <==> c == '\t' || ' ' <= c <= '~' || c as int >= 0x80
    ensures IsPrintable(c) <==> IsFieldChar(c) && c != '\t' && c as int < 0x80
    ensures IsBlank(c) ==> IsFieldChar(c)
    ensures IsBlank(c) <==> c == '\t' || c == ' '
  {
  }

  /** Hexadecimal digits are read alike in either case, for their place among the sixteen. */
  lemma DigitsHaveTheirPlace(c: char)
    ensures IsHex(c) <==> Lower([c])[0] in DIGITS
    ensures IsHex(c) ==> DigitValue(c) < 16 && DIGITS[DigitValue(c)] == Lower([c])[0]
    ensures IsDigit(c) <==> IsHex(c) && DigitValue(c) < 10
  {
    assert forall i | 0 <= i < 10 :: DIGITS[i] as int == '0' as int + i;
    assert forall i | 10 <= i < 16 :: DIGITS[i] as int == 'a' as int + i - 10;
    if Lower([c])[0] in DIGITS { DigitsAreHex(Lower([c])[0]); }
    if IsHex(c) { assert DIGITS[DigitValue(c)] == Lower([c])[0]; }
  }

  lemma DigitsAreHex(d: char)
    requires d in DIGITS
    ensures '0' <= d <= '9' || 'a' <= d <= 'f'
  {
  }

  /** Letters that differ in case only. */
  predicate SameLetter(a: char, b: char) {
    a == b || ('A' <= a <= 'Z' && b as int == a as int + 32) || ('A' <= b <= 'Z' && a as int == b as int + 32)
  }

  /** Names are alike in lower case exactly when they differ in the case of letters at most. */
  lemma NamesIgnoreCase(a: string, b: string)
    ensures Lower(a) == Lower(b) <==> |a| == |b| && forall i | 0 <= i < |a| :: SameLetter(a[i], b[i])
    ensures Lower(Lower(a)) == Lower(a)
  {
    assert |Lower(a)| == |a| && |Lower(b)| == |b|;
    if Lower(a) == Lower(b) {
      forall i | 0 <= i < |a| ensures SameLetter(a[i], b[i]) { assert Lower(a)[i] == Lower(b)[i]; }
    }
  }
}
