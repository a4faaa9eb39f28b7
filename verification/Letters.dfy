/** The letters and digits of ASCII, written out. The character sets of the sources are ranges
    of codes or calls of isalnum and isxdigit in the "C" locale; a lemma about such a set says
    which characters are in it by naming them, so that no set is described by itself. Membership
    in a string of letters and membership in a range of codes are the same, which is all that
    the lemmas here say. */
module Letters {

  const UPPER: string := "ABCDEFGHIJKLMNOPQRSTUVWXYZ"
  const LOWER: string := "abcdefghijklmnopqrstuvwxyz"
  const DIGITS: string := "0123456789"

  lemma UpperIff(c: char)
    ensures c in UPPER <==> 'A' <= c <= 'Z'
  {
    assert 'A' <= c <= 'Z' ==> UPPER[c as int - 65] == c;
  }

  lemma LowerIff(c: char)
    ensures c in LOWER <==> 'a' <= c <= 'z'
  {
    assert 'a' <= c <= 'z' ==> LOWER[c as int - 97] == c;
  }

  lemma DigitIff(c: char)
    ensures c in DIGITS <==> '0' <= c <= '9'
  {
    assert '0' <= c <= '9' ==> DIGITS[c as int - 48] == c;
  }

  /** The hexadecimal digits, in either case. */
  lemma HexIff(c: char)
    ensures c in DIGITS || c in "abcdef" || c in "ABCDEF" <==>
      '0' <= c <= '9' || 'a' <= c <= 'f' || 'A' <= c <= 'F'
  {
    hide DIGITS;
    DigitIff(c);
    assert 'a' <= c <= 'f' ==> "abcdef"[c as int - 97] == c;
    assert 'A' <= c <= 'F' ==> "ABCDEF"[c as int - 65] == c;
  }
}
