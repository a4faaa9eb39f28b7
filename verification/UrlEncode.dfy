/** `url_encode` of plugins/generic.c: escapes a URL but lets through what looks escaped
    already. A character is a byte; letters and digits are those of the "C" locale. The output
    is read in two ways: as a form, where a plus sign stands for a space, which is how the
    servers read it, and as it stands, which is how the encoder itself would read it if it
    were applied once more. */
module UrlEncode {
  import opened CStrings
  import opened Letters

  predicate Bytes(s: string) { forall i :: 0 <= i < |s| ==> s[i] as int < 256 }

  predicate IsHex(c: char) { '0' <= c <= '9' || 'a' <= c <= 'f' || 'A' <= c <= 'F' }

  predicate IsAlnum(c: char) { 'a' <= c <= 'z' || 'A' <= c <= 'Z' || '0' <= c <= '9' }

  /** The characters that stand for themselves; '/', '?', '&' and '=' are exposed on purpose. */
  predicate Safe(c: char) {
    IsAlnum(c) || c in {'-', '_', '.', '~', '/', '?', '&', '='}
  }

  /** Letters, digits, the other unreserved characters of section 2.3 of RFC 3986, and the four
      that structure a path with a query. */
  lemma SafeIff(c: char)
    ensures Safe(c) <==> c in UPPER || c in LOWER || c in DIGITS || c in "-._~" || c in "/?&="
  {
    hide UPPER, LOWER, DIGITS;
    UpperIff(c);
    LowerIff(c);
    DigitIff(c);
    OtherSafe();
  }

  lemma OtherSafe()
    ensures "-._~"[0] == '-' && "-._~"[1] == '.' && "-._~"[2] == '_' && "-._~"[3] == '~'
    ensures "/?&="[0] == '/' && "/?&="[1] == '?' && "/?&="[2] == '&' && "/?&="[3] == '='
  {
  }

  lemma HexDigitIff(c: char)
    ensures IsHex(c) <==> c in DIGITS || c in "abcdef" || c in "ABCDEF"
  {
    hide DIGITS;
    HexIff(c);
  }

  /** `ishex`: the text begins with an escape. */
  predicate Escape(s: string) { |s| >= 3 && s[0] == '%' && IsHex(s[1]) && IsHex(s[2]) }

  /** `tohex`. */
  function ToHex(n: nat): char {
    "0123456789abcdef"[n % 16]
  }

  function EncodeChar(c: char): (e: string)
    requires c as int < 256
    ensures (|e| == 1 || |e| == 3) && Bytes(e)
  {
    if Safe(c) then [c]
    else if c == ' ' then "+"
    else ['%', ToHex(c as int / 16), ToHex(c as int)]
  }

  function Encoded(s: string): string
    requires Bytes(s)
    decreases |s|
  {
    if s == "" then ""
    else if Escape(s) then s[..3] + Encoded(s[3..])
    else EncodeChar(s[0]) + Encoded(s[1..])
  }

  // ------------------------------------------------------------ what it means

  function HexValue(c: char): (n: nat)
    requires IsHex(c)
    ensures n < 16
  {
    if c <= '9' then c as int - '0' as int
    else if c <= 'F' then c as int - 'A' as int + 10
    else c as int - 'a' as int + 10
  }

  /** Section 2.1 of RFC 3986: `%XX` stands for the byte; with `form`, '+' stands for a
      space, as in HTML forms. */
  function Decode(s: string, form: bool): string
    decreases |s|
  {
    if s == "" then ""
    else if Escape(s) then
      [(16 * HexValue(s[1]) + HexValue(s[2])) as char] + Decode(s[3..], form)
    else [if form && s[0] == '+' then ' ' else s[0]] + Decode(s[1..], form)
  }

  lemma HexDigitsOf(n: nat)
    ensures IsHex(ToHex(n)) && HexValue(ToHex(n)) == n % 16
  {
  }

  lemma DecodesOne(e: string, t: string)
    requires |e| == 1 && (Safe(e[0]) || e[0] == '+')
    ensures Decode(e + t, true) == [if e[0] == '+' then ' ' else e[0]] + Decode(t, true)
  {
    assert (e + t)[0] == e[0] && (e + t)[1..] == t;
  }

  lemma DecodesHex(a: char, b: char, t: string)
    requires IsHex(a) && IsHex(b)
    ensures Decode(['%', a, b] + t, true) == [(16 * HexValue(a) + HexValue(b)) as char] + Decode(t, true)
  {
    var s := ['%', a, b] + t;
    assert s[0] == '%' && s[1] == a && s[2] == b && s[3..] == t;
  }

  lemma DecodesChar(c: char, t: string)
    requires c as int < 256
    ensures Decode(EncodeChar(c) + t, true) == [c] + Decode(t, true)
  {
    hide Decode, HexValue, ToHex, IsHex;
    var n := c as int;
    if Safe(c) || c == ' ' {
      DecodesOne(EncodeChar(c), t);
    } else {
      HexDigitsOf(n / 16);
      HexDigitsOf(n);
      DecodesHex(ToHex(n / 16), ToHex(n), t);
      assert 16 * (n / 16) + n % 16 == n;
    }
  }

  lemma DecodesEscape(s: string, t: string, form: bool)
    requires Escape(s)
    ensures Decode(s[..3] + t, form) == Decode(s[..3], form) + Decode(t, form)
  {
    assert (s[..3] + t)[3..] == t;
    assert s[..3][3..] == "";
  }

  /** Decoding the output as a form gives what the input means. */
  lemma {:induction false} EncodingKeepsMeaning(s: string)
    requires Bytes(s)
    ensures Decode(Encoded(s), true) == Decode(s, false)
    decreases |s|
  {
    if s != "" {
      if Escape(s) {
        EncodingKeepsMeaning(s[3..]);
        DecodesEscape(s, Encoded(s[3..]), true);
        DecodesEscape(s, s[3..], false);
        assert s[..3] + s[3..] == s;
      } else {
        EncodingKeepsMeaning(s[1..]);
        DecodesChar(s[0], Encoded(s[1..]));
      }
    }
  }

  /** Safe characters, '+', and escapes: nothing else. */
  predicate UrlSafe(s: string)
    decreases |s|
  {
    if s == "" then true
    else if Escape(s) then UrlSafe(s[3..])
    else (Safe(s[0]) || s[0] == '+') && UrlSafe(s[1..])
  }

  lemma CharIsSafe(c: char, t: string)
    requires c as int < 256 && UrlSafe(t) && NulFree(t)
    ensures UrlSafe(EncodeChar(c) + t) && NulFree(EncodeChar(c) + t)
  {
    var e := EncodeChar(c);
    HexDigitsOf(c as int / 16);
    HexDigitsOf(c as int);
    hide ToHex;
    assert (e + t)[|e|..] == t;
    assert |e| == 3 ==> (e + t)[1] == e[1] && (e + t)[2] == e[2];
  }

  lemma EscapeIsSafe(s: string, t: string)
    requires Escape(s) && UrlSafe(t) && NulFree(t)
    ensures UrlSafe(s[..3] + t) && NulFree(s[..3] + t)
  {
    assert (s[..3] + t)[3..] == t;
  }

  lemma {:induction false} EncodingIsSafe(s: string)
    requires Bytes(s)
    ensures UrlSafe(Encoded(s)) && |Encoded(s)| <= 3 * |s| && NulFree(Encoded(s))
    decreases |s|
  {
    hide UrlSafe, NulFree, EncodeChar, Safe;
    if s == "" {
      NothingIsSafe();
    } else if Escape(s) {
      EncodingIsSafe(s[3..]);
      EscapeIsSafe(s, Encoded(s[3..]));
    } else {
      EncodingIsSafe(s[1..]);
      CharIsSafe(s[0], Encoded(s[1..]));
    }
  }

  lemma NothingIsSafe()
    ensures UrlSafe("") && NulFree("")
  {
  }

  /** What is encoded already passes unchanged, and nothing else does: a '+', which a form
      reads as a space, would become an escaped plus sign. */
  lemma {:induction false} UnchangedIff(s: string)
    requires Bytes(s)
    ensures Encoded(s) == s <==> UrlSafe(s) && '+' !in s
    decreases |s|
  {
    hide EncodeChar, Safe, IsHex;
    NoPlus(s);
    if s != "" {
      if Escape(s) {
        UnchangedIff(s[3..]);
        assert s == s[..3] + s[3..];
        assert (s[..3] + Encoded(s[3..]))[3..] == Encoded(s[3..]);
      } else {
        UnchangedIff(s[1..]);
        UnchangedChar(s);
      }
    }
  }

  lemma NoPlus(s: string)
    ensures s != "" && Escape(s) ==> ('+' in s <==> '+' in s[3..])
    ensures s != "" && !Escape(s) ==> ('+' in s <==> s[0] == '+' || '+' in s[1..])
    ensures !Safe('+')
  {
    if s != "" {
      assert s == (if Escape(s) then [s[0], s[1], s[2]] + s[3..] else [s[0]] + s[1..]);
    }
  }

  lemma UnchangedChar(s: string)
    requires Bytes(s) && s != "" && !Escape(s)
    ensures Encoded(s) == s <==> Safe(s[0]) && Encoded(s[1..]) == s[1..]
  {
    var e, t := EncodeChar(s[0]), Encoded(s[1..]);
    assert s == s[..1] + s[1..];
    if Safe(s[0]) {
      assert Encoded(s)[1..] == t;
    } else if |e| == 3 {
      HexDigitsOf(s[0] as int / 16);
      HexDigitsOf(s[0] as int);
      assert Encoded(s)[1] == e[1] && Encoded(s)[2] == e[2];
    } else {
      assert Encoded(s)[0] == e[0];
    }
  }

  lemma PlusOfChar(c: char)
    requires c as int < 256
    ensures '+' in EncodeChar(c) <==> c == ' '
  {
    HexDigitsOf(c as int / 16);
    HexDigitsOf(c as int);
  }

  /** A '+' comes out for a space and for nothing else. */
  lemma {:induction false} PlusIsSpace(s: string)
    requires Bytes(s)
    ensures '+' in Encoded(s) <==> ' ' in s
    decreases |s|
  {
    hide EncodeChar, Safe;
    if s != "" {
      if Escape(s) {
        PlusIsSpace(s[3..]);
        assert s == [s[0], s[1], s[2]] + s[3..];
      } else {
        PlusIsSpace(s[1..]);
        PlusOfChar(s[0]);
        assert s == [s[0]] + s[1..];
      }
    }
  }

  /** Hence encoding twice is encoding once exactly for texts without a space. */
  lemma TwiceIsOnceIff(s: string)
    requires Bytes(s)
    ensures Bytes(Encoded(s))
    ensures Encoded(Encoded(s)) == Encoded(s) <==> ' ' !in s
  {
    hide Encoded;
    EncodingIsSafe(s);
    EncodingIsBytes(s);
    UnchangedIff(Encoded(s));
    PlusIsSpace(s);
  }

  lemma SpaceIsEncodedTwice()
    ensures Encoded(" ") == "+" && Encoded("+") == "%2b"
  {
    assert Encoded(" "[1..]) == "" && Encoded("+"[1..]) == "";
    assert EncodeChar('+') == ['%', ToHex(2), ToHex(43)];
  }

  lemma {:induction false} EncodingIsBytes(s: string)
    requires Bytes(s)
    ensures Bytes(Encoded(s))
    decreases |s|
  {
    hide EncodeChar, Safe, IsHex;
    if s != "" {
      EncodingIsBytes(s[if Escape(s) then 3 else 1..]);
    }
  }

  // ------------------------------------------------------------ the loop

  /** Writes a few characters through the output pointer. */
  method Put(buf: array<char>, at: nat, s: string) returns (next: nat)
    requires at + |s| <= buf.Length
    modifies buf
    ensures next == at + |s| && buf[..next] == old(buf[..at]) + s
  {
    var i := 0;
    while i < |s|
      invariant 0 <= i <= |s|
      invariant buf[..at + i] == old(buf[..at]) + s[..i]
    {
      buf[at + i] := s[i];
      assert s[..i + 1] == s[..i] + [s[i]];
      i := i + 1;
    }
    assert s[..|s|] == s;
    next := at + i;
  }

  method Encode(str: string) returns (buf: array<char>)
    requires Bytes(str) && NulFree(str)
    ensures fresh(buf) && buf.Length == 3 * |str| + 1
    ensures Holds(buf[..], Encoded(str))
  {
    buf := new char[3 * |str| + 1](_ => '\0');
    var i, p := 0, 0;
    while i < |str|
      invariant 0 <= i <= |str| && 0 <= p <= 3 * i
      invariant buf[..p] + Encoded(str[i..]) == Encoded(str)
    {
      ghost var rest, done := str[i..], buf[..p];
      if Escape(str[i..]) {
        p := Put(buf, p, str[i..i + 3]);
        assert rest[..3] == str[i..i + 3] && rest[3..] == str[i + 3..];
        i := i + 3;
      } else {
        p := Put(buf, p, EncodeChar(str[i]));
        assert rest[1..] == str[i + 1..];
        i := i + 1;
      }
      PrefixGrows(done, buf[..p], rest, str[i..]);
    }
    assert str[i..] == "";
    buf[p] := '\0';
    EncodingIsSafe(str);
  }

  lemma PrefixGrows(done: string, done': string, rest: string, rest': string)
    requires Bytes(rest) && rest != ""
    requires Escape(rest) ==> rest' == rest[3..] && done' == done + rest[..3]
    requires !Escape(rest) ==> rest' == rest[1..] && done' == done + EncodeChar(rest[0])
    ensures done' + Encoded(rest') == done + Encoded(rest)
  {
  }
}
