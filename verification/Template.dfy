/** `custom_server_url` and `url_encode` of plugins/generic.c. Strings live NUL-terminated in
    arrays of characters; a character is a byte. */
module Template {
  import opened CStrings

  // ------------------------------------------------------------ format specifiers

  /** What the specifiers stand for; an empty user name or password is skipped, which is the
      same as replaced by nothing. */
  datatype Values = Values(username: string, password: string, name: string, address: string)

  ghost predicate ValuesNulFree(v: Values) {
    NulFree(v.username) && NulFree(v.password) && NulFree(v.name) && NulFree(v.address)
  }

  predicate PercentFree(s: string) { '%' !in s }

  predicate ValuesPercentFree(v: Values) {
    PercentFree(v.username) && PercentFree(v.password) && PercentFree(v.name) && PercentFree(v.address)
  }

  predicate Known(c: char) { c == 'u' || c == 'p' || c == 'h' || c == 'i' || c == '%' }

  function Value(v: Values, c: char): string
    requires Known(c)
  {
    if c == 'u' then v.username
    else if c == 'p' then v.password
    else if c == 'h' then v.name
    else if c == 'i' then v.address
    else "%"
  }

  /** `strchr(buf, '%')`. */
  function FirstPercent(s: string): (i: nat)
    ensures i <= |s| && PercentFree(s[..i]) && (i < |s| ==> s[i] == '%')
    ensures i == |s| <==> PercentFree(s)
  {
    if s == "" || s[0] == '%' then 0 else 1 + FirstPercent(s[1..])
  }

  /** One turn of the loop: done, stuck on an unknown specifier, or rewritten. */
  datatype Turn = Done | Unknown | Rewritten(s: string)

  function Rewrite(v: Values, s: string): Turn {
    var i := FirstPercent(s);
    if i == |s| then Done
    else if i + 1 == |s| || !Known(s[i + 1]) then Unknown
    else Rewritten(s[..i] + Value(v, s[i + 1]) + s[i + 2..])
  }

  /** How often '%' occurs. */
  function Percents(s: string): nat {
    if s == "" then 0 else (if s[0] == '%' then 1 else 0) + Percents(s[1..])
  }

  lemma {:induction false} PercentsAppend(s: string, t: string)
    ensures Percents(s + t) == Percents(s) + Percents(t)
    decreases |s|
  {
    if s == "" {
      assert s + t == t;
    } else {
      assert (s + t)[1..] == s[1..] + t;
      PercentsAppend(s[1..], t);
    }
  }

  lemma {:induction false} NoPercents(s: string)
    requires PercentFree(s)
    ensures Percents(s) == 0
    decreases |s|
  {
    if s != "" {
      assert s[0] in s;
      NoPercents(s[1..]);
    }
  }

  lemma PercentsOfTwo(c: char)
    ensures Percents(['%', c]) == 1 + Percents([c])
    ensures Percents("%") == 1 && (c != '%' ==> Percents([c]) == 0)
  {
    assert ['%', c][1..] == [c] && [c][1..] == [] && "%"[1..] == [];
  }

  lemma PercentsOfThree(s: string, t: string, u: string)
    ensures Percents(s + t + u) == Percents(s) + Percents(t) + Percents(u)
  {
    PercentsAppend(s + t, u);
    PercentsAppend(s, t);
  }

  /** A turn whose value contains no '%' leaves one '%' less, and so does one at "%%". */
  lemma RewriteShrinks(v: Values, s: string)
    requires Rewrite(v, s).Rewritten?
    requires var c := s[FirstPercent(s) + 1]; c == '%' || PercentFree(Value(v, c))
    ensures Percents(Rewrite(v, s).s) == Percents(s) - 1
  {
    hide Percents, PercentFree;
    var i := FirstPercent(s);
    var c := s[i + 1];
    var value, rest := Value(v, c), s[i + 2..];
    assert s == s[..i] + ['%', c] + rest;
    PercentsOfThree(s[..i], ['%', c], rest);
    PercentsOfThree(s[..i], value, rest);
    PercentsOfTwo(c);
    if c != '%' { NoPercents(value); }
  }

  /** The loop after at most `n` rewritings: left by its condition, left by the unknown
      specifier, or still going. */
  datatype Expansion = Expanded(s: string) | Refused(s: string) | Running(s: string)

  function Expand(v: Values, s: string, n: nat): Expansion
    decreases n
  {
    match Rewrite(v, s)
    case Done => Expanded(s)
    case Unknown => Refused(s)
    case Rewritten(t) => if n == 0 then Running(s) else Expand(v, t, n - 1)
  }

  /** Every string the loop goes through fits a buffer of `size` bytes. */
  predicate Fits(v: Values, s: string, n: nat, size: nat)
    decreases n
  {
    |s| < size &&
    match Rewrite(v, s)
    case Rewritten(t) => n > 0 && Fits(v, t, n - 1, size)
    case _ => true
  }

  lemma DoneIsPercentFree(v: Values, s: string)
    ensures Rewrite(v, s).Done? <==> PercentFree(s)
  {
  }

  /** Whatever the values, no '%' is left when the loop is left by its condition. */
  lemma {:induction false} ExpandedIsPercentFree(v: Values, s: string, n: nat)
    ensures Expand(v, s, n).Expanded? ==> PercentFree(Expand(v, s, n).s)
    decreases n
  {
    hide Rewrite, PercentFree;
    DoneIsPercentFree(v, s);
    if n > 0 && Rewrite(v, s).Rewritten? {
      ExpandedIsPercentFree(v, Rewrite(v, s).s, n - 1);
    }
  }

  /** Values without '%' make the loop end: it rewrites at most once for every '%' of the
      template. */
  lemma {:induction false} ExpansionEnds(v: Values, s: string, n: nat)
    requires ValuesPercentFree(v) && Percents(s) <= n
    ensures !Expand(v, s, n).Running?
    decreases n
  {
    hide PercentFree, Percents;
    if Rewrite(v, s).Rewritten? {
      RewriteShrinks(v, s);
      hide Rewrite;
      ExpansionEnds(v, Rewrite(v, s).s, n - 1);
    }
  }

  // ------------------------------------------------------------ one substitution from left to right

  /** Every '%' starts a specifier. */
  predicate IsTemplate(s: string)
    decreases |s|
  {
    if s == "" then true
    else if s[0] == '%' then |s| >= 2 && Known(s[1]) && IsTemplate(s[2..])
    else IsTemplate(s[1..])
  }

  /** The letters of the specifiers, from left to right. */
  function Specifiers(s: string): (cs: seq<char>)
    requires IsTemplate(s)
    ensures forall k :: 0 <= k < |cs| ==> Known(cs[k])
    decreases |s|
  {
    if s == "" then []
    else if s[0] == '%' then [s[1]] + Specifiers(s[2..])
    else Specifiers(s[1..])
  }

  /** What the documentation of the specifiers says: each stands for its value. */
  function OnePass(v: Values, s: string): string
    requires IsTemplate(s)
    decreases |s|
  {
    if s == "" then ""
    else if s[0] == '%' then Value(v, s[1]) + OnePass(v, s[2..])
    else s[..1] + OnePass(v, s[1..])
  }

  /** By how much the values outgrow their specifiers. */
  function Growth(v: Values, s: string): int
    requires IsTemplate(s)
    decreases |s|
  {
    if s == "" then 0
    else if s[0] == '%' then |Value(v, s[1])| - 2 + Growth(v, s[2..])
    else Growth(v, s[1..])
  }

  lemma {:induction false} OnePassLength(v: Values, s: string)
    requires IsTemplate(s)
    ensures |OnePass(v, s)| == |s| + Growth(v, s)
    decreases |s|
  {
    if s != "" { OnePassLength(v, if s[0] == '%' then s[2..] else s[1..]); }
  }

  /** No value of a specifier in use contains '%'; the value of "%%" does. */
  predicate UsedPlain(v: Values, s: string)
    requires IsTemplate(s)
  {
    forall k :: 0 <= k < |Specifiers(s)| ==> PercentFree(Value(v, Specifiers(s)[k]))
  }

  lemma {:induction false} PlainIsItself(v: Values, s: string)
    requires PercentFree(s)
    ensures IsTemplate(s) && Specifiers(s) == [] && OnePass(v, s) == s
    decreases |s|
  {
    if s != "" {
      assert s[0] in s;
      PlainIsItself(v, s[1..]);
    }
  }

  lemma {:induction false} TemplatesAppend(v: Values, s: string, t: string)
    requires IsTemplate(s)
    ensures IsTemplate(s + t) == IsTemplate(t)
    ensures IsTemplate(t) ==>
      Specifiers(s + t) == Specifiers(s) + Specifiers(t) && OnePass(v, s + t) == OnePass(v, s) + OnePass(v, t)
    decreases |s|
  {
    if s == "" {
      assert s + t == t;
    } else if s[0] == '%' {
      assert (s + t)[2..] == s[2..] + t;
      TemplatesAppend(v, s[2..], t);
    } else {
      assert (s + t)[1..] == s[1..] + t && (s + t)[..1] == s[..1];
      TemplatesAppend(v, s[1..], t);
    }
  }

  /** Around the first specifier. */
  lemma SplitAtFirst(v: Values, s: string)
    requires IsTemplate(s) && FirstPercent(s) < |s|
    ensures var i := FirstPercent(s);
      && i + 2 <= |s| && Known(s[i + 1]) && IsTemplate(s[i + 2..])
      && Specifiers(s) == [s[i + 1]] + Specifiers(s[i + 2..])
      && OnePass(v, s) == s[..i] + (Value(v, s[i + 1]) + OnePass(v, s[i + 2..]))
      && Rewrite(v, s) == Rewritten(s[..i] + Value(v, s[i + 1]) + s[i + 2..])
  {
    hide PercentFree, Value;
    var i := FirstPercent(s);
    var rest := s[i..];
    assert s == s[..i] + rest;
    PlainIsItself(v, s[..i]);
    TemplatesAppend(v, s[..i], rest);
    assert rest[0] == s[i] && rest[1] == s[i + 1];
    assert rest[2..] == s[i + 2..];
  }

  /** The string behind a turn, when the value is a template itself. */
  lemma RewrittenIsTemplate(v: Values, s: string)
    requires IsTemplate(s) && FirstPercent(s) < |s| && Rewrite(v, s).Rewritten?
    requires IsTemplate(Value(v, s[FirstPercent(s) + 1]))
    ensures var i := FirstPercent(s);
      var t := Rewrite(v, s).s;
      && IsTemplate(t) && IsTemplate(s[i + 2..])
      && Specifiers(t) == Specifiers(Value(v, s[i + 1])) + Specifiers(s[i + 2..])
      && OnePass(v, t) == s[..i] + (OnePass(v, Value(v, s[i + 1])) + OnePass(v, s[i + 2..]))
  {
    hide IsTemplate, Specifiers, OnePass;
    SplitAtFirst(v, s);
    var i := FirstPercent(s);
    var value, rest := Value(v, s[i + 1]), s[i + 2..];
    PlainIsItself(v, s[..i]);
    TemplatesAppend(v, value, rest);
    TemplatesAppend(v, s[..i], value + rest);
    assert s[..i] + value + rest == s[..i] + (value + rest);
  }

  /** A turn at a specifier whose value has no '%'. */
  lemma PlainTurn(v: Values, s: string)
    requires IsTemplate(s) && UsedPlain(v, s) && FirstPercent(s) < |s|
    ensures FirstPercent(s) + 1 < |s| && Known(s[FirstPercent(s) + 1])
    ensures PercentFree(Value(v, s[FirstPercent(s) + 1]))
    ensures Rewrite(v, s).Rewritten?
    ensures var t := Rewrite(v, s).s;
      && IsTemplate(t) && UsedPlain(v, t) && OnePass(v, t) == OnePass(v, s)
      && Percents(t) == Percents(s) - 1
  {
    hide OnePass, IsTemplate, Specifiers, Percents, PercentFree;
    var i := FirstPercent(s);
    SplitAtFirst(v, s);
    assert Specifiers(s)[0] == s[i + 1];
    PlainIsItself(v, Value(v, s[i + 1]));
    RewrittenIsTemplate(v, s);
    RewriteShrinks(v, s);
    assert Specifiers(Rewrite(v, s).s) == Specifiers(s)[1..];
  }

  /** Rewriting in place and rescanning from the start gives the same as one substitution
      from left to right. */
  lemma {:induction false} RescanningIsOnePass(v: Values, s: string, n: nat)
    requires IsTemplate(s) && UsedPlain(v, s) && Percents(s) <= n
    ensures Expand(v, s, n) == Expanded(OnePass(v, s))
    decreases n
  {
    hide OnePass, IsTemplate, Specifiers, Percents, PercentFree, Rewrite, UsedPlain;
    DoneIsPercentFree(v, s);
    if FirstPercent(s) == |s| {
      PlainIsItself(v, s);
    } else {
      PlainTurn(v, s);
      RescanningIsOnePass(v, Rewrite(v, s).s, n - 1);
    }
  }

  lemma {:induction false} PercentIsLeft(v: Values, s: string)
    requires IsTemplate(s) && !UsedPlain(v, s)
    ensures !PercentFree(OnePass(v, s))
    decreases |s|
  {
    if s[0] != '%' {
      assert Specifiers(s) == Specifiers(s[1..]);
      PercentIsLeft(v, s[1..]);
    } else if PercentFree(Value(v, s[1])) {
      var k :| 0 <= k < |Specifiers(s)| && !PercentFree(Value(v, Specifiers(s)[k]));
      assert Specifiers(s)[k] == Specifiers(s[2..])[k - 1];
      PercentIsLeft(v, s[2..]);
    }
  }

  /** The code substitutes as documented exactly when no specifier in use stands for text with
      a '%' in it, which "%%" always does: such a '%' is read again as the start of a
      specifier. */
  lemma SubstitutesIff(v: Values, s: string, n: nat)
    requires IsTemplate(s) && Percents(s) <= n
    ensures Expand(v, s, n) == Expanded(OnePass(v, s)) <==> UsedPlain(v, s)
  {
    hide Expand, OnePass, UsedPlain, Percents;
    ExpandedIsPercentFree(v, s, n);
    if UsedPlain(v, s) {
      RescanningIsOnePass(v, s, n);
    } else {
      PercentIsLeft(v, s);
    }
  }

  /** "%%u" is documented to yield "%u" and yields the user name. */
  lemma EscapedSpecifierIsExpanded(v: Values)
    requires PercentFree(v.username)
    ensures OnePass(v, "%%u") == "%u"
    ensures Expand(v, "%%u", 2) == Expanded(v.username)
  {
    var s, t := "%%u", "%u";
    assert s[..0] + "%" + s[2..] == t && t[..0] + v.username + t[2..] == v.username;
    assert FirstPercent(s) == 0 == FirstPercent(t) && FirstPercent(v.username) == |v.username|;
    assert s[2..] == "u";
    PlainIsItself(v, "u");
  }

  /** A password that is no template itself is refused in the middle of the expansion. */
  lemma PasswordIsRefused(v: Values)
    requires Rewrite(v, v.password).Unknown?
    ensures IsTemplate("%p") && OnePass(v, "%p") == v.password
    ensures Expand(v, "%p", 1) == Refused(v.password)
  {
    var s := "%p";
    assert s[2..] == "" && s[..0] + v.password + s[2..] == v.password;
    assert FirstPercent(s) == 0 && Rewrite(v, s) == Rewritten(v.password);
    PlainIsItself(v, "");
  }

  lemma FirstOfPassword()
    ensures FirstPercent("50%off") == 2
  {
    assert "50%off"[1..] == "0%off" && "0%off"[1..] == "%off";
    assert FirstPercent("%off") == 0 && FirstPercent("0%off") == 1;
  }

  /** For example "50%off". */
  lemma PercentInPasswordIsRefused(v: Values)
    requires v.password == "50%off"
    ensures OnePass(v, "%p") == "50%off" && Expand(v, "%p", 1) == Refused("50%off")
  {
    FirstOfPassword();
    hide Expand, OnePass, IsTemplate, FirstPercent;
    PasswordIsRefused(v);
  }

  /** There are five specifiers. */
  lemma KnownIff(c: char)
    ensures Known(c) <==> c in "uphi%"
  {
    assert "uphi%"[0] == 'u' && "uphi%"[1] == 'p' && "uphi%"[2] == 'h' && "uphi%"[3] == 'i' && "uphi%"[4] == '%';
  }

  /** A template by its first specifier. */
  lemma SpecifierBetween(v: Values, text: string, c: char, rest: string)
    requires PercentFree(text) && Known(c) && c != '%' && IsTemplate(rest)
    ensures var s := text + (['%', c] + rest);
      && IsTemplate(s) && Specifiers(s) == [c] + Specifiers(rest)
      && OnePass(v, s) == text + (Value(v, c) + OnePass(v, rest))
      && Percents(s) == 1 + Percents(rest)
  {
    var behind := ['%', c] + rest;
    assert behind[2..] == rest;
    PlainIsItself(v, text);
    TemplatesAppend(v, text, behind);
    NoPercents(text);
    PercentsAppend(text, behind);
    PercentsAppend(['%', c], rest);
    PercentsOfTwo(c);
  }

  /** The path the documentation gives as an example, around any texts: `%u` is the user name,
      `%p` the password, `%h` the host name and `%i` the address. */
  lemma DocumentedPath(v: Values, a: string, b: string, c: string, d: string)
    requires PercentFree(a) && PercentFree(b) && PercentFree(c) && PercentFree(d) && ValuesPercentFree(v)
    ensures Expand(v, a + ("%u" + (b + ("%p" + (c + ("%h" + (d + ("%i" + ""))))))), 4) ==
      Expanded(a + (v.username + (b + (v.password + (c + (v.name + (d + (v.address + ""))))))))
  {
    NothingIsTemplate(v);
    hide IsTemplate, Specifiers, OnePass, Percents, Expand, PercentFree, UsedPlain, ValuesPercentFree;
    var s1 := d + ("%i" + "");
    SpecifierBetween(v, d, 'i', "");
    var s2 := c + ("%h" + s1);
    SpecifierBetween(v, c, 'h', s1);
    var s3 := b + ("%p" + s2);
    SpecifierBetween(v, b, 'p', s2);
    var s4 := a + ("%u" + s3);
    SpecifierBetween(v, a, 'u', s3);
    FourAreUsed(v, s4);
    RescanningIsOnePass(v, s4, 4);
  }

  lemma NothingIsTemplate(v: Values)
    ensures IsTemplate("") && OnePass(v, "") == "" && Specifiers("") == [] && Percents("") == 0
  {
  }

  lemma FourAreUsed(v: Values, s: string)
    requires ValuesPercentFree(v) && IsTemplate(s) && Specifiers(s) == ['u'] + (['p'] + (['h'] + (['i'] + [])))
    ensures UsedPlain(v, s)
  {
    hide PercentFree;
  }

  /** The length of the longest text the loop goes through. */
  function Longest(v: Values, s: string): nat
    requires IsTemplate(s)
    decreases |s|
  {
    if s == "" then 0
    else if s[0] == '%' then
      var behind := |Value(v, s[1])| + Longest(v, s[2..]);
      if behind > |s| then behind else |s|
    else 1 + Longest(v, s[1..])
  }

  lemma {:induction false} LongestBehind(v: Values, p: string, s: string)
    requires PercentFree(p) && IsTemplate(p + s) && IsTemplate(s)
    ensures Longest(v, p + s) == |p| + Longest(v, s)
    decreases |p|
  {
    if p == "" {
      assert p + s == s;
    } else {
      assert p[0] in p;
      assert (p + s)[1..] == p[1..] + s;
      LongestBehind(v, p[1..], s);
    }
  }

  lemma PlainIsLongest(v: Values, s: string)
    requires PercentFree(s)
    ensures IsTemplate(s) && Longest(v, s) == |s|
  {
    PlainIsItself(v, s);
    assert s + "" == s;
    LongestBehind(v, s, "");
  }

  lemma PlainAppend(s: string, t: string)
    requires PercentFree(s) && PercentFree(t)
    ensures PercentFree(s + t)
  {
  }

  lemma LongestOfSpecifier(v: Values, s: string)
    requires IsTemplate(s) && s != "" && s[0] == '%'
    ensures var behind := |Value(v, s[1])| + Longest(v, s[2..]);
      Longest(v, s) == if behind > |s| then behind else |s|
  {
  }

  lemma CutAt(s: string, i: nat)
    requires i + 2 <= |s|
    ensures s == s[..i] + s[i..] && s[i..][0] == s[i] && s[i..][1] == s[i + 1] && s[i..][2..] == s[i + 2..]
  {
  }

  lemma TailAtFirst(v: Values, s: string)
    requires IsTemplate(s) && FirstPercent(s) < |s|
    ensures var i := FirstPercent(s);
      && i + 2 <= |s| && IsTemplate(s[i..]) && IsTemplate(s[i + 2..])
      && s == s[..i] + s[i..] && s[i..][0] == '%' && s[i..][1] == s[i + 1] && s[i..][2..] == s[i + 2..]
  {
    hide Specifiers, OnePass, Rewrite, PercentFree, Value, IsTemplate, Known;
    var i := FirstPercent(s);
    assert s[i] == '%';
    SplitAtFirst(v, s);
    hide FirstPercent;
    CutAt(s, i);
    PlainIsItself(v, s[..i]);
    TemplatesAppend(v, s[..i], s[i..]);
  }

  /** The longest of the texts from the second one on. */
  lemma LongestBehindTurn(v: Values, s: string, i: nat)
    requires IsTemplate(s) && i == FirstPercent(s) < |s| && i + 2 <= |s| && Known(s[i + 1]) && IsTemplate(s[i + 2..])
    requires PercentFree(Value(v, s[i + 1]))
    ensures var t := s[..i] + Value(v, s[i + 1]) + s[i + 2..];
      IsTemplate(t) && Longest(v, t) == i + |Value(v, s[i + 1])| + Longest(v, s[i + 2..])
  {
    hide IsTemplate, Longest, Specifiers, OnePass, PercentFree, Value, FirstPercent, Known;
    var p := s[..i] + Value(v, s[i + 1]);
    PlainAppend(s[..i], Value(v, s[i + 1]));
    PlainIsItself(v, p);
    TemplatesAppend(v, p, s[i + 2..]);
    LongestBehind(v, p, s[i + 2..]);
  }

  /** The longest text is the first one or one of those behind the first turn. */
  lemma LongestUnfolds(v: Values, s: string)
    requires IsTemplate(s) && FirstPercent(s) < |s| && Rewrite(v, s).Rewritten?
    requires PercentFree(Value(v, s[FirstPercent(s) + 1]))
    ensures var t := Rewrite(v, s).s;
      && IsTemplate(t)
      && Longest(v, s) == if Longest(v, t) > |s| then Longest(v, t) else |s|
  {
    hide IsTemplate, Longest, Specifiers, OnePass, PercentFree, Value;
    var i := FirstPercent(s);
    SplitAtFirst(v, s);
    TailAtFirst(v, s);
    LongestBehindTurn(v, s, i);
    hide FirstPercent, Known, Rewrite;
    LongestBehind(v, s[..i], s[i..]);
    LongestOfSpecifier(v, s[i..]);
  }

  /** A buffer is not overrun if and only if it has more bytes than the longest text. */
  lemma {:induction false} FitsIff(v: Values, s: string, n: nat, size: nat)
    requires IsTemplate(s) && UsedPlain(v, s) && Percents(s) <= n
    ensures Fits(v, s, n, size) <==> Longest(v, s) < size
    decreases n
  {
    hide OnePass, IsTemplate, Specifiers, Percents, PercentFree, Longest, Rewrite, UsedPlain;
    DoneIsPercentFree(v, s);
    if FirstPercent(s) == |s| {
      PlainIsLongest(v, s);
    } else {
      PlainTurn(v, s);
      LongestUnfolds(v, s);
      FitsIff(v, Rewrite(v, s).s, n - 1, size);
    }
  }

  // ------------------------------------------------------------ in place

  /** `replace_fmt` on the two characters at `at`: a memmove of the tail and its NUL, and a
      memcpy of the value. With an empty value it is `skip_fmt`. */
  method ReplaceFmt(buf: array<char>, at: nat, str: string, ghost s: string)
    requires Holds(buf[..], s) && at + 2 <= |s| && NulFree(str) && |s| - 2 + |str| < buf.Length
    modifies buf
    ensures Holds(buf[..], s[..at] + str + s[at + 2..])
  {
    hide NulFree;
    ghost var was := buf[..];
    assert |s| < |was|;
    hide Holds;
    var len := StringLength(buf, at + 2, s);
    MoveBytes(buf, at + |str|, at + 2, len + 1);
    CopyIn(buf, at, str);
    assert forall k :: at + |str| <= k <= |s| - 2 + |str| ==> buf[k] == was[k - |str| + 2];
    ReplacedHolds(was, buf[..], at, str, s);
  }

  lemma ReplacedHolds(was: seq<char>, now: seq<char>, at: nat, str: string, s: string)
    requires Holds(was, s) && at + 2 <= |s| && NulFree(str)
    requires |s| - 2 + |str| < |was| == |now|
    requires forall k :: 0 <= k < at ==> now[k] == was[k]
    requires forall k :: at <= k < at + |str| ==> now[k] == str[k - at]
    requires forall k :: at + |str| <= k <= |s| - 2 + |str| ==> now[k] == was[k - |str| + 2]
    ensures Holds(now, s[..at] + str + s[at + 2..])
  {
    var t := s[..at] + str + s[at + 2..];
    forall k | 0 <= k < |t| ensures now[k] == t[k] {
      if k < at {
        assert s[k] == was[..|s|][k];
      } else if k >= at + |str| {
        assert s[k - |str| + 2] == was[..|s|][k - |str| + 2];
      }
    }
    assert now[..|t|] == t;
  }

  /** `memcpy` of a value. */
  method CopyIn(buf: array<char>, at: nat, str: string)
    requires at + |str| <= buf.Length
    modifies buf
    ensures forall k :: at <= k < at + |str| ==> buf[k] == str[k - at]
    ensures forall k :: 0 <= k < at || at + |str| <= k < buf.Length ==> buf[k] == old(buf[k])
  {
    forall k | at <= k < at + |str| { buf[k] := str[k - at]; }
  }

  /** `memmove`. */
  method MoveBytes(buf: array<char>, to: nat, from: nat, n: nat)
    requires to + n <= buf.Length && from + n <= buf.Length
    modifies buf
    ensures forall k :: to <= k < to + n ==> buf[k] == old(buf[k - to + from])
    ensures forall k :: 0 <= k < to || to + n <= k < buf.Length ==> buf[k] == old(buf[k])
  {
    forall k | to <= k < to + n { buf[k] := buf[k - to + from]; }
  }

  lemma ValueIsNulFree(v: Values, c: char)
    requires ValuesNulFree(v) && Known(c)
    ensures NulFree(Value(v, c))
  {
  }

  /** What one turn means for the rest of the loop. */
  lemma TurnUnfolds(v: Values, t: string, left: nat, size: nat)
    requires Fits(v, t, left, size)
    ensures var i := FirstPercent(t);
      if i == |t| then Expand(v, t, left) == Expanded(t)
      else if i + 1 == |t| || !Known(t[i + 1]) then Expand(v, t, left) == Refused(t)
      else
        && Rewrite(v, t) == Rewritten(t[..i] + Value(v, t[i + 1]) + t[i + 2..])
        && left > 0 && Expand(v, t, left) == Expand(v, Rewrite(v, t).s, left - 1)
        && Fits(v, Rewrite(v, t).s, left - 1, size) && |Rewrite(v, t).s| < size
  {
    hide Value, Known;
  }

  /** `custom_server_url`: the length of the expanded string, or -1. The source demands of
      its caller that the loop ends and that the buffer is large enough. */
  method CustomServerUrl(buf: array<char>, v: Values, ghost s: string, ghost turns: nat)
    returns (n: int, ghost t: string)
    requires ValuesNulFree(v) && Holds(buf[..], s) && Fits(v, s, turns, buf.Length)
    modifies buf
    ensures Holds(buf[..], t)
    ensures Expand(v, s, turns) == if n >= 0 then Expanded(t) else Refused(t)
    ensures n == if Expand(v, s, turns).Expanded? then |t| else -1
  {
    hide NulFree, Value, ValuesNulFree, Expand, Fits, Rewrite, FirstPercent, PercentFree, Known;
    t := s;
    ghost var left := turns;
    var at := FindPercent(buf, t);
    while buf[at] != '\0'
      invariant Holds(buf[..], t) && at == FirstPercent(t) && Fits(v, t, left, buf.Length)
      invariant Expand(v, t, left) == Expand(v, s, turns)
      decreases left
    {
      HoldsAt(buf[..], t, at);
      TurnUnfolds(v, t, left, buf.Length);
      var c := buf[at + 1];
      if c == '\0' || !Known(c) {
        return -1, t;
      }
      ValueIsNulFree(v, c);
      ReplaceFmt(buf, at, Value(v, c), t);
      t := Rewrite(v, t).s;
      left := left - 1;
      at := FindPercent(buf, t);
    }
    HoldsAt(buf[..], t, at);
    TurnUnfolds(v, t, left, buf.Length);
    n := StringLength(buf, 0, t);
  }

  /** What the buffer shows around the first '%'. */
  lemma HoldsAt(buf: seq<char>, t: string, at: nat)
    requires Holds(buf, t) && at == FirstPercent(t)
    ensures buf[at] == '\0' <==> at == |t|
    ensures at < |t| ==> buf[at + 1] == if at + 1 < |t| then t[at + 1] else '\0'
    ensures at + 1 < |t| ==> t[at + 1] != '\0'
  {
    assert at < |t| ==> buf[at] == t[at] == '%';
    assert at + 1 < |t| ==> buf[at + 1] == t[at + 1] && t[at + 1] in t;
  }

  /** `strchr(buf, '%')`: its position, or that of the NUL. */
  method FindPercent(buf: array<char>, ghost t: string) returns (at: nat)
    requires Holds(buf[..], t)
    ensures at == FirstPercent(t)
  {
    at := 0;
    while buf[at] != '\0' && buf[at] != '%'
      invariant at <= FirstPercent(t)
      decreases |t| - at
    {
      assert buf[at] == t[at];
      FirstPercentIs(t, at);
      at := at + 1;
    }
    FirstPercentIs(t, at);
    assert at < |t| ==> buf[at] == t[at] && t[at] in t;
  }

  lemma FirstPercentIs(t: string, at: nat)
    requires at <= FirstPercent(t)
    ensures at < FirstPercent(t) ==> t[at] != '%'
    ensures at < |t| && t[at] == '%' ==> at == FirstPercent(t)
  {
    var i := FirstPercent(t);
    if at < i {
      assert t[..i][at] in t[..i];
    }
  }
}
