/** When the expansion of a URL template ends. */
module TemplateEnds {

  // A value may contain specifiers itself; each specifier is then a production, and the
  // expansion a leftmost derivation. It stops at the first specifier it does not know, and a
  // percent sign at the end of a value takes hold of the character that follows it.

  import opened Template

  /** What becomes of a text in front of other text: no percent sign is left of it; one is left
      at its end; an unknown specifier stops the loop; or its derivation is higher than was
      looked at. */
  datatype Fate = Clean | Open | Stopped | Deep

  /** The fate of a text, looking at derivations no higher than `n`. */
  function FateOf(v: Values, s: string, n: nat): Fate
    decreases n, |s|
  {
    var i := FirstPercent(s);
    if i == |s| then Clean
    else if i + 1 == |s| then Open
    else if s[i + 1] == '%' then FateOf(v, s[i + 1..], n)
    else if !Known(s[i + 1]) then Stopped
    else if n == 0 then Deep
    else
      match FateOf(v, Value(v, s[i + 1]), n - 1)
      case Clean => FateOf(v, s[i + 2..], n)
      case Open => FateOf(v, ['%'] + s[i + 2..], n)
      case Stopped => Stopped
      case Deep => Deep
  }

  /** How many turns it takes. */
  function Turns(v: Values, s: string, n: nat): nat
    decreases n, |s|
  {
    var i := FirstPercent(s);
    if i + 1 >= |s| then 0
    else if s[i + 1] == '%' then 1 + Turns(v, s[i + 1..], n)
    else if !Known(s[i + 1]) || n == 0 then 0
    else
      1 + Turns(v, Value(v, s[i + 1]), n - 1) +
      match FateOf(v, Value(v, s[i + 1]), n - 1)
      case Clean => Turns(v, s[i + 2..], n)
      case Open => Turns(v, ['%'] + s[i + 2..], n)
      case _ => 0
  }

  // ------------------------------------------------------------ one turn

  datatype Kind = Going | Succeeded | Failed

  /** How the loop stands after at most `k` turns. */
  function KindOf(v: Values, s: string, k: nat): Kind {
    match Expand(v, s, k)
    case Running(_) => Going
    case Expanded(_) => Succeeded
    case Refused(_) => Failed
  }

  lemma {:induction false} FirstBehind(p: string, s: string)
    requires PercentFree(p)
    ensures FirstPercent(p + s) == |p| + FirstPercent(s)
    decreases |p|
  {
    if p == "" {
      assert p + s == s;
    } else {
      assert p[0] in p && (p + s)[1..] == p[1..] + s;
      FirstBehind(p[1..], s);
    }
  }

  lemma FirstInFront(s: string, t: string)
    requires FirstPercent(s) < |s|
    ensures FirstPercent(s + t) == FirstPercent(s)
  {
    var i := FirstPercent(s);
    assert s + t == s[..i] + (s[i..] + t);
    FirstBehind(s[..i], s[i..] + t);
    assert (s[i..] + t)[0] == '%';
  }

  lemma RewriteBehind(v: Values, p: string, s: string)
    requires PercentFree(p)
    ensures match Rewrite(v, s)
      case Done => Rewrite(v, p + s).Done?
      case Unknown => Rewrite(v, p + s).Unknown?
      case Rewritten(t) => Rewrite(v, p + s) == Rewritten(p + t)
  {
    FirstBehind(p, s);
    hide PercentFree, FirstPercent;
    var i := FirstPercent(s);
    if i < |s| {
      assert (p + s)[..|p| + i] == p + s[..i];
      if i + 1 < |s| {
        assert (p + s)[|p| + i + 1] == s[i + 1];
        assert (p + s)[|p| + i + 2..] == s[i + 2..];
        if Known(s[i + 1]) { Regroup(p, s[..i], Value(v, s[i + 1]), s[i + 2..]); }
      }
    }
  }

  lemma Regroup(p: string, s: string, t: string, u: string)
    ensures (p + s) + t + u == p + (s + t + u)
  {
  }

  /** Text without percent signs in front changes nothing. */
  lemma {:induction false} PlainInFront(v: Values, p: string, s: string, k: nat)
    requires PercentFree(p)
    ensures KindOf(v, p + s, k) == KindOf(v, s, k)
    decreases k
  {
    hide PercentFree, Rewrite;
    RewriteBehind(v, p, s);
    if k > 0 && Rewrite(v, s).Rewritten? {
      PlainInFront(v, p, Rewrite(v, s).s, k - 1);
    }
  }

  /** "%%": a percent sign is taken away. */
  lemma EscapeTurn(v: Values, s: string, k: nat)
    requires var i := FirstPercent(s); i + 1 < |s| && s[i + 1] == '%'
    ensures KindOf(v, s, k) == if k == 0 then Going else KindOf(v, s[FirstPercent(s) + 1..], k - 1)
  {
    hide FirstPercent, PercentFree, Rewrite;
    EscapeIsCut(v, s, FirstPercent(s));
    if k > 0 { PlainInFront(v, s[..FirstPercent(s)], s[FirstPercent(s) + 1..], k - 1); }
  }

  lemma EscapeIsCut(v: Values, s: string, i: nat)
    requires i == FirstPercent(s) && i + 1 < |s| && s[i + 1] == '%'
    ensures Rewrite(v, s) == Rewritten(s[..i] + s[i + 1..])
  {
    hide FirstPercent;
    assert s[..i] + "%" + s[i + 2..] == s[..i] + (['%'] + s[i + 2..]);
    assert s[i + 1..] == ['%'] + s[i + 2..];
    assert Value(v, s[i + 1]) == "%";
  }

  lemma ValueIsPutIn(v: Values, s: string, i: nat)
    requires i == FirstPercent(s) && i + 1 < |s| && s[i + 1] != '%' && Known(s[i + 1])
    ensures Rewrite(v, s) == Rewritten(s[..i] + (Value(v, s[i + 1]) + s[i + 2..]))
  {
    hide FirstPercent, Value;
    assert s[..i] + Value(v, s[i + 1]) + s[i + 2..] == s[..i] + (Value(v, s[i + 1]) + s[i + 2..]);
  }

  /** A specifier gives way to its value. */
  lemma ValueTurn(v: Values, s: string, k: nat)
    requires var i := FirstPercent(s); i + 1 < |s| && s[i + 1] != '%' && Known(s[i + 1])
    ensures var i := FirstPercent(s);
      KindOf(v, s, k) == if k == 0 then Going else KindOf(v, Value(v, s[i + 1]) + s[i + 2..], k - 1)
  {
    hide FirstPercent, PercentFree, Rewrite, Value, Known;
    var i := FirstPercent(s);
    ValueIsPutIn(v, s, i);
    if k > 0 { PlainInFront(v, s[..i], Value(v, s[i + 1]) + s[i + 2..], k - 1); }
  }

  // ------------------------------------------------------------ a text in front of another

  /** What is left for the text behind. */
  function Behind(fate: Fate, t: string): string
    requires fate.Clean? || fate.Open?
  {
    if fate.Clean? then t else ['%'] + t
  }

  /** After exactly as many turns as it takes, a text has met its fate. */
  lemma {:induction false} MeetsFate(v: Values, s: string, t: string, n: nat, k: nat)
    requires !FateOf(v, s, n).Deep?
    ensures var fate := FateOf(v, s, n);
      KindOf(v, s + t, k) ==
        if k < Turns(v, s, n) then Going
        else if fate.Stopped? then Failed
        else KindOf(v, Behind(fate, t), k - Turns(v, s, n))
    decreases n, |s|
  {
    hide KindOf, Value;
    var i := FirstPercent(s);
    if i == |s| {
      hide FateOf, Turns;
      PlainFate(v, s, n);
      PlainInFront(v, s, t, k);
    } else {
      hide FirstPercent;
      FirstInFront(s, t);
      if i + 1 == |s| {
        OpenAtEnd(v, s, t, k);
      } else {
        InFront(s, t, i);
        if s[i + 1] == '%' {
          EscapeTurn(v, s + t, k);
          if k > 0 { MeetsFate(v, s[i + 1..], t, n, k - 1); }
        } else if !Known(s[i + 1]) {
          UnknownTurn(v, s + t, k);
        } else {
          ValueTurn(v, s + t, k);
          if k > 0 { ValueMeetsFate(v, s, t, n, k, i); }
        }
      }
    }
  }

  lemma PlainFate(v: Values, s: string, n: nat)
    requires FirstPercent(s) == |s|
    ensures FateOf(v, s, n) == Clean && Turns(v, s, n) == 0 && PercentFree(s)
  {
  }

  lemma OpenAtEnd(v: Values, s: string, t: string, k: nat)
    requires FirstPercent(s) + 1 == |s|
    ensures KindOf(v, s + t, k) == KindOf(v, ['%'] + t, k)
  {
    hide FirstPercent, PercentFree, KindOf;
    var i := FirstPercent(s);
    assert s == s[..i] + ['%'];
    assert s + t == s[..i] + (['%'] + t);
    PlainInFront(v, s[..i], ['%'] + t, k);
  }

  lemma InFront(s: string, t: string, i: nat)
    requires i + 1 < |s|
    ensures (s + t)[i + 1] == s[i + 1] && (s + t)[i + 1..] == s[i + 1..] + t && (s + t)[i + 2..] == s[i + 2..] + t
  {
  }

  lemma UnknownTurn(v: Values, s: string, k: nat)
    requires var i := FirstPercent(s); i + 1 < |s| && !Known(s[i + 1])
    ensures KindOf(v, s, k) == Failed
  {
  }

  /** The value, and then what is behind it. */
  lemma {:induction false} ValueMeetsFate(v: Values, s: string, t: string, n: nat, k: nat, i: nat)
    requires i == FirstPercent(s) && i + 1 < |s| && s[i + 1] != '%' && Known(s[i + 1])
    requires !FateOf(v, s, n).Deep? && k > 0
    requires KindOf(v, s + t, k) == KindOf(v, Value(v, s[i + 1]) + (s[i + 2..] + t), k - 1)
    ensures var fate := FateOf(v, s, n);
      KindOf(v, s + t, k) ==
        if k < Turns(v, s, n) then Going
        else if fate.Stopped? then Failed
        else KindOf(v, Behind(fate, t), k - Turns(v, s, n))
    decreases n, |s|, 0
  {
    hide KindOf, Value, FirstPercent;
    var value, rest := Value(v, s[i + 1]), s[i + 2..];
    MeetsFate(v, value, rest + t, n - 1, k - 1);
    var m := Turns(v, value, n - 1);
    if k - 1 >= m {
      match FateOf(v, value, n - 1)
      case Clean => MeetsFate(v, rest, t, n, k - 1 - m);
      case Open =>
        assert ['%'] + (rest + t) == (['%'] + rest) + t;
        MeetsFate(v, ['%'] + rest, t, n, k - 1 - m);
      case Stopped =>
    }
  }

  // ------------------------------------------------------------ deeper and deeper

  /** A derivation higher than `n` takes more than `n` turns. */
  lemma {:induction false} DeepGoesOn(v: Values, s: string, t: string, n: nat, k: nat)
    requires FateOf(v, s, n).Deep? && k <= n
    ensures KindOf(v, s + t, k) == Going
    decreases n, |s|
  {
    hide KindOf, Value, FirstPercent;
    var i := FirstPercent(s);
    FirstInFront(s, t);
    InFront(s, t, i);
    if s[i + 1] == '%' {
      EscapeTurn(v, s + t, k);
      if k > 0 { DeepGoesOn(v, s[i + 1..], t, n, k - 1); }
    } else {
      ValueTurn(v, s + t, k);
      if k > 0 { DeepValueGoesOn(v, s, t, n, k, i); }
    }
  }

  lemma {:induction false} DeepValueGoesOn(v: Values, s: string, t: string, n: nat, k: nat, i: nat)
    requires i == FirstPercent(s) && i + 1 < |s| && s[i + 1] != '%' && Known(s[i + 1])
    requires FateOf(v, s, n).Deep? && 0 < k <= n
    ensures KindOf(v, Value(v, s[i + 1]) + (s[i + 2..] + t), k - 1) == Going
    decreases n, |s|, 0
  {
    hide KindOf, Value, FirstPercent, Turns;
    var value, rest := Value(v, s[i + 1]), s[i + 2..];
    if FateOf(v, value, n - 1).Deep? {
      DeepGoesOn(v, value, rest + t, n - 1, k - 1);
    } else {
      MeetsFate(v, value, rest + t, n - 1, k - 1);
      var m := Turns(v, value, n - 1);
      if k - 1 >= m {
        if FateOf(v, value, n - 1).Clean? {
          DeepGoesOn(v, rest, t, n, k - 1 - m);
        } else {
          assert ['%'] + (rest + t) == (['%'] + rest) + t;
          DeepGoesOn(v, ['%'] + rest, t, n, k - 1 - m);
        }
      }
    }
  }

  // ------------------------------------------------------------ how deep it need be looked

  lemma {:induction false} FateStays(v: Values, s: string, n: nat)
    requires !FateOf(v, s, n).Deep?
    ensures FateOf(v, s, n + 1) == FateOf(v, s, n)
    decreases n, |s|
  {
    hide Value, FirstPercent;
    var i := FirstPercent(s);
    if i + 1 < |s| {
      if s[i + 1] == '%' {
        FateStays(v, s[i + 1..], n);
      } else if Known(s[i + 1]) {
        FateStays(v, Value(v, s[i + 1]), n - 1);
        match FateOf(v, Value(v, s[i + 1]), n - 1)
        case Clean => FateStays(v, s[i + 2..], n);
        case Open => FateStays(v, ['%'] + s[i + 2..], n);
        case Stopped =>
      }
    }
  }

  const SPECIFIERS: set<char> := {'u', 'p', 'h', 'i'}

  /** The specifiers whose values are deeper than `n`. */
  function DeepOnes(v: Values, n: nat): (cs: set<char>)
    ensures cs <= SPECIFIERS
  {
    set c | c in SPECIFIERS && FateOf(v, Value(v, c), n).Deep?
  }

  /** When looking one deeper settles no specifier, no text is settled by looking deeper. */
  lemma {:induction false} SameDepthSameFate(v: Values, s: string, n: nat)
    requires DeepOnes(v, n + 1) == DeepOnes(v, n)
    ensures FateOf(v, s, n + 2) == FateOf(v, s, n + 1)
    decreases |s|
  {
    hide Value, FirstPercent, DeepOnes;
    var i := FirstPercent(s);
    if i + 1 < |s| {
      if s[i + 1] == '%' {
        SameDepthSameFate(v, s[i + 1..], n);
      } else if Known(s[i + 1]) {
        ValueSameFate(v, s[i + 1], n);
        match FateOf(v, Value(v, s[i + 1]), n)
        case Clean => SameDepthSameFate(v, s[i + 2..], n);
        case Open => SameDepthSameFate(v, ['%'] + s[i + 2..], n);
        case _ =>
      }
    }
  }

  lemma ValueSameFate(v: Values, c: char, n: nat)
    requires DeepOnes(v, n + 1) == DeepOnes(v, n) && Known(c) && c != '%'
    ensures FateOf(v, Value(v, c), n + 1) == FateOf(v, Value(v, c), n)
  {
    hide FateOf, Value;
    assert c in DeepOnes(v, n + 1) <==> c in DeepOnes(v, n);
    if c !in DeepOnes(v, n) { FateStays(v, Value(v, c), n); }
  }

  lemma SameDepthSameOnes(v: Values, n: nat)
    requires DeepOnes(v, n + 1) == DeepOnes(v, n)
    ensures DeepOnes(v, n + 2) == DeepOnes(v, n + 1)
  {
    hide FateOf, Value;
    forall c | c in SPECIFIERS ensures FateOf(v, Value(v, c), n + 2) == FateOf(v, Value(v, c), n + 1) {
      SameDepthSameFate(v, Value(v, c), n);
    }
  }

  lemma {:induction false} SettledForGood(v: Values, s: string, n: nat, m: nat)
    requires DeepOnes(v, n + 1) == DeepOnes(v, n) && n < m
    ensures FateOf(v, s, m) == FateOf(v, s, n + 1)
    ensures DeepOnes(v, m) == DeepOnes(v, n)
    decreases m
  {
    hide FateOf, Value, DeepOnes;
    if m > n + 1 {
      SettledForGood(v, s, n, m - 1);
      if m - 2 > n { SettledForGood(v, s, n, m - 2); }
      SameDepthSameOnes(v, m - 2);
      SameDepthSameFate(v, s, m - 2);
    }
  }

  lemma FewerDeepOnes(v: Values, n: nat)
    ensures DeepOnes(v, n + 1) <= DeepOnes(v, n)
  {
    hide FateOf, Value;
    forall c | c in DeepOnes(v, n + 1) ensures c in DeepOnes(v, n) {
      if !FateOf(v, Value(v, c), n).Deep? { FateStays(v, Value(v, c), n); }
    }
  }

  /** There are four specifiers, so this comes to pass within four steps. */
  lemma {:induction false} StepsToRest(v: Values, n: nat, size: nat) returns (m: nat)
    requires |DeepOnes(v, n)| <= size
    ensures n <= m <= n + size && DeepOnes(v, m + 1) == DeepOnes(v, m)
    decreases size
  {
    hide DeepOnes;
    FewerDeepOnes(v, n);
    if DeepOnes(v, n + 1) == DeepOnes(v, n) {
      m := n;
    } else {
      SmallerSet(DeepOnes(v, n + 1), DeepOnes(v, n));
      m := StepsToRest(v, n + 1, size - 1);
    }
  }

  lemma SmallerSet(a: set<char>, b: set<char>)
    requires a < b
    ensures |a| < |b|
  {
    assert b == a + (b - a) && |b - a| > 0;
  }

  /** One more than there are specifiers. */
  const HEIGHT: nat := 5

  /** Looking that deep tells whether a text is ever settled. */
  lemma DeepForEver(v: Values, s: string, n: nat)
    requires FateOf(v, s, HEIGHT).Deep?
    ensures FateOf(v, s, n).Deep?
  {
    hide FateOf, DeepOnes;
    SmallEnough(DeepOnes(v, 0));
    var m := StepsToRest(v, 0, 4);
    SettledForGood(v, s, m, HEIGHT);
    if n >= HEIGHT {
      SettledForGood(v, s, m, n);
    } else if !FateOf(v, s, n).Deep? {
      StaysUpTo(v, s, n, HEIGHT);
    }
  }

  lemma SmallEnough(cs: set<char>)
    requires cs <= SPECIFIERS
    ensures |cs| <= 4
  {
    assert SPECIFIERS == cs + (SPECIFIERS - cs) && |SPECIFIERS| == 4;
  }

  lemma {:induction false} StaysUpTo(v: Values, s: string, n: nat, m: nat)
    requires !FateOf(v, s, n).Deep? && n <= m
    ensures FateOf(v, s, m) == FateOf(v, s, n)
    decreases m - n
  {
    hide FateOf;
    if n < m {
      FateStays(v, s, n);
      StaysUpTo(v, s, n + 1, m);
    }
  }

  // ------------------------------------------------------------ the loop

  /** The loop that is settled within any height ends after exactly as many turns as it takes:
      with success if nothing is left open, and refused otherwise. */
  lemma EndsExactly(v: Values, s: string, n: nat, k: nat)
    requires !FateOf(v, s, n).Deep?
    ensures Expand(v, s, k).Running? <==> k < Turns(v, s, n)
    ensures Expand(v, s, k).Expanded? <==> k >= Turns(v, s, n) && FateOf(v, s, n).Clean?
    ensures Expand(v, s, k).Refused? <==> k >= Turns(v, s, n) && !FateOf(v, s, n).Clean?
  {
    hide Expand, FateOf, Turns;
    assert s + "" == s;
    MeetsFate(v, s, "", n, k);
    if k >= Turns(v, s, n) {
      NothingBehind(v, k - Turns(v, s, n));
    }
  }

  lemma NothingBehind(v: Values, k: nat)
    ensures KindOf(v, "", k) == Succeeded
    ensures KindOf(v, ['%'] + "", k) == Failed
  {
    var s := ['%'] + "";
    assert |s| == 1 && FirstPercent(s) == 0;
  }

  /** For every template and all values: the expansion ends if and only if the derivation of
      the template, looked at no deeper than the number of specifiers allows, is settled. */
  lemma ExpansionEndsIff(v: Values, s: string)
    ensures (exists k: nat :: !Expand(v, s, k).Running?) <==> !FateOf(v, s, HEIGHT).Deep?
  {
    hide Expand, FateOf, Turns;
    if FateOf(v, s, HEIGHT).Deep? {
      forall k: nat ensures Expand(v, s, k).Running? {
        DeepForEver(v, s, k);
        assert s + "" == s;
        DeepGoesOn(v, s, "", k, k);
      }
    } else {
      EndsExactly(v, s, HEIGHT, Turns(v, s, HEIGHT));
    }
  }

  /** A user name "%u" is replaced by itself for ever. */
  lemma {:induction false} ExpansionMayNeverEnd(v: Values, n: nat)
    requires v.username == "%u"
    ensures Expand(v, "%u", n) == Running("%u")
  {
    assert Value(v, 'u') == "%u";
    assert "%u"[..0] + "%u" + "%u"[2..] == "%u";
    if n > 0 { ExpansionMayNeverEnd(v, n - 1); }
  }

  // ------------------------------------------------------------ in terms of cycles

  /** Coming to the end of the derivation of what is before, the loop comes to a specifier in
      `S`. */
  ghost predicate Leads(v: Values, s: string, S: set<char>)
    decreases |s|
  {
    var i := FirstPercent(s);
    if i + 1 >= |s| then false
    else if s[i + 1] == '%' then Leads(v, s[i + 1..], S)
    else if !Known(s[i + 1]) then false
    else
      || s[i + 1] in S
      || match FateOf(v, Value(v, s[i + 1]), HEIGHT)
         case Clean => Leads(v, s[i + 2..], S)
         case Open => Leads(v, ['%'] + s[i + 2..], S)
         case _ => false
  }

  /** The value of every specifier in `S` leads back to `S`. */
  ghost predicate Sustaining(v: Values, S: set<char>) {
    forall c :: c in S ==> c in SPECIFIERS && Leads(v, Value(v, c), S)
  }

  lemma {:induction false} SustainedIsDeep(v: Values, s: string, S: set<char>, n: nat)
    requires Sustaining(v, S) && Leads(v, s, S)
    ensures FateOf(v, s, n).Deep?
    decreases n, |s|
  {
    hide Value, FirstPercent;
    var i := FirstPercent(s);
    if s[i + 1] == '%' {
      SustainedIsDeep(v, s[i + 1..], S, n);
    } else if n > 0 {
      var c := s[i + 1];
      if c in S {
        SustainedIsDeep(v, Value(v, c), S, n - 1);
      } else if !FateOf(v, Value(v, c), n - 1).Deep? {
        SameInTheEnd(v, Value(v, c), n - 1);
        if FateOf(v, Value(v, c), HEIGHT).Clean? {
          SustainedIsDeep(v, s[i + 2..], S, n);
        } else {
          SustainedIsDeep(v, ['%'] + s[i + 2..], S, n);
        }
      }
    }
  }

  lemma SameInTheEnd(v: Values, s: string, n: nat)
    requires !FateOf(v, s, n).Deep?
    ensures FateOf(v, s, HEIGHT) == FateOf(v, s, n)
  {
    hide FateOf;
    if FateOf(v, s, HEIGHT).Deep? {
      DeepForEver(v, s, n);
    } else if n <= HEIGHT {
      StaysUpTo(v, s, n, HEIGHT);
    } else {
      StaysUpTo(v, s, HEIGHT, n);
    }
  }

  /** The specifiers that are never settled. */
  function Restless(v: Values): set<char> { DeepOnes(v, HEIGHT) }

  lemma {:induction false} DeepLeads(v: Values, s: string)
    requires FateOf(v, s, HEIGHT + 1).Deep?
    ensures Leads(v, s, Restless(v))
    decreases |s|
  {
    hide Value, FirstPercent;
    var i := FirstPercent(s);
    if s[i + 1] == '%' {
      DeepLeads(v, s[i + 1..]);
    } else {
      match FateOf(v, Value(v, s[i + 1]), HEIGHT)
      case Clean => DeepLeads(v, s[i + 2..]);
      case Open => DeepLeads(v, ['%'] + s[i + 2..]);
      case Stopped =>
      case Deep => assert s[i + 1] in Restless(v);
    }
  }

  lemma RestlessSustainsItself(v: Values)
    ensures Sustaining(v, Restless(v))
  {
    hide FateOf, Value, Leads;
    forall c | c in Restless(v) ensures Leads(v, Value(v, c), Restless(v)) {
      DeepForEver(v, Value(v, c), HEIGHT + 1);
      DeepLeads(v, Value(v, c));
    }
  }

  /** The expansion never ends exactly if the template leads to a set of specifiers whose values
      all lead back to the set. */
  lemma NeverEndsIff(v: Values, s: string)
    ensures (forall k: nat :: Expand(v, s, k).Running?) <==> exists S :: Sustaining(v, S) && Leads(v, s, S)
  {
    hide Expand, FateOf, Leads, Sustaining, Restless;
    ExpansionEndsIff(v, s);
    if FateOf(v, s, HEIGHT).Deep? {
      DeepForEver(v, s, HEIGHT + 1);
      DeepLeads(v, s);
      RestlessSustainsItself(v);
    }
    forall S | Sustaining(v, S) && Leads(v, s, S) ensures FateOf(v, s, HEIGHT).Deep? {
      SustainedIsDeep(v, s, S, HEIGHT);
    }
  }
}
