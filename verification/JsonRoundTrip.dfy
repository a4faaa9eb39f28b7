/** Tokenizing undoes printing: on the text of a JSON tree the tokenizer leaves exactly
    the preorder flattening of the tree. */
module JsonRoundTrip {
  import opened Jsmn
  import opened JsonText

  // ------------------------------------------------------------ what must come out

  /** The tokens of a tree printed at offset `p`, in preorder: a key has one child, an
      object as many as it has pairs, an array as many as it has elements. */
  function Flatten(v: Json, p: nat): (toks: seq<Token>)
    ensures |toks| == Nodes(v)
    ensures forall i :: 0 <= i < |toks| ==> !toks[i].Open()
    decreases v, 0
  {
    match v
    case Literal(text) => [Token(Primitive, p, p + |text|, 0)]
    case Str(text) => [Token(String, p + 1, p + 1 + |text|, 0)]
    case Arr(pad, items) =>
      [Token(Array, p, p + |Print(v)|, Length(items))] + FlattenItems(items, p + 1 + |pad|)
    case Obj(pad, members) =>
      [Token(Object, p, p + |Print(v)|, Pairs(members))] + FlattenMembers(members, p + 1 + |pad|)
  }

  function FlattenItems(items: Items, p: nat): (toks: seq<Token>)
    ensures |toks| == NodesOfItems(items)
    ensures forall i :: 0 <= i < |toks| ==> !toks[i].Open()
    decreases items, 0
  {
    match items
    case NoItems => []
    case Item(before, value, after, rest) =>
      var at := p + |before|;
      Flatten(value, at) + FlattenItems(rest, at + |Print(value)| + |after| + 1)
  }

  function FlattenMembers(members: Members, p: nat): (toks: seq<Token>)
    ensures |toks| == NodesOfMembers(members)
    ensures forall i :: 0 <= i < |toks| ==> !toks[i].Open()
    decreases members, 0
  {
    match members
    case NoMembers => []
    case Member(before, key, mid, gap, value, after, rest) =>
      PairTokens(p, before, key, mid, gap, value) +
      FlattenMembers(rest, ValueStart(p, before, key, mid, gap) + |Print(value)| + |after| + 1)
  }

  /** The tokens of one pair: the key has got its child. */
  function PairTokens(p: nat, before: string, key: string, mid: string, gap: string, value: Json): (toks: seq<Token>)
    ensures |toks| == 1 + Nodes(value)
    ensures forall i :: 0 <= i < |toks| ==> !toks[i].Open()
    decreases value, 1
  {
    [KeyToken(p, before, key, 1)] + Flatten(value, ValueStart(p, before, key, mid, gap))
  }

  /** Where the value of a pair begins, and where its key ends. */
  function KeyEnd(p: nat, before: string, key: string): nat { p + |before| + 2 + |key| }
  function ValueStart(p: nat, before: string, key: string, mid: string, gap: string): nat {
    KeyEnd(p, before, key) + |mid| + 1 + |gap|
  }

  function KeyToken(p: nat, before: string, key: string, size: nat): Token {
    Token(String, p + |before| + 1, p + |before| + 1 + |key|, size)
  }

  // ------------------------------------------------------------ lexemes are scanned whole

  /** `s` is written in `js` at offset `p`. */
  predicate At(js: string, p: nat, s: string) {
    p + |s| <= |js| && js[p..p + |s|] == s
  }

  lemma AtSplit(js: string, p: nat, s: string, t: string)
    requires At(js, p, s + t)
    ensures At(js, p, s) && At(js, p + |s|, t)
  {
    var w := js[p..p + |s + t|];
    assert js[p..p + |s|] == w[..|s|] == s;
    assert js[p + |s|..p + |s| + |t|] == w[|s|..] == t;
  }

  lemma AtChar(js: string, p: nat, s: string, k: nat)
    requires At(js, p, s) && k < |s|
    ensures p + k < |js| && js[p + k] == s[k]
  {
    assert js[p..p + |s|][k] == s[k];
  }

  /** The first and the remaining characters of a literal. */
  predicate PrimitiveText(s: string) {
    s != "" && IsPrimitiveStart(s[0]) && forall i :: 0 <= i < |s| ==> IsGraphic(s[i]) && !IsDelimiter(s[i])
  }

  predicate NumberCharacter(c: char) { IsDigit(c) || c in "-+.eE" }

  lemma NumberCharacters(s: string, minus: string, whole: string, frac: string, exp: string)
    requires NumberParts(s, minus, whole, frac, exp)
    ensures forall i :: 0 <= i < |s| ==> NumberCharacter(s[i])
  {
    assert forall c <- minus :: c == '-';
    assert forall c <- whole :: IsDigit(c);
    assert forall k :: 0 <= k < |frac| ==> NumberCharacter(frac[k]) by {
      assert frac != "" ==> forall k :: 1 <= k < |frac| ==> frac[k] == frac[1..][k - 1];
    }
    assert forall k :: 0 <= k < |exp| ==> NumberCharacter(exp[k]) by {
      assert exp != "" ==> forall k :: 1 <= k < |exp| ==> exp[k] == exp[1..][k - 1];
      assert |exp| >= 2 ==> forall k :: 2 <= k < |exp| ==> exp[k] == exp[2..][k - 2];
    }
  }

  lemma NumberIsPrimitiveText(s: string)
    requires IsNumber(s)
    ensures PrimitiveText(s)
  {
    var minus, whole, frac, exp :| NumberParts(s, minus, whole, frac, exp);
    assert s != "" && s[0] == (if minus == "-" then '-' else whole[0]);
    assert whole[0] in whole;
    assert IsPrimitiveStart(s[0]);
    NumberCharacters(s, minus, whole, frac, exp);
    hide NumberParts;
  }

  lemma LiteralIsPrimitiveText(s: string)
    requires IsLiteral(s)
    ensures PrimitiveText(s)
  {
    if IsNumber(s) { NumberIsPrimitiveText(s); }
  }

  lemma {:induction false} ScanPrimitiveWhole(js: string, i: nat, e: nat)
    requires i <= e < |js| && IsDelimiter(js[e])
    requires forall k :: i <= k < e ==> IsGraphic(js[k]) && !IsDelimiter(js[k])
    ensures ScanPrimitive(js, i) == Found(e)
    decreases e - i
  {
    if i < e { ScanPrimitiveWhole(js, i + 1, e); }
  }

  lemma ScanHexWhole(js: string, i: nat)
    requires i + 4 <= |js|
    requires forall k :: i <= k < i + 4 ==> IsHex(js[k])
    ensures ScanHex(js, i, 4) == Found(i + 4)
  {
    assert ScanHex(js, i + 3, 1) == ScanHex(js, i + 4, 0);
    assert ScanHex(js, i + 2, 2) == ScanHex(js, i + 3, 1);
    assert ScanHex(js, i + 1, 3) == ScanHex(js, i + 2, 2);
  }

  /** The string behind its first `n` characters. */
  lemma BodyRest(js: string, i: nat, body: string, n: nat)
    requires At(js, i, body + "\"") && n <= |body|
    ensures At(js, i + n, body[n..] + "\"")
  {
    assert body + "\"" == body[..n] + (body[n..] + "\"");
    AtSplit(js, i, body[..n], body[n..] + "\"");
  }

  lemma HexEscapeScanned(js: string, i: nat, body: string)
    requires |body| >= 6 && (forall c <- body[2..6] :: IsHexDigit(c)) && At(js, i, body + "\"")
    ensures ScanHex(js, i + 2, 4) == Found(i + 6)
  {
    forall k | i + 2 <= k < i + 6 ensures IsHex(js[k]) {
      AtChar(js, i, body + "\"", k - i);
      assert js[k] == body[2..6][k - i - 2] && body[2..6][k - i - 2] in body[2..6];
    }
    ScanHexWhole(js, i + 2);
  }

  lemma {:induction false} ScanStringWhole(js: string, i: nat, body: string)
    requires IsStringBody(body) && At(js, i, body + "\"")
    ensures ScanString(js, i) == Found(i + |body|)
    decreases |body|
  {
    hide At, ScanHex;
    AtChar(js, i, body + "\"", 0);
    if body != "" {
      if body[0] == '\\' {
        AtChar(js, i, body + "\"", 1);
        if body[1] in "\"\\/bfnrt" {
          BodyRest(js, i, body, 2);
          ScanStringWhole(js, i + 2, body[2..]);
        } else {
          BodyRest(js, i, body, 6);
          HexEscapeScanned(js, i, body);
          ScanStringWhole(js, i + 6, body[6..]);
        }
      } else {
        BodyRest(js, i, body, 1);
        ScanStringWhole(js, i + 1, body[1..]);
      }
    }
  }

  // ------------------------------------------------------------ one lexeme at a time

  lemma RunBlank(js: string, buf: seq<Token>, st: State)
    requires st.Sane() && st.pos < |js| && IsBlank(js[st.pos])
    ensures FillRun(js, buf, st) == FillRun(js, buf, st.(pos := st.pos + 1))
  {
    hide FillRun;
    FillRunUnfolds(js, buf, st);
  }

  lemma {:induction false} RunBlanks(js: string, buf: seq<Token>, st: State, ws: string)
    requires st.Sane() && IsWhitespace(ws) && At(js, st.pos, ws)
    ensures FillRun(js, buf, st) == FillRun(js, buf, st.(pos := st.pos + |ws|))
    decreases |ws|
  {
    hide FillRun, FillStep;
    if ws == "" {
      assert st.(pos := st.pos) == st;
    } else {
      AtChar(js, st.pos, ws, 0);
      assert ws[0] in ws;
      RunBlank(js, buf, st);
      var rest := ws[1..];
      assert ws == [ws[0]] + rest;
      AtSplit(js, st.pos, [ws[0]], rest);
      assert forall c <- rest :: c in ws;
      RunBlanks(js, buf, st.(pos := st.pos + 1), rest);
    }
  }

  /** One turn that goes on leaves the outcome of the run unchanged. */
  lemma RunGoes(js: string, buf: seq<Token>, st: State, st': State)
    requires st.Sane() && !AtEnd(js, st.pos) && FillStep(js, buf, st) == Go(st')
    ensures st'.Sane() && FillRun(js, buf, st) == FillRun(js, buf, st')
  {
    FillRunUnfolds(js, buf, st);
  }

  /** A value may follow here: at the root, in an array, or behind a colon. */
  predicate ExpectsValue(st: State) {
    && st.Sane()
    && (st.super == -1 ||
        st.toks[st.super].kind == Array ||
        (st.toks[st.super].kind == String && st.toks[st.super].size == 0))
  }

  /** The state behind a string or primitive that becomes the token `t`. */
  function WithLeaf(st: State, t: Token, next: nat): State
    requires st.Sane()
  {
    State(next, Bump(st.toks, st.super) + [t], st.super)
  }

  lemma StepLiteral(js: string, buf: seq<Token>, st: State, e: nat)
    requires ExpectsValue(st) && !AtEnd(js, st.pos) && IsPrimitiveStart(js[st.pos])
    requires ScanPrimitive(js, st.pos) == Found(e) && |st.toks| < |buf|
    ensures FillStep(js, buf, st) == Go(WithLeaf(st, Token(Primitive, st.pos, e, 0), e))
  {
  }

  lemma StepString(js: string, buf: seq<Token>, st: State, e: nat)
    requires st.Sane() && !AtEnd(js, st.pos) && js[st.pos] == '"'
    requires ScanString(js, st.pos + 1) == Found(e) && |st.toks| < |buf|
    ensures FillStep(js, buf, st) == Go(WithLeaf(st, Token(String, st.pos + 1, e, 0), e + 1))
  {
  }

  /** A delimiter stands at `p`: what every value inside a bracket is followed by. */
  predicate DelimiterAt(js: string, p: nat) { p < |js| && IsDelimiter(js[p]) }

  lemma LiteralScanned(js: string, p: nat, text: string)
    requires IsLiteral(text) && At(js, p, text) && DelimiterAt(js, p + |text|)
    ensures !AtEnd(js, p) && IsPrimitiveStart(js[p])
    ensures ScanPrimitive(js, p) == Found(p + |text|)
  {
    hide IsLiteral, ScanPrimitive;
    LiteralIsPrimitiveText(text);
    AtChar(js, p, text, 0);
    forall k | p <= k < p + |text| ensures IsGraphic(js[k]) && !IsDelimiter(js[k]) {
      AtChar(js, p, text, k - p);
    }
    ScanPrimitiveWhole(js, p, p + |text|);
  }

  lemma StringScanned(js: string, p: nat, body: string)
    requires IsStringBody(body) && At(js, p, Quoted(body))
    ensures !AtEnd(js, p) && js[p] == '"'
    ensures ScanString(js, p + 1) == Found(p + 1 + |body|)
  {
    hide IsStringBody, ScanString;
    AtSplit(js, p, "\"", body + "\"");
    AtChar(js, p, "\"", 0);
    ScanStringWhole(js, p + 1, body);
  }

  lemma RunLiteral(js: string, buf: seq<Token>, st: State, text: string)
    requires ExpectsValue(st) && IsLiteral(text) && At(js, st.pos, text)
    requires DelimiterAt(js, st.pos + |text|)
    requires |st.toks| < |buf|
    ensures var e := st.pos + |text|;
      FillRun(js, buf, st) == FillRun(js, buf, WithLeaf(st, Token(Primitive, st.pos, e, 0), e))
  {
    hide FillRun, FillStep, At;
    LiteralScanned(js, st.pos, text);
    var e := st.pos + |text|;
    StepLiteral(js, buf, st, e);
    RunGoes(js, buf, st, WithLeaf(st, Token(Primitive, st.pos, e, 0), e));
  }

  lemma RunString(js: string, buf: seq<Token>, st: State, body: string)
    requires st.Sane() && IsStringBody(body) && At(js, st.pos, Quoted(body))
    requires |st.toks| < |buf|
    ensures var from := st.pos + 1;
      FillRun(js, buf, st) ==
      FillRun(js, buf, WithLeaf(st, Token(String, from, from + |body|, 0), from + |body| + 1))
  {
    hide FillRun, FillStep, At, IsStringBody, Quoted, ScanString, WithLeaf;
    StringScanned(js, st.pos, body);
    var e := st.pos + 1 + |body|;
    StepString(js, buf, st, e);
    RunGoes(js, buf, st, WithLeaf(st, Token(String, st.pos + 1, e, 0), e + 1));
  }

  lemma RunColon(js: string, buf: seq<Token>, st: State)
    requires st.Sane() && At(js, st.pos, ":")
    ensures FillRun(js, buf, st) == FillRun(js, buf, State(st.pos + 1, st.toks, |st.toks| - 1))
  {
    hide FillRun;
    AtChar(js, st.pos, ":", 0);
    RunGoes(js, buf, st, State(st.pos + 1, st.toks, |st.toks| - 1));
  }

  /** Behind a comma `toksuper` is the innermost open bracket, whatever the last value was. */
  lemma RunComma(js: string, buf: seq<Token>, st: State, c: nat)
    requires st.Sane() && At(js, st.pos, ",")
    requires c == LastOpen(st.toks) && st.toks[c].Container()
    requires st.super == c || (st.super >= 0 && !st.toks[st.super].Container())
    ensures FillRun(js, buf, st) == FillRun(js, buf, State(st.pos + 1, st.toks, c))
  {
    hide FillRun;
    AtChar(js, st.pos, ",", 0);
    LastOpenContainerIs(st.toks, c);
    RunGoes(js, buf, st, State(st.pos + 1, st.toks, c));
  }

  lemma RunOpen(js: string, buf: seq<Token>, st: State, bracket: string)
    requires ExpectsValue(st) && (bracket == "{" || bracket == "[") && At(js, st.pos, bracket)
    requires |st.toks| < |buf|
    ensures var kind := if bracket == "{" then Object else Array;
      FillRun(js, buf, st) == FillRun(js, buf,
        State(st.pos + 1, Bump(st.toks, st.super) + [Token(kind, st.pos, -1, 0)], |st.toks|))
  {
    hide FillRun;
    AtChar(js, st.pos, bracket, 0);
    var kind := if bracket == "{" then Object else Array;
    RunGoes(js, buf, st, State(st.pos + 1, Bump(st.toks, st.super) + [Token(kind, st.pos, -1, 0)], |st.toks|));
  }

  lemma RunClose(js: string, buf: seq<Token>, st: State, bracket: string, c: nat)
    requires st.Sane() && (bracket == "}" || bracket == "]") && At(js, st.pos, bracket)
    requires c == LastOpen(st.toks) && st.toks[c].kind == (if bracket == "}" then Object else Array)
    ensures FillRun(js, buf, st) == FillRun(js, buf,
      State(st.pos + 1, st.toks[c := st.toks[c].(end := st.pos + 1)], LastOpen(st.toks[..c])))
  {
    hide FillRun;
    AtChar(js, st.pos, bracket, 0);
    RunGoes(js, buf, st,
      State(st.pos + 1, st.toks[c := st.toks[c].(end := st.pos + 1)], LastOpen(st.toks[..c])));
  }

  // ------------------------------------------------------------ whole trees

  /** Closed tokens on top, or a new child count, do not change the innermost open bracket. */
  lemma LastOpenUnder(toks: seq<Token>, super: int, closed: seq<Token>)
    requires -1 <= super < |toks|
    requires forall i :: 0 <= i < |closed| ==> !closed[i].Open()
    ensures LastOpen(Bump(toks, super) + closed) == LastOpen(toks)
    ensures forall j :: 0 <= j < |toks| ==> (Bump(toks, super) + closed)[j].kind == toks[j].kind
  {
    hide LastOpen, Bump;
    var i := LastOpen(toks);
    var all := Bump(toks, super) + closed;
    BumpKeeps(toks, super);
    assert i >= 0 ==> toks[i].Open();
    forall j | i < j < |all| ensures !all[j].Open() {
      if j >= |toks| {
        assert all[j] == closed[j - |toks|];
      } else {
        assert !toks[j].Open();
      }
    }
    LastOpenIs(all, i);
  }

  /** Counting a child changes nothing but a size. */
  lemma BumpKeeps(toks: seq<Token>, super: int)
    requires -1 <= super < |toks|
    ensures forall j :: 0 <= j < |toks| ==>
      var t := Bump(toks, super)[j]; t.kind == toks[j].kind && t.Open() == toks[j].Open()
  {
  }

  /** The state behind a whole value. */
  function AfterValue(st: State, v: Json): State
    requires st.Sane()
  {
    State(st.pos + |Print(v)|, Bump(st.toks, st.super) + Flatten(v, st.pos),
          if v.Arr? || v.Obj? then LastOpen(st.toks) else st.super)
  }

  /** Room for `n` more tokens. */
  predicate Room(buf: seq<Token>, st: State, n: nat) { |st.toks| + n <= |buf| }

  /** The token array once the bracket at `c` has got `n` children, with the tokens `inner`
      on top, and is closed before `e`. */
  function Closed(toks: seq<Token>, c: nat, n: nat, inner: seq<Token>, e: nat): seq<Token>
    requires c < |toks|
  {
    toks[c := toks[c].(size := toks[c].size + n, end := e)] + inner
  }

  lemma DelimiterFollows(js: string, p: nat, ws: string, tail: string)
    requires IsWhitespace(ws) && At(js, p, ws + tail)
    requires tail != "" && IsDelimiter(tail[0])
    ensures DelimiterAt(js, p)
  {
    AtChar(js, p, ws + tail, 0);
    if ws != "" { assert ws[0] in ws; }
  }

  // -- how the pieces of a printed bracket lie in the input

  lemma ArrayText(js: string, p: nat, pad: string, items: Items)
    requires At(js, p, Print(Arr(pad, items)))
    ensures At(js, p, "[") && At(js, p + 1, pad) && At(js, p + 1 + |pad|, PrintItems(items))
    ensures |Print(Arr(pad, items))| == 1 + |pad| + |PrintItems(items)|
  {
    hide PrintItems, At;
    AtSplit(js, p, "[", pad + PrintItems(items));
    AtSplit(js, p + 1, pad, PrintItems(items));
  }

  lemma ObjectText(js: string, p: nat, pad: string, members: Members)
    requires At(js, p, Print(Obj(pad, members)))
    ensures At(js, p, "{") && At(js, p + 1, pad) && At(js, p + 1 + |pad|, PrintMembers(members))
    ensures |Print(Obj(pad, members))| == 1 + |pad| + |PrintMembers(members)|
  {
    hide PrintMembers, At;
    AtSplit(js, p, "{", pad + PrintMembers(members));
    AtSplit(js, p + 1, pad, PrintMembers(members));
  }

  /** A value, the whitespace behind it and what ends it. */
  lemma ValueText(js: string, p: nat, value: string, after: string, tail: string)
    requires At(js, p, value + (after + tail)) && IsWhitespace(after)
    requires tail != "" && IsDelimiter(tail[0])
    ensures At(js, p, value) && At(js, p + |value|, after) && DelimiterAt(js, p + |value|)
    ensures At(js, p + |value| + |after|, tail)
  {
    hide At, DelimiterAt;
    AtSplit(js, p, value, after + tail);
    DelimiterFollows(js, p + |value|, after, tail);
    AtSplit(js, p + |value|, after, tail);
  }

  lemma ItemText(js: string, p: nat, before: string, value: Json, after: string, rest: Items)
    requires At(js, p, PrintItems(Item(before, value, after, rest))) && IsWhitespace(after)
    ensures var p1 := p + |before|;
      var p2 := p1 + |Print(value)|;
      var p3 := p2 + |after|;
      && At(js, p, before) && At(js, p1, Print(value)) && At(js, p2, after) && DelimiterAt(js, p2)
      && (if rest.NoItems? then At(js, p3, "]") else At(js, p3, ",") && At(js, p3 + 1, PrintItems(rest)))
  {
    hide Print, At, DelimiterAt;
    var tail := if rest.NoItems? then "]" else "," + PrintItems(rest);
    AtSplit(js, p, before, Print(value) + (after + tail));
    ValueText(js, p + |before|, Print(value), after, tail);
    if !rest.NoItems? {
      AtSplit(js, p + |before| + |Print(value)| + |after|, ",", PrintItems(rest));
    }
  }

  lemma ItemLength(before: string, value: Json, after: string, rest: Items)
    ensures |PrintItems(Item(before, value, after, rest))| ==
      |before| + |Print(value)| + |after| + 1 + (if rest.NoItems? then 0 else |PrintItems(rest)|)
  {
    hide Print;
  }

  predicate KeyAt(js: string, p: nat, before: string, key: string, mid: string, gap: string) {
    && At(js, p, before) && At(js, p + |before|, Quoted(key))
    && At(js, KeyEnd(p, before, key), mid) && At(js, KeyEnd(p, before, key) + |mid|, ":")
    && At(js, KeyEnd(p, before, key) + |mid| + 1, gap)
  }

  lemma KeyText(js: string, p: nat, before: string, key: string, mid: string, gap: string, text: string)
    requires At(js, p, before + (Quoted(key) + (mid + (":" + (gap + text)))))
    ensures KeyAt(js, p, before, key, mid, gap)
    ensures At(js, ValueStart(p, before, key, mid, gap), text)
  {
    hide At;
    var quoted := Quoted(key);
    AtSplit(js, p, before, quoted + (mid + (":" + (gap + text))));
    AtSplit(js, p + |before|, quoted, mid + (":" + (gap + text)));
    AtSplit(js, KeyEnd(p, before, key), mid, ":" + (gap + text));
    AtSplit(js, KeyEnd(p, before, key) + |mid|, ":", gap + text);
    AtSplit(js, KeyEnd(p, before, key) + |mid| + 1, gap, text);
  }

  lemma MemberText(js: string, p: nat, before: string, key: string, mid: string, gap: string,
                   value: Json, after: string, rest: Members)
    requires At(js, p, PrintMembers(Member(before, key, mid, gap, value, after, rest))) && IsWhitespace(after)
    ensures var p1 := ValueStart(p, before, key, mid, gap);
      var p2 := p1 + |Print(value)|;
      var p3 := p2 + |after|;
      && KeyAt(js, p, before, key, mid, gap)
      && At(js, p1, Print(value)) && At(js, p2, after) && DelimiterAt(js, p2)
      && (if rest.NoMembers? then At(js, p3, "}") else At(js, p3, ",") && At(js, p3 + 1, PrintMembers(rest)))
  {
    hide Print, At, KeyAt, DelimiterAt, ValueStart, Quoted;
    var tail := if rest.NoMembers? then "}" else "," + PrintMembers(rest);
    var text := Print(value) + (after + tail);
    KeyText(js, p, before, key, mid, gap, text);
    var p1 := ValueStart(p, before, key, mid, gap);
    ValueText(js, p1, Print(value), after, tail);
    if !rest.NoMembers? {
      AtSplit(js, p1 + |Print(value)| + |after|, ",", PrintMembers(rest));
    }
  }

  lemma MemberLength(p: nat, before: string, key: string, mid: string, gap: string,
                     value: Json, after: string, rest: Members)
    ensures p + |PrintMembers(Member(before, key, mid, gap, value, after, rest))| ==
      ValueStart(p, before, key, mid, gap) + |Print(value)| + |after| + 1 +
      (if rest.NoMembers? then 0 else |PrintMembers(rest)|)
  {
    hide Print;
  }

  // -- the run over them

  lemma {:induction false} RunValue(js: string, buf: seq<Token>, st: State, v: Json)
    requires Valid(v) && ExpectsValue(st) && At(js, st.pos, Print(v)) && Room(buf, st, Nodes(v))
    requires v.Literal? ==> DelimiterAt(js, st.pos + |Print(v)|)
    ensures AfterValue(st, v).Sane()
    ensures FillRun(js, buf, st) == FillRun(js, buf, AfterValue(st, v))
    decreases v, 0
  {
    hide FillRun, FillStep, At, IsStringBody, IsLiteral, Bump;
    match v
    case Literal(text) => RunLiteral(js, buf, st, text);
    case Str(text) => RunString(js, buf, st, text);
    case Arr(pad, items) => RunArray(js, buf, st, pad, items);
    case Obj(pad, members) => RunObject(js, buf, st, pad, members);
  }

  /** Behind the opening bracket of a value and its padding. */
  function Inside(st: State, kind: Kind, pad: string): State
    requires st.Sane()
  {
    State(st.pos + 1 + |pad|, Bump(st.toks, st.super) + [Token(kind, st.pos, -1, 0)], |st.toks|)
  }

  lemma RunInside(js: string, buf: seq<Token>, st: State, bracket: string, pad: string)
    requires ExpectsValue(st) && (bracket == "{" || bracket == "[") && At(js, st.pos, bracket)
    requires IsWhitespace(pad) && At(js, st.pos + 1, pad) && |st.toks| < |buf|
    ensures var st' := Inside(st, if bracket == "{" then Object else Array, pad);
      LastOpen(st'.toks) == |st.toks| && FillRun(js, buf, st) == FillRun(js, buf, st')
  {
    hide FillRun, FillStep, At;
    var st' := Inside(st, if bracket == "{" then Object else Array, "");
    RunOpen(js, buf, st, bracket);
    RunBlanks(js, buf, st', pad);
    LastOpenIs(st'.toks, |st.toks|);
  }

  /** Opening a bracket, filling it with `n` children and closing it gives one value. */
  lemma ClosedInside(st: State, kind: Kind, pad: string, n: nat, inner: seq<Token>, e: nat)
    requires st.Sane()
    ensures var st' := Inside(st, kind, pad);
      && Closed(st'.toks, |st.toks|, n, inner, e) ==
         Bump(st.toks, st.super) + ([Token(kind, st.pos, e, n)] + inner)
      && LastOpen(st'.toks[..|st.toks|]) == LastOpen(st.toks)
  {
    hide LastOpen;
    var st' := Inside(st, kind, pad);
    assert st'.toks[..|st.toks|] == Bump(st.toks, st.super) + [];
    LastOpenUnder(st.toks, st.super, []);
  }

  lemma {:induction false} RunArray(js: string, buf: seq<Token>, st: State, pad: string, items: Items)
    requires IsWhitespace(pad) && ValidItems(items) && ExpectsValue(st)
    requires At(js, st.pos, Print(Arr(pad, items))) && Room(buf, st, 1 + NodesOfItems(items))
    ensures AfterValue(st, Arr(pad, items)).Sane()
    ensures FillRun(js, buf, st) == FillRun(js, buf, AfterValue(st, Arr(pad, items)))
    decreases items, 2
  {
    hide FillRun, FillStep, At, Print, PrintItems, ValidItems, LastOpen, Bump, Closed;
    ArrayText(js, st.pos, pad, items);
    RunInside(js, buf, st, "[", pad);
    var st1 := Inside(st, Array, pad);
    RunItems(js, buf, st1, items, |st.toks|);
    var e := st.pos + |Print(Arr(pad, items))|;
    ClosedInside(st, Array, pad, Length(items), FlattenItems(items, st1.pos), e);
  }

  lemma {:induction false} RunObject(js: string, buf: seq<Token>, st: State, pad: string, members: Members)
    requires IsWhitespace(pad) && ValidMembers(members) && ExpectsValue(st)
    requires At(js, st.pos, Print(Obj(pad, members))) && Room(buf, st, 1 + NodesOfMembers(members))
    ensures AfterValue(st, Obj(pad, members)).Sane()
    ensures FillRun(js, buf, st) == FillRun(js, buf, AfterValue(st, Obj(pad, members)))
    decreases members, 2
  {
    hide FillRun, FillStep, At, Print, PrintMembers, ValidMembers, LastOpen, Bump, Closed;
    ObjectText(js, st.pos, pad, members);
    RunInside(js, buf, st, "{", pad);
    var st1 := Inside(st, Object, pad);
    RunMembers(js, buf, st1, members, |st.toks|);
    var e := st.pos + |Print(Obj(pad, members))|;
    ClosedInside(st, Object, pad, Pairs(members), FlattenMembers(members, st1.pos), e);
  }

  /** The state behind the closing bracket of `c`. */
  function Out(st: State, c: nat, n: nat, inner: seq<Token>, e: nat): State
    requires c < |st.toks|
  {
    State(e, Closed(st.toks, c, n, inner, e), LastOpen(st.toks[..c]))
  }

  lemma RunOut(js: string, buf: seq<Token>, st: State, bracket: string, c: nat)
    requires st.Sane() && (bracket == "}" || bracket == "]") && At(js, st.pos, bracket)
    requires c == LastOpen(st.toks) && st.toks[c].kind == (if bracket == "}" then Object else Array)
    ensures Out(st, c, 0, [], st.pos + 1).Sane()
    ensures FillRun(js, buf, st) == FillRun(js, buf, Out(st, c, 0, [], st.pos + 1))
  {
    hide FillRun, FillStep, At, LastOpen;
    RunClose(js, buf, st, bracket, c);
    var e := st.pos + 1;
    assert Closed(st.toks, c, 0, [], e) == st.toks[c := st.toks[c].(end := e)];
  }

  /** Adding one child and its tokens first, and the other children before closing. */
  lemma OutAfterChild(st: State, st': State, c: nat, child: seq<Token>, n: nat, inner: seq<Token>, e: nat)
    requires c < |st.toks| && st'.toks == Bump(st.toks, c) + child
    ensures Out(st', c, n, inner, e) == Out(st, c, n + 1, child + inner, e)
  {
    hide LastOpen;
    assert st'.toks[..c] == st.toks[..c];
  }

  /** The value of an element and the whitespace around it. */
  lemma {:induction false} RunElement(js: string, buf: seq<Token>, st: State,
                                      before: string, value: Json, after: string, c: nat)
    requires Valid(value) && IsWhitespace(before) && IsWhitespace(after)
    requires st.Sane() && st.super == c == LastOpen(st.toks) && st.toks[c].kind == Array
    requires At(js, st.pos, before) && At(js, st.pos + |before|, Print(value))
    requires At(js, st.pos + |before| + |Print(value)|, after)
    requires DelimiterAt(js, st.pos + |before| + |Print(value)|) && Room(buf, st, Nodes(value))
    ensures LastOpen(Bump(st.toks, c) + Flatten(value, st.pos + |before|)) == c
    ensures (Bump(st.toks, c) + Flatten(value, st.pos + |before|))[c].kind == Array
    ensures FillRun(js, buf, st) == FillRun(js, buf,
      State(st.pos + |before| + |Print(value)| + |after|,
            Bump(st.toks, c) + Flatten(value, st.pos + |before|), c))
    decreases value, 1
  {
    hide FillRun, FillStep, At, Print, Flatten, LastOpen, Valid, Bump;
    RunBlanks(js, buf, st, before);
    var st1 := st.(pos := st.pos + |before|);
    RunValue(js, buf, st1, value);
    var st2 := AfterValue(st1, value);
    LastOpenUnder(st.toks, c, Flatten(value, st1.pos));
    RunBlanks(js, buf, st2, after);
  }

  /** The elements of the array token at `c`, up to and including its closing bracket. */
  lemma {:induction false} RunItems(js: string, buf: seq<Token>, st: State, items: Items, c: nat)
    requires ValidItems(items) && st.Sane() && st.super == c == LastOpen(st.toks) && st.toks[c].kind == Array
    requires At(js, st.pos, PrintItems(items)) && Room(buf, st, NodesOfItems(items))
    ensures var e := st.pos + |PrintItems(items)|;
      var st' := Out(st, c, Length(items), FlattenItems(items, st.pos), e);
      st'.Sane() && FillRun(js, buf, st) == FillRun(js, buf, st')
    decreases items, 1
  {
    hide FillRun, FillStep, At, Print, LastOpen, Bump, Closed;
    var e := st.pos + |PrintItems(items)|;
    match items
    case NoItems =>
      RunOut(js, buf, st, "]", c);
    case Item(before, value, after, rest) =>
      ItemText(js, st.pos, before, value, after, rest);
      ItemLength(before, value, after, rest);
      RunElement(js, buf, st, before, value, after, c);
      var child := Flatten(value, st.pos + |before|);
      var st1 := State(st.pos + |before| + |Print(value)| + |after|, Bump(st.toks, c) + child, c);
      if rest.NoItems? {
        RunOut(js, buf, st1, "]", c);
        OutAfterChild(st, st1, c, child, 0, [], e);
      } else {
        RunComma(js, buf, st1, c);
        var st2 := st1.(pos := st1.pos + 1);
        RunItems(js, buf, st2, rest, c);
        OutAfterChild(st, st2, c, child, Length(rest), FlattenItems(rest, st2.pos), e);
      }
  }
  /** The state behind the colon of a pair: `toksuper` is the key. */
  function AfterKey(st: State, before: string, key: string, mid: string, gap: string): State
    requires st.Sane()
  {
    State(ValueStart(st.pos, before, key, mid, gap),
          Bump(st.toks, st.super) + [KeyToken(st.pos, before, key, 0)], |st.toks|)
  }

  lemma RunKey(js: string, buf: seq<Token>, st: State, before: string, key: string, mid: string, gap: string)
    requires st.Sane() && Room(buf, st, 1)
    requires IsWhitespace(before) && IsWhitespace(mid) && IsWhitespace(gap) && IsStringBody(key)
    requires KeyAt(js, st.pos, before, key, mid, gap)
    ensures FillRun(js, buf, st) == FillRun(js, buf, AfterKey(st, before, key, mid, gap))
  {
    hide FillRun, FillStep, IsStringBody, At, Bump;
    RunBlanks(js, buf, st, before);
    var st1 := st.(pos := st.pos + |before|);
    RunString(js, buf, st1, key);
    var st2 := WithLeaf(st1, KeyToken(st.pos, before, key, 0), KeyEnd(st.pos, before, key));
    RunBlanks(js, buf, st2, mid);
    var st3 := st2.(pos := st2.pos + |mid|);
    RunColon(js, buf, st3);
    var st4 := State(st3.pos + 1, st3.toks, |st3.toks| - 1);
    RunBlanks(js, buf, st4, gap);
  }

  lemma KeyHasValue(st: State, before: string, key: string, mid: string, gap: string, value: Json, c: nat)
    requires st.Sane() && st.super == c == LastOpen(st.toks)
    ensures var st1 := AfterKey(st, before, key, mid, gap);
      var pair := PairTokens(st.pos, before, key, mid, gap, value);
      && Bump(st1.toks, |st.toks|) + Flatten(value, st1.pos) == Bump(st.toks, c) + pair
      && LastOpen(st1.toks) == c
  {
    hide LastOpen, Flatten;
    LastOpenUnder(st.toks, c, [KeyToken(st.pos, before, key, 0)]);
  }

  /** A key, its value and the whitespace around them. Behind a string or a primitive
      `toksuper` is still the key, behind a container it is the object again. */
  lemma {:induction false} RunPair(js: string, buf: seq<Token>, st: State, before: string, key: string,
                                   mid: string, gap: string, value: Json, after: string, c: nat)
    requires IsWhitespace(before) && IsWhitespace(mid) && IsWhitespace(gap) && IsWhitespace(after)
    requires IsStringBody(key) && Valid(value)
    requires st.Sane() && st.super == c == LastOpen(st.toks) && Room(buf, st, 1 + Nodes(value))
    requires KeyAt(js, st.pos, before, key, mid, gap)
    requires var p := ValueStart(st.pos, before, key, mid, gap);
      At(js, p, Print(value)) && At(js, p + |Print(value)|, after) && DelimiterAt(js, p + |Print(value)|)
    ensures FillRun(js, buf, st) == FillRun(js, buf, AfterPair(st, before, key, mid, gap, value, after, c))
    decreases value, 1
  {
    hide FillRun, FillStep, At, KeyAt, IsStringBody, IsWhitespace, Print, Flatten, LastOpen, Valid, Bump, ValueStart;
    RunKey(js, buf, st, before, key, mid, gap);
    var st1 := AfterKey(st, before, key, mid, gap);
    RunValue(js, buf, st1, value);
    KeyHasValue(st, before, key, mid, gap, value, c);
    RunBlanks(js, buf, AfterValue(st1, value), after);
  }

  function AfterPair(st: State, before: string, key: string, mid: string, gap: string,
                     value: Json, after: string, c: nat): State
    requires st.Sane() && 0 <= c < |st.toks|
  {
    State(ValueStart(st.pos, before, key, mid, gap) + |Print(value)| + |after|,
          Bump(st.toks, c) + PairTokens(st.pos, before, key, mid, gap, value),
          if value.Arr? || value.Obj? then c else |st.toks|)
  }

  /** Behind a pair the object is still the innermost open bracket. */
  lemma PairKeepsObject(st: State, before: string, key: string, mid: string, gap: string,
                        value: Json, after: string, c: nat)
    requires st.Sane() && st.super == c == LastOpen(st.toks) && st.toks[c].kind == Object
    ensures var st1 := AfterPair(st, before, key, mid, gap, value, after, c);
      && st1.Sane() && LastOpen(st1.toks) == c && st1.toks[c].kind == Object
      && (st1.super == c || (st1.super > c && !st1.toks[st1.super].Container()))
  {
    hide LastOpen, Flatten;
    LastOpenUnder(st.toks, c, PairTokens(st.pos, before, key, mid, gap, value));
  }

  /** The pairs of the object token at `c`, up to and including its closing bracket. */
  lemma {:induction false} RunMembers(js: string, buf: seq<Token>, st: State, members: Members, c: nat)
    requires ValidMembers(members) && st.Sane() && st.super == c == LastOpen(st.toks) && st.toks[c].kind == Object
    requires At(js, st.pos, PrintMembers(members)) && Room(buf, st, NodesOfMembers(members))
    ensures var e := st.pos + |PrintMembers(members)|;
      var st' := Out(st, c, Pairs(members), FlattenMembers(members, st.pos), e);
      st'.Sane() && FillRun(js, buf, st) == FillRun(js, buf, st')
    decreases members, 1
  {
    hide FillRun, FillStep, At, KeyAt, IsStringBody, IsWhitespace, Print, Flatten, LastOpen, Valid, Closed, ValueStart;
    match members
    case NoMembers =>
      RunOut(js, buf, st, "}", c);
    case Member(before, key, mid, gap, value, after, rest) =>
      hide PrintMembers;
      MemberText(js, st.pos, before, key, mid, gap, value, after, rest);
      MemberLength(st.pos, before, key, mid, gap, value, after, rest);
      RunPair(js, buf, st, before, key, mid, gap, value, after, c);
      RunRest(js, buf, st, before, key, mid, gap, value, after, rest, c);
  }

  /** What follows a pair: the closing bracket, or a comma and the other pairs. */
  lemma {:induction false} RunRest(js: string, buf: seq<Token>, st: State, before: string, key: string,
                                   mid: string, gap: string, value: Json, after: string, rest: Members, c: nat)
    requires ValidMembers(rest) && st.Sane() && st.super == c == LastOpen(st.toks) && st.toks[c].kind == Object
    requires Room(buf, st, 1 + Nodes(value) + NodesOfMembers(rest))
    requires var p := AfterPair(st, before, key, mid, gap, value, after, c).pos;
      if rest.NoMembers? then At(js, p, "}") else At(js, p, ",") && At(js, p + 1, PrintMembers(rest))
    ensures var st1 := AfterPair(st, before, key, mid, gap, value, after, c);
      var e := st1.pos + 1 + (if rest.NoMembers? then 0 else |PrintMembers(rest)|);
      var pair := PairTokens(st.pos, before, key, mid, gap, value);
      var st' := Out(st, c, 1 + Pairs(rest), pair + FlattenMembers(rest, st1.pos + 1), e);
      st1.Sane() && st'.Sane() && FillRun(js, buf, st1) == FillRun(js, buf, st')
    decreases rest, 2
  {
    hide FillRun, FillStep, At, Print, PrintMembers, ValidMembers, LastOpen, Closed, ValueStart, PairTokens;
    PairKeepsObject(st, before, key, mid, gap, value, after, c);
    var pair := PairTokens(st.pos, before, key, mid, gap, value);
    var st1 := AfterPair(st, before, key, mid, gap, value, after, c);
    var e := st1.pos + 1 + (if rest.NoMembers? then 0 else |PrintMembers(rest)|);
    if rest.NoMembers? {
      RunOut(js, buf, st1, "}", c);
      OutAfterChild(st, st1, c, pair, 0, [], e);
    } else {
      RunComma(js, buf, st1, c);
      var st2 := State(st1.pos + 1, st1.toks, c);
      RunMembers(js, buf, st2, rest, c);
      OutAfterChild(st, st2, c, pair, Pairs(rest), FlattenMembers(rest, st2.pos), e);
    }
  }

  /** The root is an object or an array, with whitespace on either side: `jsmn_parse` with
      enough tokens returns the number of nodes of the tree and leaves its flattening. */
  lemma TokenizingUndoesPrinting(v: Json, lead: string, trail: string, buf: seq<Token>)
    requires Valid(v) && (v.Obj? || v.Arr?)
    requires IsWhitespace(lead) && IsWhitespace(trail) && Nodes(v) <= |buf|
    ensures var js := lead + Print(v) + trail;
      Fill(js, buf) == Outcome(Nodes(v), State(|js|, Flatten(v, |lead|), -1))
  {
    hide FillStep, FillRun, Flatten, Print, IsWhitespace, At, Valid, Nodes;
    var js := lead + Print(v) + trail;
    PiecesLie(lead, Print(v), trail);
    RunBlanks(js, buf, INITIAL, lead);
    var st1 := State(|lead|, [], -1);
    RunValue(js, buf, st1, v);
    var st2 := AfterValue(st1, v);
    assert st2.toks == Flatten(v, |lead|);
    RunBlanks(js, buf, st2, trail);
    RunEnds(js, buf, st2.(pos := |js|));
  }

  lemma PiecesLie(lead: string, body: string, trail: string)
    ensures var js := lead + body + trail;
      At(js, 0, lead) && At(js, |lead|, body) && At(js, |lead| + |body|, trail)
  {
  }

  /** Where the input ends and every token is closed, the call returns their number. */
  lemma RunEnds(js: string, buf: seq<Token>, st: State)
    requires st.Sane() && st.pos == |js|
    requires forall i :: 0 <= i < |st.toks| ==> !st.toks[i].Open()
    ensures FillRun(js, buf, st) == Outcome(|st.toks|, st)
  {
  }
}
