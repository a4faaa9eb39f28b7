/** The strict JSON tokenizer of include/jsmn.h: what one call does to the parser record and to
    the token array, as functions over values, and the tokenizer itself, proved to do that. */
module Jsmn {

  // The tokenizer is a class with the three fields of `jsmn_parser`, updated step by step. The
  // functions speak of the allocated prefix of the token array. A byte of input is a `char`;
  // nothing depends on more than comparisons of character codes, so bytes above 127 are
  // ordinary characters here.

  const ERROR_NOMEM: int := -1
  const ERROR_INVAL: int := -2
  const ERROR_PART: int := -3

  datatype Kind = Undefined | Object | Array | String | Primitive

  datatype Token = Token(kind: Kind, start: int, end: int, size: nat) {
    /** The test of the tokenizer for "bracket not closed yet". */
    predicate Open() { start != -1 && end == -1 }
    predicate Container() { kind == Object || kind == Array }
  }

  // ---------------------------------------------------------------- lexemes

  predicate AtEnd(js: string, i: nat) {
    i >= |js| || js[i] == '\0'
  }

  predicate IsBlank(c: char) { c == '\t' || c == '\r' || c == '\n' || c == ' ' }

  /** What ends a primitive in strict mode. */
  predicate IsDelimiter(c: char) { IsBlank(c) || c == ',' || c == ']' || c == '}' }

  predicate IsPrimitiveStart(c: char) { c == '-' || '0' <= c <= '9' || c == 't' || c == 'f' || c == 'n' }

  predicate IsGraphic(c: char) { 32 <= c as int < 127 }

  predicate IsHex(c: char) { '0' <= c <= '9' || 'A' <= c <= 'F' || 'a' <= c <= 'f' }

  predicate IsSimpleEscape(c: char) {
    c == '"' || c == '/' || c == '\\' || c == 'b' || c == 'f' || c == 'r' || c == 'n' || c == 't'
  }

  /** How the search for the end of a string or primitive ends. */
  datatype Scan = Found(at: nat) | Bad | Partial

  /** From `i`, the position of the first delimiter. */
  function ScanPrimitive(js: string, i: nat): (s: Scan)
    ensures s.Found? ==> i <= s.at < |js|
    decreases |js| - i
  {
    if AtEnd(js, i) then Partial
    else if IsDelimiter(js[i]) then Found(i)
    else if !IsGraphic(js[i]) then Bad
    else ScanPrimitive(js, i + 1)
  }

  /** Skips up to `n` hexadecimal digits; stops early only where the input ends. */
  function ScanHex(js: string, i: nat, n: nat): (s: Scan)
    requires i <= |js|
    ensures s.Found? ==> i <= s.at <= |js|
    ensures !s.Partial?
    decreases n
  {
    if n == 0 || AtEnd(js, i) then Found(i)
    else if IsHex(js[i]) then ScanHex(js, i + 1, n - 1)
    else Bad
  }

  /** From `i`, inside a string, the position of the closing quote. */
  function ScanString(js: string, i: nat): (s: Scan)
    ensures s.Found? ==> i <= s.at < |js|
    decreases |js| - i
  {
    if AtEnd(js, i) then Partial
    else if js[i] == '"' then Found(i)
    else if js[i] == '\\' && i + 1 < |js| then
      if IsSimpleEscape(js[i + 1]) then ScanString(js, i + 2)
      else if js[i + 1] == 'u' then
        var h := ScanHex(js, i + 2, 4);
        if h.Found? then ScanString(js, h.at) else Bad
      else Bad
    else ScanString(js, i + 1)
  }

  // ------------------------------------------------------------ one call, as a function

  /** The parser record together with the tokens allocated so far. */
  datatype State = State(pos: nat, toks: seq<Token>, super: int) {
    predicate Sane() { -1 <= super < |toks| }
  }

  datatype Step = Go(st: State) | Halt(code: int, st: State)
  datatype Outcome = Outcome(code: int, st: State)

  /** `jsmn_init`. */
  const INITIAL: State := State(0, [], -1)

  /** The backward scan for the innermost unclosed bracket; -1 when there is none. */
  function LastOpen(toks: seq<Token>): (i: int)
    ensures -1 <= i < |toks|
    ensures i >= 0 ==> toks[i].Open()
    ensures forall j :: i < j < |toks| ==> !toks[j].Open()
  {
    if toks == [] then -1
    else if toks[|toks| - 1].Open() then |toks| - 1
    else LastOpen(toks[..|toks| - 1])
  }

  /** The scan behind a comma, which also looks at the token's type. */
  function LastOpenContainer(toks: seq<Token>): (i: int)
    ensures -1 <= i < |toks|
    ensures i >= 0 ==> toks[i].Container() && toks[i].Open()
    ensures forall j :: i < j < |toks| ==> !(toks[j].Container() && toks[j].Open())
  {
    if toks == [] then -1
    else if toks[|toks| - 1].Container() && toks[|toks| - 1].Open() then |toks| - 1
    else LastOpenContainer(toks[..|toks| - 1])
  }

  /** One more child for the token `toksuper` points at. */
  function Bump(toks: seq<Token>, super: int): (r: seq<Token>)
    requires -1 <= super < |toks|
    ensures |r| == |toks|
  {
    if super == -1 then toks else toks[super := toks[super].(size := toks[super].size + 1)]
  }

  /** Opening bracket. A refused container has its slot allocated but not filled in. */
  function OpenStep(js: string, buf: seq<Token>, st: State): Step
    requires st.Sane() && st.pos < |js|
  {
    var n := |st.toks|;
    if n >= |buf| then Halt(ERROR_NOMEM, st)
    else if st.super != -1 && st.toks[st.super].kind == Object then
      Halt(ERROR_INVAL, st.(toks := st.toks + [Token(buf[n].kind, -1, -1, 0)]))
    else
      var kind := if js[st.pos] == '{' then Object else Array;
      Go(State(st.pos + 1, Bump(st.toks, st.super) + [Token(kind, st.pos, -1, 0)], n))
  }

  /** Closing bracket. */
  function CloseStep(js: string, st: State): Step
    requires st.Sane() && st.pos < |js|
  {
    var kind := if js[st.pos] == '}' then Object else Array;
    var i := LastOpen(st.toks);
    if i == -1 || st.toks[i].kind != kind then Halt(ERROR_INVAL, st)
    else Go(State(st.pos + 1, st.toks[i := st.toks[i].(end := st.pos + 1)], LastOpen(st.toks[..i])))
  }

  /** A scanned string or primitive that ends before `next` becomes a token. */
  function LeafStep(buf: seq<Token>, st: State, scan: Scan, kind: Kind, start: nat, next: nat): Step
    requires st.Sane()
  {
    match scan
    case Bad => Halt(ERROR_INVAL, st)
    case Partial => Halt(ERROR_PART, st)
    case Found(e) =>
      if |st.toks| >= |buf| then Halt(ERROR_NOMEM, st)
      else Go(State(next, Bump(st.toks, st.super) + [Token(kind, start, e, 0)], st.super))
  }

  function StringStep(js: string, buf: seq<Token>, st: State): Step
    requires st.Sane() && st.pos < |js|
  {
    var scan := ScanString(js, st.pos + 1);
    LeafStep(buf, st, scan, String, st.pos + 1, if scan.Found? then scan.at + 1 else st.pos)
  }

  /** A primitive may be neither a member of an object nor a second value of a key. */
  predicate RefusesPrimitive(t: Token) {
    t.kind == Object || (t.kind == String && t.size != 0)
  }

  function PrimitiveStep(js: string, buf: seq<Token>, st: State): Step
    requires st.Sane() && st.pos < |js|
  {
    if st.super != -1 && RefusesPrimitive(st.toks[st.super]) then Halt(ERROR_INVAL, st)
    else
      var scan := ScanPrimitive(js, st.pos);
      LeafStep(buf, st, scan, Primitive, st.pos, if scan.Found? then scan.at else st.pos)
  }

  function CommaStep(st: State): Step
    requires st.Sane()
  {
    if st.super != -1 && !st.toks[st.super].Container() then
      var i := LastOpenContainer(st.toks);
      Go(State(st.pos + 1, st.toks, if i == -1 then st.super else i))
    else Go(st.(pos := st.pos + 1))
  }

  /** One turn of the main loop over a token array `buf`; only the length of `buf` and
      the types left in its unused slots matter. */
  function FillStep(js: string, buf: seq<Token>, st: State): (s: Step)
    requires st.Sane() && !AtEnd(js, st.pos)
    ensures s.st.Sane()
  {
    var c := js[st.pos];
    if c == '{' || c == '[' then OpenStep(js, buf, st)
    else if c == '}' || c == ']' then CloseStep(js, st)
    else if c == '"' then StringStep(js, buf, st)
    else if IsBlank(c) then Go(st.(pos := st.pos + 1))
    else if c == ':' then Go(State(st.pos + 1, st.toks, |st.toks| - 1))
    else if c == ',' then CommaStep(st)
    else if IsPrimitiveStart(c) then PrimitiveStep(js, buf, st)
    else Halt(ERROR_INVAL, st)
  }

  /** Every turn that goes on moves the position forward, and never past the input. */
  lemma FillStepAdvances(js: string, buf: seq<Token>, st: State)
    requires st.Sane() && !AtEnd(js, st.pos)
    requires FillStep(js, buf, st).Go?
    ensures st.pos < FillStep(js, buf, st).st.pos <= |js|
  {
    if IsPrimitiveStart(js[st.pos]) {
      assert ScanPrimitive(js, st.pos) == ScanPrimitive(js, st.pos + 1);
    }
  }

  /** A call that fills tokens, from any parser state. */
  function FillRun(js: string, buf: seq<Token>, st: State): (o: Outcome)
    requires st.Sane()
    ensures o.st.Sane()
    decreases |js| - st.pos
  {
    if AtEnd(js, st.pos) then Outcome(if LastOpen(st.toks) >= 0 then ERROR_PART else |st.toks|, st)
    else
      match FillStep(js, buf, st)
      case Halt(code, st') => Outcome(code, st')
      case Go(st') => FillStepAdvances(js, buf, st); FillRun(js, buf, st')
  }

  /** What one turn contributes to a run. */
  lemma FillRunUnfolds(js: string, buf: seq<Token>, st: State)
    requires st.Sane() && !AtEnd(js, st.pos)
    ensures var step := FillStep(js, buf, st);
      if step.Halt? then step.code < 0 && FillRun(js, buf, st) == Outcome(step.code, step.st)
      else st.pos < step.st.pos <= |js| && FillRun(js, buf, st) == FillRun(js, buf, step.st)
  {
    if FillStep(js, buf, st).Go? {
      FillStepAdvances(js, buf, st);
    }
  }

  /** The counting pass, with no token array: position, count and `toksuper`. */
  datatype Tally = Tally(pos: nat, count: nat, super: int)
  datatype Counted = Counted(code: int, pos: nat, super: int)
  datatype CountStep = More(t: Tally) | Fail(code: int)

  function CountLeaf(scan: Scan, t: Tally, next: nat): CountStep {
    match scan
    case Bad => Fail(ERROR_INVAL)
    case Partial => Fail(ERROR_PART)
    case Found(_) => More(Tally(next, t.count + 1, t.super))
  }

  /** One turn of the main loop with a NULL token array; `toknext` never changes. */
  function CountTurn(js: string, toknext: nat, t: Tally): CountStep
    requires !AtEnd(js, t.pos)
  {
    var c := js[t.pos];
    if c == '{' || c == '[' then More(Tally(t.pos + 1, t.count + 1, t.super))
    else if c == '"' then
      var scan := ScanString(js, t.pos + 1);
      CountLeaf(scan, t, if scan.Found? then scan.at + 1 else t.pos)
    else if c == ':' then More(Tally(t.pos + 1, t.count, toknext - 1))
    else if c == '}' || c == ']' || IsBlank(c) || c == ',' then More(t.(pos := t.pos + 1))
    else if IsPrimitiveStart(c) then
      var scan := ScanPrimitive(js, t.pos);
      CountLeaf(scan, t, if scan.Found? then scan.at else t.pos)
    else Fail(ERROR_INVAL)
  }

  lemma CountTurnAdvances(js: string, toknext: nat, t: Tally)
    requires !AtEnd(js, t.pos) && CountTurn(js, toknext, t).More?
    ensures t.pos < CountTurn(js, toknext, t).t.pos <= |js|
  {
    if IsPrimitiveStart(js[t.pos]) {
      assert ScanPrimitive(js, t.pos) == ScanPrimitive(js, t.pos + 1);
    }
  }

  function CountRun(js: string, toknext: nat, t: Tally): Counted
    decreases |js| - t.pos
  {
    if AtEnd(js, t.pos) then Counted(t.count, t.pos, t.super)
    else
      match CountTurn(js, toknext, t)
      case Fail(code) => Counted(code, t.pos, t.super)
      case More(t') => CountTurnAdvances(js, toknext, t); CountRun(js, toknext, t')
  }

  /** `jsmn_parse(&parser, js, len, NULL, 0)` on a fresh parser. */
  function Count(js: string): Counted { CountRun(js, 0, Tally(0, 0, -1)) }

  /** `jsmn_parse(&parser, js, len, tokens, n)` on a fresh parser. */
  function Fill(js: string, buf: seq<Token>): Outcome { FillRun(js, buf, INITIAL) }

  // ------------------------------------------------------------ the tokenizer itself

  /** The two backward scans return the index they stop at. */
  lemma LastOpenIs(toks: seq<Token>, i: int)
    requires -1 <= i < |toks|
    requires i >= 0 ==> toks[i].Open()
    requires forall j :: i < j < |toks| ==> !toks[j].Open()
    ensures LastOpen(toks) == i
  {
    var k := LastOpen(toks);
    assert k >= 0 ==> toks[k].Open();
  }

  lemma LastOpenContainerIs(toks: seq<Token>, i: int)
    requires -1 <= i < |toks|
    requires i >= 0 ==> toks[i].Container() && toks[i].Open()
    requires forall j :: i < j < |toks| ==> !(toks[j].Container() && toks[j].Open())
    ensures LastOpenContainer(toks) == i
  {
    var k := LastOpenContainer(toks);
    assert k >= 0 ==> toks[k].Container() && toks[k].Open();
  }

  /** `jsmn_parser`. */
  class Parser {
    var pos: nat
    var toknext: nat
    var toksuper: int

    /** What the caller owes: an array as large as what is already allocated. */
    ghost predicate Fits(tokens: array?<Token>)
      reads this
    {
      tokens != null ==> toknext <= tokens.Length && -1 <= toksuper < toknext
    }

    ghost function View(tokens: array<Token>): (st: State)
      requires Fits(tokens)
      reads this, tokens
      ensures st.Sane()
    {
      State(pos, tokens[..toknext], toksuper)
    }

    /** A record as declared, not initialised yet. */
    constructor () {
    }

    /** `jsmn_init`. */
    method Init()
      modifies this
      ensures pos == 0 && toknext == 0 && toksuper == -1
    {
      pos, toknext, toksuper := 0, 0, -1;
    }

    /** `jsmn_alloc_token`: the index of a fresh slot, or -1 when the array is full. */
    method AllocToken(tokens: array<Token>) returns (i: int)
      requires Fits(tokens)
      modifies this`toknext, tokens
      ensures old(toknext) == tokens.Length ==> i == -1 && toknext == old(toknext) && tokens[..] == old(tokens[..])
      ensures old(toknext) < tokens.Length ==>
        && i == old(toknext) && toknext == i + 1
        && tokens[..] == old(tokens[..])[i := Token(old(tokens[..])[i].kind, -1, -1, 0)]
    {
      if toknext >= tokens.Length {
        return -1;
      }
      i := toknext;
      toknext := toknext + 1;
      tokens[i] := tokens[i].(start := -1, end := -1);
      tokens[i] := tokens[i].(size := 0);
    }

    /** The end of `jsmn_parse_primitive` and `jsmn_parse_string` once the lexeme is found:
        `start` is where the parser goes back to when the array is full. */
    method AddLeaf(tokens: array<Token>, kind: Kind, start: nat, first: nat) returns (r: int)
      requires Fits(tokens)
      modifies this, tokens
      ensures toksuper == old(toksuper)
      ensures old(toknext) == tokens.Length ==>
        r == ERROR_NOMEM && pos == start && toknext == old(toknext) && tokens[..] == old(tokens[..])
      ensures old(toknext) < tokens.Length ==>
        && r == 0 && pos == old(pos) && toknext == old(toknext) + 1
        && tokens[..] == old(tokens[..])[old(toknext) := Token(kind, first, old(pos), 0)]
    {
      var token := AllocToken(tokens);
      if token == -1 {
        pos := start;
        return ERROR_NOMEM;
      }
      tokens[token] := Token(kind, first, pos, 0);
      return 0;
    }

    /** `jsmn_parse_primitive`. On success the parser stands on the last character of the
        primitive, on failure it stands where it was. */
    method ParsePrimitive(js: string, tokens: array?<Token>) returns (r: int)
      requires Fits(tokens) && pos < |js| && IsPrimitiveStart(js[pos])
      modifies this, tokens
      ensures toksuper == old(toksuper)
      ensures r != 0 ==> pos == old(pos) && toknext == old(toknext) && (tokens != null ==> tokens[..] == old(tokens[..]))
      ensures match ScanPrimitive(js, old(pos))
        case Bad => r == ERROR_INVAL
        case Partial => r == ERROR_PART
        case Found(e) =>
          if tokens != null && old(toknext) == tokens.Length then r == ERROR_NOMEM
          else r == 0 && pos == e - 1 && old(pos) <= pos &&
               if tokens == null then toknext == old(toknext)
               else toknext == old(toknext) + 1 &&
                    tokens[..] == old(tokens[..])[old(toknext) := Token(Primitive, old(pos), e, 0)]
    {
      var start := pos;
      while pos < |js| && js[pos] != '\0'
        invariant start <= pos <= |js|
        invariant toknext == old(toknext) && toksuper == old(toksuper)
        invariant tokens != null ==> tokens[..] == old(tokens[..])
        invariant ScanPrimitive(js, pos) == ScanPrimitive(js, start)
        invariant pos == start ==> IsPrimitiveStart(js[start]) && pos < |js|
        decreases |js| - pos
      {
        if IsDelimiter(js[pos]) {
          if tokens == null {
            pos := pos - 1;
            return 0;
          }
          r := AddLeaf(tokens, Primitive, start, start);
          if r == 0 {
            pos := pos - 1;
          }
          return;
        }
        if js[pos] as int < 32 || js[pos] as int >= 127 {
          pos := start;
          return ERROR_INVAL;
        }
        pos := pos + 1;
      }
      pos := start;
      return ERROR_PART;
    }

    /** The `\uXXXX` part of `jsmn_parse_string`. */
    method SkipHex(js: string) returns (ok: bool)
      requires pos <= |js|
      modifies this`pos
      ensures match ScanHex(js, old(pos), 4)
        case Found(e) => ok && pos == e
        case _ => !ok
    {
      var i := 0;
      while i < 4 && pos < |js| && js[pos] != '\0'
        invariant 0 <= i <= 4 && old(pos) <= pos <= |js|
        invariant ScanHex(js, pos, 4 - i) == ScanHex(js, old(pos), 4)
      {
        if !IsHex(js[pos]) {
          return false;
        }
        pos := pos + 1;
        i := i + 1;
      }
      return true;
    }

    /** `jsmn_parse_string`. On success the parser stands on the closing quote, on failure
        it stands on the opening one. */
    method ParseString(js: string, tokens: array?<Token>) returns (r: int)
      requires Fits(tokens) && pos < |js|
      modifies this, tokens
      ensures toksuper == old(toksuper)
      ensures r != 0 ==> pos == old(pos) && toknext == old(toknext) && (tokens != null ==> tokens[..] == old(tokens[..]))
      ensures match ScanString(js, old(pos) + 1)
        case Bad => r == ERROR_INVAL
        case Partial => r == ERROR_PART
        case Found(e) =>
          if tokens != null && old(toknext) == tokens.Length then r == ERROR_NOMEM
          else r == 0 && pos == e &&
               if tokens == null then toknext == old(toknext)
               else toknext == old(toknext) + 1 &&
                    tokens[..] == old(tokens[..])[old(toknext) := Token(String, old(pos) + 1, e, 0)]
    {
      hide ScanHex;
      var start := pos;
      pos := pos + 1;
      while pos < |js| && js[pos] != '\0'
        invariant start < pos <= |js|
        invariant toknext == old(toknext) && toksuper == old(toksuper)
        invariant tokens != null ==> tokens[..] == old(tokens[..])
        invariant ScanString(js, pos) == ScanString(js, start + 1)
        decreases |js| - pos
      {
        var c := js[pos];
        if c == '"' {
          if tokens == null {
            return 0;
          }
          r := AddLeaf(tokens, String, start, start + 1);
          return;
        }
        if c == '\\' && pos + 1 < |js| {
          pos := pos + 1;
          if IsSimpleEscape(js[pos]) {
          } else if js[pos] == 'u' {
            pos := pos + 1;
            var ok := SkipHex(js);
            if !ok {
              pos := start;
              return ERROR_INVAL;
            }
            pos := pos - 1;
          } else {
            pos := start;
            return ERROR_INVAL;
          }
        }
        pos := pos + 1;
      }
      pos := start;
      return ERROR_PART;
    }

    /** `tokens[toksuper].size++`, when there is a superior token. */
    method CountChild(tokens: array<Token>)
      requires Fits(tokens)
      modifies tokens
      ensures tokens[..toknext] == Bump(old(tokens[..toknext]), toksuper)
      ensures tokens[toknext..] == old(tokens[toknext..])
    {
      if toksuper != -1 {
        tokens[toksuper] := tokens[toksuper].(size := tokens[toksuper].size + 1);
      }
    }

    /** Opening bracket, with a token array. */
    method OpenBracket(js: string, tokens: array<Token>) returns (r: int)
      requires Fits(tokens) && pos < |js|
      modifies this, tokens
      ensures Fits(tokens) && pos == old(pos)
      ensures tokens[toknext..] == old(tokens[..])[toknext..]
      ensures match OpenStep(js, old(tokens[..]), old(View(tokens)))
        case Go(st) => r == 0 && View(tokens) == st.(pos := old(pos))
        case Halt(code, st) => r == code && View(tokens) == st
    {
      var token := AllocToken(tokens);
      if token == -1 {
        return ERROR_NOMEM;
      }
      if toksuper != -1 {
        if tokens[toksuper].kind == Object {
          return ERROR_INVAL;
        }
        tokens[toksuper] := tokens[toksuper].(size := tokens[toksuper].size + 1);
      }
      tokens[token] := tokens[token].(kind := if js[pos] == '{' then Object else Array);
      tokens[token] := tokens[token].(start := pos);
      toksuper := toknext - 1;
      return 0;
    }

    /** Closing bracket, with a token array. */
    method CloseBracket(js: string, tokens: array<Token>) returns (r: int)
      requires Fits(tokens) && pos < |js|
      modifies this`toksuper, tokens
      ensures Fits(tokens)
      ensures tokens[toknext..] == old(tokens[..])[toknext..]
      ensures match CloseStep(js, old(View(tokens)))
        case Go(st) => r == 0 && View(tokens) == st.(pos := pos)
        case Halt(code, st) => r == code && View(tokens) == st
    {
      ghost var was := tokens[..toknext];
      var kind := if js[pos] == '}' then Object else Array;
      var i: int := toknext - 1;
      while i >= 0 && !tokens[i].Open()
        invariant -1 <= i < toknext
        invariant forall j :: i < j < toknext ==> !tokens[j].Open()
      {
        i := i - 1;
      }
      LastOpenIs(was, i);
      if i == -1 {
        return ERROR_INVAL;
      }
      if tokens[i].kind != kind {
        return ERROR_INVAL;
      }
      toksuper := -1;
      tokens[i] := tokens[i].(end := pos + 1);
      ghost var c := i;
      while i >= 0 && !tokens[i].Open()
        invariant -1 <= i <= c
        invariant forall j :: i < j < c ==> !tokens[j].Open()
        invariant toksuper == -1
      {
        i := i - 1;
      }
      assert was[..c] == tokens[..c];
      LastOpenIs(was[..c], i);
      if i >= 0 {
        toksuper := i;
      }
      return 0;
    }

    /** A comma, with a token array: after a key's value, back to the enclosing bracket. */
    method Comma(tokens: array<Token>)
      requires Fits(tokens)
      modifies this`toksuper
      ensures Fits(tokens)
      ensures View(tokens) == CommaStep(old(View(tokens))).st.(pos := pos)
    {
      if toksuper != -1 && tokens[toksuper].kind != Array && tokens[toksuper].kind != Object {
        var i: int := toknext - 1;
        while i >= 0
          invariant -1 <= i < toknext
          invariant forall j :: i < j < toknext ==> !(tokens[j].Container() && tokens[j].Open())
          invariant toksuper == old(toksuper)
        {
          if tokens[i].Container() && tokens[i].Open() {
            break;
          }
          i := i - 1;
        }
        LastOpenContainerIs(tokens[..toknext], i);
        if i >= 0 {
          toksuper := i;
        }
      }
    }

    /** The string case of `jsmn_parse` over an array. */
    method FillString(js: string, tokens: array<Token>) returns (r: int)
      requires Fits(tokens) && !AtEnd(js, pos) && js[pos] == '"'
      modifies this, tokens
      ensures Fits(tokens) && old(toknext) <= toknext
      ensures tokens[toknext..] == old(tokens[..])[toknext..]
      ensures match FillStep(js, old(tokens[..]), old(View(tokens)))
        case Go(st) => r == 0 && View(tokens) == st.(pos := st.pos - 1)
        case Halt(code, st) => r == code && View(tokens) == st
    {
      hide LastOpen, LastOpenContainer, ScanString, ScanPrimitive, RefusesPrimitive;
      ghost var st := View(tokens);
      r := ParseString(js, tokens);
      if r < 0 {
        assert tokens[..toknext] == st.toks;
        return;
      }
      ghost var leaf := tokens[toknext - 1];
      assert tokens[..toknext] == st.toks + [leaf];
      CountChild(tokens);
      assert tokens[..toknext] == Bump(st.toks, toksuper) + [leaf];
    }

    /** The primitive case. */
    method FillPrimitive(js: string, tokens: array<Token>) returns (r: int)
      requires Fits(tokens) && !AtEnd(js, pos) && IsPrimitiveStart(js[pos])
      modifies this, tokens
      ensures Fits(tokens) && old(toknext) <= toknext
      ensures tokens[toknext..] == old(tokens[..])[toknext..]
      ensures match FillStep(js, old(tokens[..]), old(View(tokens)))
        case Go(st) => r == 0 && View(tokens) == st.(pos := st.pos - 1)
        case Halt(code, st) => r == code && View(tokens) == st
    {
      hide LastOpen, LastOpenContainer, ScanString, ScanPrimitive, RefusesPrimitive;
      ghost var st := View(tokens);
      if toksuper != -1 && RefusesPrimitive(tokens[toksuper]) {
        return ERROR_INVAL;
      }
      r := ParsePrimitive(js, tokens);
      if r < 0 {
        assert tokens[..toknext] == st.toks;
        return;
      }
      ghost var leaf := tokens[toknext - 1];
      assert tokens[..toknext] == st.toks + [leaf];
      CountChild(tokens);
      assert tokens[..toknext] == Bump(st.toks, toksuper) + [leaf];
    }

    /** The switch of `jsmn_parse` over an array. */
    method FillTurn(js: string, tokens: array<Token>) returns (r: int)
      requires Fits(tokens) && !AtEnd(js, pos)
      modifies this, tokens
      ensures Fits(tokens) && old(toknext) <= toknext
      ensures tokens[toknext..] == old(tokens[..])[toknext..]
      ensures match FillStep(js, old(tokens[..]), old(View(tokens)))
        case Go(st) => r == 0 && View(tokens) == st.(pos := st.pos - 1)
        case Halt(code, st) => r == code && View(tokens) == st
    {
      var c := js[pos];
      if c == '{' || c == '[' {
        r := OpenBracket(js, tokens);
      } else if c == '}' || c == ']' {
        r := CloseBracket(js, tokens);
      } else if c == '"' {
        r := FillString(js, tokens);
      } else if IsPrimitiveStart(c) {
        r := FillPrimitive(js, tokens);
      } else if IsBlank(c) {
        r := 0;
      } else if c == ':' {
        toksuper := toknext - 1;
        r := 0;
      } else if c == ',' {
        Comma(tokens);
        r := 0;
      } else {
        r := ERROR_INVAL;
      }
    }

    /** The switch of `jsmn_parse` with a NULL array, and the local `count` it moves. */
    method CountingTurn(js: string, count: nat) returns (r: int, count': nat)
      requires !AtEnd(js, pos)
      modifies this
      ensures toknext == old(toknext)
      ensures match CountTurn(js, old(toknext), Tally(old(pos), count, old(toksuper)))
        case More(t) => r == 0 && Tally(pos + 1, count', toksuper) == t
        case Fail(code) => r == code && pos == old(pos) && toksuper == old(toksuper)
    {
      var c := js[pos];
      r, count' := 0, count;
      if c == '{' || c == '[' {
        count' := count + 1;
      } else if c == '"' {
        r := ParseString(js, null);
        count' := count + 1;
      } else if c == ':' {
        toksuper := toknext - 1;
      } else if IsPrimitiveStart(c) {
        r := ParsePrimitive(js, null);
        count' := count + 1;
      } else if !(c == '}' || c == ']' || IsBlank(c) || c == ',') {
        r := ERROR_INVAL;
      }
    }

    /** `jsmn_parse`. With an array the call does what `FillRun` says, to the parser record,
        to the tokens and to the unused slots; with NULL it does what `CountRun` says. */
    method Parse(js: string, tokens: array?<Token>) returns (r: int)
      requires Fits(tokens)
      modifies this, tokens
      ensures Fits(tokens)
      ensures tokens != null ==>
        && Outcome(r, View(tokens)) == FillRun(js, old(tokens[..]), old(View(tokens)))
        && tokens[toknext..] == old(tokens[..])[toknext..]
      ensures tokens == null ==>
        && Counted(r, pos, toksuper) == CountRun(js, old(toknext), Tally(old(pos), old(toknext), old(toksuper)))
        && toknext == old(toknext)
    {
      if tokens == null {
        r := ParseCounting(js);
      } else {
        r := ParseFilling(js, tokens);
      }
    }

    /** One turn of the loop with its `parser->pos++`, seen from the rest of the run. */
    method FillIteration(js: string, tokens: array<Token>, ghost buf: seq<Token>) returns (r: int)
      requires Fits(tokens) && !AtEnd(js, pos)
      requires |buf| == tokens.Length && tokens[toknext..] == buf[toknext..]
      modifies this, tokens
      ensures Fits(tokens) && tokens[toknext..] == buf[toknext..]
      ensures r < 0 ==> Outcome(r, View(tokens)) == FillRun(js, buf, old(View(tokens)))
      ensures r >= 0 ==> FillRun(js, buf, View(tokens)) == FillRun(js, buf, old(View(tokens)))
      ensures r >= 0 ==> old(pos) < pos
    {
      hide FillStep;
      ghost var st := View(tokens);
      ghost var was := tokens[..];
      ghost var n := toknext;
      StepIgnoresUsedSlots(js, buf, tokens[..], st);
      FillRunUnfolds(js, buf, st);
      r := FillTurn(js, tokens);
      assert tokens[toknext..] == was[n..][toknext - n..] == buf[toknext..];
      if r >= 0 {
        pos := pos + 1;
      }
    }

    /** The local `count` of `jsmn_parse` is always `toknext` here: both start equal and
        grow together. */
    method ParseFilling(js: string, tokens: array<Token>) returns (r: int)
      requires Fits(tokens)
      modifies this, tokens
      ensures Fits(tokens)
      ensures Outcome(r, View(tokens)) == FillRun(js, old(tokens[..]), old(View(tokens)))
      ensures tokens[toknext..] == old(tokens[..])[toknext..]
    {
      ghost var buf := tokens[..];
      while pos < |js| && js[pos] != '\0'
        invariant Fits(tokens)
        invariant tokens[toknext..] == buf[toknext..]
        invariant FillRun(js, buf, View(tokens)) == FillRun(js, buf, old(View(tokens)))
        decreases |js| - pos
      {
        r := FillIteration(js, tokens, buf);
        if r < 0 {
          return;
        }
      }
      var i: int := toknext - 1;
      while i >= 0
        invariant -1 <= i < toknext
        invariant forall j :: i < j < toknext ==> !tokens[j].Open()
      {
        if tokens[i].Open() {
          return ERROR_PART;
        }
        i := i - 1;
      }
      return toknext;
    }

    method ParseCounting(js: string) returns (r: int)
      modifies this
      ensures Counted(r, pos, toksuper) == CountRun(js, old(toknext), Tally(old(pos), old(toknext), old(toksuper)))
      ensures toknext == old(toknext)
    {
      var count: nat := toknext;
      while pos < |js| && js[pos] != '\0'
        invariant toknext == old(toknext)
        invariant
          (CountRun(js, toknext, Tally(pos, count, toksuper)) ==
           CountRun(js, old(toknext), Tally(old(pos), old(toknext), old(toksuper))))
        decreases |js| - pos
      {
        ghost var t := Tally(pos, count, toksuper);
        if CountTurn(js, toknext, t).More? { CountTurnAdvances(js, toknext, t); }
        r, count := CountingTurn(js, count);
        if r < 0 {
          return;
        }
        pos := pos + 1;
      }
      return count;
    }
  }

  /** A turn depends on the array only through its length and its unused slots. */
  lemma StepIgnoresUsedSlots(js: string, buf: seq<Token>, buf': seq<Token>, st: State)
    requires st.Sane() && !AtEnd(js, st.pos)
    requires |buf| == |buf'| && |st.toks| <= |buf| && buf[|st.toks|..] == buf'[|st.toks|..]
    ensures FillStep(js, buf, st) == FillStep(js, buf', st)
  {
    if |st.toks| < |buf| {
      assert buf[|st.toks|] == buf[|st.toks|..][0] == buf'[|st.toks|];
    }
  }
}
