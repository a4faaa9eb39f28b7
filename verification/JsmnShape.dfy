/** What the token array looks like after any run over any input. */
module JsmnShape {
  import opened Jsmn
  import opened JsmnRuns

  // ------------------------------------------------------------ single tokens

  /** What the input holds at the ends of a token; `pos` bounds what was read so far. */
  predicate Delimited(js: string, pos: nat, t: Token)
    requires pos <= |js| && InBounds(js, pos, t)
  {
    match t.kind
    case Undefined => false
    case Object => js[t.start] == '{' && (t.end != -1 ==> js[t.end - 1] == '}')
    case Array => js[t.start] == '[' && (t.end != -1 ==> js[t.end - 1] == ']')
    case String => t.end != -1 && t.start > 0 && js[t.start - 1] == '"' && t.end < pos && js[t.end] == '"'
    case Primitive => t.start < t.end < |js| && IsPrimitiveStart(js[t.start]) && IsDelimiter(js[t.end])
  }

  predicate InBounds(js: string, pos: nat, t: Token)
    requires pos <= |js|
  {
    && 0 <= t.start < pos
    && (if t.end == -1 then t.Container()
        else t.start <= t.end <= pos && (t.Container() ==> t.start + 2 <= t.end))
  }

  predicate Placed(js: string, pos: nat, t: Token)
    requires pos <= |js|
  {
    InBounds(js, pos, t) && Delimited(js, pos, t)
  }

  // ------------------------------------------------------------ pairs of tokens

  /** How an earlier token lies to a later one: before it, or around it. */
  predicate Apart(a: Token, b: Token) { a.end <= b.start }
  predicate Around(a: Token, b: Token) { a.Container() && a.end != -1 && b.end != -1 && b.end <= a.end }

  predicate Ordered(a: Token, b: Token) {
    a.start < b.start && (a.end != -1 ==> Apart(a, b) || Around(a, b))
  }

  ghost predicate Shape(js: string, st: State) {
    && st.Sane() && st.pos <= |js|
    && (forall i :: 0 <= i < |st.toks| ==> Placed(js, st.pos, st.toks[i]))
    && (forall i, j :: 0 <= i < j < |st.toks| ==> Ordered(st.toks[i], st.toks[j]))
  }

  // ------------------------------------------------------------ one turn keeps the shape

  lemma ShapeMoves(js: string, st: State, pos: nat, super: int)
    requires Shape(js, st) && st.pos <= pos <= |js| && -1 <= super < |st.toks|
    ensures Shape(js, State(pos, st.toks, super))
  {
    forall i | 0 <= i < |st.toks| ensures Placed(js, pos, st.toks[i]) {
      assert Placed(js, st.pos, st.toks[i]);
    }
  }

  /** A new token that begins where the run stands, and the child it is for its superior. */
  lemma ShapeAdds(js: string, st: State, t: Token, pos: nat, super: int)
    requires Shape(js, st) && st.pos < pos <= |js| && -1 <= super <= |st.toks|
    requires Placed(js, pos, t) && st.pos <= t.start
    ensures Shape(js, State(pos, Bump(st.toks, st.super) + [t], super))
  {
    var old' := st.toks;
    var new' := Bump(old', st.super) + [t];
    forall i | 0 <= i < |new'|
      ensures Placed(js, pos, new'[i])
    {
      if i < |old'| { assert Placed(js, st.pos, old'[i]); }
    }
    forall i, j | 0 <= i < j < |new'|
      ensures Ordered(new'[i], new'[j])
    {
      assert Placed(js, st.pos, old'[i]);
      if j < |old'| { assert Ordered(old'[i], old'[j]); }
    }
  }

  /** Closing the innermost open token at `c`. */
  lemma ShapeCloses(js: string, st: State, c: nat, super: int)
    requires Shape(js, st) && st.pos < |js| && c == LastOpen(st.toks) && -1 <= super < |st.toks|
    requires st.toks[c].kind == (if js[st.pos] == '}' then Object else Array)
    requires js[st.pos] == '}' || js[st.pos] == ']'
    ensures Shape(js, State(st.pos + 1, st.toks[c := st.toks[c].(end := st.pos + 1)], super))
  {
    var e := st.pos + 1;
    var new' := st.toks[c := st.toks[c].(end := e)];
    assert st.toks[c].Open();
    forall i | 0 <= i < |new'|
      ensures Placed(js, e, new'[i])
    {
      assert Placed(js, st.pos, st.toks[i]);
    }
    forall i, j | 0 <= i < j < |new'|
      ensures Ordered(new'[i], new'[j])
    {
      assert Ordered(st.toks[i], st.toks[j]);
      assert Placed(js, st.pos, st.toks[i]) && Placed(js, st.pos, st.toks[j]);
      if i == c { assert !st.toks[j].Open(); }
    }
  }

  lemma TurnKeepsShape(js: string, buf: seq<Token>, st: State)
    requires Shape(js, st) && !AtEnd(js, st.pos) && FillStep(js, buf, st).Go?
    ensures Shape(js, FillStep(js, buf, st).st)
  {
    hide LastOpen, LastOpenContainer, ScanString, ScanPrimitive, Bump;
    var c := js[st.pos];
    var next := FillStep(js, buf, st).st;
    if c == '{' || c == '[' {
      ShapeAdds(js, st, Token(if c == '{' then Object else Array, st.pos, -1, 0), next.pos, next.super);
    } else if c == '}' || c == ']' {
      ShapeCloses(js, st, LastOpen(st.toks), next.super);
    } else if c == '"' {
      var e := ScanString(js, st.pos + 1).at;
      ScanStringFinds(js, st.pos + 1);
      ShapeAdds(js, st, Token(String, st.pos + 1, e, 0), next.pos, next.super);
    } else if IsPrimitiveStart(c) {
      var e := ScanPrimitive(js, st.pos).at;
      ScanPrimitiveFinds(js, st.pos);
      ShapeAdds(js, st, Token(Primitive, st.pos, e, 0), next.pos, next.super);
    } else {
      ShapeMoves(js, st, next.pos, next.super);
    }
  }

  lemma {:induction false} ScanStringFinds(js: string, i: nat)
    requires ScanString(js, i).Found?
    ensures js[ScanString(js, i).at] == '"'
    decreases |js| - i
  {
    if js[i] != '"' {
      if js[i] == '\\' && i + 1 < |js| {
        if IsSimpleEscape(js[i + 1]) { ScanStringFinds(js, i + 2); }
        else { ScanStringFinds(js, ScanHex(js, i + 2, 4).at); }
      } else {
        ScanStringFinds(js, i + 1);
      }
    }
  }

  lemma {:induction false} ScanPrimitiveFinds(js: string, i: nat)
    requires ScanPrimitive(js, i).Found?
    ensures IsDelimiter(js[ScanPrimitive(js, i).at])
    ensures !IsDelimiter(js[i]) ==> ScanPrimitive(js, i).at > i
    decreases |js| - i
  {
    if !IsDelimiter(js[i]) { ScanPrimitiveFinds(js, i + 1); }
  }

  // ------------------------------------------------------------ whole runs

  lemma {:induction false} RunKeepsShape(js: string, buf: seq<Token>, st: State)
    requires Shape(js, st) && FillRun(js, buf, st).code >= 0
    ensures Shape(js, FillRun(js, buf, st).st)
    ensures LastOpen(FillRun(js, buf, st).st.toks) == -1
    decreases |js| - st.pos
  {
    hide FillStep, LastOpen;
    if !AtEnd(js, st.pos) {
      FillRunUnfolds(js, buf, st);
      TurnKeepsShape(js, buf, st);
      RunKeepsShape(js, buf, FillStep(js, buf, st).st);
    }
  }

  /** A finished token lies in the input, and its ends are where its kind says. */
  predicate Finished(js: string, t: Token) {
    && 0 <= t.start <= t.end <= |js| && t.kind != Undefined
    && (t.Container() ==> t.start + 2 <= t.end)
    && (t.kind == Object ==> js[t.start] == '{' && js[t.end - 1] == '}')
    && (t.kind == Array ==> js[t.start] == '[' && js[t.end - 1] == ']')
    && (t.kind == String ==> t.start > 0 && js[t.start - 1] == '"' && t.end < |js| && js[t.end] == '"')
    && (t.kind == Primitive ==> t.start < t.end < |js| && IsPrimitiveStart(js[t.start]) && IsDelimiter(js[t.end]))
  }

  /** The spans of two tokens are disjoint, or the first holds the second and is a container. */
  predicate Nested(a: Token, b: Token) {
    a.start < b.start && (a.end <= b.start || (a.Container() && b.end <= a.end))
  }

  /** Whatever the input: if a filling call succeeds, every token is closed and within the
      input, starts strictly increase, and spans nest or are disjoint, with only containers
      enclosing others. */
  lemma TokensAreWellFormed(js: string, buf: seq<Token>)
    requires Fill(js, buf).code >= 0
    ensures var toks := Fill(js, buf).st.toks;
      && |toks| == Fill(js, buf).code
      && (forall i :: 0 <= i < |toks| ==> Finished(js, toks[i]))
      && (forall i, j :: 0 <= i < j < |toks| ==> Nested(toks[i], toks[j]))
  {
    hide FillRun, LastOpen;
    RunKeepsShape(js, buf, INITIAL);
    FillCountsTokens(js, buf, INITIAL);
    var st := Fill(js, buf).st;
    forall i | 0 <= i < |st.toks| ensures Finished(js, st.toks[i]) && st.toks[i].end != -1 {
      assert Placed(js, st.pos, st.toks[i]);
      assert !st.toks[i].Open();
    }
    forall i, j | 0 <= i < j < |st.toks| ensures Nested(st.toks[i], st.toks[j]) {
      assert Ordered(st.toks[i], st.toks[j]);
      assert Finished(js, st.toks[i]);
    }
  }

  // ------------------------------------------------------------ the bracket word

  /** Every turn moves on by an amount that depends on the input alone. */
  function NextVisit(js: string, pos: nat): (next: nat)
    requires !AtEnd(js, pos)
    ensures pos < next
  {
    match CountTurn(js, 0, Tally(pos, 0, -1))
    case Fail(_) => |js|
    case More(t) => CountTurnAdvances(js, 0, Tally(pos, 0, -1)); t.pos
  }

  predicate IsBracket(c: char) { c == '{' || c == '[' || c == '}' || c == ']' }

  /** The brackets the main loop meets from `pos` on: those outside strings and primitives. */
  function Brackets(js: string, pos: nat): string
    decreases |js| - pos
  {
    if AtEnd(js, pos) then ""
    else (if IsBracket(js[pos]) then [js[pos]] else []) + Brackets(js, NextVisit(js, pos))
  }

  /** A word of two kinds of brackets is balanced below a stack of open ones. */
  predicate Balanced(word: string, stack: seq<Kind>)
    decreases |word|
  {
    if word == "" then stack == []
    else if word[0] == '{' then Balanced(word[1..], stack + [Object])
    else if word[0] == '[' then Balanced(word[1..], stack + [Array])
    else
      && stack != []
      && stack[|stack| - 1] == (if word[0] == '}' then Object else Array)
      && Balanced(word[1..], stack[..|stack| - 1])
  }

  /** The kinds of the open tokens: the stack the array keeps implicitly. */
  function OpenKinds(toks: seq<Token>): seq<Kind> {
    if toks == [] then []
    else OpenKinds(toks[..|toks| - 1]) + (if toks[|toks| - 1].Open() then [toks[|toks| - 1].kind] else [])
  }

  lemma {:induction false} OpenKindsAppend(toks: seq<Token>, super: int, t: Token)
    requires -1 <= super < |toks|
    ensures OpenKinds(Bump(toks, super) + [t]) == OpenKinds(toks) + (if t.Open() then [t.kind] else [])
  {
    assert (Bump(toks, super) + [t])[..|toks|] == Bump(toks, super);
    OpenKindsBump(toks, super);
  }

  lemma {:induction false} OpenKindsBump(toks: seq<Token>, super: int)
    requires -1 <= super < |toks|
    ensures OpenKinds(Bump(toks, super)) == OpenKinds(toks)
    decreases |toks|
  {
    if super != -1 {
      var n := |toks| - 1;
      var bumped := Bump(toks, super);
      if super == n {
        assert bumped[..n] == toks[..n];
      } else {
        assert bumped[..n] == Bump(toks[..n], super);
        OpenKindsBump(toks[..n], super);
      }
    }
  }

  /** Closing the innermost open token pops the stack. */
  lemma {:induction false} OpenKindsClose(toks: seq<Token>, e: int)
    requires LastOpen(toks) >= 0 && e != -1
    ensures var c := LastOpen(toks);
      var kinds := OpenKinds(toks);
      && kinds != [] && kinds[|kinds| - 1] == toks[c].kind
      && OpenKinds(toks[c := toks[c].(end := e)]) == kinds[..|kinds| - 1]
    decreases |toks|
  {
    var c := LastOpen(toks);
    var n := |toks| - 1;
    var closed := toks[c := toks[c].(end := e)];
    if c == n {
      assert closed[..n] == toks[..n];
    } else {
      OpenKindsClose(toks[..n], e);
      assert closed[..n] == toks[..n][c := toks[c].(end := e)];
    }
  }

  lemma {:induction false} NoneOpen(toks: seq<Token>)
    requires LastOpen(toks) == -1
    ensures OpenKinds(toks) == []
    decreases |toks|
  {
    if toks != [] { NoneOpen(toks[..|toks| - 1]); }
  }

  lemma NextVisitIs(js: string, buf: seq<Token>, st: State)
    requires st.Sane() && !AtEnd(js, st.pos) && FillStep(js, buf, st).Go?
    ensures NextVisit(js, st.pos) == FillStep(js, buf, st).st.pos
  {
    hide LastOpen, LastOpenContainer, ScanString, ScanPrimitive, Bump;
  }

  /** What a turn does to the stack of open kinds. */
  lemma TurnMovesStack(js: string, buf: seq<Token>, st: State)
    requires st.Sane() && !AtEnd(js, st.pos) && FillStep(js, buf, st).Go?
    ensures var c := js[st.pos];
      var was, now := OpenKinds(st.toks), OpenKinds(FillStep(js, buf, st).st.toks);
      if c == '{' then now == was + [Object]
      else if c == '[' then now == was + [Array]
      else if c == '}' || c == ']' then
        was != [] && was[|was| - 1] == (if c == '}' then Object else Array) && now == was[..|was| - 1]
      else now == was
  {
    hide LastOpen, LastOpenContainer, ScanString, ScanPrimitive, Bump, OpenKinds;
    var c := js[st.pos];
    var next := FillStep(js, buf, st).st.toks;
    if c == '}' || c == ']' {
      OpenKindsClose(st.toks, st.pos + 1);
    } else if c == '{' || c == '[' || c == '"' || IsPrimitiveStart(c) {
      OpenKindsAppend(st.toks, st.super, next[|next| - 1]);
    }
  }

  /** Whatever the input: if a filling call succeeds, the brackets outside strings and
      primitives form a balanced word of two kinds. */
  lemma {:induction false} BracketsBalance(js: string, buf: seq<Token>, st: State)
    requires st.Sane() && FillRun(js, buf, st).code >= 0
    ensures Balanced(Brackets(js, st.pos), OpenKinds(st.toks))
    decreases |js| - st.pos
  {
    hide FillStep, LastOpen, OpenKinds, NextVisit;
    if AtEnd(js, st.pos) {
      NoneOpen(st.toks);
    } else {
      FillRunUnfolds(js, buf, st);
      NextVisitIs(js, buf, st);
      TurnMovesStack(js, buf, st);
      var next := FillStep(js, buf, st).st;
      BracketsBalance(js, buf, next);
      var word := Brackets(js, st.pos);
      assert IsBracket(js[st.pos]) ==> word[1..] == Brackets(js, next.pos);
      assert !IsBracket(js[st.pos]) ==> word == Brackets(js, next.pos);
    }
  }

  // ------------------------------------------------------------ what the sizes count

  /** The value of `toksuper` at each allocation of a run, in order. */
  function Supers(js: string, buf: seq<Token>, st: State): seq<int>
    requires st.Sane()
    decreases |js| - st.pos
  {
    if AtEnd(js, st.pos) then []
    else
      match FillStep(js, buf, st)
      case Halt(_, _) => []
      case Go(st') =>
        FillStepAdvances(js, buf, st);
        (if |st'.toks| > |st.toks| then [st.super] else []) + Supers(js, buf, st')
  }

  /** A turn adds at most one token, without children, and counts it once, for `toksuper`. */
  lemma TurnCountsChild(js: string, buf: seq<Token>, st: State)
    requires st.Sane() && !AtEnd(js, st.pos) && FillStep(js, buf, st).Go?
    ensures var next := FillStep(js, buf, st).st.toks;
      && |st.toks| <= |next| <= |st.toks| + 1
      && (|next| > |st.toks| ==> next[|st.toks|].size == 0)
      && forall i :: 0 <= i < |st.toks| ==>
           next[i].size == st.toks[i].size + (if |next| > |st.toks| && st.super == i then 1 else 0)
  {
    hide LastOpen, LastOpenContainer, ScanString, ScanPrimitive;
  }

  lemma OneMoreSuper(first: seq<int>, rest: seq<int>, super: int)
    requires first == [] || first == [super]
    ensures forall i :: multiset(first + rest)[i] == (if first != [] && i == super then 1 else 0) + multiset(rest)[i]
  {
    assert multiset(first + rest) == multiset(first) + multiset(rest);
  }

  lemma SupersUnfold(js: string, buf: seq<Token>, st: State)
    requires st.Sane()
    ensures AtEnd(js, st.pos) ==> Supers(js, buf, st) == []
    ensures !AtEnd(js, st.pos) && FillStep(js, buf, st).Go? ==>
      var next := FillStep(js, buf, st).st;
      Supers(js, buf, st) == (if |next.toks| > |st.toks| then [st.super] else []) + Supers(js, buf, next)
  {
    hide FillStep;
  }

  /** Whatever the input: in a successful run the size of every token has grown by the
      number of tokens allocated while `toksuper` pointed at it. */
  lemma {:induction false} SizesCountChildren(js: string, buf: seq<Token>, st: State)
    requires st.Sane() && FillRun(js, buf, st).code >= 0
    ensures var toks := FillRun(js, buf, st).st.toks;
      var supers := Supers(js, buf, st);
      && |toks| == |st.toks| + |supers|
      && forall i :: 0 <= i < |toks| ==>
           toks[i].size == (if i < |st.toks| then st.toks[i].size else 0) + multiset(supers)[i]
    decreases |js| - st.pos
  {
    hide FillStep, LastOpen, Supers;
    SupersUnfold(js, buf, st);
    if !AtEnd(js, st.pos) {
      FillRunUnfolds(js, buf, st);
      TurnCountsChild(js, buf, st);
      var next := FillStep(js, buf, st).st;
      SizesCountChildren(js, buf, next);
      var rest := Supers(js, buf, next);
      OneMoreSuper(if |next.toks| > |st.toks| then [st.super] else [], rest, st.super);
    }
  }

  /** From the start: every size is a number of children, and every parent an earlier token. */
  lemma SizesFromTheStart(js: string, buf: seq<Token>)
    requires Fill(js, buf).code >= 0
    ensures var toks := Fill(js, buf).st.toks;
      var supers := Supers(js, buf, INITIAL);
      && |supers| == |toks|
      && (forall i :: 0 <= i < |toks| ==> toks[i].size == multiset(supers)[i])
      && PointsBack(supers, 0)
  {
    hide FillRun;
    SizesCountChildren(js, buf, INITIAL);
    SupersPointBack(js, buf, INITIAL);
  }

  lemma {:induction false} SupersPointBack(js: string, buf: seq<Token>, st: State)
    requires st.Sane()
    ensures PointsBack(Supers(js, buf, st), |st.toks|)
    decreases |js| - st.pos
  {
    hide FillStep;
    if !AtEnd(js, st.pos) && FillStep(js, buf, st).Go? {
      FillStepAdvances(js, buf, st);
      TurnCountsChild(js, buf, st);
      var next := FillStep(js, buf, st).st;
      SupersPointBack(js, buf, next);
      PointsBackFrom(if |next.toks| > |st.toks| then [st.super] else [], Supers(js, buf, next), |st.toks|);
    }
  }

  /** The allocations of a run that begins with `n` tokens. */
  ghost predicate PointsBack(supers: seq<int>, n: nat) {
    forall k :: 0 <= k < |supers| ==> -1 <= supers[k] < n + k
  }

  lemma PointsBackFrom(first: seq<int>, rest: seq<int>, n: nat)
    requires |first| <= 1 && PointsBack(first, n) && PointsBack(rest, n + |first|)
    ensures PointsBack(first + rest, n)
  {
  }
}
