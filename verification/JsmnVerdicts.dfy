/** What each return value of the tokenizer says about the text read so far: refused for good,
    to be continued, complete, or more than the array holds. */
module JsmnVerdicts {
  import opened Jsmn
  import opened JsonText
  import opened JsonRoundTrip
  import opened JsmnRuns
  import opened JsmnShape
  import opened CStrings
  import opened Letters

  // ------------------------------------------------------------ INVAL is final

  /** A turn that refuses the text refuses it whatever follows, in any larger array. */
  lemma RefusalStable(js: string, js': string, buf: seq<Token>, buf': seq<Token>, st: State)
    requires st.Sane() && !AtEnd(js, st.pos) && js <= js' && |buf| <= |buf'|
    requires FillStep(js, buf, st).Halt? && FillStep(js, buf, st).code == ERROR_INVAL
    ensures !AtEnd(js', st.pos)
    ensures FillStep(js', buf', st).Halt? && FillStep(js', buf', st).code == ERROR_INVAL
  {
    hide ScanString, ScanPrimitive, LastOpen, LastOpenContainer;
    if js[st.pos] == '"' {
      ScanStringStable(js, js', st.pos + 1);
    } else if IsPrimitiveStart(js[st.pos]) && (st.super == -1 || !RefusesPrimitive(st.toks[st.super])) {
      ScanPrimitiveStable(js, js', st.pos);
    }
  }

  /** No continuation of a refused text is accepted. */
  lemma {:induction false} InvalidIsFinal(js: string, js': string, buf: seq<Token>, buf': seq<Token>, st: State)
    requires st.Sane() && js <= js' && |buf| <= |buf'|
    requires FillRun(js, buf, st).code == ERROR_INVAL
    ensures FillRun(js', buf', st).code == ERROR_INVAL
    decreases |js| - st.pos
  {
    hide FillStep, LastOpen;
    FillRunUnfolds(js, buf, st);
    if FillStep(js, buf, st).Go? {
      TurnStable(js, js', buf, buf', st);
      FillRunUnfolds(js', buf', st);
      InvalidIsFinal(js, js', buf, buf', FillStep(js, buf, st).st);
    } else {
      RefusalStable(js, js', buf, buf', st);
      FillRunUnfolds(js', buf', st);
    }
  }

  // ------------------------------------------------------------ everything else can be continued

  /** With a slot for every character of the text there is always room. */
  predicate Roomy(js: string, buf: seq<Token>, st: State) {
    st.Sane() && |st.toks| <= st.pos <= |js| <= |buf|
  }

  predicate Closable(kinds: seq<Kind>) {
    forall i :: 0 <= i < |kinds| ==> kinds[i] == Object || kinds[i] == Array
  }

  lemma TurnKeepsRoom(js: string, buf: seq<Token>, st: State)
    requires Roomy(js, buf, st) && !AtEnd(js, st.pos) && Closable(OpenKinds(st.toks))
    ensures var step := FillStep(js, buf, st);
      if step.Go? then Roomy(js, buf, step.st) && Closable(OpenKinds(step.st.toks))
      else step.code == ERROR_INVAL || step.code == ERROR_PART
  {
    hide FillStep, OpenKinds;
    TurnsAgree(js, buf, st, -1);
    if FillStep(js, buf, st).Go? {
      FillStepAdvances(js, buf, st);
      AtMostOneToken(js, buf, st);
      TurnMovesStack(js, buf, st);
    }
  }

  lemma AtMostOneToken(js: string, buf: seq<Token>, st: State)
    requires st.Sane() && !AtEnd(js, st.pos) && FillStep(js, buf, st).Go?
    ensures |FillStep(js, buf, st).st.toks| <= |st.toks| + 1
  {
    hide LastOpen, LastOpenContainer, ScanString, ScanPrimitive;
  }

  /** What closes the open brackets, innermost first. */
  function Closers(kinds: seq<Kind>): (s: string)
    ensures |s| == |kinds|
  {
    if kinds == [] then ""
    else [if kinds[|kinds| - 1] == Object then '}' else ']'] + Closers(kinds[..|kinds| - 1])
  }

  lemma SomeOpen(toks: seq<Token>)
    requires OpenKinds(toks) != []
    ensures LastOpen(toks) >= 0
  {
    if LastOpen(toks) == -1 { NoneOpen(toks); }
  }

  lemma CloseStepPops(js: string, buf: seq<Token>, st: State)
    requires st.Sane() && st.pos < |js| && OpenKinds(st.toks) != [] && Closable(OpenKinds(st.toks))
    requires var kinds := OpenKinds(st.toks); js[st.pos] == if kinds[|kinds| - 1] == Object then '}' else ']'
    ensures var kinds := OpenKinds(st.toks);
      var step := FillStep(js, buf, st);
      && step.Go? && step.st.pos == st.pos + 1 && OpenKinds(step.st.toks) == kinds[..|kinds| - 1]
  {
    hide LastOpen, OpenKinds;
    SomeOpen(st.toks);
    OpenKindsClose(st.toks, st.pos + 1);
  }

  /** Behind complete lexemes the closing brackets are all that is missing. */
  lemma {:induction false} ClosersComplete(js: string, buf: seq<Token>, st: State)
    requires st.Sane() && Closable(OpenKinds(st.toks))
    requires st.pos <= |js| && js[st.pos..] == Closers(OpenKinds(st.toks))
    ensures FillRun(js, buf, st).code >= 0
    decreases |js| - st.pos
  {
    hide FillStep, OpenKinds, LastOpen, FillRun;
    var kinds := OpenKinds(st.toks);
    if kinds == [] {
      EndsClosed(js, buf, st);
    } else {
      assert js[st.pos] == js[st.pos..][0];
      CloseStepPops(js, buf, st);
      FillRunUnfolds(js, buf, st);
      assert js[st.pos + 1..] == js[st.pos..][1..];
      ClosersComplete(js, buf, FillStep(js, buf, st).st);
    }
  }

  lemma EndsClosed(js: string, buf: seq<Token>, st: State)
    requires st.Sane() && st.pos == |js| && OpenKinds(st.toks) == []
    ensures FillRun(js, buf, st).code >= 0
  {
    hide OpenKinds, LastOpen;
    if LastOpen(st.toks) >= 0 { OpenKindsClose(st.toks, 0); }
  }

  lemma {:induction false} ScanPrimitiveContinues(js: string, i: nat, rest: string)
    requires NulFree(js) && i <= |js| && rest != "" && IsDelimiter(rest[0])
    requires ScanPrimitive(js, i).Partial?
    ensures ScanPrimitive(js + rest, i) == Found(|js|)
    decreases |js| - i
  {
    if i < |js| {
      assert js[i] in js;
      ScanPrimitiveContinues(js, i + 1, rest);
    }
  }

  /** What ends a string that is cut off: the text may stop behind a backslash, or within a
      `\u` escape. */
  const AFTER_BACKSLASH: string := "\\\""
  const AFTER_OTHER: string := "0000\""

  lemma {:induction false} ScanHexContinues(js: string, i: nat, n: nat, rest: string)
    requires NulFree(js) && i <= |js| && n <= 4 && "0000" <= rest
    requires ScanHex(js, i, n).Found?
    ensures ScanHex(js + rest, i, n) == Found(i + n)
    decreases n
  {
    if n > 0 {
      if i < |js| {
        assert js[i] in js;
        ScanHexContinues(js, i + 1, n - 1, rest);
      } else {
        ZerosAreHex(js, i, n, rest);
      }
    }
  }

  lemma {:induction false} ZerosAreHex(js: string, i: nat, n: nat, rest: string)
    requires n <= 4 && "0000" <= rest && |js| <= i && i + n <= |js| + 4
    ensures ScanHex(js + rest, i, n) == Found(i + n)
    decreases n
  {
    if n > 0 {
      assert rest[i - |js|] == "0000"[i - |js|] == '0';
      ZerosAreHex(js, i + 1, n - 1, rest);
    }
  }

  /** Zeros up to the closing quote. */
  lemma {:induction false} ZerosAreText(js: string, i: nat, rest: string)
    requires |js| <= i <= |js| + 4 && AFTER_OTHER <= rest
    ensures ScanString(js + rest, i) == Found(|js| + 4)
    decreases |js| + 4 - i
  {
    assert rest[i - |js|] == AFTER_OTHER[i - |js|];
    if i < |js| + 4 { ZerosAreText(js, i + 1, rest); }
  }

  /** The ending that a cut-off string needs. */
  lemma {:induction false} StringEnding(js: string, i: nat) returns (ending: string)
    requires NulFree(js) && i <= |js| && ScanString(js, i).Partial?
    ensures ending == AFTER_BACKSLASH || ending == AFTER_OTHER
    ensures forall rest: string :: ending <= rest ==>
      ScanString(js + rest, i) == Found(|js| + |ending| - 1)
    decreases |js| - i, 1
  {
    hide ScanHex;
    if i == |js| {
      ending := AFTER_OTHER;
      forall rest: string | ending <= rest ensures ScanString(js + rest, i) == Found(|js| + |ending| - 1) {
        ZerosAreText(js, i, rest);
      }
    } else {
      assert js[i] in js;
      if js[i] == '\\' && i + 1 == |js| {
        ending := AFTER_BACKSLASH;
        forall rest: string | ending <= rest ensures ScanString(js + rest, i) == Found(|js| + |ending| - 1) {
          assert rest[0] == ending[0] == '\\' && rest[1] == ending[1] == '"';
          BackslashEnding(js, i, rest);
        }
      } else if js[i] == '\\' && js[i + 1] == 'u' {
        ending := HexEnding(js, i);
      } else {
        ending := StringEnding(js, if js[i] == '\\' then i + 2 else i + 1);
      }
    }
  }

  lemma BackslashEnding(js: string, i: nat, rest: string)
    requires i + 1 == |js| && js[i] == '\\' && |rest| >= 2 && rest[0] == '\\' && rest[1] == '"'
    ensures ScanString(js + rest, i) == Found(|js| + 1)
  {
    var s := js + rest;
    assert s[i] == '\\' && s[i + 1] == '\\' && s[i + 2] == '"';
    assert ScanString(s, i + 2) == Found(i + 2);
  }

  /** Four digits that are all there are found whatever follows. */
  lemma {:induction false} ScanHexInside(js: string, i: nat, n: nat, rest: string)
    requires NulFree(js) && i + n <= |js| && ScanHex(js, i, n).Found?
    ensures ScanHex(js, i, n) == ScanHex(js + rest, i, n) == Found(i + n)
    decreases n
  {
    if n > 0 {
      assert js[i] in js;
      ScanHexInside(js, i + 1, n - 1, rest);
    }
  }

  lemma ScanEscape(js: string, i: nat)
    requires i + 1 < |js| && js[i] == '\\' && js[i + 1] == 'u'
    ensures ScanString(js, i) ==
      var h := ScanHex(js, i + 2, 4);
      if h.Found? then ScanString(js, h.at) else Bad
  {
  }

  lemma {:induction false} HexEnding(js: string, i: nat) returns (ending: string)
    requires NulFree(js) && i + 1 < |js| && ScanString(js, i).Partial?
    requires js[i] == '\\' && js[i + 1] == 'u'
    ensures ending == AFTER_BACKSLASH || ending == AFTER_OTHER
    ensures forall rest: string :: ending <= rest ==>
      ScanString(js + rest, i) == Found(|js| + |ending| - 1)
    decreases |js| - i, 0
  {
    hide ScanHex;
    ScanEscape(js, i);
    hide ScanString;
    if i + 6 <= |js| {
      ScanHexInside(js, i + 2, 4, "");
      ending := StringEnding(js, i + 6);
      forall rest: string | ending <= rest ensures ScanString(js + rest, i) == Found(|js| + |ending| - 1) {
        ScanHexInside(js, i + 2, 4, rest);
        ScanEscape(js + rest, i);
      }
    } else {
      ending := AFTER_OTHER;
      forall rest: string | ending <= rest ensures ScanString(js + rest, i) == Found(|js| + |ending| - 1) {
        assert rest[..4] == ending[..4] == "0000";
        ScanHexContinues(js, i + 2, 4, rest);
        ScanEscape(js + rest, i);
        ZerosAreText(js, i + 6, rest);
      }
    }
  }

  /** A turn that is cut off: the rest of the lexeme makes it go on, behind that rest. */
  lemma LexemeEnding(js: string, buf: seq<Token>, st: State) returns (ending: string)
    requires NulFree(js) && st.Sane() && st.pos < |js| && |st.toks| < |buf|
    requires FillStep(js, buf, st).Halt? && FillStep(js, buf, st).code == ERROR_PART
    ensures forall rest: string :: ending <= rest ==>
      var step := FillStep(js + rest, buf, st);
      && !AtEnd(js + rest, st.pos) && !IsBracket((js + rest)[st.pos])
      && step.Go? && step.st.pos == |js| + |ending| - (if js[st.pos] == '"' then 0 else 1)
    ensures js[st.pos] != '"' ==> ending == ","
  {
    assert js[st.pos] in js;
    hide LastOpen, LastOpenContainer, Bump;
    if js[st.pos] == '"' {
      ending := StringEnding(js, st.pos + 1);
      hide ScanString, ScanPrimitive;
    } else {
      hide ScanString;
      ending := ",";
      forall rest: string | ending <= rest ensures ScanPrimitive(js + rest, st.pos) == Found(|js|) {
        assert rest[0] == ending[0];
        ScanPrimitiveContinues(js, st.pos, rest);
      }
      hide ScanPrimitive;
    }
  }

  /** The open brackets are what they were, once the lexeme is complete. */
  lemma LexemeKeepsStack(js: string, buf: seq<Token>, st: State)
    requires st.Sane() && !AtEnd(js, st.pos) && !IsBracket(js[st.pos]) && FillStep(js, buf, st).Go?
    ensures OpenKinds(FillStep(js, buf, st).st.toks) == OpenKinds(st.toks)
  {
    hide FillStep, OpenKinds;
    TurnMovesStack(js, buf, st);
  }

  lemma CommaAtEnd(js: string, buf: seq<Token>, st: State)
    requires st.Sane() && st.pos < |js| && js[st.pos] == ','
    requires Closable(OpenKinds(st.toks)) && js[st.pos + 1..] == Closers(OpenKinds(st.toks))
    ensures FillRun(js, buf, st).code >= 0
  {
    hide FillRun, OpenKinds, LastOpenContainer;
    FillRunUnfolds(js, buf, st);
    ClosersComplete(js, buf, FillStep(js, buf, st).st);
  }

  /** A text cut off within a lexeme is completed by the rest of it and closing brackets. */
  lemma LexemeCompletes(js: string, buf: seq<Token>, st: State) returns (rest: string)
    requires NulFree(js) && st.Sane() && st.pos < |js| && |st.toks| < |buf| && Closable(OpenKinds(st.toks))
    requires FillStep(js, buf, st).Halt? && FillStep(js, buf, st).code == ERROR_PART
    ensures FillRun(js + rest, buf, st).code >= 0
  {
    var ending := LexemeEnding(js, buf, st);
    hide FillStep, OpenKinds, FillRun;
    rest := ending + Closers(OpenKinds(st.toks));
    var whole := js + rest;
    var next := FillStep(whole, buf, st).st;
    LexemeKeepsStack(whole, buf, st);
    FillRunUnfolds(whole, buf, st);
    if js[st.pos] == '"' {
      BehindEnding(js, ending, rest, |ending|);
      ClosersComplete(whole, buf, next);
    } else {
      BehindEnding(js, ending, rest, 1);
      CommaAtEnd(whole, buf, next);
    }
  }

  lemma BehindEnding(js: string, ending: string, rest: string, n: nat)
    requires |ending| == n && ending <= rest
    ensures (js + rest)[|js| + n..] == rest[n..]
    ensures n > 0 ==> (js + rest)[|js| + n - 1] == ending[n - 1]
  {
  }

  /** A text that is not refused has a continuation that is accepted. */
  lemma {:induction false} Completed(js: string, buf: seq<Token>, st: State) returns (rest: string)
    requires NulFree(js) && Roomy(js, buf, st) && Closable(OpenKinds(st.toks))
    requires FillRun(js, buf, st).code != ERROR_INVAL
    ensures FillRun(js + rest, buf, st).code >= 0
    decreases |js| - st.pos
  {
    hide FillStep, OpenKinds, FillRun;
    if st.pos == |js| {
      rest := Closers(OpenKinds(st.toks));
      assert (js + rest)[st.pos..] == rest;
      ClosersComplete(js + rest, buf, st);
    } else {
      assert js[st.pos] in js;
      FillRunUnfolds(js, buf, st);
      TurnKeepsRoom(js, buf, st);
      if FillStep(js, buf, st).Go? {
        rest := Completed(js, buf, FillStep(js, buf, st).st);
        TurnStable(js, js + rest, buf, buf, st);
        FillRunUnfolds(js + rest, buf, st);
      } else {
        rest := LexemeCompletes(js, buf, st);
      }
    }
  }

  lemma {:induction false} NeverFull(js: string, buf: seq<Token>, st: State)
    requires NulFree(js) && Roomy(js, buf, st) && Closable(OpenKinds(st.toks))
    ensures FillRun(js, buf, st).code >= 0 || FillRun(js, buf, st).code in {ERROR_INVAL, ERROR_PART}
    decreases |js| - st.pos
  {
    hide FillStep, OpenKinds, LastOpen;
    if !AtEnd(js, st.pos) {
      FillRunUnfolds(js, buf, st);
      TurnKeepsRoom(js, buf, st);
      if FillStep(js, buf, st).Go? { NeverFull(js, buf, FillStep(js, buf, st).st); }
    }
  }

  /** The three verdicts on a text without NUL, given an array with a slot for every character.
      INVAL: no continuation is accepted. PART: the text is not accepted, but some continuation
      is. Otherwise the text is accepted as it stands. */
  lemma VerdictsIff(js: string, buf: seq<Token>)
    requires NulFree(js) && |js| <= |buf|
    ensures Fill(js, buf).code == ERROR_INVAL <==> forall rest: string :: Fill(js + rest, buf).code < 0
    ensures Fill(js, buf).code == ERROR_PART <==>
      Fill(js, buf).code < 0 && exists rest: string :: Fill(js + rest, buf).code >= 0
  {
    hide FillRun, OpenKinds;
    NoneOpenAtFirst();
    NeverFull(js, buf, INITIAL);
    if Fill(js, buf).code == ERROR_INVAL {
      forall rest: string ensures Fill(js + rest, buf).code < 0 {
        InvalidIsFinal(js, js + rest, buf, buf, INITIAL);
      }
    } else {
      var rest := Completed(js, buf, INITIAL);
      assert Fill(js + rest, buf).code >= 0;
    }
  }

  lemma NoneOpenAtFirst()
    ensures OpenKinds(INITIAL.toks) == []
  {
  }

  // ------------------------------------------------------------ the counting pass

  lemma CountRunUnfolds(js: string, t: Tally)
    requires !AtEnd(js, t.pos)
    ensures var step := CountTurn(js, 0, t);
      if step.Fail? then CountRun(js, 0, t).code == step.code
      else t.pos < step.t.pos <= |js| && CountRun(js, 0, t) == CountRun(js, 0, step.t)
  {
    if CountTurn(js, 0, t).More? { CountTurnAdvances(js, 0, t); }
  }

  /** A turn other than one that is cut off is the same over more input. */
  lemma CountTurnStable(js: string, js': string, t: Tally)
    requires !AtEnd(js, t.pos) && js <= js'
    requires CountTurn(js, 0, t).More? || CountTurn(js, 0, t).code == ERROR_INVAL
    ensures !AtEnd(js', t.pos) && CountTurn(js', 0, t) == CountTurn(js, 0, t)
  {
    hide ScanString, ScanPrimitive;
    if js[t.pos] == '"' {
      ScanStringStable(js, js', t.pos + 1);
    } else if IsPrimitiveStart(js[t.pos]) {
      ScanPrimitiveStable(js, js', t.pos);
    }
  }

  lemma {:induction false} CountInvalidIsFinal(js: string, js': string, t: Tally)
    requires js <= js' && CountRun(js, 0, t).code == ERROR_INVAL
    ensures CountRun(js', 0, t).code == ERROR_INVAL
    decreases |js| - t.pos
  {
    hide CountTurn;
    CountRunUnfolds(js, t);
    if CountTurn(js, 0, t).More? || CountTurn(js, 0, t).code == ERROR_INVAL {
      CountTurnStable(js, js', t);
      CountRunUnfolds(js', t);
      if CountTurn(js, 0, t).More? { CountInvalidIsFinal(js, js', CountTurn(js, 0, t).t); }
    }
  }

  /** The rest of the lexeme the counting pass was cut off in. */
  lemma CountedLexeme(js: string, t: Tally) returns (rest: string)
    requires NulFree(js) && t.pos < |js|
    requires CountTurn(js, 0, t).Fail? && CountTurn(js, 0, t).code == ERROR_PART
    ensures CountRun(js + rest, 0, t).code >= 0
  {
    assert js[t.pos] in js;
    if js[t.pos] == '"' {
      rest := StringEnding(js, t.pos + 1);
      assert rest <= rest;
      hide ScanString, ScanPrimitive;
      CountRunUnfolds(js + rest, t);
    } else {
      rest := ",";
      ScanPrimitiveContinues(js, t.pos, rest);
      hide ScanString, ScanPrimitive;
      CountRunUnfolds(js + rest, t);
      CountRunUnfolds(js + rest, CountTurn(js + rest, 0, t).t);
    }
  }

  lemma {:induction false} CountCompleted(js: string, t: Tally) returns (rest: string)
    requires NulFree(js) && t.pos <= |js| && CountRun(js, 0, t).code != ERROR_INVAL
    ensures CountRun(js + rest, 0, t).code >= 0
    decreases |js| - t.pos
  {
    hide CountTurn;
    if t.pos == |js| {
      rest := "";
      assert js + rest == js;
    } else {
      assert js[t.pos] in js;
      CountRunUnfolds(js, t);
      if CountTurn(js, 0, t).More? {
        rest := CountCompleted(js, CountTurn(js, 0, t).t);
        CountTurnStable(js, js + rest, t);
        CountRunUnfolds(js + rest, t);
      } else {
        CountTurnFails(js, t);
        rest := CountedLexeme(js, t);
      }
    }
  }

  lemma CountTurnFails(js: string, t: Tally)
    requires !AtEnd(js, t.pos) && CountTurn(js, 0, t).Fail?
    ensures CountTurn(js, 0, t).code in {ERROR_INVAL, ERROR_PART}
  {
    hide ScanString, ScanPrimitive;
  }

  lemma {:induction false} CountCodes(js: string, t: Tally)
    ensures CountRun(js, 0, t).code >= 0 || CountRun(js, 0, t).code in {ERROR_INVAL, ERROR_PART}
    decreases |js| - t.pos
  {
    hide CountTurn;
    if !AtEnd(js, t.pos) {
      CountRunUnfolds(js, t);
      if CountTurn(js, 0, t).More? { CountCodes(js, CountTurn(js, 0, t).t); } else { CountTurnFails(js, t); }
    }
  }

  /** The verdicts of the counting pass, which sees lexemes and no structure, in the same terms. */
  lemma CountVerdictsIff(js: string)
    requires NulFree(js)
    ensures Count(js).code == ERROR_INVAL <==> forall rest: string :: Count(js + rest).code < 0
    ensures Count(js).code == ERROR_PART <==>
      Count(js).code < 0 && exists rest: string :: Count(js + rest).code >= 0
  {
    hide CountRun;
    var t := Tally(0, 0, -1);
    CountCodes(js, t);
    if Count(js).code == ERROR_INVAL {
      forall rest: string ensures Count(js + rest).code < 0 {
        CountInvalidIsFinal(js, js + rest, t);
      }
    } else {
      var rest := CountCompleted(js, t);
      assert Count(js + rest).code >= 0;
    }
  }

  // ------------------------------------------------------------ prefixes of JSON texts

  /** However a run ends other than by INVAL, it can be taken up again over more input. */
  lemma {:induction false} GoesOn(js: string, js': string, buf: seq<Token>, st: State)
    requires st.Sane() && js <= js' && FillRun(js, buf, st).code != ERROR_INVAL
    ensures FillRun(js', buf, FillRun(js, buf, st).st) == FillRun(js', buf, st)
    decreases |js| - st.pos
  {
    hide FillStep, LastOpen;
    if !AtEnd(js, st.pos) {
      FillRunUnfolds(js, buf, st);
      if FillStep(js, buf, st).Go? {
        TurnStable(js, js', buf, buf, st);
        FillRunUnfolds(js', buf, st);
        GoesOn(js, js', buf, FillStep(js, buf, st).st);
      } else {
        TurnStopsInPlace(js, buf, st);
      }
    }
  }

  /** A full array stays too short when the text goes on. */
  lemma {:induction false} FullStaysFull(js: string, js': string, buf: seq<Token>, st: State)
    requires st.Sane() && js <= js' && FillRun(js, buf, st).code == ERROR_NOMEM
    ensures FillRun(js', buf, st).code == ERROR_NOMEM
    decreases |js| - st.pos
  {
    hide FillStep, LastOpen;
    FillRunUnfolds(js, buf, st);
    if FillStep(js, buf, st).Go? {
      TurnStable(js, js', buf, buf, st);
      FillRunUnfolds(js', buf, st);
      FullStaysFull(js, js', buf, FillStep(js, buf, st).st);
    } else {
      FullTurnStable(js, js', buf, st);
      FillRunUnfolds(js', buf, st);
    }
  }

  lemma FullTurnStable(js: string, js': string, buf: seq<Token>, st: State)
    requires st.Sane() && !AtEnd(js, st.pos) && js <= js'
    requires FillStep(js, buf, st).Halt? && FillStep(js, buf, st).code == ERROR_NOMEM
    ensures !AtEnd(js', st.pos)
    ensures FillStep(js', buf, st).Halt? && FillStep(js', buf, st).code == ERROR_NOMEM
  {
    hide ScanString, ScanPrimitive, LastOpen, LastOpenContainer;
    if js[st.pos] == '"' {
      ScanStringStable(js, js', st.pos + 1);
    } else if IsPrimitiveStart(js[st.pos]) {
      ScanPrimitiveStable(js, js', st.pos);
    }
  }

  /** A turn moves no token, ends none a second time, and adds tokens from where it stands on. */
  predicate Extends(toks: seq<Token>, toks': seq<Token>, pos: nat) {
    && |toks| <= |toks'|
    && (forall i :: 0 <= i < |toks| ==>
         toks'[i].start == toks[i].start && (!toks[i].Open() ==> toks'[i].end == toks[i].end))
    && (forall i :: |toks| <= i < |toks'| ==> toks'[i].start >= pos)
  }

  lemma TurnExtends(js: string, buf: seq<Token>, st: State)
    requires st.Sane() && !AtEnd(js, st.pos) && FillStep(js, buf, st).Go?
    ensures Extends(st.toks, FillStep(js, buf, st).st.toks, st.pos)
  {
    hide ScanString, ScanPrimitive, LastOpen, LastOpenContainer;
  }

  lemma {:induction false} RunExtends(js: string, buf: seq<Token>, st: State)
    requires st.Sane() && FillRun(js, buf, st).code != ERROR_INVAL
    ensures Extends(st.toks, FillRun(js, buf, st).st.toks, st.pos)
    decreases |js| - st.pos
  {
    hide FillStep, LastOpen;
    if !AtEnd(js, st.pos) {
      FillRunUnfolds(js, buf, st);
      if FillStep(js, buf, st).Go? {
        FillStepAdvances(js, buf, st);
        TurnExtends(js, buf, st);
        RunExtends(js, buf, FillStep(js, buf, st).st);
      } else {
        TurnStopsInPlace(js, buf, st);
      }
    }
  }

  lemma BlanksOnly(js: string, buf: seq<Token>)
    requires IsWhitespace(js)
    ensures Fill(js, buf) == Outcome(0, State(|js|, [], -1))
  {
    hide FillRun;
    assert At(js, 0, js);
    RunBlanks(js, buf, INITIAL, js);
    RunEnds(js, buf, State(|js|, [], -1));
  }

  /** The token of the root begins at its bracket and ends behind the closing one. */
  lemma RootToken(v: Json, p: nat)
    requires v.Obj? || v.Arr?
    ensures Flatten(v, p) != [] && Flatten(v, p)[0].start == p && Flatten(v, p)[0].end == p + |Print(v)|
  {
    hide FlattenItems, FlattenMembers, Print;
  }

  /** A text that goes on cannot have been accepted before its root is closed. */
  lemma NotYetAccepted(v: Json, lead: string, trail: string, buf: seq<Token>, n: nat)
    requires Valid(v) && (v.Obj? || v.Arr?)
    requires IsWhitespace(lead) && IsWhitespace(trail) && Nodes(v) <= |buf|
    requires |lead| < n < |lead| + |Print(v)|
    ensures Fill((lead + Print(v) + trail)[..n], buf).code < 0
  {
    hide FillRun, Flatten, Print, IsWhitespace, Valid, Nodes, Finished;
    var js := lead + Print(v) + trail;
    var o := Fill(js[..n], buf);
    if o.code >= 0 {
      TokenizingUndoesPrinting(v, lead, trail, buf);
      RootToken(v, |lead|);
      GoesOn(js[..n], js, buf, INITIAL);
      RunExtends(js, buf, o.st);
      TokensAreWellFormed(js[..n], buf);
      SuccessIsAtEnd(js[..n], buf, INITIAL);
      if o.st.pos < n {
        EndsHere(js, buf, o.st);
      } else if o.st.toks != [] {
        RootFinished(js[..n], o.st.toks[0]);
      }
    }
  }

  lemma RootFinished(js: string, t: Token)
    requires Finished(js, t)
    ensures 0 <= t.end <= |js|
  {
  }

  lemma {:induction false} SuccessIsAtEnd(js: string, buf: seq<Token>, st: State)
    requires st.Sane() && FillRun(js, buf, st).code >= 0
    ensures AtEnd(js, FillRun(js, buf, st).st.pos)
    decreases |js| - st.pos
  {
    hide FillStep, LastOpen;
    if !AtEnd(js, st.pos) {
      FillRunUnfolds(js, buf, st);
      SuccessIsAtEnd(js, buf, FillStep(js, buf, st).st);
    }
  }

  lemma EndsHere(js: string, buf: seq<Token>, st: State)
    requires st.Sane() && AtEnd(js, st.pos)
    ensures FillRun(js, buf, st).st == st
  {
  }

  /** Every prefix of an object or array with whitespace on either side: 0 for whitespace alone,
      PART from the opening bracket on, and the count as soon as the root is closed. */
  lemma PrefixVerdict(v: Json, lead: string, trail: string, buf: seq<Token>, n: nat)
    requires Valid(v) && (v.Obj? || v.Arr?)
    requires IsWhitespace(lead) && IsWhitespace(trail) && Nodes(v) <= |buf|
    requires n <= |lead + Print(v) + trail|
    ensures Fill((lead + Print(v) + trail)[..n], buf).code ==
      if n <= |lead| then 0 else if n < |lead| + |Print(v)| then ERROR_PART else Nodes(v)
  {
    var js := lead + Print(v) + trail;
    if n <= |lead| {
      assert js[..n] == lead[..n];
      assert forall c <- lead[..n] :: c in lead;
      BlanksOnly(lead[..n], buf);
    } else if n < |lead| + |Print(v)| {
      hide Fill, Print, IsWhitespace, Valid, Nodes, Flatten;
      TokenizingUndoesPrinting(v, lead, trail, buf);
      NotYetAccepted(v, lead, trail, buf, n);
      NotRefused(js, n, buf);
    } else {
      var k := n - |lead| - |Print(v)|;
      assert js[..n] == lead + Print(v) + trail[..k];
      assert forall c <- trail[..k] :: c in trail;
      hide Fill, Print, Valid, Nodes, Flatten;
      TokenizingUndoesPrinting(v, lead, trail[..k], buf);
    }
  }

  /** A prefix of an accepted text is neither refused nor too long for the array. */
  lemma NotRefused(js: string, n: nat, buf: seq<Token>)
    requires n <= |js| && Fill(js, buf).code >= 0
    ensures Fill(js[..n], buf).code >= 0 || Fill(js[..n], buf).code == ERROR_PART
  {
    hide FillRun;
    if Fill(js[..n], buf).code == ERROR_INVAL {
      InvalidIsFinal(js[..n], js, buf, buf, INITIAL);
    }
    if Fill(js[..n], buf).code == ERROR_NOMEM {
      FullStaysFull(js[..n], js, buf, INITIAL);
    }
    RunCodes(js[..n], buf, INITIAL);
  }

  lemma {:induction false} RunCodes(js: string, buf: seq<Token>, st: State)
    requires st.Sane()
    ensures FillRun(js, buf, st).code >= 0 || FillRun(js, buf, st).code in {ERROR_NOMEM, ERROR_INVAL, ERROR_PART}
    decreases |js| - st.pos
  {
    hide FillStep, LastOpen;
    if !AtEnd(js, st.pos) {
      FillRunUnfolds(js, buf, st);
      TurnsAgree(js, buf, st, -1);
      if FillStep(js, buf, st).Go? { RunCodes(js, buf, FillStep(js, buf, st).st); }
    }
  }

  // ------------------------------------------------------------ texts that are no JSON

  /** Refused for good: a primitive as a member, a primitive behind a key without a colon, a second
      value for a key, and the wrong bracket. */
  lemma RefusedTexts(buf: seq<Token>, rest: string)
    requires |buf| >= 3
    ensures Fill("{true" + rest, buf).code == ERROR_INVAL
    ensures Fill("{\"a\" 1" + rest, buf).code == ERROR_INVAL
    ensures Fill("{\"a\":1 2" + rest, buf).code == ERROR_INVAL
    ensures Fill("[1}" + rest, buf).code == ERROR_INVAL
  {
    hide FillRun;
    BareMember(buf);
    NoColon(buf);
    SecondValue(buf);
    WrongBracket(buf);
    InvalidIsFinal("{true", "{true" + rest, buf, buf, INITIAL);
    InvalidIsFinal("{\"a\" 1", "{\"a\" 1" + rest, buf, buf, INITIAL);
    InvalidIsFinal("{\"a\":1 2", "{\"a\":1 2" + rest, buf, buf, INITIAL);
    InvalidIsFinal("[1}", "[1}" + rest, buf, buf, INITIAL);
  }

  lemma Opened(js: string, buf: seq<Token>)
    requires js != "" && js[0] in {'{', '['} && buf != []
    ensures FillRun(js, buf, INITIAL) ==
      FillRun(js, buf, State(1, [Token(if js[0] == '{' then Object else Array, 0, -1, 0)], 0))
  {
    hide FillRun;
    FirstTurn(js, buf);
    hide FillStep;
    FillRunUnfolds(js, buf, INITIAL);
  }

  lemma FirstTurn(js: string, buf: seq<Token>)
    requires js != "" && js[0] in {'{', '['} && buf != []
    ensures !AtEnd(js, 0)
    ensures FillStep(js, buf, INITIAL) ==
      Go(State(1, [Token(if js[0] == '{' then Object else Array, 0, -1, 0)], 0))
  {
  }

  lemma BareMember(buf: seq<Token>)
    requires |buf| >= 1
    ensures Fill("{true", buf).code == ERROR_INVAL
  {
    hide FillRun;
    Opened("{true", buf);
    FillRunUnfolds("{true", buf, State(1, [Token(Object, 0, -1, 0)], 0));
  }

  lemma WrongBracket(buf: seq<Token>)
    requires |buf| >= 2
    ensures Fill("[1}", buf).code == ERROR_INVAL
  {
    hide FillRun;
    var js := "[1}";
    Opened(js, buf);
    var st1 := State(1, [Token(Array, 0, -1, 0)], 0);
    var st2 := State(2, [Token(Array, 0, -1, 1), Token(Primitive, 1, 2, 0)], 0);
    ScanPrimitiveWhole(js, 1, 2);
    assert FillStep(js, buf, st1) == Go(st2);
    FillRunUnfolds(js, buf, st1);
    LastOpenIs(st2.toks, 0);
    FillRunUnfolds(js, buf, st2);
  }

  /** Behind `{"a"`. */
  lemma KeyOpened(js: string, buf: seq<Token>)
    requires |js| > 4 && js[0] == '{' && js[1] == '"' && js[2] == 'a' && js[3] == '"' && |buf| >= 2
    ensures FillRun(js, buf, INITIAL) ==
      FillRun(js, buf, State(4, [Token(Object, 0, -1, 1), Token(String, 2, 3, 0)], 0))
  {
    hide FillRun;
    Opened(js, buf);
    var st1 := State(1, [Token(Object, 0, -1, 0)], 0);
    assert ScanString(js, 2) == ScanString(js, 3) == Found(3);
    assert FillStep(js, buf, st1) == Go(State(4, [Token(Object, 0, -1, 1), Token(String, 2, 3, 0)], 0));
    FillRunUnfolds(js, buf, st1);
  }

  lemma NoColon(buf: seq<Token>)
    requires |buf| >= 2
    ensures Fill("{\"a\" 1", buf).code == ERROR_INVAL
  {
    hide FillRun;
    var js := "{\"a\" 1";
    KeyOpened(js, buf);
    var st1 := State(4, [Token(Object, 0, -1, 1), Token(String, 2, 3, 0)], 0);
    FillRunUnfolds(js, buf, st1);
    FillRunUnfolds(js, buf, st1.(pos := 5));
  }

  lemma SecondValue(buf: seq<Token>)
    requires |buf| >= 3
    ensures Fill("{\"a\":1 2", buf).code == ERROR_INVAL
  {
    hide FillRun;
    var js := "{\"a\":1 2";
    KeyOpened(js, buf);
    var st1 := State(4, [Token(Object, 0, -1, 1), Token(String, 2, 3, 0)], 0);
    var st2 := State(5, st1.toks, 1);
    var st3 := State(6, [Token(Object, 0, -1, 1), Token(String, 2, 3, 1), Token(Primitive, 5, 6, 0)], 1);
    FillRunUnfolds(js, buf, st1);
    ScanPrimitiveWhole(js, 5, 6);
    assert FillStep(js, buf, st2) == Go(st3);
    FillRunUnfolds(js, buf, st2);
    FillRunUnfolds(js, buf, st3);
    FillRunUnfolds(js, buf, st3.(pos := 7));
  }

  /** Accepted all the same: a key without a value. */
  lemma KeyWithoutValue(buf: seq<Token>)
    requires |buf| >= 2
    ensures Fill("{\"a\"}", buf) ==
      Outcome(2, State(5, [Token(Object, 0, 5, 1), Token(String, 2, 3, 0)], -1))
  {
    hide FillRun;
    var js := "{\"a\"}";
    KeyOpened(js, buf);
    var st1 := State(4, [Token(Object, 0, -1, 1), Token(String, 2, 3, 0)], 0);
    var st2 := State(5, [Token(Object, 0, 5, 1), Token(String, 2, 3, 0)], -1);
    LastOpenIs(st1.toks, 0);
    LastOpenIs(st1.toks[..0], -1);
    assert FillStep(js, buf, st1) == Go(st2);
    FillRunUnfolds(js, buf, st1);
    RunEnds(js, buf, st2);
  }

  // ------------------------------------------------------------ NOMEM

  /** What a turn does in a larger array whose first slots hold the same: the same, or the
      token for which there was no room. */
  lemma TurnWithRoom(js: string, buf: seq<Token>, buf': seq<Token>, st: State)
    requires st.Sane() && !AtEnd(js, st.pos) && buf <= buf' && |st.toks| <= |buf|
    ensures var f := FillStep(js, buf, st);
      var g := FillStep(js, buf', st);
      if f.Halt? && f.code == ERROR_NOMEM then |st.toks| == |buf| && (g == f || |g.st.toks| > |buf|)
      else g == f && |f.st.toks| <= |buf|
  {
    hide ScanString, ScanPrimitive, LastOpen, LastOpenContainer;
  }

  lemma {:induction false} TokensStay(js: string, buf: seq<Token>, st: State)
    requires st.Sane()
    ensures |FillRun(js, buf, st).st.toks| >= |st.toks|
    decreases |js| - st.pos
  {
    hide FillStep, LastOpen;
    if !AtEnd(js, st.pos) {
      FillRunUnfolds(js, buf, st);
      TurnKeepsTokens(js, buf, st);
      if FillStep(js, buf, st).Go? { TokensStay(js, buf, FillStep(js, buf, st).st); }
    }
  }

  lemma TurnKeepsTokens(js: string, buf: seq<Token>, st: State)
    requires st.Sane() && !AtEnd(js, st.pos)
    ensures |FillStep(js, buf, st).st.toks| >= |st.toks|
  {
    hide ScanString, ScanPrimitive, LastOpen, LastOpenContainer;
  }

  /** NOMEM comes out exactly if a large enough array would have been filled further, be it by
      the half-written token of a refused container; otherwise the larger array changes nothing. */
  lemma {:induction false} NoMemIff(js: string, buf: seq<Token>, buf': seq<Token>, st: State)
    requires st.Sane() && buf <= buf' && |st.toks| <= |buf|
    requires FillRun(js, buf', st).code != ERROR_NOMEM
    ensures FillRun(js, buf, st).code == ERROR_NOMEM <==> |FillRun(js, buf', st).st.toks| > |buf|
    ensures FillRun(js, buf, st).code == ERROR_NOMEM ==> |FillRun(js, buf, st).st.toks| == |buf|
    ensures FillRun(js, buf, st).code != ERROR_NOMEM ==> FillRun(js, buf', st) == FillRun(js, buf, st)
    decreases |js| - st.pos
  {
    hide FillStep, LastOpen;
    if !AtEnd(js, st.pos) {
      FillRunUnfolds(js, buf, st);
      FillRunUnfolds(js, buf', st);
      TurnWithRoom(js, buf, buf', st);
      var f := FillStep(js, buf, st);
      if f.Go? {
        NoMemIff(js, buf, buf', f.st);
      } else if f.code == ERROR_NOMEM {
        TurnStopsInPlace(js, buf, st);
        if FillStep(js, buf', st).Go? { TokensStay(js, buf', FillStep(js, buf', st).st); }
      }
    }
  }

  // ------------------------------------------------------------ the scanners

  /** The sets of characters the main loop and the scanners tell apart. */
  lemma LexicalSets(c: char)
    ensures IsBlank(c) <==> c in " \t\n\r"
    ensures IsDelimiter(c) <==> c in " \t\n\r,]}"
    ensures IsPrimitiveStart(c) <==> c in DIGITS || c in "-tfn"
    ensures IsHex(c) <==> c in DIGITS || c in "abcdef" || c in "ABCDEF"
    ensures IsSimpleEscape(c) <==> c in "\"\\/bfnrt"
    ensures IsGraphic(c) <==> ' ' <= c <= '~'
  {
    hide DIGITS;
    DigitIff(c);
    HexIff(c);
  }

  /** A primitive ends at the first delimiter, with nothing but graphic characters before it. */
  lemma {:induction false} PrimitiveScanIff(js: string, i: nat, e: nat)
    ensures ScanPrimitive(js, i) == Found(e) <==>
      && i <= e < |js| && IsDelimiter(js[e])
      && forall k :: i <= k < e ==> IsGraphic(js[k]) && !IsDelimiter(js[k])
    decreases |js| - i
  {
    if i < |js| && js[i] != '\0' && !IsDelimiter(js[i]) && IsGraphic(js[i]) {
      PrimitiveScanIff(js, i + 1, e);
    }
  }

  /** A primitive is refused at the first character that is neither graphic nor a delimiter. */
  lemma {:induction false} PrimitiveRefusedIff(js: string, i: nat)
    ensures ScanPrimitive(js, i).Bad? <==> exists e ::
      && i <= e < |js| && js[e] != '\0' && !IsDelimiter(js[e]) && !IsGraphic(js[e])
      && forall k :: i <= k < e ==> IsGraphic(js[k]) && !IsDelimiter(js[k])
    decreases |js| - i
  {
    if i < |js| && js[i] != '\0' && !IsDelimiter(js[i]) && IsGraphic(js[i]) {
      PrimitiveRefusedIff(js, i + 1);
    }
  }

  /** The text with a space for every control character but NUL. */
  function Tame(js: string): (t: string)
    ensures |t| == |js|
    ensures forall i :: 0 <= i < |js| ==> t[i] == if 0 < js[i] as int < 32 then ' ' else js[i]
  {
    seq(|js|, i requires 0 <= i < |js| => if 0 < js[i] as int < 32 then ' ' else js[i])
  }

  lemma {:induction false} HexOfTame(js: string, i: nat, n: nat)
    requires i <= |js|
    ensures ScanHex(Tame(js), i, n) == ScanHex(js, i, n)
    decreases n
  {
    if n > 0 && i < |js| && IsHex(js[i]) { HexOfTame(js, i + 1, n - 1); }
  }

  lemma {:induction false} StringOfTame(js: string, i: nat)
    ensures ScanString(Tame(js), i) == ScanString(js, i)
    decreases |js| - i
  {
    hide ScanHex;
    if !AtEnd(js, i) && js[i] != '"' {
      if js[i] == '\\' && i + 1 < |js| {
        HexOfTame(js, i + 2, 4);
        if IsSimpleEscape(js[i + 1]) { StringOfTame(js, i + 2); }
        else if js[i + 1] == 'u' && ScanHex(js, i + 2, 4).Found? { StringOfTame(js, ScanHex(js, i + 2, 4).at); }
      } else {
        StringOfTame(js, i + 1);
      }
    }
  }

  predicate ControlFree(js: string) { forall i :: 0 <= i < |js| ==> js[i] == '\0' || js[i] >= ' ' }

  lemma {:induction false} HexFound(js: string, i: nat, n: nat)
    requires i <= |js| && ScanHex(js, i, n).Found? && !AtEnd(js, ScanHex(js, i, n).at)
    ensures ScanHex(js, i, n).at == i + n && forall k :: i <= k < i + n ==> k < |js| && IsHex(js[k])
    decreases n
  {
    if n > 0 && !AtEnd(js, i) { HexFound(js, i + 1, n - 1); }
  }

  /** What is scanned as a string is one of RFC 8259, but for control characters. */
  lemma {:induction false} FoundIsBody(js: string, i: nat)
    requires ControlFree(js) && ScanString(js, i).Found?
    ensures var e := ScanString(js, i).at; js[e] == '"' && IsStringBody(js[i..e])
    decreases |js| - i
  {
    var e := ScanString(js, i).at;
    hide ScanHex;
    if js[i] == '"' {
    } else if js[i] == '\\' && i + 1 < |js| {
      if IsSimpleEscape(js[i + 1]) {
        FoundIsBody(js, i + 2);
        assert js[i..e][2..] == js[i + 2..e];
      } else {
        var h := ScanHex(js, i + 2, 4).at;
        FoundIsBody(js, h);
        HexFound(js, i + 2, 4);
        assert js[i..e][6..] == js[i + 6..e];
        assert js[i..e][2..6] == js[i + 2..i + 6];
      }
    } else {
      FoundIsBody(js, i + 1);
      assert js[i..e][1..] == js[i + 1..e];
    }
  }

  /** A string of the tokenizer is a string of section 7 of RFC 8259, except that control
      characters other than NUL pass where a space would. */
  lemma StringScanIff(js: string, i: nat, e: nat)
    ensures ScanString(js, i) == Found(e) <==>
      i <= e < |js| && js[e] == '"' && IsStringBody(Tame(js)[i..e])
  {
    hide ScanString, IsStringBody;
    StringOfTame(js, i);
    if ScanString(js, i) == Found(e) {
      FoundIsBody(Tame(js), i);
    }
    if i <= e < |js| && js[e] == '"' && IsStringBody(Tame(js)[i..e]) {
      assert Tame(js)[i..e] + "\"" == Tame(js)[i..e + 1];
      ScanStringWhole(Tame(js), i, Tame(js)[i..e]);
    }
  }
}
