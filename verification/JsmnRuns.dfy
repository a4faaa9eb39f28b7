/** What holds of tokenizer runs over every input: the two passes go in lockstep, an
    interrupted call can be taken up again, and `parse_json` built on both. */
module JsmnRuns {
  import opened Jsmn

  // ------------------------------------------------------------ counting against filling

  /** One turn over an array and one turn without, from the same position. */
  lemma TurnsAgree(js: string, buf: seq<Token>, st: State, super: int)
    requires st.Sane() && !AtEnd(js, st.pos)
    ensures var f := FillStep(js, buf, st);
      var c := CountTurn(js, 0, Tally(st.pos, |st.toks|, super));
      && (f.Go? ==> c.More? && c.t.pos == f.st.pos && c.t.count == |f.st.toks|)
      && (f.Halt? ==> f.code in {ERROR_NOMEM, ERROR_INVAL, ERROR_PART})
      && (f.Halt? && f.code == ERROR_NOMEM ==> |st.toks| >= |buf| && c.More? && c.t.count == |st.toks| + 1)
      && (f.Halt? && f.code == ERROR_PART ==> c.Fail? && f.st == st)
  {
    hide ScanString, ScanPrimitive, LastOpen, LastOpenContainer;
  }

  lemma {:induction false} CountGrows(js: string, t: Tally)
    ensures CountRun(js, 0, t).code < 0 || CountRun(js, 0, t).code >= t.count
    decreases |js| - t.pos
  {
    hide CountTurn;
    if !AtEnd(js, t.pos) {
      TurnCounts(js, t);
      if CountTurn(js, 0, t).More? {
        CountTurnAdvances(js, 0, t);
        CountGrows(js, CountTurn(js, 0, t).t);
      }
    }
  }

  lemma TurnCounts(js: string, t: Tally)
    requires !AtEnd(js, t.pos)
    ensures var c := CountTurn(js, 0, t);
      if c.More? then c.t.count >= t.count else c.code < 0
  {
    hide ScanString, ScanPrimitive;
  }

  /** A filling run that succeeds is matched by the counting pass; a counting pass that
      returns at most the size of the array rules out NOMEM, and leaves the filling run
      three ways to end. */
  lemma {:induction false} Lockstep(js: string, buf: seq<Token>, st: State, super: int)
    requires st.Sane()
    ensures var f := FillRun(js, buf, st);
      var c := CountRun(js, 0, Tally(st.pos, |st.toks|, super));
      && (f.code >= 0 ==> c.code == f.code && c.pos == f.st.pos)
      && (0 <= c.code <= |buf| ==> f.code in {c.code, ERROR_INVAL, ERROR_PART})
      && (0 <= c.code && f.code == ERROR_PART ==> |f.st.toks| == c.code && f.st.pos == c.pos)
    decreases |js| - st.pos
  {
    if !AtEnd(js, st.pos) {
      hide FillStep, CountTurn, LastOpen;
      TurnsAgree(js, buf, st, super);
      var t := Tally(st.pos, |st.toks|, super);
      if FillStep(js, buf, st).Go? {
        FillStepAdvances(js, buf, st);
        Lockstep(js, buf, FillStep(js, buf, st).st, CountTurn(js, 0, t).t.super);
      } else if CountTurn(js, 0, t).More? {
        CountTurnAdvances(js, 0, t);
        CountGrows(js, CountTurn(js, 0, t).t);
      }
    }
  }

  /** The positions the main loop of each pass stands on. */
  function CountVisits(js: string, t: Tally): seq<nat>
    decreases |js| - t.pos
  {
    if AtEnd(js, t.pos) then []
    else
      [t.pos] +
      match CountTurn(js, 0, t)
      case Fail(_) => []
      case More(t') => CountTurnAdvances(js, 0, t); CountVisits(js, t')
  }

  function FillVisits(js: string, buf: seq<Token>, st: State): seq<nat>
    requires st.Sane()
    decreases |js| - st.pos
  {
    if AtEnd(js, st.pos) then []
    else
      [st.pos] +
      match FillStep(js, buf, st)
      case Halt(_, _) => []
      case Go(st') => FillStepAdvances(js, buf, st); FillVisits(js, buf, st')
  }

  /** The filling pass visits the positions of the counting pass, in order, until it ends;
      it skips the rest of them only by failing. */
  lemma {:induction false} SamePositions(js: string, buf: seq<Token>, st: State, super: int)
    requires st.Sane()
    ensures var f := FillVisits(js, buf, st);
      var c := CountVisits(js, Tally(st.pos, |st.toks|, super));
      f <= c && (FillRun(js, buf, st).code >= 0 ==> f == c)
    decreases |js| - st.pos
  {
    if !AtEnd(js, st.pos) {
      hide FillStep, CountTurn, LastOpen;
      TurnsAgree(js, buf, st, super);
      FillRunUnfolds(js, buf, st);
      if FillStep(js, buf, st).Go? {
        FillStepAdvances(js, buf, st);
        SamePositions(js, buf, FillStep(js, buf, st).st, CountTurn(js, 0, Tally(st.pos, |st.toks|, super)).t.super);
      }
    }
  }

  // ------------------------------------------------------------ taking an interrupted call up again

  lemma {:induction false} ScanPrimitiveStable(js: string, js': string, i: nat)
    requires js <= js' && !ScanPrimitive(js, i).Partial?
    ensures ScanPrimitive(js', i) == ScanPrimitive(js, i)
    decreases |js| - i
  {
    if !IsDelimiter(js[i]) && IsGraphic(js[i]) { ScanPrimitiveStable(js, js', i + 1); }
  }

  lemma {:induction false} ScanHexStable(js: string, js': string, i: nat, n: nat)
    requires js <= js' && i <= |js|
    ensures ScanHex(js, i, n).Bad? ==> ScanHex(js', i, n) == Bad
    ensures ScanHex(js, i, n).Found? && !AtEnd(js, ScanHex(js, i, n).at) ==> ScanHex(js', i, n) == ScanHex(js, i, n)
    decreases n
  {
    if n > 0 && !AtEnd(js, i) && IsHex(js[i]) { ScanHexStable(js, js', i + 1, n - 1); }
  }

  lemma {:induction false} ScanStringStable(js: string, js': string, i: nat)
    requires js <= js' && !ScanString(js, i).Partial?
    ensures ScanString(js', i) == ScanString(js, i)
    decreases |js| - i
  {
    if js[i] == '"' {
    } else if js[i] == '\\' && i + 1 < |js| {
      if IsSimpleEscape(js[i + 1]) {
        ScanStringStable(js, js', i + 2);
      } else if js[i + 1] == 'u' {
        ScanHexStable(js, js', i + 2, 4);
        if ScanHex(js, i + 2, 4).Found? { ScanStringStable(js, js', ScanHex(js, i + 2, 4).at); }
      }
    } else {
      ScanStringStable(js, js', i + 1);
    }
  }

  /** A turn that goes on does the same over more input and a larger array. */
  lemma TurnStable(js: string, js': string, buf: seq<Token>, buf': seq<Token>, st: State)
    requires st.Sane() && !AtEnd(js, st.pos) && js <= js' && |buf| <= |buf'|
    requires FillStep(js, buf, st).Go?
    ensures !AtEnd(js', st.pos) && FillStep(js', buf', st) == FillStep(js, buf, st)
  {
    hide ScanString, ScanPrimitive, LastOpen, LastOpenContainer;
    if js[st.pos] == '"' {
      ScanStringStable(js, js', st.pos + 1);
    } else if IsPrimitiveStart(js[st.pos]) {
      ScanPrimitiveStable(js, js', st.pos);
    }
  }

  lemma TurnStopsInPlace(js: string, buf: seq<Token>, st: State)
    requires st.Sane() && !AtEnd(js, st.pos) && FillStep(js, buf, st).Halt?
    requires FillStep(js, buf, st).code != ERROR_INVAL
    ensures FillStep(js, buf, st).st == st
  {
    hide ScanString, ScanPrimitive, LastOpen, LastOpenContainer;
  }

  /** The tokenizer is resumable: after NOMEM or PART, a call over input that extends the
      old one and an array at least as large ends as one call from the start would. */
  lemma {:induction false} Resumable(js: string, js': string, buf: seq<Token>, buf': seq<Token>, st: State)
    requires st.Sane() && js <= js' && |buf| <= |buf'|
    requires FillRun(js, buf, st).code in {ERROR_NOMEM, ERROR_PART}
    ensures FillRun(js', buf', FillRun(js, buf, st).st) == FillRun(js', buf', st)
    decreases |js| - st.pos
  {
    if !AtEnd(js, st.pos) {
      hide FillStep, LastOpen;
      FillRunUnfolds(js, buf, st);
      if FillStep(js, buf, st).Go? {
        TurnStable(js, js', buf, buf', st);
        FillRunUnfolds(js', buf', st);
        Resumable(js, js', buf, buf', FillStep(js, buf, st).st);
      } else {
        TurnStopsInPlace(js, buf, st);
      }
    }
  }

  /** A call of the tokenizer: the input so far and the array given to it. */
  datatype Call = Call(js: string, buf: seq<Token>)

  /** Calls on one parser, each begun where the one before stopped. */
  function Feed(calls: seq<Call>, st: State): Outcome
    requires calls != [] && st.Sane()
    decreases |calls|
  {
    var o := FillRun(calls[0].js, calls[0].buf, st);
    if |calls| == 1 then o else Feed(calls[1..], o.st)
  }

  /** Every call but the last is cut short by NOMEM or PART. */
  ghost predicate Interrupted(calls: seq<Call>, st: State)
    requires calls != [] && st.Sane()
    decreases |calls|
  {
    |calls| > 1 ==>
      var o := FillRun(calls[0].js, calls[0].buf, st);
      o.code in {ERROR_NOMEM, ERROR_PART} && Interrupted(calls[1..], o.st)
  }

  ghost predicate Growing(calls: seq<Call>) {
    forall i, j :: 0 <= i < j < |calls| ==> calls[i].js <= calls[j].js && |calls[i].buf| <= |calls[j].buf|
  }

  /** However often the tokenizer is interrupted, and for whichever reasons, it ends with
      the tokens, the record and the return value of a single call with the last arguments. */
  lemma {:induction false} FeedingIsOneCall(calls: seq<Call>, st: State)
    requires calls != [] && st.Sane() && Growing(calls) && Interrupted(calls, st)
    ensures var last := calls[|calls| - 1];
      Feed(calls, st) == FillRun(last.js, last.buf, st)
    decreases |calls|
  {
    hide FillRun;
    if |calls| > 1 {
      var last := calls[|calls| - 1];
      var o := FillRun(calls[0].js, calls[0].buf, st);
      FeedingIsOneCall(calls[1..], o.st);
      Resumable(calls[0].js, last.js, calls[0].buf, last.buf, st);
    }
  }

  // ------------------------------------------------------------ parse_json

  /** The token array after a filling pass over `buf`, whatever its outcome. */
  function Parsed(json: string, buf: seq<Token>): seq<Token> {
    var filled := Fill(json, buf).st.toks;
    if |filled| <= |buf| then filled + buf[|filled|..] else filled
  }

  /** The first `n` slots of new memory. */
  function Memory(garbage: nat -> Token, n: nat): (buf: seq<Token>)
    ensures |buf| == n && forall i :: 0 <= i < n ==> buf[i] == garbage(i)
  {
    seq(n, i requires 0 <= i < n => garbage(i))
  }

  /** `parse_json`: count, allocate exactly that many tokens, fill. `memory` says whether
      the allocation succeeds, `garbage` what the new memory holds. The outcome of the second
      pass is not looked at. */
  method ParseJson(json: string, memory: bool, garbage: nat -> Token) returns (r: int, tokens: array?<Token>)
    ensures r == if memory && Count(json).code > 0 then Count(json).code else -1
    ensures r >= 0 ==>
      tokens != null && fresh(tokens) && tokens.Length == r && tokens[..] == Parsed(json, Memory(garbage, r))
  {
    var parser := new Parser();
    parser.Init();
    r := parser.Parse(json, null);
    tokens := null;
    if r < 0 {
      return -1, null;
    }
    if r == 0 {
      return -1, null;
    }
    if !memory {
      return -1, null;
    }
    tokens := new Token[r];
    forall i | 0 <= i < r { tokens[i] := garbage(i); }
    ghost var buf := tokens[..];
    assert buf == Memory(garbage, r);
    parser.Init();
    var ignored := parser.Parse(json, tokens);
    assert parser.View(tokens) == Fill(json, buf).st;
    assert tokens[..] == Parsed(json, buf);
  }

  /** What the ignored second pass can have returned: never NOMEM, and never another count. */
  lemma SecondPass(json: string, buf: seq<Token>)
    requires |buf| == Count(json).code
    ensures Fill(json, buf).code in {|buf|, ERROR_INVAL, ERROR_PART}
    ensures Fill(json, buf).code >= 0 ==> |Fill(json, buf).st.toks| == |buf| && Fill(json, buf).st.pos == Count(json).pos
    ensures FillVisits(json, buf, INITIAL) <= CountVisits(json, Tally(0, 0, -1))
  {
    Lockstep(json, buf, INITIAL, -1);
    SamePositions(json, buf, INITIAL, -1);
    FillCountsTokens(json, buf, INITIAL);
  }

  lemma {:induction false} FillCountsTokens(js: string, buf: seq<Token>, st: State)
    requires st.Sane()
    ensures var o := FillRun(js, buf, st); o.code >= 0 ==> o.code == |o.st.toks|
    decreases |js| - st.pos
  {
    if !AtEnd(js, st.pos) {
      hide FillStep;
      FillRunUnfolds(js, buf, st);
      if FillStep(js, buf, st).Go? { FillCountsTokens(js, buf, FillStep(js, buf, st).st); }
    }
  }

  /** The second pass need not succeed: an object as a member of an object is counted, then
      refused with its token half written. */
  lemma SecondPassCanFail(buf: seq<Token>)
    requires |buf| == 2
    ensures Count("{{}}").code == 2
    ensures Fill("{{}}", buf).code == ERROR_INVAL
    ensures Fill("{{}}", buf).st == State(1, [Token(Object, 0, -1, 0), Token(buf[1].kind, -1, -1, 0)], 0)
  {
    var js := "{{}}";
    assert CountTurn(js, 0, Tally(0, 0, -1)) == More(Tally(1, 1, -1));
    assert CountTurn(js, 0, Tally(1, 1, -1)) == More(Tally(2, 2, -1));
    assert CountTurn(js, 0, Tally(2, 2, -1)) == More(Tally(3, 2, -1));
    assert CountTurn(js, 0, Tally(3, 2, -1)) == More(Tally(4, 2, -1));
    assert CountRun(js, 0, Tally(4, 2, -1)).code == 2;
    var st := State(1, [Token(Object, 0, -1, 0)], 0);
    assert FillStep(js, buf, INITIAL) == Go(st);
    FillRunUnfolds(js, buf, INITIAL);
    FillRunUnfolds(js, buf, st);
  }
}
