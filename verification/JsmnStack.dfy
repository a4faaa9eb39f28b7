/** Which texts the tokenizer accepts: those of a machine with an explicit stack. The token
    array with its unclosed tokens, and the index `toksuper`, are that stack. */
module JsmnStack {
  import opened Wrappers
  import opened Jsmn
  import opened JsmnRuns
  import opened JsmnShape

  // ------------------------------------------------------------ the machine

  /** What matters of a token that may be the next one's superior: an object, an array, a string
      without or with a child, or a primitive; or that there is none. */
  datatype Role = Root | InObject | InArray | Fresh | Used | Plain

  /** The kinds of the open brackets, innermost last; the superior; the last token. */
  datatype Machine = Machine(stack: seq<Kind>, super: Role, last: Role)

  const START: Machine := Machine([], Root, Root)

  function Bracket(kind: Kind): Role { if kind == Object then InObject else InArray }

  /** The innermost open bracket as superior. */
  function Top(stack: seq<Kind>): Role { if stack == [] then Root else Bracket(stack[|stack| - 1]) }

  /** The superior has got a child. */
  function Counted(super: Role): Role { if super == Fresh then Used else super }

  /** One lexeme; None where the text is refused. */
  function Move(js: string, pos: nat, m: Machine): Option<Machine>
    requires !AtEnd(js, pos)
  {
    var c := js[pos];
    if c == '{' || c == '[' then
      var kind := if c == '{' then Object else Array;
      if m.super == InObject then None else Some(Machine(m.stack + [kind], Bracket(kind), Bracket(kind)))
    else if c == '}' || c == ']' then
      if m.stack == [] || m.stack[|m.stack| - 1] != (if c == '}' then Object else Array) then None
      else
        var rest := m.stack[..|m.stack| - 1];
        Some(Machine(rest, Top(rest), m.last))
    else if c == '"' then
      if ScanString(js, pos + 1).Found? then Some(Machine(m.stack, Counted(m.super), Fresh)) else None
    else if IsBlank(c) then Some(m)
    else if c == ':' then Some(m.(super := m.last))
    else if c == ',' then
      if m.super in {Fresh, Used, Plain} && m.stack != [] then Some(m.(super := Top(m.stack))) else Some(m)
    else if IsPrimitiveStart(c) then
      if m.super in {InObject, Used} || !ScanPrimitive(js, pos).Found? then None
      else Some(Machine(m.stack, Counted(m.super), Plain))
    else None
  }

  function Accepts(js: string, pos: nat, m: Machine): bool
    decreases |js| - pos
  {
    if AtEnd(js, pos) then m.stack == []
    else
      var next := Move(js, pos, m);
      next.Some? && Accepts(js, NextVisit(js, pos), next.value)
  }

  // ------------------------------------------------------------ the tokenizer is that machine

  function RoleOf(t: Token): Role {
    match t.kind
    case Object => InObject
    case Array => InArray
    case String => if t.size == 0 then Fresh else Used
    case _ => Plain
  }

  function RoleAt(toks: seq<Token>, i: int): Role
    requires -1 <= i < |toks|
  {
    if i == -1 then Root else RoleOf(toks[i])
  }

  function Abstract(st: State): Machine
    requires st.Sane()
  {
    Machine(OpenKinds(st.toks), RoleAt(st.toks, st.super), RoleAt(st.toks, |st.toks| - 1))
  }

  /** The backward scan finds the top of the stack. */
  lemma TopIsLastOpen(js: string, st: State)
    requires Shape(js, st)
    ensures LastOpenContainer(st.toks) == LastOpen(st.toks)
    ensures Top(OpenKinds(st.toks)) == RoleAt(st.toks, LastOpen(st.toks))
    ensures LastOpen(st.toks) == -1 <==> OpenKinds(st.toks) == []
    ensures LastOpen(st.toks) >= 0 ==>
      OpenKinds(st.toks)[|OpenKinds(st.toks)| - 1] == st.toks[LastOpen(st.toks)].kind
  {
    hide OpenKinds, LastOpenContainer, LastOpen, Delimited;
    var i := LastOpen(st.toks);
    if i == -1 {
      NoneOpen(st.toks);
    } else {
      OpenKindsClose(st.toks, 0);
      assert Placed(js, st.pos, st.toks[i]) && st.toks[i].Open();
    }
    forall j | i < j < |st.toks| ensures !(st.toks[j].Container() && st.toks[j].Open()) {
      assert !st.toks[j].Open();
    }
    LastOpenContainerIs(st.toks, i);
  }

  lemma OpenIsMove(js: string, buf: seq<Token>, st: State)
    requires Shape(js, st) && !AtEnd(js, st.pos) && js[st.pos] in {'{', '['}
    requires FillStep(js, buf, st).Halt? ==> FillStep(js, buf, st).code != ERROR_NOMEM
    ensures var step := FillStep(js, buf, st);
      Move(js, st.pos, Abstract(st)) == if step.Go? then Some(Abstract(step.st)) else None
  {
    hide OpenKinds, LastOpen, Bump;
    if FillStep(js, buf, st).Go? {
      OpenKindsAppend(st.toks, st.super, Token(if js[st.pos] == '{' then Object else Array, st.pos, -1, 0));
    }
  }

  lemma CloseIsMove(js: string, buf: seq<Token>, st: State)
    requires Shape(js, st) && !AtEnd(js, st.pos) && js[st.pos] in {'}', ']'}
    ensures var step := FillStep(js, buf, st);
      && (step.Halt? ==> step.code != ERROR_NOMEM)
      && Move(js, st.pos, Abstract(st)) == if step.Go? then Some(Abstract(step.st)) else None
  {
    assert st.Sane();
    hide OpenKinds, LastOpen, Bump, Shape, RoleAt, Top;
    TopIsLastOpen(js, st);
    var step := FillStep(js, buf, st);
    if step.Go? {
      ClosedAbstract(js, st, step.st);
    }
  }

  /** Closing the innermost bracket pops the stack. */
  lemma ClosedAbstract(js: string, st: State, next: State)
    requires Shape(js, st) && st.pos < |js| && js[st.pos] in {'}', ']'}
    requires var c := LastOpen(st.toks);
      && c >= 0 && st.toks[c].kind == (if js[st.pos] == '}' then Object else Array)
      && next == State(st.pos + 1, st.toks[c := st.toks[c].(end := st.pos + 1)], LastOpen(st.toks[..c]))
    ensures var m := Abstract(st); var m' := Abstract(next);
      m.stack != [] && m'.stack == m.stack[..|m.stack| - 1] && m'.super == Top(m'.stack) && m'.last == m.last
  {
    hide OpenKinds, LastOpen, Top;
    var c := LastOpen(st.toks);
    OpenKindsClose(st.toks, st.pos + 1);
    ShapeCloses(js, st, c, next.super);
    hide Shape;
    TopIsLastOpen(js, next);
    InnerOpen(st.toks, c, st.pos + 1);
  }

  /** Closing the innermost bracket, the one around it becomes innermost. */
  lemma InnerOpen(toks: seq<Token>, c: nat, e: nat)
    requires c == LastOpen(toks)
    ensures LastOpen(toks[c := toks[c].(end := e)]) == LastOpen(toks[..c])
  {
    hide LastOpen;
    var closed := toks[c := toks[c].(end := e)];
    var i := LastOpen(toks[..c]);
    assert i >= 0 ==> toks[..c][i].Open();
    forall j | i < j < |closed| ensures !closed[j].Open() {
      if j < c { assert !toks[..c][j].Open(); } else if j > c { assert !toks[j].Open(); }
    }
    LastOpenIs(closed, i);
  }

  lemma StringIsMove(js: string, buf: seq<Token>, st: State)
    requires Shape(js, st) && !AtEnd(js, st.pos) && js[st.pos] == '"'
    requires FillStep(js, buf, st).Halt? ==> FillStep(js, buf, st).code != ERROR_NOMEM
    ensures var step := FillStep(js, buf, st);
      Move(js, st.pos, Abstract(st)) == if step.Go? then Some(Abstract(step.st)) else None
  {
    assert st.Sane();
    hide OpenKinds, LastOpen, ScanString, ScanPrimitive, Shape, Bump, RoleAt;
    var step := FillStep(js, buf, st);
    if step.Go? {
      LeafAbstract(st, step.st.toks[|st.toks|], step.st.pos);
    }
  }

  lemma RefusedByRole(st: State)
    requires st.Sane()
    ensures st.super != -1 && RefusesPrimitive(st.toks[st.super]) <==> RoleAt(st.toks, st.super) in {InObject, Used}
  {
  }

  lemma PrimitiveIsMove(js: string, buf: seq<Token>, st: State)
    requires Shape(js, st) && !AtEnd(js, st.pos) && IsPrimitiveStart(js[st.pos])
    requires FillStep(js, buf, st).Halt? ==> FillStep(js, buf, st).code != ERROR_NOMEM
    ensures var step := FillStep(js, buf, st);
      Move(js, st.pos, Abstract(st)) == if step.Go? then Some(Abstract(step.st)) else None
  {
    assert st.Sane();
    RefusedByRole(st);
    hide OpenKinds, LastOpen, ScanString, ScanPrimitive, Shape, Bump, RoleAt, RefusesPrimitive;
    var step := FillStep(js, buf, st);
    if step.Go? {
      LeafAbstract(st, step.st.toks[|st.toks|], step.st.pos);
    }
  }

  /** A leaf leaves the stack alone, counts for its superior and becomes the last token. */
  lemma LeafAbstract(st: State, t: Token, pos: nat)
    requires st.Sane() && !t.Open() && t.size == 0
    ensures var next := State(pos, Bump(st.toks, st.super) + [t], st.super);
      Abstract(next) == Machine(OpenKinds(st.toks), Counted(RoleAt(st.toks, st.super)), RoleOf(t))
  {
    hide OpenKinds;
    OpenKindsAppend(st.toks, st.super, t);
  }

  lemma OtherIsMove(js: string, buf: seq<Token>, st: State)
    requires Shape(js, st) && !AtEnd(js, st.pos) && js[st.pos] !in {'{', '[', '}', ']', '"'} && !IsPrimitiveStart(js[st.pos])
    ensures var step := FillStep(js, buf, st);
      && (step.Halt? ==> step.code != ERROR_NOMEM)
      && Move(js, st.pos, Abstract(st)) == if step.Go? then Some(Abstract(step.st)) else None
  {
    hide OpenKinds, LastOpen, LastOpenContainer, Shape;
    TopIsLastOpen(js, st);
  }

  /** Where the array is too short for one more token. */
  lemma NoRoomLeft(js: string, buf: seq<Token>, st: State)
    requires st.Sane() && !AtEnd(js, st.pos)
    requires FillStep(js, buf, st).Halt? && FillStep(js, buf, st).code == ERROR_NOMEM
    ensures var c := CountRun(js, 0, Tally(st.pos, |st.toks|, -1)).code;
      |st.toks| >= |buf| && (c < 0 || c > |st.toks|)
  {
    hide LastOpen, LastOpenContainer, ScanString, ScanPrimitive, CountRun;
    var t := CountTurn(js, 0, Tally(st.pos, |st.toks|, -1));
    assert t.More? && t.t.count == |st.toks| + 1;
    CountTurnAdvances(js, 0, Tally(st.pos, |st.toks|, -1));
    CountUnfolds(js, Tally(st.pos, |st.toks|, -1));
    CountGrows(js, t.t);
  }

  lemma CountUnfolds(js: string, t: Tally)
    requires !AtEnd(js, t.pos) && CountTurn(js, 0, t).More?
    ensures CountRun(js, 0, t) == CountRun(js, 0, CountTurn(js, 0, t).t)
  {
  }

  /** One turn is one move. */
  lemma TurnIsMove(js: string, buf: seq<Token>, st: State)
    requires Shape(js, st) && !AtEnd(js, st.pos)
    requires FillStep(js, buf, st).Halt? ==> FillStep(js, buf, st).code != ERROR_NOMEM
    ensures var step := FillStep(js, buf, st);
      Move(js, st.pos, Abstract(st)) == if step.Go? then Some(Abstract(step.st)) else None
  {
    hide FillStep, Move, Abstract, Shape;
    var c := js[st.pos];
    if c == '{' || c == '[' { OpenIsMove(js, buf, st); }
    else if c == '}' || c == ']' { CloseIsMove(js, buf, st); }
    else if c == '"' { StringIsMove(js, buf, st); }
    else if IsPrimitiveStart(c) { PrimitiveIsMove(js, buf, st); }
    else { OtherIsMove(js, buf, st); }
  }

  /** A filling run succeeds if and only if the machine accepts the text and there are as many
      tokens as the counting pass finds. */
  lemma {:induction false} RunSucceedsIff(js: string, buf: seq<Token>, st: State)
    requires Shape(js, st) && |st.toks| <= |buf|
    ensures FillRun(js, buf, st).code >= 0 <==>
      Accepts(js, st.pos, Abstract(st)) && 0 <= CountRun(js, 0, Tally(st.pos, |st.toks|, -1)).code <= |buf|
    decreases |js| - st.pos
  {
    assert st.Sane();
    hide FillStep, Abstract, Move, CountTurn, Shape, NextVisit;
    if AtEnd(js, st.pos) {
      StackAtEnd(js, st);
    } else {
      FillRunUnfolds(js, buf, st);
      var step := FillStep(js, buf, st);
      if step.Halt? && step.code == ERROR_NOMEM {
        NoRoomLeft(js, buf, st);
      } else {
        TurnIsMove(js, buf, st);
        if step.Go? {
          TurnKeepsShape(js, buf, st);
          NextVisitIs(js, buf, st);
          RoomIsKept(js, buf, st);
          RunSucceedsIff(js, buf, step.st);
          TurnTallies(js, buf, st);
        }
      }
    }
  }

  lemma StackAtEnd(js: string, st: State)
    requires Shape(js, st)
    ensures Abstract(st).stack == [] <==> LastOpen(st.toks) < 0
  {
    hide Shape, LastOpen, OpenKinds;
    TopIsLastOpen(js, st);
  }

  lemma RoomIsKept(js: string, buf: seq<Token>, st: State)
    requires st.Sane() && !AtEnd(js, st.pos) && FillStep(js, buf, st).Go? && |st.toks| <= |buf|
    ensures |FillStep(js, buf, st).st.toks| <= |buf|
  {
    hide LastOpen, LastOpenContainer, ScanString, ScanPrimitive;
  }

  /** The counting pass makes the same turn. */
  lemma TurnTallies(js: string, buf: seq<Token>, st: State)
    requires st.Sane() && !AtEnd(js, st.pos) && FillStep(js, buf, st).Go?
    ensures var next := FillStep(js, buf, st).st;
      CountRun(js, 0, Tally(st.pos, |st.toks|, -1)).code == CountRun(js, 0, Tally(next.pos, |next.toks|, -1)).code
  {
    hide LastOpen, LastOpenContainer, ScanString, ScanPrimitive, CountRun;
    CountUnfolds(js, Tally(st.pos, |st.toks|, -1));
  }

  /** `jsmn_parse` on a fresh parser. */
  lemma FillSucceedsIff(js: string, buf: seq<Token>)
    ensures Fill(js, buf).code >= 0 <==> Accepts(js, 0, START) && 0 <= Count(js).code <= |buf|
  {
    hide FillRun, Accepts, CountRun;
    assert Abstract(INITIAL) == START;
    RunSucceedsIff(js, buf, INITIAL);
  }

  /** The second pass of `parse_json` succeeds exactly if the machine accepts. */
  lemma SecondPassIff(json: string, buf: seq<Token>)
    requires |buf| == Count(json).code
    ensures Fill(json, buf).code >= 0 <==> Accepts(json, 0, START)
  {
    hide Fill, Accepts, Count;
    FillSucceedsIff(json, buf);
  }
}
