/** What the lookup through tokens means for the tree the text was printed from. */
module JsonTreeLookup {
  import opened Wrappers
  import opened Jsmn
  import opened JsonText
  import opened JsonRoundTrip
  import opened JsmnRuns
  import opened JsonLookup
  import JsmnShape
  import JsmnStack

  /** A key with its value, or a value, and where the value is printed. */
  datatype Node = Key(name: string, value: Json, at: nat) | Value(value: Json, at: nat)

  function Preorder(v: Json, p: nat): (nodes: seq<Node>)
    ensures |nodes| == Nodes(v) && nodes[0] == Value(v, p)
  {
    match v
    case Literal(_) => [Value(v, p)]
    case Str(_) => [Value(v, p)]
    case Arr(pad, items) => [Value(v, p)] + PreorderItems(items, p + 1 + |pad|)
    case Obj(pad, members) => [Value(v, p)] + PreorderMembers(members, p + 1 + |pad|)
  }

  function PreorderItems(items: Items, p: nat): (nodes: seq<Node>)
    ensures |nodes| == NodesOfItems(items)
  {
    match items
    case NoItems => []
    case Item(before, value, after, rest) =>
      var at := p + |before|;
      Preorder(value, at) + PreorderItems(rest, at + |Print(value)| + |after| + 1)
  }

  function PreorderMembers(members: Members, p: nat): (nodes: seq<Node>)
    ensures |nodes| == NodesOfMembers(members)
  {
    match members
    case NoMembers => []
    case Member(before, key, mid, gap, value, after, rest) =>
      var at := ValueStart(p, before, key, mid, gap);
      ([Key(key, value, at)] + Preorder(value, at)) + PreorderMembers(rest, at + |Print(value)| + |after| + 1)
  }

  /** The token of a value printed at `at`. */
  function Root(v: Json, at: nat): Token {
    match v
    case Literal(text) => Token(Primitive, at, at + |text|, 0)
    case Str(text) => Token(String, at + 1, at + 1 + |text|, 0)
    case Arr(_, items) => Token(Array, at, at + |Print(v)|, Length(items))
    case Obj(_, members) => Token(Object, at, at + |Print(v)|, Pairs(members))
  }

  /** The token is that of the node. */
  predicate Denotes(js: string, node: Node, t: Token) {
    match node
    case Key(name, _, _) => t.kind == String && IsSlice(js, t, name)
    case Value(v, at) =>
      t == Root(v, at) && (v.Str? ==> IsSlice(js, t, v.text)) && (v.Literal? ==> IsSlice(js, t, v.text))
  }

  predicate IsSlice(js: string, t: Token, s: string) {
    0 <= t.start <= t.end <= |js| && js[t.start..t.end] == s
  }

  ghost predicate AllDenote(js: string, nodes: seq<Node>, toks: seq<Token>) {
    |nodes| == |toks| && forall i :: 0 <= i < |nodes| ==> Denotes(js, nodes[i], toks[i])
  }

  /** Behind every key stands its value. */
  ghost predicate KeysHaveValues(nodes: seq<Node>) {
    forall i :: 0 <= i < |nodes| && nodes[i].Key? ==>
      i + 1 < |nodes| && nodes[i + 1] == Value(nodes[i].value, nodes[i].at)
  }

  lemma Joined(js: string, n1: seq<Node>, t1: seq<Token>, n2: seq<Node>, t2: seq<Token>)
    requires AllDenote(js, n1, t1) && AllDenote(js, n2, t2) && KeysHaveValues(n1) && KeysHaveValues(n2)
    ensures AllDenote(js, n1 + n2, t1 + t2) && KeysHaveValues(n1 + n2)
  {
    hide Denotes;
    var n := n1 + n2;
    forall i | 0 <= i < |n| && n[i].Key? ensures i + 1 < |n| && n[i + 1] == Value(n[i].value, n[i].at) {
      if i < |n1| { assert n1[i] == n[i] && n1[i + 1] == n[i + 1]; }
      else { assert n2[i - |n1|] == n[i] && n2[i - |n1| + 1] == n[i + 1]; }
    }
  }

  // ------------------------------------------------------------ nodes and tokens correspond

  lemma {:induction false} TreeDenotes(js: string, p: nat, v: Json)
    requires Valid(v) && At(js, p, Print(v))
    ensures AllDenote(js, Preorder(v, p), Flatten(v, p)) && KeysHaveValues(Preorder(v, p))
    decreases v
  {
    hide At, PreorderItems, PreorderMembers, FlattenItems, FlattenMembers, Valid, IsSlice;
    hide ValidItems, ValidMembers;
    LeafIsSlice(js, p, v);
    match v
    case Literal(text) =>
    case Str(text) =>
    case Arr(pad, items) =>
      ArrayText(js, p, pad, items);
      ValidInside(v);
      ItemsDenote(js, p + 1 + |pad|, items);
      var q := p + 1 + |pad|;
      Joined(js, [Value(v, p)], [Root(v, p)], PreorderItems(items, q), FlattenItems(items, q));
    case Obj(pad, members) =>
      ObjectText(js, p, pad, members);
      ValidInside(v);
      MembersDenote(js, p + 1 + |pad|, members);
      var q := p + 1 + |pad|;
      Joined(js, [Value(v, p)], [Root(v, p)], PreorderMembers(members, q), FlattenMembers(members, q));
  }

  lemma LeafIsSlice(js: string, p: nat, v: Json)
    requires At(js, p, Print(v))
    ensures v.Literal? || v.Str? ==> IsSlice(js, Root(v, p), v.text)
  {
    if v.Str? {
      AtSplit(js, p, "\"", v.text + "\"");
      AtSplit(js, p + 1, v.text, "\"");
    }
  }

  lemma ValidInside(v: Json)
    requires Valid(v)
    ensures v.Arr? ==> ValidItems(v.items)
    ensures v.Obj? ==> ValidMembers(v.members)
  {
  }

  lemma {:induction false} ItemsDenote(js: string, p: nat, items: Items)
    requires ValidItems(items) && At(js, p, PrintItems(items))
    ensures AllDenote(js, PreorderItems(items, p), FlattenItems(items, p)) && KeysHaveValues(PreorderItems(items, p))
    decreases items
  {
    hide At, Print, PrintItems, Preorder, Flatten, Valid, AllDenote, KeysHaveValues;
    match items
    case NoItems => NothingDenotes(js);
    case Item(before, value, after, rest) =>
      ItemText(js, p, before, value, after, rest);
      var at := p + |before|;
      TreeDenotes(js, at, value);
      var q := at + |Print(value)| + |after| + 1;
      if rest.NoItems? {
        NothingDenotes(js);
      } else {
        ItemsDenote(js, q, rest);
      }
      Joined(js, Preorder(value, at), Flatten(value, at), PreorderItems(rest, q), FlattenItems(rest, q));
  }

  lemma NothingDenotes(js: string)
    ensures AllDenote(js, [], []) && KeysHaveValues([])
  {
  }

  lemma {:induction false} MembersDenote(js: string, p: nat, members: Members)
    requires ValidMembers(members) && At(js, p, PrintMembers(members))
    ensures AllDenote(js, PreorderMembers(members, p), FlattenMembers(members, p))
    ensures KeysHaveValues(PreorderMembers(members, p))
    decreases members
  {
    hide At, KeyAt, Print, PrintMembers, Preorder, Flatten, Valid, AllDenote, KeysHaveValues, PairTokens, ValueStart;
    hide IsStringBody, IsWhitespace;
    match members
    case NoMembers => NothingDenotes(js);
    case Member(before, key, mid, gap, value, after, rest) =>
      MemberText(js, p, before, key, mid, gap, value, after, rest);
      var at := ValueStart(p, before, key, mid, gap);
      TreeDenotes(js, at, value);
      PairDenotes(js, p, before, key, mid, gap, value);
      var q := at + |Print(value)| + |after| + 1;
      if rest.NoMembers? {
        NothingDenotes(js);
      } else {
        MembersDenote(js, q, rest);
      }
      Joined(js, [Key(key, value, at)] + Preorder(value, at), PairTokens(p, before, key, mid, gap, value),
             PreorderMembers(rest, q), FlattenMembers(rest, q));
  }

  lemma PairDenotes(js: string, p: nat, before: string, key: string, mid: string, gap: string, value: Json)
    requires KeyAt(js, p, before, key, mid, gap)
    requires var at := ValueStart(p, before, key, mid, gap);
      AllDenote(js, Preorder(value, at), Flatten(value, at)) && KeysHaveValues(Preorder(value, at))
    ensures var at := ValueStart(p, before, key, mid, gap);
      var nodes := [Key(key, value, at)] + Preorder(value, at);
      AllDenote(js, nodes, PairTokens(p, before, key, mid, gap, value)) && KeysHaveValues(nodes)
  {
    var at := ValueStart(p, before, key, mid, gap);
    KeyIsSlice(js, p + |before|, key);
    hide At, KeyAt, Preorder, Flatten, Root, Quoted, ValueStart, IsSlice, Denotes, KeysHaveValues, AllDenote;
    KeyDenotes(js, p, before, key, value, at);
    OneMoreDenotes(js, Key(key, value, at), KeyToken(p, before, key, 1), Preorder(value, at), Flatten(value, at));
    KeyHasItsValue(Key(key, value, at), Preorder(value, at));
  }

  lemma OneMoreDenotes(js: string, node: Node, t: Token, nodes: seq<Node>, toks: seq<Token>)
    requires Denotes(js, node, t) && AllDenote(js, nodes, toks)
    ensures AllDenote(js, [node] + nodes, [t] + toks)
  {
    hide Denotes;
  }

  lemma KeyHasItsValue(key: Node, nodes: seq<Node>)
    requires key.Key? && nodes != [] && nodes[0] == Value(key.value, key.at) && KeysHaveValues(nodes)
    ensures KeysHaveValues([key] + nodes)
  {
    var all := [key] + nodes;
    forall i | 0 <= i < |all| && all[i].Key?
      ensures i + 1 < |all| && all[i + 1] == Value(all[i].value, all[i].at)
    {
      if i > 0 { assert nodes[i - 1] == all[i] && nodes[i - 1 + 1] == all[i + 1]; }
    }
  }

  lemma KeyIsSlice(js: string, p: nat, key: string)
    requires At(js, p, Quoted(key))
    ensures p + 1 + |key| <= |js| && js[p + 1..p + 1 + |key|] == key
  {
    AtSplit(js, p, "\"", key + "\"");
    AtSplit(js, p + 1, key, "\"");
  }

  lemma KeyDenotes(js: string, p: nat, before: string, key: string, value: Json, at: nat)
    requires var q := p + |before|; q + 1 + |key| <= |js| && js[q + 1..q + 1 + |key|] == key
    ensures Denotes(js, Key(key, value, at), KeyToken(p, before, key, 1))
  {
  }

  // ------------------------------------------------------------ looking up in the tree

  /** The text of a key or of a string value. */
  predicate Named(node: Node, key: string) {
    match node
    case Key(name, _, _) => name == key
    case Value(v, _) => v == Str(key)
  }

  function FirstNamed(nodes: seq<Node>, key: string, i: nat): (k: nat)
    requires i <= |nodes|
    ensures i <= k <= |nodes|
    ensures k < |nodes| ==> Named(nodes[k], key)
    ensures forall j :: i <= j < k ==> !Named(nodes[j], key)
    decreases |nodes| - i
  {
    if i == |nodes| || Named(nodes[i], key) then i else FirstNamed(nodes, key, i + 1)
  }

  function FirstKey(nodes: seq<Node>, key: string, i: nat): (k: nat)
    requires i <= |nodes|
    ensures i <= k <= |nodes|
    ensures k < |nodes| ==> nodes[k].Key? && nodes[k].name == key
    ensures forall j :: i <= j < k ==> !(nodes[j].Key? && nodes[j].name == key)
    decreases |nodes| - i
  {
    if i == |nodes| || (nodes[i].Key? && nodes[i].name == key) then i else FirstKey(nodes, key, i + 1)
  }

  /** What should be found: the value under the first occurrence of the key in preorder. */
  function Lookup(v: Json, p: nat, key: string): Option<Node> {
    var nodes := Preorder(v, p);
    var k := FirstKey(nodes, key, 0);
    if k < |nodes| then Some(Value(nodes[k].value, nodes[k].at)) else None
  }

  function TokenOf(node: Option<Node>): Option<Token> {
    if node.None? then None else Some(Root(node.value.value, node.value.at))
  }

  /** The text of the key comes up as a string value first, and not as the very last node. */
  predicate Shadowed(v: Json, p: nat, key: string) {
    var nodes := Preorder(v, p);
    var i := FirstNamed(nodes, key, 0);
    i + 1 < |nodes| && nodes[i].Value?
  }

  lemma NamedIff(js: string, node: Node, t: Token, key: string)
    requires Denotes(js, node, t)
    ensures Legible(js, t) || (node.Value? && node.value.Literal?)
    ensures Legible(js, t) ==> (JsonEq(js, t, key) <==> Named(node, key))
  {
  }

  lemma {:induction false} FirstAgrees(js: string, nodes: seq<Node>, toks: seq<Token>, key: string, i: nat)
    requires AllDenote(js, nodes, toks) && AllLegible(js, toks) && i <= |nodes|
    ensures First(js, toks, key, i) == FirstNamed(nodes, key, i)
    decreases |nodes| - i
  {
    hide Denotes, JsonEq, Named;
    if i < |nodes| {
      NamedIff(js, nodes[i], toks[i], key);
      FirstAgrees(js, nodes, toks, key, i + 1);
    }
  }

  ghost predicate StartsDiffer(toks: seq<Token>) {
    forall i, j :: 0 <= i < j < |toks| ==> toks[i].start < toks[j].start
  }

  /** All that the lookup needs to know about the text of a tree and its tokens. */
  ghost predicate Tokenized(js: string, v: Json, p: nat, toks: seq<Token>) {
    && AllDenote(js, Preorder(v, p), toks) && KeysHaveValues(Preorder(v, p))
    && AllLegible(js, toks) && StartsDiffer(toks) && toks != []
  }

  /** The root of the tree is an object or an array, so it is not itself the key. */
  lemma RootIsUnnamed(v: Json, p: nat, key: string)
    requires v.Obj? || v.Arr?
    ensures var nodes := Preorder(v, p);
      |nodes| > 0 && FirstNamed(nodes, key, 0) == FirstNamed(nodes, key, 1)
  {
  }

  /** The first key of that name is the first node of that name, unless a value comes first. */
  lemma KeysAreNamed(nodes: seq<Node>, key: string)
    ensures var i, k := FirstNamed(nodes, key, 0), FirstKey(nodes, key, 0);
      i <= k && (i < |nodes| && nodes[i].Key? ==> i == k) && (k == i < |nodes| ==> nodes[i].Key?)
  {
    var i, k := FirstNamed(nodes, key, 0), FirstKey(nodes, key, 0);
    if k < i { assert Named(nodes[k], key); }
    if i < |nodes| && nodes[i].Key? { assert nodes[i].name == key; }
  }

  /** The token loop finds the value of the key if and only if no string value shadows it. */
  lemma LookupIff(js: string, v: Json, p: nat, toks: seq<Token>, key: string)
    requires (v.Obj? || v.Arr?) && Tokenized(js, v, p, toks)
    ensures ValueToken(js, toks, key) == TokenOf(Lookup(v, p, key)) <==> !Shadowed(v, p, key)
  {
    hide Preorder, Root, Named;
    var nodes := Preorder(v, p);
    RootIsUnnamed(v, p, key);
    FirstAgrees(js, nodes, toks, key, 1);
    KeysAreNamed(nodes, key);
    var i, k := FirstNamed(nodes, key, 0), FirstKey(nodes, key, 0);
    assert k < |nodes| ==> Denotes(js, nodes[k + 1], toks[k + 1]);
    if Shadowed(v, p, key) && k < |nodes| {
      assert toks[i + 1].start < toks[k + 1].start;
    }
  }

  /** "true" is the only literal that begins with a 't'. */
  lemma TrueIff(text: string)
    requires IsLiteral(text)
    ensures text != "" && (text[0] == 't' <==> text == "true")
  {
    if IsNumber(text) {
      var minus, whole, frac, exp :| NumberParts(text, minus, whole, frac, exp);
      assert text[0] == (if minus == "-" then '-' else whole[0]);
      assert whole[0] in whole;
    }
  }

  lemma TokenIsTrueIff(js: string, node: Node, t: Token)
    requires node.Value? && Valid(node.value) && Denotes(js, node, t) && Legible(js, t)
    ensures IsTrue(js, t) <==> node.value == Literal("true")
  {
    if node.value.Literal? {
      TrueIff(node.value.text);
      assert js[t.start..t.end][0] == js[t.start];
    }
  }

  ghost predicate AllValid(nodes: seq<Node>) {
    forall i :: 0 <= i < |nodes| ==> Valid(nodes[i].value)
  }

  lemma {:induction false} NodesAreValid(v: Json, p: nat)
    requires Valid(v)
    ensures AllValid(Preorder(v, p))
    decreases v
  {
    match v
    case Literal(_) =>
    case Str(_) =>
    case Arr(pad, items) => ItemsAreValid(items, p + 1 + |pad|);
    case Obj(pad, members) => MembersAreValid(members, p + 1 + |pad|);
  }

  lemma {:induction false} ItemsAreValid(items: Items, p: nat)
    requires ValidItems(items)
    ensures AllValid(PreorderItems(items, p))
    decreases items
  {
    hide Preorder, Valid;
    match items
    case NoItems =>
    case Item(before, value, after, rest) =>
      NodesAreValid(value, p + |before|);
      ItemsAreValid(rest, p + |before| + |Print(value)| + |after| + 1);
  }

  lemma {:induction false} MembersAreValid(members: Members, p: nat)
    requires ValidMembers(members)
    ensures AllValid(PreorderMembers(members, p))
    decreases members
  {
    hide Preorder, Valid, ValueStart;
    match members
    case NoMembers =>
    case Member(before, key, mid, gap, value, after, rest) =>
      var at := ValueStart(p, before, key, mid, gap);
      NodesAreValid(value, at);
      MembersAreValid(rest, at + |Print(value)| + |after| + 1);
  }

  // ------------------------------------------------------------ from text to answer

  /** `parse_json` on the text of a tree: it is accepted, the count is right, and the tokens
      are, whatever the memory held. */
  lemma TreesTokenize(v: Json, lead: string, trail: string, buf: seq<Token>)
    requires Valid(v) && (v.Obj? || v.Arr?) && IsWhitespace(lead) && IsWhitespace(trail) && |buf| == Nodes(v)
    ensures var js := lead + Print(v) + trail;
      && Count(js).code == Nodes(v) && JsmnStack.Accepts(js, 0, JsmnStack.START)
      && Parsed(js, buf) == Flatten(v, |lead|) && Tokenized(js, v, |lead|, Parsed(js, buf))
  {
    hide Fill, FillRun, Count, CountRun, Print, Flatten, Preorder, Valid, AllDenote, KeysHaveValues, IsWhitespace, AllLegible, StartsDiffer;
    var js := lead + Print(v) + trail;
    var p := |lead|;
    TokenizingUndoesPrinting(v, lead, trail, buf);
    CountsAsFills(js, buf);
    JsmnStack.SecondPassIff(js, buf);
    var toks := Parsed(js, buf);
    assert toks == Flatten(v, p) == Fill(js, buf).st.toks;
    FilledIsLegible(js, buf);
    StartsIncrease(js, buf);
    PiecesLie(lead, Print(v), trail);
    TreeDenotes(js, p, v);
  }

  lemma StartsIncrease(js: string, buf: seq<Token>)
    requires Fill(js, buf).code >= 0
    ensures StartsDiffer(Fill(js, buf).st.toks)
  {
    hide Fill;
    JsmnShape.TokensAreWellFormed(js, buf);
    var toks := Fill(js, buf).st.toks;
    assert forall i, j :: 0 <= i < j < |toks| ==> JsmnShape.Nested(toks[i], toks[j]);
  }

  lemma CountsAsFills(js: string, buf: seq<Token>)
    requires Fill(js, buf).code >= 0
    ensures Count(js).code == Fill(js, buf).code
  {
    Lockstep(js, buf, INITIAL, -1);
  }

  /** What `check_success` goes by: the node behind the first one of the name "success". */
  predicate ClaimsSuccess(v: Json, p: nat) {
    var nodes := Preorder(v, p);
    var i := FirstNamed(nodes, SUCCESS, 0);
    i + 1 < |nodes| && nodes[i + 1].Value? && nodes[i + 1].value == Literal("true")
  }

  /** What it is meant to go by: the value under the first key "success". */
  predicate IsSuccess(v: Json, p: nat) {
    var success := Lookup(v, p, SUCCESS);
    success.Some? && success.value.value == Literal("true")
  }

  lemma SuccessIff(js: string, v: Json, p: nat, toks: seq<Token>)
    requires Valid(v) && (v.Obj? || v.Arr?) && Tokenized(js, v, p, toks)
    ensures Succeeded(js, toks) <==> ClaimsSuccess(v, p)
  {
    hide Preorder, Root, Valid, Named, IsTrue, Denotes;
    RootIsUnnamed(v, p, SUCCESS);
    NodesAreValid(v, p);
    var nodes := Preorder(v, p);
    FirstAgrees(js, nodes, toks, SUCCESS, 1);
    var i := FirstNamed(nodes, SUCCESS, 1);
    if i + 1 < |nodes| {
      assert Denotes(js, nodes[i + 1], toks[i + 1]);
      NextIsTrueIff(js, nodes[i + 1], toks[i + 1]);
    }
  }

  lemma NextIsTrueIff(js: string, node: Node, t: Token)
    requires Valid(node.value) && Denotes(js, node, t) && Legible(js, t)
    ensures IsTrue(js, t) <==> node.Value? && node.value == Literal("true")
  {
    if node.Value? { TokenIsTrueIff(js, node, t); }
  }

  /** Unless a string value shadows "success" the two agree. */
  lemma UnshadowedSuccess(v: Json, p: nat)
    requires v.Obj? || v.Arr?
    requires !Shadowed(v, p, SUCCESS) && KeysHaveValues(Preorder(v, p))
    ensures ClaimsSuccess(v, p) <==> IsSuccess(v, p)
  {
    hide Preorder, Named;
    KeysAreNamed(Preorder(v, p), SUCCESS);
  }

  /** What `get_result_value` is meant to find in a tree. */
  function Wanted(v: Json, p: nat, key: string): Option<Node> {
    if IsSuccess(v, p) then Lookup(v, p, key) else None
  }

  /** The text of the key comes up nowhere, or only as the very last node. */
  predicate Unnamed(v: Json, p: nat, key: string) {
    var nodes := Preorder(v, p);
    FirstNamed(nodes, key, 0) + 1 >= |nodes|
  }

  lemma UnnamedIff(js: string, v: Json, p: nat, toks: seq<Token>, key: string)
    requires (v.Obj? || v.Arr?) && Tokenized(js, v, p, toks)
    ensures ValueToken(js, toks, key).None? <==> Unnamed(v, p, key)
  {
    hide Preorder, Root, Named;
    RootIsUnnamed(v, p, key);
    FirstAgrees(js, Preorder(v, p), toks, key, 1);
  }

  /** For every printed object, what `get_result_value` answers, and exactly when that is the
      token of the value under the first occurrence of the key, "success" being `true`. When
      it is a string, its token names exactly the characters to copy. */
  lemma ResultIsLookup(v: Json, lead: string, trail: string, key: string, buf: seq<Token>)
    requires Valid(v) && v.Obj? && IsWhitespace(lead) && IsWhitespace(trail) && |buf| == Nodes(v)
    ensures var js, p := lead + Print(v) + trail, |lead|;
      var toks := Parsed(js, buf);
      && Count(js).code == |buf| && AllLegible(js, toks) && toks != [] && toks[0].kind == Object
      && (var r := if Succeeded(js, toks) then ValueToken(js, toks, key) else None;
          var w := Wanted(v, p, key);
          && (r == TokenOf(w) <==>
              if ClaimsSuccess(v, p)
              then (if IsSuccess(v, p) then !Shadowed(v, p, key) else Unnamed(v, p, key))
              else (IsSuccess(v, p) ==> Lookup(v, p, key).None?))
          && (r == TokenOf(w) && w.Some? && w.value.value.Str? ==> IsSlice(js, r.value, w.value.value.text)))
  {
    hide Valid, Print, Preorder, Root, Flatten, Parsed, Shadowed, Lookup, Succeeded, ValueToken, IsSlice, ClaimsSuccess, IsSuccess, Unnamed, Count;
    var js, p := lead + Print(v) + trail, |lead|;
    var toks := Parsed(js, buf);
    TreesTokenize(v, lead, trail, buf);
    SuccessIff(js, v, p, toks);
    LookupIff(js, v, p, toks, key);
    UnnamedIff(js, v, p, toks, key);
    LookedUpIsSlice(js, v, p, toks, key);
    RootToken(js, v, p, toks);
  }

  lemma RootToken(js: string, v: Json, p: nat, toks: seq<Token>)
    requires v.Obj? && Tokenized(js, v, p, toks)
    ensures toks[0].kind == Object
  {
    assert Denotes(js, Preorder(v, p)[0], toks[0]);
  }

  lemma LookedUpIsSlice(js: string, v: Json, p: nat, toks: seq<Token>, key: string)
    requires Tokenized(js, v, p, toks)
    ensures var w := Lookup(v, p, key);
      w.Some? && w.value.value.Str? ==> IsSlice(js, TokenOf(w).value, w.value.value.text)
  {
    hide Preorder;
    var nodes := Preorder(v, p);
    var k := FirstKey(nodes, key, 0);
    if k < |nodes| {
      assert Denotes(js, nodes[k + 1], toks[k + 1]);
    }
  }
}
