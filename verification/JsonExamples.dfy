/** Two texts on which the lookup of plugins/cloudflare.c goes wrong. In one a string value with
    the text of the wanted key stands before the key, and its value is missed; in the other a
    string value "success" stands before the key "success", whose value is false, and the text
    is taken for a success. Both texts are written out, so they do not depend on constants. */
module JsonExamples {
  import opened Wrappers
  import opened Jsmn
  import opened JsonText
  import opened JsonRoundTrip
  import opened JsmnRuns
  import opened JsonLookup
  import opened JsonTreeLookup

  /** Text without quotes, backslashes and control characters is a string body. */
  lemma {:induction false} PlainBody(s: string)
    requires forall i :: 0 <= i < |s| ==> s[i] >= ' ' && s[i] != '"' && s[i] != '\\'
    ensures IsStringBody(s)
    decreases |s|
  {
    if s != "" { PlainBody(s[1..]); }
  }

  /** A pair written without whitespace. */
  function Pair(key: string, value: Json, rest: Members): Members { Member("", key, "", "", value, "", rest) }

  lemma PairIsValid(key: string, value: Json, rest: Members)
    requires forall i :: 0 <= i < |key| ==> key[i] >= ' ' && key[i] != '"' && key[i] != '\\'
    requires Valid(value) && ValidMembers(rest)
    ensures ValidMembers(Pair(key, value, rest))
  {
    PlainBody(key);
  }

  /** `{"success":true,"a":"id","id":"x"}` */
  const SHADOWED: Json := Obj("", Pair(SUCCESS, Literal("true"), Pair("a", Str("id"), Pair("id", Str("x"), NoMembers))))

  /** A pair in print. */
  lemma PairText(key: string, value: Json, rest: Members)
    ensures PrintMembers(Pair(key, value, rest)) ==
      Quoted(key) + (":" + (Print(value) + (if rest.NoMembers? then "}" else "," + PrintMembers(rest))))
  {
    hide Print, Quoted;
  }

  lemma ShadowedText()
    ensures Print(SHADOWED) == "{\"success\":true," + "\"a\":\"id\",\"id\":\"x\"}"
  {
    ShadowedEnd();
    ShadowedMiddle();
    hide Print, PrintMembers, Quoted;
    PairText(SUCCESS, Literal("true"), Pair("a", Str("id"), Pair("id", Str("x"), NoMembers)));
    PrintedObject(SHADOWED.members);
    PrintedLiteral("true");
    QuotedText();
    ShadowedPieces("\"a\":\"id\",\"id\":\"x\"}");
  }

  lemma ShadowedPieces(rest: string)
    ensures "{" + ("\"success\"" + (":" + ("true" + ("," + rest)))) == "{\"success\":true," + rest
  {
  }

  lemma QuotedText()
    ensures Quoted(SUCCESS) == "\"success\"" && Quoted("a") == "\"a\""
  {
  }

  lemma PrintedObject(members: Members)
    ensures Print(Obj("", members)) == "{" + PrintMembers(members)
  {
  }

  lemma PrintedLiteral(text: string)
    ensures Print(Literal(text)) == text && Print(Str(text)) == Quoted(text)
  {
  }

  lemma ShadowedEnd()
    ensures PrintMembers(Pair("id", Str("x"), NoMembers)) == "\"id\":\"x\"}"
  {
    hide Print, PrintMembers;
    PrintedLiteral("x");
    PairText("id", Str("x"), NoMembers);
  }

  lemma ShadowedMiddle()
    ensures PrintMembers(Pair("a", Str("id"), Pair("id", Str("x"), NoMembers))) == "\"a\":\"id\",\"id\":\"x\"}"
  {
    hide Print, PrintMembers;
    ShadowedEnd();
    PrintedLiteral("id");
    PairText("a", Str("id"), Pair("id", Str("x"), NoMembers));
  }

  lemma ShadowedIsValid()
    ensures Valid(SHADOWED)
  {
    hide ValidMembers;
    PlainBody("id");
    PlainBody("x");
    NoMembersAreValid();
    PairIsValid("id", Str("x"), NoMembers);
    PairIsValid("a", Str("id"), Pair("id", Str("x"), NoMembers));
    PairIsValid(SUCCESS, Literal("true"), SHADOWED.members.rest);
  }

  lemma NoMembersAreValid()
    ensures ValidMembers(NoMembers)
  {
  }

  lemma ShadowedNodes()
    ensures var nodes := Preorder(SHADOWED, 0);
      && |nodes| == 7
      && nodes[0].Value? && nodes[0].value == SHADOWED
      && nodes[1].Key? && nodes[1].name == SUCCESS && nodes[1].value == Literal("true")
      && nodes[2].Value? && nodes[2].value == Literal("true")
      && nodes[3].Key? && nodes[3].name == "a"
      && nodes[4].Value? && nodes[4].value == Str("id")
      && nodes[5].Key? && nodes[5].name == "id" && nodes[5].value == Str("x")
      && nodes[6].Value? && nodes[6].value == Str("x")
  {
    hide Print, Quoted;
    var m3 := Pair("id", Str("x"), NoMembers);
    var m2 := Pair("a", Str("id"), m3);
    var m1 := Pair(SUCCESS, Literal("true"), m2);
    FirstOfPair("id", Str("x"), NoMembers, MemberEnd(MemberEnd(1, SUCCESS, Literal("true")), "a", Str("id")));
    FirstOfPair("a", Str("id"), m3, MemberEnd(1, SUCCESS, Literal("true")));
    FirstOfPair(SUCCESS, Literal("true"), m2, 1);
  }

  /** Where the pair behind the next comma begins. */
  function MemberEnd(p: nat, key: string, value: Json): nat { ValueStart(p, "", key, "", "") + |Print(value)| + 1 }

  lemma FirstOfPair(key: string, value: Json, rest: Members, p: nat)
    requires value.Literal? || value.Str?
    ensures var at := ValueStart(p, "", key, "", "");
      PreorderMembers(Pair(key, value, rest), p) ==
      [Key(key, value, at), Value(value, at)] + PreorderMembers(rest, MemberEnd(p, key, value))
  {
    hide Print;
  }

  lemma ShadowedSuccess()
    ensures ClaimsSuccess(SHADOWED, 0) && IsSuccess(SHADOWED, 0)
  {
    hide Preorder;
    ShadowedNodes();
    var nodes := Preorder(SHADOWED, 0);
    assert !Named(nodes[0], SUCCESS) && FirstNamed(nodes, SUCCESS, 1) == 1 == FirstKey(nodes, SUCCESS, 1);
  }

  lemma ShadowedKey()
    ensures Shadowed(SHADOWED, 0, "id")
    ensures Lookup(SHADOWED, 0, "id").Some? && Lookup(SHADOWED, 0, "id").value.value == Str("x")
  {
    hide Preorder;
    ShadowedNodes();
    var nodes := Preorder(SHADOWED, 0);
    assert SUCCESS[0] == 's';
    assert FirstNamed(nodes, "id", 4) == 4 && FirstKey(nodes, "id", 5) == 5;
    assert FirstNamed(nodes, "id", 2) == 4 && FirstKey(nodes, "id", 3) == 5;
  }

  /** "success" is `true`, and yet looking for "id" does not yield its value, because the text
      "id" comes up as a string value before. */
  lemma ShadowedKeyIsMissed(buf: seq<Token>)
    requires |buf| == Nodes(SHADOWED)
    ensures var js := Print(SHADOWED);
      var toks := Parsed(js, buf);
      && js == "{\"success\":true," + "\"a\":\"id\",\"id\":\"x\"}"
      && Count(js).code == |buf| && AllLegible(js, toks) && toks != [] && Succeeded(js, toks)
      && Wanted(SHADOWED, 0, "id").Some? && Wanted(SHADOWED, 0, "id").value.value == Str("x")
      && ValueToken(js, toks, "id") != TokenOf(Wanted(SHADOWED, 0, "id"))
  {
    ShadowedText();
    ShadowedIsValid();
    ShadowedSuccess();
    ShadowedKey();
    hide Preorder, Print, Parsed, Valid, Nodes, Count, ClaimsSuccess, Shadowed, IsSuccess, Lookup, ValueToken, Succeeded, Tokenized;
    var js := Print(SHADOWED);
    assert "" + js + "" == js;
    ResultIsLookup(SHADOWED, "", "", "id", buf);
    TreesTokenize(SHADOWED, "", "", buf);
    SuccessIff(js, SHADOWED, 0, Parsed(js, buf));
  }

  /** `{"a":["success",true],"success":false}` */
  const MISLED: Json :=
    Obj("", Pair("a", Arr("", Item("", Str(SUCCESS), "", Item("", Literal("true"), "", NoItems))),
            Pair(SUCCESS, Literal("false"), NoMembers)))

  lemma MisledText()
    ensures Print(MISLED) == "{\"a\":" + "[\"success\",true]" + "," + "\"success\":false}"
  {
    MisledList();
    MisledEnd();
    hide Print, PrintMembers;
    PairText("a", MISLED.members.value, Pair(SUCCESS, Literal("false"), NoMembers));
    QuotedText();
    hide Quoted;
    PrintedObject(MISLED.members);
    MisledPieces("[\"success\",true]", "\"success\":false}");
  }

  lemma MisledPieces(value: string, rest: string)
    ensures "{" + ("\"a\"" + (":" + (value + ("," + rest)))) == "{\"a\":" + value + "," + rest
  {
  }

  lemma MisledEnd()
    ensures PrintMembers(Pair(SUCCESS, Literal("false"), NoMembers)) == "\"success\":false}"
  {
    hide Print, PrintMembers;
    PrintedLiteral("false");
    PairText(SUCCESS, Literal("false"), NoMembers);
  }

  lemma MisledList()
    ensures Print(MISLED.members.value) == "[\"success\",true]"
  {
    var items := MISLED.members.value.items;
    assert PrintItems(items.rest) == "true]";
    PrintedLiteral(SUCCESS);
    assert Quoted(SUCCESS) == "\"success\"";
  }

  lemma ListIsValid()
    ensures Valid(MISLED.members.value)
  {
    PlainBody(SUCCESS);
    var items := MISLED.members.value.items;
    assert ValidItems(items.rest.rest) && ValidItems(items.rest);
  }

  lemma MisledIsValid()
    ensures Valid(MISLED)
  {
    ListIsValid();
    NoMembersAreValid();
    hide ValidMembers;
    PairIsValid(SUCCESS, Literal("false"), NoMembers);
    PairIsValid("a", MISLED.members.value, MISLED.members.rest);
  }

  lemma MisledNodes()
    ensures var nodes := Preorder(MISLED, 0);
      && |nodes| == 7
      && nodes[0].Value? && nodes[0].value == MISLED
      && nodes[1].Key? && nodes[1].name == "a"
      && nodes[2].Value? && nodes[2].value == MISLED.members.value
      && nodes[3].Value? && nodes[3].value == Str(SUCCESS)
      && nodes[4].Value? && nodes[4].value == Literal("true")
      && nodes[5].Key? && nodes[5].name == SUCCESS && nodes[5].value == Literal("false")
      && nodes[6].Value? && nodes[6].value == Literal("false")
  {
    hide Print, Quoted;
    var list := MISLED.members.value;
    var at := ValueStart(1, "", "a", "", "");
    var q := at + |Print(Str(SUCCESS))| + 2;
    assert PreorderItems(list.items.rest, q) == [Value(Literal("true"), q)];
    assert PreorderItems(list.items, at + 1) == [Value(Str(SUCCESS), at + 1)] + PreorderItems(list.items.rest, q);
    FirstOfPair(SUCCESS, Literal("false"), NoMembers, MemberEnd(1, "a", list));
  }

  lemma MisledSuccess()
    ensures ClaimsSuccess(MISLED, 0)
    ensures Lookup(MISLED, 0, SUCCESS).Some? && Lookup(MISLED, 0, SUCCESS).value.value == Literal("false")
  {
    hide Preorder;
    MisledNodes();
    var nodes := Preorder(MISLED, 0);
    assert FirstNamed(nodes, SUCCESS, 3) == 3 && FirstNamed(nodes, SUCCESS, 1) == 3;
    assert FirstKey(nodes, SUCCESS, 4) == 5 && FirstKey(nodes, SUCCESS, 2) == 5;
  }

  /** "success" is `false`, and yet `check_success` answers that it is `true`, because the text
      comes up as a string value before, with `true` behind it. */
  lemma FailureLooksLikeSuccess(buf: seq<Token>)
    requires |buf| == Nodes(MISLED)
    ensures var js := Print(MISLED);
      var toks := Parsed(js, buf);
      && js == "{\"a\":" + "[\"success\",true]" + "," + "\"success\":false}"
      && Count(js).code == |buf| && AllLegible(js, toks) && toks != [] && Succeeded(js, toks)
      && Lookup(MISLED, 0, SUCCESS).Some? && Lookup(MISLED, 0, SUCCESS).value.value == Literal("false")
  {
    MisledText();
    MisledIsValid();
    MisledSuccess();
    hide Preorder, Print, Parsed, Valid, Nodes, Count, ClaimsSuccess, Lookup, Succeeded, Tokenized;
    var js := Print(MISLED);
    assert "" + js + "" == js;
    ResultIsLookup(MISLED, "", "", SUCCESS, buf);
    TreesTokenize(MISLED, "", "", buf);
    SuccessIff(js, MISLED, 0, Parsed(js, buf));
  }
}
