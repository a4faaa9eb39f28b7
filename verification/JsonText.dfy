/** JSON texts: trees of RFC 8259 together with the exact way they are written down
    (sections 2 to 7), so that every grammatical text with a given tree is the printing
    of some value of this type. */
module JsonText {

  /** `pad` is the whitespace behind the opening bracket, `before` and `after` the
      whitespace around a value, `mid` and `gap` the whitespace around a colon. */
  datatype Json =
    | Literal(text: string)
    | Str(text: string)
    | Arr(pad: string, items: Items)
    | Obj(pad: string, members: Members)
  datatype Items = NoItems | Item(before: string, value: Json, after: string, rest: Items)
  datatype Members =
    | NoMembers
    | Member(before: string, key: string, mid: string, gap: string, value: Json, after: string, rest: Members)

  function Quoted(body: string): string { "\"" + (body + "\"") }

  function Print(v: Json): string {
    match v
    case Literal(text) => text
    case Str(text) => Quoted(text)
    case Arr(pad, items) => "[" + (pad + PrintItems(items))
    case Obj(pad, members) => "{" + (pad + PrintMembers(members))
  }

  /** The elements of an array and its closing bracket. */
  function PrintItems(items: Items): string {
    match items
    case NoItems => "]"
    case Item(before, value, after, rest) =>
      before + (Print(value) + (after + (if rest.NoItems? then "]" else "," + PrintItems(rest))))
  }

  /** The pairs of an object and its closing bracket. */
  function PrintMembers(members: Members): string {
    match members
    case NoMembers => "}"
    case Member(before, key, mid, gap, value, after, rest) =>
      before + (Quoted(key) + (mid + (":" + (gap + (Print(value) + (after +
      (if rest.NoMembers? then "}" else "," + PrintMembers(rest))))))))
  }

  // ------------------------------------------------------------ the lexical grammar

  /** `ws` of section 2. */
  predicate IsWhitespace(s: string) {
    forall c <- s :: c == ' ' || c == '\t' || c == '\n' || c == '\r'
  }

  predicate IsDigit(c: char) { '0' <= c <= '9' }
  predicate IsHexDigit(c: char) { '0' <= c <= '9' || 'A' <= c <= 'F' || 'a' <= c <= 'f' }
  predicate AllDigits(s: string) { forall c <- s :: IsDigit(c) }

  /** `number` of section 6 is `[ minus ] int [ frac ] [ exp ]`. */
  ghost predicate IsNumber(s: string) {
    exists minus, whole, frac, exp :: NumberParts(s, minus, whole, frac, exp)
  }

  predicate NumberParts(s: string, minus: string, whole: string, frac: string, exp: string) {
    && s == minus + whole + frac + exp
    && (minus == "" || minus == "-")
    && (whole == "0" || (whole != "" && AllDigits(whole) && whole[0] != '0'))
    && (frac == "" || (|frac| >= 2 && frac[0] == '.' && AllDigits(frac[1..])))
    && (exp == "" || (|exp| >= 2 && (exp[0] == 'e' || exp[0] == 'E') &&
        (AllDigits(exp[1..]) || (|exp| >= 3 && (exp[1] == '+' || exp[1] == '-') && AllDigits(exp[2..])))))
  }

  /** Section 3: the three names, or a number. */
  ghost predicate IsLiteral(s: string) {
    s == "true" || s == "false" || s == "null" || IsNumber(s)
  }

  /** `*char` of section 7: unescaped characters, two-character escapes and `\uXXXX`. */
  predicate IsStringBody(s: string)
    decreases |s|
  {
    if s == "" then true
    else if s[0] == '\\' then
      if |s| < 2 then false
      else if s[1] in "\"\\/bfnrt" then IsStringBody(s[2..])
      else |s| >= 6 && s[1] == 'u' && (forall c <- s[2..6] :: IsHexDigit(c)) && IsStringBody(s[6..])
    else s[0] >= ' ' && s[0] != '"' && IsStringBody(s[1..])
  }

  ghost predicate Valid(v: Json) {
    match v
    case Literal(text) => IsLiteral(text)
    case Str(text) => IsStringBody(text)
    case Arr(pad, items) => IsWhitespace(pad) && ValidItems(items)
    case Obj(pad, members) => IsWhitespace(pad) && ValidMembers(members)
  }

  ghost predicate ValidItems(items: Items) {
    match items
    case NoItems => true
    case Item(before, value, after, rest) =>
      IsWhitespace(before) && IsWhitespace(after) && Valid(value) && ValidItems(rest)
  }

  ghost predicate ValidMembers(members: Members) {
    match members
    case NoMembers => true
    case Member(before, key, mid, gap, value, after, rest) =>
      && IsWhitespace(before) && IsWhitespace(mid) && IsWhitespace(gap) && IsWhitespace(after)
      && IsStringBody(key) && Valid(value) && ValidMembers(rest)
  }

  // ------------------------------------------------------------ sizes

  function Length(items: Items): nat {
    match items
    case NoItems => 0
    case Item(_, _, _, rest) => 1 + Length(rest)
  }

  function Pairs(members: Members): nat {
    match members
    case NoMembers => 0
    case Member(_, _, _, _, _, _, rest) => 1 + Pairs(rest)
  }

  /** Values and keys, the nodes of the tree. */
  function Nodes(v: Json): nat {
    match v
    case Literal(_) => 1
    case Str(_) => 1
    case Arr(_, items) => 1 + NodesOfItems(items)
    case Obj(_, members) => 1 + NodesOfMembers(members)
  }

  function NodesOfItems(items: Items): nat {
    match items
    case NoItems => 0
    case Item(_, value, _, rest) => Nodes(value) + NodesOfItems(rest)
  }

  function NodesOfMembers(members: Members): nat {
    match members
    case NoMembers => 0
    case Member(_, _, _, _, value, _, rest) => 1 + Nodes(value) + NodesOfMembers(rest)
  }
}
