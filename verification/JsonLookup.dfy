/** Looking a key up through the flat token array: `jsoneq` and `json_bool` of src/json.c,
    `check_success`, `get_result_value` and `json_copy_value` of plugins/cloudflare.c. */
module JsonLookup {
  import opened Wrappers
  import opened Jsmn
  import opened JsonText
  import opened JsonRoundTrip
  import opened JsmnRuns
  import JsmnShape
  import Base64
  import Strings

  const SUCCESS: string := "success"

  /** The characters a token names can be read. */
  predicate Legible(json: string, t: Token) {
    && (t.kind == String ==> 0 <= t.start <= t.end <= |json|)
    && (t.kind == Primitive ==> 0 <= t.start < |json|)
  }

  ghost predicate AllLegible(json: string, toks: seq<Token>) {
    forall i :: 0 <= i < |toks| ==> Legible(json, toks[i])
  }

  /** `jsoneq`: a string token, key or value, with exactly this text. */
  predicate JsonEq(json: string, t: Token, s: string)
    requires Legible(json, t)
  {
    t.kind == String && |s| == t.end - t.start && json[t.start..t.end] == s
  }

  /** The first token from `i` on that is this string; the number of tokens if none is. */
  function First(json: string, toks: seq<Token>, key: string, i: nat): (k: nat)
    requires AllLegible(json, toks) && i <= |toks|
    ensures i <= k <= |toks|
    ensures k < |toks| ==> JsonEq(json, toks[k], key)
    ensures forall j :: i <= j < k ==> !JsonEq(json, toks[j], key)
    decreases |toks| - i
  {
    if i == |toks| || JsonEq(json, toks[i], key) then i else First(json, toks, key, i + 1)
  }

  /** The token behind the first one named `key`, the root token left aside. */
  function ValueToken(json: string, toks: seq<Token>, key: string): Option<Token>
    requires AllLegible(json, toks) && toks != []
  {
    var i := First(json, toks, key, 1);
    if i + 1 < |toks| then Some(toks[i + 1]) else None
  }

  predicate IsTrue(json: string, t: Token)
    requires Legible(json, t)
  {
    t.kind == Primitive && json[t.start] == 't'
  }

  ghost predicate Succeeded(json: string, toks: seq<Token>)
    requires AllLegible(json, toks) && toks != []
  {
    var t := ValueToken(json, toks, SUCCESS);
    t.Some? && IsTrue(json, t.value)
  }

  // ------------------------------------------------------------ the loops

  /** `json_bool`; `previous` is what the out value was. */
  method JsonBool(json: string, t: Token, previous: bool) returns (r: int, value: bool)
    requires Legible(json, t)
    ensures r == (if t.kind == Primitive then 0 else -1)
    ensures r == 0 ==> value == IsTrue(json, t)
    ensures r != 0 ==> value == previous
  {
    if t.kind == Primitive {
      return 0, json[t.start] == 't';
    }
    return -1, previous;
  }

  method CheckSuccess(json: string, tokens: array<Token>, n: nat) returns (r: int)
    requires n == tokens.Length > 0 && AllLegible(json, tokens[..])
    ensures r == if Succeeded(json, tokens[..]) then 0 else -1
  {
    var i := 1;
    while i < n
      invariant 1 <= i <= n
      invariant First(json, tokens[..], SUCCESS, i) == First(json, tokens[..], SUCCESS, 1)
    {
      if JsonEq(json, tokens[i], SUCCESS) {
        if i < n - 1 {
          var rc, value := JsonBool(json, tokens[i + 1], false);
          if rc == 0 {
            return if value then 0 else -1;
          }
        }
        return -1;
      }
      i := i + 1;
    }
    return -1;
  }

  /** When the second pass of `parse_json` succeeds, all tokens are legible. */
  lemma FilledIsLegible(json: string, buf: seq<Token>)
    requires |buf| == Count(json).code && Fill(json, buf).code >= 0
    ensures AllLegible(json, Parsed(json, buf))
  {
    hide Fill, Count;
    SecondPass(json, buf);
    JsmnShape.TokensAreWellFormed(json, buf);
    var toks := Parsed(json, buf);
    assert toks == Fill(json, buf).st.toks;
    forall i | 0 <= i < |toks| ensures Legible(json, toks[i]) {
      assert JsmnShape.Finished(json, toks[i]);
    }
  }

  /** Memory in which no slot looks like a string or a primitive, for example zeroed memory. */
  predicate Clean(buf: seq<Token>) {
    forall i :: 0 <= i < |buf| ==> buf[i].kind !in {String, Primitive}
  }

  lemma {:induction false} CleanRunIsLegible(json: string, buf: seq<Token>, st: State)
    requires Clean(buf) && JsmnShape.Shape(json, st)
    ensures AllLegible(json, FillRun(json, buf, st).st.toks)
    decreases |json| - st.pos
  {
    forall i | 0 <= i < |st.toks| ensures Legible(json, st.toks[i]) {
      assert JsmnShape.Placed(json, st.pos, st.toks[i]);
    }
    if !AtEnd(json, st.pos) {
      HaltKeepsTokens(json, buf, st);
      if FillStep(json, buf, st).Go? {
        hide FillStep, JsmnShape.Shape;
        FillStepAdvances(json, buf, st);
        JsmnShape.TurnKeepsShape(json, buf, st);
        CleanRunIsLegible(json, buf, FillStep(json, buf, st).st);
      }
    }
  }

  /** A turn that fails leaves the tokens alone, but for one slot taken and not filled in. */
  lemma HaltKeepsTokens(json: string, buf: seq<Token>, st: State)
    requires st.Sane() && !AtEnd(json, st.pos) && Clean(buf)
    ensures var step := FillStep(json, buf, st);
      step.Halt? ==>
        || step.st.toks == st.toks
        || (exists k :: k !in {String, Primitive} && step.st.toks == st.toks + [Token(k, -1, -1, 0)])
  {
    hide LastOpen, LastOpenContainer, ScanString, ScanPrimitive;
    assert |st.toks| < |buf| ==> buf[|st.toks|].kind !in {String, Primitive};
  }

  /** From clean memory the tokens are legible whatever the input, even where the second pass
      fails. */
  lemma CleanMemoryIsLegible(json: string, buf: seq<Token>)
    requires Clean(buf)
    ensures AllLegible(json, Parsed(json, buf))
  {
    hide FillRun;
    CleanRunIsLegible(json, buf, INITIAL);
  }

  /** `get_result_value`; `previous` is what the out token was. The source demands of its
      memory that the tokens `jsoneq` looks at are legible, no more. */
  method GetResultValue(json: string, key: string, memory: bool, garbage: nat -> Token, previous: Token)
    returns (r: int, out: Token)
    requires memory && Count(json).code > 0 ==> AllLegible(json, Parsed(json, Memory(garbage, Count(json).code)))
    ensures !memory || Count(json).code <= 0 ==> r == -1 && out == previous
    ensures memory && Count(json).code > 0 ==>
      var toks := Parsed(json, Memory(garbage, Count(json).code));
      && toks != []
      && (if toks[0].kind == Object && Succeeded(json, toks) && ValueToken(json, toks, key).Some?
          then r == 0 && out == ValueToken(json, toks, key).value
          else r == -1 && out == previous)
  {
    hide Count, Parsed;
    out := previous;
    var n, tokens := ParseJson(json, memory, garbage);
    if n < 0 { return -1, out; }
    ghost var toks := tokens[..];
    if tokens[0].kind != Object { return -1, out; }
    var success := CheckSuccess(json, tokens, n);
    if success == -1 { return -1, out; }
    var i := 1;
    while i < n
      invariant 1 <= i <= n
      invariant First(json, toks, key, i) == First(json, toks, key, 1)
                || (First(json, toks, key, 1) == n - 1 && i == n)
    {
      if JsonEq(json, tokens[i], key) {
        if i < n - 1 {
          return 0, tokens[i + 1];
        }
      }
      i := i + 1;
    }
    return -1, out;
  }

  // ------------------------------------------------------------ copying a value

  function Octets(s: string): (b: seq<Base64.Octet>)
    requires forall i :: 0 <= i < |s| ==> 0 < s[i] as int < 256
    ensures |b| == |s| && forall i :: 0 <= i < |s| ==> b[i] == s[i] as int
  {
    if s == "" then [] else [s[0] as int] + Octets(s[1..])
  }

  /** `json_copy_value`: the string and its NUL when both fit, and nothing else changes. */
  method JsonCopyValue(dest: array<Base64.Octet>, size: nat, json: string, t: Token) returns (r: int)
    requires size <= dest.Length && Legible(json, t)
    requires forall i :: 0 <= i < |json| ==> 0 < json[i] as int < 256
    modifies dest
    ensures r == if t.kind != String then -1 else if t.end - t.start + 1 > size then -2 else 0
    ensures r != 0 ==> dest[..] == old(dest[..])
    ensures r == 0 ==>
      var n := t.end - t.start;
      dest[..] == Octets(json[t.start..t.end]) + [0] + old(dest[n + 1..])
  {
    if t.kind != String { return -1; }
    var length := t.end - t.start + 1;
    if length > size { return -2; }
    var rest := Octets(json[t.start..]);
    ghost var was := dest[..];
    var copied := Strings.Strlcpy(dest, rest, length);
    ghost var s := Octets(json[t.start..t.end]);
    assert rest[..length - 1] == s;
    CopiedIs(dest[..], was, rest, length);
    return 0;
  }

  lemma CopiedIs(now: seq<Base64.Octet>, was: seq<Base64.Octet>, src: seq<Base64.Octet>, length: nat)
    requires 0 < length <= |was| == |now| && length - 1 <= |src|
    requires Strings.Wrote(now, was, 0, src, length)
    ensures now == src[..length - 1] + [0] + was[length..]
  {
    assert now == now[..length - 1] + [now[length - 1]] + now[length..];
  }
}
