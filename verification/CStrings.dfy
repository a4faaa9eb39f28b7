/** Strings that live NUL-terminated in arrays of characters. */
module CStrings {

  predicate NulFree(s: string) { '\0' !in s }

  /** The buffer holds the string `s`. */
  predicate Holds(buf: seq<char>, s: string) {
    |s| < |buf| && buf[..|s|] == s && buf[|s|] == '\0' && NulFree(s)
  }

  /** `strlen` of the tail from `from` on. */
  method StringLength(buf: array<char>, from: nat, ghost s: string) returns (n: nat)
    requires Holds(buf[..], s) && from <= |s|
    ensures n == |s| - from
  {
    n := 0;
    while buf[from + n] != '\0'
      invariant from + n <= |s|
      decreases |s| - n
    {
      n := n + 1;
    }
    InsideNotNul(buf[..], s, from + n);
  }

  lemma InsideNotNul(buf: seq<char>, s: string, k: nat)
    requires Holds(buf, s)
    ensures k < |s| ==> buf[k] == s[k] != '\0'
  {
    assert k < |s| ==> s[k] in s && buf[..|s|][k] == s[k];
  }
}
