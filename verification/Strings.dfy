/** C strings in arrays of bytes, and the copies of lib/strlcpy.c and lib/strlcat.c. A source
    string is the sequence of its bytes before the NUL. */
module Strings {
  import opened Base64

  predicate NulFree(s: seq<Octet>) { 0 !in s }

  /** What the pointer into a source string reads. */
  function CharAt(s: seq<Octet>, i: nat): Octet
    requires i <= |s|
  {
    if i < |s| then s[i] else 0
  }

  /** `strnlen`: the position of the first NUL, or the whole length. */
  function Length(a: seq<Octet>): (n: nat)
    ensures n <= |a|
    ensures forall i :: 0 <= i < n ==> a[i] != 0
    ensures n < |a| ==> a[n] == 0
  {
    if a == [] || a[0] == 0 then 0 else 1 + Length(a[1..])
  }

  /** The string a buffer holds. */
  function Text(a: seq<Octet>): seq<Octet> { a[..Length(a)] }

  lemma LengthIs(a: seq<Octet>, n: nat)
    requires n <= |a| && (forall i :: 0 <= i < n ==> a[i] != 0) && (n < |a| ==> a[n] == 0)
    ensures Length(a) == n
  {
    var m := Length(a);
    assert m < |a| ==> a[m] == 0;
  }

  /** As much of `s` as fits behind `at` into the first `size` bytes, with its NUL. */
  predicate Wrote(now: seq<Octet>, was: seq<Octet>, at: nat, s: seq<Octet>, size: nat)
    requires at < size <= |was| == |now|
  {
    var n := if |s| < size - at then |s| else size - at - 1;
    && now[..at] == was[..at] && now[at..at + n] == s[..n]
    && now[at + n] == 0 && now[at + n + 1..] == was[at + n + 1..]
  }

  /** `strlcpy`. */
  method Strlcpy(dst: array<Octet>, src: seq<Octet>, dsize: nat) returns (r: nat)
    requires NulFree(src) && dsize <= dst.Length
    modifies dst
    ensures r == |src|
    ensures dsize == 0 ==> dst[..] == old(dst[..])
    ensures dsize > 0 ==> Wrote(dst[..], old(dst[..]), 0, src, dsize)
  {
    ghost var was := dst[..];
    var nleft := dsize;
    var s, d := 0, 0;
    var done := false;
    if nleft != 0 {
      nleft := nleft - 1;
      while nleft != 0
        invariant s == d <= |src| && d + nleft + 1 == dsize
        invariant dst[..d] == src[..d] && forall k :: d <= k < dst.Length ==> dst[k] == was[k]
        decreases nleft
      {
        var c := CharAt(src, s);
        dst[d] := c;
        d, s := d + 1, s + 1;
        if c == 0 {
          done := true;
          break;
        }
        assert dst[..d] == src[..d];
        nleft := nleft - 1;
      }
      assert done ==> s == |src| + 1 == d && dst[..|src|] == src && dst[|src|] == 0;
    }
    if nleft == 0 {
      if dsize != 0 {
        dst[d] := 0;
      }
      while CharAt(src, s) != 0
        invariant s <= |src|
        decreases |src| - s
      {
        s := s + 1;
      }
      s := s + 1;
    }
    r := s - 1;
  }

  /** `strlcat`. */
  method Strlcat(dst: array<Octet>, src: seq<Octet>, dsize: nat) returns (r: nat)
    requires NulFree(src) && dsize <= dst.Length
    modifies dst
    ensures var dlen := Length(old(dst[..dsize]));
      && r == dlen + |src|
      && (dlen == dsize ==> dst[..] == old(dst[..]))
      && (dlen < dsize ==> Wrote(dst[..], old(dst[..]), dlen, src, dsize))
  {
    var dlen := FindEnd(dst, dsize);
    if dsize - dlen == 0 {
      return dlen + |src|;
    }
    CopyTail(dst, src, dlen, dsize);
    return dlen + |src|;
  }

  /** The first loop of `strlcat`, which does not go past the end. */
  method FindEnd(dst: array<Octet>, dsize: nat) returns (d: nat)
    requires dsize <= dst.Length
    ensures d == Length(dst[..dsize])
  {
    var n := dsize;
    d := 0;
    while n != 0 && dst[d] != 0
      invariant n >= 0 && d + n == dsize
      invariant forall i :: 0 <= i < d ==> dst[i] != 0
    {
      n := n - 1;
      d := d + 1;
    }
    LengthIs(dst[..dsize], d);
  }

  /** The second loop, which copies what fits and walks to the end of `src` all the same. */
  method CopyTail(dst: array<Octet>, src: seq<Octet>, dlen: nat, dsize: nat)
    requires NulFree(src) && dlen < dsize <= dst.Length
    modifies dst
    ensures Wrote(dst[..], old(dst[..]), dlen, src, dsize)
  {
    ghost var was := dst[..];
    var n := dsize - dlen - 1;
    var s, d := 0, dlen;
    while CharAt(src, s) != 0
      invariant s <= |src| && n == dsize - 1 - d >= 0 && d == (if s < dsize - dlen then dlen + s else dsize - 1)
      invariant forall k :: 0 <= k < d - dlen ==> dst[dlen + k] == src[k]
      invariant forall k :: 0 <= k < dlen || d <= k < dst.Length ==> dst[k] == was[k]
      decreases |src| - s
    {
      if n != 0 {
        dst[d] := src[s];
        d := d + 1;
        n := n - 1;
      }
      s := s + 1;
    }
    dst[d] := 0;
    ghost var m := if |src| < dsize - dlen then |src| else dsize - dlen - 1;
    assert d == dlen + m;
    assert dst[dlen..dlen + m] == src[..m];
  }
}
