/** src/base64.c: the encoder and the decoder with their size queries. */
module Base64 {

  // Bytes are the numbers 0 to 255 and `uint32_t` is arithmetic modulo 2^32; the two tables are
  // written as case distinctions.

  import opened Division
  import opened Letters

  type Octet = x: int | 0 <= x < 256

  const BUFFER_TOO_SMALL: int := -0x2A
  const INVALID_CHARACTER: int := -0x2C

  const PAD: Octet := 61
  const CR: Octet := 13
  const LF: Octet := 10

  // ------------------------------------------------------------ the tables

  /** `base64_enc_map`. */
  function EncMap(i: nat): Octet
    requires i < 64
  {
    if i < 26 then 65 + i
    else if i < 52 then 97 + (i - 26)
    else if i < 62 then 48 + (i - 52)
    else if i == 62 then 43
    else 47
  }

  /** `base64_dec_map`, for bytes below 128: 64 stands for the padding, 127 for no character. */
  function DecMap(c: Octet): nat
    requires c < 128
  {
    if 65 <= c <= 90 then c - 65
    else if 97 <= c <= 122 then c - 97 + 26
    else if 48 <= c <= 57 then c - 48 + 52
    else if c == 43 then 62
    else if c == 47 then 63
    else if c == PAD then 64
    else 127
  }

  predicate InAlphabet(c: Octet) { c < 128 && DecMap(c) < 64 }

  lemma TablesAgree(i: nat)
    requires i < 64
    ensures EncMap(i) < 128 && EncMap(i) != PAD && DecMap(EncMap(i)) == i
  {
  }

  // ------------------------------------------------------------ encoding

  /** The characters for one, two and three bytes. */
  function Group1(a: Octet): seq<Octet> { [EncMap(a / 4), EncMap((a % 4) * 16), PAD, PAD] }

  function Group2(a: Octet, b: Octet): seq<Octet> {
    [EncMap(a / 4), EncMap((a % 4) * 16 + b / 16), EncMap((b % 16) * 4), PAD]
  }

  function Group3(a: Octet, b: Octet, c: Octet): seq<Octet> {
    [EncMap(a / 4), EncMap((a % 4) * 16 + b / 16), EncMap((b % 16) * 4 + c / 64), EncMap(c % 64)]
  }

  function Encoded(src: seq<Octet>): (e: seq<Octet>)
    ensures |e| == 4 * ((|src| + 2) / 3)
    decreases |src|
  {
    if |src| == 0 then []
    else if |src| == 1 then Group1(src[0])
    else if |src| == 2 then Group2(src[0], src[1])
    else Group3(src[0], src[1], src[2]) + Encoded(src[3..])
  }

  /** The size the encoder asks for. */
  function EncodedSize(n: nat): nat { 4 * ((n + 2) / 3) + 1 }

  /** What the bytes before `i` of the input, a multiple of three of them, have become. */
  lemma {:induction false} EncodedPrefix(src: seq<Octet>, i: nat)
    requires i <= |src| && i % 3 == 0
    ensures Encoded(src) == Encoded(src[..i]) + Encoded(src[i..])
    decreases i
  {
    if i == 0 {
      assert src[0..] == src;
    } else {
      EncodedPrefix(src[3..], i - 3);
      assert src[3..][..i - 3] == src[..i][3..] && src[3..][i - 3..] == src[i..];
      assert src[..i][0] == src[0] && src[..i][1] == src[1] && src[..i][2] == src[2];
    }
  }

  /** `base64_encode`. With no input nothing is touched, `*dlen` included. */
  method Encode(dst: array?<Octet>, dlen: nat, src: seq<Octet>) returns (rc: int, dlen': nat)
    requires src != [] && dlen >= EncodedSize(|src|) ==> dst != null && dlen <= dst.Length
    modifies dst
    ensures src == [] ==> rc == 0 && dlen' == dlen
    ensures src != [] && dlen < EncodedSize(|src|) ==> rc == BUFFER_TOO_SMALL && dlen' == EncodedSize(|src|)
    ensures src == [] || dlen < EncodedSize(|src|) ==> dst != null ==> dst[..] == old(dst[..])
    ensures src != [] && dlen >= EncodedSize(|src|) ==>
      && rc == 0 && dlen' == |Encoded(src)| < dst.Length
      && dst[..] == Encoded(src) + [0] + old(dst[..])[dlen' + 1..]
  {
    if |src| == 0 {
      return 0, dlen;
    }
    var n := CharactersFor(|src|);
    if dlen < n + 1 {
      return BUFFER_TOO_SMALL, n + 1;
    }
    ghost var was := dst[..];
    dlen' := EncodeGroups(dst, src);
    ghost var now := dst[..];
    assert now[..dlen'] == Encoded(src) && now[dlen' + 1..] == was[dlen' + 1..];
    dst[dlen'] := 0;
    assert dst[..] == now[..dlen'] + [0] + now[dlen' + 1..];
    rc := 0;
  }

  /** The size computation at the head of `base64_encode`. */
  method CharactersFor(slen: nat) returns (n: nat)
    ensures n + 1 == EncodedSize(slen)
  {
    n := (slen * 8) / 6;
    var over := slen * 8 - n * 6;
    if over == 2 {
      n := n + 3;
    } else if over == 4 {
      n := n + 2;
    }
  }

  /** The loop of `base64_encode` and the incomplete group behind it. */
  method EncodeGroups(dst: array<Octet>, src: seq<Octet>) returns (p: nat)
    requires EncodedSize(|src|) <= dst.Length
    modifies dst
    ensures p == |Encoded(src)| && dst[..p] == Encoded(src) && dst[p..] == old(dst[..])[p..]
  {
    hide Encoded, Group3;
    ghost var was := dst[..];
    var n := (|src| / 3) * 3;
    var i := 0;
    p := 0;
    EncodedNothing(src);
    while i < n
      invariant 0 <= i <= n && i % 3 == 0 && p == |Encoded(src[..i])| && 3 * p == 4 * i
      invariant dst[..p] == Encoded(src[..i]) && dst[p..] == was[p..]
    {
      EncodeThree(dst, p, src, i);
      EncodedThree(src, i);
      assert dst[..p + 4] == dst[..p] + dst[p..p + 4];
      i := i + 3;
      p := p + 4;
    }
    EncodedPrefix(src, i);
    if i < |src| {
      EncodeRest(dst, p, src, i);
      assert dst[..p + 4] == dst[..p] + dst[p..p + 4];
      p := p + 4;
    } else {
      EncodedNothing(src);
    }
  }

  lemma EncodedNothing(src: seq<Octet>)
    ensures Encoded(src[..0]) == [] && Encoded(src[|src|..]) == []
  {
  }

  lemma EncodedThree(src: seq<Octet>, i: nat)
    requires i + 3 <= |src| && i % 3 == 0
    ensures Encoded(src[..i + 3]) == Encoded(src[..i]) + Group3(src[i], src[i + 1], src[i + 2])
  {
    var s := src[..i + 3];
    EncodedPrefix(s, i);
    assert s[..i] == src[..i] && s[i..] == [src[i], src[i + 1], src[i + 2]];
    assert Encoded(s[i..][3..]) == [];
  }

  /** The masks of the source cut nothing off. */
  lemma Group3Is(a: Octet, b: Octet, c: Octet)
    ensures Group3(a, b, c) ==
      [EncMap((a / 4) % 64), EncMap(((a % 4) * 16 + b / 16) % 64), EncMap(((b % 16) * 4 + c / 64) % 64), EncMap(c % 64)]
  {
    hide EncMap;
  }

  /** The loop body: three bytes, four characters. */
  method EncodeThree(dst: array<Octet>, p: nat, src: seq<Octet>, i: nat)
    requires i + 3 <= |src| && p + 4 <= dst.Length
    modifies dst
    ensures dst[..p] == old(dst[..p]) && dst[p + 4..] == old(dst[p + 4..])
    ensures dst[p..p + 4] == Group3(src[i], src[i + 1], src[i + 2])
  {
    hide EncMap, Group3;
    var c1, c2, c3 := src[i], src[i + 1], src[i + 2];
    Group3Is(c1, c2, c3);
    dst[p] := EncMap((c1 / 4) % 64);
    dst[p + 1] := EncMap(((c1 % 4) * 16 + c2 / 16) % 64);
    dst[p + 2] := EncMap(((c2 % 16) * 4 + c3 / 64) % 64);
    dst[p + 3] := EncMap(c3 % 64);
  }

  lemma RestIs(src: seq<Octet>, i: nat)
    requires i < |src| <= i + 2
    ensures var c1 := src[i];
      var c2 := if i + 1 < |src| then src[i + 1] else 0;
      Encoded(src[i..]) ==
      [EncMap((c1 / 4) % 64), EncMap(((c1 % 4) * 16 + c2 / 16) % 64),
       if i + 1 < |src| then EncMap(((c2 % 16) * 4) % 64) else PAD, PAD]
  {
    hide EncMap;
    var rest := src[i..];
    assert rest[0] == src[i] && (|rest| == 2 ==> rest[1] == src[i + 1]);
  }

  /** The last one or two bytes. */
  method EncodeRest(dst: array<Octet>, p: nat, src: seq<Octet>, i: nat)
    requires i < |src| <= i + 2 && p + 4 <= dst.Length
    modifies dst
    ensures dst[..p] == old(dst[..p]) && dst[p + 4..] == old(dst[p + 4..])
    ensures dst[p..p + 4] == Encoded(src[i..])
  {
    hide EncMap, Encoded;
    RestIs(src, i);
    var c1 := src[i];
    var c2 := if i + 1 < |src| then src[i + 1] else 0;
    dst[p] := EncMap((c1 / 4) % 64);
    dst[p + 1] := EncMap(((c1 % 4) * 16 + c2 / 16) % 64);
    if i + 1 < |src| {
      dst[p + 2] := EncMap(((c2 % 16) * 4) % 64);
    } else {
      dst[p + 2] := PAD;
    }
    dst[p + 3] := PAD;
  }

  // ------------------------------------------------------------ what the decoder accepts

  /** The input without its line breaks: every LF, and every CR right before a LF. */
  function Strip(src: seq<Octet>, i: nat): seq<Octet>
    decreases |src| - i
  {
    if i >= |src| then []
    else if LineBreak(src, i) then Strip(src, i + 1)
    else [src[i]] + Strip(src, i + 1)
  }

  predicate LineBreak(src: seq<Octet>, i: nat)
    requires i < |src|
  {
    (i + 1 < |src| && src[i] == CR && src[i + 1] == LF) || src[i] == LF
  }

  /** Characters of the alphabet, and then at most two signs of padding. */
  ghost predicate WellFormed(s: seq<Octet>) {
    exists k :: 0 <= k <= |s| && SplitAt(s, k)
  }

  predicate SplitAt(s: seq<Octet>, k: nat)
    requires k <= |s|
  {
    && |s| - k <= 2
    && (forall i :: 0 <= i < k ==> InAlphabet(s[i]))
    && (forall i :: k <= i < |s| ==> s[i] == PAD)
  }

  /** The first loop of `base64_decode` from position `i` on, with `j` signs of padding met:
      how many characters it counts, or -1 for an invalid one. */
  function Scan(src: seq<Octet>, i: nat, j: nat): (n: int)
    ensures n >= -1
    decreases |src| - i
  {
    if i >= |src| then 0
    else if LineBreak(src, i) then Scan(src, i + 1, j)
    else
      var c := src[i];
      var j' := if c == PAD then j + 1 else j;
      if c == PAD && j' > 2 then -1
      else if c > 127 || DecMap(c) == 127 then -1
      else if DecMap(c) < 64 && j' != 0 then -1
      else
        var n := Scan(src, i + 1, j');
        if n < 0 then -1 else n + 1
  }

  /** What may follow `j` signs of padding. */
  ghost predicate WellFormedAfter(s: seq<Octet>, j: nat) {
    if j == 0 then WellFormed(s) else |s| + j <= 2 && forall i :: 0 <= i < |s| ==> s[i] == PAD
  }

  lemma {:induction false} ScanIff(src: seq<Octet>, i: nat, j: nat)
    requires j <= 2
    ensures var s := Strip(src, i);
      if WellFormedAfter(s, j) then Scan(src, i, j) == |s| else Scan(src, i, j) == -1
    decreases |src| - i
  {
    if i >= |src| {
      assert SplitAt([], 0);
    } else if LineBreak(src, i) {
      ScanIff(src, i + 1, j);
    } else {
      var c := src[i];
      var j' := if c == PAD then j + 1 else j;
      if j' <= 2 { ScanIff(src, i + 1, j'); }
      AddOne(c, Strip(src, i + 1), j);
    }
  }

  /** One more character in front. */
  lemma AddOne(c: Octet, s: seq<Octet>, j: nat)
    requires j <= 2
    ensures WellFormedAfter([c] + s, j) <==>
      if c == PAD then j < 2 && WellFormedAfter(s, j + 1) else j == 0 && InAlphabet(c) && WellFormed(s)
  {
    var t := [c] + s;
    assert t[0] == c && t[1..] == s;
    if j == 0 {
      if WellFormed(t) {
        var k :| 0 <= k <= |t| && SplitAt(t, k);
        if k > 0 {
          assert InAlphabet(t[0]);
          assert SplitAt(s, k - 1);
        } else {
          assert forall i :: 0 <= i < |s| ==> s[i] == t[i + 1];
        }
      }
      if c == PAD && WellFormedAfter(s, 1) { assert SplitAt(t, 0); }
      if InAlphabet(c) && WellFormed(s) {
        var k :| 0 <= k <= |s| && SplitAt(s, k);
        assert SplitAt(t, k + 1);
      }
    } else {
      assert forall i :: 0 <= i < |s| ==> s[i] == t[i + 1];
    }
  }

  /** The decoder accepts exactly: characters of the alphabet, then at most two signs of
      padding, with line breaks anywhere. It counts what is not a line break. */
  lemma AcceptsExactly(src: seq<Octet>)
    ensures Scan(src, 0, 0) >= 0 <==> WellFormed(Strip(src, 0))
    ensures Scan(src, 0, 0) >= 0 ==> Scan(src, 0, 0) == |Strip(src, 0)|
  {
    ScanIff(src, 0, 0);
  }

  // ------------------------------------------------------------ what it writes

  const WORD: nat := 0x1_0000_0000

  /** The second loop over the characters `s`: `x` is the accumulator, `n` counts the group and
      `j` the bytes the group is good for. */
  function Emit(s: seq<Octet>, x: nat, n: nat, j: int): seq<Octet>
    requires forall i :: 0 <= i < |s| ==> s[i] < 128
    decreases |s|
  {
    if s == [] then []
    else
      var j' := if s[0] == PAD then j - 1 else j;
      var x' := Shifted(x, s[0]);
      if n == 3 then Bytes(x', j') + Emit(s[1..], x', 0, j') else Emit(s[1..], x', n + 1, j')
  }

  /** `x = (x << 6) | (base64_dec_map[c] & 0x3F)` in 32 bits. */
  function Shifted(x: nat, c: Octet): nat
    requires c < 128
  {
    (x * 64 + DecMap(c) % 64) % WORD
  }

  function Bytes(x: nat, j: int): seq<Octet> {
    (if j > 0 then [(x / 0x1_0000) % 256] else []) +
    (if j > 1 then [(x / 0x100) % 256] else []) +
    (if j > 2 then [x % 256] else [])
  }

  lemma {:induction false} EmitLength(s: seq<Octet>, x: nat, n: nat, j: int)
    requires n <= 3 && forall i :: 0 <= i < |s| ==> s[i] < 128
    ensures |Emit(s, x, n, j)| <= 3 * ((n + |s|) / 4)
    decreases |s|
  {
    if s != [] {
      var j' := if s[0] == PAD then j - 1 else j;
      EmitLength(s[1..], Shifted(x, s[0]), if n == 3 then 0 else n + 1, j');
    }
  }

  function Decoded(s: seq<Octet>): seq<Octet>
    requires forall i :: 0 <= i < |s| ==> s[i] < 128
  {
    Emit(s, 0, 0, 3)
  }

  /** The size the decoder asks for. */
  function DecodedSize(n: nat): nat { (n * 6 + 7) / 8 }

  /** On every input, incomplete last groups included, it writes no more than it asked for. */
  lemma WritesWithinDemand(s: seq<Octet>)
    requires forall i :: 0 <= i < |s| ==> s[i] < 128
    ensures |Decoded(s)| <= DecodedSize(|s|)
  {
    EmitLength(s, 0, 0, 3);
  }

  predicate Ascii(s: seq<Octet>) { forall i :: 0 <= i < |s| ==> s[i] < 128 }

  lemma AcceptedIsAscii(s: seq<Octet>)
    requires WellFormed(s)
    ensures Ascii(s) && CR !in s && LF !in s
  {
  }

  // ------------------------------------------------------------ the decoder itself

  /** The second loop skips every CR and LF; behind the first loop that is the same. */
  function Drop(src: seq<Octet>, i: nat): seq<Octet>
    decreases |src| - i
  {
    if i >= |src| then []
    else if src[i] == CR || src[i] == LF then Drop(src, i + 1)
    else [src[i]] + Drop(src, i + 1)
  }

  lemma {:induction false} DropIsStrip(src: seq<Octet>, i: nat)
    requires CR !in Strip(src, i)
    ensures Drop(src, i) == Strip(src, i)
    decreases |src| - i
  {
    if i < |src| {
      if !LineBreak(src, i) { assert src[i] == Strip(src, i)[0]; }
      forall c | c in Strip(src, i + 1) ensures c in Strip(src, i) {}
      DropIsStrip(src, i + 1);
    }
  }

  lemma DropOne(src: seq<Octet>, k: nat)
    requires k < |src| && src[k] != CR && src[k] != LF && Ascii(Drop(src, k))
    ensures Drop(src, k)[0] == src[k] && Drop(src, k)[1..] == Drop(src, k + 1) && Ascii(Drop(src, k + 1))
  {
    assert Drop(src, k)[1..] == Drop(src, k + 1);
  }

  /** The first loop. */
  method CheckInput(src: seq<Octet>) returns (valid: bool, n: nat)
    ensures valid == (Scan(src, 0, 0) >= 0) && (valid ==> n == Scan(src, 0, 0))
  {
    valid := true;
    n := 0;
    var i, j := 0, 0;
    while i < |src|
      invariant 0 <= i <= |src| && 0 <= j <= 2
      invariant Scan(src, 0, 0) == (if Scan(src, i, j) < 0 then -1 else n + Scan(src, i, j))
    {
      if |src| - i >= 2 && src[i] == CR && src[i + 1] == LF {
        i := i + 1;
        continue;
      }
      if src[i] == LF {
        i := i + 1;
        continue;
      }
      if src[i] == PAD {
        j := j + 1;
        if j > 2 {
          return false, 0;
        }
      }
      if src[i] > 127 || DecMap(src[i]) == 127 {
        return false, 0;
      }
      if DecMap(src[i]) < 64 && j != 0 {
        return false, 0;
      }
      n := n + 1;
      i := i + 1;
    }
  }

  /** The second loop; `limit` is the size demanded of `dst`. */
  method DecodeInto(dst: array<Octet>, src: seq<Octet>) returns (p: nat)
    requires Ascii(Drop(src, 0)) && |Emit(Drop(src, 0), 0, 0, 3)| <= dst.Length
    modifies dst
    ensures p == |Decoded(Drop(src, 0))| && dst[..p] == Decoded(Drop(src, 0)) && dst[p..] == old(dst[..])[p..]
  {
    ghost var out := Decoded(Drop(src, 0));
    ghost var was := dst[..];
    var k: nat, x: nat, n: nat, j: int := 0, 0, 0, 3;
    p := 0;
    while k < |src|
      invariant 0 <= k <= |src| && n <= 3 && Ascii(Drop(src, k)) && p <= |out|
      invariant Emit(Drop(src, k), x, n, j) == out[p..]
      invariant dst[..p] == out[..p] && dst[p..] == was[p..]
    {
      var c := src[k];
      if c == CR || c == LF {
        k := k + 1;
        continue;
      }
      DropOne(src, k);
      j := j - (if DecMap(c) == 64 then 1 else 0);
      x := (x * 64 + DecMap(c) % 64) % WORD;
      n := n + 1;
      if n == 4 {
        n := 0;
        p := PutBytes(dst, p, x, j, out);
      }
      k := k + 1;
    }
  }

  /** The bytes of a full group. */
  method PutBytes(dst: array<Octet>, p: nat, x: nat, j: int, ghost out: seq<Octet>) returns (q: nat)
    requires p <= |out| <= dst.Length && dst[..p] == out[..p] && Bytes(x, j) <= out[p..]
    modifies dst
    ensures q == p + |Bytes(x, j)| <= |out|
    ensures dst[..q] == out[..q] && dst[q..] == old(dst[..])[q..]
  {
    ghost var was := dst[..];
    ghost var bytes := Bytes(x, j);
    assert forall i :: 0 <= i < |bytes| ==> out[p + i] == bytes[i];
    q := p;
    if j > 0 {
      dst[q] := (x / 0x1_0000) % 256;
      q := q + 1;
    }
    if j > 1 {
      dst[q] := (x / 0x100) % 256;
      q := q + 1;
    }
    if j > 2 {
      dst[q] := x % 256;
      q := q + 1;
    }
    assert dst[..p] == was[..p] && dst[p..q] == bytes && dst[q..] == was[q..];
    assert dst[..q] == dst[..p] + dst[p..q] && out[..q] == out[..p] + bytes;
  }

  /** `base64_decode`. */
  method Decode(dst: array?<Octet>, dlen: nat, src: seq<Octet>) returns (rc: int, dlen': nat)
    requires dst != null ==> dlen <= dst.Length
    modifies dst
    ensures var s := Strip(src, 0);
      if !WellFormed(s) then rc == INVALID_CHARACTER && dlen' == dlen
      else if s == [] then rc == 0 && dlen' == dlen
      else if dst == null || dlen < DecodedSize(|s|) then rc == BUFFER_TOO_SMALL && dlen' == DecodedSize(|s|)
      else Ascii(s) && rc == 0 && dlen' == |Decoded(s)| <= DecodedSize(|s|) && dst[..dlen'] == Decoded(s)
    ensures dst != null ==> rc != 0 || Strip(src, 0) == [] ==> dst[..] == old(dst[..])
    ensures dst != null && rc == 0 && Strip(src, 0) != [] ==> dst[dlen'..] == old(dst[..])[dlen'..]
  {
    AcceptsExactly(src);
    var valid, n := CheckInput(src);
    if !valid {
      return INVALID_CHARACTER, dlen;
    }
    if n == 0 {
      return 0, dlen;
    }
    n := (n * 6 + 7) / 8;
    if dst == null || dlen < n {
      return BUFFER_TOO_SMALL, n;
    }
    AcceptedIsAscii(Strip(src, 0));
    DropIsStrip(src, 0);
    WritesWithinDemand(Strip(src, 0));
    dlen' := DecodeInto(dst, src);
    rc := 0;
  }

  // ------------------------------------------------------------ decoding undoes encoding

  /** Four characters move the accumulator on by a whole group, whatever it held before. */
  lemma GroupValue(x: nat, v0: nat, v1: nat, v2: nat, v3: nat)
    requires v0 < 64 && v1 < 64 && v2 < 64 && v3 < 64
    ensures var x1 := (x * 64 + v0) % WORD;
      var x2 := (x1 * 64 + v1) % WORD;
      var x3 := (x2 * 64 + v2) % WORD;
      var x4 := (x3 * 64 + v3) % WORD;
      x4 % 0x100_0000 == Sixes(v0, v1, v2, v3)
  {
    var x1 := (x * 64 + v0) % WORD;
    var x2 := (x1 * 64 + v1) % WORD;
    var x3 := (x2 * 64 + v2) % WORD;
    var x4 := (x3 * 64 + v3) % WORD;
    var q1, q2 := (x * 64 + v0) / WORD, (x1 * 64 + v1) / WORD;
    var q3, q4 := (x2 * 64 + v2) / WORD, (x3 * 64 + v3) / WORD;
    var v := Sixes(v0, v1, v2, v3);
    assert x1 == x * 64 + v0 - WORD * q1 && x2 == x1 * 64 + v1 - WORD * q2;
    assert x3 == x2 * 64 + v2 - WORD * q3 && x4 == x3 * 64 + v3 - WORD * q4;
    ShiftedFour(x, x1, x2, x3, x4, q1, q2, q3, q4, v0, v1, v2, v3);
    Remainder(x4, v, x - 256 * (q4 + 64 * q3 + 64 * 64 * q2 + 64 * 64 * 64 * q1));
  }

  lemma ShiftedFour(x: nat, x1: nat, x2: nat, x3: nat, x4: nat, q1: int, q2: int, q3: int, q4: int,
                    v0: nat, v1: nat, v2: nat, v3: nat)
    requires x1 == x * 64 + v0 - WORD * q1 && x2 == x1 * 64 + v1 - WORD * q2
    requires x3 == x2 * 64 + v2 - WORD * q3 && x4 == x3 * 64 + v3 - WORD * q4
    ensures x4 == v0 * 0x4_0000 + v1 * 0x1000 + v2 * 64 + v3
                  + 0x100_0000 * (x - 256 * (q4 + 64 * q3 + 64 * 64 * q2 + 64 * 64 * 64 * q1))
  {
  }

  lemma Remainder(x: nat, v: nat, m: int)
    requires x == v + 0x100_0000 * m && v < 0x100_0000
    ensures x % 0x100_0000 == v
  {
  }

  /** Bytes of a number depend on it modulo 2^24 only. */
  lemma BytesCut(x: nat, j: int)
    ensures Bytes(x, j) == Bytes(x % 0x100_0000, j)
  {
    var q, r := x / 0x100_0000, x % 0x100_0000;
    assert x == r + 0x100_0000 * q;
    ByteShift(r, 0x1_0000, q);
    ByteShift(r, 0x100, 256 * q);
    ByteShift(r, 1, 65536 * q);
  }

  /** The 24 bits of three bytes, and of four values of six bits. */
  function Bits(a: nat, b: nat, c: nat): nat { a * 0x1_0000 + b * 0x100 + c }
  function Sixes(v0: nat, v1: nat, v2: nat, v3: nat): nat { v0 * 0x4_0000 + v1 * 0x1000 + v2 * 64 + v3 }

  lemma SixesAreBits(a: Octet, b: Octet, c: Octet)
    ensures Sixes(a / 4, (a % 4) * 16 + b / 16, (b % 16) * 4 + c / 64, c % 64) == Bits(a, b, c)
  {
    assert a == 4 * (a / 4) + a % 4 && b == 16 * (b / 16) + b % 16 && c == 64 * (c / 64) + c % 64;
  }

  /** Three bytes come back from their 24 bits. */
  lemma BytesBack(a: Octet, b: Octet, c: Octet)
    ensures var v := Bits(a, b, c);
      Bytes(v, 3) == [a, b, c] && Bytes(v, 2) == [a, b] && Bytes(v, 1) == [a]
  {
    var v := Bits(a, b, c);
    assert v / 0x1_0000 == a;
    assert v / 0x100 == 256 * a + b;
  }

  /** A group of four characters, with `j` bytes good at its end. */
  lemma EmitGroup(g: seq<Octet>, rest: seq<Octet>, x: nat, v: nat, j: int)
    requires |g| == 4 && Ascii(g) && Ascii(rest)
    requires g[0] != PAD && g[1] != PAD && (g[2] == PAD ==> g[3] == PAD)
    requires j == (if g[2] == PAD then 1 else if g[3] == PAD then 2 else 3)
    requires v == Sixes(DecMap(g[0]) % 64, DecMap(g[1]) % 64, DecMap(g[2]) % 64, DecMap(g[3]) % 64)
    ensures Ascii(g + rest)
    ensures exists x' :: Emit(g + rest, x, 0, 3) == Bytes(v, j) + Emit(rest, x', 0, j)
  {
    hide Bytes, Shifted, Sixes, DecMap, Emit;
    var x4 := ShiftedGroup(x, g);
    GroupIsItsValue(x, g);
    BytesCut(x4, j);
    EmitFour(g, rest, x, j);
  }

  /** The accumulator behind the four characters of a group. */
  function ShiftedGroup(x: nat, g: seq<Octet>): nat
    requires |g| == 4 && Ascii(g)
  {
    Shifted(Shifted(Shifted(Shifted(x, g[0]), g[1]), g[2]), g[3])
  }

  lemma GroupIsItsValue(x: nat, g: seq<Octet>)
    requires |g| == 4 && Ascii(g)
    ensures ShiftedGroup(x, g) % 0x100_0000 == Sixes(DecMap(g[0]) % 64, DecMap(g[1]) % 64, DecMap(g[2]) % 64, DecMap(g[3]) % 64)
  {
    hide DecMap, Sixes;
    GroupValue(x, DecMap(g[0]) % 64, DecMap(g[1]) % 64, DecMap(g[2]) % 64, DecMap(g[3]) % 64);
  }

  lemma EmitFour(g: seq<Octet>, rest: seq<Octet>, x: nat, j: int)
    requires |g| == 4 && Ascii(g) && Ascii(rest)
    requires g[0] != PAD && g[1] != PAD && (g[2] == PAD ==> g[3] == PAD)
    requires j == (if g[2] == PAD then 1 else if g[3] == PAD then 2 else 3)
    ensures Ascii(g + rest)
    ensures Emit(g + rest, x, 0, 3) == Bytes(ShiftedGroup(x, g), j) + Emit(rest, ShiftedGroup(x, g), 0, j)
  {
    hide Bytes, Shifted;
    var s := g + rest;
    var x1 := Shifted(x, g[0]);
    var x2 := Shifted(x1, g[1]);
    var x3 := Shifted(x2, g[2]);
    var j3 := if g[2] == PAD then 2 else 3;
    assert s[1..] == g[1..] + rest && s[1..][1..] == g[2..] + rest && s[1..][1..][1..] == g[3..] + rest;
    assert s[1..][1..][1..][1..] == rest;
    assert Emit(s, x, 0, 3) == Emit(s[1..], x1, 1, 3);
    assert Emit(s[1..], x1, 1, 3) == Emit(s[1..][1..], x2, 2, 3);
    assert Emit(s[1..][1..], x2, 2, 3) == Emit(s[1..][1..][1..], x3, 3, j3);
  }

  /** The group of characters a non-empty input begins with, and the bytes it stands for. */
  function FirstGroup(src: seq<Octet>): seq<Octet>
    requires src != []
  {
    if |src| == 1 then Group1(src[0]) else if |src| == 2 then Group2(src[0], src[1]) else Group3(src[0], src[1], src[2])
  }

  function FirstBits(src: seq<Octet>): nat
    requires src != []
  {
    Bits(src[0], if |src| > 1 then src[1] else 0, if |src| > 2 then src[2] else 0)
  }

  /** The values of the characters of a group are the pieces of its bytes. */
  lemma GroupHolds(src: seq<Octet>)
    requires src != []
    ensures var g := FirstGroup(src);
      && Ascii(g) && g[0] != PAD && g[1] != PAD && (g[2] == PAD ==> g[3] == PAD)
      && (if |src| > 2 then 3 else |src|) == (if g[2] == PAD then 1 else if g[3] == PAD then 2 else 3)
      && FirstBits(src) == Sixes(DecMap(g[0]) % 64, DecMap(g[1]) % 64, DecMap(g[2]) % 64, DecMap(g[3]) % 64)
  {
    hide Group1, Group2, Group3, DecMap, Sixes, Bits;
    Group1Holds(src[0]);
    if |src| > 1 { Group2Holds(src[0], src[1]); }
    if |src| > 2 { Group3Holds(src[0], src[1], src[2]); }
  }

  /** A character of the alphabet and its value. */
  lemma CharacterHolds(i: nat)
    requires i < 64
    ensures EncMap(i) < 128 && EncMap(i) != PAD && DecMap(EncMap(i)) % 64 == i
  {
    TablesAgree(i);
  }

  lemma Group1Holds(a: Octet)
    ensures var g := Group1(a);
      && Ascii(g) && g[0] != PAD && g[1] != PAD && g[2] == g[3] == PAD
      && Bits(a, 0, 0) == Sixes(DecMap(g[0]) % 64, DecMap(g[1]) % 64, DecMap(g[2]) % 64, DecMap(g[3]) % 64)
  {
    hide EncMap, Sixes, Bits;
    CharacterHolds(a / 4);
    CharacterHolds((a % 4) * 16);
    SixesAreBits(a, 0, 0);
  }

  lemma Group2Holds(a: Octet, b: Octet)
    ensures var g := Group2(a, b);
      && Ascii(g) && g[0] != PAD && g[1] != PAD && g[2] != PAD && g[3] == PAD
      && Bits(a, b, 0) == Sixes(DecMap(g[0]) % 64, DecMap(g[1]) % 64, DecMap(g[2]) % 64, DecMap(g[3]) % 64)
  {
    hide EncMap, Sixes, Bits;
    CharacterHolds(a / 4);
    CharacterHolds((a % 4) * 16 + b / 16);
    CharacterHolds((b % 16) * 4);
    SixesAreBits(a, b, 0);
  }

  lemma Group3Holds(a: Octet, b: Octet, c: Octet)
    ensures var g := Group3(a, b, c);
      && Ascii(g) && g[0] != PAD && g[1] != PAD && g[2] != PAD && g[3] != PAD
      && Bits(a, b, c) == Sixes(DecMap(g[0]) % 64, DecMap(g[1]) % 64, DecMap(g[2]) % 64, DecMap(g[3]) % 64)
  {
    hide EncMap, DecMap, Sixes, Bits;
    var i, j, k, l := a / 4, (a % 4) * 16 + b / 16, (b % 16) * 4 + c / 64, c % 64;
    CharacterHolds(i);
    CharacterHolds(j);
    CharacterHolds(k);
    CharacterHolds(l);
    SixesAreBits(a, b, c);
    assert Group3(a, b, c) == [EncMap(i), EncMap(j), EncMap(k), EncMap(l)];
  }

  /** Whatever the accumulator holds, the second loop turns an encoding back. */
  lemma {:induction false} EmitUndoesEncoded(src: seq<Octet>, x: nat)
    ensures Ascii(Encoded(src)) && Emit(Encoded(src), x, 0, 3) == src
    decreases |src|
  {
    if src != [] {
      hide Emit, Group1, Group2, Group3, Bits, Sixes, Bytes;
      var g := FirstGroup(src);
      var rest := if |src| > 2 then src[3..] else [];
      var j := if |src| > 2 then 3 else |src|;
      GroupHolds(src);
      EncodedNothing(rest);
      assert Encoded(src) == g + Encoded(rest);
      EmitUndoesEncoded(rest, 0);
      EmitGroup(g, Encoded(rest), x, FirstBits(src), j);
      var x' :| Emit(g + Encoded(rest), x, 0, 3) == Bytes(FirstBits(src), j) + Emit(Encoded(rest), x', 0, j);
      BytesBack(src[0], if |src| > 1 then src[1] else 0, if |src| > 2 then src[2] else 0);
      if j == 3 {
        EmitUndoesEncoded(rest, x');
      } else {
        EmitNothing(x', j);
      }
    }
  }

  lemma EmitNothing(x: nat, j: int)
    ensures Encoded([]) == [] && Emit([], x, 0, j) == []
  {
  }

  // ------------------------------------------------------------ the round trip

  /** An encoding is well formed and has no line breaks. */
  lemma {:induction false} EncodedIsWellFormed(src: seq<Octet>)
    ensures WellFormed(Encoded(src))
    decreases |src|
  {
    if src == [] {
      assert SplitAt([], 0);
    } else {
      hide Group1, Group2, Group3, SplitAt;
      var g := FirstGroup(src);
      var rest := if |src| > 2 then src[3..] else [];
      EncodedNothing(rest);
      assert Encoded(src) == g + Encoded(rest);
      GroupSplits(src);
      if |src| <= 2 {
        assert g + [] == g;
        assert SplitAt(Encoded(src), |src| + 1);
      } else {
        EncodedIsWellFormed(rest);
        var k :| 0 <= k <= |Encoded(rest)| && SplitAt(Encoded(rest), k);
        SplitFurther(g, Encoded(rest), k);
      }
    }
  }

  lemma SplitFurther(g: seq<Octet>, s: seq<Octet>, k: nat)
    requires SplitAt(g, |g|) && k <= |s| && SplitAt(s, k)
    ensures SplitAt(g + s, |g| + k)
  {
  }

  lemma GroupSplits(src: seq<Octet>)
    requires src != []
    ensures SplitAt(FirstGroup(src), if |src| > 2 then 4 else |src| + 1)
  {
    Group1InAlphabet(src[0]);
    if |src| > 1 { Group2InAlphabet(src[0], src[1]); }
    if |src| > 2 { Group3InAlphabet(src[0], src[1], src[2]); }
  }

  lemma Group1InAlphabet(a: Octet)
    ensures SplitAt(Group1(a), 2)
  {
    TablesAgree(a / 4);
    TablesAgree((a % 4) * 16);
  }

  lemma Group2InAlphabet(a: Octet, b: Octet)
    ensures SplitAt(Group2(a, b), 3)
  {
    TablesAgree(a / 4);
    TablesAgree((a % 4) * 16 + b / 16);
    TablesAgree((b % 16) * 4);
  }

  lemma Group3InAlphabet(a: Octet, b: Octet, c: Octet)
    ensures SplitAt(Group3(a, b, c), 4)
  {
    TablesAgree(a / 4);
    TablesAgree((a % 4) * 16 + b / 16);
    TablesAgree((b % 16) * 4 + c / 64);
    TablesAgree(c % 64);
  }

  lemma {:induction false} NothingToStrip(src: seq<Octet>, i: nat)
    requires CR !in src && LF !in src && i <= |src|
    ensures Strip(src, i) == src[i..]
    decreases |src| - i
  {
    if i < |src| {
      assert src[i] in src;
      NothingToStrip(src, i + 1);
    }
  }

  /** `base64_decode` accepts every encoding, asks for no less than the original size, and gives
      the original back. */
  lemma DecodingUndoesEncoding(src: seq<Octet>)
    ensures var e := Encoded(src);
      && WellFormed(Strip(e, 0)) && Strip(e, 0) == e
      && |src| <= DecodedSize(|e|)
      && Ascii(e) && Decoded(e) == src
  {
    EncodedIsWellFormed(src);
    AcceptedIsAscii(Encoded(src));
    NothingToStrip(Encoded(src), 0);
    EmitUndoesEncoded(src, 0);
    assert Encoded(src)[0..] == Encoded(src);
  }

  // ------------------------------------------------------------ RFC 4648

  /** The codes of the characters of an ASCII text. */
  function Codes(s: string): (r: seq<Octet>)
    requires forall i :: 0 <= i < |s| ==> s[i] < 128 as char
    ensures |r| == |s| && forall i :: 0 <= i < |s| ==> r[i] == s[i] as int
  {
    seq(|s|, i requires 0 <= i < |s| => s[i] as int)
  }

  /** Table 1 of section 4 of RFC 4648. */
  lemma AlphabetIs(i: nat)
    requires i < 64
    ensures EncMap(i) as char ==
      if i < 26 then UPPER[i] else if i < 52 then LOWER[i - 26] else if i < 62 then DIGITS[i - 52] else "+/"[i - 62]
  {
  }

  /** The decoder's table takes each of these characters back, and knows no other. */
  lemma AlphabetIff(c: Octet)
    ensures InAlphabet(c) <==> c as char in UPPER || c as char in LOWER || c as char in DIGITS || c as char in "+/"
    ensures InAlphabet(c) ==> EncMap(DecMap(c)) == c
    ensures c < 128 && !InAlphabet(c) ==> DecMap(c) == if c as char == '=' then 64 else 127
  {
    hide UPPER, LOWER, DIGITS;
    UpperIff(c as char);
    LowerIff(c as char);
    DigitIff(c as char);
    assert "+/"[0] == '+' && "+/"[1] == '/';
  }

  /** Section 10 of RFC 4648. */
  lemma TestVectors()
    ensures Encoded(Codes("")) == Codes("")
    ensures Encoded(Codes("f")) == Codes("Zg==")
    ensures Encoded(Codes("fo")) == Codes("Zm8=")
    ensures Encoded(Codes("foo")) == Codes("Zm9v")
    ensures Encoded(Codes("foob")) == Codes("Zm9vYg==")
    ensures Encoded(Codes("fooba")) == Codes("Zm9vYmE=")
    ensures Encoded(Codes("foobar")) == Codes("Zm9vYmFy")
  {
    OneOrTwo();
    BehindFoo([]);
    BehindFoo([98]);
    BehindFoo([98, 97]);
    BehindFoo([98, 97, 114]);
    hide Encoded;
    assert Codes("foo") == [102, 111, 111] + [];
    assert Codes("foob") == [102, 111, 111] + [98];
    assert Codes("fooba") == [102, 111, 111] + [98, 97];
    assert Codes("foobar") == [102, 111, 111] + [98, 97, 114];
  }

  lemma OneOrTwo()
    ensures Encoded([102]) == [90, 103, 61, 61] && Encoded([102, 111]) == [90, 109, 56, 61]
    ensures Encoded([98]) == [89, 103, 61, 61] && Encoded([98, 97]) == [89, 109, 69, 61]
    ensures Encoded([98, 97, 114]) == [89, 109, 70, 121] && Encoded([]) == []
  {
    assert [98, 97, 114][3..] == [];
  }

  lemma BehindFoo(rest: seq<Octet>)
    ensures Encoded([102, 111, 111] + rest) == [90, 109, 57, 118] + Encoded(rest)
  {
    assert ([102, 111, 111] + rest)[3..] == rest;
  }

  // ------------------------------------------------------------ sizes and line breaks

  /** The encoder asks for the encoding and its NUL, the decoder for the least number of bytes
      that hold six bits for every character. */
  lemma SizesAre(src: seq<Octet>, n: nat)
    ensures EncodedSize(|src|) == |Encoded(src)| + 1
    ensures 8 * DecodedSize(n) >= 6 * n && forall k: nat :: 8 * k >= 6 * n ==> DecodedSize(n) <= k
  {
  }

  /** A line break is LF, or CR and LF; it is taken out wherever it stands. */
  lemma {:induction false} BreaksAreStripped(a: seq<Octet>, b: seq<Octet>)
    requires CR !in a && LF !in a
    ensures Strip(a + ([LF] + b), 0) == a + Strip(b, 0)
    ensures Strip(a + ([CR, LF] + b), 0) == a + Strip(b, 0)
    decreases |a|
  {
    StripFront(a, [LF] + b);
    StripFront(a, [CR, LF] + b);
    StripFront([], b);
    StripTail([LF] + b, 1, 0);
    StripTail([CR, LF] + b, 2, 0);
    assert ([LF] + b)[1..] == b && ([CR, LF] + b)[2..] == b;
  }

  /** Any other CR is left in, which no accepted text has. */
  lemma LoneReturnIsRefused(a: seq<Octet>, b: seq<Octet>)
    requires CR !in a && LF !in a && (b != [] ==> b[0] != LF)
    ensures Scan(a + ([CR] + b), 0, 0) == -1
  {
    var s := a + ([CR] + b);
    StripFront(a, [CR] + b);
    AcceptsExactly(s);
    hide Scan;
    assert Strip([CR] + b, 0) == [CR] + Strip([CR] + b, 1);
    assert Strip(s, 0)[|a|] == CR;
    if WellFormed(Strip(s, 0)) { AcceptedIsAscii(Strip(s, 0)); }
  }

  lemma {:induction false} StripFront(a: seq<Octet>, b: seq<Octet>)
    requires CR !in a && LF !in a
    ensures Strip(a + b, 0) == a + Strip(b, 0)
    decreases |a|
  {
    hide Strip;
    if a == [] {
      assert a + b == b;
    } else {
      var rest := a[1..];
      assert forall c <- rest :: c in a;
      StripFront(rest, b);
      KeptInFront(a, b);
      assert a == [a[0]] + rest;
    }
  }

  lemma KeptInFront(a: seq<Octet>, b: seq<Octet>)
    requires CR !in a && LF !in a && a != []
    ensures Strip(a + b, 0) == [a[0]] + Strip(a[1..] + b, 0)
  {
    var s := a + b;
    assert s[0] == a[0] && a[0] in a;
    assert Strip(s, 0) == [a[0]] + Strip(s, 1);
    hide Strip;
    StripTail(s, 1, 0);
    assert s[1..] == a[1..] + b;
  }

  /** What is stripped depends on what is ahead only. */
  lemma {:induction false} StripTail(src: seq<Octet>, n: nat, i: nat)
    requires n + i <= |src|
    ensures Strip(src, n + i) == Strip(src[n..], i)
    decreases |src| - i
  {
    if n + i < |src| { StripTail(src, n, i + 1); }
  }
}
