/** What SHA-1 and MD5 share: folding a function over 64-byte blocks, the padding of
    section 3.1 of RFC 1321 (section 4 of FIPS 180-1), and the two counters that hold the
    message length. The counters are where the two sources differ: SHA-1 compares the low one
    with the whole length of the piece, MD5 with the length cut to 32 bits. */
module Blocks {
  import opened Division

  type byte = bv8
  type Block = b: seq<byte> | |b| == 64 witness Zeros(64)

  function Zeros(n: nat): (z: seq<byte>)
    ensures |z| == n && forall i :: 0 <= i < n ==> z[i] == 0
  {
    if n == 0 then [] else Zeros(n - 1) + [0]
  }

  // ------------------------------------------------------------ folding

  function Fold<S>(f: (S, Block) -> S, s: S, data: seq<byte>): S
    requires |data| % 64 == 0
    decreases |data|
  {
    if data == [] then s else Fold(f, f(s, data[..64]), data[64..])
  }

  lemma {:induction false} FoldAppend<S>(f: (S, Block) -> S, s: S, data: seq<byte>, more: seq<byte>)
    requires |data| % 64 == 0 && |more| % 64 == 0
    ensures |data + more| % 64 == 0
    ensures Fold(f, s, data + more) == Fold(f, Fold(f, s, data), more)
    decreases |data|
  {
    if data == [] {
      assert data + more == more;
    } else {
      assert (data + more)[..64] == data[..64] && (data + more)[64..] == data[64..] + more;
      FoldAppend(f, f(s, data[..64]), data[64..], more);
    }
  }

  lemma FoldOne<S>(f: (S, Block) -> S, s: S, data: seq<byte>, block: Block)
    requires |data| % 64 == 0
    ensures |data + block| % 64 == 0
    ensures Fold(f, s, data + block) == f(Fold(f, s, data), block)
  {
    FoldAppend(f, s, data, block);
    assert block[64..] == [] && block[..64] == block;
  }

  /** The whole blocks of a message, and what is left over. */
  function Whole(m: seq<byte>): (w: seq<byte>)
    ensures |w| % 64 == 0 && |w| + |m| % 64 == |m|
  {
    m[..|m| - |m| % 64]
  }

  function Rest(m: seq<byte>): (r: seq<byte>)
    ensures |r| == |m| % 64 && Whole(m) + r == m
  {
    m[|m| - |m| % 64..]
  }

  lemma NothingAbsorbed()
    ensures Whole([]) == [] && Rest([]) == []
  {
  }

  lemma WholeAndRest(m: seq<byte>, w: seq<byte>, r: seq<byte>)
    requires m == w + r && |w| % 64 == 0 && |r| < 64
    ensures Whole(m) == w && Rest(m) == r
  {
    assert |m| % 64 == |r|;
  }

  /** Bytes that fill up the block left over, which is then folded. */
  lemma FillsUp<S>(f: (S, Block) -> S, s: S, m: seq<byte>, more: seq<byte>)
    requires |m| % 64 + |more| == 64
    ensures |Rest(m) + more| == 64 && |m + more| % 64 == 0
    ensures Fold(f, s, Whole(m + more)) == f(Fold(f, s, Whole(m)), Rest(m) + more)
    ensures Rest(m + more) == []
  {
    assert m + more == Whole(m) + (Rest(m) + more) + [];
    FoldOne(f, s, Whole(m), Rest(m) + more);
    WholeAndRest(m + more, Whole(m) + (Rest(m) + more), []);
  }

  /** Bytes that do not. */
  lemma LeftOver(m: seq<byte>, more: seq<byte>)
    requires |m| % 64 + |more| < 64
    ensures Whole(m + more) == Whole(m) && Rest(m + more) == Rest(m) + more
    ensures |m + more| % 64 == |m| % 64 + |more|
  {
    assert m + more == Whole(m) + (Rest(m) + more);
    WholeAndRest(m + more, Whole(m), Rest(m) + more);
  }

  /** Bytes of the input join the message done so far. */
  lemma MovesOn(done: seq<byte>, input: seq<byte>, from: nat, to: nat)
    requires from <= to <= |input|
    ensures (done + input[from..to]) + input[to..] == done + input[from..]
  {
    assert input[from..] == input[from..to] + input[to..];
  }

  lemma CountUp(m: seq<byte>, input: seq<byte>)
    ensures |m + input| % WORD == AddLow(|m| % WORD, |input|)
    ensures (|m| % WORD) % 64 == |m| % 64
  {
    var q, r := |m| / WORD, |m| % WORD;
    assert |m| == WORD * q + r;
    AddMultiple(r + |input|, q);
    SameModulo64(q, r);
  }

  lemma SameModulo64(q: nat, r: nat)
    ensures (WORD * q + r) % 64 == r % 64
  {
    Division.DivUnique(WORD * q + r, 64, 0x400_0000 * q + r / 64, r % 64);
  }

  /** `memcpy` into the buffer. */
  method CopyInto(buffer: array<byte>, at: nat, src: seq<byte>)
    requires at + |src| <= buffer.Length
    modifies buffer
    ensures buffer[..] == old(buffer[..at]) + src + old(buffer[at + |src|..])
  {
    var i := 0;
    while i < |src|
      invariant 0 <= i <= |src|
      invariant forall k :: 0 <= k < i ==> buffer[at + k] == src[k]
      invariant buffer[..at] == old(buffer[..at]) && buffer[at + i..] == old(buffer[at + i..])
    {
      buffer[at + i] := src[i];
      i := i + 1;
    }
    assert buffer[at..at + |src|] == src;
    assert buffer[..] == buffer[..at] + buffer[at..at + |src|] + buffer[at + |src|..];
  }

  // ------------------------------------------------------------ padding

  const PADDING: seq<byte> := [0x80] + Zeros(63)

  /** Bytes of padding before the length field, at least one. */
  function PaddingLength(n: nat): (k: nat)
    ensures 1 <= k <= 64
  {
    if n % 64 < 56 then 56 - n % 64 else 120 - n % 64
  }

  /** One bit, and zeros. */
  lemma PaddingIs(k: nat)
    requires 1 <= k <= 64
    ensures PADDING[..k] == [0x80] + Zeros(k - 1)
  {
    var zeros := Zeros(63);
    assert zeros[..k - 1] == Zeros(k - 1);
    assert PADDING[..k] == [0x80] + zeros[..k - 1];
  }

  /** It is the least positive number that brings the length to 56 modulo 64. */
  lemma PaddingIsLeast(n: nat, k: nat)
    requires 1 <= k
    ensures (n + PaddingLength(n)) % 64 == 56
    ensures (n + k) % 64 == 56 ==> PaddingLength(n) <= k
  {
    var q, r := n / 64, n % 64;
    assert n + PaddingLength(n) == 64 * (if r < 56 then q else q + 1) + 56;
    if k < PaddingLength(n) && r + k != 56 {
      assert r + k < 120;
      DivUnique(n + k, 64, if r + k < 64 then q else q + 1, if r + k < 64 then r + k else r + k - 64);
    }
  }

  /** The message with its padding and its eight-byte length field. */
  function Padded(m: seq<byte>, length: seq<byte>): (p: seq<byte>)
    requires |length| == 8
    ensures |p| % 64 == 0
  {
    PaddingIsLeast(|m|, 1);
    m + PADDING[..PaddingLength(|m|)] + length
  }

  // ------------------------------------------------------------ the split length counter

  const WORD: nat := 0x1_0000_0000

  /** `total[0]` and `total[1]` after adding `n`: the carry is noticed by comparison. */
  function AddLow(low: nat, n: nat): nat { (low + n) % WORD }

  /** SHA-1 compares with `n` itself, MD5 with `n` cut to 32 bits. */
  function AddHigh(low: nat, high: nat, n: nat, compared: nat): nat {
    if AddLow(low, n) < compared then high + 1 else high
  }

  function Total(low: nat, high: nat): nat { low + WORD * high }

  /** With the uncut length the counters stay right exactly as long as one carry is enough. */
  lemma CarryIff(low: nat, high: nat, n: nat)
    requires low < WORD
    ensures Total(AddLow(low, n), AddHigh(low, high, n, n)) == Total(low, high) + n <==> low + n < 2 * WORD
  {
    var q := (low + n) / WORD;
    assert low + n == AddLow(low, n) + WORD * q;
    if q == 0 {
      assert AddLow(low, n) == low + n >= n;
    } else if q == 1 {
      assert AddLow(low, n) == low + n - WORD < n;
    } else {
      assert WORD * q >= 2 * WORD;
    }
  }

  /** With the length cut to 32 bits they stay right exactly for lengths below 2^32. */
  lemma CutCarryIff(low: nat, high: nat, n: nat)
    requires low < WORD
    ensures Total(AddLow(low, n), AddHigh(low, high, n, n % WORD)) == Total(low, high) + n <==> n < WORD
  {
    var cut, q := n % WORD, n / WORD;
    assert n == cut + WORD * q;
    assert low + n == (low + cut) + WORD * q;
    assert AddLow(low, n) == AddLow(low, cut) by { AddMultiple(low + cut, q); }
    CarryIff(low, high, cut);
    assert Total(AddLow(low, n), AddHigh(low, high, n, cut)) == Total(low, high) + cut;
  }

  lemma AddMultiple(a: nat, q: nat)
    ensures (a + WORD * q) % WORD == a % WORD
  {
    assert (a + WORD * q) / WORD == a / WORD + q;
  }

  /** The two halves of eight times the length, from the counters. */
  function BitsHigh(low: nat, high: nat): nat { low / 0x2000_0000 + high * 8 }
  function BitsLow(low: nat): nat { low * 8 }

  /** Their low 32 bits are the two words of `8 * length mod 2^64`. */
  lemma BitsAreEightTimes(low: nat, high: nat)
    requires low < WORD
    ensures (BitsHigh(low, high) % WORD) * WORD + BitsLow(low) % WORD == (8 * Total(low, high)) % (WORD * WORD)
  {
    var h, l := BitsHigh(low, high), BitsLow(low);
    assert l == (low / 0x2000_0000) * WORD + l % WORD;
    assert 8 * Total(low, high) == h * WORD + l % WORD;
    var q := h / WORD;
    assert h == q * WORD + h % WORD;
    CutToTwoWords(q, h % WORD, l % WORD);
    assert 8 * Total(low, high) == (WORD * WORD) * q + ((h % WORD) * WORD + l % WORD);
  }

  lemma CutToTwoWords(q: nat, h: nat, l: nat)
    requires h < WORD && l < WORD
    ensures ((WORD * WORD) * q + (h * WORD + l)) % (WORD * WORD) == h * WORD + l
  {
    assert h * WORD + l < WORD * WORD;
    DivUnique((WORD * WORD) * q + (h * WORD + l), WORD * WORD, q, h * WORD + l);
  }

  // ------------------------------------------------------------ the length field

  /** The byte of `n` that `unit` shifts to the bottom. */
  function ByteOf(n: nat, unit: nat): byte
    requires unit > 0
  {
    ((n / unit) % 256) as byte
  }

  /** The four bytes `PUT_ULONG_BE` and `PUT_UINT32_LE` store. */
  function PutBE(n: nat): seq<byte> {
    [ByteOf(n, 0x100_0000), ByteOf(n, 0x1_0000), ByteOf(n, 0x100), ByteOf(n, 1)]
  }

  function PutLE(n: nat): seq<byte> {
    [ByteOf(n, 1), ByteOf(n, 0x100), ByteOf(n, 0x1_0000), ByteOf(n, 0x100_0000)]
  }

  /** The length in bits as a 64-bit number, high byte first (FIPS 180-1). */
  function LengthBE(bytes: nat): (f: seq<byte>)
    ensures |f| == 8
  {
    var bits := (8 * bytes) % (WORD * WORD);
    [ByteOf(bits, 0x100_0000_0000_0000), ByteOf(bits, 0x1_0000_0000_0000), ByteOf(bits, 0x100_0000_0000),
     ByteOf(bits, 0x1_0000_0000), ByteOf(bits, 0x100_0000), ByteOf(bits, 0x1_0000), ByteOf(bits, 0x100), ByteOf(bits, 1)]
  }

  /** The same, low byte first (RFC 1321). */
  function LengthLE(bytes: nat): (f: seq<byte>)
    ensures |f| == 8
  {
    var bits := (8 * bytes) % (WORD * WORD);
    [ByteOf(bits, 1), ByteOf(bits, 0x100), ByteOf(bits, 0x1_0000), ByteOf(bits, 0x100_0000), ByteOf(bits, 0x1_0000_0000),
     ByteOf(bits, 0x100_0000_0000), ByteOf(bits, 0x1_0000_0000_0000), ByteOf(bits, 0x100_0000_0000_0000)]
  }

  /** A number that fits the last byte. */
  lemma ShortLength(n: nat)
    requires 8 * n < 256
    ensures LengthBE(n) == [0, 0, 0, 0, 0, 0, 0, (8 * n) as byte]
    ensures LengthLE(n) == [(8 * n) as byte, 0, 0, 0, 0, 0, 0, 0]
  {
    hide ByteOf;
    var bits := 8 * n;
    assert bits % (WORD * WORD) == bits;
    NoByte(bits, 0x100);
    NoByte(bits, 0x1_0000);
    NoByte(bits, 0x100_0000);
    NoByte(bits, 0x1_0000_0000);
    NoByte(bits, 0x100_0000_0000);
    NoByte(bits, 0x1_0000_0000_0000);
    NoByte(bits, 0x100_0000_0000_0000);
    LowestByte(bits);
  }

  lemma NoByte(n: nat, unit: nat)
    requires n < unit
    ensures ByteOf(n, unit) == 0
  {
  }

  lemma LowestByte(n: nat)
    requires n < 256
    ensures ByteOf(n, 1) == n as byte
  {
  }

  function Pow256(k: nat): (p: nat)
    ensures p > 0
  {
    if k == 0 then 1 else 256 * Pow256(k - 1)
  }

  /** The length field is 8 times the length, modulo 2^64, written to the base of 256: the highest
      digit first, or the lowest. */
  lemma LengthIsWritten(n: nat)
    ensures var bits := (8 * n) % (WORD * WORD);
      forall i :: 0 <= i < 8 ==>
        LengthBE(n)[i] == ByteOf(bits, Pow256(7 - i)) && LengthLE(n)[i] == ByteOf(bits, Pow256(i))
  {
    hide ByteOf;
    Powers();
  }

  lemma Powers()
    ensures Pow256(0) == 1 && Pow256(1) == 0x100 && Pow256(2) == 0x1_0000 && Pow256(3) == 0x100_0000
    ensures Pow256(4) == 0x1_0000_0000 && Pow256(5) == 0x100_0000_0000
    ensures Pow256(6) == 0x1_0000_0000_0000 && Pow256(7) == 0x100_0000_0000_0000
  {
  }

  /** A byte of the low word, and of the high word, of a 64-bit number. */
  lemma BytesOfWords(high: nat, low: nat, bits: nat)
    requires bits == (high % WORD) * WORD + low % WORD
    ensures PutBE(bits) == PutBE(low)
    ensures PutBE(bits / WORD) == PutBE(high)
  {
    assert bits / WORD == high % WORD;
    PutCuts(bits);
    PutCuts(low);
    PutCuts(high);
    assert bits % WORD == low % WORD;
  }

  /** Four bytes hold the low 32 bits and nothing else. */
  lemma PutCuts(n: nat)
    ensures PutBE(n) == PutBE(n % WORD)
  {
    var q, l := n / WORD, n % WORD;
    assert n == l + WORD * q;
    Shift(l, 1, 0x100_0000 * q);
    Shift(l, 0x100, 0x1_0000 * q);
    Shift(l, 0x1_0000, 0x100 * q);
    Shift(l, 0x100_0000, q);
  }

  lemma Shift(l: nat, unit: nat, k: nat)
    requires unit > 0
    ensures ByteOf(l + 256 * unit * k, unit) == ByteOf(l, unit)
  {
    ByteShift(l, unit, k);
  }

  lemma HighBytes(n: nat)
    ensures ByteOf(n, 0x1_0000_0000) == ByteOf(n / WORD, 1)
    ensures ByteOf(n, 0x100_0000_0000) == ByteOf(n / WORD, 0x100)
    ensures ByteOf(n, 0x1_0000_0000_0000) == ByteOf(n / WORD, 0x1_0000)
    ensures ByteOf(n, 0x100_0000_0000_0000) == ByteOf(n / WORD, 0x100_0000)
  {
  }

  /** The length field written from the two counters is the length field of the standard. */
  lemma LengthFromCounters(low: nat, high: nat)
    requires low < WORD
    ensures PutBE(BitsHigh(low, high)) + PutBE(BitsLow(low)) == LengthBE(Total(low, high))
    ensures PutLE(BitsLow(low)) + PutLE(BitsHigh(low, high)) == LengthLE(Total(low, high))
  {
    var h, l := BitsHigh(low, high), BitsLow(low);
    var bits := (8 * Total(low, high)) % (WORD * WORD);
    BitsAreEightTimes(low, high);
    BytesOfWords(h, l, bits);
    HighBytes(bits);
  }
}
