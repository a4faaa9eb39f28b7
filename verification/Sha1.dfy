/** SHA-1: section 7 of FIPS 180-1 as the reference, and src/sha1.c, which follows the
    section 8 form with a 16-word circular schedule, registers that change places instead
    of values, and words of `unsigned long` that may be 64 bits wide. One macro use is one
    round in the low halves of these words, up to the names of the registers, and the circular
    schedule yields the words of the straight one. */
module Sha1 {
  import opened Blocks
  import opened Words

  // ------------------------------------------------------------ FIPS 180-1, section 7

  function Rotl1(x: Word): Word { (x << 1) | (x >> 31) }
  function Rotl5(x: Word): Word { (x << 5) | (x >> 27) }
  function Rotl30(x: Word): Word { (x << 30) | (x >> 2) }

  /** The functions f_t of section 5. */
  function F(t: nat, b: Word, c: Word, d: Word): Word {
    if t < 20 then Choose(b, c, d)
    else if t < 40 then Parity(b, c, d)
    else if t < 60 then Majority(b, c, d)
    else Parity(b, c, d)
  }

  function Choose(b: Word, c: Word, d: Word): Word { (b & c) | (!b & d) }
  function Parity(b: Word, c: Word, d: Word): Word { b ^ c ^ d }
  function Majority(b: Word, c: Word, d: Word): Word { (b & c) | (b & d) | (c & d) }

  /** The constants K_t of section 6. */
  function K(t: nat): Word {
    if t < 20 then 0x5A827999 else if t < 40 then 0x6ED9EBA1 else if t < 60 then 0x8F1BBCDC else 0xCA62C1D6
  }

  /** They are the square roots of 2, 3, 5 and 10, times 2^30, cut to integers. */
  lemma KIsRoot(t: nat)
    requires t < 80
    ensures var k := K(t) as nat;
      var n := if t < 20 then 2 else if t < 40 then 3 else if t < 60 then 5 else 10;
      k * k <= n * 0x1000_0000_0000_0000 < (k + 1) * (k + 1)
  {
  }

  /** Word `i` of a block, high byte first. */
  function BlockWord(block: Block, i: nat): Word
    requires i < 16
  {
    ((block[4 * i] as bv32) << 24) | ((block[4 * i + 1] as bv32) << 16) |
    ((block[4 * i + 2] as bv32) << 8) | (block[4 * i + 3] as bv32)
  }

  /** The 80-word schedule W_t. */
  function W(block: Block, t: nat): Word {
    if t < 16 then BlockWord(block, t)
    else Rotl1(W(block, t - 3) ^ W(block, t - 8) ^ W(block, t - 14) ^ W(block, t - 16))
  }

  /** The five registers, and the five words of the hash. */
  datatype Regs = Regs(a: Word, b: Word, c: Word, d: Word, e: Word)

  /** TEMP of step d. */
  function Temp(a: Word, f: Word, e: Word, w: Word, k: Word): Word { Plus(Plus(Plus(Plus(a, f), e), w), k) }

  function RoundStep(t: nat, r: Regs, w: Word): Regs {
    Regs(Temp(Rotl5(r.a), F(t, r.b, r.c, r.d), r.e, w, K(t)), r.a, Rotl30(r.b), r.c, r.d)
  }

  /** The registers after `t` rounds. */
  function Rounds(block: Block, h: Regs, t: nat): Regs {
    if t == 0 then h else RoundStep(t - 1, Rounds(block, h, t - 1), W(block, t - 1))
  }

  function Compress(h: Regs, block: Block): Regs {
    SumRegs(h, Rounds(block, h, 80))
  }

  function SumRegs(h: Regs, r: Regs): Regs {
    Regs(Plus(h.a, r.a), Plus(h.b, r.b), Plus(h.c, r.c), Plus(h.d, r.d), Plus(h.e, r.e))
  }

  const IV: Regs := Regs(0x67452301, 0xEFCDAB89, 0x98BADCFE, 0x10325476, 0xC3D2E1F0)

  function WordBE(x: Word): seq<byte> {
    [(x >> 24) as byte, ((x >> 16) & 0xFF) as byte, ((x >> 8) & 0xFF) as byte, (x & 0xFF) as byte]
  }

  function DigestBytes(h: Regs): seq<byte> {
    WordBE(h.a) + WordBE(h.b) + WordBE(h.c) + WordBE(h.d) + WordBE(h.e)
  }

  /** The digest of a message. */
  function Digest(m: seq<byte>): seq<byte> {
    DigestBytes(Fold(Compress, IV, Padded(m, LengthBE(|m|))))
  }

  /** The macro S(x,n) for the three shifts used. */
  function S1(x: Long): Long { (x << 1) | ((x & 0xFFFF_FFFF) >> 31) }
  function S5(x: Long): Long { (x << 5) | ((x & 0xFFFF_FFFF) >> 27) }
  function S30(x: Long): Long { (x << 30) | ((x & 0xFFFF_FFFF) >> 2) }

  lemma LowShifts(x: Long)
    ensures Low(S1(x)) == Rotl1(Low(x))
    ensures Low(S5(x)) == Rotl5(Low(x))
    ensures Low(S30(x)) == Rotl30(Low(x))
  {
  }

  /** The macro F(x,y,z) in its four definitions. */
  function FMacro(t: nat, x: Long, y: Long, z: Long): Long {
    if t < 20 then F0(x, y, z)
    else if t < 40 then F1(x, y, z)
    else if t < 60 then F2(x, y, z)
    else F1(x, y, z)
  }

  function F0(x: Long, y: Long, z: Long): Long { z ^ (x & (y ^ z)) }
  function F1(x: Long, y: Long, z: Long): Long { x ^ y ^ z }
  function F2(x: Long, y: Long, z: Long): Long { (x & y) | (z & (x | y)) }

  /** The code computes the first and the third function in another way than the standard. */
  lemma LowF(t: nat, x: Long, y: Long, z: Long)
    ensures Low(FMacro(t, x, y, z)) == F(t, Low(x), Low(y), Low(z))
  {
    hide Low, F0, F1, F2, Choose, Parity, Majority;
    LowF0(x, y, z);
    LowF1(x, y, z);
    LowF2(x, y, z);
  }

  lemma LowF0(x: Long, y: Long, z: Long)
    ensures Low(F0(x, y, z)) == Choose(Low(x), Low(y), Low(z))
  {
  }

  lemma LowF1(x: Long, y: Long, z: Long)
    ensures Low(F1(x, y, z)) == Parity(Low(x), Low(y), Low(z))
  {
  }

  lemma LowF2(x: Long, y: Long, z: Long)
    ensures Low(F2(x, y, z)) == Majority(Low(x), Low(y), Low(z))
  {
  }

  // ------------------------------------------------------------ the circular schedule

  /** Where W_k lives in the 16-word array: `k & 0x0F`. */
  function Slot(k: nat): nat { k % 16 }

  /** The array holds the 16 words before `t` (the first 16 at the start). */
  ghost predicate Window(w: seq<Long>, block: Block, t: nat) {
    |w| == 16 && t >= 16 && forall k :: t - 16 <= k < t ==> Low(w[Slot(k)]) == W(block, k)
  }

  function Mix(a: Long, b: Long, c: Long, d: Long): Long { S1(a ^ b ^ c ^ d) }

  function MixWord(a: Word, b: Word, c: Word, d: Word): Word { Rotl1(a ^ b ^ c ^ d) }

  lemma LowMix(a: Long, b: Long, c: Long, d: Long)
    ensures Low(Mix(a, b, c, d)) == MixWord(Low(a), Low(b), Low(c), Low(d))
  {
  }

  /** The macro R(t), as the array behind it and the word it yields. */
  function Refresh(w: seq<Long>, t: nat): Long
    requires |w| == 16 && t >= 16
  {
    Mix(w[Slot(t - 3)], w[Slot(t - 8)], w[Slot(t - 14)], w[Slot(t)])
  }

  lemma RefreshSlides(w: seq<Long>, block: Block, t: nat)
    requires Window(w, block, t)
    ensures Low(Refresh(w, t)) == W(block, t)
    ensures Window(w[Slot(t) := Refresh(w, t)], block, t + 1)
  {
    hide Low, W, Mix, MixWord;
    FourSlots(w, block, t);
    hide Slot;
    var a, b, c, d := w[Slot(t - 3)], w[Slot(t - 8)], w[Slot(t - 14)], w[Slot(t)];
    LowMix(a, b, c, d);
    WUnfolds(block, t);
    forall k | t + 1 - 16 <= k < t + 1
      ensures Low(w[Slot(t) := Refresh(w, t)][Slot(k)]) == W(block, k)
    {
      if k < t { SlotsDiffer(k, t); }
    }
  }

  lemma FourSlots(w: seq<Long>, block: Block, t: nat)
    requires Window(w, block, t)
    ensures Slot(t) < 16 && Low(w[Slot(t)]) == W(block, t - 16)
    ensures Slot(t - 3) < 16 && Low(w[Slot(t - 3)]) == W(block, t - 3)
    ensures Slot(t - 8) < 16 && Low(w[Slot(t - 8)]) == W(block, t - 8)
    ensures Slot(t - 14) < 16 && Low(w[Slot(t - 14)]) == W(block, t - 14)
  {
    hide Low, W;
    assert Slot(t) == Slot(t - 16);
  }

  lemma WUnfolds(block: Block, t: nat)
    requires t >= 16
    ensures W(block, t) == MixWord(W(block, t - 3), W(block, t - 8), W(block, t - 14), W(block, t - 16))
  {
  }

  lemma SlotsDiffer(k: nat, t: nat)
    requires k < t < k + 16
    ensures Slot(k) != Slot(t)
  {
  }

  // ------------------------------------------------------------ five rounds

  /** Five `unsigned long` registers. */
  function LowRegs(a: Long, b: Long, c: Long, d: Long, e: Long): Regs {
    Regs(Low(a), Low(b), Low(c), Low(d), Low(e))
  }

  /** The macro K, a constant of type `int` or `unsigned int` widened by the addition. */
  function KMacro(t: nat): Long { K(t) as bv64 }

  /** The macro P: the new values of its arguments `e` and `b`. */
  function NewE(t: nat, a: Long, b: Long, c: Long, d: Long, e: Long, x: Long): Long {
    Add(e, Add(Add(Add(S5(a), FMacro(t, b, c, d)), KMacro(t)), x))
  }

  /** One use of P is one round, when the roles of the registers move on by one place. */
  lemma PIsARound(t: nat, a: Long, b: Long, c: Long, d: Long, e: Long, x: Long)
    ensures LowRegs(NewE(t, a, b, c, d, e, x), a, S30(b), c, d) == RoundStep(t, LowRegs(a, b, c, d, e), Low(x))
  {
    hide Low, S5, S30, FMacro, F, Rotl5, Rotl30, K, KMacro, Add, Plus, Temp;
    var s, f, k := S5(a), FMacro(t, b, c, d), KMacro(t);
    LowAdd(s, f);
    LowAdd(Add(s, f), k);
    LowAdd(Add(Add(s, f), k), x);
    LowAdd(e, Add(Add(Add(s, f), k), x));
    LowShifts(a);
    LowShifts(b);
    LowF(t, b, c, d);
    LowK(t);
    Reorder(Rotl5(Low(a)), F(t, Low(b), Low(c), Low(d)), K(t), Low(x), Low(e));
  }

  lemma LowK(t: nat)
    ensures Low(KMacro(t)) == K(t)
  {
  }

  lemma Reorder(s: Word, f: Word, k: Word, x: Word, e: Word)
    ensures Plus(e, Plus(Plus(Plus(s, f), k), x)) == Temp(s, f, e, x, k)
  {
    hide Plus;
    var sf := Plus(s, f);
    PlusCommutes(e, Plus(Plus(sf, k), x));
    PlusSwaps(Plus(sf, k), x, e);
    PlusSwaps(sf, k, e);
    PlusSwaps(Plus(sf, e), k, x);
  }
}
