/** MD5: section 3.4 of RFC 1321 with registers that move, and src/md5.c, where they stay and
    the arguments of each step are written out. The two agree step by step, up to the names of
    the registers. The four functions come twice, too: as the document defines them, with laws
    that say what each does to the bits, and as the macros of the source compute them. */
module Md5 {
  import opened Blocks
  import opened Words

  // ------------------------------------------------------------ RFC 1321, section 3.4

  function F(x: Word, y: Word, z: Word): Word { (x & y) | (!x & z) }
  function G(x: Word, y: Word, z: Word): Word { (x & z) | (y & !z) }
  function H(x: Word, y: Word, z: Word): Word { x ^ y ^ z }
  function I(x: Word, y: Word, z: Word): Word { y ^ (x | !z) }

  /** F chooses between y and z by the bits of x. */
  lemma FLaws(x: Word, y: Word, z: Word)
    ensures F(0, y, z) == z && F(0xFFFF_FFFF, y, z) == y && F(x, y, y) == y
  {
  }

  /** G chooses between x and y by the bits of z. */
  lemma GLaws(x: Word, y: Word, z: Word)
    ensures G(x, y, 0) == y && G(x, y, 0xFFFF_FFFF) == x && G(x, x, z) == x
  {
  }

  /** H is a parity: equal arguments cancel. */
  lemma HLaws(x: Word, y: Word, z: Word)
    ensures H(x, x, z) == z && H(x, y, y) == x && H(x, y, x) == y
  {
  }

  /** I flips the bits of y where x is set or z is not. */
  lemma ILaws(x: Word, y: Word, z: Word)
    ensures I(0, y, z) == y ^ !z && I(0xFFFF_FFFF, y, z) == !y
    ensures I(x, y, 0) == !y && I(x, y, 0xFFFF_FFFF) == y ^ x
  {
  }

  function Aux(i: nat, x: Word, y: Word, z: Word): Word {
    if i < 16 then F(x, y, z) else if i < 32 then G(x, y, z) else if i < 48 then H(x, y, z) else I(x, y, z)
  }

  /** Which word of the block step `i` uses. */
  function Index(i: nat): (k: nat)
    ensures k < 16
  {
    if i < 16 then i % 16
    else if i < 32 then (5 * i + 1) % 16
    else if i < 48 then (3 * i + 5) % 16
    else (7 * i) % 16
  }

  /** By how much step `i` rotates. */
  function Amount(i: nat): (s: nat)
    ensures 0 < s < 32
  {
    if i < 16 then [7, 12, 17, 22][i % 4]
    else if i < 32 then [5, 9, 14, 20][i % 4]
    else if i < 48 then [4, 11, 16, 23][i % 4]
    else [6, 10, 15, 21][i % 4]
  }

  /** The table T of the standard; entry `i` of the standard is `T(i - 1)`. */
  function T(i: nat): Word
    requires i < 64
  {
    if i < 16 then T1(i) else if i < 32 then T2(i) else if i < 48 then T3(i) else T4(i)
  }

  function T1(i: nat): Word
    requires i < 16
  {
    match i
    case 0 => 0xD76AA478
    case 1 => 0xE8C7B756
    case 2 => 0x242070DB
    case 3 => 0xC1BDCEEE
    case 4 => 0xF57C0FAF
    case 5 => 0x4787C62A
    case 6 => 0xA8304613
    case 7 => 0xFD469501
    case 8 => 0x698098D8
    case 9 => 0x8B44F7AF
    case 10 => 0xFFFF5BB1
    case 11 => 0x895CD7BE
    case 12 => 0x6B901122
    case 13 => 0xFD987193
    case 14 => 0xA679438E
    case _ => 0x49B40821
  }

  function T2(i: nat): Word
    requires 16 <= i < 32
  {
    match i
    case 16 => 0xF61E2562
    case 17 => 0xC040B340
    case 18 => 0x265E5A51
    case 19 => 0xE9B6C7AA
    case 20 => 0xD62F105D
    case 21 => 0x02441453
    case 22 => 0xD8A1E681
    case 23 => 0xE7D3FBC8
    case 24 => 0x21E1CDE6
    case 25 => 0xC33707D6
    case 26 => 0xF4D50D87
    case 27 => 0x455A14ED
    case 28 => 0xA9E3E905
    case 29 => 0xFCEFA3F8
    case 30 => 0x676F02D9
    case _ => 0x8D2A4C8A
  }

  function T3(i: nat): Word
    requires 32 <= i < 48
  {
    match i
    case 32 => 0xFFFA3942
    case 33 => 0x8771F681
    case 34 => 0x6D9D6122
    case 35 => 0xFDE5380C
    case 36 => 0xA4BEEA44
    case 37 => 0x4BDECFA9
    case 38 => 0xF6BB4B60
    case 39 => 0xBEBFBC70
    case 40 => 0x289B7EC6
    case 41 => 0xEAA127FA
    case 42 => 0xD4EF3085
    case 43 => 0x04881D05
    case 44 => 0xD9D4D039
    case 45 => 0xE6DB99E5
    case 46 => 0x1FA27CF8
    case _ => 0xC4AC5665
  }

  function T4(i: nat): Word
    requires 48 <= i < 64
  {
    match i
    case 48 => 0xF4292244
    case 49 => 0x432AFF97
    case 50 => 0xAB9423A7
    case 51 => 0xFC93A039
    case 52 => 0x655B59C3
    case 53 => 0x8F0CCC92
    case 54 => 0xFFEFF47D
    case 55 => 0x85845DD1
    case 56 => 0x6FA87E4F
    case 57 => 0xFE2CE6E0
    case 58 => 0xA3014314
    case 59 => 0x4E0811A1
    case 60 => 0xF7537E82
    case 61 => 0xBD3AF235
    case 62 => 0x2AD7D2BB
    case _ => 0xEB86D391
  }

  function ShiftLeft(x: Word, s: nat): Word
    requires s < 32
  {
    x << s
  }

  function ShiftRight(x: Word, s: nat): Word
    requires s < 32
  {
    x >> s
  }

  function Rotl(x: Word, s: nat): Word
    requires 0 < s < 32
  {
    ShiftLeft(x, s) | ShiftRight(x, 32 - s)
  }

  datatype Regs = Regs(a: Word, b: Word, c: Word, d: Word)

  /** `[abcd k s i]`: a = b + ((a + f(b,c,d) + X[k] + T(i)) <<< s), and the registers move on. */
  function Step(i: nat, r: Regs, x: Word): Regs
    requires i < 64
  {
    var sum := Plus(r.a, Plus(Plus(Aux(i, r.b, r.c, r.d), x), T(i)));
    Regs(r.d, Plus(Rotl(sum, Amount(i)), r.b), r.b, r.c)
  }

  /** Word `k` of a block, low byte first. */
  function BlockWord(block: Block, k: nat): Word
    requires k < 16
  {
    (block[4 * k] as bv32) | ((block[4 * k + 1] as bv32) << 8) |
    ((block[4 * k + 2] as bv32) << 16) | ((block[4 * k + 3] as bv32) << 24)
  }

  function Steps(block: Block, h: Regs, i: nat): Regs
    requires i <= 64
  {
    if i == 0 then h else Step(i - 1, Steps(block, h, i - 1), BlockWord(block, Index(i - 1)))
  }

  function SumRegs(h: Regs, r: Regs): Regs {
    Regs(Plus(h.a, r.a), Plus(h.b, r.b), Plus(h.c, r.c), Plus(h.d, r.d))
  }

  function Compress(h: Regs, block: Block): Regs { SumRegs(h, Steps(block, h, 64)) }

  const IV: Regs := Regs(0x67452301, 0xEFCDAB89, 0x98BADCFE, 0x10325476)

  function WordLE(x: Word): (s: seq<byte>)
    ensures |s| == 4
  {
    [(x & 0xFF) as byte, ((x >> 8) & 0xFF) as byte, ((x >> 16) & 0xFF) as byte, (x >> 24) as byte]
  }

  function DigestBytes(h: Regs): seq<byte> { WordLE(h.a) + WordLE(h.b) + WordLE(h.c) + WordLE(h.d) }

  function Digest(m: seq<byte>): seq<byte> {
    DigestBytes(Fold(Compress, IV, Padded(m, LengthLE(|m|))))
  }

  // ------------------------------------------------------------ the macros of the code

  function F0(x: Word, y: Word, z: Word): Word { z ^ (x & (y ^ z)) }
  function F1(x: Word, y: Word, z: Word): Word { y ^ (z & (x ^ y)) }

  /** The macro F(x,y,z) in its four definitions. */
  function FMacro(i: nat, x: Word, y: Word, z: Word): Word {
    if i < 16 then F0(x, y, z) else if i < 32 then F1(x, y, z) else if i < 48 then H(x, y, z) else I(x, y, z)
  }

  lemma FMacroIsAux(i: nat, x: Word, y: Word, z: Word)
    ensures FMacro(i, x, y, z) == Aux(i, x, y, z)
  {
    hide F, F0, F1, G, H, I;
    F0IsF(x, y, z);
    F1IsG(x, y, z);
  }

  lemma F0IsF(x: Word, y: Word, z: Word)
    ensures F0(x, y, z) == F(x, y, z)
  {
    FBits(x, y, z);
  }

  lemma FBits(x: Word, y: Word, z: Word)
    ensures z ^ (x & (y ^ z)) == (x & y) | (!x & z)
    ensures y ^ (z & (x ^ y)) == (x & z) | (y & !z)
  {
  }

  lemma F1IsG(x: Word, y: Word, z: Word)
    ensures F1(x, y, z) == G(x, y, z)
  {
    FBits(x, y, z);
  }

  /** The macro S(x,n). */
  function SMacro(x: Word, n: nat): Word
    requires 0 < n < 32
  {
    ShiftLeft(x, n) | ShiftRight(x & 0xFFFF_FFFF, 32 - n)
  }

  lemma SMacroIsRotl(x: Word, n: nat)
    requires 0 < n < 32
    ensures SMacro(x, n) == Rotl(x, n)
  {
    assert x & 0xFFFF_FFFF == x;
  }

  /** The macro P(a,b,c,d,k,s,t), step `i` of the block: the new value of its argument `a`. */
  function NewA(i: nat, a: Word, b: Word, c: Word, d: Word, x: Word, s: nat, t: Word): Word
    requires 0 < s < 32
  {
    Plus(SMacro(Plus(a, Plus(Plus(FMacro(i, b, c, d), x), t)), s), b)
  }

  /** One use of P is one step, when the roles of the registers move on by one place. */
  lemma PIsAStep(i: nat, a: Word, b: Word, c: Word, d: Word, x: Word)
    requires i < 64
    ensures Regs(d, NewA(i, a, b, c, d, x, Amount(i), T(i)), b, c) == Step(i, Regs(a, b, c, d), x)
  {
    hide Plus, FMacro, Aux, SMacro, Rotl;
    FMacroIsAux(i, b, c, d);
    SMacroIsRotl(Plus(a, Plus(Plus(FMacro(i, b, c, d), x), T(i))), Amount(i));
  }
}
