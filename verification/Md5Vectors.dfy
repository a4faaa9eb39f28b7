/** The messages "" and "abc" of section A.5 of RFC 1321: their registers step by step, and their
    digests. The other theorems about MD5 relate the code to the functions of the document as
    written in this project; these tie them to the document: the initial value, the four
    functions, the table, the rotations, the padding and the byte order. */
module Md5Vectors {
  import opened Blocks
  import opened Words
  import opened Md5
  import Md5Stream

  const ABC: seq<byte> := [0x61, 0x62, 0x63]

  const LENGTH_EMPTY: seq<byte> := [0, 0, 0, 0, 0, 0, 0, 0]
  const LENGTH_ABC: seq<byte> := [24, 0, 0, 0, 0, 0, 0, 0]

  const PADDED_EMPTY: Block := ([0x80] + Zeros(55)) + LENGTH_EMPTY
  const PADDED_ABC: Block := ABC + ([0x80] + Zeros(52)) + LENGTH_ABC

  lemma Lengths()
    ensures LengthLE(0) == LENGTH_EMPTY && LengthLE(3) == LENGTH_ABC
  {
    hide LengthLE;
    ShortLength(0);
    ShortLength(3);
  }

  lemma EmptyIsPadded()
    ensures Padded([], LengthLE(0)) == PADDED_EMPTY
  {
    Lengths();
    PaddingIs(56);
    hide LengthLE, PADDING, Zeros, LENGTH_EMPTY;
    assert PaddingLength(0) == 56;
    assert [] + ([0x80] + Zeros(55)) == [0x80] + Zeros(55);
  }

  lemma AbcIsPadded()
    ensures Padded(ABC, LengthLE(3)) == PADDED_ABC
  {
    Lengths();
    PaddingIs(53);
    hide LengthLE, PADDING, Zeros, LENGTH_ABC, ABC;
    AbcHasThree();
    assert PaddingLength(3) == 53;
  }

  lemma AbcHasThree()
    ensures |ABC| == 3
  {
  }

  lemma EmptyBytes()
    ensures PADDED_EMPTY[0] == 0x80
    ensures forall i :: 1 <= i < 64 ==> PADDED_EMPTY[i] == 0
  {
    var front := [0x80] + Zeros(55);
    assert forall i :: 1 <= i < 56 ==> front[i] == 0;
    assert forall i :: 0 <= i < 56 ==> PADDED_EMPTY[i] == front[i];
    assert forall i :: 56 <= i < 64 ==> PADDED_EMPTY[i] == LENGTH_EMPTY[i - 56];
  }

  lemma AbcBytes()
    ensures PADDED_ABC[0] == 0x61 && PADDED_ABC[1] == 0x62 && PADDED_ABC[2] == 0x63 && PADDED_ABC[3] == 0x80
    ensures PADDED_ABC[56] == 24
    ensures forall i :: 4 <= i < 64 && i != 56 ==> PADDED_ABC[i] == 0
  {
    var tail := [0x80] + Zeros(52);
    assert forall i :: 1 <= i < 53 ==> tail[i] == 0;
    assert forall i :: 3 <= i < 56 ==> PADDED_ABC[i] == tail[i - 3];
    assert forall i :: 56 <= i < 64 ==> PADDED_ABC[i] == LENGTH_ABC[i - 56];
  }

  /** The words of the two blocks. */
  lemma EmptyWords()
    ensures BlockWord(PADDED_EMPTY, 0) == 0x80
    ensures forall k :: 0 < k < 16 ==> BlockWord(PADDED_EMPTY, k) == 0
  {
    EmptyBytes();
    hide PADDED_EMPTY;
    forall k | 0 < k < 16 ensures BlockWord(PADDED_EMPTY, k) == 0 {
      assert PADDED_EMPTY[4 * k] == PADDED_EMPTY[4 * k + 1] == PADDED_EMPTY[4 * k + 2] == PADDED_EMPTY[4 * k + 3] == 0;
    }
  }

  lemma AbcWords()
    ensures BlockWord(PADDED_ABC, 0) == 0x80636261 && BlockWord(PADDED_ABC, 14) == 24
    ensures forall k :: 0 < k < 16 && k != 14 ==> BlockWord(PADDED_ABC, k) == 0
  {
    AbcBytes();
    hide PADDED_ABC;
    forall k | 0 < k < 16 && k != 14 ensures BlockWord(PADDED_ABC, k) == 0 {
      assert PADDED_ABC[4 * k] == PADDED_ABC[4 * k + 1] == PADDED_ABC[4 * k + 2] == PADDED_ABC[4 * k + 3] == 0;
    }
  }

  /** One step, from its pieces. */
  lemma One(block: Block, i: nat, k: nat, s: nat, n: nat, t: Word, r: Regs, x: Word, sum: Word, turned: Word, r': Regs)
    requires i < 64 && k < 16 && s <= 32 && s + n == 32 && 0 < n < 32
    requires Md5Stream.Arguments(i, k, s, t)
    requires Steps(block, IV, i) == r && BlockWord(block, k) == x
    requires sum == Plus(r.a, Plus(Plus(Aux(i, r.b, r.c, r.d), x), t))
    requires ShiftLeft(sum, s) | ShiftRight(sum, n) == turned
    requires r' == Regs(r.d, Plus(turned, r.b), r.b, r.c)
    ensures Steps(block, IV, i + 1) == r'
  {
    hide BlockWord, Index, Amount, T, Aux, ShiftLeft, ShiftRight, Plus;
    assert n == 32 - s;
  }

  lemma NoSteps(block: Block)
    ensures Steps(block, IV, 0) == IV
  {
  }

  // ------------------------------------------------------------ ""

  lemma EmptyTo8()
    ensures Steps(PADDED_EMPTY, IV, 8) == Regs(0x32033344, 0x9BC13CE9, 0xF5B158DB, 0x2F35D494)
  {
    hide Steps, BlockWord, Md5Stream.Arguments, PADDED_EMPTY;
    NoSteps(PADDED_EMPTY);
    EmptyWords();
    Md5Stream.Arguments0To7();
    One(PADDED_EMPTY, 0, 0, 7, 25, 0xD76AA478, IV, 0x00000080, 0xD76AA4F7, 0xB5527BEB,
        Regs(0x10325476, 0xA5202774, 0xEFCDAB89, 0x98BADCFE));
    One(PADDED_EMPTY, 1, 1, 12, 20, 0xE8C7B756, Regs(0x10325476, 0xA5202774, 0xEFCDAB89, 0x98BADCFE), 0x00000000, 0xB6950756, 0x50756B69,
        Regs(0x98BADCFE, 0xF59592DD, 0xA5202774, 0xEFCDAB89));
    One(PADDED_EMPTY, 2, 2, 17, 15, 0x242070DB, Regs(0x98BADCFE, 0xF59592DD, 0xA5202774, 0xEFCDAB89), 0x00000000, 0x6C23792D, 0xF25AD846,
        Regs(0xEFCDAB89, 0xE7F06B23, 0xF59592DD, 0xA5202774));
    One(PADDED_EMPTY, 3, 3, 22, 10, 0xC1BDCEEE, Regs(0xEFCDAB89, 0xE7F06B23, 0xF59592DD, 0xA5202774), 0x00000000, 0x971B80CC, 0x3325C6E0,
        Regs(0xA5202774, 0x1B163203, 0xE7F06B23, 0xF59592DD));
    One(PADDED_EMPTY, 4, 4, 7, 25, 0xF57C0FAF, Regs(0xA5202774, 0x1B163203, 0xE7F06B23, 0xF59592DD), 0x00000000, 0x822DDA02, 0x16ED0141,
        Regs(0xF59592DD, 0x32033344, 0x1B163203, 0xE7F06B23));
    One(PADDED_EMPTY, 5, 5, 12, 20, 0x4787C62A, Regs(0xF59592DD, 0x32033344, 0x1B163203, 0xE7F06B23), 0x00000000, 0x150FD32A, 0xFD32A150,
        Regs(0xE7F06B23, 0x2F35D494, 0x32033344, 0x1B163203));
    One(PADDED_EMPTY, 6, 6, 17, 15, 0xA8304613, Regs(0xE7F06B23, 0x2F35D494, 0x32033344, 0x1B163203), 0x00000000, 0xC223E33D, 0xC67B8447,
        Regs(0x1B163203, 0xF5B158DB, 0x2F35D494, 0x32033344));
    One(PADDED_EMPTY, 7, 7, 22, 10, 0xFD469501, Regs(0x1B163203, 0xF5B158DB, 0x2F35D494, 0x32033344), 0x00000000, 0x3F903A98, 0xA60FE40E,
        Regs(0x32033344, 0x9BC13CE9, 0xF5B158DB, 0x2F35D494));
  }

  lemma EmptyTo16()
    ensures Steps(PADDED_EMPTY, IV, 16) == Regs(0xF56C7CF1, 0xD6819C6A, 0x5AA53F75, 0x374943A7)
  {
    hide Steps, BlockWord, Md5Stream.Arguments, PADDED_EMPTY;
    EmptyTo8();
    EmptyWords();
    Md5Stream.Arguments8To15();
    One(PADDED_EMPTY, 8, 8, 7, 25, 0x698098D8, Regs(0x32033344, 0x9BC13CE9, 0xF5B158DB, 0x2F35D494), 0x00000000, 0x5139A4F9, 0x9CD27CA8,
        Regs(0x2F35D494, 0x3893B991, 0x9BC13CE9, 0xF5B158DB));
    One(PADDED_EMPTY, 9, 9, 12, 20, 0x8B44F7AF, Regs(0x2F35D494, 0x3893B991, 0x9BC13CE9, 0xF5B158DB), 0x00000000, 0x981C450E, 0xC450E981,
        Regs(0xF5B158DB, 0xFCE4A312, 0x3893B991, 0x9BC13CE9));
    One(PADDED_EMPTY, 10, 10, 17, 15, 0xFFFF5BB1, Regs(0xF5B158DB, 0xFCE4A312, 0x3893B991, 0x9BC13CE9), 0x00000000, 0x31327285, 0xE50A6264,
        Regs(0x9BC13CE9, 0xE1EF0576, 0xFCE4A312, 0x3893B991));
    One(PADDED_EMPTY, 11, 11, 22, 10, 0x895CD7BE, Regs(0x9BC13CE9, 0xE1EF0576, 0xFCE4A312, 0x3893B991), 0x00000000, 0x1E12CE3A, 0x8E8784B3,
        Regs(0x3893B991, 0x70768A29, 0xE1EF0576, 0xFCE4A312));
    One(PADDED_EMPTY, 12, 12, 7, 25, 0x6B901122, Regs(0x3893B991, 0x70768A29, 0xE1EF0576, 0xFCE4A312), 0x00000000, 0x9109EBE5, 0x84F5F2C8,
        Regs(0xFCE4A312, 0xF56C7CF1, 0x70768A29, 0xE1EF0576));
    One(PADDED_EMPTY, 13, 13, 12, 20, 0xFD987193, Regs(0xFCE4A312, 0xF56C7CF1, 0x70768A29, 0xE1EF0576), 0x00000000, 0x6B641DCC, 0x41DCC6B6,
        Regs(0xE1EF0576, 0x374943A7, 0xF56C7CF1, 0x70768A29));
    One(PADDED_EMPTY, 14, 14, 17, 15, 0xA679438E, Regs(0xE1EF0576, 0x374943A7, 0xF56C7CF1, 0x70768A29), 0x00000000, 0xFDE711AD, 0x235BFBCE,
        Regs(0x70768A29, 0x5AA53F75, 0x374943A7, 0xF56C7CF1));
    One(PADDED_EMPTY, 15, 15, 22, 10, 0x49B40821, Regs(0x70768A29, 0x5AA53F75, 0x374943A7, 0xF56C7CF1), 0x00000000, 0x7173D5EF, 0x7BDC5CF5,
        Regs(0xF56C7CF1, 0xD6819C6A, 0x5AA53F75, 0x374943A7));
  }

  lemma EmptyTo24()
    ensures Steps(PADDED_EMPTY, IV, 24) == Regs(0x3D1E3E6C, 0xE422531A, 0xEB41643E, 0x68B7B3E3)
  {
    hide Steps, BlockWord, Md5Stream.Arguments, PADDED_EMPTY;
    EmptyTo16();
    EmptyWords();
    Md5Stream.Arguments16To23();
    One(PADDED_EMPTY, 16, 1, 5, 27, 0xF61E2562, Regs(0xF56C7CF1, 0xD6819C6A, 0x5AA53F75, 0x374943A7), 0x00000000, 0x4A2FDEC5, 0x45FBD8A9,
        Regs(0x374943A7, 0x1C7D7513, 0xD6819C6A, 0x5AA53F75));
    One(PADDED_EMPTY, 17, 6, 9, 23, 0xC040B340, Regs(0x374943A7, 0x1C7D7513, 0xD6819C6A, 0x5AA53F75), 0x00000000, 0x93AFAC02, 0x5F580527,
        Regs(0x5AA53F75, 0x7BD57A3A, 0x1C7D7513, 0xD6819C6A));
    One(PADDED_EMPTY, 18, 11, 14, 18, 0x265E5A51, Regs(0x5AA53F75, 0x7BD57A3A, 0x1C7D7513, 0xD6819C6A), 0x00000000, 0xDC011301, 0x44C07700,
        Regs(0xD6819C6A, 0xC095F13A, 0x7BD57A3A, 0x1C7D7513));
    One(PADDED_EMPTY, 19, 0, 20, 12, 0xE9B6C7AA, Regs(0xD6819C6A, 0xC095F13A, 0x7BD57A3A, 0x1C7D7513), 0x00000080, 0x23CDDFCE, 0xFCE23CDD,
        Regs(0x1C7D7513, 0xBD782E17, 0xC095F13A, 0x7BD57A3A));
    One(PADDED_EMPTY, 20, 5, 5, 27, 0xD62F105D, Regs(0x1C7D7513, 0xBD782E17, 0xC095F13A, 0x7BD57A3A), 0x00000000, 0xABFD3082, 0x7FA61055,
        Regs(0x7BD57A3A, 0x3D1E3E6C, 0xBD782E17, 0xC095F13A));
    One(PADDED_EMPTY, 21, 10, 9, 23, 0x02441453, Regs(0x7BD57A3A, 0x3D1E3E6C, 0xBD782E17, 0xC095F13A), 0x00000000, 0xBB95CCBA, 0x2B997577,
        Regs(0xC095F13A, 0x68B7B3E3, 0x3D1E3E6C, 0xBD782E17));
    One(PADDED_EMPTY, 22, 15, 14, 18, 0xD8A1E681, Regs(0xC095F13A, 0x68B7B3E3, 0x3D1E3E6C, 0xBD782E17), 0x00000000, 0xC16E0A26, 0x8289B05B,
        Regs(0xBD782E17, 0xEB41643E, 0x68B7B3E3, 0x3D1E3E6C));
    One(PADDED_EMPTY, 23, 4, 20, 12, 0xE7D3FBC8, Regs(0xBD782E17, 0xEB41643E, 0x68B7B3E3, 0x3D1E3E6C), 0x00000000, 0x0EEDCF8E, 0xF8E0EEDC,
        Regs(0x3D1E3E6C, 0xE422531A, 0xEB41643E, 0x68B7B3E3));
  }

  lemma EmptyTo32()
    ensures Steps(PADDED_EMPTY, IV, 32) == Regs(0x13707036, 0xA2205F1F, 0x1C31C384, 0xAE7813DB)
  {
    hide Steps, BlockWord, Md5Stream.Arguments, PADDED_EMPTY;
    EmptyTo24();
    EmptyWords();
    Md5Stream.Arguments24To31();
    One(PADDED_EMPTY, 24, 9, 5, 27, 0x21E1CDE6, Regs(0x3D1E3E6C, 0xE422531A, 0xEB41643E, 0x68B7B3E3), 0x00000000, 0x42626370, 0x4C4C6E08,
        Regs(0x68B7B3E3, 0x306EC122, 0xE422531A, 0xEB41643E));
    One(PADDED_EMPTY, 25, 14, 9, 23, 0xC33707D6, Regs(0x68B7B3E3, 0x306EC122, 0xE422531A, 0xEB41643E), 0x00000000, 0x50510EDB, 0xA21DB6A0,
        Regs(0xEB41643E, 0xD28C77C2, 0x306EC122, 0xE422531A));
    One(PADDED_EMPTY, 26, 3, 14, 18, 0xF4D50D87, Regs(0xEB41643E, 0xD28C77C2, 0x306EC122, 0xE422531A), 0x00000000, 0xB06344E7, 0xD139EC18,
        Regs(0xE422531A, 0xA3C663DA, 0xD28C77C2, 0x306EC122));
    One(PADDED_EMPTY, 27, 8, 20, 12, 0x455A14ED, Regs(0xE422531A, 0xA3C663DA, 0xD28C77C2, 0x306EC122), 0x00000000, 0x0C42DFC9, 0xFC90C42D,
        Regs(0x306EC122, 0xA0572807, 0xA3C663DA, 0xD28C77C2));
    One(PADDED_EMPTY, 28, 13, 5, 27, 0xA9E3E905, Regs(0x306EC122, 0xA0572807, 0xA3C663DA, 0xD28C77C2), 0x00000000, 0x7B98CA41, 0x7319482F,
        Regs(0xD28C77C2, 0x13707036, 0xA0572807, 0xA3C663DA));
    One(PADDED_EMPTY, 29, 2, 9, 23, 0xFCEFA3F8, Regs(0xD28C77C2, 0x13707036, 0xA0572807, 0xA3C663DA), 0x00000000, 0xD2CD83D1, 0x9B07A3A5,
        Regs(0xA3C663DA, 0xAE7813DB, 0x13707036, 0xA0572807));
    One(PADDED_EMPTY, 30, 7, 14, 18, 0x676F02D9, Regs(0xA3C663DA, 0xAE7813DB, 0x13707036, 0xA0572807), 0x00000000, 0xBEA5B6E6, 0x6DB9AFA9,
        Regs(0xA0572807, 0x1C31C384, 0xAE7813DB, 0x13707036));
    One(PADDED_EMPTY, 31, 12, 20, 12, 0x8D2A4C8A, Regs(0xA0572807, 0x1C31C384, 0xAE7813DB, 0x13707036), 0x00000000, 0xE9B9B85E, 0x85EE9B9B,
        Regs(0x13707036, 0xA2205F1F, 0x1C31C384, 0xAE7813DB));
  }

  lemma EmptyTo40()
    ensures Steps(PADDED_EMPTY, IV, 40) == Regs(0x5F7A9B2E, 0xC5DC8C15, 0x91CA4CB7, 0xABC34E16)
  {
    hide Steps, BlockWord, Md5Stream.Arguments, PADDED_EMPTY;
    EmptyTo32();
    EmptyWords();
    Md5Stream.Arguments32To39();
    One(PADDED_EMPTY, 32, 5, 4, 28, 0xFFFA3942, Regs(0x13707036, 0xA2205F1F, 0x1C31C384, 0xAE7813DB), 0x00000000, 0x23D438B8, 0x3D438B82,
        Regs(0xAE7813DB, 0xDF63EAA1, 0xA2205F1F, 0x1C31C384));
    One(PADDED_EMPTY, 33, 8, 11, 21, 0x8771F681, Regs(0xAE7813DB, 0xDF63EAA1, 0xA2205F1F, 0x1C31C384), 0x00000000, 0x975C8096, 0xE404B4BA,
        Regs(0x1C31C384, 0xC3689F5B, 0xDF63EAA1, 0xA2205F1F));
    One(PADDED_EMPTY, 34, 11, 16, 16, 0x6D9D6122, Regs(0x1C31C384, 0xC3689F5B, 0xDF63EAA1, 0xA2205F1F), 0x00000000, 0x47FA4F8B, 0x4F8B47FA,
        Regs(0xA2205F1F, 0x12F3E755, 0xC3689F5B, 0xDF63EAA1));
    One(PADDED_EMPTY, 35, 14, 23, 9, 0xFDE5380C, Regs(0xA2205F1F, 0x12F3E755, 0xC3689F5B, 0xDF63EAA1), 0x00000000, 0xAEFE29DA, 0xED577F14,
        Regs(0xDF63EAA1, 0x004B6669, 0x12F3E755, 0xC3689F5B));
    One(PADDED_EMPTY, 36, 1, 4, 28, 0xA4BEEA44, Regs(0xDF63EAA1, 0x004B6669, 0x12F3E755, 0xC3689F5B), 0x00000000, 0x55F2F34C, 0x5F2F34C5,
        Regs(0xC3689F5B, 0x5F7A9B2E, 0x004B6669, 0x12F3E755));
    One(PADDED_EMPTY, 37, 4, 11, 21, 0x4BDECFA9, Regs(0xC3689F5B, 0x5F7A9B2E, 0x004B6669, 0x12F3E755), 0x00000000, 0x5D098916, 0x4C48B2E8,
        Regs(0x12F3E755, 0xABC34E16, 0x5F7A9B2E, 0x004B6669));
    One(PADDED_EMPTY, 38, 7, 16, 16, 0xF6BB4B60, Regs(0x12F3E755, 0xABC34E16, 0x5F7A9B2E, 0x004B6669), 0x00000000, 0xFEA1E606, 0xE606FEA1,
        Regs(0x004B6669, 0x91CA4CB7, 0xABC34E16, 0x5F7A9B2E));
    One(PADDED_EMPTY, 39, 10, 23, 9, 0xBEBFBC70, Regs(0x004B6669, 0x91CA4CB7, 0xABC34E16, 0x5F7A9B2E), 0x00000000, 0x247EBC68, 0x34123F5E,
        Regs(0x5F7A9B2E, 0xC5DC8C15, 0x91CA4CB7, 0xABC34E16));
  }

  lemma EmptyTo48()
    ensures Steps(PADDED_EMPTY, IV, 48) == Regs(0x3F55EDFD, 0xCA7D2DBD, 0x68D84EA2, 0x22A31F54)
  {
    hide Steps, BlockWord, Md5Stream.Arguments, PADDED_EMPTY;
    EmptyTo40();
    EmptyWords();
    Md5Stream.Arguments40To47();
    One(PADDED_EMPTY, 40, 13, 4, 28, 0x289B7EC6, Regs(0x5F7A9B2E, 0xC5DC8C15, 0x91CA4CB7, 0xABC34E16), 0x00000000, 0x87EBA8A8, 0x7EBA8A88,
        Regs(0xABC34E16, 0x4497169D, 0xC5DC8C15, 0x91CA4CB7));
    One(PADDED_EMPTY, 41, 0, 11, 21, 0xEAA127FA, Regs(0xABC34E16, 0x4497169D, 0xC5DC8C15, 0x91CA4CB7), 0x00000080, 0xA6E64CCF, 0x32667D37,
        Regs(0x91CA4CB7, 0x76FD93D4, 0x4497169D, 0xC5DC8C15));
    One(PADDED_EMPTY, 42, 3, 16, 16, 0xD4EF3085, Regs(0x91CA4CB7, 0x76FD93D4, 0x4497169D, 0xC5DC8C15), 0x00000000, 0x5E6F8698, 0x86985E6F,
        Regs(0xC5DC8C15, 0xFD95F243, 0x76FD93D4, 0x4497169D));
    One(PADDED_EMPTY, 43, 6, 23, 9, 0x04881D05, Regs(0xC5DC8C15, 0xFD95F243, 0x76FD93D4, 0x4497169D), 0x00000000, 0x9A642024, 0x124D3210,
        Regs(0x4497169D, 0x0FE32453, 0xFD95F243, 0x76FD93D4));
    One(PADDED_EMPTY, 44, 9, 4, 28, 0xD9D4D039, Regs(0x4497169D, 0x0FE32453, 0xFD95F243, 0x76FD93D4), 0x00000000, 0xA2F72C9A, 0x2F72C9AA,
        Regs(0x76FD93D4, 0x3F55EDFD, 0x0FE32453, 0xFD95F243));
    One(PADDED_EMPTY, 45, 12, 11, 21, 0xE6DB99E5, Regs(0x76FD93D4, 0x3F55EDFD, 0x0FE32453, 0xFD95F243), 0x00000000, 0x2AFC69A6, 0xE34D3157,
        Regs(0xFD95F243, 0x22A31F54, 0x3F55EDFD, 0x0FE32453));
    One(PADDED_EMPTY, 46, 15, 16, 16, 0x1FA27CF8, Regs(0xFD95F243, 0x22A31F54, 0x3F55EDFD, 0x0FE32453), 0x00000000, 0x2F4E4635, 0x46352F4E,
        Regs(0x0FE32453, 0x68D84EA2, 0x22A31F54, 0x3F55EDFD));
    One(PADDED_EMPTY, 47, 2, 23, 9, 0xC4AC5665, Regs(0x0FE32453, 0x68D84EA2, 0x22A31F54, 0x3F55EDFD), 0x00000000, 0x49BE36C3, 0x61A4DF1B,
        Regs(0x3F55EDFD, 0xCA7D2DBD, 0x68D84EA2, 0x22A31F54));
  }

  lemma EmptyTo56()
    ensures Steps(PADDED_EMPTY, IV, 56) == Regs(0x5625A114, 0x1E77FA61, 0x392AD0D0, 0x3450F42B)
  {
    hide Steps, BlockWord, Md5Stream.Arguments, PADDED_EMPTY;
    EmptyTo48();
    EmptyWords();
    Md5Stream.Arguments48To55();
    One(PADDED_EMPTY, 48, 0, 6, 26, 0xF4292244, Regs(0x3F55EDFD, 0xCA7D2DBD, 0x68D84EA2, 0x22A31F54), 0x00000080, 0xEB24B3DE, 0xC92CF7BA,
        Regs(0x22A31F54, 0x93AA2577, 0xCA7D2DBD, 0x68D84EA2));
    One(PADDED_EMPTY, 49, 7, 10, 22, 0x432AFF97, Regs(0x22A31F54, 0x93AA2577, 0xCA7D2DBD, 0x68D84EA2), 0x00000000, 0xC3A0B7AD, 0x82DEB70E,
        Regs(0x68D84EA2, 0x1688DC85, 0x93AA2577, 0xCA7D2DBD));
    One(PADDED_EMPTY, 50, 14, 15, 17, 0xAB9423A7, Regs(0x68D84EA2, 0x1688DC85, 0x93AA2577, 0xCA7D2DBD), 0x00000000, 0xB88D6DF9, 0xB6FCDC46,
        Regs(0xCA7D2DBD, 0xCD85B8CB, 0x1688DC85, 0x93AA2577));
    One(PADDED_EMPTY, 51, 5, 21, 11, 0xFC93A039, Regs(0xCA7D2DBD, 0xCD85B8CB, 0x1688DC85, 0x93AA2577), 0x00000000, 0xC26DF444, 0x88984DBE,
        Regs(0x93AA2577, 0x561E0689, 0xCD85B8CB, 0x1688DC85));
    One(PADDED_EMPTY, 52, 12, 6, 26, 0x655B59C3, Regs(0x93AA2577, 0x561E0689, 0xCD85B8CB, 0x1688DC85), 0x00000000, 0x2C001E6A, 0x00079A8B,
        Regs(0x1688DC85, 0x5625A114, 0x561E0689, 0xCD85B8CB));
    One(PADDED_EMPTY, 53, 3, 10, 22, 0x8F0CCC92, Regs(0x1688DC85, 0x5625A114, 0x561E0689, 0xCD85B8CB), 0x00000000, 0xC5F78AD4, 0xDE2B5317,
        Regs(0xCD85B8CB, 0x3450F42B, 0x5625A114, 0x561E0689));
    One(PADDED_EMPTY, 54, 10, 15, 17, 0xFFEFF47D, Regs(0xCD85B8CB, 0x3450F42B, 0x5625A114, 0x561E0689), 0x00000000, 0xB94A09B3, 0x04D9DCA5,
        Regs(0x561E0689, 0x392AD0D0, 0x3450F42B, 0x5625A114));
    One(PADDED_EMPTY, 55, 1, 21, 11, 0x85845DD1, Regs(0x561E0689, 0x392AD0D0, 0x3450F42B, 0x5625A114), 0x00000000, 0x694C8F2A, 0xE54D2991,
        Regs(0x5625A114, 0x1E77FA61, 0x392AD0D0, 0x3450F42B));
  }

  lemma EmptyTo64()
    ensures Steps(PADDED_EMPTY, IV, 64) == Regs(0x7246FAD3, 0x14E45506, 0xFF4EA3EB, 0x6E10A476)
  {
    hide Steps, BlockWord, Md5Stream.Arguments, PADDED_EMPTY;
    EmptyTo56();
    EmptyWords();
    Md5Stream.Arguments56To63();
    One(PADDED_EMPTY, 56, 8, 6, 26, 0x6FA87E4F, Regs(0x5625A114, 0x1E77FA61, 0x392AD0D0, 0x3450F42B), 0x00000000, 0xACA34A88, 0x28D2A22B,
        Regs(0x3450F42B, 0x474A9C8C, 0x1E77FA61, 0x392AD0D0));
    One(PADDED_EMPTY, 57, 15, 10, 22, 0xFE2CE6E0, Regs(0x3450F42B, 0x474A9C8C, 0x1E77FA61, 0x392AD0D0), 0x00000000, 0x0C2620D9, 0x98836430,
        Regs(0x392AD0D0, 0xDFCE00BC, 0x474A9C8C, 0x1E77FA61));
    One(PADDED_EMPTY, 58, 6, 15, 17, 0xA3014314, Regs(0x392AD0D0, 0xDFCE00BC, 0x474A9C8C, 0x1E77FA61), 0x00000000, 0x94B0AD16, 0x568B4A58,
        Regs(0x1E77FA61, 0x36594B14, 0xDFCE00BC, 0x474A9C8C));
    One(PADDED_EMPTY, 59, 13, 21, 11, 0x4E0811A1, Regs(0x1E77FA61, 0x36594B14, 0xDFCE00BC, 0x474A9C8C), 0x00000000, 0xCDB377CD, 0xF9B9B66E,
        Regs(0x474A9C8C, 0x30130182, 0x36594B14, 0xDFCE00BC));
    One(PADDED_EMPTY, 60, 4, 6, 26, 0xF7537E82, Regs(0x474A9C8C, 0x30130182, 0x36594B14, 0xDFCE00BC), 0x00000000, 0x4508CFE5, 0x4233F951,
        Regs(0xDFCE00BC, 0x7246FAD3, 0x30130182, 0x36594B14));
    One(PADDED_EMPTY, 61, 11, 10, 22, 0xBD3AF235, Regs(0xDFCE00BC, 0x7246FAD3, 0x30130182, 0x36594B14), 0x00000000, 0x68FEF26A, 0xFBC9A9A3,
        Regs(0x36594B14, 0x6E10A476, 0x7246FAD3, 0x30130182));
    One(PADDED_EMPTY, 62, 2, 15, 17, 0x2AD7D2BB, Regs(0x36594B14, 0x6E10A476, 0x7246FAD3, 0x30130182), 0x00000000, 0xFEEB227B, 0x913DFF75,
        Regs(0x30130182, 0xFF4EA3EB, 0x6E10A476, 0x7246FAD3));
    One(PADDED_EMPTY, 63, 9, 21, 11, 0xEB86D391, Regs(0x30130182, 0xFF4EA3EB, 0x6E10A476, 0x7246FAD3), 0x00000000, 0xAD88D8AC, 0x1595B11B,
        Regs(0x7246FAD3, 0x14E45506, 0xFF4EA3EB, 0x6E10A476));
  }

  lemma DigestOfEmpty()
    ensures Digest([]) == [0xD4, 0x1D, 0x8C, 0xD9, 0x8F, 0x00, 0xB2, 0x04, 0xE9, 0x80, 0x09, 0x98, 0xEC, 0xF8, 0x42, 0x7E]
  {
    EmptyIsPadded();
    EmptyTo64();
    hide Steps, Padded;
    assert Compress(IV, PADDED_EMPTY) == Regs(0xD98C1DD4, 0x04B2008F, 0x980980E9, 0x7E42F8EC);
    assert PADDED_EMPTY[..64] == PADDED_EMPTY && PADDED_EMPTY[64..] == [];
    assert Fold(Compress, IV, PADDED_EMPTY) == Compress(IV, PADDED_EMPTY);
  }

  // ------------------------------------------------------------ "abc"

  lemma AbcTo8()
    ensures Steps(PADDED_ABC, IV, 8) == Regs(0xC73741EF, 0x928D99F6, 0x207DC67B, 0x8BAC3051)
  {
    hide Steps, BlockWord, Md5Stream.Arguments, PADDED_ABC;
    NoSteps(PADDED_ABC);
    AbcWords();
    Md5Stream.Arguments0To7();
    One(PADDED_ABC, 0, 0, 7, 25, 0xD76AA478, IV, 0x80636261, 0x57CE06D8, 0xE7036C2B,
        Regs(0x10325476, 0xD6D117B4, 0xEFCDAB89, 0x98BADCFE));
    One(PADDED_ABC, 1, 1, 12, 20, 0xE8C7B756, Regs(0x10325476, 0xD6D117B4, 0xEFCDAB89, 0x98BADCFE), 0x00000000, 0xC7E5D796, 0x5D796C7E,
        Regs(0x98BADCFE, 0x344A8432, 0xD6D117B4, 0xEFCDAB89));
    One(PADDED_ABC, 2, 2, 17, 15, 0x242070DB, Regs(0x98BADCFE, 0x344A8432, 0xD6D117B4, 0xEFCDAB89), 0x00000000, 0x9CA07D92, 0xFB253940,
        Regs(0xEFCDAB89, 0x2F6FBD72, 0x344A8432, 0xD6D117B4));
    One(PADDED_ABC, 3, 3, 22, 10, 0xC1BDCEEE, Regs(0xEFCDAB89, 0x2F6FBD72, 0x344A8432, 0xD6D117B4), 0x00000000, 0xA666012D, 0x4B699980,
        Regs(0xD6D117B4, 0x7AD956F2, 0x2F6FBD72, 0x344A8432));
    One(PADDED_ABC, 4, 4, 7, 25, 0xF57C0FAF, Regs(0xD6D117B4, 0x7AD956F2, 0x2F6FBD72, 0x344A8432), 0x00000000, 0xFA98BBD5, 0x4C5DEAFD,
        Regs(0x344A8432, 0xC73741EF, 0x7AD956F2, 0x2F6FBD72));
    One(PADDED_ABC, 5, 5, 12, 20, 0x4787C62A, Regs(0x344A8432, 0xC73741EF, 0x7AD956F2, 0x2F6FBD72), 0x00000000, 0xE62C474E, 0xC474EE62,
        Regs(0x2F6FBD72, 0x8BAC3051, 0xC73741EF, 0x7AD956F2));
    One(PADDED_ABC, 6, 6, 17, 15, 0xA8304613, Regs(0x2F6FBD72, 0x8BAC3051, 0xC73741EF, 0x7AD956F2), 0x00000000, 0xCB154A68, 0x94D1962A,
        Regs(0x7AD956F2, 0x207DC67B, 0x8BAC3051, 0xC73741EF));
    One(PADDED_ABC, 7, 7, 22, 10, 0xFD469501, Regs(0x7AD956F2, 0x207DC67B, 0x8BAC3051, 0xC73741EF), 0x00000000, 0x3F4DEDC8, 0x720FD37B,
        Regs(0xC73741EF, 0x928D99F6, 0x207DC67B, 0x8BAC3051));
  }

  lemma AbcTo16()
    ensures Steps(PADDED_ABC, IV, 16) == Regs(0xDDA9B9A6, 0x72AFF2E0, 0xE396856B, 0xA1051895)
  {
    hide Steps, BlockWord, Md5Stream.Arguments, PADDED_ABC;
    AbcTo8();
    AbcWords();
    Md5Stream.Arguments8To15();
    One(PADDED_ABC, 8, 8, 7, 25, 0x698098D8, Regs(0xC73741EF, 0x928D99F6, 0x207DC67B, 0x8BAC3051), 0x00000000, 0x39E57B3A, 0xF2BD9D1C,
        Regs(0x8BAC3051, 0x854B3712, 0x928D99F6, 0x207DC67B));
    One(PADDED_ABC, 9, 9, 12, 20, 0x8B44F7AF, Regs(0x8BAC3051, 0x854B3712, 0x928D99F6, 0x207DC67B), 0x00000000, 0xB72EF97B, 0xEF97BB72,
        Regs(0x207DC67B, 0x74E2F284, 0x854B3712, 0x928D99F6));
    One(PADDED_ABC, 10, 10, 17, 15, 0xFFFF5BB1, Regs(0x207DC67B, 0x74E2F284, 0x854B3712, 0x928D99F6), 0x00000000, 0xA6CC5D9E, 0xBB3D4D98,
        Regs(0x928D99F6, 0x3020401C, 0x74E2F284, 0x854B3712));
    One(PADDED_ABC, 11, 11, 22, 10, 0x895CD7BE, Regs(0x928D99F6, 0x3020401C, 0x74E2F284, 0x854B3712), 0x00000000, 0xD155E8BA, 0x2EB4557A,
        Regs(0x854B3712, 0x5ED49596, 0x3020401C, 0x74E2F284));
    One(PADDED_ABC, 12, 12, 7, 25, 0x6B901122, Regs(0x854B3712, 0x5ED49596, 0x3020401C, 0x74E2F284), 0x00000000, 0x20FDAA48, 0x7ED52410,
        Regs(0x74E2F284, 0xDDA9B9A6, 0x5ED49596, 0x3020401C));
    One(PADDED_ABC, 13, 13, 12, 20, 0xFD987193, Regs(0x74E2F284, 0xDDA9B9A6, 0x5ED49596, 0x3020401C), 0x00000000, 0xEEFC35B5, 0xC35B5EEF,
        Regs(0x3020401C, 0xA1051895, 0xDDA9B9A6, 0x5ED49596));
    One(PADDED_ABC, 14, 14, 17, 15, 0xA679438E, Regs(0x3020401C, 0xA1051895, 0xDDA9B9A6, 0x5ED49596), 0x00000018, 0xB66B2148, 0x42916CD6,
        Regs(0x5ED49596, 0xE396856B, 0xA1051895, 0xDDA9B9A6));
    One(PADDED_ABC, 15, 15, 22, 10, 0x49B40821, Regs(0x5ED49596, 0xE396856B, 0xA1051895, 0xDDA9B9A6), 0x00000000, 0x65B5D63C, 0x8F196D75,
        Regs(0xDDA9B9A6, 0x72AFF2E0, 0xE396856B, 0xA1051895));
  }

  lemma AbcTo24()
    ensures Steps(PADDED_ABC, IV, 24) == Regs(0x59A8FFDA, 0x47092C07, 0xABFC7920, 0x6D002F1E)
  {
    hide Steps, BlockWord, Md5Stream.Arguments, PADDED_ABC;
    AbcTo16();
    AbcWords();
    Md5Stream.Arguments16To23();
    One(PADDED_ABC, 16, 1, 5, 27, 0xF61E2562, Regs(0xDDA9B9A6, 0x72AFF2E0, 0xE396856B, 0xA1051895), 0x00000000, 0x365F74F2, 0xCBEE9E46,
        Regs(0xA1051895, 0x3E9E9126, 0x72AFF2E0, 0xE396856B));
    One(PADDED_ABC, 17, 6, 9, 23, 0xC040B340, Regs(0xA1051895, 0x3E9E9126, 0x72AFF2E0, 0xE396856B), 0x00000000, 0x9405BF77, 0x0B7EEF28,
        Regs(0xE396856B, 0x4A1D804E, 0x3E9E9126, 0x72AFF2E0));
    One(PADDED_ABC, 18, 11, 14, 18, 0x265E5A51, Regs(0xE396856B, 0x4A1D804E, 0x3E9E9126, 0x72AFF2E0), 0x00000000, 0x58126102, 0x98409604,
        Regs(0x72AFF2E0, 0xE25E1652, 0x4A1D804E, 0x3E9E9126));
    One(PADDED_ABC, 19, 0, 20, 12, 0xE9B6C7AA, Regs(0x72AFF2E0, 0xE25E1652, 0x4A1D804E, 0x3E9E9126), 0x80636261, 0x3EE92D35, 0xD353EE92,
        Regs(0x3E9E9126, 0xB5B204E4, 0xE25E1652, 0x4A1D804E));
    One(PADDED_ABC, 20, 5, 5, 27, 0xD62F105D, Regs(0x3E9E9126, 0xB5B204E4, 0xE25E1652, 0x4A1D804E), 0x00000000, 0xB51FB7D7, 0xA3F6FAF6,
        Regs(0x4A1D804E, 0x59A8FFDA, 0xB5B204E4, 0xE25E1652));
    One(PADDED_ABC, 21, 10, 9, 23, 0x02441453, Regs(0x4A1D804E, 0x59A8FFDA, 0xB5B204E4, 0xE25E1652), 0x00000000, 0xA209AB97, 0x13572F44,
        Regs(0xE25E1652, 0x6D002F1E, 0x59A8FFDA, 0xB5B204E4));
    One(PADDED_ABC, 22, 15, 14, 18, 0xD8A1E681, Regs(0xE25E1652, 0x6D002F1E, 0x59A8FFDA, 0xB5B204E4), 0x00000000, 0x2808FBF1, 0x3EFC4A02,
        Regs(0xB5B204E4, 0xABFC7920, 0x6D002F1E, 0x59A8FFDA));
    One(PADDED_ABC, 23, 4, 20, 12, 0xE7D3FBC8, Regs(0xB5B204E4, 0xABFC7920, 0x6D002F1E, 0x59A8FFDA), 0x00000000, 0xCB2E79B0, 0x9B0CB2E7,
        Regs(0x59A8FFDA, 0x47092C07, 0xABFC7920, 0x6D002F1E));
  }

  lemma AbcTo32()
    ensures Steps(PADDED_ABC, IV, 32) == Regs(0x790A77FB, 0x726342D3, 0xA62884AA, 0x9F47E4F8)
  {
    hide Steps, BlockWord, Md5Stream.Arguments, PADDED_ABC;
    AbcTo24();
    AbcWords();
    Md5Stream.Arguments24To31();
    One(PADDED_ABC, 24, 9, 5, 27, 0x21E1CDE6, Regs(0x59A8FFDA, 0x47092C07, 0xABFC7920, 0x6D002F1E), 0x00000000, 0x438749E6, 0x70E93CC8,
        Regs(0x6D002F1E, 0xB7F268CF, 0x47092C07, 0xABFC7920));
    One(PADDED_ABC, 25, 14, 9, 23, 0xC33707D6, Regs(0x6D002F1E, 0xB7F268CF, 0x47092C07, 0xABFC7920), 0x00000018, 0x1828A313, 0x51462630,
        Regs(0xABFC7920, 0x09388EFF, 0xB7F268CF, 0x47092C07));
    One(PADDED_ABC, 26, 3, 14, 18, 0xF4D50D87, Regs(0xABFC7920, 0x09388EFF, 0xB7F268CF, 0x47092C07), 0x00000000, 0x52CBD376, 0xF4DD94B2,
        Regs(0x47092C07, 0xFE1623B1, 0x09388EFF, 0xB7F268CF));
    One(PADDED_ABC, 27, 8, 20, 12, 0x455A14ED, Regs(0x47092C07, 0xFE1623B1, 0x09388EFF, 0xB7F268CF), 0x00000000, 0x4A7DE7A5, 0x7A54A7DE,
        Regs(0xB7F268CF, 0x786ACB8F, 0xFE1623B1, 0x09388EFF));
    One(PADDED_ABC, 28, 13, 5, 27, 0xA9E3E905, Regs(0xB7F268CF, 0x786ACB8F, 0xFE1623B1, 0x09388EFF), 0x00000000, 0x6004FD63, 0x009FAC6C,
        Regs(0x09388EFF, 0x790A77FB, 0x786ACB8F, 0xFE1623B1));
    One(PADDED_ABC, 29, 2, 9, 23, 0xFCEFA3F8, Regs(0x09388EFF, 0x790A77FB, 0x786ACB8F, 0xFE1623B1), 0x00000000, 0x7E931EB6, 0x263D6CFD,
        Regs(0xFE1623B1, 0x9F47E4F8, 0x790A77FB, 0x786ACB8F));
    One(PADDED_ABC, 30, 7, 14, 18, 0x676F02D9, Regs(0xFE1623B1, 0x9F47E4F8, 0x790A77FB, 0x786ACB8F), 0x00000000, 0x7EC81B82, 0x06E09FB2,
        Regs(0x786ACB8F, 0xA62884AA, 0x9F47E4F8, 0x790A77FB));
    One(PADDED_ABC, 31, 12, 20, 12, 0x8D2A4C8A, Regs(0x786ACB8F, 0xA62884AA, 0x9F47E4F8, 0x790A77FB), 0x00000000, 0xABE29CC3, 0xCC3ABE29,
        Regs(0x790A77FB, 0x726342D3, 0xA62884AA, 0x9F47E4F8));
  }

  lemma AbcTo40()
    ensures Steps(PADDED_ABC, IV, 40) == Regs(0x21B117B9, 0x5A2F5EA5, 0x3575227E, 0x6E7429D5)
  {
    hide Steps, BlockWord, Md5Stream.Arguments, PADDED_ABC;
    AbcTo32();
    AbcWords();
    Md5Stream.Arguments32To39();
    One(PADDED_ABC, 32, 5, 4, 28, 0xFFFA3942, Regs(0x790A77FB, 0x726342D3, 0xA62884AA, 0x9F47E4F8), 0x00000000, 0xC410D3BE, 0x410D3BEC,
        Regs(0x9F47E4F8, 0xB3707EBF, 0x726342D3, 0xA62884AA));
    One(PADDED_ABC, 33, 8, 11, 21, 0x8771F681, Regs(0x9F47E4F8, 0xB3707EBF, 0x726342D3, 0xA62884AA), 0x00000000, 0x8DF5943F, 0xACA1FC6F,
        Regs(0xA62884AA, 0x60127B2E, 0xB3707EBF, 0x726342D3));
    One(PADDED_ABC, 34, 11, 16, 16, 0x6D9D6122, Regs(0xA62884AA, 0x60127B2E, 0xB3707EBF, 0x726342D3), 0x00000000, 0xB4C72D0E, 0x2D0EB4C7,
        Regs(0x726342D3, 0x8D212FF5, 0x60127B2E, 0xB3707EBF));
    One(PADDED_ABC, 35, 14, 23, 9, 0xFDE5380C, Regs(0x726342D3, 0x8D212FF5, 0x60127B2E, 0xB3707EBF), 0x00000018, 0xCE8BA55B, 0xADE745D2,
        Regs(0xB3707EBF, 0x3B0875C7, 0x8D212FF5, 0x60127B2E));
    One(PADDED_ABC, 36, 1, 4, 28, 0xA4BEEA44, Regs(0xB3707EBF, 0x3B0875C7, 0x8D212FF5, 0x60127B2E), 0x00000000, 0x2E6A8A1F, 0xE6A8A1F2,
        Regs(0x60127B2E, 0x21B117B9, 0x3B0875C7, 0x8D212FF5));
    One(PADDED_ABC, 37, 4, 11, 21, 0x4BDECFA9, Regs(0x60127B2E, 0x21B117B9, 0x3B0875C7, 0x8D212FF5), 0x00000000, 0x43899862, 0x4CC3121C,
        Regs(0x8D212FF5, 0x6E7429D5, 0x21B117B9, 0x3B0875C7));
    One(PADDED_ABC, 38, 7, 16, 16, 0xF6BB4B60, Regs(0x8D212FF5, 0x6E7429D5, 0x21B117B9, 0x3B0875C7), 0x00000000, 0xF8A9C700, 0xC700F8A9,
        Regs(0x3B0875C7, 0x3575227E, 0x6E7429D5, 0x21B117B9));
    One(PADDED_ABC, 39, 10, 23, 9, 0xBEBFBC70, Regs(0x3B0875C7, 0x3575227E, 0x6E7429D5, 0x21B117B9), 0x00000000, 0x74784E49, 0x24BA3C27,
        Regs(0x21B117B9, 0x5A2F5EA5, 0x3575227E, 0x6E7429D5));
  }

  lemma AbcTo48()
    ensures Steps(PADDED_ABC, IV, 48) == Regs(0x7F2E507B, 0x7BEB9700, 0x8FAE6399, 0x99D9679D)
  {
    hide Steps, BlockWord, Md5Stream.Arguments, PADDED_ABC;
    AbcTo40();
    AbcWords();
    Md5Stream.Arguments40To47();
    One(PADDED_ABC, 40, 13, 4, 28, 0x289B7EC6, Regs(0x21B117B9, 0x5A2F5EA5, 0x3575227E, 0x6E7429D5), 0x00000000, 0x4B7AEB8D, 0xB7AEB8D4,
        Regs(0x6E7429D5, 0x11DE1779, 0x5A2F5EA5, 0x3575227E));
    One(PADDED_ABC, 41, 0, 11, 21, 0xEAA127FA, Regs(0x6E7429D5, 0x11DE1779, 0x5A2F5EA5, 0x3575227E), 0x80636261, 0x57FD1FD2, 0xE8FE92BF,
        Regs(0x3575227E, 0xFADCAA38, 0x11DE1779, 0x5A2F5EA5));
    One(PADDED_ABC, 42, 3, 16, 16, 0xD4EF3085, Regs(0x3575227E, 0xFADCAA38, 0x11DE1779, 0x5A2F5EA5), 0x00000000, 0xBB9236E7, 0x36E7BB92,
        Regs(0x5A2F5EA5, 0x31C465CA, 0xFADCAA38, 0x11DE1779));
    One(PADDED_ABC, 43, 6, 23, 9, 0x04881D05, Regs(0x5A2F5EA5, 0x31C465CA, 0xFADCAA38, 0x11DE1779), 0x00000000, 0x397E5435, 0x1A9CBF2A,
        Regs(0x11DE1779, 0x4C6124F4, 0x31C465CA, 0xFADCAA38));
    One(PADDED_ABC, 44, 9, 4, 28, 0xD9D4D039, Regs(0x11DE1779, 0x4C6124F4, 0x31C465CA, 0xFADCAA38), 0x00000000, 0x732CD2B8, 0x32CD2B87,
        Regs(0xFADCAA38, 0x7F2E507B, 0x4C6124F4, 0x31C465CA));
    One(PADDED_ABC, 45, 12, 11, 21, 0xE6DB99E5, Regs(0xFADCAA38, 0x7F2E507B, 0x4C6124F4, 0x31C465CA), 0x00000000, 0xE4435562, 0x1AAB1722,
        Regs(0x31C465CA, 0x99D9679D, 0x7F2E507B, 0x4C6124F4));
    One(PADDED_ABC, 46, 15, 16, 16, 0x1FA27CF8, Regs(0x31C465CA, 0x99D9679D, 0x7F2E507B, 0x4C6124F4), 0x00000000, 0xFBFCF5D4, 0xF5D4FBFC,
        Regs(0x4C6124F4, 0x8FAE6399, 0x99D9679D, 0x7F2E507B));
    One(PADDED_ABC, 47, 2, 23, 9, 0xC4AC5665, Regs(0x4C6124F4, 0x8FAE6399, 0x99D9679D, 0x7F2E507B), 0x00000000, 0x7A66CFD8, 0xEC3D3367,
        Regs(0x7F2E507B, 0x7BEB9700, 0x8FAE6399, 0x99D9679D));
  }

  lemma AbcTo56()
    ensures Steps(PADDED_ABC, IV, 56) == Regs(0x06CC5E8A, 0x3BFA2C27, 0x7D632DD0, 0x5B0D97AA)
  {
    hide Steps, BlockWord, Md5Stream.Arguments, PADDED_ABC;
    AbcTo48();
    AbcWords();
    Md5Stream.Arguments48To55();
    One(PADDED_ABC, 48, 0, 6, 26, 0xF4292244, Regs(0x7F2E507B, 0x7BEB9700, 0x8FAE6399, 0x99D9679D), 0x80636261, 0xE3FCD21B, 0xFF3486F8,
        Regs(0x99D9679D, 0x7B201DF8, 0x7BEB9700, 0x8FAE6399));
    One(PADDED_ABC, 49, 7, 10, 22, 0x432AFF97, Regs(0x99D9679D, 0x7B201DF8, 0x7BEB9700, 0x8FAE6399), 0x00000000, 0xDD9E7232, 0x79C8CB76,
        Regs(0x8FAE6399, 0xF4E8E96E, 0x7B201DF8, 0x7BEB9700));
    One(PADDED_ABC, 50, 14, 15, 17, 0xAB9423A7, Regs(0x8FAE6399, 0xF4E8E96E, 0x7B201DF8, 0x7BEB9700), 0x00000018, 0xCB1F7B5F, 0xBDAFE58F,
        Regs(0x7BEB9700, 0xB298CEFD, 0xF4E8E96E, 0x7B201DF8));
    One(PADDED_ABC, 51, 5, 21, 11, 0xFC93A039, Regs(0x7BEB9700, 0xB298CEFD, 0xF4E8E96E, 0x7B201DF8), 0x00000000, 0xBAB63ECA, 0xD95756C7,
        Regs(0x7B201DF8, 0x8BF025C4, 0xB298CEFD, 0xF4E8E96E));
    One(PADDED_ABC, 52, 12, 6, 26, 0x655B59C3, Regs(0x7B201DF8, 0x8BF025C4, 0xB298CEFD, 0xF4E8E96E), 0x00000000, 0x19EB70E3, 0x7ADC38C6,
        Regs(0xF4E8E96E, 0x06CC5E8A, 0x8BF025C4, 0xB298CEFD));
    One(PADDED_ABC, 53, 3, 10, 22, 0x8F0CCC92, Regs(0xF4E8E96E, 0x06CC5E8A, 0x8BF025C4, 0xB298CEFD), 0x00000000, 0x4815104E, 0x54413920,
        Regs(0xB298CEFD, 0x5B0D97AA, 0x06CC5E8A, 0x8BF025C4));
    One(PADDED_ABC, 54, 10, 15, 17, 0xFFEFF47D, Regs(0xB298CEFD, 0x5B0D97AA, 0x06CC5E8A, 0x8BF025C4), 0x00000000, 0x2C4C44AB, 0x22559626,
        Regs(0x8BF025C4, 0x7D632DD0, 0x5B0D97AA, 0x06CC5E8A));
    One(PADDED_ABC, 55, 1, 21, 11, 0x85845DD1, Regs(0x8BF025C4, 0x7D632DD0, 0x5B0D97AA, 0x06CC5E8A), 0x00000000, 0xB7F2BDF4, 0xBE96FE57,
        Regs(0x06CC5E8A, 0x3BFA2C27, 0x7D632DD0, 0x5B0D97AA));
  }

  lemma AbcTo64()
    ensures Steps(PADDED_ABC, IV, 64) == Regs(0x310ADE8F, 0xC08226B3, 0xE484B9D8, 0x624D8CB2)
  {
    hide Steps, BlockWord, Md5Stream.Arguments, PADDED_ABC;
    AbcTo56();
    AbcWords();
    Md5Stream.Arguments56To63();
    One(PADDED_ABC, 56, 8, 6, 26, 0x6FA87E4F, Regs(0x06CC5E8A, 0x3BFA2C27, 0x7D632DD0, 0x5B0D97AA), 0x00000000, 0x390E1E80, 0x4387A00E,
        Regs(0x5B0D97AA, 0x7F81CC35, 0x3BFA2C27, 0x7D632DD0));
    One(PADDED_ABC, 57, 15, 10, 22, 0xFE2CE6E0, Regs(0x5B0D97AA, 0x7F81CC35, 0x3BFA2C27, 0x7D632DD0), 0x00000000, 0x1DA270A2, 0x89C28876,
        Regs(0x7D632DD0, 0x094454AB, 0x7F81CC35, 0x3BFA2C27));
    One(PADDED_ABC, 58, 6, 15, 17, 0xA3014314, Regs(0x7D632DD0, 0x094454AB, 0x7F81CC35, 0x3BFA2C27), 0x00000000, 0xD3288CB2, 0x46596994,
        Regs(0x3BFA2C27, 0x4F9DBE3F, 0x094454AB, 0x7F81CC35));
    One(PADDED_ABC, 59, 13, 21, 11, 0x4E0811A1, Regs(0x3BFA2C27, 0x4F9DBE3F, 0x094454AB, 0x7F81CC35), 0x00000000, 0x50BE291C, 0x238A17C5,
        Regs(0x7F81CC35, 0x7327D604, 0x4F9DBE3F, 0x094454AB));
    One(PADDED_ABC, 60, 4, 6, 26, 0xF7537E82, Regs(0x7F81CC35, 0x7327D604, 0x4F9DBE3F, 0x094454AB), 0x00000000, 0x2EF78C22, 0xBDE3088B,
        Regs(0x094454AB, 0x310ADE8F, 0x7327D604, 0x4F9DBE3F));
    One(PADDED_ABC, 61, 11, 10, 22, 0xBD3AF235, Regs(0x094454AB, 0x310ADE8F, 0x7327D604, 0x4F9DBE3F), 0x00000000, 0x88CC50AB, 0x3142AE23,
        Regs(0x4F9DBE3F, 0x624D8CB2, 0x310ADE8F, 0x7327D604));
    One(PADDED_ABC, 62, 2, 15, 17, 0x2AD7D2BB, Regs(0x4F9DBE3F, 0x624D8CB2, 0x310ADE8F, 0x7327D604), 0x00000000, 0x5A4D046E, 0x82372D26,
        Regs(0x7327D604, 0xE484B9D8, 0x624D8CB2, 0x310ADE8F));
    One(PADDED_ABC, 63, 9, 21, 11, 0xEB86D391, Regs(0x7327D604, 0xE484B9D8, 0x624D8CB2, 0x310ADE8F), 0x00000000, 0xEB66DEDF, 0xDBFD6CDB,
        Regs(0x310ADE8F, 0xC08226B3, 0xE484B9D8, 0x624D8CB2));
  }

  lemma DigestOfAbc()
    ensures Digest(ABC) == [0x90, 0x01, 0x50, 0x98, 0x3C, 0xD2, 0x4F, 0xB0, 0xD6, 0x96, 0x3F, 0x7D, 0x28, 0xE1, 0x7F, 0x72]
  {
    AbcIsPadded();
    AbcTo64();
    hide Steps, Padded;
    assert Compress(IV, PADDED_ABC) == Regs(0x98500190, 0xB04FD23C, 0x7D3F96D6, 0x727FE128);
    assert PADDED_ABC[..64] == PADDED_ABC && PADDED_ABC[64..] == [];
    assert Fold(Compress, IV, PADDED_ABC) == Compress(IV, PADDED_ABC);
  }
}
