/** The message "abc" of appendix A of FIPS 180-1: its schedule, its registers round by round,
    and its digest. The other theorems about SHA-1 relate the code to the functions of the
    standard as written in this project; this one ties those functions to the standard: the
    initial value, F, K, the rotations, the padding and the byte order all enter. */
module Sha1Vector {
  import opened Blocks
  import opened Words
  import opened Sha1

  const ABC: seq<byte> := [0x61, 0x62, 0x63]

  /** The message with its padding. */
  const LENGTH_ABC: seq<byte> := [0, 0, 0, 0, 0, 0, 0, 24]

  const PADDED_ABC: Block := ABC + ([0x80] + Zeros(52)) + LENGTH_ABC

  lemma PaddedBytes()
    ensures PADDED_ABC[0] == 0x61 && PADDED_ABC[1] == 0x62 && PADDED_ABC[2] == 0x63 && PADDED_ABC[3] == 0x80
    ensures forall i :: 4 <= i < 63 ==> PADDED_ABC[i] == 0
    ensures PADDED_ABC[63] == 24
  {
    var tail := [0x80] + Zeros(52);
    assert forall i :: 1 <= i < 53 ==> tail[i] == 0;
    assert forall i :: 3 <= i < 56 ==> PADDED_ABC[i] == tail[i - 3];
    assert forall i :: 56 <= i < 64 ==> PADDED_ABC[i] == LENGTH_ABC[i - 56];
  }

  lemma LengthOfAbc()
    ensures LengthBE(3) == LENGTH_ABC
  {
    hide LengthBE;
    ShortLength(3);
  }

  lemma AbcIsPadded()
    ensures Padded(ABC, LengthBE(3)) == PADDED_ABC
  {
    LengthOfAbc();
    PaddingIs(53);
    hide LengthBE, PADDING, Zeros;
    assert PaddingLength(3) == 53;
  }

  // ------------------------------------------------------------ the schedule

  lemma GivenWords()
    ensures W(PADDED_ABC, 0) == 0x61626380 && W(PADDED_ABC, 15) == 24
    ensures forall t :: 0 < t < 15 ==> W(PADDED_ABC, t) == 0
  {
    PaddedBytes();
    forall t | 0 < t < 15 ensures W(PADDED_ABC, t) == 0 {
      assert PADDED_ABC[4 * t] == PADDED_ABC[4 * t + 1] == PADDED_ABC[4 * t + 2] == PADDED_ABC[4 * t + 3] == 0;
    }
  }

  /** The next word from four earlier ones. */
  lemma Next(t: nat, a: Word, b: Word, c: Word, d: Word, w: Word)
    requires t >= 16
    requires W(PADDED_ABC, t - 3) == a && W(PADDED_ABC, t - 8) == b && W(PADDED_ABC, t - 14) == c && W(PADDED_ABC, t - 16) == d
    requires Rotl1(a ^ b ^ c ^ d) == w
    ensures W(PADDED_ABC, t) == w
  {
    WUnfolds(PADDED_ABC, t);
  }

  lemma Words16To31()
    ensures W(PADDED_ABC, 16) == 0xC2C4C700
    ensures W(PADDED_ABC, 17) == 0x00000000
    ensures W(PADDED_ABC, 18) == 0x00000030
    ensures W(PADDED_ABC, 19) == 0x85898E01
    ensures W(PADDED_ABC, 20) == 0x00000000
    ensures W(PADDED_ABC, 21) == 0x00000060
    ensures W(PADDED_ABC, 22) == 0x0B131C03
    ensures W(PADDED_ABC, 23) == 0x00000030
    ensures W(PADDED_ABC, 24) == 0x85898EC1
    ensures W(PADDED_ABC, 25) == 0x16263806
    ensures W(PADDED_ABC, 26) == 0x00000000
    ensures W(PADDED_ABC, 27) == 0x00000180
    ensures W(PADDED_ABC, 28) == 0x2C4C700C
    ensures W(PADDED_ABC, 29) == 0x000000F0
    ensures W(PADDED_ABC, 30) == 0x93AFB507
    ensures W(PADDED_ABC, 31) == 0x5898E048
  {
    hide W;
    GivenWords();
    Next(16, 0x00000000, 0x00000000, 0x00000000, 0x61626380, 0xC2C4C700);
    Next(17, 0x00000000, 0x00000000, 0x00000000, 0x00000000, 0x00000000);
    Next(18, 0x00000018, 0x00000000, 0x00000000, 0x00000000, 0x00000030);
    Next(19, 0xC2C4C700, 0x00000000, 0x00000000, 0x00000000, 0x85898E01);
    Next(20, 0x00000000, 0x00000000, 0x00000000, 0x00000000, 0x00000000);
    Next(21, 0x00000030, 0x00000000, 0x00000000, 0x00000000, 0x00000060);
    Next(22, 0x85898E01, 0x00000000, 0x00000000, 0x00000000, 0x0B131C03);
    Next(23, 0x00000000, 0x00000018, 0x00000000, 0x00000000, 0x00000030);
    Next(24, 0x00000060, 0xC2C4C700, 0x00000000, 0x00000000, 0x85898EC1);
    Next(25, 0x0B131C03, 0x00000000, 0x00000000, 0x00000000, 0x16263806);
    Next(26, 0x00000030, 0x00000030, 0x00000000, 0x00000000, 0x00000000);
    Next(27, 0x85898EC1, 0x85898E01, 0x00000000, 0x00000000, 0x00000180);
    Next(28, 0x16263806, 0x00000000, 0x00000000, 0x00000000, 0x2C4C700C);
    Next(29, 0x00000000, 0x00000060, 0x00000018, 0x00000000, 0x000000F0);
    Next(30, 0x00000180, 0x0B131C03, 0xC2C4C700, 0x00000000, 0x93AFB507);
    Next(31, 0x2C4C700C, 0x00000030, 0x00000000, 0x00000018, 0x5898E048);
  }

  lemma Words32To47()
    ensures W(PADDED_ABC, 32) == 0x8E9A9202
    ensures W(PADDED_ABC, 33) == 0x00000600
    ensures W(PADDED_ABC, 34) == 0xB131C0F0
    ensures W(PADDED_ABC, 35) == 0x16263BC6
    ensures W(PADDED_ABC, 36) == 0x4EBED41E
    ensures W(PADDED_ABC, 37) == 0x626380A1
    ensures W(PADDED_ABC, 38) == 0x16263806
    ensures W(PADDED_ABC, 39) == 0x000018C0
    ensures W(PADDED_ABC, 40) == 0xD2E138C4
    ensures W(PADDED_ABC, 41) == 0x00000F00
    ensures W(PADDED_ABC, 42) == 0x3AFB5079
    ensures W(PADDED_ABC, 43) == 0x898E04E5
    ensures W(PADDED_ABC, 44) == 0xE2BA3C2B
    ensures W(PADDED_ABC, 45) == 0x000060C0
    ensures W(PADDED_ABC, 46) == 0x053A37CD
    ensures W(PADDED_ABC, 47) == 0x74458547
  {
    hide W;
    Words16To31();
    Next(32, 0x000000F0, 0x85898EC1, 0x00000030, 0xC2C4C700, 0x8E9A9202);
    Next(33, 0x93AFB507, 0x16263806, 0x85898E01, 0x00000000, 0x00000600);
    Next(34, 0x5898E048, 0x00000000, 0x00000000, 0x00000030, 0xB131C0F0);
    Next(35, 0x8E9A9202, 0x00000180, 0x00000060, 0x85898E01, 0x16263BC6);
    Next(36, 0x00000600, 0x2C4C700C, 0x0B131C03, 0x00000000, 0x4EBED41E);
    Next(37, 0xB131C0F0, 0x000000F0, 0x00000030, 0x00000060, 0x626380A1);
    Next(38, 0x16263BC6, 0x93AFB507, 0x85898EC1, 0x0B131C03, 0x16263806);
    Next(39, 0x4EBED41E, 0x5898E048, 0x16263806, 0x00000030, 0x000018C0);
    Next(40, 0x626380A1, 0x8E9A9202, 0x00000000, 0x85898EC1, 0xD2E138C4);
    Next(41, 0x16263806, 0x00000600, 0x00000180, 0x16263806, 0x00000F00);
    Next(42, 0x000018C0, 0xB131C0F0, 0x2C4C700C, 0x00000000, 0x3AFB5079);
    Next(43, 0xD2E138C4, 0x16263BC6, 0x000000F0, 0x00000180, 0x898E04E5);
    Next(44, 0x00000F00, 0x4EBED41E, 0x93AFB507, 0x2C4C700C, 0xE2BA3C2B);
    Next(45, 0x3AFB5079, 0x626380A1, 0x5898E048, 0x000000F0, 0x000060C0);
    Next(46, 0x898E04E5, 0x16263806, 0x8E9A9202, 0x93AFB507, 0x053A37CD);
    Next(47, 0xE2BA3C2B, 0x000018C0, 0x00000600, 0x5898E048, 0x74458547);
  }

  lemma Words48To63()
    ensures W(PADDED_ABC, 48) == 0xDA9415ED
    ensures W(PADDED_ABC, 49) == 0x26380A16
    ensures W(PADDED_ABC, 50) == 0x626383A1
    ensures W(PADDED_ABC, 51) == 0x4EBF54DE
    ensures W(PADDED_ABC, 52) == 0x3835B44B
    ensures W(PADDED_ABC, 53) == 0x0000F600
    ensures W(PADDED_ABC, 54) == 0x1E84C7A3
    ensures W(PADDED_ABC, 55) == 0x98E04D98
    ensures W(PADDED_ABC, 56) == 0x651D16A0
    ensures W(PADDED_ABC, 57) == 0x62658CA1
    ensures W(PADDED_ABC, 58) == 0x458544D6
    ensures W(PADDED_ABC, 59) == 0x44584CB7
    ensures W(PADDED_ABC, 60) == 0x7BA06619
    ensures W(PADDED_ABC, 61) == 0x6380AEA2
    ensures W(PADDED_ABC, 62) == 0x0AE55269
    ensures W(PADDED_ABC, 63) == 0x627B49A1
  {
    hide W;
    Words32To47();
    Next(48, 0x000060C0, 0xD2E138C4, 0xB131C0F0, 0x8E9A9202, 0xDA9415ED);
    Next(49, 0x053A37CD, 0x00000F00, 0x16263BC6, 0x00000600, 0x26380A16);
    Next(50, 0x74458547, 0x3AFB5079, 0x4EBED41E, 0xB131C0F0, 0x626383A1);
    Next(51, 0xDA9415ED, 0x898E04E5, 0x626380A1, 0x16263BC6, 0x4EBF54DE);
    Next(52, 0x26380A16, 0xE2BA3C2B, 0x16263806, 0x4EBED41E, 0x3835B44B);
    Next(53, 0x626383A1, 0x000060C0, 0x000018C0, 0x626380A1, 0x0000F600);
    Next(54, 0x4EBF54DE, 0x053A37CD, 0xD2E138C4, 0x16263806, 0x1E84C7A3);
    Next(55, 0x3835B44B, 0x74458547, 0x00000F00, 0x000018C0, 0x98E04D98);
    Next(56, 0x0000F600, 0xDA9415ED, 0x3AFB5079, 0xD2E138C4, 0x651D16A0);
    Next(57, 0x1E84C7A3, 0x26380A16, 0x898E04E5, 0x00000F00, 0x62658CA1);
    Next(58, 0x98E04D98, 0x626383A1, 0xE2BA3C2B, 0x3AFB5079, 0x458544D6);
    Next(59, 0x651D16A0, 0x4EBF54DE, 0x000060C0, 0x898E04E5, 0x44584CB7);
    Next(60, 0x62658CA1, 0x3835B44B, 0x053A37CD, 0xE2BA3C2B, 0x7BA06619);
    Next(61, 0x458544D6, 0x0000F600, 0x74458547, 0x000060C0, 0x6380AEA2);
    Next(62, 0x44584CB7, 0x1E84C7A3, 0xDA9415ED, 0x053A37CD, 0x0AE55269);
    Next(63, 0x7BA06619, 0x98E04D98, 0x26380A16, 0x74458547, 0x627B49A1);
  }

  lemma Words64To79()
    ensures W(PADDED_ABC, 64) == 0x7CD45C9D
    ensures W(PADDED_ABC, 65) == 0x000F0000
    ensures W(PADDED_ABC, 66) == 0xFB50753A
    ensures W(PADDED_ABC, 67) == 0xEC6765E8
    ensures W(PADDED_ABC, 68) == 0xBA3C2BE2
    ensures W(PADDED_ABC, 69) == 0x0060C000
    ensures W(PADDED_ABC, 70) == 0x3A37CD05
    ensures W(PADDED_ABC, 71) == 0x458546F4
    ensures W(PADDED_ABC, 72) == 0xB8599DD6
    ensures W(PADDED_ABC, 73) == 0x380A1A26
    ensures W(PADDED_ABC, 74) == 0x01E02203
    ensures W(PADDED_ABC, 75) == 0xE7CC3456
    ensures W(PADDED_ABC, 76) == 0xE6E60B69
    ensures W(PADDED_ABC, 77) == 0x00F60A00
    ensures W(PADDED_ABC, 78) == 0x5795EF4F
    ensures W(PADDED_ABC, 79) == 0x822E0879
  {
    hide W;
    Words48To63();
    Next(64, 0x6380AEA2, 0x651D16A0, 0x626383A1, 0xDA9415ED, 0x7CD45C9D);
    Next(65, 0x0AE55269, 0x62658CA1, 0x4EBF54DE, 0x26380A16, 0x000F0000);
    Next(66, 0x627B49A1, 0x458544D6, 0x3835B44B, 0x626383A1, 0xFB50753A);
    Next(67, 0x7CD45C9D, 0x44584CB7, 0x0000F600, 0x4EBF54DE, 0xEC6765E8);
    Next(68, 0x000F0000, 0x7BA06619, 0x1E84C7A3, 0x3835B44B, 0xBA3C2BE2);
    Next(69, 0xFB50753A, 0x6380AEA2, 0x98E04D98, 0x0000F600, 0x0060C000);
    Next(70, 0xEC6765E8, 0x0AE55269, 0x651D16A0, 0x1E84C7A3, 0x3A37CD05);
    Next(71, 0xBA3C2BE2, 0x627B49A1, 0x62658CA1, 0x98E04D98, 0x458546F4);
    Next(72, 0x0060C000, 0x7CD45C9D, 0x458544D6, 0x651D16A0, 0xB8599DD6);
    Next(73, 0x3A37CD05, 0x000F0000, 0x44584CB7, 0x62658CA1, 0x380A1A26);
    Next(74, 0x458546F4, 0xFB50753A, 0x7BA06619, 0x458544D6, 0x01E02203);
    Next(75, 0xB8599DD6, 0xEC6765E8, 0x6380AEA2, 0x44584CB7, 0xE7CC3456);
    Next(76, 0x380A1A26, 0xBA3C2BE2, 0x0AE55269, 0x7BA06619, 0xE6E60B69);
    Next(77, 0x01E02203, 0x0060C000, 0x627B49A1, 0x6380AEA2, 0x00F60A00);
    Next(78, 0xE7CC3456, 0x3A37CD05, 0x7CD45C9D, 0x0AE55269, 0x5795EF4F);
    Next(79, 0xE6E60B69, 0x458546F4, 0x000F0000, 0x627B49A1, 0x822E0879);
  }

  // ------------------------------------------------------------ the rounds

  /** One round. */
  lemma Round(t: nat, r: Regs, w: Word, r': Regs)
    requires Rounds(PADDED_ABC, IV, t) == r && W(PADDED_ABC, t) == w && RoundStep(t, r, w) == r'
    ensures Rounds(PADDED_ABC, IV, t + 1) == r'
  {
    hide W, RoundStep;
  }

  lemma NoRounds()
    ensures Rounds(PADDED_ABC, IV, 0) == IV
  {
  }

  lemma RoundsTo10()
    ensures Rounds(PADDED_ABC, IV, 10) == Regs(0x8351F929, 0x4B6AE328, 0x27A301F5, 0x664F8C30, 0x0FF1F290)
  {
    hide W, Rounds;
    NoRounds();
    GivenWords();
    Round(0, IV, 0x61626380, Regs(0x0116FC33, 0x67452301, 0x7BF36AE2, 0x98BADCFE, 0x10325476));
    Round(1, Regs(0x0116FC33, 0x67452301, 0x7BF36AE2, 0x98BADCFE, 0x10325476), 0x00000000, Regs(0x8990536D, 0x0116FC33, 0x59D148C0, 0x7BF36AE2, 0x98BADCFE));
    Round(2, Regs(0x8990536D, 0x0116FC33, 0x59D148C0, 0x7BF36AE2, 0x98BADCFE), 0x00000000, Regs(0xA1390F08, 0x8990536D, 0xC045BF0C, 0x59D148C0, 0x7BF36AE2));
    Round(3, Regs(0xA1390F08, 0x8990536D, 0xC045BF0C, 0x59D148C0, 0x7BF36AE2), 0x00000000, Regs(0xCDD8E11B, 0xA1390F08, 0x626414DB, 0xC045BF0C, 0x59D148C0));
    Round(4, Regs(0xCDD8E11B, 0xA1390F08, 0x626414DB, 0xC045BF0C, 0x59D148C0), 0x00000000, Regs(0xCFD499DE, 0xCDD8E11B, 0x284E43C2, 0x626414DB, 0xC045BF0C));
    Round(5, Regs(0xCFD499DE, 0xCDD8E11B, 0x284E43C2, 0x626414DB, 0xC045BF0C), 0x00000000, Regs(0x3FC7CA40, 0xCFD499DE, 0xF3763846, 0x284E43C2, 0x626414DB));
    Round(6, Regs(0x3FC7CA40, 0xCFD499DE, 0xF3763846, 0x284E43C2, 0x626414DB), 0x00000000, Regs(0x993E30C1, 0x3FC7CA40, 0xB3F52677, 0xF3763846, 0x284E43C2));
    Round(7, Regs(0x993E30C1, 0x3FC7CA40, 0xB3F52677, 0xF3763846, 0x284E43C2), 0x00000000, Regs(0x9E8C07D4, 0x993E30C1, 0x0FF1F290, 0xB3F52677, 0xF3763846));
    Round(8, Regs(0x9E8C07D4, 0x993E30C1, 0x0FF1F290, 0xB3F52677, 0xF3763846), 0x00000000, Regs(0x4B6AE328, 0x9E8C07D4, 0x664F8C30, 0x0FF1F290, 0xB3F52677));
    Round(9, Regs(0x4B6AE328, 0x9E8C07D4, 0x664F8C30, 0x0FF1F290, 0xB3F52677), 0x00000000, Regs(0x8351F929, 0x4B6AE328, 0x27A301F5, 0x664F8C30, 0x0FF1F290));
  }

  lemma RoundsTo20()
    ensures Rounds(PADDED_ABC, IV, 20) == Regs(0xFD9E1D7D, 0xDC64901D, 0x20AA99CA, 0xD3A49608, 0xC82F758B)
  {
    hide W, Rounds;
    RoundsTo10();
    GivenWords();
    Words16To31();
    Round(10, Regs(0x8351F929, 0x4B6AE328, 0x27A301F5, 0x664F8C30, 0x0FF1F290), 0x00000000, Regs(0xFBDA9E89, 0x8351F929, 0x12DAB8CA, 0x27A301F5, 0x664F8C30));
    Round(11, Regs(0xFBDA9E89, 0x8351F929, 0x12DAB8CA, 0x27A301F5, 0x664F8C30), 0x00000000, Regs(0x63188FE4, 0xFBDA9E89, 0x60D47E4A, 0x12DAB8CA, 0x27A301F5));
    Round(12, Regs(0x63188FE4, 0xFBDA9E89, 0x60D47E4A, 0x12DAB8CA, 0x27A301F5), 0x00000000, Regs(0x4607B664, 0x63188FE4, 0x7EF6A7A2, 0x60D47E4A, 0x12DAB8CA));
    Round(13, Regs(0x4607B664, 0x63188FE4, 0x7EF6A7A2, 0x60D47E4A, 0x12DAB8CA), 0x00000000, Regs(0x9128F695, 0x4607B664, 0x18C623F9, 0x7EF6A7A2, 0x60D47E4A));
    Round(14, Regs(0x9128F695, 0x4607B664, 0x18C623F9, 0x7EF6A7A2, 0x60D47E4A), 0x00000000, Regs(0x196BEE77, 0x9128F695, 0x1181ED99, 0x18C623F9, 0x7EF6A7A2));
    Round(15, Regs(0x196BEE77, 0x9128F695, 0x1181ED99, 0x18C623F9, 0x7EF6A7A2), 0x00000018, Regs(0x20BDD62F, 0x196BEE77, 0x644A3DA5, 0x1181ED99, 0x18C623F9));
    Round(16, Regs(0x20BDD62F, 0x196BEE77, 0x644A3DA5, 0x1181ED99, 0x18C623F9), 0xC2C4C700, Regs(0x4E925823, 0x20BDD62F, 0xC65AFB9D, 0x644A3DA5, 0x1181ED99));
    Round(17, Regs(0x4E925823, 0x20BDD62F, 0xC65AFB9D, 0x644A3DA5, 0x1181ED99), 0x00000000, Regs(0x82AA6728, 0x4E925823, 0xC82F758B, 0xC65AFB9D, 0x644A3DA5));
    Round(18, Regs(0x82AA6728, 0x4E925823, 0xC82F758B, 0xC65AFB9D, 0x644A3DA5), 0x00000030, Regs(0xDC64901D, 0x82AA6728, 0xD3A49608, 0xC82F758B, 0xC65AFB9D));
    Round(19, Regs(0xDC64901D, 0x82AA6728, 0xD3A49608, 0xC82F758B, 0xC65AFB9D), 0x85898E01, Regs(0xFD9E1D7D, 0xDC64901D, 0x20AA99CA, 0xD3A49608, 0xC82F758B));
  }

  lemma RoundsTo30()
    ensures Rounds(PADDED_ABC, IV, 30) == Regs(0xC5FBAF5D, 0x8370B52E, 0xD2AA1365, 0x6F8D7EF5, 0x12104EE9)
  {
    hide W, Rounds;
    RoundsTo20();
    Words16To31();
    Round(20, Regs(0xFD9E1D7D, 0xDC64901D, 0x20AA99CA, 0xD3A49608, 0xC82F758B), 0x00000000, Regs(0x1A37B0CA, 0xFD9E1D7D, 0x77192407, 0x20AA99CA, 0xD3A49608));
    Round(21, Regs(0x1A37B0CA, 0xFD9E1D7D, 0x77192407, 0x20AA99CA, 0xD3A49608), 0x00000060, Regs(0x33A23BFC, 0x1A37B0CA, 0x7F67875F, 0x77192407, 0x20AA99CA));
    Round(22, Regs(0x33A23BFC, 0x1A37B0CA, 0x7F67875F, 0x77192407, 0x20AA99CA), 0x0B131C03, Regs(0x21283486, 0x33A23BFC, 0x868DEC32, 0x7F67875F, 0x77192407));
    Round(23, Regs(0x21283486, 0x33A23BFC, 0x868DEC32, 0x7F67875F, 0x77192407), 0x00000030, Regs(0xD541F12D, 0x21283486, 0x0CE88EFF, 0x868DEC32, 0x7F67875F));
    Round(24, Regs(0xD541F12D, 0x21283486, 0x0CE88EFF, 0x868DEC32, 0x7F67875F), 0x85898EC1, Regs(0xC7567DC6, 0xD541F12D, 0x884A0D21, 0x0CE88EFF, 0x868DEC32));
    Round(25, Regs(0xC7567DC6, 0xD541F12D, 0x884A0D21, 0x0CE88EFF, 0x868DEC32), 0x16263806, Regs(0x48413BA4, 0xC7567DC6, 0x75507C4B, 0x884A0D21, 0x0CE88EFF));
    Round(26, Regs(0x48413BA4, 0xC7567DC6, 0x75507C4B, 0x884A0D21, 0x0CE88EFF), 0x00000000, Regs(0xBE35FBD5, 0x48413BA4, 0xB1D59F71, 0x75507C4B, 0x884A0D21));
    Round(27, Regs(0xBE35FBD5, 0x48413BA4, 0xB1D59F71, 0x75507C4B, 0x884A0D21), 0x00000180, Regs(0x4AA84D97, 0xBE35FBD5, 0x12104EE9, 0xB1D59F71, 0x75507C4B));
    Round(28, Regs(0x4AA84D97, 0xBE35FBD5, 0x12104EE9, 0xB1D59F71, 0x75507C4B), 0x2C4C700C, Regs(0x8370B52E, 0x4AA84D97, 0x6F8D7EF5, 0x12104EE9, 0xB1D59F71));
    Round(29, Regs(0x8370B52E, 0x4AA84D97, 0x6F8D7EF5, 0x12104EE9, 0xB1D59F71), 0x000000F0, Regs(0xC5FBAF5D, 0x8370B52E, 0xD2AA1365, 0x6F8D7EF5, 0x12104EE9));
  }

  lemma RoundsTo40()
    ensures Rounds(PADDED_ABC, IV, 40) == Regs(0x32DE1CBA, 0x4C986405, 0xF718E5CF, 0x03D447F6, 0xF72EEC32)
  {
    hide W, Rounds;
    RoundsTo30();
    Words16To31();
    Words32To47();
    Round(30, Regs(0xC5FBAF5D, 0x8370B52E, 0xD2AA1365, 0x6F8D7EF5, 0x12104EE9), 0x93AFB507, Regs(0x1267B407, 0xC5FBAF5D, 0xA0DC2D4B, 0xD2AA1365, 0x6F8D7EF5));
    Round(31, Regs(0x1267B407, 0xC5FBAF5D, 0xA0DC2D4B, 0xD2AA1365, 0x6F8D7EF5), 0x5898E048, Regs(0x3B845D33, 0x1267B407, 0x717EEBD7, 0xA0DC2D4B, 0xD2AA1365));
    Round(32, Regs(0x3B845D33, 0x1267B407, 0x717EEBD7, 0xA0DC2D4B, 0xD2AA1365), 0x8E9A9202, Regs(0x046FAA0A, 0x3B845D33, 0xC499ED01, 0x717EEBD7, 0xA0DC2D4B));
    Round(33, Regs(0x046FAA0A, 0x3B845D33, 0xC499ED01, 0x717EEBD7, 0xA0DC2D4B), 0x00000600, Regs(0x2C0EBC11, 0x046FAA0A, 0xCEE1174C, 0xC499ED01, 0x717EEBD7));
    Round(34, Regs(0x2C0EBC11, 0x046FAA0A, 0xCEE1174C, 0xC499ED01, 0x717EEBD7), 0xB131C0F0, Regs(0x21796AD4, 0x2C0EBC11, 0x811BEA82, 0xCEE1174C, 0xC499ED01));
    Round(35, Regs(0x21796AD4, 0x2C0EBC11, 0x811BEA82, 0xCEE1174C, 0xC499ED01), 0x16263BC6, Regs(0xDCBBB0CB, 0x21796AD4, 0x4B03AF04, 0x811BEA82, 0xCEE1174C));
    Round(36, Regs(0xDCBBB0CB, 0x21796AD4, 0x4B03AF04, 0x811BEA82, 0xCEE1174C), 0x4EBED41E, Regs(0x0F511FD8, 0xDCBBB0CB, 0x085E5AB5, 0x4B03AF04, 0x811BEA82));
    Round(37, Regs(0x0F511FD8, 0xDCBBB0CB, 0x085E5AB5, 0x4B03AF04, 0x811BEA82), 0x626380A1, Regs(0xDC63973F, 0x0F511FD8, 0xF72EEC32, 0x085E5AB5, 0x4B03AF04));
    Round(38, Regs(0xDC63973F, 0x0F511FD8, 0xF72EEC32, 0x085E5AB5, 0x4B03AF04), 0x16263806, Regs(0x4C986405, 0xDC63973F, 0x03D447F6, 0xF72EEC32, 0x085E5AB5));
    Round(39, Regs(0x4C986405, 0xDC63973F, 0x03D447F6, 0xF72EEC32, 0x085E5AB5), 0x000018C0, Regs(0x32DE1CBA, 0x4C986405, 0xF718E5CF, 0x03D447F6, 0xF72EEC32));
  }

  lemma RoundsTo50()
    ensures Rounds(PADDED_ABC, IV, 50) == Regs(0x120731C5, 0xBAF39337, 0xAFAB40B2, 0x2806E11B, 0x8714787C)
  {
    hide W, Rounds;
    RoundsTo40();
    Words32To47();
    Words48To63();
    Round(40, Regs(0x32DE1CBA, 0x4C986405, 0xF718E5CF, 0x03D447F6, 0xF72EEC32), 0xD2E138C4, Regs(0xFC87DEDF, 0x32DE1CBA, 0x53261901, 0xF718E5CF, 0x03D447F6));
    Round(41, Regs(0xFC87DEDF, 0x32DE1CBA, 0x53261901, 0xF718E5CF, 0x03D447F6), 0x00000F00, Regs(0x970A0D5C, 0xFC87DEDF, 0x8CB7872E, 0x53261901, 0xF718E5CF));
    Round(42, Regs(0x970A0D5C, 0xFC87DEDF, 0x8CB7872E, 0x53261901, 0xF718E5CF), 0x3AFB5079, Regs(0x7F193DC5, 0x970A0D5C, 0xFF21F7B7, 0x8CB7872E, 0x53261901));
    Round(43, Regs(0x7F193DC5, 0x970A0D5C, 0xFF21F7B7, 0x8CB7872E, 0x53261901), 0x898E04E5, Regs(0xEE1B1AAF, 0x7F193DC5, 0x25C28357, 0xFF21F7B7, 0x8CB7872E));
    Round(44, Regs(0xEE1B1AAF, 0x7F193DC5, 0x25C28357, 0xFF21F7B7, 0x8CB7872E), 0xE2BA3C2B, Regs(0x40F28E09, 0xEE1B1AAF, 0x5FC64F71, 0x25C28357, 0xFF21F7B7));
    Round(45, Regs(0x40F28E09, 0xEE1B1AAF, 0x5FC64F71, 0x25C28357, 0xFF21F7B7), 0x000060C0, Regs(0x1C51E1F2, 0x40F28E09, 0xFB86C6AB, 0x5FC64F71, 0x25C28357));
    Round(46, Regs(0x1C51E1F2, 0x40F28E09, 0xFB86C6AB, 0x5FC64F71, 0x25C28357), 0x053A37CD, Regs(0xA01B846C, 0x1C51E1F2, 0x503CA382, 0xFB86C6AB, 0x5FC64F71));
    Round(47, Regs(0xA01B846C, 0x1C51E1F2, 0x503CA382, 0xFB86C6AB, 0x5FC64F71), 0x74458547, Regs(0xBEAD02CA, 0xA01B846C, 0x8714787C, 0x503CA382, 0xFB86C6AB));
    Round(48, Regs(0xBEAD02CA, 0xA01B846C, 0x8714787C, 0x503CA382, 0xFB86C6AB), 0xDA9415ED, Regs(0xBAF39337, 0xBEAD02CA, 0x2806E11B, 0x8714787C, 0x503CA382));
    Round(49, Regs(0xBAF39337, 0xBEAD02CA, 0x2806E11B, 0x8714787C, 0x503CA382), 0x26380A16, Regs(0x120731C5, 0xBAF39337, 0xAFAB40B2, 0x2806E11B, 0x8714787C));
  }

  lemma RoundsTo60()
    ensures Rounds(PADDED_ABC, IV, 60) == Regs(0x3F52DE5A, 0x09D785FD, 0x3498BFD4, 0xF211824F, 0xD79915AB)
  {
    hide W, Rounds;
    RoundsTo50();
    Words48To63();
    Round(50, Regs(0x120731C5, 0xBAF39337, 0xAFAB40B2, 0x2806E11B, 0x8714787C), 0x626383A1, Regs(0x641DB2CE, 0x120731C5, 0xEEBCE4CD, 0xAFAB40B2, 0x2806E11B));
    Round(51, Regs(0x641DB2CE, 0x120731C5, 0xEEBCE4CD, 0xAFAB40B2, 0x2806E11B), 0x4EBF54DE, Regs(0x3847AD66, 0x641DB2CE, 0x4481CC71, 0xEEBCE4CD, 0xAFAB40B2));
    Round(52, Regs(0x3847AD66, 0x641DB2CE, 0x4481CC71, 0xEEBCE4CD, 0xAFAB40B2), 0x3835B44B, Regs(0xE490436D, 0x3847AD66, 0x99076CB3, 0x4481CC71, 0xEEBCE4CD));
    Round(53, Regs(0xE490436D, 0x3847AD66, 0x99076CB3, 0x4481CC71, 0xEEBCE4CD), 0x0000F600, Regs(0x27E9F1D8, 0xE490436D, 0x8E11EB59, 0x99076CB3, 0x4481CC71));
    Round(54, Regs(0x27E9F1D8, 0xE490436D, 0x8E11EB59, 0x99076CB3, 0x4481CC71), 0x1E84C7A3, Regs(0x7B71F76D, 0x27E9F1D8, 0x792410DB, 0x8E11EB59, 0x99076CB3));
    Round(55, Regs(0x7B71F76D, 0x27E9F1D8, 0x792410DB, 0x8E11EB59, 0x99076CB3), 0x98E04D98, Regs(0x5E6456AF, 0x7B71F76D, 0x09FA7C76, 0x792410DB, 0x8E11EB59));
    Round(56, Regs(0x5E6456AF, 0x7B71F76D, 0x09FA7C76, 0x792410DB, 0x8E11EB59), 0x651D16A0, Regs(0xC846093F, 0x5E6456AF, 0x5EDC7DDB, 0x09FA7C76, 0x792410DB));
    Round(57, Regs(0xC846093F, 0x5E6456AF, 0x5EDC7DDB, 0x09FA7C76, 0x792410DB), 0x62658CA1, Regs(0xD262FF50, 0xC846093F, 0xD79915AB, 0x5EDC7DDB, 0x09FA7C76));
    Round(58, Regs(0xD262FF50, 0xC846093F, 0xD79915AB, 0x5EDC7DDB, 0x09FA7C76), 0x458544D6, Regs(0x09D785FD, 0xD262FF50, 0xF211824F, 0xD79915AB, 0x5EDC7DDB));
    Round(59, Regs(0x09D785FD, 0xD262FF50, 0xF211824F, 0xD79915AB, 0x5EDC7DDB), 0x44584CB7, Regs(0x3F52DE5A, 0x09D785FD, 0x3498BFD4, 0xF211824F, 0xD79915AB));
  }

  lemma RoundsTo70()
    ensures Rounds(PADDED_ABC, IV, 70) == Regs(0x3F2588C2, 0x497093C0, 0xDE37534A, 0x030F7CAD, 0x4405957E)
  {
    hide W, Rounds;
    RoundsTo60();
    Words48To63();
    Words64To79();
    Round(60, Regs(0x3F52DE5A, 0x09D785FD, 0x3498BFD4, 0xF211824F, 0xD79915AB), 0x7BA06619, Regs(0xD756C147, 0x3F52DE5A, 0x4275E17F, 0x3498BFD4, 0xF211824F));
    Round(61, Regs(0xD756C147, 0x3F52DE5A, 0x4275E17F, 0x3498BFD4, 0xF211824F), 0x6380AEA2, Regs(0x548C9CB2, 0xD756C147, 0x8FD4B796, 0x4275E17F, 0x3498BFD4));
    Round(62, Regs(0x548C9CB2, 0xD756C147, 0x8FD4B796, 0x4275E17F, 0x3498BFD4), 0x0AE55269, Regs(0xB66C020B, 0x548C9CB2, 0xF5D5B051, 0x8FD4B796, 0x4275E17F));
    Round(63, Regs(0xB66C020B, 0x548C9CB2, 0xF5D5B051, 0x8FD4B796, 0x4275E17F), 0x627B49A1, Regs(0x6B61C9E1, 0xB66C020B, 0x9523272C, 0xF5D5B051, 0x8FD4B796));
    Round(64, Regs(0x6B61C9E1, 0xB66C020B, 0x9523272C, 0xF5D5B051, 0x8FD4B796), 0x7CD45C9D, Regs(0x19DFA7AC, 0x6B61C9E1, 0xED9B0082, 0x9523272C, 0xF5D5B051));
    Round(65, Regs(0x19DFA7AC, 0x6B61C9E1, 0xED9B0082, 0x9523272C, 0xF5D5B051), 0x000F0000, Regs(0x101655F9, 0x19DFA7AC, 0x5AD87278, 0xED9B0082, 0x9523272C));
    Round(66, Regs(0x101655F9, 0x19DFA7AC, 0x5AD87278, 0xED9B0082, 0x9523272C), 0xFB50753A, Regs(0x0C3DF2B4, 0x101655F9, 0x0677E9EB, 0x5AD87278, 0xED9B0082));
    Round(67, Regs(0x0C3DF2B4, 0x101655F9, 0x0677E9EB, 0x5AD87278, 0xED9B0082), 0xEC6765E8, Regs(0x78DD4D2B, 0x0C3DF2B4, 0x4405957E, 0x0677E9EB, 0x5AD87278));
    Round(68, Regs(0x78DD4D2B, 0x0C3DF2B4, 0x4405957E, 0x0677E9EB, 0x5AD87278), 0xBA3C2BE2, Regs(0x497093C0, 0x78DD4D2B, 0x030F7CAD, 0x4405957E, 0x0677E9EB));
    Round(69, Regs(0x497093C0, 0x78DD4D2B, 0x030F7CAD, 0x4405957E, 0x0677E9EB), 0x0060C000, Regs(0x3F2588C2, 0x497093C0, 0xDE37534A, 0x030F7CAD, 0x4405957E));
  }

  lemma RoundsTo80()
    ensures Rounds(PADDED_ABC, IV, 80) == Regs(0x42541B35, 0x5738D5E1, 0x21834873, 0x681E6DF6, 0xD8FDF6AD)
  {
    hide W, Rounds;
    RoundsTo70();
    Words64To79();
    Round(70, Regs(0x3F2588C2, 0x497093C0, 0xDE37534A, 0x030F7CAD, 0x4405957E), 0x3A37CD05, Regs(0xC199F8C7, 0x3F2588C2, 0x125C24F0, 0xDE37534A, 0x030F7CAD));
    Round(71, Regs(0xC199F8C7, 0x3F2588C2, 0x125C24F0, 0xDE37534A, 0x030F7CAD), 0x458546F4, Regs(0x39859DE7, 0xC199F8C7, 0x8FC96230, 0x125C24F0, 0xDE37534A));
    Round(72, Regs(0x39859DE7, 0xC199F8C7, 0x8FC96230, 0x125C24F0, 0xDE37534A), 0xB8599DD6, Regs(0xEDB42DE4, 0x39859DE7, 0xF0667E31, 0x8FC96230, 0x125C24F0));
    Round(73, Regs(0xEDB42DE4, 0x39859DE7, 0xF0667E31, 0x8FC96230, 0x125C24F0), 0x380A1A26, Regs(0x11793F6F, 0xEDB42DE4, 0xCE616779, 0xF0667E31, 0x8FC96230));
    Round(74, Regs(0x11793F6F, 0xEDB42DE4, 0xCE616779, 0xF0667E31, 0x8FC96230), 0x01E02203, Regs(0x5EE76897, 0x11793F6F, 0x3B6D0B79, 0xCE616779, 0xF0667E31));
    Round(75, Regs(0x5EE76897, 0x11793F6F, 0x3B6D0B79, 0xCE616779, 0xF0667E31), 0xE7CC3456, Regs(0x63F7DAB7, 0x5EE76897, 0xC45E4FDB, 0x3B6D0B79, 0xCE616779));
    Round(76, Regs(0x63F7DAB7, 0x5EE76897, 0xC45E4FDB, 0x3B6D0B79, 0xCE616779), 0xE6E60B69, Regs(0xA079B7D9, 0x63F7DAB7, 0xD7B9DA25, 0xC45E4FDB, 0x3B6D0B79));
    Round(77, Regs(0xA079B7D9, 0x63F7DAB7, 0xD7B9DA25, 0xC45E4FDB, 0x3B6D0B79), 0x00F60A00, Regs(0x860D21CC, 0xA079B7D9, 0xD8FDF6AD, 0xD7B9DA25, 0xC45E4FDB));
    Round(78, Regs(0x860D21CC, 0xA079B7D9, 0xD8FDF6AD, 0xD7B9DA25, 0xC45E4FDB), 0x5795EF4F, Regs(0x5738D5E1, 0x860D21CC, 0x681E6DF6, 0xD8FDF6AD, 0xD7B9DA25));
    Round(79, Regs(0x5738D5E1, 0x860D21CC, 0x681E6DF6, 0xD8FDF6AD, 0xD7B9DA25), 0x822E0879, Regs(0x42541B35, 0x5738D5E1, 0x21834873, 0x681E6DF6, 0xD8FDF6AD));
  }

  /** The digest the standard gives for "abc". */
  lemma DigestOfAbc()
    ensures Digest(ABC) == [0xA9, 0x99, 0x3E, 0x36, 0x47, 0x06, 0x81, 0x6A, 0xBA, 0x3E, 0x25, 0x71, 0x78, 0x50, 0xC2, 0x6C, 0x9C, 0xD0, 0xD8, 0x9D]
  {
    AbcIsPadded();
    RoundsTo80();
    hide Rounds, Padded;
    assert Compress(IV, PADDED_ABC) == Regs(0xA9993E36, 0x4706816A, 0xBA3E2571, 0x7850C26C, 0x9CD0D89D);
    assert PADDED_ABC[..64] == PADDED_ABC && PADDED_ABC[64..] == [];
    assert Fold(Compress, IV, PADDED_ABC) == Compress(IV, PADDED_ABC);
  }
}
