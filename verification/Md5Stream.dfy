/** `md5_context` of src/md5.c and the functions that update it. The state is that of RFC 1321
    after the whole blocks of the message so far, the buffer holds what is left over, and the
    counters hold the length as long as no piece has 2^32 bytes or more. Splitting a message
    over several calls makes no difference, and the one-call digest is that of RFC 1321. */
module Md5Stream {
  import opened Words
  import opened Blocks
  import opened Md5

  /** `PUT_UINT32_LE`, of the low half of an `unsigned long`. */
  function PutLong(n: Long): (s: seq<byte>)
    ensures |s| == 4
  {
    [(n & 0xFF) as byte, ((n >> 8) & 0xFF) as byte, ((n >> 16) & 0xFF) as byte, ((n >> 24) & 0xFF) as byte]
  }

  lemma PutLow(n: Long)
    ensures PutLong(n) == WordLE(Low(n))
  {
  }

  function LowState(s: seq<Long>): Regs
    requires |s| == 4
  {
    Regs(Low(s[0]), Low(s[1]), Low(s[2]), Low(s[3]))
  }

  lemma FoldNothing()
    ensures Fold(Compress, IV, []) == IV
  {
  }

  // ------------------------------------------------------------ md5_process

  /** X[0] to X[15]. */
  ghost predicate Loaded(x: seq<Word>, block: Block) {
    |x| == 16 && forall k :: 0 <= k < 16 ==> x[k] == BlockWord(block, k)
  }

  lemma StepsUnfold(block: Block, h: Regs, i: nat)
    requires i < 64
    ensures Steps(block, h, i + 1) == Step(i, Steps(block, h, i), BlockWord(block, Index(i)))
  {
  }

  lemma StepsBegin(block: Block, h: Regs)
    ensures Steps(block, h, 0) == h
  {
  }

  /** The arguments of P are those the standard gives by formula and table. */
  predicate Arguments(i: nat, k: nat, s: nat, t: Word)
    requires i < 64
  {
    k == Index(i) && s == Amount(i) && t == T(i)
  }

  /** P(a,b,c,d,k,s,t) as step `i`: its constants must be those of the standard. */
  method P(x: seq<Word>, ghost block: Block, ghost h: Regs, i: nat, a: Word, b: Word, c: Word, d: Word,
           k: nat, s: nat, t: Word)
    returns (a': Word)
    requires i < 64 && Loaded(x, block) && Regs(a, b, c, d) == Steps(block, h, i)
    requires Arguments(i, k, s, t)
    ensures Regs(d, a', b, c) == Steps(block, h, i + 1)
  {
    hide Steps, Step, Index, Amount, T, BlockWord, FMacro, SMacro, Plus;
    PIsAStep(i, a, b, c, d, x[k]);
    StepsUnfold(block, h, i);
    a' := Plus(SMacro(Plus(a, Plus(Plus(FMacro(i, b, c, d), x[k]), t)), s), b);
  }

  lemma Arguments0To7()
    ensures Arguments(0, 0, 7, 0xD76AA478)
    ensures Arguments(1, 1, 12, 0xE8C7B756)
    ensures Arguments(2, 2, 17, 0x242070DB)
    ensures Arguments(3, 3, 22, 0xC1BDCEEE)
    ensures Arguments(4, 4, 7, 0xF57C0FAF)
    ensures Arguments(5, 5, 12, 0x4787C62A)
    ensures Arguments(6, 6, 17, 0xA8304613)
    ensures Arguments(7, 7, 22, 0xFD469501)
  {
  }

  lemma Arguments8To15()
    ensures Arguments(8, 8, 7, 0x698098D8)
    ensures Arguments(9, 9, 12, 0x8B44F7AF)
    ensures Arguments(10, 10, 17, 0xFFFF5BB1)
    ensures Arguments(11, 11, 22, 0x895CD7BE)
    ensures Arguments(12, 12, 7, 0x6B901122)
    ensures Arguments(13, 13, 12, 0xFD987193)
    ensures Arguments(14, 14, 17, 0xA679438E)
    ensures Arguments(15, 15, 22, 0x49B40821)
  {
  }

  lemma Arguments16To23()
    ensures Arguments(16, 1, 5, 0xF61E2562)
    ensures Arguments(17, 6, 9, 0xC040B340)
    ensures Arguments(18, 11, 14, 0x265E5A51)
    ensures Arguments(19, 0, 20, 0xE9B6C7AA)
    ensures Arguments(20, 5, 5, 0xD62F105D)
    ensures Arguments(21, 10, 9, 0x02441453)
    ensures Arguments(22, 15, 14, 0xD8A1E681)
    ensures Arguments(23, 4, 20, 0xE7D3FBC8)
  {
  }

  lemma Arguments24To31()
    ensures Arguments(24, 9, 5, 0x21E1CDE6)
    ensures Arguments(25, 14, 9, 0xC33707D6)
    ensures Arguments(26, 3, 14, 0xF4D50D87)
    ensures Arguments(27, 8, 20, 0x455A14ED)
    ensures Arguments(28, 13, 5, 0xA9E3E905)
    ensures Arguments(29, 2, 9, 0xFCEFA3F8)
    ensures Arguments(30, 7, 14, 0x676F02D9)
    ensures Arguments(31, 12, 20, 0x8D2A4C8A)
  {
  }

  lemma Arguments32To39()
    ensures Arguments(32, 5, 4, 0xFFFA3942)
    ensures Arguments(33, 8, 11, 0x8771F681)
    ensures Arguments(34, 11, 16, 0x6D9D6122)
    ensures Arguments(35, 14, 23, 0xFDE5380C)
    ensures Arguments(36, 1, 4, 0xA4BEEA44)
    ensures Arguments(37, 4, 11, 0x4BDECFA9)
    ensures Arguments(38, 7, 16, 0xF6BB4B60)
    ensures Arguments(39, 10, 23, 0xBEBFBC70)
  {
  }

  lemma Arguments40To47()
    ensures Arguments(40, 13, 4, 0x289B7EC6)
    ensures Arguments(41, 0, 11, 0xEAA127FA)
    ensures Arguments(42, 3, 16, 0xD4EF3085)
    ensures Arguments(43, 6, 23, 0x04881D05)
    ensures Arguments(44, 9, 4, 0xD9D4D039)
    ensures Arguments(45, 12, 11, 0xE6DB99E5)
    ensures Arguments(46, 15, 16, 0x1FA27CF8)
    ensures Arguments(47, 2, 23, 0xC4AC5665)
  {
  }

  lemma Arguments48To55()
    ensures Arguments(48, 0, 6, 0xF4292244)
    ensures Arguments(49, 7, 10, 0x432AFF97)
    ensures Arguments(50, 14, 15, 0xAB9423A7)
    ensures Arguments(51, 5, 21, 0xFC93A039)
    ensures Arguments(52, 12, 6, 0x655B59C3)
    ensures Arguments(53, 3, 10, 0x8F0CCC92)
    ensures Arguments(54, 10, 15, 0xFFEFF47D)
    ensures Arguments(55, 1, 21, 0x85845DD1)
  {
  }

  lemma Arguments56To63()
    ensures Arguments(56, 8, 6, 0x6FA87E4F)
    ensures Arguments(57, 15, 10, 0xFE2CE6E0)
    ensures Arguments(58, 6, 15, 0xA3014314)
    ensures Arguments(59, 13, 21, 0x4E0811A1)
    ensures Arguments(60, 4, 6, 0xF7537E82)
    ensures Arguments(61, 11, 10, 0xBD3AF235)
    ensures Arguments(62, 2, 15, 0x2AD7D2BB)
    ensures Arguments(63, 9, 21, 0xEB86D391)
  {
  }

  /** Steps 0 to 15. */
  method Round1(x: seq<Word>, ghost block: Block, ghost h: Regs, A: Word, B: Word, C: Word, D: Word)
    returns (a: Word, b: Word, c: Word, d: Word)
    requires Loaded(x, block) && Regs(A, B, C, D) == Steps(block, h, 0)
    ensures Regs(a, b, c, d) == Steps(block, h, 16)
  {
    hide Steps, Loaded, Arguments;
    Arguments0To7();
    Arguments8To15();
    a, b, c, d := A, B, C, D;
    a := P(x, block, h, 0, a, b, c, d, 0, 7, 0xD76AA478);
    d := P(x, block, h, 1, d, a, b, c, 1, 12, 0xE8C7B756);
    c := P(x, block, h, 2, c, d, a, b, 2, 17, 0x242070DB);
    b := P(x, block, h, 3, b, c, d, a, 3, 22, 0xC1BDCEEE);
    a := P(x, block, h, 4, a, b, c, d, 4, 7, 0xF57C0FAF);
    d := P(x, block, h, 5, d, a, b, c, 5, 12, 0x4787C62A);
    c := P(x, block, h, 6, c, d, a, b, 6, 17, 0xA8304613);
    b := P(x, block, h, 7, b, c, d, a, 7, 22, 0xFD469501);
    a := P(x, block, h, 8, a, b, c, d, 8, 7, 0x698098D8);
    d := P(x, block, h, 9, d, a, b, c, 9, 12, 0x8B44F7AF);
    c := P(x, block, h, 10, c, d, a, b, 10, 17, 0xFFFF5BB1);
    b := P(x, block, h, 11, b, c, d, a, 11, 22, 0x895CD7BE);
    a := P(x, block, h, 12, a, b, c, d, 12, 7, 0x6B901122);
    d := P(x, block, h, 13, d, a, b, c, 13, 12, 0xFD987193);
    c := P(x, block, h, 14, c, d, a, b, 14, 17, 0xA679438E);
    b := P(x, block, h, 15, b, c, d, a, 15, 22, 0x49B40821);
  }

  /** Steps 16 to 31. */
  method Round2(x: seq<Word>, ghost block: Block, ghost h: Regs, A: Word, B: Word, C: Word, D: Word)
    returns (a: Word, b: Word, c: Word, d: Word)
    requires Loaded(x, block) && Regs(A, B, C, D) == Steps(block, h, 16)
    ensures Regs(a, b, c, d) == Steps(block, h, 32)
  {
    hide Steps, Loaded, Arguments;
    Arguments16To23();
    Arguments24To31();
    a, b, c, d := A, B, C, D;
    a := P(x, block, h, 16, a, b, c, d, 1, 5, 0xF61E2562);
    d := P(x, block, h, 17, d, a, b, c, 6, 9, 0xC040B340);
    c := P(x, block, h, 18, c, d, a, b, 11, 14, 0x265E5A51);
    b := P(x, block, h, 19, b, c, d, a, 0, 20, 0xE9B6C7AA);
    a := P(x, block, h, 20, a, b, c, d, 5, 5, 0xD62F105D);
    d := P(x, block, h, 21, d, a, b, c, 10, 9, 0x02441453);
    c := P(x, block, h, 22, c, d, a, b, 15, 14, 0xD8A1E681);
    b := P(x, block, h, 23, b, c, d, a, 4, 20, 0xE7D3FBC8);
    a := P(x, block, h, 24, a, b, c, d, 9, 5, 0x21E1CDE6);
    d := P(x, block, h, 25, d, a, b, c, 14, 9, 0xC33707D6);
    c := P(x, block, h, 26, c, d, a, b, 3, 14, 0xF4D50D87);
    b := P(x, block, h, 27, b, c, d, a, 8, 20, 0x455A14ED);
    a := P(x, block, h, 28, a, b, c, d, 13, 5, 0xA9E3E905);
    d := P(x, block, h, 29, d, a, b, c, 2, 9, 0xFCEFA3F8);
    c := P(x, block, h, 30, c, d, a, b, 7, 14, 0x676F02D9);
    b := P(x, block, h, 31, b, c, d, a, 12, 20, 0x8D2A4C8A);
  }

  /** Steps 32 to 47. */
  method Round3(x: seq<Word>, ghost block: Block, ghost h: Regs, A: Word, B: Word, C: Word, D: Word)
    returns (a: Word, b: Word, c: Word, d: Word)
    requires Loaded(x, block) && Regs(A, B, C, D) == Steps(block, h, 32)
    ensures Regs(a, b, c, d) == Steps(block, h, 48)
  {
    hide Steps, Loaded, Arguments;
    Arguments32To39();
    Arguments40To47();
    a, b, c, d := A, B, C, D;
    a := P(x, block, h, 32, a, b, c, d, 5, 4, 0xFFFA3942);
    d := P(x, block, h, 33, d, a, b, c, 8, 11, 0x8771F681);
    c := P(x, block, h, 34, c, d, a, b, 11, 16, 0x6D9D6122);
    b := P(x, block, h, 35, b, c, d, a, 14, 23, 0xFDE5380C);
    a := P(x, block, h, 36, a, b, c, d, 1, 4, 0xA4BEEA44);
    d := P(x, block, h, 37, d, a, b, c, 4, 11, 0x4BDECFA9);
    c := P(x, block, h, 38, c, d, a, b, 7, 16, 0xF6BB4B60);
    b := P(x, block, h, 39, b, c, d, a, 10, 23, 0xBEBFBC70);
    a := P(x, block, h, 40, a, b, c, d, 13, 4, 0x289B7EC6);
    d := P(x, block, h, 41, d, a, b, c, 0, 11, 0xEAA127FA);
    c := P(x, block, h, 42, c, d, a, b, 3, 16, 0xD4EF3085);
    b := P(x, block, h, 43, b, c, d, a, 6, 23, 0x04881D05);
    a := P(x, block, h, 44, a, b, c, d, 9, 4, 0xD9D4D039);
    d := P(x, block, h, 45, d, a, b, c, 12, 11, 0xE6DB99E5);
    c := P(x, block, h, 46, c, d, a, b, 15, 16, 0x1FA27CF8);
    b := P(x, block, h, 47, b, c, d, a, 2, 23, 0xC4AC5665);
  }

  /** Steps 48 to 63. */
  method Round4(x: seq<Word>, ghost block: Block, ghost h: Regs, A: Word, B: Word, C: Word, D: Word)
    returns (a: Word, b: Word, c: Word, d: Word)
    requires Loaded(x, block) && Regs(A, B, C, D) == Steps(block, h, 48)
    ensures Regs(a, b, c, d) == Steps(block, h, 64)
  {
    hide Steps, Loaded, Arguments;
    Arguments48To55();
    Arguments56To63();
    a, b, c, d := A, B, C, D;
    a := P(x, block, h, 48, a, b, c, d, 0, 6, 0xF4292244);
    d := P(x, block, h, 49, d, a, b, c, 7, 10, 0x432AFF97);
    c := P(x, block, h, 50, c, d, a, b, 14, 15, 0xAB9423A7);
    b := P(x, block, h, 51, b, c, d, a, 5, 21, 0xFC93A039);
    a := P(x, block, h, 52, a, b, c, d, 12, 6, 0x655B59C3);
    d := P(x, block, h, 53, d, a, b, c, 3, 10, 0x8F0CCC92);
    c := P(x, block, h, 54, c, d, a, b, 10, 15, 0xFFEFF47D);
    b := P(x, block, h, 55, b, c, d, a, 1, 21, 0x85845DD1);
    a := P(x, block, h, 56, a, b, c, d, 8, 6, 0x6FA87E4F);
    d := P(x, block, h, 57, d, a, b, c, 15, 10, 0xFE2CE6E0);
    c := P(x, block, h, 58, c, d, a, b, 6, 15, 0xA3014314);
    b := P(x, block, h, 59, b, c, d, a, 13, 21, 0x4E0811A1);
    a := P(x, block, h, 60, a, b, c, d, 4, 6, 0xF7537E82);
    d := P(x, block, h, 61, d, a, b, c, 11, 10, 0xBD3AF235);
    c := P(x, block, h, 62, c, d, a, b, 2, 15, 0x2AD7D2BB);
    b := P(x, block, h, 63, b, c, d, a, 9, 21, 0xEB86D391);
  }

  class Context {
    /** `total[0]`, `total[1]`: the length of the input so far, in two parts. */
    var total0: nat
    var total1: nat
    const state: array<Long>
    const buffer: array<byte>
    /** Everything given to `Update` so far. */
    ghost var message: seq<byte>

    /** The low word counts modulo 2^32; the state has swallowed the whole blocks, and the
        buffer begins with what is left over. */
    ghost predicate Valid()
      reads this, state, buffer
    {
      && state.Length == 4 && buffer.Length == 64
      && total0 == |message| % WORD
      && LowState(state[..]) == Fold(Compress, IV, Whole(message))
      && buffer[..|message| % 64] == Rest(message)
    }

    /** Both counters together are the length. */
    ghost predicate Exact()
      reads this
    {
      Total(total0, total1) == |message|
    }

    constructor ()
      ensures state.Length == 4 && buffer.Length == 64 && fresh(state) && fresh(buffer)
    {
      state, buffer := new Long[4], new byte[64];
    }

    /** `md5_starts`. */
    method Starts()
      requires state.Length == 4 && buffer.Length == 64
      modifies this, state
      ensures Valid() && Exact() && message == []
    {
      hide LowState, Fold, Whole, Rest;
      FoldNothing();
      NothingAbsorbed();
      total0, total1 := 0, 0;
      StartState();
      message := [];
    }

    method StartState()
      requires state.Length == 4
      modifies state
      ensures LowState(state[..]) == IV
    {
      state[0] := 0x67452301;
      state[1] := 0xEFCDAB89;
      state[2] := 0x98BADCFE;
      state[3] := 0x10325476;
    }

    /** `md5_process`. */
    method Process(data: Block)
      requires state.Length == 4
      modifies state
      ensures LowState(state[..]) == Compress(old(LowState(state[..])), data)
    {
      hide Low, Steps, BlockWord, SumRegs;
      ghost var h := LowState(state[..]);
      var w := new Word[16](k requires 0 <= k < 16 => BlockWord(data, k));
      var x := w[..];
      StepsBegin(data, h);
      var a, b, c, d := Low(state[0]), Low(state[1]), Low(state[2]), Low(state[3]);
      a, b, c, d := Round1(x, data, h, a, b, c, d);
      a, b, c, d := Round2(x, data, h, a, b, c, d);
      a, b, c, d := Round3(x, data, h, a, b, c, d);
      a, b, c, d := Round4(x, data, h, a, b, c, d);
      AddRegs(a, b, c, d);
    }

    /** The additions at the end of `md5_process`. */
    method AddRegs(a: Word, b: Word, c: Word, d: Word)
      requires state.Length == 4
      modifies state
      ensures LowState(state[..]) == SumRegs(old(LowState(state[..])), Regs(a, b, c, d))
    {
      hide Low, Add, Plus;
      LowAddWord(state[0], a);
      LowAddWord(state[1], b);
      LowAddWord(state[2], c);
      LowAddWord(state[3], d);
      state[0] := Add(state[0], a as Long);
      state[1] := Add(state[1], b as Long);
      state[2] := Add(state[2], c as Long);
      state[3] := Add(state[3], d as Long);
    }

    /** `md5_update`. Any length keeps the state and the buffer right; the pair of counters
        stays right exactly for lengths below 2^32, to which the input length is cut. */
    method Update(input: seq<byte>)
      requires Valid()
      modifies this, state, buffer
      ensures Valid() && message == old(message) + input
      ensures old(Exact()) ==> (Exact() <==> |input| < WORD)
    {
      if |input| <= 0 {
        assert message + input == message;
        return;
      }
      hide Fold, LowState, Whole, Rest, AddLow, AddHigh;
      CountUp(message, input);
      CutCarryIff(total0, total1, |input|);
      var left := total0 % 64;
      var fill := 64 - left;
      AddLength(|input|);
      Absorb(input, left, fill);
      message := message + input;
    }

    /** The counters of `md5_update`. */
    method AddLength(n: nat)
      modifies this`total0, this`total1
      ensures total0 == AddLow(old(total0), n) && total1 == AddHigh(old(total0), old(total1), n, n % WORD)
    {
      total0 := total0 + n % WORD;
      total0 := total0 % WORD;
      if total0 < n % WORD {
        total1 := total1 + 1;
      }
    }

    /** The second half of `md5_update`: the bytes themselves. */
    method Absorb(input: seq<byte>, left0: nat, fill: nat)
      requires state.Length == 4 && buffer.Length == 64
      requires left0 == |message| % 64 && left0 + fill == 64
      requires LowState(state[..]) == Fold(Compress, IV, Whole(message)) && buffer[..left0] == Rest(message)
      modifies state, buffer
      ensures var m := message + input;
        LowState(state[..]) == Fold(Compress, IV, Whole(m)) && buffer[..|m| % 64] == Rest(m)
    {
      hide Fold, LowState, Whole, Rest, Compress;
      var left, pos := left0, 0;
      ghost var done := message;
      assert input[0..] == input;
      if left != 0 && |input| >= fill {
        CopyInto(buffer, left, input[..fill]);
        assert buffer[..] == Rest(done) + input[..fill];
        FillsUp(Compress, IV, done, input[..fill]);
        Process(buffer[..]);
        MovesOn(done, input, 0, fill);
        done := done + input[..fill];
        pos := fill;
        left := 0;
      }
      while |input| - pos >= 64
        invariant pos <= |input| && done + input[pos..] == message + input
        invariant left == |done| % 64 && (left != 0 ==> left + |input| - pos < 64)
        invariant LowState(state[..]) == Fold(Compress, IV, Whole(done)) && buffer[..left] == Rest(done)
      {
        FillsUp(Compress, IV, done, input[pos..pos + 64]);
        assert Rest(done) + input[pos..pos + 64] == input[pos..pos + 64];
        Process(input[pos..pos + 64]);
        MovesOn(done, input, pos, pos + 64);
        done := done + input[pos..pos + 64];
        pos := pos + 64;
      }
      LeftOver(done, input[pos..]);
      if |input| - pos > 0 {
        CopyInto(buffer, left, input[pos..]);
      }
      assert buffer[..left + |input| - pos] == Rest(done) + input[pos..];
    }

    /** `md5_finish`: the digest of the padded message, with the length the counters hold. */
    method Finish(output: array<byte>)
      requires Valid() && output.Length >= 16 && output != buffer
      modifies this, state, buffer, output
      ensures output[..16] == DigestBytes(Fold(Compress, IV, Padded(old(message), LengthLE(old(Total(total0, total1))))))
      ensures old(Exact()) ==> output[..16] == Digest(old(message))
    {
      hide Fold, LowState, Whole, Rest, DigestBytes, LengthLE, Compress;
      ghost var m := message;
      var high := BitsHigh(total0, total1);
      var low := BitsLow(total0);
      LengthFromCounters(total0, total1);
      var msglen := PutLE(low) + PutLE(high);
      CountUp(m, []);
      var last := total0 % 64;
      var padn := if last < 56 then 56 - last else 120 - last;
      Update(PADDING[..padn]);
      Update(msglen);
      assert message == Padded(m, msglen);
      NothingLeft(message);
      PutDigest(output);
    }

    /** The four PUT_UINT32_LE at the end. */
    method PutDigest(output: array<byte>)
      requires state.Length == 4 && output.Length >= 16
      modifies output
      ensures output[..16] == DigestBytes(LowState(state[..]))
    {
      hide Low, PutLong, WordLE;
      PutLow(state[0]);
      PutLow(state[1]);
      PutLow(state[2]);
      PutLow(state[3]);
      CopyInto(output, 0, PutLong(state[0]));
      CopyInto(output, 4, PutLong(state[1]));
      CopyInto(output, 8, PutLong(state[2]));
      CopyInto(output, 12, PutLong(state[3]));
    }
  }

  lemma NothingLeft(m: seq<byte>)
    requires |m| % 64 == 0
    ensures Whole(m) == m
  {
  }

  /** `md5`: in one call. */
  method Hash(input: seq<byte>, output: array<byte>)
    requires output.Length >= 16
    modifies output
    ensures |input| < WORD ==> output[..16] == Digest(input)
  {
    hide Fold, LowState, Whole, Rest, Digest, DigestBytes, Padded, LengthLE;
    var ctx := new Context();
    ctx.Starts();
    ctx.Update(input);
    assert ctx.message == input;
    ctx.Finish(output);
  }
}
