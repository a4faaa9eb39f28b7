/** `sha1_context` of src/sha1.c and the functions that update it. The state is that of the
    standard after the whole blocks of the message so far, the buffer holds what is left over,
    and the counters hold the length as long as one carry is enough. Splitting a message over
    several calls makes no difference, and the one-call digest is that of the standard. */
module Sha1Stream {
  import opened Blocks
  import opened Words
  import opened Sha1

  // ------------------------------------------------------------ bytes and 64-bit words

  /** `GET_ULONG_BE` at word `i`. */
  function GetBE(data: Block, i: nat): Long
    requires i < 16
  {
    ((data[4 * i] as bv64) << 24) | ((data[4 * i + 1] as bv64) << 16) |
    ((data[4 * i + 2] as bv64) << 8) | (data[4 * i + 3] as bv64)
  }

  lemma LowGet(data: Block, i: nat)
    requires i < 16
    ensures Low(GetBE(data, i)) == BlockWord(data, i)
  {
    LowGetBytes(data[4 * i], data[4 * i + 1], data[4 * i + 2], data[4 * i + 3]);
  }

  lemma LowGetBytes(a: byte, b: byte, c: byte, d: byte)
    ensures Low(((a as bv64) << 24) | ((b as bv64) << 16) | ((c as bv64) << 8) | (d as bv64)) ==
            ((a as bv32) << 24) | ((b as bv32) << 16) | ((c as bv32) << 8) | (d as bv32)
  {
  }

  /** `PUT_ULONG_BE`. */
  function PutLong(n: Long): (s: seq<byte>)
    ensures |s| == 4
  {
    [((n >> 24) & 0xFF) as byte, ((n >> 16) & 0xFF) as byte, ((n >> 8) & 0xFF) as byte, (n & 0xFF) as byte]
  }

  lemma PutLow(n: Long)
    ensures PutLong(n) == WordBE(Low(n))
  {
  }

  function LowState(s: seq<Long>): Regs
    requires |s| == 5
  {
    LowRegs(s[0], s[1], s[2], s[3], s[4])
  }

  lemma RoundsUnfold(block: Block, h: Regs, t: nat)
    ensures Rounds(block, h, t + 1) == RoundStep(t, Rounds(block, h, t), W(block, t))
  {
  }

  /** What the array holds before round `t`. */
  ghost predicate Loaded(w: seq<Long>, block: Block, t: nat) {
    Window(w, block, if t < 16 then 16 else t)
  }

  lemma LoadedAtStart(w: seq<Long>, data: Block)
    requires |w| == 16 && forall i :: 0 <= i < 16 ==> w[i] == GetBE(data, i)
    ensures Loaded(w, data, 0)
  {
    hide Low, GetBE;
    forall k | 0 <= k < 16 ensures Low(w[Slot(k)]) == W(data, k) {
      LowGet(data, k);
    }
  }

  lemma FoldNothing()
    ensures Fold(Compress, IV, []) == IV
  {
  }

  lemma RoundsBegin(block: Block, h: Regs)
    ensures Rounds(block, h, 0) == h
  {
  }

  // ------------------------------------------------------------ sha1_process

  /** W[t], or R(t) from round 16 on. */
  method NextWord(w: array<Long>, ghost block: Block, t: nat) returns (x: Long)
    requires Loaded(w[..], block, t)
    modifies w
    ensures Low(x) == W(block, t) && Loaded(w[..], block, t + 1)
  {
    hide Low, W, Mix;
    if t < 16 {
      assert Slot(t) == t;
      return w[t];
    }
    RefreshSlides(w[..], block, t);
    x := Mix(w[Slot(t - 3)], w[Slot(t - 8)], w[Slot(t - 14)], w[Slot(t)]);
    ghost var was := w[..];
    w[Slot(t)] := x;
    assert w[..] == was[Slot(t) := Refresh(was, t)];
  }

  /** P(a,b,c,d,e,x) with the word of round `t`: the registers in their new places are those
      of the standard one round on. */
  method P(w: array<Long>, ghost block: Block, ghost h: Regs, t: nat, a: Long, b: Long, c: Long, d: Long, e: Long)
    returns (e': Long, b': Long)
    requires Loaded(w[..], block, t) && LowRegs(a, b, c, d, e) == Rounds(block, h, t)
    modifies w
    ensures Loaded(w[..], block, t + 1) && LowRegs(e', a, b', c, d) == Rounds(block, h, t + 1)
  {
    hide Low, W, Rounds, RoundStep, Add, S5, S30, FMacro, KMacro, Window;
    var x := NextWord(w, block, t);
    PIsARound(t, a, b, c, d, e, x);
    RoundsUnfold(block, h, t);
    e' := Add(e, Add(Add(Add(S5(a), FMacro(t, b, c, d)), KMacro(t)), x));
    b' := S30(b);
  }

  /** Five uses of P, after which every register is back in its place. */
  method FiveRounds(w: array<Long>, ghost block: Block, ghost h: Regs, t: nat, A: Long, B: Long, C: Long, D: Long, E: Long)
    returns (a: Long, b: Long, c: Long, d: Long, e: Long)
    requires Loaded(w[..], block, t) && LowRegs(A, B, C, D, E) == Rounds(block, h, t)
    modifies w
    ensures Loaded(w[..], block, t + 5) && LowRegs(a, b, c, d, e) == Rounds(block, h, t + 5)
  {
    hide Low, W, Rounds, Window;
    a, b, c, d, e := A, B, C, D, E;
    e, b := P(w, block, h, t, a, b, c, d, e);
    d, a := P(w, block, h, t + 1, e, a, b, c, d);
    c, e := P(w, block, h, t + 2, d, e, a, b, c);
    b, d := P(w, block, h, t + 3, c, d, e, a, b);
    a, c := P(w, block, h, t + 4, b, c, d, e, a);
  }

  /** Twenty rounds, one definition of F and K. */
  method TwentyRounds(w: array<Long>, ghost block: Block, ghost h: Regs, t: nat, A: Long, B: Long, C: Long, D: Long, E: Long)
    returns (a: Long, b: Long, c: Long, d: Long, e: Long)
    requires Loaded(w[..], block, t) && LowRegs(A, B, C, D, E) == Rounds(block, h, t)
    modifies w
    ensures Loaded(w[..], block, t + 20) && LowRegs(a, b, c, d, e) == Rounds(block, h, t + 20)
  {
    hide LowRegs, Rounds, Loaded;
    a, b, c, d, e := FiveRounds(w, block, h, t, A, B, C, D, E);
    a, b, c, d, e := FiveRounds(w, block, h, t + 5, a, b, c, d, e);
    a, b, c, d, e := FiveRounds(w, block, h, t + 10, a, b, c, d, e);
    a, b, c, d, e := FiveRounds(w, block, h, t + 15, a, b, c, d, e);
  }

  class Context {
    /** `total[0]`, `total[1]`: the length of the input so far, in two parts. */
    var total0: nat
    var total1: nat
    const state: array<Long>
    const buffer: array<byte>
    /** Everything given to `Update` so far. */
    ghost var message: seq<byte>

    /** The low word counts modulo 2^32; the state has swallowed the whole blocks, and the
        buffer begins with what is left over. */
    ghost predicate Valid()
      reads this, state, buffer
    {
      && state.Length == 5 && buffer.Length == 64
      && total0 == |message| % WORD
      && LowState(state[..]) == Fold(Compress, IV, Whole(message))
      && buffer[..|message| % 64] == Rest(message)
    }

    /** Both counters together are the length. */
    ghost predicate Exact()
      reads this
    {
      Total(total0, total1) == |message|
    }

    constructor ()
      ensures state.Length == 5 && buffer.Length == 64 && fresh(state) && fresh(buffer)
    {
      state, buffer := new Long[5], new byte[64];
    }

    /** `sha1_starts`. */
    method Starts()
      requires state.Length == 5 && buffer.Length == 64
      modifies this, state
      ensures Valid() && Exact() && message == []
    {
      hide LowState, Fold, Whole, Rest;
      FoldNothing();
      NothingAbsorbed();
      total0, total1 := 0, 0;
      StartState();
      message := [];
    }

    method StartState()
      requires state.Length == 5
      modifies state
      ensures LowState(state[..]) == IV
    {
      state[0] := 0x67452301;
      state[1] := 0xEFCDAB89;
      state[2] := 0x98BADCFE;
      state[3] := 0x10325476;
      state[4] := 0xC3D2E1F0;
    }

    /** `sha1_process`. */
    method Process(data: Block)
      requires state.Length == 5
      modifies state
      ensures LowState(state[..]) == Compress(old(LowState(state[..])), data)
    {
      hide Low, W, Rounds, Window, GetBE, LowRegs, SumRegs;
      ghost var h := LowState(state[..]);
      var w := new Long[16](i requires 0 <= i < 16 => GetBE(data, i));
      LoadedAtStart(w[..], data);
      RoundsBegin(data, h);
      var a, b, c, d, e := state[0], state[1], state[2], state[3], state[4];
      a, b, c, d, e := TwentyRounds(w, data, h, 0, a, b, c, d, e);
      a, b, c, d, e := TwentyRounds(w, data, h, 20, a, b, c, d, e);
      a, b, c, d, e := TwentyRounds(w, data, h, 40, a, b, c, d, e);
      a, b, c, d, e := TwentyRounds(w, data, h, 60, a, b, c, d, e);
      AddRegs(a, b, c, d, e);
    }

    /** The additions at the end of `sha1_process`. */
    method AddRegs(a: Long, b: Long, c: Long, d: Long, e: Long)
      requires state.Length == 5
      modifies state
      ensures LowState(state[..]) == SumRegs(old(LowState(state[..])), LowRegs(a, b, c, d, e))
    {
      hide Low, Add, Plus;
      LowAdd(state[0], a);
      LowAdd(state[1], b);
      LowAdd(state[2], c);
      LowAdd(state[3], d);
      LowAdd(state[4], e);
      state[0] := Add(state[0], a);
      state[1] := Add(state[1], b);
      state[2] := Add(state[2], c);
      state[3] := Add(state[3], d);
      state[4] := Add(state[4], e);
    }

    /** `sha1_update`. Any length keeps the state and the buffer right; the pair of counters
        stays right exactly as long as one carry is enough. */
    method Update(input: seq<byte>)
      requires Valid()
      modifies this, state, buffer
      ensures Valid() && message == old(message) + input
      ensures old(Exact()) ==> (Exact() <==> old(total0) + |input| < 2 * WORD)
    {
      if |input| <= 0 {
        assert message + input == message;
        return;
      }
      hide Fold, LowState, Whole, Rest, AddLow, AddHigh;
      CountUp(message, input);
      CarryIff(total0, total1, |input|);
      var left := total0 % 64;
      var fill := 64 - left;
      AddLength(|input|);
      Absorb(input, left, fill);
      message := message + input;
    }

    /** The counters of `sha1_update`. */
    method AddLength(n: nat)
      modifies this`total0, this`total1
      ensures total0 == AddLow(old(total0), n) && total1 == AddHigh(old(total0), old(total1), n, n)
    {
      total0 := total0 + n;
      total0 := total0 % WORD;
      if total0 < n {
        total1 := total1 + 1;
      }
    }

    /** The second half of `sha1_update`: the bytes themselves. */
    method Absorb(input: seq<byte>, left0: nat, fill: nat)
      requires state.Length == 5 && buffer.Length == 64
      requires left0 == |message| % 64 && left0 + fill == 64
      requires LowState(state[..]) == Fold(Compress, IV, Whole(message)) && buffer[..left0] == Rest(message)
      modifies state, buffer
      ensures var m := message + input;
        LowState(state[..]) == Fold(Compress, IV, Whole(m)) && buffer[..|m| % 64] == Rest(m)
    {
      hide Fold, LowState, Whole, Rest, Compress;
      var left, pos := left0, 0;
      ghost var done := message;
      assert input[0..] == input;
      if left != 0 && |input| >= fill {
        CopyInto(buffer, left, input[..fill]);
        assert buffer[..] == Rest(done) + input[..fill];
        FillsUp(Compress, IV, done, input[..fill]);
        Process(buffer[..]);
        MovesOn(done, input, 0, fill);
        done := done + input[..fill];
        pos := fill;
        left := 0;
      }
      while |input| - pos >= 64
        invariant pos <= |input| && done + input[pos..] == message + input
        invariant left == |done| % 64 && (left != 0 ==> left + |input| - pos < 64)
        invariant LowState(state[..]) == Fold(Compress, IV, Whole(done)) && buffer[..left] == Rest(done)
      {
        FillsUp(Compress, IV, done, input[pos..pos + 64]);
        assert Rest(done) + input[pos..pos + 64] == input[pos..pos + 64];
        Process(input[pos..pos + 64]);
        MovesOn(done, input, pos, pos + 64);
        done := done + input[pos..pos + 64];
        pos := pos + 64;
      }
      LeftOver(done, input[pos..]);
      if |input| - pos > 0 {
        CopyInto(buffer, left, input[pos..]);
      }
      assert buffer[..left + |input| - pos] == Rest(done) + input[pos..];
    }

    /** `sha1_finish`: the digest of the padded message, with the length the counters hold. */
    method Finish(output: array<byte>)
      requires Valid() && output.Length >= 20 && output != buffer
      modifies this, state, buffer, output
      ensures output[..20] == DigestBytes(Fold(Compress, IV, Padded(old(message), LengthBE(old(Total(total0, total1))))))
      ensures old(Exact()) ==> output[..20] == Digest(old(message))
    {
      hide Fold, LowState, Whole, Rest, DigestBytes, LengthBE, Compress;
      ghost var m := message;
      var high := BitsHigh(total0, total1);
      var low := BitsLow(total0);
      LengthFromCounters(total0, total1);
      var msglen := PutBE(high) + PutBE(low);
      CountUp(m, []);
      var last := total0 % 64;
      var padn := if last < 56 then 56 - last else 120 - last;
      Update(PADDING[..padn]);
      Update(msglen);
      assert message == Padded(m, msglen);
      NothingLeft(message);
      PutDigest(output);
    }

    /** The five PUT_ULONG_BE at the end. */
    method PutDigest(output: array<byte>)
      requires state.Length == 5 && output.Length >= 20
      modifies output
      ensures output[..20] == DigestBytes(LowState(state[..]))
    {
      hide Low, PutLong, WordBE;
      PutLow(state[0]);
      PutLow(state[1]);
      PutLow(state[2]);
      PutLow(state[3]);
      PutLow(state[4]);
      CopyInto(output, 0, PutLong(state[0]));
      CopyInto(output, 4, PutLong(state[1]));
      CopyInto(output, 8, PutLong(state[2]));
      CopyInto(output, 12, PutLong(state[3]));
      CopyInto(output, 16, PutLong(state[4]));
    }
  }

  lemma NothingLeft(m: seq<byte>)
    requires |m| % 64 == 0
    ensures Whole(m) == m
  {
  }

  /** `sha1`: in one call. */
  method Hash(input: seq<byte>, output: array<byte>)
    requires output.Length >= 20
    modifies output
    ensures |input| < 2 * WORD ==> output[..20] == Digest(input)
  {
    hide Fold, LowState, Whole, Rest, Digest, DigestBytes, Padded, LengthBE;
    var ctx := new Context();
    ctx.Starts();
    ctx.Update(input);
    assert ctx.message == input;
    ctx.Finish(output);
  }
}
