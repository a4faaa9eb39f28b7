/** Two facts about division that the byte-level proofs need: a multiple of the divisor can be
    split off the dividend, and what a multiple of 256 units adds to a number does not show in
    the byte above the unit. The first is what the length counters of the digests rest on, the
    second what the accumulator of the Base64 decoder rests on, which is never reset between
    groups; both come down to quotient and remainder being unique. */
module Division {

  lemma DivShift(l: nat, unit: nat, a: nat)
    requires unit > 0
    ensures (l + unit * a) / unit == l / unit + a
  {
    var q, r := l / unit, l % unit;
    assert l == unit * q + r;
    assert l + unit * a == unit * (q + a) + r;
    DivUnique(l + unit * a, unit, q + a, r);
  }

  lemma DivUnique(n: nat, unit: nat, q: nat, r: nat)
    requires r < unit && n == unit * q + r
    ensures n / unit == q
  {
    var d := n / unit;
    var m := n % unit;
    assert unit * d + m == unit * q + r;
    assert d < q ==> unit * (d + 1) <= unit * q;
    assert q < d ==> unit * (q + 1) <= unit * d;
  }

  /** A multiple of 256 units does not show in the byte above `unit`. */
  lemma ByteShift(l: nat, unit: nat, k: nat)
    requires unit > 0
    ensures ((l + 256 * unit * k) / unit) % 256 == (l / unit) % 256
  {
    var a := 256 * k;
    assert l + 256 * unit * k == l + unit * a;
    DivShift(l, unit, a);
    assert (l / unit + 256 * k) % 256 == (l / unit) % 256;
  }
}
