/** Restarts: which updates a new process knows of, and runs that mix failing updates with
    restarts. */
module DdnsRestarts {
  import opened Wrappers
  import opened Ddns
  import opened DdnsSlots
  import opened DdnsSafety

  /** A restarted client starts out with the cached address, or with what DNS says where there
      is no cache file. It is safe exactly if that is the address on record. */
  lemma RestartSafeIff(ps: seq<Provider>, w: World, lookup: (nat, nat) -> Option<string>, p: nat, i: nat)
    requires p < |ps| && i < |ps[p].names|
    ensures var s := SlotOf(ps, ReadCache(ps, w, lookup), w, p, i);
      Safe(s) <==> s.record == Some(Seeded(CachedAddress(s), lookup(p, i)))
  {
  }

  function Seeded(cached: Option<string>, answer: Option<string>): string {
    if cached.Some? then cached.value else if answer.Some? then answer.value else ""
  }

  function CachedAddress(s: Slot): Option<string> {
    if s.cached.Some? then Some(s.cached.value.address) else None
  }

  // ------------------------------------------------------------ acknowledged, and written

  /** An update the server acknowledges, and whether its cache file could be written. */
  datatype Ack = Ack(address: string, written: bool)

  /** The acknowledged updates of one alias in a round: a made-up one, which is never written,
      and a real one. */
  ghost function RoundAcks(opt: Settings, ps: seq<Provider>, env: Round, c: Client, p: nat, i: nat): seq<Ack>
    requires Fits(ps, c.table) && p < |ps| && i < |ps[p].names|
  {
    (if FakeAcknowledged(opt, ps, env, c.table, p, i) then [Ack(env.random(p, i), false)] else []) +
    (if Acknowledged(opt, ps, env, c.table, p, i)
     then [Ack(SlotBefore(opt, ps, env, c.table, p, i, SlotOf(ps, c.table, c.world, p, i)).alias.address, env.writable(p, i))]
     else [])
  }

  ghost function Acks(opt: Settings, ps: seq<Provider>, es: seq<Event>, c: Client, p: nat, i: nat): seq<Ack>
    requires Fits(ps, c.table) && p < |ps| && i < |ps[p].names|
    decreases |es|
  {
    if es == [] then []
    else
      (if es[0].Checked? then RoundAcks(opt, ps, es[0].env, c, p, i) else []) +
      Acks(opt, ps, es[1..], Step(opt, ps, es[0], c), p, i)
  }

  function LastAcked(acks: seq<Ack>, before: Option<string>): Option<string> {
    if acks == [] then before else Some(acks[|acks| - 1].address)
  }

  function LastWritten(acks: seq<Ack>, before: Option<string>): Option<string> {
    if acks == [] then before
    else
      var last := acks[|acks| - 1];
      if last.written then Some(last.address) else LastWritten(acks[..|acks| - 1], before)
  }

  lemma {:induction false} LastAppend(a: seq<Ack>, b: seq<Ack>, before: Option<string>)
    ensures LastAcked(a + b, before) == LastAcked(b, LastAcked(a, before))
    ensures LastWritten(a + b, before) == LastWritten(b, LastWritten(a, before))
    decreases |b|
  {
    if b == [] {
      assert a + b == a;
    } else {
      assert (a + b)[..|a + b| - 1] == a + b[..|b| - 1];
      LastAppend(a, b[..|b| - 1], before);
    }
  }

  lemma RoundRecords(opt: Settings, ps: seq<Provider>, env: Round, c: Client, p: nat, i: nat)
    requires Fits(ps, c.table) && DistinctKeys(ps) && p < |ps| && i < |ps[p].names|
    ensures var before := SlotOf(ps, c.table, c.world, p, i);
      var after := ProgressSlot(ps, CheckAddress(opt, ps, env, c.table, c.world), p, i);
      var acks := RoundAcks(opt, ps, env, c, p, i);
      && after.record == LastAcked(acks, before.record)
      && CachedAddress(after) == LastWritten(acks, CachedAddress(before))
  {
    hide CheckAddress, Blocked, FakeBlocked, DistinctKeys, Prepared, LastWritten;
    RoundIsSlotwise(opt, ps, env, c.table, c.world, p, i);
    PreparedIsSlotwise(opt, ps, env, c.table, p, i);
    var before := SlotOf(ps, c.table, c.world, p, i);
    var middle := SlotBefore(opt, ps, env, c.table, p, i, before);
    assert middle.alias.required == Prepared(opt, env, c.table)[p][i].required;
    var fake := if FakeAcknowledged(opt, ps, env, c.table, p, i) then [Ack(env.random(p, i), false)] else [];
    var sent := if Acknowledged(opt, ps, env, c.table, p, i) then [Ack(middle.alias.address, env.writable(p, i))] else [];
    LastAppend(fake, sent, before.record);
    LastAppend(fake, sent, CachedAddress(before));
    LastOfOne(env.random(p, i), false, CachedAddress(before));
    LastOfOne(middle.alias.address, env.writable(p, i), CachedAddress(before));
  }

  lemma LastOfOne(address: string, written: bool, before: Option<string>)
    ensures LastWritten([Ack(address, written)], before) == if written then Some(address) else before
    ensures LastWritten([], before) == before
  {
  }

  /** After any run, the server has the address acknowledged last, and the cache file the one
      that was written last. */
  lemma {:induction false} RunRecords(opt: Settings, ps: seq<Provider>, es: seq<Event>, c: Client, p: nat, i: nat)
    requires Fits(ps, c.table) && DistinctKeys(ps) && p < |ps| && i < |ps[p].names|
    ensures var before := SlotOf(ps, c.table, c.world, p, i);
      var end := Run(opt, ps, es, c);
      var after := SlotOf(ps, end.table, end.world, p, i);
      var acks := Acks(opt, ps, es, c, p, i);
      && after.record == LastAcked(acks, before.record)
      && CachedAddress(after) == LastWritten(acks, CachedAddress(before))
    decreases |es|
  {
    hide CheckAddress, ForceAll, ReadCache, DistinctKeys, RoundAcks, LastAcked, LastWritten;
    if es == [] {
      LastAppend([], [], None);
      NothingAcked(SlotOf(ps, c.table, c.world, p, i));
    } else {
      var next := Step(opt, ps, es[0], c);
      RunRecords(opt, ps, es[1..], next, p, i);
      var first := if es[0].Checked? then RoundAcks(opt, ps, es[0].env, c, p, i) else [];
      var rest := Acks(opt, ps, es[1..], next, p, i);
      var before := SlotOf(ps, c.table, c.world, p, i);
      if es[0].Checked? { RoundRecords(opt, ps, es[0].env, c, p, i); } else { NothingAcked(before); }
      LastAppend(first, rest, before.record);
      LastAppend(first, rest, CachedAddress(before));
    }
  }

  lemma NothingAcked(s: Slot)
    ensures LastAcked([], s.record) == s.record && LastWritten([], CachedAddress(s)) == CachedAddress(s)
  {
  }

  /** A restart at the end of any run keeps the alias safe if and only if the address
      acknowledged last is the one written last; with none ever written, if and only if it is
      what DNS says. */
  lemma RestartAfterRunIff(opt: Settings, ps: seq<Provider>, es: seq<Event>, c: Client,
                           lookup: (nat, nat) -> Option<string>, p: nat, i: nat)
    requires Fits(ps, c.table) && DistinctKeys(ps) && p < |ps| && i < |ps[p].names|
    ensures var before := SlotOf(ps, c.table, c.world, p, i);
      var acks := Acks(opt, ps, es, c, p, i);
      var end := Step(opt, ps, Restarted(lookup), Run(opt, ps, es, c));
      Safe(SlotOf(ps, end.table, end.world, p, i)) <==>
      LastAcked(acks, before.record) == Some(Seeded(LastWritten(acks, CachedAddress(before)), lookup(p, i)))
  {
    hide Run, Acks, ReadCache, DistinctKeys;
    var end := Run(opt, ps, es, c);
    RunRecords(opt, ps, es, c, p, i);
    RestartSafeIff(ps, end.world, lookup, p, i);
  }

  // ------------------------------------------------------------ nothing is lost across restarts

  /** The cache file, if there is one, tells the truth; and the alias is safe, or due because
      there was no file when the process started. */
  predicate Sound(s: Slot) {
    && (s.cached.Some? ==> s.record == Some(s.cached.value.address))
    && (Safe(s) || s.alias.lastUpdate == 0)
  }

  ghost predicate AllSound(ps: seq<Provider>, c: Client)
    requires Fits(ps, c.table)
  {
    forall p, i {:trigger SlotOf(ps, c.table, c.world, p, i)} ::
      0 <= p < |ps| && 0 <= i < |ps[p].names| ==> Sound(SlotOf(ps, c.table, c.world, p, i))
  }

  /** The request can be composed; if it is answered well the cache file can be written; and
      the clock has passed the forced period. Checkip and the update itself may fail. */
  predicate OrderlyAt(opt: Settings, ps: seq<Provider>, env: Round, p: nat, i: nat)
    requires p < |ps|
  {
    && env.reply(p, i).length >= 0 && env.now(p, i) > opt.forcedPeriod
    && (Succeeds(ps[p].setup, env.reply(p, i)) ==> env.writable(p, i))
  }

  ghost predicate Orderly(opt: Settings, ps: seq<Provider>, e: Event) {
    e.Checked? ==> forall p, i :: 0 <= p < |ps| && 0 <= i < |ps[p].names| ==> OrderlyAt(opt, ps, e.env, p, i)
  }

  lemma SoundRound(opt: Settings, ps: seq<Provider>, env: Round, c: Client, p: nat, i: nat)
    requires Fits(ps, c.table) && DistinctKeys(ps) && Lossless(opt, ps) && Orderly(opt, ps, Checked(env))
    requires p < |ps| && i < |ps[p].names| && Sound(SlotOf(ps, c.table, c.world, p, i))
    ensures var after := ProgressSlot(ps, CheckAddress(opt, ps, env, c.table, c.world), p, i);
      Sound(after) && Safe(after)
  {
    hide CheckAddress, DistinctKeys, Prepared;
    assert OrderlyAt(opt, ps, env, p, i);
    RoundIsSlotwise(opt, ps, env, c.table, c.world, p, i);
    assert !Blocked(opt.mode, ps[p].setup, env, p, Prepared(opt, env, c.table)[p], 0, i);
  }

  lemma SoundStep(opt: Settings, ps: seq<Provider>, e: Event, c: Client)
    requires Fits(ps, c.table) && DistinctKeys(ps) && Lossless(opt, ps) && Orderly(opt, ps, e)
    requires AllSound(ps, c)
    ensures var r := Step(opt, ps, e, c);
      AllSound(ps, r) && (!e.Restarted? ==> AllSafe(ps, r.table, r.world))
  {
    hide CheckAddress, DistinctKeys, Lossless, Orderly;
    var r := Step(opt, ps, e, c);
    forall p, i | 0 <= p < |ps| && 0 <= i < |ps[p].names|
      ensures Sound(SlotOf(ps, r.table, r.world, p, i))
      ensures !e.Restarted? ==> Safe(SlotOf(ps, r.table, r.world, p, i))
    {
      assert Sound(SlotOf(ps, c.table, c.world, p, i));
      if e.Checked? { SoundRound(opt, ps, e.env, c, p, i); }
    }
  }

  /** No update is lost in runs that mix failing checkips, failing updates, forced updates and
      restarts: every round ends safe. */
  lemma {:induction false} NothingIsLostAcrossRestarts(opt: Settings, ps: seq<Provider>, es: seq<Event>, c: Client)
    requires Fits(ps, c.table) && DistinctKeys(ps) && Lossless(opt, ps)
    requires forall k :: 0 <= k < |es| ==> Orderly(opt, ps, es[k])
    requires AllSound(ps, c)
    ensures var r := Run(opt, ps, es, c);
      AllSound(ps, r) && (es != [] && !es[|es| - 1].Restarted? ==> AllSafe(ps, r.table, r.world))
    decreases |es|
  {
    hide Step, DistinctKeys, Lossless, Orderly, AllSound, AllSafe;
    if es != [] {
      SoundStep(opt, ps, es[0], c);
      NothingIsLostAcrossRestarts(opt, ps, es[1..], Step(opt, ps, es[0], c));
    }
  }
}
