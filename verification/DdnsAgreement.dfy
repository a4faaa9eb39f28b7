/** Cache, server record and memory agree: the runs in which nothing fails, restarts
    included. */
module DdnsAgreement {
  import opened Wrappers
  import opened Ddns
  import opened DdnsSlots
  import DdnsSafety

  /** Checkip, updates and cache files all work; the clock does not run backwards within the
      round and has passed the forced period. No update is forced by command. */
  ghost predicate Smooth(opt: Settings, ps: seq<Provider>, e: Event) {
    && !e.Forced?
    && (e.Checked? ==> forall p, i :: 0 <= p < |ps| && 0 <= i < |ps[p].names| ==> SmoothAt(opt, ps, e.env, p, i))
  }

  predicate SmoothAt(opt: Settings, ps: seq<Provider>, env: Round, p: nat, i: nat)
    requires p < |ps|
  {
    && env.ip(p).Some? && Succeeds(ps[p].setup, env.reply(p, i)) && env.writable(p, i)
    && opt.forcedPeriod < env.now(p, i) <= env.done(p, i)
  }

  // ------------------------------------------------------------ one alias

  /** Consecutive updates differ in their address or lie more than `period` apart. */
  predicate Spaced(sent: seq<Entry>, period: int) {
    forall k :: 0 < k < |sent| ==> sent[k].address != sent[k - 1].address || sent[k].time - sent[k - 1].time > period
  }

  /** The cache file tells what was acknowledged last; without one nothing ever was. */
  predicate Faithful(s: Slot) {
    match s.cached
    case Some(e) => s.record == Some(e.address) && (s.sent != [] ==> s.sent[|s.sent| - 1] == e)
    case None => s.sent == []
  }

  /** Between rounds: the client holds what its cache file holds, or is due for an update. */
  predicate InStep(s: Slot, period: int) {
    && !s.alias.force && Faithful(s) && Spaced(s.sent, period)
    && match s.cached
       case Some(e) => s.alias.address == e.address && s.alias.lastUpdate == e.time
       case None => s.alias.lastUpdate == 0
  }

  /** At the end of a round: record, cache file and memory hold the same address. */
  predicate Agreed(s: Slot, current: Option<string>, period: int) {
    && InStep(s, period)
    && Some(s.alias.address) == current == s.record
    && s.cached == Some(Entry(s.alias.address, s.alias.lastUpdate))
  }

  lemma SmoothRoundAgrees(opt: Settings, ps: seq<Provider>, env: Round, c: Client, p: nat, i: nat)
    requires Fits(ps, c.table) && DistinctKeys(ps) && !opt.fakeAddress && Smooth(opt, ps, Checked(env))
    requires p < |ps| && i < |ps[p].names|
    requires InStep(SlotOf(ps, c.table, c.world, p, i), opt.forcedPeriod)
    ensures var r := CheckAddress(opt, ps, env, c.table, c.world);
      Agreed(SlotOf(ps, r.table, r.world, p, i), env.ip(p), opt.forcedPeriod)
  {
    hide CheckAddress, DistinctKeys, Prepared, FakeBlocked;
    assert SmoothAt(opt, ps, env, p, i);
    forall k | 0 <= k < i ensures Succeeds(ps[p].setup, env.reply(p, k)) {
      assert SmoothAt(opt, ps, env, p, k);
    }
    assert !Blocked(opt.mode, ps[p].setup, env, p, Prepared(opt, env, c.table)[p], 0, i);
    RoundIsSlotwise(opt, ps, env, c.table, c.world, p, i);
    hide Blocked, InStep, Agreed;
    SmoothSlotAgrees(SlotOf(ps, c.table, c.world, p, i), ps[p].setup, env.reply(p, i), env.ip(p).value,
                     env.now(p, i), env.done(p, i), opt.forcedPeriod);
  }

  /** The alias on its own: sent if its address is new or the period is over, and agreed. */
  lemma SmoothSlotAgrees(s: Slot, setup: bool, reply: Reply, ip: string, now: int, done: int, period: int)
    requires Succeeds(setup, reply) && period < now <= done && InStep(s, period)
    ensures var prepared := s.(alias := PrepareAlias(s.alias, Some(ip), now, period));
      Agreed(if prepared.alias.required then SlotSend(setup, prepared, reply, done, true) else prepared, Some(ip), period)
  {
  }

  /** A restart seeds the client from the cache file. */
  lemma RestartStaysInStep(ps: seq<Provider>, c: Client, lookup: (nat, nat) -> Option<string>, p: nat, i: nat, period: int)
    requires Fits(ps, c.table) && p < |ps| && i < |ps[p].names|
    requires InStep(SlotOf(ps, c.table, c.world, p, i), period)
    ensures InStep(SlotOf(ps, ReadCache(ps, c.world, lookup), c.world, p, i), period)
  {
    assert ReadCache(ps, c.world, lookup)[p][i] == ReadOne(BLANK, Cached(c.world, KeyOf(ps, p, i)), lookup(p, i));
  }

  // ------------------------------------------------------------ whole runs

  ghost predicate AllInStep(opt: Settings, ps: seq<Provider>, c: Client)
    requires Fits(ps, c.table)
  {
    forall p, i {:trigger SlotOf(ps, c.table, c.world, p, i)} ::
      0 <= p < |ps| && 0 <= i < |ps[p].names| ==> InStep(SlotOf(ps, c.table, c.world, p, i), opt.forcedPeriod)
  }

  lemma StepStaysInStep(opt: Settings, ps: seq<Provider>, e: Event, c: Client)
    requires Fits(ps, c.table) && DistinctKeys(ps) && !opt.fakeAddress && Smooth(opt, ps, e)
    requires AllInStep(opt, ps, c)
    ensures AllInStep(opt, ps, Step(opt, ps, e, c))
  {
    hide CheckAddress, DistinctKeys, InStep, ReadCache;
    var r := Step(opt, ps, e, c);
    forall p, i | 0 <= p < |ps| && 0 <= i < |ps[p].names|
      ensures InStep(SlotOf(ps, r.table, r.world, p, i), opt.forcedPeriod)
    {
      assert InStep(SlotOf(ps, c.table, c.world, p, i), opt.forcedPeriod);
      if e.Checked? {
        SmoothRoundAgrees(opt, ps, e.env, c, p, i);
      } else {
        RestartStaysInStep(ps, c, e.lookup, p, i, opt.forcedPeriod);
      }
    }
  }

  /** Throughout a smooth run, restarts included, every alias stays in step; in particular
      its acknowledged updates are spaced, across restarts too. */
  lemma {:induction false} RunsStayInStep(opt: Settings, ps: seq<Provider>, es: seq<Event>, c: Client)
    requires Fits(ps, c.table) && DistinctKeys(ps) && !opt.fakeAddress
    requires forall k :: 0 <= k < |es| ==> Smooth(opt, ps, es[k])
    requires AllInStep(opt, ps, c)
    ensures AllInStep(opt, ps, Run(opt, ps, es, c))
    decreases |es|
  {
    hide Step, DistinctKeys, Smooth, AllInStep;
    if es != [] {
      StepStaysInStep(opt, ps, es[0], c);
      RunsStayInStep(opt, ps, es[1..], Step(opt, ps, es[0], c));
    }
  }

  /** The round that ends such a run leaves record, cache and memory at the address checkip
      reported, for every alias. */
  lemma EveryRoundAgrees(opt: Settings, ps: seq<Provider>, es: seq<Event>, last: Round, c: Client, p: nat, i: nat)
    requires Fits(ps, c.table) && DistinctKeys(ps) && !opt.fakeAddress
    requires forall k :: 0 <= k < |es| ==> Smooth(opt, ps, es[k])
    requires Smooth(opt, ps, Checked(last)) && p < |ps| && i < |ps[p].names|
    requires AllInStep(opt, ps, c)
    ensures var before := Run(opt, ps, es, c);
      var r := Step(opt, ps, Checked(last), before);
      Agreed(SlotOf(ps, r.table, r.world, p, i), last.ip(p), opt.forcedPeriod)
  {
    hide Run, CheckAddress, DistinctKeys, Smooth, Agreed, InStep;
    RunsStayInStep(opt, ps, es, c);
    var before := Run(opt, ps, es, c);
    assert InStep(SlotOf(ps, before.table, before.world, p, i), opt.forcedPeriod);
    SmoothRoundAgrees(opt, ps, last, before, p, i);
  }

  /** The last acknowledged update is never longer ago than the forced period when a round of
      such a run ends. */
  predicate Fresh(s: Slot, now: int, period: int) {
    && now - s.alias.lastUpdate <= period
    && (s.sent != [] ==> now - s.sent[|s.sent| - 1].time <= period)
  }

  lemma SmoothRoundIsFresh(opt: Settings, ps: seq<Provider>, env: Round, c: Client, p: nat, i: nat)
    requires Fits(ps, c.table) && DistinctKeys(ps) && !opt.fakeAddress && Smooth(opt, ps, Checked(env))
    requires p < |ps| && i < |ps[p].names| && opt.forcedPeriod >= 0
    requires InStep(SlotOf(ps, c.table, c.world, p, i), opt.forcedPeriod)
    ensures var r := CheckAddress(opt, ps, env, c.table, c.world);
      Fresh(SlotOf(ps, r.table, r.world, p, i), env.now(p, i), opt.forcedPeriod)
  {
    hide CheckAddress, DistinctKeys, Prepared, FakeBlocked;
    assert SmoothAt(opt, ps, env, p, i);
    forall k | 0 <= k < i ensures Succeeds(ps[p].setup, env.reply(p, k)) {
      assert SmoothAt(opt, ps, env, p, k);
    }
    assert !DdnsSafety.Skipped(opt, ps, env, c.table, p, i);
    hide Blocked;
    SmoothRoundAgrees(opt, ps, env, c, p, i);
    DdnsSafety.StaysFresh(opt, ps, env, c.table, c.world, p, i);
  }

  /** Bounded staleness beside the spacing: throughout a smooth run, restarts included, updates
      are neither repeated too soon nor put off too long. */
  lemma {:induction false} EveryRoundIsFresh(opt: Settings, ps: seq<Provider>, es: seq<Event>, last: Round, c: Client,
                                             p: nat, i: nat)
    requires Fits(ps, c.table) && DistinctKeys(ps) && !opt.fakeAddress && opt.forcedPeriod >= 0
    requires forall k :: 0 <= k < |es| ==> Smooth(opt, ps, es[k])
    requires Smooth(opt, ps, Checked(last)) && p < |ps| && i < |ps[p].names|
    requires AllInStep(opt, ps, c)
    ensures var before := Run(opt, ps, es, c);
      var r := Step(opt, ps, Checked(last), before);
      var s := SlotOf(ps, r.table, r.world, p, i);
      Fresh(s, last.now(p, i), opt.forcedPeriod) && Spaced(s.sent, opt.forcedPeriod)
  {
    hide Run, CheckAddress, DistinctKeys, Smooth, Fresh, Spaced;
    RunsStayInStep(opt, ps, es, c);
    var before := Run(opt, ps, es, c);
    assert InStep(SlotOf(ps, before.table, before.world, p, i), opt.forcedPeriod);
    SmoothRoundAgrees(opt, ps, last, before, p, i);
    SmoothRoundIsFresh(opt, ps, last, before, p, i);
  }

  /** A first start qualifies when every cache file there is names the address on record. */
  lemma FirstStartIsInStep(opt: Settings, ps: seq<Provider>, w: World, lookup: (nat, nat) -> Option<string>)
    requires w.log == []
    requires forall p, i {:trigger KeyOf(ps, p, i)} :: 0 <= p < |ps| && 0 <= i < |ps[p].names| ==>
      var k := KeyOf(ps, p, i); Cached(w, k).Some? ==> RecordOf(w, k) == Some(Cached(w, k).value.address)
    ensures AllInStep(opt, ps, Client(ReadCache(ps, w, lookup), w))
  {
    var table := ReadCache(ps, w, lookup);
    forall p, i | 0 <= p < |ps| && 0 <= i < |ps[p].names|
      ensures InStep(SlotOf(ps, table, w, p, i), opt.forcedPeriod)
    {
      assert table[p][i] == ReadOne(BLANK, Cached(w, KeyOf(ps, p, i)), lookup(p, i));
    }
  }

  /** The cache files matter: if one cannot be written, a restarted client takes the old
      address for the one on record, and does not send it. */
  lemma UnwrittenCacheLosesAnUpdate(period: int, x: string, y: string)
    requires period >= 10 && x != y
    ensures var opt := Settings(Event, false, period);
      var w := World(map[DdnsSafety.HOST := x], map[CacheName(DdnsSafety.HOST) := Entry(x, 20)], []);
      var start := Client(ReadCache(DdnsSafety.SINGLE, w, (_, _) => None), w);
      var first := Checked(DdnsSafety.RoundAt(21, y, (_, _) => DdnsSafety.GOOD).(writable := (_, _) => false));
      var second := Checked(DdnsSafety.RoundAt(22, x, (_, _) => DdnsSafety.GOOD));
      var c1 := Step(opt, DdnsSafety.SINGLE, first, start);
      var c2 := Step(opt, DdnsSafety.SINGLE, Restarted((_, _) => None), c1);
      var c3 := Step(opt, DdnsSafety.SINGLE, second, c2);
      && InStep(SlotOf(DdnsSafety.SINGLE, start.table, w, 0, 0), period)
      && c3.table[0][0].address == x && !c3.table[0][0].required && !c3.table[0][0].force
      && RecordOf(c3.world, DdnsSafety.HOST) == Some(y)
  {
    hide CheckAddress, DistinctKeys;
    var opt := Settings(Event, false, period);
    var w := World(map[DdnsSafety.HOST := x], map[CacheName(DdnsSafety.HOST) := Entry(x, 20)], []);
    var start := Client(ReadCache(DdnsSafety.SINGLE, w, (_, _) => None), w);
    var first := DdnsSafety.RoundAt(21, y, (_, _) => DdnsSafety.GOOD).(writable := (_, _) => false);
    var second := DdnsSafety.RoundAt(22, x, (_, _) => DdnsSafety.GOOD);
    var c1 := Step(opt, DdnsSafety.SINGLE, Checked(first), start);
    var c2 := Step(opt, DdnsSafety.SINGLE, Restarted((_, _) => None), c1);
    DdnsSafety.HostsAreDistinct();
    var k := KeyOf(DdnsSafety.SINGLE, 0, 0);
    assert start.table[0][0] == ReadOne(BLANK, Cached(w, k), None) == Alias(false, false, x, false, 20);
    RoundIsSlotwise(opt, DdnsSafety.SINGLE, first, start.table, w, 0, 0);
    var before := SlotOf(DdnsSafety.SINGLE, start.table, w, 0, 0);
    assert before == Slot(start.table[0][0], Some(x), Some(Entry(x, 20)), []);
    assert c2.world == c1.world && c2.table[0][0] == ReadOne(BLANK, Cached(c1.world, k), None);
    assert SlotOf(DdnsSafety.SINGLE, c2.table, c2.world, 0, 0).alias == start.table[0][0];
    RoundIsSlotwise(opt, DdnsSafety.SINGLE, second, c2.table, c2.world, 0, 0);
  }
}
