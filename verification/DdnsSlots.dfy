/** A round seen from a single alias. */
module DdnsSlots {

  // The nested loops of `update_alias_table` treat every alias independently, but for two flags:
  // whether the pass with made-up addresses, and in COMPAT mode the real pass, has been left
  // before reaching it.

  import opened Wrappers
  import opened Ddns

  /** Everything a round can change about one alias: the client's struct, the server's record,
      the cache file, and the updates acknowledged so far. */
  datatype Slot = Slot(alias: Alias, record: Option<string>, cached: Option<Entry>, sent: seq<Entry>)

  /** The acknowledged updates of one alias, oldest first. */
  function History(log: seq<Sent>, k: Key): seq<Entry> {
    if log == [] then []
    else
      var last := log[|log| - 1];
      History(log[..|log| - 1], k) + (if last.key == k then [Entry(last.address, last.time)] else [])
  }

  function RecordOf(w: World, k: Key): Option<string> {
    if k in w.record then Some(w.record[k]) else None
  }

  function SlotOf(ps: seq<Provider>, table: Table, w: World, p: nat, i: nat): Slot
    requires Fits(ps, table) && p < |ps| && i < |ps[p].names|
  {
    var k := KeyOf(ps, p, i);
    Slot(table[p][i], RecordOf(w, k), Cached(w, k), History(w.log, k))
  }

  /** No two aliases share a cache file (hence none share a record). */
  ghost predicate DistinctKeys(ps: seq<Provider>) {
    forall p, i, q, j {:trigger KeyOf(ps, p, i), KeyOf(ps, q, j)} ::
      0 <= p < |ps| && 0 <= i < |ps[p].names| && 0 <= q < |ps| && 0 <= j < |ps[q].names| && (p != q || i != j)
      ==> CacheName(KeyOf(ps, p, i)) != CacheName(KeyOf(ps, q, j))
  }

  /** Keys whose plugin names have no '-' have the same cache file only if they are equal. */
  lemma CacheFilesDiffer(k: Key, l: Key)
    requires '-' !in k.system && '-' !in l.system
    ensures CacheName(k) == CacheName(l) <==> k == l
  {
    if CacheName(k) == CacheName(l) {
      var a, b := |k.system|, |l.system|;
      assert CacheName(k)[a] == '-' && CacheName(l)[b] == '-';
      assert CacheName(k)[..a] == k.system && CacheName(l)[..a] == l.system;
      assert CacheName(k)[a + 1..] == k.name && CacheName(l)[a + 1..] == l.name;
    }
  }

  /** With a '-' in it, two plugins can share a file. */
  lemma CacheFilesCanCoincide()
    ensures CacheName(Key("a-b", "c")) == CacheName(Key("a", "b-c")) == "a-b-c"
  {
  }

  // ------------------------------------------------------------ one alias, one round

  /** Every answer to the update is the good one. */
  predicate Succeeds(setup: bool, reply: Reply) {
    !(setup && reply.setup != 0) && reply.init == 0 && reply.length >= 0 && reply.transaction == 0 && reply.response == 0
  }

  /** The two failures that return before the flag is set. */
  predicate FailsSilently(setup: bool, reply: Reply) {
    (setup && reply.setup != 0) || (reply.init == 0 && reply.length < 0)
  }

  /** An update the client tries, at time `t`. */
  function SlotSend(setup: bool, s: Slot, reply: Reply, t: int, writable: bool): Slot {
    if Succeeds(setup, reply) then
      Slot(s.alias.(force := false, required := false, lastUpdate := t), Some(s.alias.address),
           if writable then Some(Entry(s.alias.address, t)) else s.cached, s.sent + [Entry(s.alias.address, t)])
    else if FailsSilently(setup, reply) then s
    else s.(alias := s.alias.(force := true))
  }

  function PrepareAlias(a: Alias, ip: Option<string>, now: int, period: int): Alias {
    CheckAlias(if ip.Some? then FetchAlias(a, ip.value) else a, now, period)
  }

  /** COMPAT mode has met a failing update among the aliases `from..i` of provider `p`. */
  ghost predicate Blocked(mode: Mode, setup: bool, env: Round, p: nat, aliases: seq<Alias>, from: nat, i: nat)
    requires i <= |aliases|
  {
    mode.Compat? && exists k :: from <= k < i && aliases[k].required && !Succeeds(setup, env.reply(p, k))
  }

  ghost function SlotTurn(mode: Mode, ps: seq<Provider>, p: nat, env: Round, aliases: seq<Alias>, from: nat, i: nat, s: Slot): Slot
    requires p < |ps| && i <= |aliases|
  {
    if !s.alias.required || Blocked(mode, ps[p].setup, env, p, aliases, from, i) then s
    else SlotSend(ps[p].setup, s, env.reply(p, i), env.done(p, i), env.writable(p, i))
  }

  /** The fake pass has met a failing update among the aliases `from..i` of provider `p`. */
  ghost predicate FakeBlocked(setup: bool, env: Round, p: nat, aliases: seq<Alias>, from: nat, i: nat)
    requires i <= |aliases|
  {
    exists k :: from <= k < i && aliases[k].force && !Succeeds(setup, env.fakeReply(p, k))
  }

  /** The fake pass reaches alias `i`, and the alias is flagged. */
  ghost predicate Faked(ps: seq<Provider>, p: nat, env: Round, aliases: seq<Alias>, from: nat, i: nat)
    requires p < |ps| && i < |aliases|
  {
    aliases[i].force && !FakeBlocked(ps[p].setup, env, p, aliases, from, i)
  }

  /** An update of a flagged alias with a made-up address. On success the flag is gone and the
      address is put back; on failure both stay as they are then. No cache file is written. */
  function SlotFake(setup: bool, s: Slot, random: string, reply: Reply, t: int): Slot {
    if Succeeds(setup, reply) then
      s.(alias := s.alias.(force := false), record := Some(random), sent := s.sent + [Entry(random, t)])
    else s.(alias := s.alias.(address := random))
  }

  ghost function SlotFakeTurn(ps: seq<Provider>, p: nat, env: Round, aliases: seq<Alias>, from: nat, i: nat, s: Slot): Slot
    requires p < |ps| && i < |aliases|
  {
    if Faked(ps, p, env, aliases, from, i)
    then SlotFake(ps[p].setup, s, env.random(p, i), env.fakeReply(p, i), env.done(p, i)) else s
  }

  /** The alias as it stands when the real pass begins. */
  ghost function SlotBefore(opt: Settings, ps: seq<Provider>, env: Round, table: Table, p: nat, i: nat, s: Slot): Slot
    requires Fits(ps, table) && p < |ps| && i < |ps[p].names|
  {
    var prepared := s.(alias := PrepareAlias(s.alias, env.ip(p), env.now(p, i), opt.forcedPeriod));
    if opt.fakeAddress then SlotFakeTurn(ps, p, env, Prepared(opt, env, table)[p], 0, i, prepared) else prepared
  }

  /** A whole round. */
  ghost function SlotRound(opt: Settings, ps: seq<Provider>, env: Round, table: Table, p: nat, i: nat, s: Slot): Slot
    requires Fits(ps, table) && p < |ps| && i < |ps[p].names|
  {
    SlotTurn(opt.mode, ps, p, env, Prepared(opt, env, table)[p], 0, i, SlotBefore(opt, ps, env, table, p, i, s))
  }

  // ------------------------------------------------------------ one provider

  function PassSlot(ps: seq<Provider>, p: nat, s: Pass, i: nat): Slot
    requires p < |ps| && |s.aliases| == |ps[p].names| && i < |s.aliases|
  {
    var k := KeyOf(ps, p, i);
    Slot(s.aliases[i], RecordOf(s.world, k), Cached(s.world, k), History(s.world.log, k))
  }

  /** What lies outside the process about `k`. */
  predicate SameOutside(w: World, w': World, k: Key) {
    RecordOf(w, k) == RecordOf(w', k) && Cached(w, k) == Cached(w', k) && History(w.log, k) == History(w'.log, k)
  }

  /** One turn of the loop over the aliases. */
  function TurnAt(ps: seq<Provider>, p: nat, env: Round, s: Pass, i: nat): (r: Pass)
    requires p < |ps| && |s.aliases| == |ps[p].names| && i < |s.aliases|
    ensures |r.aliases| == |s.aliases|
  {
    if !s.aliases[i].required then s.(rc := 0)
    else
      var sent := SendUpdate(ps[p].setup, KeyOf(ps, p, i), s.aliases[i], env.reply(p, i), env.done(p, i), s.world);
      if sent.rc == 0 then
        var (a, w) := Updated(ps, p, i, env, sent);
        Pass(s.aliases[i := a], 0, w)
      else Pass(s.aliases[i := sent.alias], sent.rc, sent.world)
  }

  /** An acknowledged update changes one record and one history. */
  lemma AcknowledgeIsSlotwise(w: World, key: Key, address: string, time: int, k: Key)
    ensures var w' := Acknowledge(w, key, address, time);
      && RecordOf(w', key) == Some(address) && Cached(w', key) == Cached(w, key)
      && History(w'.log, key) == History(w.log, key) + [Entry(address, time)]
      && (CacheName(k) != CacheName(key) ==> SameOutside(w, w', k))
  {
    hide CacheName;
    var ack := Sent(key, address, time);
    assert (w.log + [ack])[..|w.log|] == w.log;
  }

  lemma WriteIsSlotwise(w: World, key: Key, address: string, time: int, writable: bool, k: Key)
    ensures var w' := WriteCache(w, key, address, time, writable);
      && RecordOf(w', key) == RecordOf(w, key) && History(w'.log, key) == History(w.log, key)
      && Cached(w', key) == (if writable then Some(Entry(address, time)) else Cached(w, key))
      && (CacheName(k) != CacheName(key) ==> SameOutside(w, w', k))
  {
    hide CacheName, History;
  }

  /** The turn does to its own alias what `SlotSend` says and nothing to any other. */
  lemma TurnIsSlotwise(ps: seq<Provider>, p: nat, env: Round, s: Pass, i: nat, k: Key)
    requires p < |ps| && |s.aliases| == |ps[p].names| && i < |s.aliases|
    ensures var r := TurnAt(ps, p, env, s, i);
      && PassSlot(ps, p, r, i) ==
         (if !s.aliases[i].required then PassSlot(ps, p, s, i)
          else SlotSend(ps[p].setup, PassSlot(ps, p, s, i), env.reply(p, i), env.done(p, i), env.writable(p, i)))
      && (forall j :: 0 <= j < |s.aliases| && j != i ==> r.aliases[j] == s.aliases[j])
      && (CacheName(k) != CacheName(KeyOf(ps, p, i)) ==> SameOutside(s.world, r.world, k))
      && (r.rc == 0 <==> !s.aliases[i].required || Succeeds(ps[p].setup, env.reply(p, i)))
  {
    hide CacheName, Acknowledge, History, RecordOf;
    var key := KeyOf(ps, p, i);
    AcknowledgeIsSlotwise(s.world, key, s.aliases[i].address, env.done(p, i), k);
    var w := Acknowledge(s.world, key, s.aliases[i].address, env.done(p, i));
    WriteIsSlotwise(w, key, s.aliases[i].address, env.done(p, i), env.writable(p, i), k);
  }

  lemma RealFromTurns(mode: Mode, ps: seq<Provider>, p: nat, env: Round, s: Pass, i: nat)
    requires p < |ps| && |s.aliases| == |ps[p].names| && i < |s.aliases|
    ensures var t := TurnAt(ps, p, env, s, i);
      RealFrom(mode, ps, p, env, s, i) ==
      if mode.Compat? && t.rc != 0 then t else RealFrom(mode, ps, p, env, t, i + 1)
  {
  }

  /** Aliases before `from`, and everything of other providers, stay as they are. */
  lemma {:induction false} PassFrame(mode: Mode, ps: seq<Provider>, p: nat, env: Round, s: Pass, from: nat, k: Key)
    requires p < |ps| && |s.aliases| == |ps[p].names| && from <= |s.aliases|
    requires forall j :: from <= j < |s.aliases| ==> CacheName(k) != CacheName(KeyOf(ps, p, j))
    ensures var r := RealFrom(mode, ps, p, env, s, from);
      && (forall j :: 0 <= j < from ==> r.aliases[j] == s.aliases[j])
      && SameOutside(s.world, r.world, k)
    decreases |s.aliases| - from
  {
    hide TurnAt, RealFrom;
    if from < |s.aliases| {
      RealFromTurns(mode, ps, p, env, s, from);
      TurnIsSlotwise(ps, p, env, s, from, k);
      PassFrame(mode, ps, p, env, TurnAt(ps, p, env, s, from), from + 1, k);
    } else {
      RealFromEnds(mode, ps, p, env, s);
    }
  }

  lemma RealFromEnds(mode: Mode, ps: seq<Provider>, p: nat, env: Round, s: Pass)
    requires p < |ps| && |s.aliases| == |ps[p].names|
    ensures RealFrom(mode, ps, p, env, s, |s.aliases|) == s
  {
  }

  ghost predicate DistinctNames(ps: seq<Provider>, p: nat)
    requires p < |ps|
  {
    forall i, j {:trigger KeyOf(ps, p, i), KeyOf(ps, p, j)} ::
      0 <= i < |ps[p].names| && 0 <= j < |ps[p].names| && i != j ==>
      CacheName(KeyOf(ps, p, i)) != CacheName(KeyOf(ps, p, j))
  }

  /** The loop over the aliases is a turn of each on its own, blocked or not. */
  lemma {:induction false} PassIsSlotwise(mode: Mode, ps: seq<Provider>, p: nat, env: Round, s: Pass, from: nat, i: nat)
    requires p < |ps| && |s.aliases| == |ps[p].names| && from <= i < |s.aliases| && DistinctNames(ps, p)
    ensures PassSlot(ps, p, RealFrom(mode, ps, p, env, s, from), i) ==
            SlotTurn(mode, ps, p, env, s.aliases, from, i, PassSlot(ps, p, s, i))
    decreases |s.aliases| - from
  {
    hide TurnAt, RealFrom;
    var k := KeyOf(ps, p, i);
    var t := TurnAt(ps, p, env, s, from);
    RealFromTurns(mode, ps, p, env, s, from);
    TurnIsSlotwise(ps, p, env, s, from, k);
    if from == i {
      PassFrame(mode, ps, p, env, t, i + 1, k);
    } else {
      assert PassSlot(ps, p, t, i) == PassSlot(ps, p, s, i);
      if !(mode.Compat? && t.rc != 0) {
        PassIsSlotwise(mode, ps, p, env, t, from + 1, i);
        assert Blocked(mode, ps[p].setup, env, p, s.aliases, from, i) ==
               Blocked(mode, ps[p].setup, env, p, t.aliases, from + 1, i);
      }
    }
  }

  // ------------------------------------------------------------ all providers

  function ProgressSlot(ps: seq<Provider>, s: Progress, p: nat, i: nat): Slot
    requires Fits(ps, s.table) && p < |ps| && i < |ps[p].names|
  {
    SlotOf(ps, s.table, s.world, p, i)
  }

  /** One turn of the loop over the providers. */
  function ProviderTurn(mode: Mode, ps: seq<Provider>, env: Round, s: Progress, p: nat): (r: Progress)
    requires Fits(ps, s.table) && p < |ps|
    ensures Fits(ps, r.table)
  {
    var pass := RealFrom(mode, ps, p, env, Pass(s.table[p], s.rc, s.world), 0);
    Progress(s.table[p := pass.aliases], pass.rc, Remember(s.remember, pass.rc), pass.world)
  }

  lemma RealAllTurns(mode: Mode, ps: seq<Provider>, env: Round, s: Progress, p: nat)
    requires Fits(ps, s.table) && p < |ps|
    ensures RealAll(mode, ps, env, s, p) == RealAll(mode, ps, env, ProviderTurn(mode, ps, env, s, p), p + 1)
  {
  }

  lemma ProviderTurnIsSlotwise(mode: Mode, ps: seq<Provider>, env: Round, s: Progress, p: nat, q: nat, i: nat)
    requires Fits(ps, s.table) && DistinctKeys(ps) && p < |ps| && q < |ps| && i < |ps[q].names|
    ensures var r := ProviderTurn(mode, ps, env, s, p);
      && (q != p ==> r.table[q] == s.table[q])
      && ProgressSlot(ps, r, q, i) ==
         if q == p then SlotTurn(mode, ps, p, env, s.table[p], 0, i, ProgressSlot(ps, s, p, i))
         else ProgressSlot(ps, s, q, i)
  {
    hide RealFrom, SlotTurn;
    var pass := Pass(s.table[p], s.rc, s.world);
    if q == p {
      PassIsSlotwise(mode, ps, p, env, pass, 0, i);
    } else {
      PassFrame(mode, ps, p, env, pass, 0, KeyOf(ps, q, i));
    }
  }

  lemma {:induction false} RealAllIsSlotwise(mode: Mode, ps: seq<Provider>, env: Round, s: Progress, from: nat, q: nat, i: nat)
    requires Fits(ps, s.table) && DistinctKeys(ps) && q < |ps| && i < |ps[q].names| && from <= |ps|
    ensures ProgressSlot(ps, RealAll(mode, ps, env, s, from), q, i) ==
            if q < from then ProgressSlot(ps, s, q, i)
            else SlotTurn(mode, ps, q, env, s.table[q], 0, i, ProgressSlot(ps, s, q, i))
    decreases |ps| - from
  {
    hide RealFrom, SlotTurn, ProviderTurn, DistinctKeys;
    if from < |ps| {
      RealAllTurns(mode, ps, env, s, from);
      ProviderTurnIsSlotwise(mode, ps, env, s, from, q, i);
      RealAllIsSlotwise(mode, ps, env, ProviderTurn(mode, ps, env, s, from), from + 1, q, i);
    }
  }

  // ------------------------------------------------------------ the pass with made-up addresses

  /** One turn of the fake loop over the aliases. */
  function FakeTurnAt(ps: seq<Provider>, p: nat, env: Round, s: Pass, i: nat): (r: Pass)
    requires p < |ps| && |s.aliases| == |ps[p].names| && i < |s.aliases|
    ensures |r.aliases| == |s.aliases|
  {
    if !s.aliases[i].force then s
    else
      var a := s.aliases[i];
      var sent := SendUpdate(ps[p].setup, KeyOf(ps, p, i), a.(address := env.random(p, i)), env.fakeReply(p, i),
                             env.done(p, i), s.world);
      if sent.rc != 0 then Pass(s.aliases[i := sent.alias], sent.rc, sent.world)
      else Pass(s.aliases[i := sent.alias.(address := a.address)], sent.rc, sent.world)
  }

  /** The fake loop is left at alias `i`. */
  predicate FakeBreaks(ps: seq<Provider>, p: nat, env: Round, aliases: seq<Alias>, i: nat)
    requires p < |ps| && i < |aliases|
  {
    aliases[i].force && !Succeeds(ps[p].setup, env.fakeReply(p, i))
  }

  lemma FakeFromTurns(ps: seq<Provider>, p: nat, env: Round, s: Pass, i: nat)
    requires p < |ps| && |s.aliases| == |ps[p].names| && i < |s.aliases|
    ensures var t := FakeTurnAt(ps, p, env, s, i);
      FakeFrom(ps, p, env, s, i) == if FakeBreaks(ps, p, env, s.aliases, i) then t else FakeFrom(ps, p, env, t, i + 1)
  {
  }

  lemma FakeFromEnds(ps: seq<Provider>, p: nat, env: Round, s: Pass)
    requires p < |ps| && |s.aliases| == |ps[p].names|
    ensures FakeFrom(ps, p, env, s, |s.aliases|) == s
  {
  }

  lemma FakeTurnIsSlotwise(ps: seq<Provider>, p: nat, env: Round, s: Pass, i: nat, k: Key)
    requires p < |ps| && |s.aliases| == |ps[p].names| && i < |s.aliases|
    ensures var r := FakeTurnAt(ps, p, env, s, i);
      && PassSlot(ps, p, r, i) ==
         (if !s.aliases[i].force then PassSlot(ps, p, s, i)
          else SlotFake(ps[p].setup, PassSlot(ps, p, s, i), env.random(p, i), env.fakeReply(p, i), env.done(p, i)))
      && (forall j :: 0 <= j < |s.aliases| && j != i ==> r.aliases[j] == s.aliases[j])
      && (CacheName(k) != CacheName(KeyOf(ps, p, i)) ==> SameOutside(s.world, r.world, k))
  {
    hide CacheName, Acknowledge, History, RecordOf;
    AcknowledgeIsSlotwise(s.world, KeyOf(ps, p, i), env.random(p, i), env.done(p, i), k);
  }

  lemma {:induction false} FakeFrame(ps: seq<Provider>, p: nat, env: Round, s: Pass, from: nat, k: Key)
    requires p < |ps| && |s.aliases| == |ps[p].names| && from <= |s.aliases|
    requires forall j :: from <= j < |s.aliases| ==> CacheName(k) != CacheName(KeyOf(ps, p, j))
    ensures var r := FakeFrom(ps, p, env, s, from);
      && (forall j :: 0 <= j < from ==> r.aliases[j] == s.aliases[j])
      && SameOutside(s.world, r.world, k)
    decreases |s.aliases| - from
  {
    hide FakeTurnAt, FakeFrom, Succeeds;
    if from < |s.aliases| {
      FakeFromTurns(ps, p, env, s, from);
      FakeTurnIsSlotwise(ps, p, env, s, from, k);
      FakeFrame(ps, p, env, FakeTurnAt(ps, p, env, s, from), from + 1, k);
    } else {
      FakeFromEnds(ps, p, env, s);
    }
  }

  lemma {:induction false} FakePassIsSlotwise(ps: seq<Provider>, p: nat, env: Round, s: Pass, from: nat, i: nat)
    requires p < |ps| && |s.aliases| == |ps[p].names| && from <= i < |s.aliases| && DistinctNames(ps, p)
    ensures PassSlot(ps, p, FakeFrom(ps, p, env, s, from), i) ==
            SlotFakeTurn(ps, p, env, s.aliases, from, i, PassSlot(ps, p, s, i))
    decreases |s.aliases| - from
  {
    hide FakeTurnAt, FakeFrom, Succeeds, SlotFake;
    var k := KeyOf(ps, p, i);
    var t := FakeTurnAt(ps, p, env, s, from);
    FakeFromTurns(ps, p, env, s, from);
    FakeTurnIsSlotwise(ps, p, env, s, from, k);
    if from == i {
      FakeFrame(ps, p, env, t, i + 1, k);
    } else {
      assert PassSlot(ps, p, t, i) == PassSlot(ps, p, s, i);
      if !FakeBreaks(ps, p, env, s.aliases, from) {
        FakePassIsSlotwise(ps, p, env, t, from + 1, i);
        assert FakeBlocked(ps[p].setup, env, p, s.aliases, from, i) ==
               FakeBlocked(ps[p].setup, env, p, t.aliases, from + 1, i);
      }
    }
  }

  function FakeProviderTurn(ps: seq<Provider>, env: Round, s: Progress, p: nat): (r: Progress)
    requires Fits(ps, s.table) && p < |ps|
    ensures Fits(ps, r.table)
  {
    var pass := FakeFrom(ps, p, env, Pass(s.table[p], s.rc, s.world), 0);
    Progress(s.table[p := pass.aliases], pass.rc, s.remember, pass.world)
  }

  lemma FakeAllTurns(ps: seq<Provider>, env: Round, s: Progress, p: nat)
    requires Fits(ps, s.table) && p < |ps|
    ensures FakeAll(ps, env, s, p) == FakeAll(ps, env, FakeProviderTurn(ps, env, s, p), p + 1)
  {
  }

  lemma FakeProviderTurnIsSlotwise(ps: seq<Provider>, env: Round, s: Progress, p: nat, q: nat, i: nat)
    requires Fits(ps, s.table) && DistinctKeys(ps) && p < |ps| && q < |ps| && i < |ps[q].names|
    ensures var r := FakeProviderTurn(ps, env, s, p);
      && (q != p ==> r.table[q] == s.table[q])
      && ProgressSlot(ps, r, q, i) ==
         if q == p then SlotFakeTurn(ps, p, env, s.table[p], 0, i, ProgressSlot(ps, s, p, i))
         else ProgressSlot(ps, s, q, i)
  {
    hide FakeFrom, SlotFakeTurn;
    var pass := Pass(s.table[p], s.rc, s.world);
    if q == p {
      FakePassIsSlotwise(ps, p, env, pass, 0, i);
    } else {
      FakeFrame(ps, p, env, pass, 0, KeyOf(ps, q, i));
    }
  }

  lemma {:induction false} FakeAllIsSlotwise(ps: seq<Provider>, env: Round, s: Progress, from: nat, q: nat, i: nat)
    requires Fits(ps, s.table) && DistinctKeys(ps) && q < |ps| && i < |ps[q].names| && from <= |ps|
    ensures ProgressSlot(ps, FakeAll(ps, env, s, from), q, i) ==
            if q < from then ProgressSlot(ps, s, q, i)
            else SlotFakeTurn(ps, q, env, s.table[q], 0, i, ProgressSlot(ps, s, q, i))
    decreases |ps| - from
  {
    hide FakeFrom, SlotFakeTurn, FakeProviderTurn, DistinctKeys;
    if from < |ps| {
      FakeAllTurns(ps, env, s, from);
      FakeProviderTurnIsSlotwise(ps, env, s, from, q, i);
      FakeAllIsSlotwise(ps, env, FakeProviderTurn(ps, env, s, from), from + 1, q, i);
    }
  }

  /** The fake pass requires nothing and settles nothing. */
  predicate SameRequired(before: seq<Alias>, after: seq<Alias>) {
    |before| == |after| && forall k :: 0 <= k < |before| ==> after[k].required == before[k].required
  }

  lemma {:induction false} FakeFromKeepsRequired(ps: seq<Provider>, p: nat, env: Round, s: Pass, from: nat)
    requires p < |ps| && |s.aliases| == |ps[p].names| && from <= |s.aliases|
    ensures SameRequired(s.aliases, FakeFrom(ps, p, env, s, from).aliases)
    decreases |s.aliases| - from
  {
    hide FakeFrom, FakeTurnAt;
    if from < |s.aliases| {
      FakeFromTurns(ps, p, env, s, from);
      FakeTurnIsSlotwise(ps, p, env, s, from, KeyOf(ps, p, from));
      var t := FakeTurnAt(ps, p, env, s, from);
      assert t.aliases[from] == PassSlot(ps, p, t, from).alias;
      assert SameRequired(s.aliases, t.aliases);
      FakeFromKeepsRequired(ps, p, env, t, from + 1);
    } else {
      FakeFromEnds(ps, p, env, s);
    }
  }

  lemma {:induction false} FakeAllKeepsRequired(ps: seq<Provider>, env: Round, s: Progress, from: nat, p: nat)
    requires Fits(ps, s.table) && p < |ps|
    ensures SameRequired(s.table[p], FakeAll(ps, env, s, from).table[p])
    decreases |ps| - from
  {
    hide FakeFrom;
    if from < |ps| {
      FakeAllTurns(ps, env, s, from);
      FakeFromKeepsRequired(ps, from, env, Pass(s.table[from], s.rc, s.world), 0);
      var t := FakeProviderTurn(ps, env, s, from);
      assert SameRequired(s.table[p], t.table[p]);
      FakeAllKeepsRequired(ps, env, t, from + 1, p);
    }
  }

  // ------------------------------------------------------------ the round

  lemma PreparedIsSlotwise(opt: Settings, ps: seq<Provider>, env: Round, table: Table, p: nat, i: nat)
    requires Fits(ps, table) && p < |ps| && i < |ps[p].names|
    ensures Prepared(opt, env, table)[p][i] ==
            PrepareAlias(table[p][i], env.ip(p), env.now(p, i), opt.forcedPeriod)
  {
    var fetched := FetchAll(env, table);
    assert fetched[p] == Fetch(table[p], env.ip(p));
    assert Prepared(opt, env, table)[p] == Check(fetched[p], p, env, opt.forcedPeriod);
  }

  /** The round of nested loops is, for every alias, the round of that alias alone. */
  lemma RoundIsSlotwise(opt: Settings, ps: seq<Provider>, env: Round, table: Table, w: World, p: nat, i: nat)
    requires Fits(ps, table) && DistinctKeys(ps) && p < |ps| && i < |ps[p].names|
    ensures ProgressSlot(ps, CheckAddress(opt, ps, env, table, w), p, i) ==
            SlotRound(opt, ps, env, table, p, i, SlotOf(ps, table, w, p, i))
  {
    hide RealAll, FakeAll, SlotFakeTurn, DistinctKeys, Prepared;
    var prepared := Prepared(opt, env, table);
    var s := Progress(prepared, 0, 0, w);
    PreparedIsSlotwise(opt, ps, env, table, p, i);
    if opt.fakeAddress {
      FakeAllIsSlotwise(ps, env, s, 0, p, i);
      FakeAllKeepsRequired(ps, env, s, 0, p);
      s := FakeAll(ps, env, s, 0);
      SameBlocked(opt.mode, ps[p].setup, env, p, prepared[p], s.table[p], i);
    }
    RealAllIsSlotwise(opt.mode, ps, env, s, 0, p, i);
  }

  lemma SameBlocked(mode: Mode, setup: bool, env: Round, p: nat, before: seq<Alias>, after: seq<Alias>, i: nat)
    requires SameRequired(before, after) && i <= |before|
    ensures Blocked(mode, setup, env, p, before, 0, i) == Blocked(mode, setup, env, p, after, 0, i)
  {
  }
}
