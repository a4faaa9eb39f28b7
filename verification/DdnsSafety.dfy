/** No update is lost: exactly when a round ends with every alias either acknowledged by its
    server or flagged to be sent again, and the runs in which every round does. */
module DdnsSafety {
  import opened Wrappers
  import opened Ddns
  import opened DdnsSlots

  /** The server has acknowledged the address the client believes in, or the client is going
      to send it again. */
  predicate Safe(s: Slot) {
    s.alias.force || s.record == Some(s.alias.address)
  }

  ghost predicate AllSafe(ps: seq<Provider>, table: Table, w: World)
    requires Fits(ps, table)
  {
    forall p, i {:trigger SlotOf(ps, table, w, p, i)} ::
      0 <= p < |ps| && 0 <= i < |ps[p].names| ==> Safe(SlotOf(ps, table, w, p, i))
  }

  /** The real pass skips a required update, or gives it up without a trace. */
  ghost predicate Skipped(opt: Settings, ps: seq<Provider>, env: Round, table: Table, p: nat, i: nat)
    requires Fits(ps, table) && p < |ps| && i < |ps[p].names|
  {
    || Blocked(opt.mode, ps[p].setup, env, p, Prepared(opt, env, table)[p], 0, i)
    || FailsSilently(ps[p].setup, env.reply(p, i))
  }

  /** The update with a made-up address is tried and acknowledged. */
  ghost predicate FakeAcknowledged(opt: Settings, ps: seq<Provider>, env: Round, table: Table, p: nat, i: nat)
    requires Fits(ps, table) && p < |ps| && i < |ps[p].names|
  {
    opt.fakeAddress && Faked(ps, p, env, Prepared(opt, env, table)[p], 0, i) && Succeeds(ps[p].setup, env.fakeReply(p, i))
  }

  /** It is tried and fails, which leaves the made-up address in the client. */
  ghost predicate FakeFailed(opt: Settings, ps: seq<Provider>, env: Round, table: Table, p: nat, i: nat)
    requires Fits(ps, table) && p < |ps| && i < |ps[p].names|
  {
    opt.fakeAddress && Faked(ps, p, env, Prepared(opt, env, table)[p], 0, i) && !Succeeds(ps[p].setup, env.fakeReply(p, i))
  }

  /** The real pass reaches the alias and its update is acknowledged. */
  ghost predicate Acknowledged(opt: Settings, ps: seq<Provider>, env: Round, table: Table, p: nat, i: nat)
    requires Fits(ps, table) && p < |ps| && i < |ps[p].names|
  {
    && Prepared(opt, env, table)[p][i].required && Succeeds(ps[p].setup, env.reply(p, i))
    && !Blocked(opt.mode, ps[p].setup, env, p, Prepared(opt, env, table)[p], 0, i)
  }

  /** The address the client believes in when the round sends updates: what checkip reported,
      or what it believed in before where checkip failed. */
  function Current(opt: Settings, env: Round, table: Table, p: nat, i: nat): string
    requires p < |table| && i < |table[p]|
  {
    Prepared(opt, env, table)[p][i].address
  }

  /** The server has that address, or the client is going to send again. */
  ghost predicate Delivered(opt: Settings, ps: seq<Provider>, env: Round, table: Table, w: World, p: nat, i: nat)
    requires Fits(ps, table) && p < |ps| && i < |ps[p].names|
  {
    var after := ProgressSlot(ps, CheckAddress(opt, ps, env, table, w), p, i);
    after.alias.force || after.record == Some(Current(opt, env, table, p, i))
  }

  /** For a flagged alias the round fails in exactly two ways, both through the made-up
      address: its update is acknowledged and clears the flag, and the real pass then skips
      the alias; or its update fails, and the real pass sends it as the real one, with
      success. */
  lemma FlaggedRoundSafeIff(opt: Settings, ps: seq<Provider>, env: Round, table: Table, w: World, p: nat, i: nat)
    requires Fits(ps, table) && DistinctKeys(ps) && p < |ps| && i < |ps[p].names| && table[p][i].force
    ensures Delivered(opt, ps, env, table, w, p, i) <==>
      !(env.random(p, i) != Current(opt, env, table, p, i) &&
        ((FakeAcknowledged(opt, ps, env, table, p, i) && Skipped(opt, ps, env, table, p, i)) ||
         (FakeFailed(opt, ps, env, table, p, i) && Acknowledged(opt, ps, env, table, p, i))))
  {
    hide CheckAddress, Blocked, DistinctKeys, Prepared, FakeBlocked;
    RoundIsSlotwise(opt, ps, env, table, w, p, i);
    PreparedIsSlotwise(opt, ps, env, table, p, i);
  }

  /** For an unflagged one whose address the server had, in exactly one: the update is due for
      an address the server does not have, and the real pass skips it. */
  lemma UnflaggedRoundSafeIff(opt: Settings, ps: seq<Provider>, env: Round, table: Table, w: World, p: nat, i: nat)
    requires Fits(ps, table) && DistinctKeys(ps) && p < |ps| && i < |ps[p].names| && !table[p][i].force
    requires Safe(SlotOf(ps, table, w, p, i))
    ensures Delivered(opt, ps, env, table, w, p, i) <==>
      !(Skipped(opt, ps, env, table, p, i) &&
        SlotOf(ps, table, w, p, i).record != Some(Current(opt, env, table, p, i)))
  {
    hide CheckAddress, Blocked, DistinctKeys, Prepared, FakeBlocked;
    RoundIsSlotwise(opt, ps, env, table, w, p, i);
    PreparedIsSlotwise(opt, ps, env, table, p, i);
  }

  /** From a safe state, the ways in which a round can fail an alias, with made-up addresses
      or without. */
  lemma RoundSafeIff(opt: Settings, ps: seq<Provider>, env: Round, table: Table, w: World, p: nat, i: nat)
    requires Fits(ps, table) && DistinctKeys(ps) && p < |ps| && i < |ps[p].names|
    requires Safe(SlotOf(ps, table, w, p, i))
    ensures Delivered(opt, ps, env, table, w, p, i) <==>
      if table[p][i].force
      then
        !(env.random(p, i) != Current(opt, env, table, p, i) &&
          ((FakeAcknowledged(opt, ps, env, table, p, i) && Skipped(opt, ps, env, table, p, i)) ||
           (FakeFailed(opt, ps, env, table, p, i) && Acknowledged(opt, ps, env, table, p, i))))
      else
        !(Skipped(opt, ps, env, table, p, i) &&
          SlotOf(ps, table, w, p, i).record != Some(Current(opt, env, table, p, i)))
  {
    hide CheckAddress, Blocked, DistinctKeys, Prepared, FakeBlocked, Delivered, Current, Skipped;
    if table[p][i].force {
      FlaggedRoundSafeIff(opt, ps, env, table, w, p, i);
    } else {
      UnflaggedRoundSafeIff(opt, ps, env, table, w, p, i);
    }
  }

  /** Without made-up addresses the client still holds that address behind the round, so that
      delivered means safe. */
  lemma DeliveredIsSafe(opt: Settings, ps: seq<Provider>, env: Round, table: Table, w: World, p: nat, i: nat)
    requires Fits(ps, table) && DistinctKeys(ps) && p < |ps| && i < |ps[p].names| && !opt.fakeAddress
    ensures Delivered(opt, ps, env, table, w, p, i) <==>
      Safe(ProgressSlot(ps, CheckAddress(opt, ps, env, table, w), p, i))
  {
    hide CheckAddress, Blocked, DistinctKeys, Prepared, FakeBlocked;
    RoundIsSlotwise(opt, ps, env, table, w, p, i);
    PreparedIsSlotwise(opt, ps, env, table, p, i);
  }

  /** A set flag makes the update required in the next round, in every mode and for every
      provider. It goes away only with an update the server acknowledges: with the address the
      client believes in, or with a made-up one, sent as such or by mistake. */
  lemma FlagInsists(opt: Settings, ps: seq<Provider>, env: Round, table: Table, w: World, p: nat, i: nat)
    requires Fits(ps, table) && DistinctKeys(ps) && p < |ps| && i < |ps[p].names|
    requires table[p][i].force
    ensures Prepared(opt, env, table)[p][i].required
    ensures var after := ProgressSlot(ps, CheckAddress(opt, ps, env, table, w), p, i);
      || after.alias.force
      || (Acknowledged(opt, ps, env, table, p, i) && !FakeFailed(opt, ps, env, table, p, i) &&
          after.record == Some(Current(opt, env, table, p, i)) && after.alias.lastUpdate == env.done(p, i))
      || (Acknowledged(opt, ps, env, table, p, i) && FakeFailed(opt, ps, env, table, p, i) &&
          after.record == Some(env.random(p, i)) && after.alias.lastUpdate == env.done(p, i))
      || (FakeAcknowledged(opt, ps, env, table, p, i) && Skipped(opt, ps, env, table, p, i) &&
          after.record == Some(env.random(p, i)))
  {
    hide CheckAddress, Blocked, DistinctKeys, Prepared, FakeBlocked;
    PreparedIsSlotwise(opt, ps, env, table, p, i);
    RoundIsSlotwise(opt, ps, env, table, w, p, i);
  }

  /** When a round requires an update: for a new address, for an old mark where checkip failed,
      for a flag, and for an alias whose last update is longer ago than the forced period. */
  lemma RequiredIff(opt: Settings, ps: seq<Provider>, env: Round, table: Table, p: nat, i: nat)
    requires Fits(ps, table) && p < |ps| && i < |ps[p].names|
    ensures var a := table[p][i];
      Prepared(opt, env, table)[p][i].required <==>
      || (env.ip(p).Some? && env.ip(p).value != a.address) || (env.ip(p).None? && a.changed)
      || a.force || env.now(p, i) > a.lastUpdate + opt.forcedPeriod
  {
    hide Prepared;
    PreparedIsSlotwise(opt, ps, env, table, p, i);
  }

  /** No alias goes stale: behind any round its last update is at most the forced period ago,
      or it is flagged, or the update that was due has been skipped. */
  lemma StaysFresh(opt: Settings, ps: seq<Provider>, env: Round, table: Table, w: World, p: nat, i: nat)
    requires Fits(ps, table) && DistinctKeys(ps) && p < |ps| && i < |ps[p].names|
    requires opt.forcedPeriod >= 0 && env.now(p, i) <= env.done(p, i)
    ensures var after := ProgressSlot(ps, CheckAddress(opt, ps, env, table, w), p, i).alias;
      || env.now(p, i) - after.lastUpdate <= opt.forcedPeriod
      || after.force || Skipped(opt, ps, env, table, p, i)
  {
    hide CheckAddress, Blocked, DistinctKeys, Prepared, FakeBlocked;
    RequiredIff(opt, ps, env, table, p, i);
    PreparedIsSlotwise(opt, ps, env, table, p, i);
    RoundIsSlotwise(opt, ps, env, table, w, p, i);
  }

  /** Between two forced updates, an address the server has acknowledged goes out again in
      exactly one case: checkip failed, so the change mark of an earlier round is still there. */
  lemma ResentIff(opt: Settings, ps: seq<Provider>, env: Round, table: Table, w: World, p: nat, i: nat)
    requires Fits(ps, table) && DistinctKeys(ps) && p < |ps| && i < |ps[p].names|
    requires var s := SlotOf(ps, table, w, p, i);
      s.record == Some(s.alias.address) && !TimeToCheck(s.alias, env.now(p, i), opt.forcedPeriod)
    ensures var before := SlotOf(ps, table, w, p, i);
      var after := ProgressSlot(ps, CheckAddress(opt, ps, env, table, w), p, i);
      after.sent == before.sent + [Entry(before.alias.address, env.done(p, i))] <==>
      && env.ip(p).None? && before.alias.changed && Succeeds(ps[p].setup, env.reply(p, i))
      && !Blocked(opt.mode, ps[p].setup, env, p, Prepared(opt, env, table)[p], 0, i)
  {
    hide CheckAddress, Blocked, DistinctKeys, Prepared, FakeBlocked;
    RoundIsSlotwise(opt, ps, env, table, w, p, i);
    PreparedIsSlotwise(opt, ps, env, table, p, i);
    var before := SlotOf(ps, table, w, p, i);
    var after := ProgressSlot(ps, CheckAddress(opt, ps, env, table, w), p, i);
    assert |before.sent + [Entry(before.alias.address, env.done(p, i))]| == |before.sent| + 1;
    assert after.sent != before.sent ==> after.sent[|before.sent|].address == after.alias.address;
  }

  // ------------------------------------------------------------ runs

  /** No provider has a `setup` hook, and either the client runs in EVENT mode or no
      provider has two aliases. */
  predicate Lossless(opt: Settings, ps: seq<Provider>) {
    && !opt.fakeAddress
    && (forall p :: 0 <= p < |ps| ==> !ps[p].setup && (opt.mode.Event? || |ps[p].names| <= 1))
  }

  /** Every request can be composed. */
  ghost predicate Composable(ps: seq<Provider>, e: Event) {
    e.Checked? ==> forall p, i :: 0 <= p < |ps| && 0 <= i < |ps[p].names| ==> e.env.reply(p, i).length >= 0
  }

  /** Whatever checkip, the servers, the clock and the file system answer, no update is lost
      in any run of a lossless configuration, as long as the process lives. */
  lemma {:induction false} NoUpdateIsLost(opt: Settings, ps: seq<Provider>, es: seq<Event>, c: Client)
    requires Fits(ps, c.table) && DistinctKeys(ps) && Lossless(opt, ps)
    requires forall k :: 0 <= k < |es| ==> Composable(ps, es[k]) && !es[k].Restarted?
    requires AllSafe(ps, c.table, c.world)
    ensures var r := Run(opt, ps, es, c); AllSafe(ps, r.table, r.world)
    decreases |es|
  {
    hide CheckAddress, ForceAll, DistinctKeys;
    if es != [] {
      if es[0].Checked? { LosslessRound(opt, ps, es[0].env, c); } else { ForcedIsSafe(ps, c); }
      NoUpdateIsLost(opt, ps, es[1..], Step(opt, ps, es[0], c));
    }
  }

  lemma LosslessRound(opt: Settings, ps: seq<Provider>, env: Round, c: Client)
    requires Fits(ps, c.table) && DistinctKeys(ps) && Lossless(opt, ps) && Composable(ps, Checked(env))
    requires AllSafe(ps, c.table, c.world)
    ensures var r := CheckAddress(opt, ps, env, c.table, c.world); AllSafe(ps, r.table, r.world)
  {
    hide CheckAddress, DistinctKeys, Prepared, Delivered, Current;
    var r := CheckAddress(opt, ps, env, c.table, c.world);
    forall p, i | 0 <= p < |ps| && 0 <= i < |ps[p].names|
      ensures Safe(SlotOf(ps, r.table, r.world, p, i))
    {
      assert Safe(SlotOf(ps, c.table, c.world, p, i));
      assert env.reply(p, i).length >= 0;
      assert !Skipped(opt, ps, env, c.table, p, i);
      RoundSafeIff(opt, ps, env, c.table, c.world, p, i);
      DeliveredIsSafe(opt, ps, env, c.table, c.world, p, i);
    }
  }

  lemma ForcedIsSafe(ps: seq<Provider>, c: Client)
    requires Fits(ps, c.table)
    ensures AllSafe(ps, ForceAll(c.table), c.world)
  {
  }

  // ------------------------------------------------------------ what goes wrong elsewhere

  const GOOD: Reply := Reply(0, 0, 0, 0, 0)

  /** A round at time `t` in which every checkip answers `address`. */
  function RoundAt(t: int, address: string, reply: (nat, nat) -> Reply): Round {
    Round(_ => Some(address), (_, _) => t, (_, _) => "203.0.113.7", (_, _) => GOOD, reply, (_, _) => t, (_, _) => true)
  }

  const HOST: Key := Key("dyn", "a")
  const HOSTS: seq<Provider> := [Provider("dyn", false, ["a", "b"])]

  lemma HostsAreDistinct()
    ensures DistinctKeys(HOSTS) && DistinctKeys(HOOKED) && DistinctKeys(SINGLE)
  {
    assert CacheName(KeyOf(HOSTS, 0, 0))[4] == 'a' && CacheName(KeyOf(HOSTS, 0, 1))[4] == 'b';
  }

  /** The alias `i` of one provider, up to date at time 0 with address `x`. */
  function UpToDate(x: string): Alias { Alias(false, false, x, false, 0) }

  function Recorded(x: string): World {
    World(map[HOST := x, Key("dyn", "b") := x], map[], [])
  }

  /** COMPAT mode: the first alias fails, so the second is never tried; the next round finds
      its address unchanged and does not require an update. It is lost, although every
      server answers well from then on. */
  lemma CompatLosesAnUpdate(period: int, x: string, y: string)
    requires period >= 10 && x != y
    ensures var opt := Settings(Compat, false, period);
      var first := RoundAt(1, y, (_, i) => if i == 0 then GOOD.(transaction := RC_TCP_CONNECT_FAILED) else GOOD);
      var second := RoundAt(2, y, (_, _) => GOOD);
      var start := Client([[UpToDate(x), UpToDate(x)]], Recorded(x));
      var end := Run(opt, HOSTS, [Checked(first), Checked(second)], start);
      && AllSafe(HOSTS, start.table, start.world)
      && !Safe(SlotOf(HOSTS, end.table, end.world, 0, 1))
      && end.table[0][1].address == y && !end.table[0][1].required
  {
    hide CheckAddress, DistinctKeys;
    var opt := Settings(Compat, false, period);
    var first := RoundAt(1, y, (_, i) => if i == 0 then GOOD.(transaction := RC_TCP_CONNECT_FAILED) else GOOD);
    var second := RoundAt(2, y, (_, _) => GOOD);
    var start := Client([[UpToDate(x), UpToDate(x)]], Recorded(x));
    HostsAreDistinct();
    var r1 := CheckAddress(opt, HOSTS, first, start.table, start.world);
    RoundIsSlotwise(opt, HOSTS, first, start.table, start.world, 0, 1);
    PreparedIsSlotwise(opt, HOSTS, first, start.table, 0, 0);
    assert Prepared(opt, first, start.table)[0][0].required;
    assert Blocked(Compat, false, first, 0, Prepared(opt, first, start.table)[0], 0, 1);
    RoundIsSlotwise(opt, HOSTS, second, r1.table, r1.world, 0, 1);
    var middle := Client(r1.table, r1.world);
    var r2 := CheckAddress(opt, HOSTS, second, r1.table, r1.world);
    assert [Checked(first), Checked(second)][1..] == [Checked(second)];
    assert Run(opt, HOSTS, [Checked(second)], middle) == Client(r2.table, r2.world);
  }

  const HOOKED: seq<Provider> := [Provider("dyn", true, ["a"])]
  const SINGLE: seq<Provider> := [Provider("dyn", false, ["a"])]

  /** Two rounds of a client, one after the other. */
  lemma TwoRounds(opt: Settings, ps: seq<Provider>, first: Round, second: Round, c: Client)
    requires Fits(ps, c.table)
    ensures var r1 := CheckAddress(opt, ps, first, c.table, c.world);
      var r2 := CheckAddress(opt, ps, second, r1.table, r1.world);
      Run(opt, ps, [Checked(first), Checked(second)], c) == Client(r2.table, r2.world)
  {
    hide CheckAddress;
    var r1 := CheckAddress(opt, ps, first, c.table, c.world);
    var r2 := CheckAddress(opt, ps, second, r1.table, r1.world);
    assert [Checked(first), Checked(second)][1..] == [Checked(second)];
    assert Run(opt, ps, [], Client(r2.table, r2.world)) == Client(r2.table, r2.world);
    assert Run(opt, ps, [Checked(second)], Client(r1.table, r1.world)) == Client(r2.table, r2.world);
  }

  /** A failing `setup` hook loses the update even in EVENT mode with one alias. */
  lemma SetupLosesAnUpdate(period: int, x: string, y: string)
    requires period >= 10 && x != y
    ensures var opt := Settings(Event, false, period);
      var first := RoundAt(1, y, (_, _) => GOOD.(setup := RC_DDNS_RSP_NOTOK));
      var second := RoundAt(2, y, (_, _) => GOOD);
      var start := Client([[UpToDate(x)]], Recorded(x));
      var end := Run(opt, HOOKED, [Checked(first), Checked(second)], start);
      && AllSafe(HOOKED, start.table, start.world)
      && !Safe(SlotOf(HOOKED, end.table, end.world, 0, 0))
      && end.table[0][0].address == y && !end.table[0][0].required
  {
    hide CheckAddress, DistinctKeys, Run;
    var opt := Settings(Event, false, period);
    var first := RoundAt(1, y, (_, _) => GOOD.(setup := RC_DDNS_RSP_NOTOK));
    var second := RoundAt(2, y, (_, _) => GOOD);
    var start := Client([[UpToDate(x)]], Recorded(x));
    HostsAreDistinct();
    var r1 := CheckAddress(opt, HOOKED, first, start.table, start.world);
    RoundIsSlotwise(opt, HOOKED, first, start.table, start.world, 0, 0);
    RoundIsSlotwise(opt, HOOKED, second, r1.table, r1.world, 0, 0);
    TwoRounds(opt, HOOKED, first, second, start);
  }

  /** A failed checkip leaves the old `ip_has_changed` in place: an address just acknowledged
      is sent once more, one second later. */
  lemma StaleFlagSendsTwice(period: int, x: string, y: string)
    requires period >= 10 && x != y
    ensures var opt := Settings(Event, false, period);
      var first := RoundAt(1, y, (_, _) => GOOD);
      var second := RoundAt(2, y, (_, _) => GOOD).(ip := _ => None);
      var start := Client([[UpToDate(x)]], Recorded(x));
      var middle := CheckAddress(opt, SINGLE, first, start.table, start.world);
      var end := Run(opt, SINGLE, [Checked(first), Checked(second)], start);
      && ProgressSlot(SINGLE, middle, 0, 0).cached == Some(Entry(y, 1))
      && SlotOf(SINGLE, end.table, end.world, 0, 0).cached == Some(Entry(y, 2))
  {
    hide CheckAddress, DistinctKeys, Run;
    var opt := Settings(Event, false, period);
    var first := RoundAt(1, y, (_, _) => GOOD);
    var second := RoundAt(2, y, (_, _) => GOOD).(ip := _ => None);
    var start := Client([[UpToDate(x)]], Recorded(x));
    HostsAreDistinct();
    var r1 := CheckAddress(opt, SINGLE, first, start.table, start.world);
    RoundIsSlotwise(opt, SINGLE, first, start.table, start.world, 0, 0);
    RoundIsSlotwise(opt, SINGLE, second, r1.table, r1.world, 0, 0);
    TwoRounds(opt, SINGLE, first, second, start);
  }

  /** With made-up addresses on, a fake update that fails is left before the real address is
      put back, and the real pass then sends the made-up one. */
  lemma FakeAddressGoesOut(period: int, x: string)
    requires period >= 10 && x != "203.0.113.7"
    ensures var opt := Settings(Event, true, period);
      var env := RoundAt(1, x, (_, _) => GOOD).(fakeReply := (_, _) => GOOD.(transaction := RC_TCP_SEND_ERROR));
      var end := CheckAddress(opt, SINGLE, env, [[UpToDate(x).(force := true)]], Recorded(x));
      && end.remember == RC_OK
      && ProgressSlot(SINGLE, end, 0, 0).record == Some("203.0.113.7")
      && end.table[0][0].address == "203.0.113.7" && !end.table[0][0].force
      && !Delivered(opt, SINGLE, env, [[UpToDate(x).(force := true)]], Recorded(x), 0, 0)
  {
    var opt := Settings(Event, true, period);
    var env := RoundAt(1, x, (_, _) => GOOD).(fakeReply := (_, _) => GOOD.(transaction := RC_TCP_SEND_ERROR));
    var table := [[UpToDate(x).(force := true)]];
    var prepared := Prepared(opt, env, table);
    PreparedIsSlotwise(opt, SINGLE, env, table, 0, 0);
    var a := UpToDate(x).(force := true, required := true);
    assert prepared[0] == [a];
    var faked := a.(address := "203.0.113.7");
    var w := Recorded(x);
    assert FakeFrom(SINGLE, 0, env, Pass([a], 0, w), 0) == Pass([faked], RC_TCP_SEND_ERROR, w);
    var s := Progress([[faked]], RC_TCP_SEND_ERROR, 0, w);
    assert prepared[0 := [faked]] == [[faked]];
    assert FakeAll(SINGLE, env, s, 1) == s;
    assert FakeAll(SINGLE, env, Progress(prepared, 0, 0, w), 0) == s;
    RealAllTurns(Event, SINGLE, env, s, 0);
    RealFromTurns(Event, SINGLE, 0, env, Pass([faked], s.rc, w), 0);
    RealFromEnds(Event, SINGLE, 0, env, TurnAt(SINGLE, 0, env, Pass([faked], s.rc, w), 0));
  }

  /** The made-up addresses are all taken back exactly when no flagged alias fails. */
  lemma {:induction false} FakePassRestoresIff(ps: seq<Provider>, p: nat, env: Round, s: Pass, from: nat)
    requires p < |ps| && |s.aliases| == |ps[p].names|
    requires forall i :: 0 <= i < |s.aliases| ==> env.random(p, i) != s.aliases[i].address
    ensures var r := FakeFrom(ps, p, env, s, from);
      (forall i :: 0 <= i < |s.aliases| ==> r.aliases[i].address == s.aliases[i].address) <==>
      (forall i :: from <= i < |s.aliases| && s.aliases[i].force ==> Succeeds(ps[p].setup, env.fakeReply(p, i)))
    decreases |s.aliases| - from
  {
    hide Acknowledge, KeyOf;
    if from < |s.aliases| {
      var a := s.aliases[from];
      if !a.force {
        FakePassRestoresIff(ps, p, env, s, from + 1);
      } else {
        var sent := SendUpdate(ps[p].setup, KeyOf(ps, p, from), a.(address := env.random(p, from)),
                               env.fakeReply(p, from), env.done(p, from), s.world);
        if sent.rc == 0 {
          var s' := Pass(s.aliases[from := sent.alias.(address := a.address)], sent.rc, sent.world);
          FakePassRestoresIff(ps, p, env, s', from + 1);
        } else {
          assert FakeFrom(ps, p, env, s, from).aliases[from].address == env.random(p, from);
        }
      }
    }
  }

  /** Nor need the made-up address be left in the client: here it is acknowledged, the flag is
      gone, and the setup hook fails the real update without setting it again. */
  lemma FakeSuccessLosesTheFlag(period: int, x: string)
    requires period >= 10 && x != "203.0.113.7"
    ensures var opt := Settings(Event, true, period);
      var env := RoundAt(1, x, (_, _) => GOOD.(setup := RC_DDNS_RSP_NOTOK));
      var end := CheckAddress(opt, HOOKED, env, [[UpToDate(x).(force := true)]], Recorded(x));
      && ProgressSlot(HOOKED, end, 0, 0).record == Some("203.0.113.7")
      && end.table[0][0].address == x && !end.table[0][0].force
      && !Delivered(opt, HOOKED, env, [[UpToDate(x).(force := true)]], Recorded(x), 0, 0)
  {
    hide CheckAddress, DistinctKeys;
    var opt := Settings(Event, true, period);
    var env := RoundAt(1, x, (_, _) => GOOD.(setup := RC_DDNS_RSP_NOTOK));
    var table := [[UpToDate(x).(force := true)]];
    HostsAreDistinct();
    PreparedIsSlotwise(opt, HOOKED, env, table, 0, 0);
    RoundIsSlotwise(opt, HOOKED, env, table, Recorded(x), 0, 0);
  }
}
