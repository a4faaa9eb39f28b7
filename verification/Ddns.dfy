/** One round of the client, as functions over values: what `check_address` of src/ddns.c
    does to the alias tables, to the cache files and to the records of the servers, given
    everything the outside world answers during the round. A run is a sequence of rounds, of
    commands to force an update, and of restarts, after which the client knows only what the
    cache files and DNS say. */
module Ddns {
  import opened Wrappers

  const RC_OK: int := 0
  const RC_ERROR: int := 1
  const RC_TCP_INVALID_REMOTE_ADDR: int := 12
  const RC_TCP_CONNECT_FAILED: int := 13
  const RC_TCP_SEND_ERROR: int := 14
  const RC_TCP_RECV_ERROR: int := 15
  const RC_DDNS_INVALID_CHECKIP_RSP: int := 42
  const RC_DDNS_RSP_NOTOK: int := 48
  const RC_DDNS_RSP_RETRY_LATER: int := 49
  const RC_DDNS_RSP_AUTH_FAIL: int := 50
  const RC_DDNS_RSP_TOO_FREQUENT: int := 51
  const RC_OS_INVALID_IP_ADDRESS: int := 61
  const RC_RESTART: int := 255

  // ------------------------------------------------------------ the client's own data

  /** `ddns_alias_t` without its name. */
  datatype Alias = Alias(force: bool, changed: bool, address: string, required: bool, lastUpdate: int)

  /** The part of `ddns_info_t` no round changes: plugin name, whether the plugin has a
      `setup` hook, and the host names. */
  datatype Provider = Provider(system: string, setup: bool, names: seq<string>)

  datatype Mode = Compat | Event

  /** `exec_mode`, `forced_update_fake_addr` and `forced_update_period_sec`. */
  datatype Settings = Settings(mode: Mode, fakeAddress: bool, forcedPeriod: int)

  type Table = seq<seq<Alias>>

  predicate Fits(ps: seq<Provider>, table: Table) {
    |table| == |ps| && forall p :: 0 <= p < |ps| ==> |table[p]| == |ps[p].names|
  }

  // ------------------------------------------------------------ the outside world

  datatype Key = Key(system: string, name: string)

  /** The part of the cache file's path that depends on the alias. */
  function CacheName(k: Key): string { k.system + "-" + k.name }

  function KeyOf(ps: seq<Provider>, p: nat, i: nat): Key
    requires p < |ps| && i < |ps[p].names|
  {
    Key(ps[p].system, ps[p].names[i])
  }

  /** A cache file: its contents and its modification time. */
  datatype Entry = Entry(address: string, time: int)

  datatype Sent = Sent(key: Key, address: string, time: int)

  /** What the servers have on record (the last address each acknowledged), the cache
      directory, and every acknowledged update so far. */
  datatype World = World(record: map<Key, string>, cache: map<string, Entry>, log: seq<Sent>)

  /** The answers to one update: return codes of the `setup` hook, `http_init`,
      `http_transaction` and the `response` hook, and the length of the request. */
  datatype Reply = Reply(setup: int, init: int, length: int, transaction: int, response: int)

  /** What the outside answers during a round, per provider and alias: the checkip result,
      the clock when the alias is checked and when it is updated, the random address and
      the replies of the fake pass, the replies of the real pass, and whether the cache
      file can be opened for writing. */
  datatype Round = Round(
    ip: nat -> Option<string>,
    now: (nat, nat) -> int,
    random: (nat, nat) -> string,
    fakeReply: (nat, nat) -> Reply,
    reply: (nat, nat) -> Reply,
    done: (nat, nat) -> int,
    writable: (nat, nat) -> bool)

  /** A running client and the world around it. */
  datatype Client = Client(table: Table, world: World)

  // ------------------------------------------------------------ get_address

  function FetchAlias(a: Alias, address: string): Alias {
    a.(changed := a.address != address, address := address)
  }

  /** A failed checkip leaves the whole provider alone, `ip_has_changed` included. */
  function Fetch(aliases: seq<Alias>, ip: Option<string>): (r: seq<Alias>)
    ensures |r| == |aliases|
  {
    match ip
    case None => aliases
    case Some(address) => seq(|aliases|, i requires 0 <= i < |aliases| => FetchAlias(aliases[i], address))
  }

  function FetchAll(env: Round, table: Table): (r: Table)
    ensures |r| == |table| && forall p :: 0 <= p < |r| ==> |r[p]| == |table[p]|
  {
    var r := seq(|table|, p requires 0 <= p < |table| => Fetch(table[p], env.ip(p)));
    assert forall p :: 0 <= p < |r| ==> r[p] == Fetch(table[p], env.ip(p));
    r
  }

  // ------------------------------------------------------------ check_alias_update_table

  predicate TimeToCheck(a: Alias, now: int, period: int) {
    a.force || now - a.lastUpdate > period
  }

  function CheckAlias(a: Alias, now: int, period: int): Alias {
    a.(required := a.changed || TimeToCheck(a, now, period))
  }

  function Check(aliases: seq<Alias>, p: nat, env: Round, period: int): (r: seq<Alias>)
    ensures |r| == |aliases|
  {
    seq(|aliases|, i requires 0 <= i < |aliases| => CheckAlias(aliases[i], env.now(p, i), period))
  }

  function CheckAll(env: Round, period: int, table: Table): (r: Table)
    ensures |r| == |table| && forall p :: 0 <= p < |r| ==> |r[p]| == |table[p]|
  {
    seq(|table|, p requires 0 <= p < |table| => Check(table[p], p, env, period))
  }

  // ------------------------------------------------------------ send_update

  datatype Sending = Sending(rc: int, alias: Alias, world: World)

  /** A failing `setup` hook and a negative request length return before the flag is set;
      every other failure sets it, success clears it. */
  function SendUpdate(setup: bool, key: Key, a: Alias, reply: Reply, time: int, w: World): Sending {
    if setup && reply.setup != 0 then Sending(reply.setup, a, w)
    else if reply.init != 0 then Sending(reply.init, a.(force := true), w)
    else if reply.length < 0 then Sending(RC_ERROR, a, w)
    else if reply.transaction != 0 then Sending(reply.transaction, a.(force := true), w)
    else if reply.response != 0 then Sending(reply.response, a.(force := true), w)
    else Sending(RC_OK, a.(force := false), Acknowledge(w, key, a.address, time))
  }

  function Acknowledge(w: World, key: Key, address: string, time: int): World {
    w.(record := w.record[key := address], log := w.log + [Sent(key, address, time)])
  }

  function WriteCache(w: World, key: Key, address: string, time: int, writable: bool): World {
    if writable then w.(cache := w.cache[CacheName(key) := Entry(address, time)]) else w
  }

  // ------------------------------------------------------------ update_alias_table

  /** Where a pass over the aliases of one provider has got to. */
  datatype Pass = Pass(aliases: seq<Alias>, rc: int, world: World)

  /** The pass with made-up addresses, from alias `i` on. A failure ends it before the
      address is put back. */
  function FakeFrom(ps: seq<Provider>, p: nat, env: Round, s: Pass, i: nat): (r: Pass)
    requires p < |ps| && |s.aliases| == |ps[p].names|
    ensures |r.aliases| == |s.aliases|
    decreases |s.aliases| - i
  {
    if i >= |s.aliases| then s
    else if !s.aliases[i].force then FakeFrom(ps, p, env, s, i + 1)
    else
      var a := s.aliases[i];
      var sent := SendUpdate(ps[p].setup, KeyOf(ps, p, i), a.(address := env.random(p, i)), env.fakeReply(p, i),
                             env.done(p, i), s.world);
      if sent.rc != 0 then Pass(s.aliases[i := sent.alias], sent.rc, sent.world)
      else FakeFrom(ps, p, env, Pass(s.aliases[i := sent.alias.(address := a.address)], sent.rc, sent.world), i + 1)
  }

  /** The state of an alias and of the world after a successful update. */
  function Updated(ps: seq<Provider>, p: nat, i: nat, env: Round, sent: Sending): (Alias, World)
    requires p < |ps| && i < |ps[p].names|
  {
    var t := env.done(p, i);
    (sent.alias.(required := false, lastUpdate := t),
     WriteCache(sent.world, KeyOf(ps, p, i), sent.alias.address, t, env.writable(p, i)))
  }

  /** The real pass, from alias `i` on. COMPAT mode leaves the loop at the first failure. */
  function RealFrom(mode: Mode, ps: seq<Provider>, p: nat, env: Round, s: Pass, i: nat): (r: Pass)
    requires p < |ps| && |s.aliases| == |ps[p].names|
    ensures |r.aliases| == |s.aliases|
    decreases |s.aliases| - i
  {
    if i >= |s.aliases| then s
    else if !s.aliases[i].required then RealFrom(mode, ps, p, env, s.(rc := 0), i + 1)
    else
      var sent := SendUpdate(ps[p].setup, KeyOf(ps, p, i), s.aliases[i], env.reply(p, i), env.done(p, i), s.world);
      if sent.rc == 0 then
        var (a, w) := Updated(ps, p, i, env, sent);
        RealFrom(mode, ps, p, env, Pass(s.aliases[i := a], 0, w), i + 1)
      else
        var s' := Pass(s.aliases[i := sent.alias], sent.rc, sent.world);
        if mode.Compat? then s' else RealFrom(mode, ps, p, env, s', i + 1)
  }

  /** Which return codes of a provider survive the round: two always, two unless something
      is remembered already, all others never. */
  function Remember(remember: int, rc: int): int {
    if rc == RC_DDNS_RSP_NOTOK || rc == RC_DDNS_RSP_AUTH_FAIL then rc
    else if (rc == RC_DDNS_RSP_RETRY_LATER || rc == RC_DDNS_RSP_TOO_FREQUENT) && remember == 0 then rc
    else remember
  }

  /** Where a pass over all providers has got to; `rc` is the local that no provider without
      aliases resets. */
  datatype Progress = Progress(table: Table, rc: int, remember: int, world: World)

  function FakeAll(ps: seq<Provider>, env: Round, s: Progress, p: nat): (r: Progress)
    requires Fits(ps, s.table)
    ensures Fits(ps, r.table)
    decreases |ps| - p
  {
    if p >= |ps| then s
    else
      var pass := FakeFrom(ps, p, env, Pass(s.table[p], s.rc, s.world), 0);
      FakeAll(ps, env, Progress(s.table[p := pass.aliases], pass.rc, s.remember, pass.world), p + 1)
  }

  function RealAll(mode: Mode, ps: seq<Provider>, env: Round, s: Progress, p: nat): (r: Progress)
    requires Fits(ps, s.table)
    ensures Fits(ps, r.table)
    decreases |ps| - p
  {
    if p >= |ps| then s
    else
      var pass := RealFrom(mode, ps, p, env, Pass(s.table[p], s.rc, s.world), 0);
      RealAll(mode, ps, env,
              Progress(s.table[p := pass.aliases], pass.rc, Remember(s.remember, pass.rc), pass.world), p + 1)
  }

  function UpdateTable(opt: Settings, ps: seq<Provider>, env: Round, table: Table, w: World): (r: Progress)
    requires Fits(ps, table)
    ensures Fits(ps, r.table)
  {
    var start := Progress(table, 0, 0, w);
    RealAll(opt.mode, ps, env, if opt.fakeAddress then FakeAll(ps, env, start, 0) else start, 0)
  }

  // ------------------------------------------------------------ check_address

  function Prepared(opt: Settings, env: Round, table: Table): (r: Table)
    ensures |r| == |table| && forall p :: 0 <= p < |r| ==> |r[p]| == |table[p]|
  {
    CheckAll(env, opt.forcedPeriod, FetchAll(env, table))
  }

  /** A whole round; `remember` is what `check_address` returns. */
  function CheckAddress(opt: Settings, ps: seq<Provider>, env: Round, table: Table, w: World): (r: Progress)
    requires Fits(ps, table)
    ensures Fits(ps, r.table)
  {
    UpdateTable(opt, ps, env, Prepared(opt, env, table), w)
  }

  /** FORCED_UPDATE, and `--once --force`: the flag of every alias. */
  function ForceAll(table: Table): (r: Table)
    ensures |r| == |table| && forall p :: 0 <= p < |r| ==> |r[p]| == |table[p]|
  {
    seq(|table|, p requires 0 <= p < |table| =>
      seq(|table[p]|, i requires 0 <= i < |table[p]| => table[p][i].(force := true)))
  }

  // ------------------------------------------------------------ read_cache_file

  /** `read_one`: the cache file if there is one; else what a DNS query says, if anything. */
  function ReadOne(a: Alias, cached: Option<Entry>, lookup: Option<string>): Alias {
    match cached
    case Some(e) => a.(address := e.address, lastUpdate := e.time)
    case None => a.(address := if lookup.Some? then lookup.value else "", lastUpdate := 0)
  }

  function Cached(w: World, key: Key): Option<Entry> {
    if CacheName(key) in w.cache then Some(w.cache[CacheName(key)]) else None
  }

  /** `read_cache_file`: every address and time anew; flags stay. */
  function Seed(ps: seq<Provider>, w: World, lookup: (nat, nat) -> Option<string>, table: Table): (r: Table)
    requires Fits(ps, table)
    ensures Fits(ps, r)
    ensures forall p, i :: 0 <= p < |ps| && 0 <= i < |ps[p].names| ==>
      r[p][i] == ReadOne(table[p][i], Cached(w, KeyOf(ps, p, i)), lookup(p, i))
  {
    seq(|ps|, p requires 0 <= p < |ps| =>
      seq(|ps[p].names|, i requires 0 <= i < |ps[p].names| =>
        ReadOne(table[p][i], Cached(w, KeyOf(ps, p, i)), lookup(p, i))))
  }

  /** The tables of a client that has just parsed its configuration. */
  const BLANK: Alias := Alias(false, false, "", false, 0)

  function Blank(ps: seq<Provider>): (r: Table)
    ensures Fits(ps, r)
    ensures forall p, i :: 0 <= p < |ps| && 0 <= i < |ps[p].names| ==> r[p][i] == BLANK
  {
    seq(|ps|, p requires 0 <= p < |ps| => seq(|ps[p].names|, _ => BLANK))
  }

  function ReadCache(ps: seq<Provider>, w: World, lookup: (nat, nat) -> Option<string>): (r: Table)
    ensures Fits(ps, r)
    ensures forall p, i :: 0 <= p < |ps| && 0 <= i < |ps[p].names| ==>
      r[p][i] == ReadOne(BLANK, Cached(w, KeyOf(ps, p, i)), lookup(p, i))
  {
    Seed(ps, w, lookup, Blank(ps))
  }

  // ------------------------------------------------------------ runs

  /** What happens to a client: a round, the command to force an update, or a restart; the new
      process knows only what the cache files say, and DNS where there is none. */
  datatype Event = Checked(env: Round) | Forced | Restarted(lookup: (nat, nat) -> Option<string>)

  function Step(opt: Settings, ps: seq<Provider>, e: Event, c: Client): (r: Client)
    requires Fits(ps, c.table)
    ensures Fits(ps, r.table)
  {
    match e
    case Checked(env) =>
      var round := CheckAddress(opt, ps, env, c.table, c.world);
      Client(round.table, round.world)
    case Forced => c.(table := ForceAll(c.table))
    case Restarted(lookup) => Client(ReadCache(ps, c.world, lookup), c.world)
  }

  function Run(opt: Settings, ps: seq<Provider>, es: seq<Event>, c: Client): (r: Client)
    requires Fits(ps, c.table)
    ensures Fits(ps, r.table)
    decreases |es|
  {
    if es == [] then c else Run(opt, ps, es[1..], Step(opt, ps, es[0], c))
  }
}
