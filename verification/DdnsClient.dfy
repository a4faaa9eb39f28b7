/** The client of src/ddns.c itself: arrays of alias records, one per provider, updated in
    place by nested loops. Each method does what the functions of `Ddns` say. */
module DdnsClient {
  import opened Wrappers
  import opened Ddns

  /** An element of the list `conf_info_iterator` walks. */
  class Info {
    const provider: Provider
    const alias: array<Alias>

    constructor (provider: Provider)
      ensures this.provider == provider && fresh(alias) && alias.Length == |provider.names|
    {
      this.provider := provider;
      alias := new Alias[|provider.names|];
    }
  }

  class Daemon {
    const infos: seq<Info>
    const opt: Settings
    /** The servers and the cache directory. */
    var world: World

    constructor (infos: seq<Info>, opt: Settings, world: World)
      ensures this.infos == infos && this.opt == opt && this.world == world
    {
      this.infos, this.opt, this.world := infos, opt, world;
    }

    ghost function Arrays(): set<array<Alias>> {
      set p | 0 <= p < |infos| :: infos[p].alias
    }

    function Providers(): seq<Provider> {
      seq(|infos|, p requires 0 <= p < |infos| => infos[p].provider)
    }

    /** Every provider has an array of its own, with one record per name. */
    ghost predicate Valid() {
      && (forall p :: 0 <= p < |infos| ==> infos[p].alias.Length == |infos[p].provider.names|)
      && (forall p, q :: 0 <= p < q < |infos| ==> infos[p].alias != infos[q].alias)
    }

    ghost function Aliases(): (t: Table)
      requires Valid()
      reads Arrays()
      ensures Fits(Providers(), t)
    {
      seq(|infos|, p requires 0 <= p < |infos| reads Arrays() => infos[p].alias[..])
    }

    /** Changing one provider's array changes one row of the table. */
    twostate lemma OneRow(p: nat)
      requires Valid() && p < |infos|
      requires forall q :: 0 <= q < |infos| && q != p ==> infos[q].alias[..] == old(infos[q].alias[..])
      ensures Aliases() == old(Aliases())[p := infos[p].alias[..]]
    {
    }

    // ---------------------------------------------------------- get_address

    /** The loop body of `get_address`: one provider. */
    method GetAddressOf(info: Info, ip: Option<string>)
      modifies info.alias
      ensures info.alias[..] == Fetch(old(info.alias[..]), ip)
    {
      if ip.None? {
        return;
      }
      var address := ip.value;
      var i := 0;
      while i < info.alias.Length
        invariant 0 <= i <= info.alias.Length
        invariant forall j :: 0 <= j < i ==> info.alias[j] == FetchAlias(old(info.alias[j]), address)
        invariant forall j :: i <= j < info.alias.Length ==> info.alias[j] == old(info.alias[j])
      {
        var a := info.alias[i];
        a := a.(changed := a.address != address);
        if a.changed {
          a := a.(address := address);
        }
        info.alias[i] := a;
        i := i + 1;
      }
    }

    method GetAddress(env: Round)
      requires Valid()
      modifies Arrays()
      ensures Aliases() == FetchAll(env, old(Aliases()))
    {
      ghost var was := Aliases();
      var p := 0;
      while p < |infos|
        invariant 0 <= p <= |infos|
        invariant forall q :: 0 <= q < p ==> infos[q].alias[..] == Fetch(was[q], env.ip(q))
        invariant forall q :: p <= q < |infos| ==> infos[q].alias[..] == was[q]
      {
        GetAddressOf(infos[p], env.ip(p));
        p := p + 1;
      }
    }

    // ---------------------------------------------------------- check_alias_update_table

    method CheckAliasesOf(info: Info, p: nat, env: Round)
      modifies info.alias
      ensures info.alias[..] == Check(old(info.alias[..]), p, env, opt.forcedPeriod)
    {
      var i := 0;
      while i < info.alias.Length
        invariant 0 <= i <= info.alias.Length
        invariant forall j :: 0 <= j < i ==> info.alias[j] == CheckAlias(old(info.alias[j]), env.now(p, j), opt.forcedPeriod)
        invariant forall j :: i <= j < info.alias.Length ==> info.alias[j] == old(info.alias[j])
      {
        var a := info.alias[i];
        var override := TimeToCheck(a, env.now(p, i), opt.forcedPeriod);
        if !a.changed && !override {
          info.alias[i] := a.(required := false);
        } else {
          info.alias[i] := a.(required := true);
        }
        i := i + 1;
      }
    }

    method CheckAliasUpdateTable(env: Round)
      requires Valid()
      modifies Arrays()
      ensures Aliases() == CheckAll(env, opt.forcedPeriod, old(Aliases()))
    {
      ghost var was := Aliases();
      var p := 0;
      while p < |infos|
        invariant 0 <= p <= |infos|
        invariant forall q :: 0 <= q < p ==> infos[q].alias[..] == Check(was[q], q, env, opt.forcedPeriod)
        invariant forall q :: p <= q < |infos| ==> infos[q].alias[..] == was[q]
      {
        CheckAliasesOf(infos[p], p, env);
        p := p + 1;
      }
    }

    // ---------------------------------------------------------- send_update

    method Send(info: Info, i: nat, reply: Reply, time: int) returns (rc: int)
      requires i < info.alias.Length && i < |info.provider.names|
      modifies info.alias, this`world
      ensures var sent := SendUpdate(info.provider.setup, Key(info.provider.system, info.provider.names[i]),
                                     old(info.alias[i]), reply, time, old(world));
        rc == sent.rc && info.alias[..] == old(info.alias[..])[i := sent.alias] && world == sent.world
    {
      if info.provider.setup {
        rc := reply.setup;
        if rc != 0 {
          return;
        }
      }
      rc := reply.init;
      if rc != 0 {
        info.alias[i] := info.alias[i].(force := true);
        return;
      }
      if reply.length < 0 {
        return RC_ERROR;
      }
      rc := reply.transaction;
      if rc != 0 {
        info.alias[i] := info.alias[i].(force := true);
        return;
      }
      rc := reply.response;
      if rc != 0 {
        info.alias[i] := info.alias[i].(force := true);
      } else {
        world := Acknowledge(world, Key(info.provider.system, info.provider.names[i]), info.alias[i].address, time);
        info.alias[i] := info.alias[i].(force := false);
      }
    }

    // ---------------------------------------------------------- update_alias_table

    /** The fake pass over one provider; `rc0` is what the local `rc` holds before it. */
    method FakeUpdateOf(p: nat, env: Round, rc0: int) returns (rc: int)
      requires Valid() && p < |infos|
      modifies infos[p].alias, this`world
      ensures Pass(infos[p].alias[..], rc, world) ==
              FakeFrom(Providers(), p, env, Pass(old(infos[p].alias[..]), rc0, old(world)), 0)
    {
      var info := infos[p];
      ghost var start := Pass(info.alias[..], rc0, world);
      rc := rc0;
      var i := 0;
      while i < info.alias.Length
        invariant 0 <= i <= info.alias.Length
        invariant FakeFrom(Providers(), p, env, Pass(info.alias[..], rc, world), i) ==
                  FakeFrom(Providers(), p, env, start, 0)
      {
        if info.alias[i].force {
          ghost var was := info.alias[..];
          var backup := info.alias[i].address;
          info.alias[i] := info.alias[i].(address := env.random(p, i));
          rc := Send(info, i, env.fakeReply(p, i), env.done(p, i));
          assert info.alias[..] == was[i := info.alias[i]];
          if rc != 0 {
            return;
          }
          info.alias[i] := info.alias[i].(address := backup);
          assert info.alias[..] == was[i := info.alias[i]];
        }
        i := i + 1;
      }
    }

    /** The real pass over one provider. */
    method UpdateOf(p: nat, env: Round, rc0: int) returns (rc: int)
      requires Valid() && p < |infos|
      modifies infos[p].alias, this`world
      ensures Pass(infos[p].alias[..], rc, world) ==
              RealFrom(opt.mode, Providers(), p, env, Pass(old(infos[p].alias[..]), rc0, old(world)), 0)
    {
      var info := infos[p];
      ghost var start := Pass(info.alias[..], rc0, world);
      rc := rc0;
      var i := 0;
      while i < info.alias.Length
        invariant 0 <= i <= info.alias.Length
        invariant RealFrom(opt.mode, Providers(), p, env, Pass(info.alias[..], rc, world), i) ==
                  RealFrom(opt.mode, Providers(), p, env, start, 0)
      {
        rc := 0;
        if info.alias[i].required {
          ghost var was := info.alias[..];
          rc := Send(info, i, env.reply(p, i), env.done(p, i));
          if rc != 0 {
            if opt.mode.Compat? {
              return;
            }
          } else {
            info.alias[i] := info.alias[i].(required := false);
            info.alias[i] := info.alias[i].(lastUpdate := env.done(p, i));
            world := WriteCache(world, Key(info.provider.system, info.provider.names[i]), info.alias[i].address,
                                env.done(p, i), env.writable(p, i));
            assert info.alias[..] == was[i := info.alias[i]];
          }
        }
        i := i + 1;
      }
    }

    method FakeUpdates(env: Round) returns (rc: int)
      requires Valid()
      modifies Arrays(), this`world
      ensures Progress(Aliases(), rc, 0, world) ==
              FakeAll(Providers(), env, Progress(old(Aliases()), 0, 0, old(world)), 0)
    {
      ghost var start := Progress(Aliases(), 0, 0, world);
      rc := 0;
      var p := 0;
      while p < |infos|
        invariant 0 <= p <= |infos|
        invariant FakeAll(Providers(), env, Progress(Aliases(), rc, 0, world), p) ==
                  FakeAll(Providers(), env, start, 0)
      {
        label L:
        rc := FakeUpdateOf(p, env, rc);
        OneRow@L(p);
        p := p + 1;
      }
    }

    method UpdateAliasTable(env: Round) returns (remember: int)
      requires Valid()
      modifies Arrays(), this`world
      ensures var r := UpdateTable(opt, Providers(), env, old(Aliases()), old(world));
        Aliases() == r.table && remember == r.remember && world == r.world
    {
      var rc;
      rc, remember := 0, 0;
      if opt.fakeAddress {
        rc := FakeUpdates(env);
      }
      ghost var start := Progress(Aliases(), rc, 0, world);
      var p := 0;
      while p < |infos|
        invariant 0 <= p <= |infos|
        invariant RealAll(opt.mode, Providers(), env, Progress(Aliases(), rc, remember, world), p) ==
                  RealAll(opt.mode, Providers(), env, start, 0)
      {
        label L:
        rc := UpdateOf(p, env, rc);
        OneRow@L(p);
        if RC_DDNS_RSP_NOTOK == rc || RC_DDNS_RSP_AUTH_FAIL == rc {
          remember := rc;
        }
        if (RC_DDNS_RSP_RETRY_LATER == rc || rc == RC_DDNS_RSP_TOO_FREQUENT) && remember == 0 {
          remember := rc;
        }
        p := p + 1;
      }
    }

    // ---------------------------------------------------------- read_cache_file

    method ReadCacheOf(p: nat, lookup: (nat, nat) -> Option<string>)
      requires Valid() && p < |infos|
      modifies infos[p].alias
      ensures forall i :: 0 <= i < |Providers()[p].names| ==>
        infos[p].alias[i] == ReadOne(old(infos[p].alias[i]), Cached(world, KeyOf(Providers(), p, i)), lookup(p, i))
    {
      var info := infos[p];
      var i := 0;
      while i < info.alias.Length
        invariant 0 <= i <= info.alias.Length
        invariant forall j :: 0 <= j < i ==>
          info.alias[j] == ReadOne(old(info.alias[j]), Cached(world, KeyOf(Providers(), p, j)), lookup(p, j))
        invariant forall j :: i <= j < info.alias.Length ==> info.alias[j] == old(info.alias[j])
      {
        var a := info.alias[i].(lastUpdate := 0, address := "");
        var cached := Cached(world, Key(info.provider.system, info.provider.names[i]));
        if cached.None? {
          if lookup(p, i).Some? {
            a := a.(address := lookup(p, i).value);
          }
        } else {
          a := a.(address := cached.value.address);
          a := a.(lastUpdate := cached.value.time);
        }
        info.alias[i] := a;
        i := i + 1;
      }
    }

    method ReadCacheFile(lookup: (nat, nat) -> Option<string>)
      requires Valid()
      modifies Arrays()
      ensures Aliases() == Seed(Providers(), world, lookup, old(Aliases()))
    {
      ghost var ps := Providers();
      ghost var was := Aliases();
      var p := 0;
      while p < |infos|
        invariant 0 <= p <= |infos|
        invariant forall q, i :: 0 <= q < p && 0 <= i < |ps[q].names| ==>
          infos[q].alias[i] == ReadOne(was[q][i], Cached(world, KeyOf(ps, q, i)), lookup(q, i))
        invariant forall q :: p <= q < |infos| ==> infos[q].alias[..] == was[q]
      {
        assert infos[p].alias[..] == was[p];
        ReadCacheOf(p, lookup);
        p := p + 1;
      }
      forall q | 0 <= q < |infos| ensures Aliases()[q] == Seed(ps, world, lookup, was)[q] {
        forall i | 0 <= i < |ps[q].names| ensures Aliases()[q][i] == Seed(ps, world, lookup, was)[q][i] {
        }
      }
    }

    // ---------------------------------------------------------- check_address

    method CheckAddressNow(env: Round) returns (rc: int)
      requires Valid()
      modifies Arrays(), this`world
      ensures var r := CheckAddress(opt, Providers(), env, old(Aliases()), old(world));
        Aliases() == r.table && rc == r.remember && world == r.world
    {
      GetAddress(env);
      CheckAliasUpdateTable(env);
      rc := UpdateAliasTable(env);
    }
  }
}
