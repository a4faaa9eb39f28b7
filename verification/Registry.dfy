/** The plugin registry of src/plugin.c over a tail queue. The plugin path is never set: the
    loader that would set it is compiled out. */
module Registry {
  import opened Letters
  import opened TailQueue
  import opened Wrappers

  /** The fields of `ddns_system_t` the registry looks at. */
  datatype Plugin = Plugin(name: string, alias: Option<string>, cloned: bool, request: string)

  // ------------------------------------------------------------ names

  function LowerChar(c: char): char {
    if 'A' <= c <= 'Z' then ((c as int) + 32) as char else c
  }

  function Lower(s: string): string { seq(|s|, i requires 0 <= i < |s| => LowerChar(s[i])) }

  /** `strcasecmp(s, t) == 0`, and `strcasestr(s, t) != NULL`. */
  predicate SameName(s: string, t: string) { Lower(s) == Lower(t) }

  predicate HasName(s: string, t: string) { Contains(Lower(s), Lower(t)) }

  predicate StandsAt(s: string, i: nat, t: string) { i + |t| <= |s| && s[i..i + |t|] == t }

  predicate Contains(s: string, t: string) {
    exists i :: 0 <= i <= |s| && StandsAt(s, i, t)
  }

  predicate ColonFree(s: string) { ':' !in s }

  /** `name` up to its first colon. */
  function Cut(s: string): (r: string)
    ensures ColonFree(s) ==> r == s
  {
    if s == "" || s[0] == ':' then "" else [s[0]] + Cut(s[1..])
  }

  /** The test of `search_plugin`. */
  predicate Matches(p: Plugin, name: string, loose: bool) {
    if loose then HasName(p.name, name) || (p.alias.Some? && HasName(p.alias.value, name))
    else SameName(p.name, name) || (p.alias.Some? && SameName(p.alias.value, name))
  }

  /** The first plugin that matches, or -1. */
  function Search(ps: seq<Plugin>, name: string, loose: bool): (k: int)
    ensures -1 <= k < |ps|
    ensures k >= 0 ==> Matches(ps[k], name, loose)
    ensures forall j :: 0 <= j < (if k >= 0 then k else |ps|) ==> !Matches(ps[j], name, loose)
  {
    if ps == [] then -1
    else if Matches(ps[0], name, loose) then 0
    else
      var k := Search(ps[1..], name, loose);
      if k < 0 then -1 else k + 1
  }

  function Find(ps: seq<Plugin>, name: string, loose: bool): int { Search(ps, Cut(name), loose) }

  // ------------------------------------------------------------ the invariant

  /** No plugin hides a later one: its name and its old name are not what strict lookup of a
      plugin registered after it looks for. */
  ghost predicate Unhidden(ps: seq<Plugin>) {
    forall j, k :: 0 <= j < k < |ps| ==> !Matches(ps[j], Cut(ps[k].name), false)
  }

  /** A plugin that matches its own name as strict lookup cuts it. */
  predicate AnswersToItself(p: Plugin) {
    ColonFree(p.name) || (p.alias.Some? && SameName(p.alias.value, Cut(p.name)))
  }

  /** The name survives the cut, up to case, exactly when it has no colon. */
  lemma {:induction false} CutKeepsIff(s: string)
    ensures |Cut(s)| <= |s|
    ensures SameName(s, Cut(s)) <==> ColonFree(s)
    decreases |s|
  {
    if s == "" {
    } else if s[0] == ':' {
      assert |Lower(s)| == |s| && |Lower(Cut(s))| == 0;
    } else {
      CutKeepsIff(s[1..]);
      var t := [s[0]] + Cut(s[1..]);
      assert s == [s[0]] + s[1..];
      assert Lower(s) == [LowerChar(s[0])] + Lower(s[1..]);
      assert Lower(t) == [LowerChar(s[0])] + Lower(Cut(s[1..]));
      assert Lower(s)[1..] == Lower(s[1..]) && Lower(t)[1..] == Lower(Cut(s[1..]));
    }
  }

  lemma AnswersIff(p: Plugin)
    ensures AnswersToItself(p) <==> Matches(p, Cut(p.name), false)
  {
    hide SameName, Cut;
    CutKeepsIff(p.name);
  }

  /** Strict lookup of a registered plugin's name finds that very plugin if and only if it
      answers to itself. */
  lemma FindsItselfIff(ps: seq<Plugin>, k: nat)
    requires Unhidden(ps) && k < |ps|
    ensures Find(ps, ps[k].name, false) == k <==> AnswersToItself(ps[k])
  {
    hide Matches, AnswersToItself;
    AnswersIff(ps[k]);
    if Matches(ps[k], Cut(ps[k].name), false) {
      SearchIs(ps, Cut(ps[k].name), false, k);
    }
  }

  lemma AppendKeepsUnhidden(ps: seq<Plugin>, p: Plugin)
    requires Unhidden(ps) && Find(ps, p.name, false) < 0
    ensures Unhidden(ps + [p])
  {
    hide Matches, Cut;
  }

  function Without(ps: seq<Plugin>, k: nat): (r: seq<Plugin>)
    requires k < |ps|
    ensures |r| == |ps| - 1
  {
    ps[..k] + ps[k + 1..]
  }

  lemma RemoveKeepsUnhidden(ps: seq<Plugin>, k: nat)
    requires Unhidden(ps) && k < |ps|
    ensures Unhidden(Without(ps, k))
  {
    var r := Without(ps, k);
    hide Matches, Cut;
    forall i, j | 0 <= i < j < |r| ensures !Matches(r[i], Cut(r[j].name), false) {
      var i' := if i < k then i else i + 1;
      var j' := if j < k then j else j + 1;
      assert r[i] == ps[i'] && r[j] == ps[j'];
    }
  }

  /** `default@foo.org` becomes `ipv6@foo.org`. */
  function V6Name(name: string): string
    requires |name| >= 7
  {
    "ipv6" + name[7..]
  }

  /** The name `plugin_unregister` looks for after the removal. */
  function CompanionName(name: string): string {
    if Contains(name, "default@") then V6Name(name) else name
  }

  // ------------------------------------------------------------ the registry itself

  class Plugins {
    const head: Link<Plugin>
    ghost var es: seq<Elem<Plugin>>

    constructor ()
      ensures Valid() && es == [] && fresh(head)
    {
      head := new Link<Plugin>();
      es := [];
      new;
      Init(head);
    }

    ghost function Values(): (ps: seq<Plugin>)
      reads this, es
      ensures |ps| == |es|
    {
      seq(|es|, i requires 0 <= i < |es| reads this, es => es[i].value)
    }

    ghost predicate Valid()
      reads this, es, Links(head, es)
    {
      Queue(head, es)
    }

    /** `search_plugin`. */
    method SearchPlugin(name: string, loose: bool) returns (p: Elem?<Plugin>)
      requires Valid()
      ensures var k := Search(Values(), name, loose); p == if k < 0 then null else es[k]
    {
      Slots(head, es, 0);
      p := head.first;
      ghost var k := 0;
      while p != null
        invariant 0 <= k <= |es| && p == (if k == |es| then null else es[k])
        invariant forall j :: 0 <= j < k ==> !Matches(Values()[j], name, loose)
        decreases |es| - k
      {
        if Matches(p.value, name, loose) {
          SearchIs(Values(), name, loose, k);
          return;
        }
        k := k + 1;
        Slots(head, es, k);
        assert p.link == At(head, es, k);
        p := p.link.first;
      }
      SearchIs(Values(), name, loose, -1);
    }

    /** `plugin_find`. */
    method FindPlugin(name: string, loose: bool) returns (p: Elem?<Plugin>)
      requires Valid()
      ensures var k := Find(Values(), name, loose); p == if k < 0 then null else es[k]
    {
      p := SearchPlugin(Cut(name), loose);
    }

    /** `plugin_register`. A plugin that is linked already must be found by its name. */
    method Register(plugin: Elem<Plugin>, req: string)
      requires Valid()
      requires Find(Values(), plugin.value.name, false) < 0 ==> plugin !in es && Outside(plugin, head, es)
      modifies this, plugin, plugin.link, Links(head, es)
      ensures Valid()
      ensures es == old(es) + if Find(old(Values()), old(plugin.value.name), false) >= 0 then [] else [plugin]
      ensures Values() == Apply(old(Values()), Op.Register(old(plugin.value).(request := req)))
    {
      var found := FindPlugin(plugin.value.name, false);
      if found != null {
        return;
      }
      ghost var ps := Values();
      plugin.value := plugin.value.(request := req);
      assert Values() == ps;
      InsertTail(head, plugin, es);
      assert Inserted(es, |es|, plugin) == es + [plugin];
      es := es + [plugin];
      assert Values() == ps + [plugin.value];
    }

    /** `plugin_register_v6`: registers a clone under the other name. `memory` says whether it
        can be allocated. */
    method RegisterV6(plugin: Elem<Plugin>, req: string, memory: bool) returns (rc: int, clone: Elem?<Plugin>)
      requires Valid() && |plugin.value.name| >= 7
      modifies this, Links(head, es)
      ensures Valid()
      ensures rc == if memory then 0 else 1
      ensures !memory ==> es == old(es) && Values() == old(Values())
      ensures memory ==>
        && clone != null && fresh(clone)
        && es == old(es) + (if Find(old(Values()), V6Name(old(plugin.value.name)), false) >= 0 then [] else [clone])
        && Values() == Apply(old(Values()), Op.RegisterV6(old(plugin.value).(request := req)))
    {
      clone := null;
      if !memory {
        return 1, null;
      }
      clone := new Elem(plugin.value);
      clone.value := clone.value.(cloned := true);
      clone.value := clone.value.(name := "ipv6" + plugin.value.name[7..]);
      Register(clone, req);
      rc := 0;
    }

    /** Taking a linked plugin out. */
    method Unlink(plugin: Elem<Plugin>, ghost k: nat)
      requires Valid() && k < |es| && es[k] == plugin
      modifies this`es, Links(head, es)
      ensures Valid()
      ensures es == Removed(old(es), k) && Values() == Without(old(Values()), k)
    {
      ghost var ps := Values();
      Remove(head, plugin, es, k);
      es := Removed(es, k);
      assert Values() == Without(ps, k);
    }

    /** `plugin_unregister`: the plugin, and with it the clone of its other name. */
    method Unregister(plugin: Elem<Plugin>)
      requires Valid()
      requires Find(Values(), plugin.value.name, false) >= 0 ==> plugin in es
      modifies this`es, Links(head, es)
      ensures Valid()
      ensures Find(old(Values()), old(plugin.value.name), false) < 0 ==> es == old(es) && Values() == old(Values())
      ensures Find(old(Values()), old(plugin.value.name), false) >= 0 ==>
        exists k :: 0 <= k < |old(es)| && old(es)[k] == plugin && Unregistered(old(es), old(Values()), k, es)
          && Values() == Apply(old(Values()), Op.Unregister(k))
    {
      hide Queue, Unhidden, Search, CompanionName;
      var v4 := FindPlugin(plugin.value.name, false);
      if v4 == null {
        return;
      }
      ghost var all, ps := es, Values();
      ghost var k :| 0 <= k < |es| && es[k] == plugin;
      var name := CompanionName(plugin.value.name);
      Unlink(plugin, k);
      UnlinkClone(name);
      assert Unregistered(all, ps, k, es);
    }

    /** The clone of another name, if there is one. */
    method UnlinkClone(name: string)
      requires Valid()
      modifies this`es, Links(head, es)
      ensures Valid()
      ensures var j := Find(old(Values()), name, false);
        if j >= 0 && old(Values())[j].cloned
        then es == Removed(old(es), j) && Values() == Without(old(Values()), j)
        else es == old(es) && Values() == old(Values())
    {
      hide Queue, Unhidden, Search;
      var v6 := FindPlugin(name, false);
      if v6 != null && v6.value.cloned {
        Unlink(v6, Find(Values(), name, false));
      }
    }
  }

  /** What is left of a registry without plugin `k` and its clone. */
  ghost predicate Unregistered(es: seq<Elem<Plugin>>, ps: seq<Plugin>, k: nat, now: seq<Elem<Plugin>>)
    requires k < |es| == |ps|
  {
    var rest := Removed(es, k);
    var j := Find(Without(ps, k), CompanionName(ps[k].name), false);
    now == if j >= 0 && Without(ps, k)[j].cloned then Removed(rest, j) else rest
  }

  lemma SearchIs(ps: seq<Plugin>, name: string, loose: bool, k: int)
    requires -1 <= k < |ps| && (k >= 0 ==> Matches(ps[k], name, loose))
    requires forall j :: 0 <= j < (if k >= 0 then k else |ps|) ==> !Matches(ps[j], name, loose)
    ensures Search(ps, name, loose) == k
  {
    var f := Search(ps, name, loose);
    assert f >= 0 ==> Matches(ps[f], name, loose);
  }

  // ------------------------------------------------------------ any run of the three operations

  /** A registration, a registration of the clone, and the removal of a linked plugin. */
  datatype Op = Register(p: Plugin) | RegisterV6(p: Plugin) | Unregister(k: nat)

  /** What the three functions demand of their callers. */
  ghost predicate Allowed(ps: seq<Plugin>, op: Op) {
    match op
    case Register(p) => true
    case RegisterV6(p) => |p.name| >= 7
    case Unregister(k) => k < |ps|
  }

  function Add(ps: seq<Plugin>, p: Plugin): seq<Plugin> {
    if Find(ps, p.name, false) >= 0 then ps else ps + [p]
  }

  function Apply(ps: seq<Plugin>, op: Op): seq<Plugin>
    requires Allowed(ps, op)
  {
    match op
    case Register(p) => Add(ps, p)
    case RegisterV6(p) => Add(ps, p.(name := V6Name(p.name), cloned := true))
    case Unregister(k) =>
      var rest := Without(ps, k);
      var j := Find(rest, CompanionName(ps[k].name), false);
      if j >= 0 && rest[j].cloned then Without(rest, j) else rest
  }

  ghost predicate AllowedRun(ps: seq<Plugin>, ops: seq<Op>)
    decreases |ops|
  {
    ops == [] || (Allowed(ps, ops[0]) && AllowedRun(Apply(ps, ops[0]), ops[1..]))
  }

  function Run(ps: seq<Plugin>, ops: seq<Op>): seq<Plugin>
    requires AllowedRun(ps, ops)
    decreases |ops|
  {
    if ops == [] then ps else Run(Apply(ps, ops[0]), ops[1..])
  }

  /** After any run, with any names, strict lookup of a registered plugin's name yields that
      very plugin if and only if it answers to itself. */
  lemma {:induction false} RunsFindIff(ps: seq<Plugin>, ops: seq<Op>)
    requires Unhidden(ps) && AllowedRun(ps, ops)
    ensures var r := Run(ps, ops);
      && Unhidden(r)
      && forall k :: 0 <= k < |r| ==> (Find(r, r[k].name, false) == k <==> AnswersToItself(r[k]))
    decreases |ops|
  {
    hide Unhidden, Find, AnswersToItself, Apply, Allowed;
    if ops == [] {
      forall k | 0 <= k < |ps| ensures Find(ps, ps[k].name, false) == k <==> AnswersToItself(ps[k]) {
        FindsItselfIff(ps, k);
      }
    } else {
      ApplyKeepsUnhidden(ps, ops[0]);
      RunsFindIff(Apply(ps, ops[0]), ops[1..]);
    }
  }

  /** In particular whenever its name has no colon. */
  lemma RunsStayUnhidden(ps: seq<Plugin>, ops: seq<Op>)
    requires Unhidden(ps) && AllowedRun(ps, ops)
    ensures var r := Run(ps, ops);
      forall k :: 0 <= k < |r| && ColonFree(r[k].name) ==> Find(r, r[k].name, false) == k
  {
    hide Unhidden, Find;
    RunsFindIff(ps, ops);
  }

  lemma ApplyKeepsUnhidden(ps: seq<Plugin>, op: Op)
    requires Unhidden(ps) && Allowed(ps, op)
    ensures Unhidden(Apply(ps, op))
  {
    hide Unhidden, Search;
    match op
    case Register(p) =>
      if Find(ps, p.name, false) < 0 { AppendKeepsUnhidden(ps, p); }
    case RegisterV6(p) =>
      var clone := p.(name := V6Name(p.name), cloned := true);
      if Find(ps, clone.name, false) < 0 { AppendKeepsUnhidden(ps, clone); }
    case Unregister(k) =>
      RemoveKeepsUnhidden(ps, k);
      var rest := Without(ps, k);
      var j := Find(rest, CompanionName(ps[k].name), false);
      if j >= 0 { RemoveKeepsUnhidden(rest, j); }
  }

  /** A plugin is found by its name right after its registration exactly if nothing of that
      name was there before and it answers to itself. */
  lemma RegisteredIff(ps: seq<Plugin>, p: Plugin)
    ensures Find(Add(ps, p), p.name, false) == |ps| <==> Find(ps, p.name, false) < 0 && AnswersToItself(p)
  {
    hide Matches, Cut, AnswersToItself;
    AnswersIff(p);
    if Find(ps, p.name, false) < 0 {
      var r := ps + [p];
      if Matches(p, Cut(p.name), false) {
        SearchIs(r, Cut(p.name), false, |ps|);
      } else {
        SearchIs(r, Cut(p.name), false, -1);
      }
    }
  }

  /** What `plugin_unregister` demands (a plugin whose name is found is linked) holds after its
      registration exactly if the registration linked it. */
  lemma UnregisterIsSafeIff(ps: seq<Plugin>, p: Plugin)
    requires p !in ps
    ensures (Find(Add(ps, p), p.name, false) >= 0 ==> p in Add(ps, p)) <==> Find(ps, p.name, false) < 0
  {
    hide Find;
  }

  /** A plugin with a colon in its name is registered, and then not found by its name. */
  lemma ColonHides(p: Plugin)
    requires p.name == "a:b" && p.alias == None
    ensures var ps := Run([], [Op.Register(p)]);
      ps == [p] && Find(ps, p.name, false) == -1
  {
    var ops := [Op.Register(p)];
    assert Cut("a:b") == "a" by { assert "a:b"[1..] == ":b"; }
    assert Lower("a") == ['a'] && |Lower("a:b")| == 3;
    assert Add([], p) == [p] && ops[1..] == [];
    assert AllowedRun([p], []);
    assert Run([p], []) == [p];
  }

  /** A registration that is accepted need not register: an old name of one plugin shuts out a
      plugin of that name, which is then not found by its own name. */
  lemma OldNamesShutOut(first: Plugin, second: Plugin)
    requires ColonFree(first.name) && ColonFree(second.name) && !SameName(first.name, second.name)
    requires first.alias == Some(second.name)
    ensures var ps := Run([], [Register(first), Register(second)]);
      ps == [first] && Find(ps, second.name, false) == 0
  {
    var ops := [Register(first), Register(second)];
    assert Add([], first) == [first];
    assert Matches(first, second.name, false);
    assert ops[1..] == [Register(second)] && ops[1..][1..] == [];
    assert AllowedRun([first], ops[1..]);
    assert Run([first], ops[1..]) == [first];
  }

  // ------------------------------------------------------------ clones and their plugins

  /** `p` is the plugin that the clone `c` was made from. */
  predicate Owns(p: Plugin, c: Plugin) {
    && !p.cloned && |p.name| >= 8 && p.name[..8] == "default@" && c.name == "ipv6@" + p.name[8..]
  }

  ghost predicate NoOrphan(ps: seq<Plugin>) {
    forall k :: 0 <= k < |ps| && ps[k].cloned ==>
      ColonFree(ps[k].name) && exists o :: 0 <= o < |ps| && Owns(ps[o], ps[k])
  }

  /** How the plugins use the registry: none is registered as a clone, and a clone is asked for
      under a plain `default@` name whose plugin is linked. */
  ghost predicate Disciplined(ps: seq<Plugin>, op: Op) {
    match op
    case Register(p) => !p.cloned
    case RegisterV6(p) =>
      && ColonFree(p.name) && |p.name| >= 8 && p.name[..8] == "default@"
      && exists o :: 0 <= o < |ps| && ps[o].name == p.name && !ps[o].cloned
    case Unregister(k) => k < |ps|
  }

  ghost predicate DisciplinedRun(ps: seq<Plugin>, ops: seq<Op>)
    requires AllowedRun(ps, ops)
    decreases |ops|
  {
    ops == [] || (Disciplined(ps, ops[0]) && DisciplinedRun(Apply(ps, ops[0]), ops[1..]))
  }

  lemma CloneIsOwned(p: Plugin, o: Plugin)
    requires ColonFree(p.name) && |p.name| >= 8 && p.name[..8] == "default@"
    requires o.name == p.name && !o.cloned
    ensures var c := p.(name := V6Name(p.name), cloned := true);
      ColonFree(c.name) && Owns(o, c)
  {
    assert p.name[7..] == [p.name[..8][7]] + p.name[8..];
    assert V6Name(p.name) == "ipv6@" + p.name[8..];
    forall i | 0 <= i < |p.name| - 8 ensures p.name[8..][i] != ':' {
      assert p.name[8 + i] in p.name;
    }
  }

  lemma OwnerNamesItsClone(o: Plugin, c: Plugin)
    requires Owns(o, c)
    ensures CompanionName(o.name) == c.name
  {
    assert StandsAt(o.name, 0, "default@");
    assert o.name[7..] == [o.name[..8][7]] + o.name[8..];
  }

  lemma AddKeepsOwners(ps: seq<Plugin>, p: Plugin)
    requires NoOrphan(ps)
    requires p.cloned ==> ColonFree(p.name) && exists o :: 0 <= o < |ps| && Owns(ps[o], p)
    ensures NoOrphan(Add(ps, p))
  {
    hide Find, Owns, ColonFree;
    var r := Add(ps, p);
    forall k | 0 <= k < |r| && r[k].cloned
      ensures ColonFree(r[k].name) && exists o :: 0 <= o < |r| && Owns(r[o], r[k])
    {
      var o :| 0 <= o < |ps| && Owns(ps[o], r[k]);
      assert Owns(r[o], r[k]);
    }
  }

  /** Strict lookup of a clone's name finds the clone, wherever it stands. */
  lemma CloneIsFound(ps: seq<Plugin>, k: nat)
    requires Unhidden(ps) && k < |ps| && ColonFree(ps[k].name)
    ensures Find(ps, ps[k].name, false) == k
  {
    FindsItselfIff(ps, k);
  }

  /** Some plugin of `ps` owns `c`. */
  ghost predicate Owned(ps: seq<Plugin>, c: Plugin) {
    exists o :: 0 <= o < |ps| && Owns(ps[o], c)
  }

  /** A plugin that is taken out leaves no clone alone but its own. */
  lemma OwnedWithout(ps: seq<Plugin>, k: nat, c: Plugin)
    requires k < |ps| && Owned(ps, c) && !Owns(ps[k], c)
    ensures Owned(Without(ps, k), c)
  {
    hide Owns;
    var o :| 0 <= o < |ps| && Owns(ps[o], c);
    var o' := if o < k then o else o - 1;
    assert Without(ps, k)[o'] == ps[o];
  }

  lemma WithoutHolds(ps: seq<Plugin>, k: nat, i: nat)
    requires k < |ps| && i < |ps| - 1
    ensures Without(ps, k)[i] == ps[if i < k then i else i + 1]
  {
  }

  /** With a plugin goes its clone, and nothing else that would leave a clone alone. */
  lemma UnregisterKeepsOwners(ps: seq<Plugin>, k: nat)
    requires Unhidden(ps) && NoOrphan(ps) && k < |ps|
    ensures NoOrphan(Apply(ps, Op.Unregister(k)))
  {
    hide Search, Owns, ColonFree, Unhidden, CompanionName, Without;
    var rest := Without(ps, k);
    RemoveKeepsUnhidden(ps, k);
    var j := Find(rest, CompanionName(ps[k].name), false);
    var both := j >= 0 && rest[j].cloned;
    var r := Apply(ps, Op.Unregister(k));
    forall i | 0 <= i < |r| && r[i].cloned
      ensures ColonFree(r[i].name) && exists o :: 0 <= o < |r| && Owns(r[o], r[i])
    {
      if both {
        WithoutHolds(rest, j, i);
        CloneStaysOwned(ps, k, if i < j then i else i + 1);
        if Owns(rest[j], r[i]) { OwnersAreNoClones(rest[j], r[i]); }
        OwnedWithout(rest, j, r[i]);
      } else {
        CloneStaysOwned(ps, k, i);
      }
    }
  }

  /** A clone that is left when plugin `k` is gone, and that is not the one found under the
      companion's name, has its plugin beside it. */
  lemma CloneStaysOwned(ps: seq<Plugin>, k: nat, i: nat)
    requires Unhidden(ps) && NoOrphan(ps) && k < |ps| && i < |ps| - 1
    requires var rest := Without(ps, k);
      rest[i].cloned && i != Find(rest, CompanionName(ps[k].name), false)
    ensures ColonFree(Without(ps, k)[i].name) && Owned(Without(ps, k), Without(ps, k)[i])
  {
    hide Search, Owns, ColonFree, Unhidden, CompanionName, Without;
    var rest := Without(ps, k);
    WithoutHolds(ps, k, i);
    RemoveKeepsUnhidden(ps, k);
    if Owns(ps[k], rest[i]) {
      OwnerNamesItsClone(ps[k], rest[i]);
      CloneIsFound(rest, i);
      assert false;
    }
    OwnedWithout(ps, k, rest[i]);
  }

  lemma OwnersAreNoClones(o: Plugin, c: Plugin)
    requires Owns(o, c)
    ensures !o.cloned
  {
  }

  /** After any disciplined run every clone in the registry has its plugin beside it: no clone
      outlives its plugin. */
  lemma {:induction false} ClonesKeepTheirPlugins(ps: seq<Plugin>, ops: seq<Op>)
    requires Unhidden(ps) && NoOrphan(ps) && AllowedRun(ps, ops) && DisciplinedRun(ps, ops)
    ensures NoOrphan(Run(ps, ops))
    decreases |ops|
  {
    hide Unhidden, NoOrphan, Apply, Allowed, Disciplined;
    if ops != [] {
      ApplyKeepsUnhidden(ps, ops[0]);
      ApplyKeepsOwners(ps, ops[0]);
      ClonesKeepTheirPlugins(Apply(ps, ops[0]), ops[1..]);
    }
  }

  lemma ApplyKeepsOwners(ps: seq<Plugin>, op: Op)
    requires Unhidden(ps) && NoOrphan(ps) && Allowed(ps, op) && Disciplined(ps, op)
    ensures NoOrphan(Apply(ps, op))
  {
    hide Unhidden, NoOrphan, Find, Owns, ColonFree;
    match op
    case Register(p) =>
      AddKeepsOwners(ps, p);
    case RegisterV6(p) =>
      var o :| 0 <= o < |ps| && ps[o].name == p.name && !ps[o].cloned;
      CloneIsOwned(p, ps[o]);
      AddKeepsOwners(ps, p.(name := V6Name(p.name), cloned := true));
    case Unregister(k) =>
      UnregisterKeepsOwners(ps, k);
  }

  // ------------------------------------------------------------ names

  /** Case is folded for the letters of the alphabet and for nothing else. */
  lemma LowerCharIs(c: char)
    ensures forall i :: 0 <= i < 26 && c == UPPER[i] ==> LowerChar(c) == LOWER[i]
    ensures c !in UPPER ==> LowerChar(c) == c
  {
    UpperIff(c);
  }

  /** The loose test asks whether one name occurs within the other, whatever the case. */
  lemma LooseIff(s: string, t: string)
    ensures HasName(s, t) <==> exists a: string, b: string :: Lower(s) == a + Lower(t) + b
  {
    var x, y := Lower(s), Lower(t);
    if HasName(s, t) {
      var i :| 0 <= i <= |x| && StandsAt(x, i, y);
      assert x == x[..i] + y + x[i + |y|..];
    }
    if a: string, b: string :| x == a + y + b {
      assert StandsAt(x, |a|, y) by { assert (a + y + b)[|a|..|a| + |y|] == y; }
    }
  }

  /** What the strict test finds, by name or by old name, the loose one finds too, there or
      before. */
  lemma StrictIsLoose(ps: seq<Plugin>, name: string)
    requires Find(ps, name, false) >= 0
    ensures 0 <= Find(ps, name, true) <= Find(ps, name, false)
  {
    var p := ps[Find(ps, name, false)];
    forall s: string | SameName(s, Cut(name)) ensures HasName(s, Cut(name)) {
      assert StandsAt(Lower(s), 0, Lower(Cut(name)));
    }
    assert Matches(p, Cut(name), true);
  }

  /** A name is looked up by what stands before its first colon. */
  lemma {:induction false} CutIs(a: string, b: string)
    requires ColonFree(a)
    ensures Cut(a) == Cut(a + ":" + b) == a
    decreases |a|
  {
    var s := a + ":" + b;
    if a != "" {
      assert a[0] in a && s[0] == a[0] && s[1..] == a[1..] + ":" + b;
      CutIs(a[1..], b);
    }
  }
}
