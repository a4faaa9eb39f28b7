/** Which errors a round reports, and which it forgets. */
module DdnsErrors {
  import opened Wrappers
  import opened Ddns
  import opened DdnsSlots
  import opened DdnsSafety

  /** The only values `check_address` returns. */
  predicate RoundCode(rc: int) {
    rc in {RC_OK, RC_DDNS_RSP_NOTOK, RC_DDNS_RSP_AUTH_FAIL, RC_DDNS_RSP_RETRY_LATER, RC_DDNS_RSP_TOO_FREQUENT}
  }

  lemma {:induction false} RealAllCode(mode: Mode, ps: seq<Provider>, env: Round, s: Progress, p: nat)
    requires Fits(ps, s.table) && RoundCode(s.remember)
    ensures RoundCode(RealAll(mode, ps, env, s, p).remember)
    decreases |ps| - p
  {
    hide ProviderTurn;
    if p < |ps| {
      RealAllTurns(mode, ps, env, s, p);
      ProviderTurnCode(mode, ps, env, s, p);
      RealAllCode(mode, ps, env, ProviderTurn(mode, ps, env, s, p), p + 1);
    }
  }

  lemma ProviderTurnCode(mode: Mode, ps: seq<Provider>, env: Round, s: Progress, p: nat)
    requires Fits(ps, s.table) && p < |ps| && RoundCode(s.remember)
    ensures RoundCode(ProviderTurn(mode, ps, env, s, p).remember)
  {
  }

  lemma {:induction false} FakeAllRemembersNothing(ps: seq<Provider>, env: Round, s: Progress, p: nat)
    requires Fits(ps, s.table)
    ensures FakeAll(ps, env, s, p).remember == s.remember
    decreases |ps| - p
  {
    hide FakeFrom;
    if p < |ps| {
      var pass := FakeFrom(ps, p, env, Pass(s.table[p], s.rc, s.world), 0);
      FakeAllRemembersNothing(ps, env, Progress(s.table[p := pass.aliases], pass.rc, s.remember, pass.world), p + 1);
    }
  }

  /** Network errors, and every other code outside the five, never get out of a round. */
  lemma CheckAddressCodes(opt: Settings, ps: seq<Provider>, env: Round, table: Table, w: World)
    requires Fits(ps, table)
    ensures RoundCode(CheckAddress(opt, ps, env, table, w).remember)
  {
    hide RealAll, FakeAll;
    var start := Progress(Prepared(opt, env, table), 0, 0, w);
    FakeAllRemembersNothing(ps, env, start, 0);
    RealAllCode(opt.mode, ps, env, if opt.fakeAddress then FakeAll(ps, env, start, 0) else start, 0);
  }

  /** Not even those survive: in EVENT mode an authentication failure is forgotten when a
      later alias of the same provider succeeds. */
  lemma LaterSuccessHidesAnError(x: string, y: string)
    requires x != y
    ensures var opt := Settings(Event, false, 10);
      var env := RoundAt(1, y, (_, i) => if i == 0 then GOOD.(response := RC_DDNS_RSP_AUTH_FAIL) else GOOD);
      CheckAddress(opt, HOSTS, env, [[UpToDate(x), UpToDate(x)]], Recorded(x)).remember == RC_OK
  {
    var opt := Settings(Event, false, 10);
    var env := RoundAt(1, y, (_, i) => if i == 0 then GOOD.(response := RC_DDNS_RSP_AUTH_FAIL) else GOOD);
    var s := Progress(Prepared(opt, env, [[UpToDate(x), UpToDate(x)]]), 0, 0, Recorded(x));
    var pass := Pass(s.table[0], 0, s.world);
    var t := TurnAt(HOSTS, 0, env, pass, 0);
    var u := TurnAt(HOSTS, 0, env, t, 1);
    RealAllTurns(Event, HOSTS, env, s, 0);
    RealFromTurns(Event, HOSTS, 0, env, pass, 0);
    RealFromTurns(Event, HOSTS, 0, env, t, 1);
    RealFromEnds(Event, HOSTS, 0, env, u);
    TurnIsSlotwise(HOSTS, 0, env, t, 1, HOST);
  }

  // ------------------------------------------------------------ which errors are reported

  /** What `send_update` returns. */
  function ReplyCode(setup: bool, reply: Reply): (rc: int)
    ensures rc == 0 <==> Succeeds(setup, reply)
  {
    if setup && reply.setup != 0 then reply.setup
    else if reply.init != 0 then reply.init
    else if reply.length < 0 then RC_ERROR
    else if reply.transaction != 0 then reply.transaction
    else reply.response
  }

  lemma TurnCode(ps: seq<Provider>, p: nat, env: Round, s: Pass, i: nat)
    requires p < |ps| && |s.aliases| == |ps[p].names| && i < |s.aliases|
    ensures TurnAt(ps, p, env, s, i).rc ==
      if s.aliases[i].required then ReplyCode(ps[p].setup, env.reply(p, i)) else 0
  {
  }

  /** The alias whose return code is left when the loop over the aliases `from..` is done: in
      EVENT mode the last one, in COMPAT mode the first that fails. */
  ghost predicate Decides(mode: Mode, setup: bool, env: Round, p: nat, aliases: seq<Alias>, from: nat, i: nat)
    requires i < |aliases|
  {
    && from <= i && aliases[i].required
    && (if mode.Event? then i == |aliases| - 1
        else !Succeeds(setup, env.reply(p, i)) && !Blocked(mode, setup, env, p, aliases, from, i))
  }

  ghost predicate Leaves(mode: Mode, setup: bool, env: Round, p: nat, aliases: seq<Alias>, from: nat, c: int) {
    exists i :: from <= i < |aliases| && Decides(mode, setup, env, p, aliases, from, i) && ReplyCode(setup, env.reply(p, i)) == c
  }

  /** A provider without aliases leaves the code that was there. */
  lemma {:induction false} PassCode(mode: Mode, ps: seq<Provider>, p: nat, env: Round, s: Pass, from: nat, c: int)
    requires p < |ps| && |s.aliases| == |ps[p].names| && from <= |s.aliases| && c != 0
    ensures RealFrom(mode, ps, p, env, s, from).rc == c <==>
      (from == |s.aliases| && s.rc == c) || Leaves(mode, ps[p].setup, env, p, s.aliases, from, c)
    decreases |s.aliases| - from
  {
    hide RealFrom, TurnAt, Succeeds, ReplyCode;
    if from == |s.aliases| {
      RealFromEnds(mode, ps, p, env, s);
    } else {
      RealFromTurns(mode, ps, p, env, s, from);
      TurnCode(ps, p, env, s, from);
      TurnIsSlotwise(ps, p, env, s, from, KeyOf(ps, p, from));
      var t := TurnAt(ps, p, env, s, from);
      if mode.Compat? && t.rc != 0 {
        BreakDecides(mode, ps[p].setup, env, p, s.aliases, from, c);
      } else {
        PassCode(mode, ps, p, env, t, from + 1, c);
        StepDecides(mode, ps[p].setup, env, p, s.aliases, t.aliases, from, c);
      }
    }
  }

  lemma BreakDecides(mode: Mode, setup: bool, env: Round, p: nat, aliases: seq<Alias>, from: nat, c: int)
    requires mode.Compat? && from < |aliases| && aliases[from].required && !Succeeds(setup, env.reply(p, from))
    ensures Leaves(mode, setup, env, p, aliases, from, c) <==> ReplyCode(setup, env.reply(p, from)) == c
  {
    hide Succeeds, ReplyCode;
    assert Decides(mode, setup, env, p, aliases, from, from);
  }

  lemma StepDecides(mode: Mode, setup: bool, env: Round, p: nat, before: seq<Alias>, after: seq<Alias>, from: nat, c: int)
    requires from < |before| == |after| && c != 0
    requires forall j :: 0 <= j < |before| && j != from ==> after[j] == before[j]
    requires mode.Compat? ==> !before[from].required || Succeeds(setup, env.reply(p, from))
    ensures Leaves(mode, setup, env, p, before, from, c) <==>
      if mode.Event? && from + 1 == |before| then before[from].required && ReplyCode(setup, env.reply(p, from)) == c
      else Leaves(mode, setup, env, p, after, from + 1, c)
  {
    hide Succeeds;
    forall i | from < i < |before|
      ensures Decides(mode, setup, env, p, before, from, i) == Decides(mode, setup, env, p, after, from + 1, i)
    {
    }
    assert Decides(mode, setup, env, p, before, from, from) && ReplyCode(setup, env.reply(p, from)) == c ==>
      mode.Event? && from + 1 == |before|;
  }

  /** A provider reports the code its deciding alias was answered with. */
  ghost predicate Reports(mode: Mode, ps: seq<Provider>, env: Round, table: Table, p: nat, c: int)
    requires Fits(ps, table) && p < |ps|
  {
    Leaves(mode, ps[p].setup, env, p, table[p], 0, c)
  }

  const FATAL: set<int> := {RC_DDNS_RSP_NOTOK, RC_DDNS_RSP_AUTH_FAIL}
  const NOTED: set<int> := FATAL + {RC_DDNS_RSP_RETRY_LATER, RC_DDNS_RSP_TOO_FREQUENT}

  lemma RememberIff(codes: set<int>, remember: int, rc: int)
    requires codes == FATAL || codes == NOTED
    requires RoundCode(remember)
    ensures Remember(remember, rc) in codes <==> remember in codes || rc in codes
    ensures RoundCode(Remember(remember, rc))
  {
  }

  /** Some provider from `from` on reports one of these codes. */
  ghost predicate SomeReport(mode: Mode, ps: seq<Provider>, env: Round, table: Table, from: nat, codes: set<int>)
    requires Fits(ps, table)
  {
    exists p :: from <= p < |ps| && ReportsOne(mode, ps, env, table, p, codes)
  }

  ghost predicate ReportsOne(mode: Mode, ps: seq<Provider>, env: Round, table: Table, p: nat, codes: set<int>)
    requires Fits(ps, table) && p < |ps|
  {
    exists c :: c in codes && Reports(mode, ps, env, table, p, c)
  }

  lemma {:induction false} RealAllReports(mode: Mode, ps: seq<Provider>, env: Round, s: Progress, from: nat, codes: set<int>)
    requires Fits(ps, s.table) && RoundCode(s.remember) && (codes == FATAL || codes == NOTED) && from <= |ps|
    ensures RealAll(mode, ps, env, s, from).remember in codes <==>
      || s.remember in codes || SomeReport(mode, ps, env, s.table, from, codes)
      || (from < |ps| && ps[from].names == [] && s.rc in codes)
    decreases |ps| - from
  {
    hide RealFrom, Leaves, Remember, RealAll;
    if from < |ps| {
      RealAllTurns(mode, ps, env, s, from);
      var t := ProviderTurn(mode, ps, env, s, from);
      ProviderReports(mode, ps, env, s, from, codes);
      RememberIff(codes, s.remember, t.rc);
      RealAllReports(mode, ps, env, t, from + 1, codes);
      forall p | from < p < |ps|
        ensures ReportsOne(mode, ps, env, t.table, p, codes) == ReportsOne(mode, ps, env, s.table, p, codes)
      {
        SameRow(mode, ps, env, s.table, t.table, p, codes);
      }
      assert SomeReport(mode, ps, env, s.table, from, codes) <==>
        ReportsOne(mode, ps, env, s.table, from, codes) || SomeReport(mode, ps, env, t.table, from + 1, codes);
    } else {
      NoProviderLeft(mode, ps, env, s);
    }
  }

  lemma ProviderReports(mode: Mode, ps: seq<Provider>, env: Round, s: Progress, p: nat, codes: set<int>)
    requires Fits(ps, s.table) && p < |ps| && 0 !in codes
    ensures ProviderTurn(mode, ps, env, s, p).rc in codes <==>
      (ps[p].names == [] && s.rc in codes) || ReportsOne(mode, ps, env, s.table, p, codes)
  {
    hide RealFrom, Leaves;
    var t := ProviderTurn(mode, ps, env, s, p);
    forall c | c in codes
      ensures t.rc == c <==> (ps[p].names == [] && s.rc == c) || Reports(mode, ps, env, s.table, p, c)
    {
      PassCode(mode, ps, p, env, Pass(s.table[p], s.rc, s.world), 0, c);
    }
    assert Reports(mode, ps, env, s.table, p, t.rc) && t.rc in codes ==> ReportsOne(mode, ps, env, s.table, p, codes);
    assert s.rc in codes && ps[p].names == [] ==> t.rc == s.rc;
  }

  lemma NoProviderLeft(mode: Mode, ps: seq<Provider>, env: Round, s: Progress)
    requires Fits(ps, s.table)
    ensures RealAll(mode, ps, env, s, |ps|) == s
  {
  }

  lemma SameRow(mode: Mode, ps: seq<Provider>, env: Round, before: Table, after: Table, p: nat, codes: set<int>)
    requires Fits(ps, before) && Fits(ps, after) && p < |ps| && before[p] == after[p]
    ensures ReportsOne(mode, ps, env, after, p, codes) == ReportsOne(mode, ps, env, before, p, codes)
  {
    hide Leaves;
    assert forall c :: Reports(mode, ps, env, after, p, c) == Reports(mode, ps, env, before, p, c);
  }

  /** A round reports a fatal code exactly if some provider's deciding alias was answered with
      one, and any code at all exactly if some provider's was answered with one of the four.
      The one exception is a first provider without aliases, which passes on what the fake
      pass left. */
  lemma ReportedIff(opt: Settings, ps: seq<Provider>, env: Round, table: Table, w: World, codes: set<int>)
    requires Fits(ps, table) && (codes == FATAL || codes == NOTED)
    ensures var prepared := Prepared(opt, env, table);
      CheckAddress(opt, ps, env, table, w).remember in codes <==>
      || SomeReport(opt.mode, ps, env, prepared, 0, codes)
      || (opt.fakeAddress && ps != [] && ps[0].names == [] &&
          FakeAll(ps, env, Progress(prepared, 0, 0, w), 0).rc in codes)
  {
    hide RealAll, FakeAll, Leaves, Prepared;
    var prepared := Prepared(opt, env, table);
    var s := Progress(prepared, 0, 0, w);
    if opt.fakeAddress {
      FakeAllRemembersNothing(ps, env, s, 0);
      var faked := FakeAll(ps, env, s, 0);
      RealAllReports(opt.mode, ps, env, faked, 0, codes);
      forall p, c | 0 <= p < |ps|
        ensures Reports(opt.mode, ps, env, faked.table, p, c) == Reports(opt.mode, ps, env, prepared, p, c)
      {
        FakeAllKeepsRequired(ps, env, s, 0, p);
        SameLeaves(opt.mode, ps[p].setup, env, p, prepared[p], faked.table[p], c);
      }
      assert forall p | 0 <= p < |ps| ::
        ReportsOne(opt.mode, ps, env, faked.table, p, codes) == ReportsOne(opt.mode, ps, env, prepared, p, codes);
    } else {
      RealAllReports(opt.mode, ps, env, s, 0, codes);
    }
  }

  // ------------------------------------------------------------ which code exactly

  function Fold(remember: int, cs: seq<int>): int
    decreases |cs|
  {
    if cs == [] then remember else Fold(Remember(remember, cs[0]), cs[1..])
  }

  /** The last fatal code wins; without one, the first temporary code stays. */
  ghost predicate LastFatal(cs: seq<int>, c: int) {
    exists k :: 0 <= k < |cs| && cs[k] == c && NoneOf(cs[k + 1..], FATAL)
  }

  ghost predicate FirstNoted(cs: seq<int>, c: int) {
    exists k :: 0 <= k < |cs| && cs[k] == c && NoneOf(cs[..k], NOTED)
  }

  predicate NoneOf(cs: seq<int>, codes: set<int>) { forall k :: 0 <= k < |cs| ==> cs[k] !in codes }

  lemma {:induction false} FoldIs(remember: int, cs: seq<int>, c: int)
    requires RoundCode(remember)
    ensures c in FATAL ==> (Fold(remember, cs) == c <==> LastFatal(cs, c) || (remember == c && NoneOf(cs, FATAL)))
    ensures c in NOTED - FATAL ==>
      (Fold(remember, cs) == c <==>
        NoneOf(cs, FATAL) && (remember == c || (remember == 0 && FirstNoted(cs, c))))
    decreases |cs|
  {
    if cs != [] {
      RememberIff(FATAL, remember, cs[0]);
      FoldIs(Remember(remember, cs[0]), cs[1..], c);
      LastFatalUnfolds(cs, c);
      FirstNotedUnfolds(cs, c);
      NoneUnfolds(cs, FATAL);
      hide LastFatal, FirstNoted, NoneOf;
    }
  }

  lemma NoneUnfolds(cs: seq<int>, codes: set<int>)
    requires cs != []
    ensures NoneOf(cs, codes) <==> cs[0] !in codes && NoneOf(cs[1..], codes)
  {
    assert NoneOf(cs[1..], codes) ==> forall k :: 1 <= k < |cs| ==> cs[k] == cs[1..][k - 1];
  }

  lemma LastFatalUnfolds(cs: seq<int>, c: int)
    requires cs != []
    ensures LastFatal(cs, c) <==> LastFatal(cs[1..], c) || (cs[0] == c && NoneOf(cs[1..], FATAL))
  {
    hide NoneOf;
    var rest := cs[1..];
    if LastFatal(rest, c) {
      var k :| 0 <= k < |rest| && rest[k] == c && NoneOf(rest[k + 1..], FATAL);
      assert cs[k + 2..] == rest[k + 1..] && cs[k + 1] == c;
    }
    if LastFatal(cs, c) {
      var k :| 0 <= k < |cs| && cs[k] == c && NoneOf(cs[k + 1..], FATAL);
      if k > 0 { assert rest[k - 1] == c && rest[k..] == cs[k + 1..]; }
    }
  }

  lemma FirstNotedUnfolds(cs: seq<int>, c: int)
    requires cs != []
    ensures FirstNoted(cs, c) <==> cs[0] == c || (cs[0] !in NOTED && FirstNoted(cs[1..], c))
  {
    var rest := cs[1..];
    if FirstNoted(rest, c) && cs[0] !in NOTED {
      var k :| 0 <= k < |rest| && rest[k] == c && NoneOf(rest[..k], NOTED);
      assert cs[..k + 1] == [cs[0]] + rest[..k] && cs[k + 1] == c;
    }
    if FirstNoted(cs, c) {
      var k :| 0 <= k < |cs| && cs[k] == c && NoneOf(cs[..k], NOTED);
      if k > 0 { assert rest[k - 1] == c && rest[..k - 1] == cs[..k][1..] && cs[..k][0] == cs[0]; }
    }
    if cs[0] == c { assert NoneOf(cs[..0], NOTED); }
  }

  /** `rcs[p]` is the return code before provider `p`, `rcs[p + 1]` the one it leaves behind: that
      its deciding alias was answered with, or, without aliases, the one from before. */
  ghost predicate LeavesBehind(mode: Mode, ps: seq<Provider>, env: Round, table: Table, rcs: seq<int>, p: nat)
    requires Fits(ps, table) && p < |ps| && |rcs| == |ps| + 1
  {
    forall c :: c != 0 ==> (rcs[p + 1] == c <==> LeftBehind(mode, ps, env, table, rcs, p, c))
  }

  ghost predicate LeftBehind(mode: Mode, ps: seq<Provider>, env: Round, table: Table, rcs: seq<int>, p: nat, c: int)
    requires Fits(ps, table) && p < |ps| && |rcs| == |ps| + 1
  {
    Reports(mode, ps, env, table, p, c) || (ps[p].names == [] && rcs[p] == c)
  }

  ghost predicate CodesOf(mode: Mode, ps: seq<Provider>, env: Round, table: Table, from: nat, rcs: seq<int>)
    requires Fits(ps, table)
  {
    |rcs| == |ps| + 1 && forall p :: from <= p < |ps| ==> LeavesBehind(mode, ps, env, table, rcs, p)
  }

  lemma ProviderCode(mode: Mode, ps: seq<Provider>, env: Round, s: Progress, p: nat, c: int)
    requires Fits(ps, s.table) && p < |ps| && c != 0
    ensures ProviderTurn(mode, ps, env, s, p).rc == c <==>
      Reports(mode, ps, env, s.table, p, c) || (ps[p].names == [] && s.rc == c)
  {
    hide RealFrom, Leaves;
    PassCode(mode, ps, p, env, Pass(s.table[p], s.rc, s.world), 0, c);
  }

  lemma FirstLeaves(mode: Mode, ps: seq<Provider>, env: Round, s: Progress, p: nat, rcs: seq<int>)
    requires Fits(ps, s.table) && p < |ps| && |rcs| == |ps| + 1
    requires rcs[p] == s.rc && rcs[p + 1] == ProviderTurn(mode, ps, env, s, p).rc
    ensures LeavesBehind(mode, ps, env, s.table, rcs, p)
  {
    hide RealFrom, Reports;
    forall c | c != 0
      ensures rcs[p + 1] == c <==> LeftBehind(mode, ps, env, s.table, rcs, p, c)
    {
      ProviderCode(mode, ps, env, s, p, c);
    }
  }

  lemma ReportsByRow(mode: Mode, ps: seq<Provider>, env: Round, before: Table, after: Table, p: nat, c: int)
    requires Fits(ps, before) && Fits(ps, after) && p < |ps| && SameRequired(before[p], after[p])
    ensures Reports(mode, ps, env, after, p, c) == Reports(mode, ps, env, before, p, c)
  {
    SameLeaves(mode, ps[p].setup, env, p, before[p], after[p], c);
  }

  lemma LeavesByRow(mode: Mode, ps: seq<Provider>, env: Round, before: Table, after: Table, rcs: seq<int>, rcs': seq<int>, p: nat)
    requires Fits(ps, before) && Fits(ps, after) && p < |ps| && SameRequired(before[p], after[p])
    requires |rcs| == |rcs'| == |ps| + 1 && rcs[p] == rcs'[p] && rcs[p + 1] == rcs'[p + 1]
    requires LeavesBehind(mode, ps, env, after, rcs, p)
    ensures LeavesBehind(mode, ps, env, before, rcs', p)
  {
    hide Reports, SameRequired;
    forall c | c != 0
      ensures rcs'[p + 1] == c <==> LeftBehind(mode, ps, env, before, rcs', p, c)
    {
      ReportsByRow(mode, ps, env, before, after, p, c);
      assert rcs[p + 1] == c <==> LeftBehind(mode, ps, env, after, rcs, p, c);
    }
  }

  lemma {:induction false} RealAllFolds(mode: Mode, ps: seq<Provider>, env: Round, s: Progress, from: nat) returns (rcs: seq<int>)
    requires Fits(ps, s.table) && from <= |ps|
    ensures CodesOf(mode, ps, env, s.table, from, rcs) && rcs[from] == s.rc
    ensures RealAll(mode, ps, env, s, from).remember == Fold(s.remember, rcs[from + 1..])
    decreases |ps| - from
  {
    hide RealFrom, Reports, Remember, RealAll;
    if from < |ps| {
      RealAllTurns(mode, ps, env, s, from);
      var t := ProviderTurn(mode, ps, env, s, from);
      var rest := RealAllFolds(mode, ps, env, t, from + 1);
      rcs := rest[from := s.rc];
      assert rcs[from + 1..] == [t.rc] + rest[from + 2..];
      forall p | from <= p < |ps| ensures LeavesBehind(mode, ps, env, s.table, rcs, p) {
        if p == from {
          FirstLeaves(mode, ps, env, s, p, rcs);
        } else {
          LeavesByRow(mode, ps, env, s.table, t.table, rest, rcs, p);
        }
      }
    } else {
      rcs := seq(|ps| + 1, _ => s.rc);
      NoProviderLeft(mode, ps, env, s);
    }
  }

  /** The code a round returns: the fatal code of the last provider that has one; if none has,
      the temporary code of the first provider that has one. */
  lemma ReportedCode(opt: Settings, ps: seq<Provider>, env: Round, table: Table, w: World) returns (rcs: seq<int>)
    requires Fits(ps, table)
    ensures var prepared := Prepared(opt, env, table);
      && CodesOf(opt.mode, ps, env, prepared, 0, rcs)
      && rcs[0] == if opt.fakeAddress then FakeAll(ps, env, Progress(prepared, 0, 0, w), 0).rc else 0
    ensures var rc := CheckAddress(opt, ps, env, table, w).remember;
      && (forall c :: c in FATAL ==> (rc == c <==> LastFatal(rcs[1..], c)))
      && (forall c :: c in NOTED - FATAL ==> (rc == c <==> NoneOf(rcs[1..], FATAL) && FirstNoted(rcs[1..], c)))
  {
    hide RealAll, FakeAll, LeavesBehind, Prepared, LastFatal, FirstNoted, NoneOf, Fold;
    var prepared := Prepared(opt, env, table);
    var s := Progress(prepared, 0, 0, w);
    if opt.fakeAddress {
      FakeAllRemembersNothing(ps, env, s, 0);
      var faked := FakeAll(ps, env, s, 0);
      rcs := RealAllFolds(opt.mode, ps, env, faked, 0);
      forall p | 0 <= p < |ps| ensures LeavesBehind(opt.mode, ps, env, prepared, rcs, p) {
        FakeAllKeepsRequired(ps, env, s, 0, p);
        LeavesByRow(opt.mode, ps, env, prepared, faked.table, rcs, rcs, p);
      }
    } else {
      rcs := RealAllFolds(opt.mode, ps, env, s, 0);
    }
    forall c | c in NOTED { FoldIs(0, rcs[1..], c); }
  }

  lemma SameLeaves(mode: Mode, setup: bool, env: Round, p: nat, before: seq<Alias>, after: seq<Alias>, c: int)
    requires SameRequired(before, after)
    ensures Leaves(mode, setup, env, p, before, 0, c) == Leaves(mode, setup, env, p, after, 0, c)
  {
    forall i | 0 <= i < |before|
      ensures Decides(mode, setup, env, p, before, 0, i) == Decides(mode, setup, env, p, after, 0, i)
    {
      SameBlocked(mode, setup, env, p, before, after, i);
    }
  }

  // ------------------------------------------------------------ what the fake pass leaves

  /** The first flagged alias from `from` on whose made-up update fails. */
  ghost predicate FakeDecides(setup: bool, env: Round, p: nat, aliases: seq<Alias>, from: nat, i: nat)
    requires i < |aliases|
  {
    && from <= i && aliases[i].force && !Succeeds(setup, env.fakeReply(p, i))
    && !FakeBlocked(setup, env, p, aliases, from, i)
  }

  ghost predicate NoneFlagged(aliases: seq<Alias>, from: nat) {
    forall i :: from <= i < |aliases| ==> !aliases[i].force
  }

  ghost predicate FakeLeaves(setup: bool, env: Round, p: nat, aliases: seq<Alias>, from: nat, c: int) {
    exists i :: from <= i < |aliases| && FakeDecides(setup, env, p, aliases, from, i) &&
      ReplyCode(setup, env.fakeReply(p, i)) == c
  }

  lemma {:induction false} FakePassCode(ps: seq<Provider>, p: nat, env: Round, s: Pass, from: nat, c: int)
    requires p < |ps| && |s.aliases| == |ps[p].names| && from <= |s.aliases| && c != 0
    ensures FakeFrom(ps, p, env, s, from).rc == c <==>
      (NoneFlagged(s.aliases, from) && s.rc == c) || FakeLeaves(ps[p].setup, env, p, s.aliases, from, c)
    decreases |s.aliases| - from
  {
    hide FakeFrom, FakeTurnAt, Succeeds, ReplyCode;
    if from == |s.aliases| {
      FakeFromEnds(ps, p, env, s);
    } else {
      FakeFromTurns(ps, p, env, s, from);
      FakeTurnCode(ps, p, env, s, from);
      var t := FakeTurnAt(ps, p, env, s, from);
      FakeTurnIsSlotwise(ps, p, env, s, from, KeyOf(ps, p, from));
      if FakeBreaks(ps, p, env, s.aliases, from) {
        assert FakeDecides(ps[p].setup, env, p, s.aliases, from, from);
      } else {
        FakePassCode(ps, p, env, t, from + 1, c);
        forall i | from < i < |s.aliases|
          ensures FakeDecides(ps[p].setup, env, p, s.aliases, from, i) ==
                  FakeDecides(ps[p].setup, env, p, t.aliases, from + 1, i)
        {
        }
        assert NoneFlagged(s.aliases, from) == (!s.aliases[from].force && NoneFlagged(t.aliases, from + 1));
      }
    }
  }

  lemma FakeTurnCode(ps: seq<Provider>, p: nat, env: Round, s: Pass, i: nat)
    requires p < |ps| && |s.aliases| == |ps[p].names| && i < |s.aliases|
    ensures FakeTurnAt(ps, p, env, s, i).rc ==
      if s.aliases[i].force then ReplyCode(ps[p].setup, env.fakeReply(p, i)) else s.rc
  {
  }

  ghost predicate NoneFlaggedFrom(table: Table, from: nat) {
    forall p :: from <= p < |table| ==> NoneFlagged(table[p], 0)
  }

  /** What the fake pass leaves is the code of the last provider with a flagged alias, that of
      the first of its flagged aliases that fails. */
  lemma {:induction false} FakeCodeIff(ps: seq<Provider>, env: Round, s: Progress, from: nat, c: int)
    requires Fits(ps, s.table) && from <= |ps| && c != 0
    ensures FakeAll(ps, env, s, from).rc == c <==>
      || (NoneFlaggedFrom(s.table, from) && s.rc == c)
      || exists p :: from <= p < |ps| && NoneFlaggedFrom(s.table, p + 1) && FakeLeaves(ps[p].setup, env, p, s.table[p], 0, c)
    decreases |ps| - from
  {
    hide FakeFrom, FakeLeaves, NoneFlagged;
    if from < |ps| {
      FakeAllTurns(ps, env, s, from);
      FakePassCode(ps, from, env, Pass(s.table[from], s.rc, s.world), 0, c);
      var t := FakeProviderTurn(ps, env, s, from);
      FakeCodeIff(ps, env, t, from + 1, c);
      assert forall p :: from < p < |ps| ==> t.table[p] == s.table[p];
      assert forall p :: from < p <= |ps| ==> NoneFlaggedFrom(s.table, p) == NoneFlaggedFrom(t.table, p);
      assert NoneFlaggedFrom(s.table, from) == (NoneFlagged(s.table[from], 0) && NoneFlaggedFrom(s.table, from + 1));
    }
  }
}
