/** The main loop of src/ddns.c: rounds, error filter, commands and the iteration limit,
    with signals delivered while a round runs and during the sleeps between rounds. */
module DdnsLoop {
  import opened Wrappers
  import opened Ddns
  import DdnsSlots
  import opened DdnsSafety
  import opened DdnsErrors
  import opened DdnsClient

  /** `ddns_cmd_t`; a signal handler stores one of the last four. */
  datatype Command = NoCommand | Stop | Restart | ForcedUpdate | CheckNow

  datatype Periods = Periods(normal: nat, error: nat, cmdCheck: nat, totalIterations: nat, ignoreErrors: bool)

  const DDNS_DEFAULT_PERIOD: nat := 120

  /** The fields of `ddns_t` the loop changes. */
  datatype Context = Context(cmd: Command, updatePeriod: nat, numIterations: nat)

  /** One turn of the loop as the outside sees it: the answers of the round, the signal that
      arrives while it runs, and the one that arrives in the k-th sleep after it. */
  datatype Tick = Tick(round: Round, during: Command, sleeps: nat -> Command)

  function Deliver(cmd: Command, signal: Command): Command {
    if signal == NoCommand then cmd else signal
  }

  // ------------------------------------------------------------ wait_for_cmd

  /** The first signal among the sleeps `k..n`. */
  function FirstSignal(sleeps: nat -> Command, k: nat, n: nat): Command
    decreases n - k
  {
    if k >= n then NoCommand
    else if sleeps(k) != NoCommand then sleeps(k)
    else FirstSignal(sleeps, k + 1, n)
  }

  function Waited(ctx: Context, per: Periods, sleeps: nat -> Command): Command
    requires per.cmdCheck > 0
  {
    if ctx.cmd != NoCommand then ctx.cmd else FirstSignal(sleeps, 0, ctx.updatePeriod / per.cmdCheck)
  }

  // ------------------------------------------------------------ check_error

  predicate Temporary(rc: int) {
    rc in {RC_TCP_INVALID_REMOTE_ADDR, RC_TCP_CONNECT_FAILED, RC_TCP_SEND_ERROR, RC_TCP_RECV_ERROR,
           RC_OS_INVALID_IP_ADDRESS, RC_DDNS_RSP_RETRY_LATER, RC_DDNS_INVALID_CHECKIP_RSP, RC_DDNS_RSP_TOO_FREQUENT}
  }

  /** None: leave the loop. Otherwise the period until the next round. */
  function Filter(per: Periods, rc: int, period: nat): Option<nat> {
    if rc == RC_OK then Some(per.normal)
    else if Temporary(rc) then Some(per.error)
    else if rc == RC_DDNS_RSP_NOTOK || rc == RC_DDNS_RSP_AUTH_FAIL then
      if per.ignoreErrors then Some(period) else None
    else None
  }

  /** The codes `check_error` forgives, by number, be there a round that returns them or not. */
  lemma FilterIff(per: Periods, rc: int, period: nat)
    ensures Filter(per, rc, period).None? <==>
      rc !in {0, 12, 13, 14, 15, 42, 49, 51, 61} && !(per.ignoreErrors && rc in {48, 50})
  {
  }

  // ------------------------------------------------------------ ddns_main_loop

  datatype Exit = IterationLimit | Stopped | Restarting | FatalError

  datatype Turn =
    | Stay(ctx: Context, client: Client)
    | Leave(exit: Exit, rc: int, ctx: Context, client: Client)

  predicate ReachesLimit(per: Periods, rc: int, num: nat) {
    rc == RC_OK && per.totalIterations != 0 && num + 1 >= per.totalIterations
  }

  function CountRound(per: Periods, rc: int, num: nat): nat {
    if rc == RC_OK && per.totalIterations != 0 then num + 1 else num
  }

  /** What is left of a turn once the round has returned `rc` and not reached the limit. */
  function AfterRound(per: Periods, tick: Tick, rc: int, ctx: Context, c: Client): Turn
    requires per.cmdCheck > 0
  {
    if ctx.cmd == Restart then Leave(Restarting, RC_RESTART, ctx.(cmd := NoCommand), c)
    else
      var period := Filter(per, rc, ctx.updatePeriod);
      if period.None? then Leave(FatalError, rc, ctx, c)
      else
        var ctx1 := ctx.(updatePeriod := period.value);
        var cmd := Waited(ctx1, per, tick.sleeps);
        match cmd
        case Stop => Leave(Stopped, 0, ctx1.(cmd := cmd), c)
        case Restart => Leave(Restarting, RC_RESTART, ctx1.(cmd := cmd), c)
        case ForcedUpdate => Stay(ctx1.(cmd := NoCommand), c.(table := ForceAll(c.table)))
        case CheckNow => Stay(ctx1.(cmd := NoCommand), c)
        case NoCommand => Stay(ctx1.(cmd := cmd), c)
  }

  function LoopTurn(opt: Settings, per: Periods, ps: seq<Provider>, tick: Tick, ctx: Context, c: Client): (t: Turn)
    requires Fits(ps, c.table) && per.cmdCheck > 0
    ensures Fits(ps, t.client.table)
  {
    var round := CheckAddress(opt, ps, tick.round, c.table, c.world);
    var rc := round.remember;
    var c' := Client(round.table, round.world);
    var ctx' := Context(Deliver(ctx.cmd, tick.during), ctx.updatePeriod, CountRound(per, rc, ctx.numIterations));
    if ReachesLimit(per, rc, ctx.numIterations) then Leave(IterationLimit, rc, ctx', c')
    else AfterRound(per, tick, rc, ctx', c')
  }

  /** The command behind the sleeps of a turn in which the round returned `rc`, when the error
      filter lets the loop go on. */
  function WaitedBehind(per: Periods, tick: Tick, rc: int, ctx: Context): Option<Command>
    requires per.cmdCheck > 0
  {
    var period := Filter(per, rc, ctx.updatePeriod);
    if period.None? then None
    else Some(Waited(ctx.(cmd := Deliver(ctx.cmd, tick.during), updatePeriod := period.value), per, tick.sleeps))
  }

  /** No command outlives a turn that stays, and none is lost to a restart but the one obeyed right
      behind the round. */
  lemma CommandsAreConsumed(opt: Settings, per: Periods, ps: seq<Provider>, tick: Tick, ctx: Context, c: Client)
    requires Fits(ps, c.table) && per.cmdCheck > 0
    ensures var t := LoopTurn(opt, per, ps, tick, ctx, c);
      && (t.Stay? ==> t.ctx.cmd == NoCommand)
      && (t.Leave? && t.exit == Restarting ==>
           t.ctx.cmd == if Deliver(ctx.cmd, tick.during) == Restart then NoCommand else Restart)
      && (t.Leave? && t.exit == Stopped ==> t.ctx.cmd == Stop)
      && (t.Leave? && t.exit in {IterationLimit, FatalError} ==> t.ctx.cmd == Deliver(ctx.cmd, tick.during))
  {
    hide CheckAddress, FirstSignal;
  }

  /** A turn leaves the loop for one of four reasons and no other, each exactly under its own
      condition: `check_error` never sees a code it calls unrecoverable. */
  lemma ExitsAreFour(opt: Settings, per: Periods, ps: seq<Provider>, tick: Tick, ctx: Context, c: Client)
    requires Fits(ps, c.table) && per.cmdCheck > 0
    ensures var rc := CheckAddress(opt, ps, tick.round, c.table, c.world).remember;
      var limit := ReachesLimit(per, rc, ctx.numIterations);
      var cmd := Deliver(ctx.cmd, tick.during);
      var waited := WaitedBehind(per, tick, rc, ctx);
      var t := LoopTurn(opt, per, ps, tick, ctx, c);
      && RoundCode(rc)
      && (t.Leave? && t.exit == IterationLimit <==> limit)
      && (t.Leave? && t.exit == Restarting <==> !limit && (cmd == Restart || waited == Some(Restart)))
      && (t.Leave? && t.exit == Stopped <==> !limit && cmd != Restart && waited == Some(Stop))
      && (t.Leave? && t.exit == FatalError <==> cmd != Restart && !per.ignoreErrors && rc in FATAL)
      && (t.Leave? ==> t.rc == match t.exit
                               case IterationLimit => 0
                               case Stopped => 0
                               case Restarting => RC_RESTART
                               case FatalError => rc)
  {
    hide CheckAddress, FirstSignal;
    CheckAddressCodes(opt, ps, tick.round, c.table, c.world);
  }

  /** The time until the next round, in seconds: the normal period after a round without error,
      the error period after a temporary one, and what it was after an ignored fatal one. */
  function NextPeriod(per: Periods, rc: int, before: nat): nat {
    match rc
    case 0 => per.normal
    case 49 => per.error
    case 51 => per.error
    case _ => before
  }

  lemma PeriodIs(opt: Settings, per: Periods, ps: seq<Provider>, tick: Tick, ctx: Context, c: Client)
    requires Fits(ps, c.table) && per.cmdCheck > 0
    ensures var rc := CheckAddress(opt, ps, tick.round, c.table, c.world).remember;
      var t := LoopTurn(opt, per, ps, tick, ctx, c);
      t.Stay? ==>
        && t.ctx.updatePeriod == NextPeriod(per, rc, ctx.updatePeriod)
        && t.ctx.cmd == NoCommand
        && (rc in FATAL ==> per.ignoreErrors)
  {
    hide CheckAddress, FirstSignal;
    CheckAddressCodes(opt, ps, tick.round, c.table, c.world);
  }

  /** The first signal of the sleeps. */
  predicate ComesFirst(sleeps: nat -> Command, k: nat) {
    sleeps(k) != NoCommand && forall j: nat :: j < k ==> sleeps(j) == NoCommand
  }

  lemma {:induction false} FirstSignalIs(sleeps: nat -> Command, i: nat, n: nat, k: nat)
    requires ComesFirst(sleeps, k) && i <= k
    ensures FirstSignal(sleeps, i, n) == if k < n then sleeps(k) else NoCommand
    decreases n - i
  {
    if i < n && i < k { FirstSignalIs(sleeps, i + 1, n, k); }
  }

  /** With no command pending the loop obeys the first signal if it comes within as many sleeps
      as the period has checks, and none otherwise; a signal that comes while the round runs
      replaces whatever was pending and is obeyed without a sleep. */
  lemma SignalIsObeyed(opt: Settings, per: Periods, ps: seq<Provider>, tick: Tick, ctx: Context, c: Client, k: nat)
    requires Fits(ps, c.table) && per.cmdCheck > 0
    requires var rc := CheckAddress(opt, ps, tick.round, c.table, c.world).remember;
      !ReachesLimit(per, rc, ctx.numIterations) && (rc in FATAL ==> per.ignoreErrors)
    requires ctx.cmd == NoCommand && tick.during == NoCommand && ComesFirst(tick.sleeps, k)
    ensures var round := CheckAddress(opt, ps, tick.round, c.table, c.world);
      var t := LoopTurn(opt, per, ps, tick, ctx, c);
      Obeys(t, if k < NextPeriod(per, round.remember, ctx.updatePeriod) / per.cmdCheck then tick.sleeps(k) else NoCommand,
            Client(round.table, round.world))
  {
    hide CheckAddress, FirstSignal, ForceAll;
    var rc := CheckAddress(opt, ps, tick.round, c.table, c.world).remember;
    CheckAddressCodes(opt, ps, tick.round, c.table, c.world);
    FirstSignalIs(tick.sleeps, 0, NextPeriod(per, rc, ctx.updatePeriod) / per.cmdCheck, k);
  }

  lemma SignalDuringRound(opt: Settings, per: Periods, ps: seq<Provider>, tick: Tick, ctx: Context, c: Client)
    requires Fits(ps, c.table) && per.cmdCheck > 0 && tick.during != NoCommand
    requires var rc := CheckAddress(opt, ps, tick.round, c.table, c.world).remember;
      !ReachesLimit(per, rc, ctx.numIterations) && (rc in FATAL ==> per.ignoreErrors)
    ensures var round := CheckAddress(opt, ps, tick.round, c.table, c.world);
      Obeys(LoopTurn(opt, per, ps, tick, ctx, c), tick.during, Client(round.table, round.world))
  {
    hide CheckAddress, FirstSignal, ForceAll;
    CheckAddressCodes(opt, ps, tick.round, c.table, c.world);
  }

  /** What each command does to the loop and to the client as the round left it. */
  ghost predicate Obeys(t: Turn, cmd: Command, c: Client) {
    match cmd
    case Stop => t.Leave? && t.exit == Stopped && t.rc == 0 && t.client == c
    case Restart => t.Leave? && t.exit == Restarting && t.rc == 255 && t.client == c
    case ForcedUpdate =>
      && t.Stay? && t.ctx.cmd == NoCommand && t.client.world == c.world && t.client.table == ForceAll(c.table)
    case CheckNow => t.Stay? && t.ctx.cmd == NoCommand && t.client == c
    case NoCommand => t.Stay? && t.ctx.cmd == NoCommand && t.client == c
  }

  /** A forced update flags every alias and changes nothing else. */
  lemma ForceAllFlags(table: Table)
    ensures var r := ForceAll(table);
      |r| == |table| && forall p :: 0 <= p < |table| ==> Flagged(r[p], table[p])
  {
  }

  // ------------------------------------------------------------ runs of the loop and of the program

  /** A loop still running, or left; `oks` counts the rounds that returned OK. */
  datatype Status =
    | Running(ctx: Context, client: Client, oks: nat)
    | Left(exit: Exit, rc: int, ctx: Context, client: Client, oks: nat)

  function Loop(opt: Settings, per: Periods, ps: seq<Provider>, ticks: seq<Tick>, s: Status): (r: Status)
    requires Fits(ps, s.client.table) && per.cmdCheck > 0 && s.Running?
    ensures Fits(ps, r.client.table)
    decreases |ticks|
  {
    if ticks == [] then s
    else
      var rc := CheckAddress(opt, ps, ticks[0].round, s.client.table, s.client.world).remember;
      var oks := s.oks + (if rc == RC_OK then 1 else 0);
      match LoopTurn(opt, per, ps, ticks[0], s.ctx, s.client)
      case Leave(exit, code, ctx, c) => Left(exit, code, ctx, c, oks)
      case Stay(ctx, c) => Loop(opt, per, ps, ticks[1..], Running(ctx, c, oks))
  }

  /** A process of the program: the turns of its loop, and what DNS says when it reads its
      cache. */
  datatype Session = Session(ticks: seq<Tick>, lookup: (nat, nat) -> Option<string>)

  /** `main` starts the loop anew as long as it returns RC_RESTART; only the number of
      iterations is carried over, in `cached_num_iterations`. */
  function Program(opt: Settings, per: Periods, ps: seq<Provider>, sessions: seq<Session>, w: World, num: nat, oks: nat): nat
    requires per.cmdCheck > 0
    decreases |sessions|
  {
    if sessions == [] then oks
    else
      var s := sessions[0];
      var start := Running(Context(NoCommand, DDNS_DEFAULT_PERIOD, num), Client(ReadCache(ps, w, s.lookup), w), oks);
      var end := Loop(opt, per, ps, s.ticks, start);
      if end.Left? && end.rc == RC_RESTART then
        Program(opt, per, ps, sessions[1..], end.client.world, end.ctx.numIterations, end.oks)
      else end.oks
  }

  lemma {:induction false} LoopCounts(opt: Settings, per: Periods, ps: seq<Provider>, ticks: seq<Tick>, s: Status)
    requires Fits(ps, s.client.table) && per.cmdCheck > 0 && s.Running?
    requires per.totalIterations > 0 && s.ctx.numIterations == s.oks < per.totalIterations
    ensures var r := Loop(opt, per, ps, ticks, s);
      && r.ctx.numIterations == r.oks <= per.totalIterations
      && (r.Running? || r.rc == RC_RESTART ==> r.oks < per.totalIterations)
    decreases |ticks|
  {
    hide CheckAddress, LoopTurn, FirstSignal;
    if ticks != [] {
      TurnCounts(opt, per, ps, ticks[0], s.ctx, s.client);
      var t := LoopTurn(opt, per, ps, ticks[0], s.ctx, s.client);
      if t.Stay? {
        var rc := CheckAddress(opt, ps, ticks[0].round, s.client.table, s.client.world).remember;
        LoopCounts(opt, per, ps, ticks[1..], Running(t.ctx, t.client, s.oks + (if rc == RC_OK then 1 else 0)));
      }
    }
  }

  lemma TurnCounts(opt: Settings, per: Periods, ps: seq<Provider>, tick: Tick, ctx: Context, c: Client)
    requires Fits(ps, c.table) && per.cmdCheck > 0 && per.totalIterations > 0
    ensures var rc := CheckAddress(opt, ps, tick.round, c.table, c.world).remember;
      var t := LoopTurn(opt, per, ps, tick, ctx, c);
      && t.ctx.numIterations == ctx.numIterations + (if rc == RC_OK then 1 else 0)
      && (t.Stay? || t.rc == RC_RESTART ==> !ReachesLimit(per, rc, ctx.numIterations))
  {
    hide CheckAddress, FirstSignal;
    CheckAddressCodes(opt, ps, tick.round, c.table, c.world);
  }

  /** With a limit, the rounds that return OK never exceed it, however often the program is
      told to restart. */
  lemma {:induction false} LimitHoldsAcrossRestarts(opt: Settings, per: Periods, ps: seq<Provider>, sessions: seq<Session>,
                                                    w: World, num: nat)
    requires per.cmdCheck > 0 && per.totalIterations > 0 && num < per.totalIterations
    ensures Program(opt, per, ps, sessions, w, num, num) <= per.totalIterations
    decreases |sessions|
  {
    hide Loop, ReadCache;
    if sessions != [] {
      var s := sessions[0];
      var start := Running(Context(NoCommand, DDNS_DEFAULT_PERIOD, num), Client(ReadCache(ps, w, s.lookup), w), num);
      LoopCounts(opt, per, ps, s.ticks, start);
      var end := Loop(opt, per, ps, s.ticks, start);
      if end.Left? && end.rc == RC_RESTART {
        LimitHoldsAcrossRestarts(opt, per, ps, sessions[1..], end.client.world, end.oks);
      }
    }
  }

  /** The main loop loses no update: whatever the signals, the clock and the answers, as
      long as the configuration is lossless and requests can be composed. */
  lemma {:induction false} LoopLosesNothing(opt: Settings, per: Periods, ps: seq<Provider>, ticks: seq<Tick>, s: Status)
    requires Fits(ps, s.client.table) && per.cmdCheck > 0 && s.Running?
    requires DdnsSlots.DistinctKeys(ps) && Lossless(opt, ps)
    requires forall k :: 0 <= k < |ticks| ==> Composable(ps, Checked(ticks[k].round))
    requires AllSafe(ps, s.client.table, s.client.world)
    ensures var end := Loop(opt, per, ps, ticks, s).client; AllSafe(ps, end.table, end.world)
    decreases |ticks|
  {
    hide CheckAddress, LoopTurn, AllSafe, DdnsSlots.DistinctKeys, Composable;
    if ticks != [] {
      TurnLosesNothing(opt, per, ps, ticks[0], s.ctx, s.client);
      var t := LoopTurn(opt, per, ps, ticks[0], s.ctx, s.client);
      if t.Stay? {
        var rc := CheckAddress(opt, ps, ticks[0].round, s.client.table, s.client.world).remember;
        LoopLosesNothing(opt, per, ps, ticks[1..], Running(t.ctx, t.client, s.oks + (if rc == RC_OK then 1 else 0)));
      }
    }
  }

  lemma TurnLosesNothing(opt: Settings, per: Periods, ps: seq<Provider>, tick: Tick, ctx: Context, c: Client)
    requires Fits(ps, c.table) && per.cmdCheck > 0
    requires DdnsSlots.DistinctKeys(ps) && Lossless(opt, ps) && Composable(ps, Checked(tick.round))
    requires AllSafe(ps, c.table, c.world)
    ensures var t := LoopTurn(opt, per, ps, tick, ctx, c); AllSafe(ps, t.client.table, t.client.world)
  {
    hide CheckAddress, FirstSignal, AllSafe, DdnsSlots.DistinctKeys, Composable;
    LosslessRound(opt, ps, tick.round, c);
    var r := CheckAddress(opt, ps, tick.round, c.table, c.world);
    ForcedIsSafe(ps, Client(r.table, r.world));
  }

  // ------------------------------------------------------------ the loop itself

  class MainLoop {
    const daemon: Daemon
    const per: Periods
    var cmd: Command
    var updatePeriod: nat
    var numIterations: nat

    constructor (daemon: Daemon, per: Periods, num: nat)
      ensures this.daemon == daemon && this.per == per
      ensures cmd == NoCommand && updatePeriod == DDNS_DEFAULT_PERIOD && numIterations == num
    {
      this.daemon, this.per := daemon, per;
      cmd, updatePeriod, numIterations := NoCommand, DDNS_DEFAULT_PERIOD, num;
    }

    ghost function View(): Context
      reads this
    {
      Context(cmd, updatePeriod, numIterations)
    }

    ghost predicate Valid() {
      daemon.Valid() && per.cmdCheck > 0
    }

    ghost function Now(): (c: Client)
      requires Valid()
      reads daemon, daemon.Arrays()
      ensures Fits(daemon.Providers(), c.table)
    {
      Client(daemon.Aliases(), daemon.world)
    }

    /** `wait_for_cmd`; `sleeps` are the signals that arrive while it sleeps. */
    method WaitForCmd(sleeps: nat -> Command)
      requires Valid()
      modifies this`cmd
      ensures cmd == Waited(old(View()), per, sleeps)
    {
      var oldCmd := cmd;
      if oldCmd != NoCommand {
        return;
      }
      var n := updatePeriod / per.cmdCheck;
      var counter := n;
      while counter > 0
        invariant 0 <= counter <= n
        invariant cmd == NoCommand ==> FirstSignal(sleeps, n - counter, n) == FirstSignal(sleeps, 0, n)
        invariant cmd != NoCommand ==> cmd == FirstSignal(sleeps, 0, n)
      {
        var k := n - counter;
        counter := counter - 1;
        if cmd != oldCmd {
          break;
        }
        cmd := Deliver(cmd, sleeps(k));
        assert FirstSignal(sleeps, k, n) == if sleeps(k) != NoCommand then sleeps(k) else FirstSignal(sleeps, k + 1, n);
      }
    }

    /** `check_error`: whether to leave the loop. */
    method CheckError(rc: int) returns (leave: bool)
      modifies this`updatePeriod
      ensures var period := Filter(per, rc, old(updatePeriod));
        leave == period.None? && updatePeriod == (if leave then old(updatePeriod) else period.value)
    {
      if rc == RC_OK {
        updatePeriod := per.normal;
        return false;
      }
      if Temporary(rc) {
        updatePeriod := per.error;
        return false;
      }
      if rc == RC_DDNS_RSP_NOTOK || rc == RC_DDNS_RSP_AUTH_FAIL {
        return !per.ignoreErrors;
      }
      return true;
    }

    /** FORCED_UPDATE: the loops over all aliases. */
    method ForceEverything()
      requires Valid()
      modifies daemon.Arrays()
      ensures Now() == old(Now()).(table := ForceAll(old(Now()).table))
    {
      ghost var was := daemon.Aliases();
      var p := 0;
      while p < |daemon.infos|
        invariant 0 <= p <= |daemon.infos|
        invariant forall q :: 0 <= q < p ==> Flagged(daemon.infos[q].alias[..], was[q])
        invariant forall q :: p <= q < |daemon.infos| ==> daemon.infos[q].alias[..] == was[q]
      {
        ForceAliasesOf(daemon.infos[p]);
        p := p + 1;
      }
      assert forall q :: 0 <= q < |was| ==> daemon.Aliases()[q] == ForceAll(was)[q];
    }

    /** The loop body of `ddns_main_loop`; `left` says that it breaks. */
    method TurnOnce(tick: Tick) returns (left: bool, rc: int)
      requires Valid()
      modifies this, daemon`world, daemon.Arrays()
      ensures var t := LoopTurn(daemon.opt, per, daemon.Providers(), tick, old(View()), old(Now()));
        View() == t.ctx && Now() == t.client && left == t.Leave? && (left ==> rc == t.rc)
    {
      hide CheckAddress, AfterRound;
      rc := daemon.CheckAddressNow(tick.round);
      cmd := Deliver(cmd, tick.during);
      if RC_OK == rc {
        if per.totalIterations != 0 {
          numIterations := numIterations + 1;
          if numIterations >= per.totalIterations {
            return true, rc;
          }
        }
      }
      left, rc := Rest(tick, rc);
    }

    /** The loop body behind the iteration limit. */
    method Rest(tick: Tick, rc0: int) returns (left: bool, rc: int)
      requires Valid()
      modifies this`cmd, this`updatePeriod, daemon.Arrays()
      ensures var t := AfterRound(per, tick, rc0, old(View()), old(Now()));
        View() == t.ctx && Now() == t.client && left == t.Leave? && (left ==> rc == t.rc)
    {
      rc := rc0;
      if cmd == Restart {
        cmd := NoCommand;
        return true, RC_RESTART;
      }
      left := CheckError(rc);
      if left {
        return;
      }
      WaitForCmd(tick.sleeps);
      if cmd == Stop {
        return true, 0;
      }
      if cmd == Restart {
        return true, RC_RESTART;
      }
      if cmd == ForcedUpdate {
        ForceEverything();
        cmd := NoCommand;
        return;
      }
      if cmd == CheckNow {
        cmd := NoCommand;
        return;
      }
    }

    /** `while (1)`, for as many turns as the outside world is given for. */
    method Iterate(ticks: seq<Tick>) returns (left: bool, rc: int)
      requires Valid()
      modifies this, daemon`world, daemon.Arrays()
      ensures var end := Loop(daemon.opt, per, daemon.Providers(), ticks, Running(old(View()), old(Now()), 0));
        View() == end.ctx && Now() == end.client && left == end.Left? && (left ==> rc == end.rc)
    {
      hide CheckAddress, LoopTurn;
      left, rc := false, 0;
      ghost var start := Running(View(), Now(), 0);
      ghost var oks := 0;
      var k := 0;
      while k < |ticks|
        invariant 0 <= k <= |ticks|
        invariant !left
        invariant Loop(daemon.opt, per, daemon.Providers(), ticks[k..], Running(View(), Now(), oks)) ==
                  Loop(daemon.opt, per, daemon.Providers(), ticks, start)
      {
        ghost var code := CheckAddress(daemon.opt, daemon.Providers(), ticks[k].round, Now().table, Now().world).remember;
        assert ticks[k..][1..] == ticks[k + 1..];
        oks := oks + (if code == RC_OK then 1 else 0);
        left, rc := TurnOnce(ticks[k]);
        if left {
          return;
        }
        k := k + 1;
      }
    }
  }

  predicate Flagged(now: seq<Alias>, was: seq<Alias>) {
    |now| == |was| && forall i :: 0 <= i < |now| ==> now[i] == was[i].(force := true)
  }

  method ForceAliasesOf(info: Info)
    modifies info.alias
    ensures Flagged(info.alias[..], old(info.alias[..]))
  {
    var i := 0;
    while i < info.alias.Length
      invariant 0 <= i <= info.alias.Length
      invariant forall j :: 0 <= j < i ==> info.alias[j] == old(info.alias[j]).(force := true)
      invariant forall j :: i <= j < info.alias.Length ==> info.alias[j] == old(info.alias[j])
    {
      info.alias[i] := info.alias[i].(force := true);
      i := i + 1;
    }
  }
}
