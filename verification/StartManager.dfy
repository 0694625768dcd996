/** One start of the node from beginning to end. */
module StartManager {
  import opened Options
  import opened Text
  import opened NodeState
  import opened HealthCheck
  import opened Trace
  import opened Upgrader
  import opened PostStart
  import opened AccountDatabase
  import opened Seeding
  import History

  const STARTUP_POLLING: nat := 5

  // --------------------------------------------------- waiting for mysqld

  /** What one round of the startup loop finds: an exit message in the channel, or else
      the database as it is at that moment. */
  datatype Tick = Tick(exit: Option<Exit>, view: View)

  predicate Settled(t: Tick) {
    t.exit.Some? || IsDatabaseReachable(t.view)
  }

  /** The environment guarantees that some round finds mysqld gone or reachable. */
  predicate Settles(ticks: seq<Tick>) {
    exists i :: 0 <= i < |ticks| && Settled(ticks[i])
  }

  /** Round `i` finds the database reachable and no round so far has found an exit. */
  predicate ReachableAt(ticks: seq<Tick>, i: nat) {
    i < |ticks| && IsDatabaseReachable(ticks[i].view) && forall j :: 0 <= j <= i ==> ticks[j].exit.None?
  }

  method WaitForDatabaseToAcceptConnections(ticks: seq<Tick>) returns (ok: bool, round: nat, trace: seq<Event>)
    requires Settles(ticks)
    ensures ok <==> BecomesReachable(ticks)
    ensures round < |ticks| && Settled(ticks[round]) && forall j :: 0 <= j < round ==> !Settled(ticks[j])
    ensures ok ==>
      var view := ticks[round].view;
      view.openable && (view.provider in {NoRow, Value("none")} || view.localState == Value("Synced"))
    ensures trace == FailedPolls(round, 5) + [if ok then Poll(true) else StartupExit]
    ensures Advance(Started, trace) == if ok then Reached else Failed
    ensures !ok ==> ticks[round].exit.Some?
  {
    round, trace := 0, [];
    while true
      invariant round < |ticks|
      invariant trace == FailedPolls(round, STARTUP_POLLING)
      invariant forall j :: 0 <= j < round ==> !Settled(ticks[j])
      decreases |ticks| - round
    {
      FailedPollsStay(Started, round, STARTUP_POLLING);
      if ticks[round].exit.Some? {
        AdvanceOne(Started, trace, StartupExit);
        trace := trace + [StartupExit];
        return false, round, trace;
      }
      if IsDatabaseReachable(ticks[round].view) {
        AdvanceOne(Started, trace, Poll(true));
        trace := trace + [Poll(true)];
        assert ReachableAt(ticks, round);
        return true, round, trace;
      }
      trace := trace + [Poll(false)];
      trace := trace + [Sleep(STARTUP_POLLING)];
      round := round + 1;
    }
  }

  // --------------------------------------------------------- environment

  /** How a write that truncates the file first and then fills it ends. */
  datatype WriteEnd = Complete | CutShort(kept: nat) | NotOpened

  function Landed(before: FileView, text: string, end: WriteEnd): FileView {
    match end
    case Complete => Contents(text)
    case CutShort(kept) => Contents(if kept <= |text| then text[..kept] else text)
    case NotOpened => before
  }

  /** A complete write leaves the text, one that is cut short as much of it as was kept, and
      one that did not open the file what was there before. */
  predicate Leaves(before: FileView, after: FileView, text: string, end: WriteEnd) {
    && (end.Complete? ==> after == Contents(text))
    && (end.CutShort? && end.kept < |text| ==> after == Contents(text[..end.kept]))
    && (end.CutShort? && end.kept >= |text| ==> after == Contents(text))
    && (end.NotOpened? ==> after == before)
  }

  predicate Torn(end: WriteEnd) {
    end.CutShort? && end.kept < 9
  }

  /** The next start that finds this file is refused. */
  predicate NoPlan(cfg: Config, file: FileView) {
    PlanOf(cfg, file, true).None? && PlanOf(cfg, file, false).None?
  }

  /** A record that is cut short keeps a node of several from starting again, whatever the
      file held before and however the health check would turn out. */
  lemma {:induction false} CutShortRefusesNext(cfg: Config, before: FileView, after: FileView, end: WriteEnd)
    requires Leaves(before, after, "CLUSTERED", end) && Torn(end) && |cfg.clusterIps| > 1
    ensures NoPlan(cfg, after)
  {
    TornRecordDecodes(cfg, end.kept, true);
    TornRecordDecodes(cfg, end.kept, false);
  }

  datatype StartEnv = StartEnv(
    answers: seq<Answer>,              // to the probes of the health check
    grastateWrite: WriteEnd,
    launchOk: bool,
    ticks: seq<Tick>,
    sqlOpenable: bool, sqlFiles: seq<SqlFile>)

  /** What ends the supervision: mysqld exits, or the start is cancelled first. */
  datatype Finish = MysqldExits(exit: Exit) | Cancelled(signalOk: bool, exit: Exit)

  datatype Environment = Environment(
    oldRunning: bool, stopOldOk: bool,
    statFails: bool,                   // looking for the state file fails
    lastUpgraded: FileView, package: FileView, upgrade: UpgradeEnv,
    start: StartEnv,
    write: WriteEnd,
    finish: Finish)

  /** No upgrade is needed, or one is and it succeeds. */
  predicate UpgradeSettled(env: Environment) {
    var check := NeedsUpgrade(env.lastUpgraded, env.package);
    check.Needed? && (check.upgrade ==> UpgradeSucceeds(env.upgrade))
  }

  /** An upgrade is needed and its mysqld starts. */
  predicate UpgradeLaunched(env: Environment) {
    NeedsUpgrade(env.lastUpgraded, env.package) == Needed(true) && env.upgrade.startOk
  }

  /** mysqld gets launched in this mode, given the `grastate.dat` found. */
  predicate Launches(env: StartEnv, grastate: FileView, mode: Mode) {
    env.launchOk && (mode == Bootstrap && grastate.Contents? ==> env.grastateWrite.Complete?)
  }

  ghost predicate BecomesReachable(ticks: seq<Tick>) {
    exists i: nat :: ReachableAt(ticks, i)
  }

  predicate SqlSucceeds(env: StartEnv) {
    env.sqlOpenable && AllAccepted(env.sqlFiles)
  }

  predicate Prepared(env: Environment) {
    (env.oldRunning ==> env.stopOldOk) && UpgradeSettled(env)
  }

  /** What seeding and SQL come to: the first stage that fails decides. */
  function Populated(
    s: Session, entries: seq<PreseededDatabase>, users: seq<SeededUser>, sqlOk: bool): Outcome {
    if !SeedAll(s, entries).alive then Failure(SeedFailed)
    else if !SeedBoth(s, entries, users).alive then Failure(SeedUsersFailed)
    else if !sqlOk then Failure(PostStartSqlFailed)
    else Success
  }

  /** What the supervision comes to. */
  function Supervised(finish: Finish): Outcome {
    if finish.Cancelled? && !finish.signalOk then Failure(SignalFailed)
    else if finish.exit.Clean? then Success
    else Failure(MysqldFailed(finish.exit))
  }

  /** What a start comes to once mysqld has been launched for it. */
  ghost function Verdict(
    env: Environment, s: Session, entries: seq<PreseededDatabase>, users: seq<SeededUser>): Outcome {
    var populated := Populated(s, entries, users, SqlSucceeds(env.start));
    if !BecomesReachable(env.start.ticks) then Failure(MysqldExited)
    else if !populated.Success? then populated
    else if !env.write.Complete? then Failure(StateNotWritten)
    else Supervised(env.finish)
  }

  predicate EndsCleanly(finish: Finish) {
    finish.exit.Clean? && (finish.Cancelled? ==> finish.signalOk)
  }

  predicate Launched(trace: seq<Event>) {
    exists i :: 0 <= i < |trace| && trace[i].NodeStart?
  }

  /** Every launch in the trace is of this kind. */
  predicate LaunchedAs(trace: seq<Event>, mode: Mode) {
    forall i :: 0 <= i < |trace| && trace[i].NodeStart? ==> trace[i].mode == mode
  }

  predicate Wrote(trace: seq<Event>) {
    exists i :: 0 <= i < |trace| && trace[i].WriteState?
  }

  /** SIGTERM was sent, or could not be. */
  predicate SentSigterm(trace: seq<Event>) {
    exists i :: 0 <= i < |trace| && trace[i].Sigterm?
  }

  lemma {:induction false} NotSignalledYet(trace: seq<Event>)
    requires Accepted(trace) && Rank(Advance(Fresh, trace)) < Rank(Serving)
    ensures !SentSigterm(trace)
  {
    assert trace[..|trace|] == trace;
    if k: nat :| k < |trace| && trace[k].Sigterm? {
      ThresholdCrossed(trace, k);
      PhasesGrow(trace, k + 1, |trace|);
    }
  }

  lemma {:induction false} SigtermComesAfterWrite(trace: seq<Event>)
    requires Accepted(trace) && !Wrote(trace)
    ensures !SentSigterm(trace)
  {
    if k: nat :| k < |trace| && trace[k].Sigterm? {
      ServesOnlyWhatIsRecorded(trace, k);
      ServesOnlyWhatIsRecorded(trace, k - 1);
    }
  }

  lemma {:induction false} SeveralRecordClustered(cfg: Config, file: FileView, healthyCluster: bool)
    requires |cfg.clusterIps| > 1 && PlanOf(cfg, file, healthyCluster).Some?
    ensures PlanOf(cfg, file, healthyCluster).value.record == "CLUSTERED"
  {
  }

  /** Once the node has been started nothing is stopped or upgraded any more. */
  lemma {:induction false} NothingOldAfterStart(before: seq<Event>, trace: seq<Event>)
    requires Accepted(trace) && before <= trace && (|before| < |trace| ==> trace[|before|].NodeStart?)
    ensures forall e :: e in {StopOld, UpgradeStart} ==> (e in trace <==> e in before)
  {
    forall i: nat | i < |trace| && trace[i] in {StopOld, UpgradeStart} ensures trace[i] in before {
      StopsAndUpgradesFirst(trace, i);
      assert i < |before|;
      assert trace[i] == before[i];
    }
  }

  // ------------------------------------------------------------- the node

  class Node {
    const cfg: Config
    const db: DbHelper
    var stateFile: FileView
    var grastate: FileView
    var mysqlCmd: Option<Mode>

    constructor (cfg: Config, db: DbHelper, stateFile: FileView, grastate: FileView)
      ensures this.cfg == cfg && this.db == db
      ensures this.stateFile == stateFile && this.grastate == grastate && this.mysqlCmd == None
    {
      this.cfg, this.db, this.stateFile, this.grastate, this.mysqlCmd := cfg, db, stateFile, grastate, None;
    }

    /** A readable `grastate.dat` is marked safe to bootstrap before mysqld is launched. */
    method BootstrapNode(env: StartEnv) returns (error: Option<Error>)
      modifies this`grastate, this`mysqlCmd
      ensures !old(grastate).Contents? || env.grastateWrite.NotOpened? ==> grastate == old(grastate)
      ensures old(grastate).Contents? && env.grastateWrite.Complete? ==>
        grastate == Contents(Rewritten(old(grastate).text))
      ensures old(grastate).Contents? && env.grastateWrite.CutShort? ==>
        grastate.Contents? && grastate.text <= Rewritten(old(grastate).text)
      ensures error.None? <==> Launches(env, old(grastate), Bootstrap)
      ensures mysqlCmd == if error.None? then Some(Bootstrap) else old(mysqlCmd)
    {
      if grastate.Contents? {
        var subbed := ReplaceFlag(grastate.text);
        grastate := Landed(grastate, subbed, env.grastateWrite);
        if !env.grastateWrite.Complete? {
          return Some(GrastateNotWritten);
        }
      }
      if !env.launchOk {
        return Some(MysqldNotStarted);
      }
      mysqlCmd := Some(Bootstrap);
      error := None;
    }

    method JoinCluster(env: StartEnv) returns (error: Option<Error>)
      modifies this`mysqlCmd
      ensures error.None? <==> Launches(env, grastate, Join)
      ensures mysqlCmd == if error.None? then Some(Join) else old(mysqlCmd)
    {
      if !env.launchOk {
        return Some(MysqldNotStarted);
      }
      mysqlCmd := Some(Join);
      error := None;
    }

    /** Seeds databases and users, stopping at the first error. */
    method SeedStages(reached: seq<Event>, mode: Mode) returns (r: Outcome, trace: seq<Event>)
      requires db.session.alive && Advance(Fresh, reached) == Reached && !Wrote(reached) && LaunchedAs(reached, mode)
      modifies db`session
      ensures Unfinished(trace) && !Wrote(trace) && LaunchedAs(trace, mode) && reached < trace
      ensures Advance(Fresh, trace) == if r.Success? then UsersSeeded else Failed
      ensures db.session == SeedBoth(old(db.session), db.preseededDatabases, db.seededUsers)
      ensures r.Success? <==> db.session.alive
      ensures r == Populated(old(db.session), db.preseededDatabases, db.seededUsers, true)
    {
      var ok := db.Seed();
      trace := Log(reached, SeedDatabases(ok));
      if !ok {
        return Failure(SeedFailed), trace;
      }
      ok := db.SeedUsers();
      trace := Log(trace, Trace.SeedUsers(ok));
      r := if ok then Success else Failure(SeedUsersFailed);
    }

    /** Seeds and then runs the post-start SQL. */
    method Populate(env: StartEnv, reached: seq<Event>, mode: Mode) returns (r: Outcome, trace: seq<Event>)
      requires db.session.alive && Advance(Fresh, reached) == Reached && !Wrote(reached) && LaunchedAs(reached, mode)
      modifies db`session
      ensures Unfinished(trace) && !Wrote(trace) && LaunchedAs(trace, mode) && reached < trace
      ensures r.Success? <==> Advance(Fresh, trace) == SqlRun
      ensures db.session == SeedBoth(old(db.session), db.preseededDatabases, db.seededUsers)
      ensures r.Success? <==> db.session.alive && SqlSucceeds(env)
      ensures r == Populated(old(db.session), db.preseededDatabases, db.seededUsers, SqlSucceeds(env))
    {
      r, trace := SeedStages(reached, mode);
      if r.Success? {
        var ok, executed := RunPostStartSQL(env.sqlOpenable, env.sqlFiles);
        trace := Log(trace, PostStartSql(ok));
        r := if ok then Success else Failure(PostStartSqlFailed);
      }
    }

    /** Waits for the launched mysqld and then populates it. */
    method BringUp(env: StartEnv, started: seq<Event>, mode: Mode) returns (r: Outcome, trace: seq<Event>)
      requires Settles(env.ticks) && db.session.alive
      requires Advance(Fresh, started) == Started && !Wrote(started) && LaunchedAs(started, mode)
      modifies db`session
      ensures Unfinished(trace) && !Wrote(trace) && LaunchedAs(trace, mode)
      ensures r.Success? <==> Advance(Fresh, trace) == SqlRun
      ensures db.session ==
        if BecomesReachable(env.ticks) then SeedBoth(old(db.session), db.preseededDatabases, db.seededUsers)
        else old(db.session)
      ensures r.Success? <==> BecomesReachable(env.ticks) && db.session.alive && SqlSucceeds(env)
      ensures started < trace
      ensures r ==
        if BecomesReachable(env.ticks)
        then Populated(old(db.session), db.preseededDatabases, db.seededUsers, SqlSucceeds(env))
        else Failure(MysqldExited)
    {
      var reached, round, polls := WaitForDatabaseToAcceptConnections(env.ticks);
      AdvanceAppend(Fresh, started, polls);
      FailedPollsKind(round, STARTUP_POLLING);
      trace := started + polls;
      if reached {
        r, trace := Populate(env, trace, mode);
      } else {
        r := Failure(MysqldExited);
      }
    }

    /** The switch over the state: launches mysqld one way or the other. */
    method LaunchFromState(state: string, env: StartEnv) returns (r: Outcome, plan: Option<Plan>)
      requires |env.answers| == |cfg.clusterIps|
      modifies this`grastate, this`mysqlCmd
      ensures plan == PlanFor(state, SomeHealthy(env.answers))
      ensures plan.None? ==> r == Failure(UnsupportedState)
      ensures plan.None? || plan.value.mode == Join ==> grastate == old(grastate)
      ensures r.Success? <==> plan.Some? && Launches(env, old(grastate), plan.value.mode)
      ensures r.Success? ==> mysqlCmd == Some(plan.value.mode)
      ensures r.Success? && plan.value.mode == Bootstrap && old(grastate).Contents? ==>
        grastate == Contents(Rewritten(old(grastate).text))
    {
      var error;
      if state == SINGLE_NODE {
        error := BootstrapNode(env);
        plan := Some(Plan(Bootstrap, SINGLE_NODE));
      } else if state == NEEDS_BOOTSTRAP {
        var healthy, asked := HealthyCluster(cfg.clusterIps, env.answers);
        if healthy {
          error := JoinCluster(env);
          plan := Some(Plan(Join, CLUSTERED));
        } else {
          error := BootstrapNode(env);
          plan := Some(Plan(Bootstrap, CLUSTERED));
        }
      } else if state == CLUSTERED {
        error := JoinCluster(env);
        plan := Some(Plan(Join, CLUSTERED));
      } else {
        return Failure(UnsupportedState), None;
      }
      r := if error.Some? then Failure(error.value) else Success;
    }

    method StartNodeFromState(state: string, env: StartEnv, before: seq<Event>)
      returns (r: Outcome, plan: Option<Plan>, trace: seq<Event>)
      requires |env.answers| == |cfg.clusterIps| && Settles(env.ticks) && db.session.alive
      requires Advance(Fresh, before) == Fresh || Advance(Fresh, before) == Upgraded
      requires BeforeNodeStart(before)
      modifies this`grastate, this`mysqlCmd, db`session
      ensures plan == PlanFor(state, SomeHealthy(env.answers))
      ensures Unfinished(trace) && !Wrote(trace)
      ensures before <= trace && (|before| < |trace| ==> trace[|before|].NodeStart?)
      ensures r.Success? <==> Advance(Fresh, trace) == SqlRun
      ensures plan.None? ==> r == Failure(UnsupportedState) && trace == before
      ensures plan.Some? ==> LaunchedAs(trace, plan.value.mode)
      ensures plan.None? || plan.value.mode == Join ==> grastate == old(grastate)
      ensures Launched(trace) <==> plan.Some? && Launches(env, old(grastate), plan.value.mode)
      ensures db.session ==
        if Launched(trace) && BecomesReachable(env.ticks)
        then SeedBoth(old(db.session), db.preseededDatabases, db.seededUsers)
        else old(db.session)
      ensures r.Success? <==>
        Launched(trace) && BecomesReachable(env.ticks) && db.session.alive && SqlSucceeds(env)
      ensures Launched(trace) ==>
        r == if BecomesReachable(env.ticks)
             then Populated(old(db.session), db.preseededDatabases, db.seededUsers, SqlSucceeds(env))
             else Failure(MysqldExited)
      ensures r.Success? ==> mysqlCmd == Some(plan.value.mode)
      ensures r.Success? && plan.value.mode == Bootstrap && old(grastate).Contents? ==>
        grastate == Contents(Rewritten(old(grastate).text))
    {
      trace := before;
      r, plan := LaunchFromState(state, env);
      if r.Success? {
        trace := Log(trace, NodeStart(plan.value.mode));
        assert trace[|before|].NodeStart?;
        r, trace := BringUp(env, trace, plan.value.mode);
      }
    }

    method KillCommand(signalOk: bool) returns (ok: bool)
      ensures ok <==> mysqlCmd.Some? && signalOk
    {
      ok := mysqlCmd.Some? && signalOk;
    }

    /** The final select: either the exit message arrives, or the start is cancelled, mysqld
        is signalled and its exit message is awaited. */
    method Supervise(finish: Finish, serving: seq<Event>) returns (r: Outcome, trace: seq<Event>)
      requires Advance(Fresh, serving) == Serving && mysqlCmd.Some?
      ensures Accepted(trace)
      ensures serving < trace && forall i :: |serving| <= i < |trace| ==> trace[i].Sigterm? || trace[i].NodeExit?
      ensures r.Success? <==> Advance(Fresh, trace) == Finished(Clean)
      ensures r == Supervised(finish)
      ensures !SentSigterm(serving) ==> (SentSigterm(trace) <==> finish.Cancelled?)
    {
      trace := serving;
      if finish.Cancelled? {
        var ok := KillCommand(finish.signalOk);
        trace := Log(trace, Sigterm(ok));
        assert trace[|serving|].Sigterm?;
        if !ok {
          return Failure(SignalFailed), trace;
        }
      }
      trace := Log(trace, NodeExit(finish.exit));
      r := if finish.exit.Clean? then Success else Failure(MysqldFailed(finish.exit));
    }

    /** Upgrades if the version files ask for it. */
    method UpgradeIfNeeded(env: Environment, before: seq<Event>) returns (r: Outcome, trace: seq<Event>)
      requires before <= [StopOld] && Advance(Fresh, before) == Fresh
      ensures Unfinished(trace) && BeforeNodeStart(trace) && before <= trace
      ensures StopOld in trace <==> StopOld in before
      ensures UpgradeStart in trace <==> UpgradeLaunched(env)
      ensures r.Success? ==> Advance(Fresh, trace) == Fresh || Advance(Fresh, trace) == Upgraded
      ensures r.Success? <==> UpgradeSettled(env)
    {
      var check := NeedsUpgrade(env.lastUpgraded, env.package);
      if check.CheckFailed? {
        return Failure(UpgradeCheckFailed), before;
      }
      if check.upgrade {
        r, trace := Upgrade(env.upgrade, before);
      } else {
        r, trace := Success, before;
      }
    }

    /** Everything before the node is started: an old mysqld is stopped, then the upgrade runs. */
    method Prepare(env: Environment) returns (r: Outcome, trace: seq<Event>)
      ensures Unfinished(trace) && BeforeNodeStart(trace)
      ensures StopOld in trace <==> env.oldRunning
      ensures UpgradeStart in trace <==> (env.oldRunning ==> env.stopOldOk) && UpgradeLaunched(env)
      ensures r.Success? ==> Advance(Fresh, trace) == Fresh || Advance(Fresh, trace) == Upgraded
      ensures r.Success? <==> Prepared(env)
    {
      trace := [];
      if env.oldRunning {
        trace := Log(trace, StopOld);
        assert trace == [StopOld];
        if !env.stopOldOk {
          return Panicked, trace;
        }
      }
      r, trace := UpgradeIfNeeded(env, trace);
    }

    /** The state file is truncated first and then filled. */
    method WriteStringToFile(contents: string, end: WriteEnd) returns (ok: bool)
      modifies this`stateFile
      ensures ok <==> end.Complete?
      ensures Leaves(old(stateFile), stateFile, contents, end)
      ensures contents == "CLUSTERED" && Torn(end) && |cfg.clusterIps| > 1 ==> NoPlan(cfg, stateFile)
    {
      stateFile := Landed(stateFile, contents, end);
      if contents == "CLUSTERED" && Torn(end) && |cfg.clusterIps| > 1 {
        CutShortRefusesNext(cfg, old(stateFile), stateFile, end);
      }
      ok := end.Complete?;
    }

    /** Writes the state file, starts the status server and supervises mysqld. */
    method RecordAndSupervise(newNodeState: string, env: Environment, up: seq<Event>)
      returns (r: Outcome, trace: seq<Event>)
      requires Advance(Fresh, up) == SqlRun && mysqlCmd.Some?
      modifies this`stateFile
      ensures Accepted(trace) && Wrote(trace) && (Launched(trace) <==> Launched(up)) && up < trace
      ensures forall mode :: LaunchedAs(up, mode) ==> LaunchedAs(trace, mode)
      ensures r.Success? <==> Advance(Fresh, trace) == Finished(Clean)
      ensures r == if env.write.Complete? then Supervised(env.finish) else Failure(StateNotWritten)
      ensures SentSigterm(trace) <==> env.write.Complete? && env.finish.Cancelled?
      ensures Leaves(old(stateFile), stateFile, newNodeState, env.write)
      ensures newNodeState == "CLUSTERED" && Torn(env.write) && |cfg.clusterIps| > 1 ==> NoPlan(cfg, stateFile)
    {
      NotSignalledYet(up);
      var ok := WriteStringToFile(newNodeState, env.write);
      trace := Log(up, WriteState(newNodeState, ok));
      assert trace[|up|].WriteState?;
      if !ok {
        return Failure(StateNotWritten), trace;
      }
      trace := Log(trace, StatusServer);
      assert trace[|up|].WriteState?;
      r, trace := Supervise(env.finish, trace);
    }

    /** From the decision on: the node is started as its state file says, its state is
        recorded, and mysqld is supervised. */
    method StartAndSupervise(env: Environment, prepared: seq<Event>) returns (r: Outcome, trace: seq<Event>)
      requires |env.start.answers| == |cfg.clusterIps| && Settles(env.start.ticks) && db.session.alive
      requires Advance(Fresh, prepared) == Fresh || Advance(Fresh, prepared) == Upgraded
      requires BeforeNodeStart(prepared)
      modifies this, db`session
      ensures Accepted(trace)
      ensures prepared <= trace && (|prepared| < |trace| ==> trace[|prepared|].NodeStart?)
      ensures r.Success? <==> Advance(Fresh, trace) == Finished(Clean)
      ensures var plan := PlanOf(cfg, Seen(old(stateFile), env.statFails), SomeHealthy(env.start.answers));
        && (Launched(trace) <==> plan.Some? && Launches(env.start, old(grastate), plan.value.mode))
        && (Launched(trace) ==> LaunchedAs(trace, plan.value.mode))
        && (Wrote(trace) ==> plan.Some? && Leaves(old(stateFile), stateFile, plan.value.record, env.write))
        && (!Wrote(trace) ==> stateFile == old(stateFile))
      ensures Wrote(trace) && Torn(env.write) && |cfg.clusterIps| > 1 ==> NoPlan(cfg, stateFile)
      ensures Wrote(trace) <==>
        Launched(trace) && BecomesReachable(env.start.ticks) && db.session.alive && SqlSucceeds(env.start)
      ensures db.session ==
        if Launched(trace) && BecomesReachable(env.start.ticks)
        then SeedBoth(old(db.session), db.preseededDatabases, db.seededUsers)
        else old(db.session)
      ensures Launched(trace) ==> r == Verdict(env, old(db.session), db.preseededDatabases, db.seededUsers)
      ensures !Launched(trace) ==> !r.Success?
      ensures SentSigterm(trace) <==> Wrote(trace) && env.write.Complete? && env.finish.Cancelled?
    {
      SigtermComesAfterWrite(prepared);
      var currentState := CurrentNodeState(cfg, Seen(stateFile, env.statFails));
      if currentState.ReadError? {
        return Failure(StateUnreadable), prepared;
      }
      var plan;
      r, plan, trace := StartNodeFromState(currentState.name, env.start, prepared);
      SigtermComesAfterWrite(trace);
      if r.Success? {
        if |cfg.clusterIps| > 1 {
          SeveralRecordClustered(cfg, Seen(stateFile, env.statFails), SomeHealthy(env.start.answers));
        }
        r, trace := RecordAndSupervise(plan.value.record, env, trace);
      }
    }

    method Execute(env: Environment) returns (r: Outcome, trace: seq<Event>)
      requires |env.start.answers| == |cfg.clusterIps| && Settles(env.start.ticks) && db.session.alive
      modifies this, db`session
      ensures Accepted(trace)
      ensures r.Success? <==> Advance(Fresh, trace) == Finished(Clean)
      ensures StopOld in trace <==> env.oldRunning
      ensures UpgradeStart in trace <==> (env.oldRunning ==> env.stopOldOk) && UpgradeLaunched(env)
      ensures var plan := PlanOf(cfg, Seen(old(stateFile), env.statFails), SomeHealthy(env.start.answers));
        && (Launched(trace) <==> Prepared(env) && plan.Some? && Launches(env.start, old(grastate), plan.value.mode))
        && (Launched(trace) ==> LaunchedAs(trace, plan.value.mode))
        && (Wrote(trace) ==> plan.Some? && Leaves(old(stateFile), stateFile, plan.value.record, env.write))
        && (!Wrote(trace) ==> stateFile == old(stateFile))
      ensures Wrote(trace) && Torn(env.write) && |cfg.clusterIps| > 1 ==> NoPlan(cfg, stateFile)
      ensures Wrote(trace) <==>
        Launched(trace) && BecomesReachable(env.start.ticks) && db.session.alive && SqlSucceeds(env.start)
      ensures r.Success? <==> Wrote(trace) && env.write.Complete? && EndsCleanly(env.finish)
      ensures db.session ==
        if Launched(trace) && BecomesReachable(env.start.ticks)
        then SeedBoth(old(db.session), db.preseededDatabases, db.seededUsers)
        else old(db.session)
      ensures Launched(trace) ==> r == Verdict(env, old(db.session), db.preseededDatabases, db.seededUsers)
      ensures SentSigterm(trace) <==> Wrote(trace) && env.write.Complete? && env.finish.Cancelled?
      ensures !env.write.CutShort? ==> stateFile == History.After(old(stateFile),
        History.Start(cfg, env.statFails, SomeHealthy(env.start.answers), Wrote(trace) && env.write.Complete?))
    {
      r, trace := Prepare(env);
      SigtermComesAfterWrite(trace);
      if r.Success? {
        ghost var prepared := trace;
        r, trace := StartAndSupervise(env, trace);
        NothingOldAfterStart(prepared, trace);
      }
    }
  }

  lemma {:induction false} FailedPollsKind(n: nat, delay: nat)
    ensures OnlyPolls(FailedPolls(n, delay))
  {
    if n > 0 { FailedPollsKind(n - 1, delay); }
  }
}
