/** Reachability of the database, the two polling loops and the upgrade. */
module Upgrader {
  import opened Text
  import opened Trace

  // ------------------------------------------------------------ reachability

  datatype Row = QueryFailed | NoRow | Value(text: string)

  /** What one look at the server finds: the connection, the `wsrep_provider` variable
      and the `wsrep_local_state_comment` status. */
  datatype View = View(openable: bool, provider: Row, localState: Row)

  predicate IsDatabaseReachable(v: View): (r: bool)
    ensures r <==>
      && v.openable
      && (v.provider in {NoRow, Value("none")} || (v.provider.Value? && v.localState == Value("Synced")))
  {
    if !v.openable || v.provider.QueryFailed? then false
    else if v.provider.NoRow? || v.provider.text == "none" then true
    else v.localState == Value("Synced")
  }

  // ----------------------------------------------------------------- polling

  /** `n` polls that fail, each followed by a pause. */
  function FailedPolls(n: nat, delay: nat): seq<Event> {
    if n == 0 then [] else FailedPolls(n - 1, delay) + [Poll(false)] + [Sleep(delay)]
  }

  predicate OnlyPolls(trace: seq<Event>) {
    forall i :: 0 <= i < |trace| ==> trace[i].Poll? || trace[i].Sleep?
  }

  /** Every pause is of this many seconds. */
  predicate SleepsFor(trace: seq<Event>, delay: nat) {
    forall i :: 0 <= i < |trace| && trace[i].Sleep? ==> trace[i].seconds == delay
  }

  function CountPolls(trace: seq<Event>): nat {
    if trace == [] then 0
    else CountPolls(trace[..|trace| - 1]) + if trace[|trace| - 1].Poll? then 1 else 0
  }

  function Pause(e: Event): nat {
    match e
    case Sleep(seconds) => seconds
    case _ => 0
  }

  function TotalSleep(trace: seq<Event>): nat {
    if trace == [] then 0 else TotalSleep(trace[..|trace| - 1]) + Pause(trace[|trace| - 1])
  }

  lemma {:induction false} CostAddOne(trace: seq<Event>, e: Event)
    ensures CountPolls(trace + [e]) == CountPolls(trace) + if e.Poll? then 1 else 0
    ensures TotalSleep(trace + [e]) == TotalSleep(trace) + Pause(e)
  {
  }

  lemma {:induction false} FailedPollsCost(n: nat, delay: nat)
    ensures CountPolls(FailedPolls(n, delay)) == n
    ensures TotalSleep(FailedPolls(n, delay)) == n * delay
  {
    if n > 0 {
      var before := FailedPolls(n - 1, delay);
      FailedPollsCost(n - 1, delay);
      CostAddOne(before, Poll(false));
      CostAddOne(before + [Poll(false)], Sleep(delay));
      assert n * delay == (n - 1) * delay + delay;
    }
  }

  lemma {:induction false} FailedPollsStay(p: Phase, n: nat, delay: nat)
    requires p.Upgrading? || p.Started?
    ensures Advance(p, FailedPolls(n, delay)) == p
  {
    if n > 0 {
      FailedPollsStay(p, n - 1, delay);
      AdvanceOne(p, FailedPolls(n - 1, delay), Poll(false));
      AdvanceOne(p, FailedPolls(n - 1, delay) + [Poll(false)], Sleep(delay));
    }
  }

  /** The bounded wait of the upgrade; `reachable(i)` is what poll number `i` finds. */
  method WaitUntilMySQLReachable(attempts: nat, delay: nat, reachable: nat -> bool)
    returns (ok: bool, trace: seq<Event>)
    ensures ok <==> exists i :: 0 <= i < attempts && reachable(i)
    ensures CountPolls(trace) <= attempts
    ensures TotalSleep(trace) == (CountPolls(trace) - if ok then 1 else 0) * delay <= attempts * delay
    ensures !ok ==> CountPolls(trace) == attempts
    ensures ok ==> CountPolls(trace) > 0 && reachable(CountPolls(trace) - 1)
    ensures forall i :: 0 <= i < CountPolls(trace) - 1 ==> !reachable(i)
    ensures Advance(Upgrading, trace) == if ok then Upgradable else Upgrading
    ensures OnlyPolls(trace) && SleepsFor(trace, delay)
  {
    var tries := 0;
    trace := [];
    while tries < attempts
      invariant 0 <= tries <= attempts
      invariant forall i :: 0 <= i < tries ==> !reachable(i)
      invariant trace == FailedPolls(tries, delay) && OnlyPolls(trace) && SleepsFor(trace, delay)
    {
      if reachable(tries) {
        FailedPollsCost(tries, delay);
        FailedPollsStay(Upgrading, tries, delay);
        CostAddOne(trace, Poll(true));
        AdvanceOne(Upgrading, trace, Poll(true));
        MulMonotonic(tries, attempts, delay);
        trace := trace + [Poll(true)];
        return true, trace;
      }
      trace := trace + [Poll(false)];
      trace := trace + [Sleep(delay)];
      tries := tries + 1;
    }
    FailedPollsCost(tries, delay);
    FailedPollsStay(Upgrading, tries, delay);
    ok := false;
  }

  lemma {:induction false} MulMonotonic(a: nat, b: nat, c: nat)
    requires a <= b
    ensures a * c <= b * c
  {
  }

  // ----------------------------------------------------------------- upgrade

  const POLLING_ATTEMPTS: nat := 30
  const POLLING_DELAY: nat := 10

  datatype Error =
    | UpgradeCheckFailed | MysqldNotStarted | NeverReachable | ScriptFailed
    | UpgradeMysqldFailed(exit: Exit)
    | StateUnreadable | UnsupportedState | GrastateNotWritten | MysqldExited
    | SeedFailed | SeedUsersFailed | PostStartSqlFailed
    | StateNotWritten | SignalFailed | MysqldFailed(exit: Exit)

  /** A failed stop of mysqld is logged as fatal, which panics. */
  datatype Outcome = Success | Failure(error: Error) | Panicked

  /** How the upgrade mysqld, the script and the stop command behave. */
  datatype UpgradeEnv = UpgradeEnv(
    startOk: bool, reachable: nat -> bool,
    scriptOk: bool, scriptOutput: string,
    stopOk: bool, exit: Exit)

  predicate AcceptableOutput(output: string) {
    || Contains(output, "already upgraded")
    || Contains(output, "Unknown command")
    || Contains(output, "WSREP has not yet prepared node")
  }

  predicate ScriptRuns(env: UpgradeEnv) {
    env.startOk && exists i :: 0 <= i < 30 && env.reachable(i)
  }

  /** The phrase stands somewhere in the text. */
  predicate Mentions(text: string, phrase: string) {
    exists i :: 0 <= i <= |text| && phrase <= text[i..]
  }

  /** The script succeeds, or its output has one of the three phrases that are tolerated. */
  predicate ScriptAccepted(env: UpgradeEnv) {
    || env.scriptOk
    || Mentions(env.scriptOutput, "already upgraded")
    || Mentions(env.scriptOutput, "Unknown command")
    || Mentions(env.scriptOutput, "WSREP has not yet prepared node")
  }

  lemma {:induction false} OutputIsMatched(output: string)
    ensures AcceptableOutput(output) <==>
      || Mentions(output, "already upgraded")
      || Mentions(output, "Unknown command")
      || Mentions(output, "WSREP has not yet prepared node")
  {
    ContainsExactly(output, "already upgraded");
    ContainsExactly(output, "Unknown command");
    ContainsExactly(output, "WSREP has not yet prepared node");
  }

  /** Whatever stands around them. */
  lemma {:induction false} PhrasesAreAccepted(before: string, phrase: string, after: string)
    requires phrase in ["already upgraded", "Unknown command", "WSREP has not yet prepared node"]
    ensures AcceptableOutput(before + phrase + after)
  {
    var output := before + phrase + after;
    assert output[|before|..] == phrase + after;
    assert Mentions(output, phrase);
    OutputIsMatched(output);
  }

  predicate UpgradeSucceeds(env: UpgradeEnv) {
    ScriptRuns(env) && env.stopOk && ScriptAccepted(env) && env.exit.Clean?
  }

  method RunScript(env: UpgradeEnv) returns (accepted: bool)
    ensures accepted <==> ScriptAccepted(env)
  {
    OutputIsMatched(env.scriptOutput);
    accepted := env.scriptOk || AcceptableOutput(env.scriptOutput);
  }

  /** What the script and the stop add to the trace. */
  lemma {:induction false} ScriptEvents(polled: seq<Event>, stopped: seq<Event>, exit: Exit)
    requires stopped == polled + [UpgradeScript] + [StopUpgraded]
    requires BeforeNodeStart(polled) && SleepsFor(polled, 10)
    ensures forall trace :: trace in {stopped, stopped + [UpgradeExit(exit)]} ==>
      && UpgradeScript in trace && StopUpgraded in trace && polled <= trace
      && BeforeNodeStart(trace) && SleepsFor(trace, 10)
      && (StopOld in trace <==> StopOld in polled) && (UpgradeStart in trace <==> UpgradeStart in polled)
  {
    assert stopped[|polled|] == UpgradeScript && stopped[|polled| + 1] == StopUpgraded;
    assert stopped[..|polled|] == polled;
  }

  /** From the script on: the stop is issued whatever the script did, and the exit of
      mysqld is looked at before the error of the script. */
  method RunScriptAndStop(env: UpgradeEnv, polled: seq<Event>) returns (r: Outcome, trace: seq<Event>)
    requires Advance(Fresh, polled) == Upgradable && BeforeNodeStart(polled) && SleepsFor(polled, 10)
    ensures r.Success? <==> env.stopOk && ScriptAccepted(env) && env.exit.Clean?
    ensures !env.stopOk ==> r == Panicked
    ensures env.stopOk && env.exit.Crashed? ==> r == Failure(UpgradeMysqldFailed(env.exit))
    ensures env.stopOk && env.exit.Clean? && !ScriptAccepted(env) ==> r == Failure(ScriptFailed)
    ensures UpgradeScript in trace && StopUpgraded in trace
    ensures Unfinished(trace) && BeforeNodeStart(trace) && polled <= trace && SleepsFor(trace, 10)
    ensures StopOld in trace <==> StopOld in polled
    ensures UpgradeStart in trace <==> UpgradeStart in polled
    ensures r.Success? ==> Advance(Fresh, trace) == Upgraded
  {
    var accepted := RunScript(env);
    trace := Log(polled, UpgradeScript);
    trace := Log(trace, StopUpgraded);
    ScriptEvents(polled, trace, env.exit);
    if !env.stopOk {
      return Panicked, trace;
    }
    trace := Log(trace, UpgradeExit(env.exit));
    if env.exit.Crashed? {
      return Failure(UpgradeMysqldFailed(env.exit)), trace;
    }
    r := if accepted then Success else Failure(ScriptFailed);
  }

  lemma {:induction false} PollsAddNothing(trace: seq<Event>, polls: seq<Event>)
    requires OnlyPolls(polls)
    ensures forall e: Event :: !e.Poll? && !e.Sleep? ==> (e in trace + polls <==> e in trace)
    ensures BeforeNodeStart(trace) ==> BeforeNodeStart(trace + polls)
    ensures forall delay :: SleepsFor(trace, delay) && SleepsFor(polls, delay) ==> SleepsFor(trace + polls, delay)
  {
  }

  /** The wait for the launched upgrade mysqld. */
  method WaitForUpgradeMysqld(env: UpgradeEnv, before: seq<Event>) returns (reached: bool, trace: seq<Event>)
    requires before <= [StopOld] && Advance(Fresh, before) == Fresh
    ensures reached <==> exists i :: 0 <= i < 30 && env.reachable(i)
    ensures Advance(Fresh, trace) == if reached then Upgradable else Upgrading
    ensures before <= trace && BeforeNodeStart(trace) && SleepsFor(trace, 10)
    ensures UpgradeStart in trace && UpgradeScript !in trace && (StopOld in trace <==> StopOld in before)
  {
    trace := Log(before, UpgradeStart);
    var polls;
    reached, polls := WaitUntilMySQLReachable(POLLING_ATTEMPTS, POLLING_DELAY, env.reachable);
    AdvanceAppend(Fresh, trace, polls);
    PollsAddNothing(trace, polls);
    trace := trace + polls;
  }

  /** `before` holds at most the stop of an old mysqld. */
  method Upgrade(env: UpgradeEnv, before: seq<Event>) returns (r: Outcome, trace: seq<Event>)
    requires before <= [StopOld] && Advance(Fresh, before) == Fresh
    ensures before <= trace && SleepsFor(trace, 10)
    ensures StopOld in trace <==> StopOld in before
    ensures UpgradeStart in trace <==> env.startOk
    ensures r.Success? <==> UpgradeSucceeds(env)
    ensures ScriptRuns(env) && env.stopOk && env.exit.Crashed? ==> r == Failure(UpgradeMysqldFailed(env.exit))
    ensures ScriptRuns(env) && env.stopOk && env.exit.Clean? && !ScriptAccepted(env) ==> r == Failure(ScriptFailed)
    ensures !env.startOk ==> r == Failure(MysqldNotStarted)
    ensures env.startOk && !ScriptRuns(env) ==> r == Failure(NeverReachable)
    ensures ScriptRuns(env) && !env.stopOk ==> r == Panicked
    ensures UpgradeScript in trace <==> ScriptRuns(env)
    ensures ScriptRuns(env) ==> StopUpgraded in trace
    ensures Unfinished(trace) && BeforeNodeStart(trace)
    ensures r.Success? ==> Advance(Fresh, trace) == Upgraded
  {
    trace := before;
    if !env.startOk {
      return Failure(MysqldNotStarted), trace;
    }
    var reached;
    reached, trace := WaitForUpgradeMysqld(env, before);
    if reached {
      r, trace := RunScriptAndStop(env, trace);
    } else {
      r := Failure(NeverReachable);
    }
  }

  // ------------------------------------------------------------ version files

  datatype Check = Needed(upgrade: bool) | CheckFailed

  /** Whether an upgrade is needed, from the version files. */
  function NeedsUpgrade(lastUpgraded: FileView, package: FileView): (r: Check)
    ensures r.CheckFailed? <==>
      !lastUpgraded.Missing? && (lastUpgraded.Unreadable? || !package.Contents?)
    ensures r == Needed(false) ==> lastUpgraded.Contents? && package.Contents?
  {
    if lastUpgraded.Missing? then Needed(true)
    else if package.Missing? then CheckFailed
    else if lastUpgraded.Unreadable? || package.Unreadable? then CheckFailed
    else Needed(Trim(lastUpgraded.text) != Trim(package.text))
  }

  /** White space around either version changes nothing, and with both versions readable
      there is nothing to upgrade exactly when their stripped texts agree. */
  lemma {:induction false} VersionPaddingIsIgnored(
    last: string, package: string, before: string, after: string, before': string, after': string)
    requires AllSpace(before) && AllSpace(after) && AllSpace(before') && AllSpace(after')
    ensures NeedsUpgrade(Contents(before + last + after), Contents(before' + package + after'))
         == NeedsUpgrade(Contents(last), Contents(package))
    ensures NeedsUpgrade(Contents(last), Contents(package)) == Needed(false) <==>
      exists t, i: nat, j: nat :: StrippedAt(last, t, i) && StrippedAt(package, t, j)
  {
    TrimIgnoresPadding(before, last, after);
    TrimIgnoresPadding(before', package, after');
    var i := TrimStrips(last);
    var j := TrimStrips(package);
    if t, i': nat, j': nat :| StrippedAt(last, t, i') && StrippedAt(package, t, j') {
      TrimIsTheStrippedMiddle(last, t, i');
      TrimIsTheStrippedMiddle(package, t, j');
    }
  }
}
