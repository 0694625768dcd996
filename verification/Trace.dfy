/** The observable events of one start and the order they may come in. */
module Trace {
  import opened NodeState

  /** What waiting for a process returns: nil or an error. */
  datatype Exit = Clean | Crashed(reason: string)

  datatype Event =
    | StopOld                                  // a mysqld from before is shut down
    | UpgradeStart                             // mysqld launched for the upgrade
    | Poll(reachable: bool)
    | Sleep(seconds: nat)
    | UpgradeScript
    | StopUpgraded
    | UpgradeExit(exit: Exit)                  // exit of the upgrade mysqld received
    | NodeStart(mode: Mode)                    // mysqld launched to bootstrap or join
    | StartupExit                              // exit received while waiting for mysqld
    | SeedDatabases(ok: bool)
    | SeedUsers(ok: bool)
    | PostStartSql(ok: bool)
    | WriteState(text: string, ok: bool)
    | StatusServer
    | Sigterm(ok: bool)
    | NodeExit(exit: Exit)                     // exit received while supervising

  datatype Phase =
    | Fresh | Upgrading | Upgradable | Scripted | Stopped | Upgraded
    | Started | Reached | DatabasesSeeded | UsersSeeded | SqlRun
    | Recorded | Serving | Signalled
    | Finished(exit: Exit) | Failed | Rejected

  /** What may happen next. */
  function Next(p: Phase, e: Event): Phase {
    match e
    case StopOld => if p.Fresh? then Fresh else Rejected
    case UpgradeStart => if p.Fresh? then Upgrading else Rejected
    case Poll(reachable) =>
      if p.Upgrading? then (if reachable then Upgradable else Upgrading)
      else if p.Started? then (if reachable then Reached else Started)
      else Rejected
    case Sleep(_) => if p.Upgrading? || p.Started? then p else Rejected
    case UpgradeScript => if p.Upgradable? then Scripted else Rejected
    case StopUpgraded => if p.Scripted? then Stopped else Rejected
    case UpgradeExit(exit) => if p.Stopped? then (if exit.Clean? then Upgraded else Failed) else Rejected
    case NodeStart(_) => if p.Fresh? || p.Upgraded? then Started else Rejected
    case StartupExit => if p.Started? then Failed else Rejected
    case SeedDatabases(ok) => if p.Reached? then (if ok then DatabasesSeeded else Failed) else Rejected
    case SeedUsers(ok) => if p.DatabasesSeeded? then (if ok then UsersSeeded else Failed) else Rejected
    case PostStartSql(ok) => if p.UsersSeeded? then (if ok then SqlRun else Failed) else Rejected
    case WriteState(_, ok) => if p.SqlRun? then (if ok then Recorded else Failed) else Rejected
    case StatusServer => if p.Recorded? then Serving else Rejected
    case Sigterm(ok) => if p.Serving? then (if ok then Signalled else Failed) else Rejected
    case NodeExit(exit) => if p.Serving? || p.Signalled? then Finished(exit) else Rejected
  }

  function Advance(p: Phase, trace: seq<Event>): Phase {
    if trace == [] then p else Next(Advance(p, trace[..|trace| - 1]), trace[|trace| - 1])
  }

  predicate Accepted(trace: seq<Event>) {
    Advance(Fresh, trace) != Rejected
  }

  /** Accepted, and no exit of the supervised mysqld has been received. */
  predicate Unfinished(trace: seq<Event>) {
    Accepted(trace) && !Advance(Fresh, trace).Finished?
  }

  lemma {:induction false} AdvanceAppend(p: Phase, a: seq<Event>, b: seq<Event>)
    ensures Advance(p, a + b) == Advance(Advance(p, a), b)
  {
    if b == [] {
      assert a + b == a;
    } else {
      var before := b[..|b| - 1];
      AdvanceAppend(p, a, before);
      assert (a + b)[..|a + b| - 1] == a + before;
    }
  }

  lemma {:induction false} AdvanceOne(p: Phase, a: seq<Event>, e: Event)
    ensures Advance(p, a + [e]) == Next(Advance(p, a), e)
  {
  }

  /** mysqld has not been launched to become part of the cluster. */
  predicate BeforeNodeStart(trace: seq<Event>) {
    forall i :: 0 <= i < |trace| ==> !trace[i].NodeStart? && !trace[i].WriteState?
  }

  /** Records one more event. */
  function Log(trace: seq<Event>, e: Event): (longer: seq<Event>)
    ensures longer == trace + [e]
    ensures Advance(Fresh, longer) == Next(Advance(Fresh, trace), e)
  {
    AdvanceOne(Fresh, trace, e);
    trace + [e]
  }

  // --------------------------------- what every accepted trace looks like

  function Rank(p: Phase): nat {
    match p
    case Fresh => 0 case Upgrading => 1 case Upgradable => 2 case Scripted => 3 case Stopped => 4
    case Upgraded => 5 case Started => 6 case Reached => 7 case DatabasesSeeded => 8 case UsersSeeded => 9
    case SqlRun => 10 case Recorded => 11 case Serving => 12 case Signalled => 13
    case Finished(_) => 14 case Failed => 14 case Rejected => 15
  }

  /** The phase before event `k`, in a trace that is accepted as a whole. */
  function PhaseAt(trace: seq<Event>, k: nat): Phase
    requires k <= |trace|
  {
    Advance(Fresh, trace[..k])
  }

  lemma {:induction false} PhaseStep(trace: seq<Event>, k: nat)
    requires k < |trace|
    ensures PhaseAt(trace, k + 1) == Next(PhaseAt(trace, k), trace[k])
  {
    assert trace[..k + 1][..k] == trace[..k];
  }

  lemma {:induction false} PhasesGrow(trace: seq<Event>, i: nat, k: nat)
    requires i <= k <= |trace|
    ensures Rank(PhaseAt(trace, i)) <= Rank(PhaseAt(trace, k))
    decreases k - i
  {
    if i < k {
      PhaseStep(trace, i);
      PhasesGrow(trace, i + 1, k);
    }
  }

  lemma {:induction false} NotRejectedBefore(trace: seq<Event>, k: nat)
    requires Accepted(trace) && k <= |trace|
    ensures PhaseAt(trace, k) != Rejected
  {
    assert trace[..|trace|] == trace;
    PhasesGrow(trace, k, |trace|);
  }

  predicate SameKind(e: Event, e': Event) {
    || (e.UpgradeStart? && e'.UpgradeStart?)
    || (e.UpgradeScript? && e'.UpgradeScript?)
    || (e.NodeStart? && e'.NodeStart?)
    || (e.WriteState? && e'.WriteState?)
    || (e.StatusServer? && e'.StatusServer?)
    || (e.Sigterm? && e'.Sigterm?)
    || (e.NodeExit? && e'.NodeExit?)
  }

  /** The rank an event of these kinds lifts the phase to. */
  function Threshold(e: Event): nat {
    match e
    case UpgradeStart => 1 case UpgradeScript => 3 case NodeStart(_) => 6
    case WriteState(_, _) => 11 case StatusServer => 12 case Sigterm(_) => 13 case NodeExit(_) => 14
    case _ => 0
  }

  lemma {:induction false} ThresholdCrossed(trace: seq<Event>, k: nat)
    requires Accepted(trace) && k < |trace| && Threshold(trace[k]) > 0
    ensures Rank(PhaseAt(trace, k)) < Threshold(trace[k]) <= Rank(PhaseAt(trace, k + 1))
  {
    PhaseStep(trace, k);
    NotRejectedBefore(trace, k + 1);
  }

  /** Launches, the state file write, the status server and SIGTERM happen at most once. */
  lemma {:induction false} AtMostOnce(trace: seq<Event>, i: nat, k: nat)
    requires Accepted(trace) && i < |trace| && k < |trace|
    requires SameKind(trace[i], trace[k])
    ensures i == k
  {
    ThresholdCrossed(trace, i);
    ThresholdCrossed(trace, k);
    if i < k { PhasesGrow(trace, i + 1, k); }
    if k < i { PhasesGrow(trace, k + 1, i); }
  }

  /** A node start comes after the upgrade mysqld has been seen to exit with nil. */
  lemma {:induction false} NodeStartAfterUpgradeExit(trace: seq<Event>, i: nat, k: nat) returns (m: nat)
    requires Accepted(trace) && i < |trace| && k < |trace|
    requires trace[i].UpgradeStart? && trace[k].NodeStart?
    ensures i < m < k && trace[m] == UpgradeExit(Clean)
  {
    PhaseStep(trace, i);
    PhaseStep(trace, k);
    NotRejectedBefore(trace, i + 1);
    NotRejectedBefore(trace, k + 1);
    if k <= i { PhasesGrow(trace, k + 1, i + 1); }
    PhasesGrow(trace, i + 1, k);
    m := FindUpgradeExit(trace, i + 1, k);
  }

  lemma {:induction false} FindUpgradeExit(trace: seq<Event>, lo: nat, k: nat) returns (m: nat)
    requires Accepted(trace) && lo <= k <= |trace|
    requires 1 <= Rank(PhaseAt(trace, lo)) < Rank(Upgraded) && PhaseAt(trace, k) == Upgraded
    ensures lo <= m < k && trace[m] == UpgradeExit(Clean)
    decreases k - lo
  {
    PhaseStep(trace, lo);
    NotRejectedBefore(trace, lo + 1);
    PhasesGrow(trace, lo + 1, k);
    if trace[lo] == UpgradeExit(Clean) {
      m := lo;
    } else {
      m := FindUpgradeExit(trace, lo + 1, k);
    }
  }

  /** An old mysqld is stopped before anything else, and an upgrade is launched right then. */
  lemma {:induction false} StopsAndUpgradesFirst(trace: seq<Event>, i: nat)
    requires Accepted(trace) && i < |trace| && (trace[i].StopOld? || trace[i].UpgradeStart?)
    ensures forall j :: 0 <= j < i ==> trace[j].StopOld?
  {
    PhaseStep(trace, i);
    NotRejectedBefore(trace, i + 1);
    forall j: nat | j < i ensures trace[j].StopOld? {
      PhaseStep(trace, j);
      NotRejectedBefore(trace, j + 1);
      PhasesGrow(trace, j + 1, i);
    }
  }

  /** The upgrade script follows a successful poll, the stop follows the script, and the exit
      is received after the stop. */
  lemma {:induction false} UpgradeInOrder(trace: seq<Event>, k: nat)
    requires Accepted(trace) && k < |trace|
    ensures trace[k].UpgradeScript? ==> k > 0 && trace[k - 1] == Poll(true)
    ensures trace[k].StopUpgraded? ==> k > 0 && trace[k - 1] == UpgradeScript
    ensures trace[k].UpgradeExit? ==> k > 0 && trace[k - 1] == StopUpgraded
  {
    PhaseStep(trace, k);
    NotRejectedBefore(trace, k + 1);
    if k > 0 { PhaseStep(trace, k - 1); }
  }

  lemma {:induction false} StartBehindPhase(trace: seq<Event>, k: nat) returns (start: nat)
    requires Accepted(trace) && k <= |trace| && PhaseAt(trace, k) == Started
    ensures start < k && trace[start].NodeStart?
    ensures forall j :: start < j < k ==> trace[j] == Poll(false) || trace[j].Sleep?
  {
    PhaseStep(trace, k - 1);
    if trace[k - 1].NodeStart? {
      start := k - 1;
    } else {
      start := StartBehindPhase(trace, k - 1);
    }
  }

  /** The state file is written only when mysqld was launched, then found reachable, and
      then databases, users and post-start SQL had been done, all successfully. */
  lemma {:induction false} WriteComesLast(trace: seq<Event>, k: nat) returns (start: nat)
    requires Accepted(trace) && k < |trace| && trace[k].WriteState?
    ensures start + 4 < k && trace[start].NodeStart?
    ensures forall j :: start < j < k - 4 ==> trace[j] == Poll(false) || trace[j].Sleep?
    ensures trace[k - 4..k] == [Poll(true), SeedDatabases(true), SeedUsers(true), PostStartSql(true)]
  {
    PhaseStep(trace, k);
    NotRejectedBefore(trace, k + 1);
    assert PhaseAt(trace, k) == SqlRun;
    PhaseStep(trace, k - 1);
    assert PhaseAt(trace, k - 1) == UsersSeeded;
    PhaseStep(trace, k - 2);
    assert PhaseAt(trace, k - 2) == DatabasesSeeded;
    PhaseStep(trace, k - 3);
    assert PhaseAt(trace, k - 3) == Reached;
    PhaseStep(trace, k - 4);
    assert PhaseAt(trace, k - 4) == Started;
    start := StartBehindPhase(trace, k - 4);
  }

  /** The status server follows a successful write; SIGTERM follows the status server. */
  lemma {:induction false} ServesOnlyWhatIsRecorded(trace: seq<Event>, k: nat)
    requires Accepted(trace) && k < |trace|
    ensures trace[k].StatusServer? ==> k > 0 && trace[k - 1].WriteState? && trace[k - 1].ok
    ensures trace[k].Sigterm? ==> k > 0 && trace[k - 1].StatusServer?
    ensures trace[k].NodeExit? ==> k > 0 && (trace[k - 1].StatusServer? || trace[k - 1] == Sigterm(true))
  {
    PhaseStep(trace, k);
    NotRejectedBefore(trace, k + 1);
    if k > 0 { PhaseStep(trace, k - 1); }
  }

  /** A trace that ends in a nil exit has all of it behind it. */
  lemma {:induction false} CleanFinish(trace: seq<Event>) returns (write: nat)
    requires Advance(Fresh, trace) == Finished(Clean)
    ensures write + 2 < |trace| && trace[write].WriteState? && trace[write].ok
    ensures trace[write + 1] == StatusServer
    ensures trace[write + 2..] == [NodeExit(Clean)] || trace[write + 2..] == [Sigterm(true), NodeExit(Clean)]
  {
    var n := |trace|;
    assert trace[..n] == trace;
    PhaseStep(trace, n - 1);
    assert PhaseAt(trace, n - 1) == Serving || PhaseAt(trace, n - 1) == Signalled;
    assert trace[n - 1] == NodeExit(Clean);
    var serving := if PhaseAt(trace, n - 1) == Serving then n - 1 else n - 2;
    if serving == n - 2 {
      PhaseStep(trace, serving);
      assert PhaseAt(trace, serving) == Serving && trace[serving] == Sigterm(true);
    }
    ServingBehind(trace, serving);
    write := serving - 2;
  }

  lemma {:induction false} ServingBehind(trace: seq<Event>, k: nat)
    requires k <= |trace| && PhaseAt(trace, k) == Serving
    ensures k >= 2 && trace[k - 1] == StatusServer && trace[k - 2].WriteState? && trace[k - 2].ok
  {
    PhaseStep(trace, k - 1);
    assert PhaseAt(trace, k - 1) == Recorded;
    PhaseStep(trace, k - 2);
  }
}
