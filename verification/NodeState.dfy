/** How a start of the node is decided from its configuration and its state file. */
module NodeState {
  import opened Options
  import opened Text

  const CLUSTERED := "CLUSTERED"
  const NEEDS_BOOTSTRAP := "NEEDS_BOOTSTRAP"
  const SINGLE_NODE := "SINGLE_NODE"

  /** The part of the start manager's configuration that steers the decision; an
      address is the number of the node that lives there. */
  datatype Config = Config(clusterIps: seq<nat>, bootstrapNode: bool)

  datatype Decoded = State(name: string) | ReadError

  datatype Mode = Bootstrap | Join

  /** How mysqld is launched and what is recorded once the start has succeeded. */
  datatype Plan = Plan(mode: Mode, record: string)

  function CurrentNodeState(cfg: Config, file: FileView): Decoded {
    if |cfg.clusterIps| == 1 then
      State(SINGLE_NODE)
    else
      match file
      case Missing => State(if cfg.bootstrapNode then NEEDS_BOOTSTRAP else CLUSTERED)
      case Unreadable => ReadError
      case Contents(text) =>
        var state := Trim(text);
        if state == SINGLE_NODE && |cfg.clusterIps| > 1 then State(NEEDS_BOOTSTRAP) else State(state)
  }

  /** The state file as a start sees it: any error of looking for the file is taken for a
      missing file. */
  function Seen(file: FileView, statFails: bool): FileView {
    if statFails then Missing else file
  }

  /** The switch of `StartNodeFromState`; `None` is the unsupported-state error. */
  function PlanFor(state: string, healthyCluster: bool): Option<Plan> {
    if state == SINGLE_NODE then Some(Plan(Bootstrap, SINGLE_NODE))
    else if state == NEEDS_BOOTSTRAP then Some(Plan(if healthyCluster then Join else Bootstrap, CLUSTERED))
    else if state == CLUSTERED then Some(Plan(Join, CLUSTERED))
    else None
  }

  /** The plan of a whole start, `None` when the start fails before mysqld is launched. */
  function PlanOf(cfg: Config, file: FileView, healthyCluster: bool): Option<Plan> {
    match CurrentNodeState(cfg, file)
    case State(name) => PlanFor(name, healthyCluster)
    case ReadError => None
  }

  /** The next start of the node would be allowed to bootstrap. */
  predicate Eligible(cfg: Config, file: FileView) {
    CurrentNodeState(cfg, file) == State(NEEDS_BOOTSTRAP)
  }

  /** A start is refused before mysqld is launched exactly when a multi-node configuration
      meets a state file that cannot be read or whose stripped text is no known state. */
  lemma {:induction false} StartRefusedExactlyWhen(cfg: Config, file: FileView, healthyCluster: bool)
    ensures PlanOf(cfg, file, healthyCluster).None? <==>
      && |cfg.clusterIps| != 1
      && (file.Unreadable? ||
          (file.Contents? && forall i: nat, state ::
             state in ["SINGLE_NODE", "NEEDS_BOOTSTRAP", "CLUSTERED"] ==> !StrippedAt(file.text, state, i)))
  {
    if file.Contents? {
      var i := TrimStrips(file.text);
      forall i: nat, state | StrippedAt(file.text, state, i) ensures state == Trim(file.text) {
        TrimIsTheStrippedMiddle(file.text, state, i);
      }
    }
  }

  /** A recorded state is decoded as itself, however it has been padded. */
  lemma {:induction false} PaddedStateDecodes(cfg: Config, before: string, state: string, after: string)
    requires |cfg.clusterIps| > 1
    requires state in ["CLUSTERED", "NEEDS_BOOTSTRAP", "SINGLE_NODE"]
    requires AllSpace(before) && AllSpace(after)
    ensures CurrentNodeState(cfg, Contents(before + state + after)) ==
            State(if state == "SINGLE_NODE" then "NEEDS_BOOTSTRAP" else state)
  {
    TrimIgnoresPadding(before, state, after);
    TrimKeepsStripped(state);
  }

  /** As in a state file that somebody has edited. */
  lemma {:induction false} EditedStateDecodes(cfg: Config)
    requires |cfg.clusterIps| > 1
    ensures CurrentNodeState(cfg, Contents("\n\n     CLUSTERED \n")) == State("CLUSTERED")
  {
    PaddedStateDecodes(cfg, "\n\n     ", "CLUSTERED", " \n");
    assert "\n\n     " + "CLUSTERED" + " \n" == "\n\n     CLUSTERED \n";
  }

  /** The whole decision, for a configuration with several nodes: who finds no file, or what
      text it holds, and how `mysqld` is launched then and what is recorded. */
  lemma {:induction false} DecisionTable(cfg: Config, before: string, state: string, after: string, healthy: bool)
    requires |cfg.clusterIps| > 1 && AllSpace(before) && AllSpace(after)
    ensures PlanOf(cfg, Missing, healthy) ==
      Some(Plan(if cfg.bootstrapNode && !healthy then Bootstrap else Join, "CLUSTERED"))
    ensures state == "CLUSTERED" ==>
      PlanOf(cfg, Contents(before + state + after), healthy) == Some(Plan(Join, "CLUSTERED"))
    ensures state in ["SINGLE_NODE", "NEEDS_BOOTSTRAP"] ==>
      PlanOf(cfg, Contents(before + state + after), healthy) ==
      Some(Plan(if healthy then Join else Bootstrap, "CLUSTERED"))
  {
    if state in ["CLUSTERED", "NEEDS_BOOTSTRAP", "SINGLE_NODE"] { PaddedStateDecodes(cfg, before, state, after); }
  }

  /** A single node always bootstraps, whatever its file says. */
  lemma {:induction false} SingleNodeBootstraps(cfg: Config, file: FileView, healthy: bool)
    requires |cfg.clusterIps| == 1
    ensures PlanOf(cfg, file, healthy) == Some(Plan(Bootstrap, "SINGLE_NODE"))
  {
  }

  /** A write of `CLUSTERED` that stops after `kept` characters is never taken for a
      state that may bootstrap, and no start follows from it unless it is complete. */
  lemma {:induction false} TornRecordDecodes(cfg: Config, kept: nat, healthyCluster: bool)
    requires |cfg.clusterIps| > 1
    requires kept <= |CLUSTERED|
    ensures !Eligible(cfg, Contents(CLUSTERED[..kept]))
    ensures PlanOf(cfg, Contents(CLUSTERED[..kept]), healthyCluster) ==
            if kept == |CLUSTERED| then Some(Plan(Join, CLUSTERED)) else None
  {
  }
}

/** What the state file remembers over any history of starts of one node, when nobody
    else edits it and writes are not torn. */
module History {
  import opened NodeState
  import opened Text

  /** One start: its configuration, whether looking for the state file fails, the answer of
      the health check if it is asked, and whether the start got as far as recording. */
  datatype Start = Start(cfg: Config, statFails: bool, healthyCluster: bool, recorded: bool)

  function After(file: FileView, start: Start): FileView {
    match PlanOf(start.cfg, Seen(file, start.statFails), start.healthyCluster)
    case Some(plan) => if start.recorded then Contents(plan.record) else file
    case None => file
  }

  function FileAfter(history: seq<Start>): FileView {
    if history == [] then Missing else After(FileAfter(history[..|history| - 1]), history[|history| - 1])
  }

  predicate Bootstraps(file: FileView, start: Start) {
    var plan := PlanOf(start.cfg, Seen(file, start.statFails), start.healthyCluster);
    plan.Some? && plan.value.mode == Bootstrap
  }

  predicate ValidHistory(history: seq<Start>) {
    forall i :: 0 <= i < |history| ==> |history[i].cfg.clusterIps| >= 1
  }

  predicate LastRecorded(history: seq<Start>, i: nat) {
    && i < |history|
    && history[i].recorded
    && forall j :: i < j < |history| ==> !history[j].recorded
  }

  predicate NothingRecorded(history: seq<Start>) {
    forall j :: 0 <= j < |history| ==> !history[j].recorded
  }

  function RecordOf(start: Start): string {
    if |start.cfg.clusterIps| == 1 then "SINGLE_NODE" else "CLUSTERED"
  }

  lemma {:induction false} FindLastRecorded(history: seq<Start>) returns (i: nat)
    requires !NothingRecorded(history)
    ensures LastRecorded(history, i)
  {
    var n := |history|;
    while !history[n - 1].recorded
      invariant 0 < n <= |history|
      invariant exists j :: 0 <= j < n && history[j].recorded
      invariant forall j :: n <= j < |history| ==> !history[j].recorded
      decreases n
    {
      n := n - 1;
    }
    i := n - 1;
  }

  /** From any file a history leaves behind, a start has a plan: it records by its cluster
      size, and it bootstraps alone, or unhealthy from a missing, unfound or single-node record. */
  lemma {:induction false} PlanFromRecord(file: FileView, start: Start)
    requires file in {Missing, Contents(SINGLE_NODE), Contents(CLUSTERED)}
    requires |start.cfg.clusterIps| >= 1
    ensures After(file, start) == if start.recorded then Contents(RecordOf(start)) else file
    ensures Bootstraps(file, start) <==>
      || |start.cfg.clusterIps| == 1
      || (&& !start.healthyCluster
          && if file.Missing? || start.statFails then start.cfg.bootstrapNode else file.text == SINGLE_NODE)
  {
    TrimKeepsStripped(SINGLE_NODE);
    TrimKeepsStripped(CLUSTERED);
  }

  /** The file is missing until a start is recorded; afterwards it holds the state
      determined by the cluster size of the last recorded start. */
  lemma {:induction false} FileRemembersLastRecorded(history: seq<Start>)
    requires ValidHistory(history)
    ensures NothingRecorded(history) ==> FileAfter(history) == Missing
    ensures forall i: nat :: LastRecorded(history, i) ==> FileAfter(history) == Contents(RecordOf(history[i]))
  {
    if history != [] {
      var before, start := history[..|history| - 1], history[|history| - 1];
      FileRemembersLastRecorded(before);
      if !NothingRecorded(before) {
        var i := FindLastRecorded(before);
      }
      PlanFromRecord(FileAfter(before), start);
      forall i: nat | LastRecorded(history, i)
        ensures FileAfter(history) == Contents(RecordOf(history[i]))
      {
        if i < |before| { assert LastRecorded(before, i); }
      }
    }
  }

  /** Exactly when the next start bootstraps, in terms of the history alone. */
  lemma {:induction false} BootstrapsExactlyWhen(history: seq<Start>, start: Start)
    requires ValidHistory(history) && |start.cfg.clusterIps| >= 1
    ensures Bootstraps(FileAfter(history), start) <==>
      || |start.cfg.clusterIps| == 1
      || (&& !start.healthyCluster
          && if NothingRecorded(history) || start.statFails then start.cfg.bootstrapNode
             else exists i: nat :: LastRecorded(history, i) && |history[i].cfg.clusterIps| == 1)
  {
    FileRemembersLastRecorded(history);
    if !NothingRecorded(history) {
      var i := FindLastRecorded(history);
      assert FileAfter(history) == Contents(RecordOf(history[i]));
    }
    PlanFromRecord(FileAfter(history), start);
  }

  /** A node that has recorded membership of a cluster does not bootstrap again unless a
      later start ran with a single-node configuration, or the bootstrap node does not find
      its state file. */
  lemma {:induction false} NoRebootstrap(history: seq<Start>, i: nat, start: Start) returns (k: nat)
    requires ValidHistory(history) && i < |history|
    requires history[i].recorded && |history[i].cfg.clusterIps| > 1
    requires |start.cfg.clusterIps| > 1 && Bootstraps(FileAfter(history), start)
    ensures start.statFails ==> start.cfg.bootstrapNode
    ensures !start.statFails ==> i < k < |history| && history[k].recorded && |history[k].cfg.clusterIps| == 1
  {
    BootstrapsExactlyWhen(history, start);
    assert !NothingRecorded(history);
    k := i;
    if !start.statFails {
      k := FindLastRecorded(history);
      var j: nat :| LastRecorded(history, j) && |history[j].cfg.clusterIps| == 1;
      assert j == k;
    }
  }
}
