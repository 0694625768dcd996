/** What every run of the start protocol keeps. */
module ClusterSafety {
  import opened Text
  import opened NodeState
  import opened HealthCheck
  import opened ClusterProtocol
  import History

  // ------------------------------------------ one node, in any environment

  /** In a multi-node configuration only CLUSTERED is ever recorded, and a node on its
      way to a bootstrap is one whose state file still allows it. */
  predicate NodeInvariant(n: Node) {
    && |n.cfg.clusterIps| > 1
    && (n.pc.Probing? ==> CanBootstrap(n) && n.pc.next <= |n.cfg.clusterIps|)
    && (n.pc.Launching? ==> n.pc.plan.record == CLUSTERED
                            && (n.pc.plan.mode == Bootstrap ==> CanBootstrap(n)))
    && (n.pc.Waiting? || n.pc.Writing? ==> n.pc.record == CLUSTERED)
    && (n.mysqld == Starting(Bootstrap) ==> CanBootstrap(n))
    && (n.pc.Writing? || n.pc.Supervising? ==> !n.mysqld.Starting?)
  }

  lemma {:induction false} LocalKeepsNodeInvariant(n: Node, step: Step)
    requires NodeInvariant(n)
    ensures NodeInvariant(Local(n, step)) && Local(n, step).cfg == n.cfg
    ensures CanBootstrap(Local(n, step)) ==> CanBootstrap(n)
    ensures step.Record? && n.pc.Writing? && !n.flaky ==> !CanBootstrap(Local(n, step))
  {
    match step
    case Record =>
      TornRecordDecodes(n.cfg, |CLUSTERED|, false);
      assert CLUSTERED[..|CLUSTERED|] == CLUSTERED;
    case Tear(kept) =>
      if n.pc.Writing? && kept <= |n.pc.record| { TornRecordDecodes(n.cfg, kept, false); }
    case _ =>
  }

  lemma {:induction false} LocalKeepsRefusing(n: Node, step: Step)
    requires Refuses(n)
    ensures Refuses(Local(n, step)) && Local(n, step).file == n.file
  {
  }

  predicate NodesInvariant(c: Cluster) {
    forall i :: 0 <= i < |c.nodes| ==> NodeInvariant(c.nodes[i])
  }

  lemma {:induction false} ActKeepsNodes(c: Cluster, a: Action)
    requires NodesInvariant(c)
    ensures NodesInvariant(Act(c, a))
    ensures |Act(c, a).nodes| == |c.nodes|
    ensures forall i :: 0 <= i < |c.nodes| ==> Act(c, a).nodes[i].cfg == c.nodes[i].cfg
    ensures forall i: nat :: MayBootstrap(Act(c, a), i) ==> MayBootstrap(c, i)
    ensures forall i :: 0 <= i < |c.nodes| && Refuses(c.nodes[i]) ==> Refuses(Act(c, a).nodes[i])
    ensures (forall i: nat :: !MayBootstrap(c, i)) ==> Act(c, a).nextComponent == c.nextComponent
  {
    if a.node < |c.nodes| {
      var n := c.nodes[a.node];
      LocalKeepsNodeInvariant(n, a.step);
      LocalKeepsNodeInvariant(n, Sync(c.nextComponent));
      if Refuses(n) { LocalKeepsRefusing(n, a.step); }
      if n.mysqld == Starting(Bootstrap) { assert MayBootstrap(c, a.node); }
    }
  }

  lemma {:induction false} RunKeepsNodes(c: Cluster, actions: seq<Action>)
    requires NodesInvariant(c)
    ensures NodesInvariant(Run(c, actions))
    ensures |Run(c, actions).nodes| == |c.nodes|
    ensures forall i :: 0 <= i < |c.nodes| ==> Run(c, actions).nodes[i].cfg == c.nodes[i].cfg
    ensures forall i: nat :: MayBootstrap(Run(c, actions), i) ==> MayBootstrap(c, i)
    ensures (forall i: nat :: !MayBootstrap(c, i)) ==> Run(c, actions).nextComponent == c.nextComponent
  {
    if actions != [] {
      var before := actions[..|actions| - 1];
      RunKeepsNodes(c, before);
      ActKeepsNodes(Run(c, before), actions[|actions| - 1]);
    }
  }

  lemma {:induction false} RunAppend(c: Cluster, first: seq<Action>, later: seq<Action>)
    ensures Run(c, first + later) == Run(Run(c, first), later)
  {
    if later == [] {
      assert first + later == first;
    } else {
      var before := later[..|later| - 1];
      RunAppend(c, first, before);
      assert (first + later)[..|first + later| - 1] == first + before;
    }
  }

  /** Over any run, in any environment, the set of nodes that may bootstrap never gains a
      member, whatever fails and wherever writes of the state file stop. */
  lemma {:induction false} EligibilityOnlyShrinks(c: Cluster, first: seq<Action>, later: seq<Action>, i: nat)
    requires Initial(c) && MultiNode(c)
    requires MayBootstrap(Run(c, first + later), i)
    ensures MayBootstrap(Run(c, first), i)
  {
    RunKeepsNodes(c, first);
    RunAppend(c, first, later);
    RunKeepsNodes(Run(c, first), later);
  }

  /** Once no node may bootstrap any more, no component is ever created again. */
  lemma {:induction false} NoComponentAfterLastEligible(c: Cluster, first: seq<Action>, later: seq<Action>)
    requires Initial(c) && MultiNode(c)
    requires forall i: nat :: !MayBootstrap(Run(c, first), i)
    ensures Run(c, first + later).nextComponent == Run(c, first).nextComponent
  {
    RunKeepsNodes(c, first);
    RunAppend(c, first, later);
    RunKeepsNodes(Run(c, first), later);
  }

  /** A refusing node never launches mysqld again, over any run: its start fails each time, and
      nothing in the protocol rewrites the file. */
  lemma {:induction false} RefusesForever(c: Cluster, actions: seq<Action>, i: nat)
    requires i < |c.nodes| && Refuses(c.nodes[i])
    ensures |Run(c, actions).nodes| == |c.nodes|
    ensures Refuses(Run(c, actions).nodes[i]) && Run(c, actions).nodes[i].file == c.nodes[i].file
  {
    if actions != [] {
      var before, last := actions[..|actions| - 1], actions[|actions| - 1];
      RefusesForever(c, before, i);
      LocalKeepsRefusing(Run(c, before).nodes[i], last.step);
    }
  }

  /** A write that stops early leaves as much of the word as was kept, and once mysqld is
      down the node cannot start any more. */
  lemma {:induction false} TornWriteLeavesPrefix(n: Node, kept: nat)
    requires NodeInvariant(n) && n.pc.Writing? && !n.flaky && kept < 9
    ensures var torn := Local(Local(n, Tear(kept)), Exit);
      torn.file == Contents("CLUSTERED"[..kept]) && Refuses(torn)
  {
    TornRecordDecodes(n.cfg, kept, false);
  }

  /** So in any run that tears the write of a node whose mysqld goes down after it, that node
      is down with the torn file from then on. */
  lemma {:induction false} TornWriteWedgesNode(
    c: Cluster, before: seq<Action>, i: nat, kept: nat, later: seq<Action>)
    requires Initial(c) && MultiNode(c) && i < |c.nodes| && kept < 9
    requires |Run(c, before).nodes| == |c.nodes| && Run(c, before).nodes[i].pc.Writing?
    requires !Run(c, before).nodes[i].flaky
    ensures var d := Run(c, before + [Action(i, Tear(kept)), Action(i, Exit)] + later);
      |d.nodes| == |c.nodes| && d.nodes[i].mysqld.Down? && d.nodes[i].file == Contents("CLUSTERED"[..kept])
  {
    var tear := [Action(i, Tear(kept)), Action(i, Exit)];
    var d := Run(c, before);
    RunKeepsNodes(c, before);
    TornWriteLeavesPrefix(d.nodes[i], kept);
    assert tear[..1] == [Action(i, Tear(kept))] && tear[..1][..0] == [];
    assert Run(d, tear[..1]) == Act(d, tear[0]);
    assert Run(d, tear) == Act(Act(d, tear[0]), tear[1]);
    RunAppend(c, before, tear);
    RunAppend(c, before + tear, later);
    RefusesForever(Run(d, tear), later, i);
  }

  /** Only an exit, and a start that stops it, take a synced mysqld down; a second launch, a
      failed start and a torn write do not. */
  lemma {:induction false} GoesDownExactlyWhen(c: Cluster, a: Action)
    ensures GoesDown(c, a) <==>
      && IsSynced(c, a.node)
      && (a.step == Exit || (a.step == Begin(true) && c.nodes[a.node].pc == Idle))
  {
  }

  lemma {:induction false} WritesOnlyIfSynced(n: Node, step: Step)
    requires !n.pc.Writing?
    ensures Local(n, step).file == n.file
    ensures Local(n, step).pc.Writing? ==> n.mysqld.Synced?
  {
  }

  /** A node records its membership only if it has been synced. */
  lemma {:induction false} RecordedOnlyIfSynced(c: Cluster, actions: seq<Action>, i: nat) returns (k: nat)
    requires Initial(c) && MultiNode(c) && i < |c.nodes|
    requires |Run(c, actions).nodes| == |c.nodes|
    requires Run(c, actions).nodes[i].file != c.nodes[i].file || Run(c, actions).nodes[i].pc.Writing?
    ensures k <= |actions| && IsSynced(Run(c, actions[..k]), i)
  {
    var before, a := actions[..|actions| - 1], actions[|actions| - 1];
    RunKeepsNodes(c, before);
    var n := Run(c, before).nodes[i];
    if n.file != c.nodes[i].file || n.pc.Writing? {
      k := RecordedOnlyIfSynced(c, before, i);
      assert before[..k] == actions[..k];
    } else {
      k := |before|;
      WritesOnlyIfSynced(n, a.step);
      assert actions[..k] == before;
    }
  }

  // ------------------------------------- the probe loop as protocol steps

  /** The state of the loop after the answers in order, starting from `Probing(k)`. */
  function AfterProbes(cfg: Config, k: nat, answers: seq<Answer>): Pc
    decreases |answers|
  {
    var pc := AfterProbe(cfg, k, answers != [] && Healthy(answers[0]));
    if answers == [] || !pc.Probing? then pc else AfterProbes(cfg, pc.next, answers[1..])
  }

  /** Stepping through the probes launches a join exactly when `HealthyCluster` says yes. */
  lemma {:induction false} ProbesDecideLikeHealthyCluster(cfg: Config, k: nat, answers: seq<Answer>)
    requires k + |answers| == |cfg.clusterIps|
    decreases |answers|
    ensures AfterProbes(cfg, k, answers) ==
      Launching(PlanFor(NEEDS_BOOTSTRAP, SomeHealthy(answers)).value)
  {
    if answers != [] && !Healthy(answers[0]) {
      var rest := answers[1..];
      ProbesDecideLikeHealthyCluster(cfg, k + 1, rest);
      assert forall i :: 0 < i < |answers| ==> answers[i] == rest[i - 1];
      if i :| 0 <= i < |rest| && Healthy(rest[i]) { assert Healthy(answers[i + 1]); }
    }
  }

  /** Undisturbed, the steps up to the launch arrive at the plan of the start. */
  lemma {:induction false} StepsArriveAtPlan(cfg: Config, file: FileView, answers: seq<Answer>)
    requires |answers| == |cfg.clusterIps|
    ensures var pc := AfterChoice(cfg, file);
      (if pc.Probing? then AfterProbes(cfg, 0, answers) else pc) ==
      match PlanOf(cfg, file, SomeHealthy(answers)) { case Some(plan) => Launching(plan) case None => Idle }
  {
    ProbesDecideLikeHealthyCluster(cfg, 0, answers);
  }

  function LocalRun(n: Node, steps: seq<Step>): Node
    decreases |steps|
  {
    if steps == [] then n else LocalRun(Local(n, steps[0]), steps[1..])
  }

  function ProbeSteps(answers: seq<Answer>): seq<Step> {
    if answers == [] then [Probe(false)] else [Probe(Healthy(answers[0]))] + ProbeSteps(answers[1..])
  }

  lemma {:induction false} LocalRunAppend(n: Node, a: seq<Step>, b: seq<Step>)
    ensures LocalRun(n, a + b) == LocalRun(LocalRun(n, a), b)
    decreases |a|
  {
    if a == [] {
      assert a + b == b;
    } else {
      assert (a + b)[1..] == a[1..] + b;
      LocalRunAppend(Local(n, a[0]), a[1..], b);
    }
  }

  lemma {:induction false} RunProbes(n: Node, answers: seq<Answer>)
    requires n.pc.Probing? ==> n.pc.next + |answers| == |n.cfg.clusterIps|
    ensures LocalRun(n, ProbeSteps(answers)) ==
      if n.pc.Probing? then n.(pc := AfterProbes(n.cfg, n.pc.next, answers)) else n
    decreases |answers|
  {
    var steps := ProbeSteps(answers);
    var m := Local(n, steps[0]);
    if answers == [] {
      assert steps[1..] == [];
    } else {
      assert steps[1..] == ProbeSteps(answers[1..]);
      RunProbes(m, answers[1..]);
    }
  }

  /** A whole undisturbed start, one step after the other. */
  function StartSteps(stopOld: bool, statFails: bool, answers: seq<Answer>, component: nat): seq<Step> {
    [Begin(stopOld), Choose(statFails)] + ProbeSteps(answers) + [Launch, Sync(component), Reach, Record]
  }

  lemma {:induction false} FinishStart(n: Node, component: nat)
    requires n.mysqld.Down? && (n.pc.Launching? || n.pc.Idle?)
    ensures LocalRun(n, [Launch, Sync(component), Reach, Record]) ==
      if n.pc.Idle? then n
      else n.(pc := Supervising, mysqld := Synced(component), file := Contents(n.pc.plan.record))
  {
    var steps := [Launch, Sync(component), Reach, Record];
    var n1 := Local(n, Launch);
    var n2 := Local(n1, Sync(component));
    var n3 := Local(n2, Reach);
    var n4 := Local(n3, Record);
    assert steps[1..] == [Sync(component), Reach, Record];
    assert steps[1..][1..] == [Reach, Record];
    assert steps[1..][1..][1..] == [Record];
    assert LocalRun(n3, [Record]) == n4;
    assert LocalRun(n2, [Reach, Record]) == n4;
    assert LocalRun(n1, [Sync(component), Reach, Record]) == n4;
  }

  /** The steps of the protocol, taken without interruption, record what a start in the
      history of a single node records. */
  lemma {:induction false} UndisturbedStartAgreesWithHistory(
    n: Node, stopOld: bool, statFails: bool, answers: seq<Answer>, component: nat)
    requires n.pc.Idle? && (stopOld || n.mysqld.Down?) && |answers| == |n.cfg.clusterIps|
    ensures var unfound := n.flaky && statFails;
      var m := LocalRun(n, StartSteps(stopOld, statFails, answers, component));
      && m.file == History.After(n.file, History.Start(n.cfg, unfound, SomeHealthy(answers), true))
      && (if PlanOf(n.cfg, Seen(n.file, unfound), SomeHealthy(answers)).Some?
          then m.pc.Supervising? && m.mysqld == Synced(component)
          else m == n.(mysqld := Down))
  {
    var first, rest := [Begin(stopOld), Choose(statFails)], [Launch, Sync(component), Reach, Record];
    var seen := Seen(n.file, n.flaky && statFails);
    var chosen := n.(pc := AfterChoice(n.cfg, seen), mysqld := Down);
    assert LocalRun(n, first) == chosen by {
      assert first[1..] == [Choose(statFails)];
      assert LocalRun(Local(n, Begin(stopOld)), [Choose(statFails)]) == chosen;
    }
    LocalRunAppend(n, first + ProbeSteps(answers), rest);
    LocalRunAppend(n, first, ProbeSteps(answers));
    RunProbes(chosen, answers);
    StepsArriveAtPlan(n.cfg, seen, answers);
    FinishStart(LocalRun(chosen, ProbeSteps(answers)), component);
  }

  // ----------------------------------- all nodes, in a truthful environment

  predicate SomeSynced(c: Cluster) {
    exists j :: 0 <= j < |c.nodes| && c.nodes[j].mysqld.Synced?
  }

  /** A synced node whose address is still to be asked from position `k` on. */
  predicate SyncedAhead(c: Cluster, ips: seq<nat>, k: nat) {
    exists t :: k <= t < |ips| && IsSynced(c, ips[t])
  }

  /** Node `i` will bootstrap although others are synced, because it cannot find them any
      more and has no synced mysqld itself. */
  predicate Misled(c: Cluster, i: nat) {
    && i < |c.nodes| && !c.nodes[i].mysqld.Synced? && SomeSynced(c)
    && var n := c.nodes[i];
       BoundToBootstrap(n) || (n.pc.Probing? && !SyncedAhead(c, n.cfg.clusterIps, n.pc.next))
  }

  ghost predicate NobodyMisled(c: Cluster) {
    forall i: nat :: !Misled(c, i)
  }

  predicate ComponentsNumbered(c: Cluster) {
    forall i :: 0 <= i < |c.nodes| && c.nodes[i].mysqld.Synced? ==> c.nodes[i].mysqld.component < c.nextComponent
  }

  ghost predicate ClusterInvariant(c: Cluster) {
    && NodesInvariant(c)
    && Covering(c)
    && ComponentsNumbered(c)
    && AtMostOneMayBootstrap(c)
    && OneComponent(c)
    && BootstrapsAlone(c)
    && NobodyMisled(c)
  }

  /** A truthful step, by which a synced mysqld goes down only if that misleads nobody. */
  ghost predicate Harmless(c: Cluster, a: Action) {
    Truthful(c, a) && (GoesDown(c, a) ==> NobodyMisled(Act(c, a)))
  }

  /** A step that leaves every mysqld as it is. */
  lemma {:induction false} QuietStepKeeps(c: Cluster, a: Action)
    requires ClusterInvariant(c) && Truthful(c, a) && a.node < |c.nodes|
    requires Act(c, a).nodes[a.node].mysqld == c.nodes[a.node].mysqld
    ensures OneComponent(Act(c, a)) && BootstrapsAlone(Act(c, a)) && NobodyMisled(Act(c, a))
  {
    var d := Act(c, a);
    assert forall j :: 0 <= j < |c.nodes| ==> d.nodes[j].mysqld == c.nodes[j].mysqld;
    assert forall j: nat :: IsSynced(d, j) <==> IsSynced(c, j);
    forall i: nat ensures !Misled(d, i) {
      if i == a.node {
        QuietStepMisleadsNotItself(c, a);
      } else if i < |c.nodes| {
        StaysInformed(c, d, i);
      }
    }
  }

  lemma {:induction false} QuietStepMisleadsNotItself(c: Cluster, a: Action)
    requires ClusterInvariant(c) && Truthful(c, a) && a.node < |c.nodes|
    requires Act(c, a).nodes[a.node].mysqld == c.nodes[a.node].mysqld
    ensures !Misled(Act(c, a), a.node)
  {
    var d, n := Act(c, a), c.nodes[a.node];
    assert !Misled(c, a.node) && NodeInvariant(n);
    assert SomeSynced(d) ==> SomeSynced(c);
    if SomeSynced(c) && !n.mysqld.Synced? {
      LocalFindsSomebody(c, a.node, a.step);
      if t :| 0 <= t < |n.cfg.clusterIps| && IsSynced(c, n.cfg.clusterIps[t]) && d.nodes[a.node].pc.Probing?
              && d.nodes[a.node].pc.next <= t {
        assert IsSynced(d, n.cfg.clusterIps[t]);
      }
    }
  }

  /** A step towards a bootstrap leaves a synced node to be asked, if it found one to ask. */
  lemma {:induction false} LocalFindsSomebody(c: Cluster, i: nat, step: Step)
    requires NodesInvariant(c) && Covering(c) && !Misled(c, i) && Truthful(c, Action(i, step))
    requires i < |c.nodes| && SomeSynced(c) && !c.nodes[i].mysqld.Synced?
    ensures !BoundToBootstrap(Local(c.nodes[i], step))
    ensures var n := Local(c.nodes[i], step);
      n.pc.Probing? ==> SyncedAhead(c, n.cfg.clusterIps, n.pc.next)
  {
    var n := c.nodes[i];
    match step
    case Choose(statFails) =>
      if n.pc.Choosing? && Local(n, step).pc.Probing? {
        var t := SomebodyIsListed(c, i);
      }
    case Probe(healthy) =>
      if n.pc.Probing? && Local(n, step).pc != n.pc {
        var t :| n.pc.next <= t < |n.cfg.clusterIps| && IsSynced(c, n.cfg.clusterIps[t]);
        assert t == n.pc.next ==> healthy;
      }
    case _ =>
  }

  /** A bootstrapper that is not synced has the address of a synced node, if there is one. */
  lemma {:induction false} SomebodyIsListed(c: Cluster, i: nat) returns (t: nat)
    requires Covering(c) && SomeSynced(c) && MayBootstrap(c, i) && !c.nodes[i].mysqld.Synced?
    ensures t < |c.nodes[i].cfg.clusterIps| && IsSynced(c, c.nodes[i].cfg.clusterIps[t])
  {
    var j: nat :| j < |c.nodes| && c.nodes[j].mysqld.Synced?;
    assert j in c.nodes[i].cfg.clusterIps;
    t :| t < |c.nodes[i].cfg.clusterIps| && c.nodes[i].cfg.clusterIps[t] == j;
  }

  /** mysqld becomes synced: by bootstrap with nobody else synced, or by joining a peer. */
  lemma {:induction false} SyncKeeps(c: Cluster, a: Action)
    requires ClusterInvariant(c) && Truthful(c, a) && a.node < |c.nodes|
    requires a.step.Sync? && c.nodes[a.node].mysqld.Starting?
    ensures ComponentsNumbered(Act(c, a))
    ensures OneComponent(Act(c, a)) && BootstrapsAlone(Act(c, a)) && NobodyMisled(Act(c, a))
  {
    var d, n := Act(c, a), c.nodes[a.node];
    assert forall j :: 0 <= j < |c.nodes| && j != a.node ==> d.nodes[j] == c.nodes[j];
    assert forall j: nat :: IsSynced(c, j) ==> IsSynced(d, j);
    if n.mysqld.mode == Bootstrap { assert MayBootstrap(c, a.node); } else { assert SomeSynced(c); }
    forall i | 0 <= i < |c.nodes| && i != a.node
      ensures !Misled(d, i) && (n.mysqld.mode == Bootstrap ==> c.nodes[i].mysqld != Starting(Bootstrap))
    {
      assert !Misled(c, i) && NodeInvariant(c.nodes[i]);
      if n.mysqld.mode == Bootstrap {
        assert !MayBootstrap(c, i);
      } else if c.nodes[i].pc.Probing? && !c.nodes[i].mysqld.Synced? {
        var ips := c.nodes[i].cfg.clusterIps;
        var t :| c.nodes[i].pc.next <= t < |ips| && IsSynced(c, ips[t]);
        assert IsSynced(d, ips[t]);
      }
    }
  }

  /** With the same nodes synced, a node that stays where it is stays as well informed. */
  lemma {:induction false} StaysInformed(c: Cluster, d: Cluster, i: nat)
    requires |c.nodes| == |d.nodes| && forall j: nat :: IsSynced(d, j) <==> IsSynced(c, j)
    requires i < |c.nodes| && d.nodes[i].cfg == c.nodes[i].cfg && d.nodes[i].pc == c.nodes[i].pc
    requires !Misled(c, i)
    ensures !Misled(d, i)
  {
    var n := c.nodes[i];
    assert IsSynced(d, i) <==> IsSynced(c, i);
    if j: nat :| j < |d.nodes| && d.nodes[j].mysqld.Synced? {
      assert IsSynced(d, j) && IsSynced(c, j);
      if n.pc.Probing? && !n.mysqld.Synced? {
        var t :| n.pc.next <= t < |n.cfg.clusterIps| && IsSynced(c, n.cfg.clusterIps[t]);
        assert IsSynced(d, n.cfg.clusterIps[t]);
      }
    }
  }

  /** mysqld is launched, or goes down before it was synced. */
  lemma {:induction false} UnsyncedStepKeeps(c: Cluster, a: Action)
    requires OneComponent(c) && BootstrapsAlone(c) && NobodyMisled(c)
    requires a.node < |c.nodes| && !c.nodes[a.node].mysqld.Synced?
    requires a.step.Begin? || a.step.Launch? || a.step.Exit?
    ensures OneComponent(Act(c, a)) && BootstrapsAlone(Act(c, a)) && NobodyMisled(Act(c, a))
  {
    var d := Act(c, a);
    assert !Misled(c, a.node);
    assert forall j :: 0 <= j < |c.nodes| && j != a.node ==> d.nodes[j] == c.nodes[j];
    assert forall j: nat :: IsSynced(d, j) <==> IsSynced(c, j);
    forall i: nat ensures !Misled(d, i) {
      if i < |c.nodes| && d.nodes[i].pc == c.nodes[i].pc { StaysInformed(c, d, i); }
    }
  }

  lemma {:induction false} ActKeepsCovering(c: Cluster, a: Action)
    requires NodesInvariant(c) && Covering(c)
    ensures Covering(Act(c, a))
  {
    ActKeepsNodes(c, a);
    var d := Act(c, a);
    forall i: nat, j: nat | MayBootstrap(d, i) && j < |d.nodes| && j != i && !Refuses(d.nodes[j])
      ensures j in d.nodes[i].cfg.clusterIps
    {
      assert MayBootstrap(c, i) && !Refuses(c.nodes[j]);
    }
  }

  lemma {:induction false} ActKeepsCluster(c: Cluster, a: Action)
    requires ClusterInvariant(c) && Harmless(c, a)
    ensures ClusterInvariant(Act(c, a))
  {
    ActKeepsNodes(c, a);
    ActKeepsCovering(c, a);
    if a.node < |c.nodes| {
      if Act(c, a).nodes[a.node].mysqld == c.nodes[a.node].mysqld {
        QuietStepKeeps(c, a);
      } else if a.step.Sync? {
        SyncKeeps(c, a);
      } else if !c.nodes[a.node].mysqld.Synced? {
        UnsyncedStepKeeps(c, a);
      }
    }
  }

  /** With nobody in a probe loop, and no decided bootstrapper losing a mysqld of its own,
      a mysqld that goes down misleads nobody. */
  lemma {:induction false} PermittedIsHarmless(c: Cluster, a: Action)
    requires ClusterInvariant(c) && Permitted(c, a)
    ensures Harmless(c, a)
  {
    if GoesDown(c, a) {
      assert SomeSynced(c);
      forall i: nat ensures !Misled(Act(c, a), i) {
        assert !Misled(c, i);
      }
    }
  }

  ghost predicate HarmlessRun(c: Cluster, actions: seq<Action>) {
    forall k :: 0 <= k < |actions| ==> Harmless(Run(c, actions[..k]), actions[k])
  }

  lemma {:induction false} RunKeepsCluster(c: Cluster, actions: seq<Action>)
    requires ClusterInvariant(c) && HarmlessRun(c, actions)
    ensures ClusterInvariant(Run(c, actions))
  {
    if actions != [] {
      var before, last := actions[..|actions| - 1], actions[|actions| - 1];
      forall k | 0 <= k < |before| ensures Harmless(Run(c, before[..k]), before[k]) {
        assert before[..k] == actions[..k];
      }
      RunKeepsCluster(c, before);
      assert Harmless(Run(c, before), last);
      ActKeepsCluster(Run(c, before), last);
    }
  }

  lemma {:induction false} PermittedRunIsHarmless(c: Cluster, actions: seq<Action>, k: nat)
    requires ClusterInvariant(c) && PermittedRun(c, actions) && k <= |actions|
    ensures HarmlessRun(c, actions[..k]) && ClusterInvariant(Run(c, actions[..k]))
  {
    if k > 0 {
      PermittedRunIsHarmless(c, actions, k - 1);
      PermittedIsHarmless(Run(c, actions[..k - 1]), actions[k - 1]);
      HarmlessAppend(c, actions[..k - 1], actions[k - 1]);
      assert actions[..k] == actions[..k - 1] + [actions[k - 1]];
    }
  }

  lemma {:induction false} HarmlessAppend(c: Cluster, actions: seq<Action>, a: Action)
    requires ClusterInvariant(c) && HarmlessRun(c, actions) && Harmless(Run(c, actions), a)
    ensures HarmlessRun(c, actions + [a]) && ClusterInvariant(Run(c, actions + [a]))
  {
    var longer := actions + [a];
    assert longer[..|actions|] == actions;
    forall k | 0 <= k < |longer| ensures Harmless(Run(c, longer[..k]), longer[k]) {
      if k < |actions| { assert longer[..k] == actions[..k]; }
    }
    RunKeepsCluster(c, longer);
  }

  lemma {:induction false} InitiallyInvariant(c: Cluster)
    requires Initial(c) && MultiNode(c) && Covering(c) && AtMostOneMayBootstrap(c)
    ensures ClusterInvariant(c)
  {
  }

  /** In every state of every run in which no exit misleads a bootstrapper, all synced nodes
      are in one component and a bootstrapping mysqld has no synced node beside it. */
  lemma {:induction false} OneComponentUnlessMisled(c: Cluster, actions: seq<Action>)
    requires Initial(c) && MultiNode(c) && Covering(c) && AtMostOneMayBootstrap(c)
    requires HarmlessRun(c, actions)
    ensures OneComponent(Run(c, actions)) && BootstrapsAlone(Run(c, actions))
  {
    InitiallyInvariant(c);
    RunKeepsCluster(c, actions);
  }

  /** Every permitted run is such a run. */
  lemma {:induction false} AllSyncedNodesShareOneComponent(c: Cluster, actions: seq<Action>)
    requires Initial(c) && MultiNode(c) && Covering(c) && AtMostOneMayBootstrap(c)
    requires PermittedRun(c, actions)
    ensures HarmlessRun(c, actions)
    ensures OneComponent(Run(c, actions)) && BootstrapsAlone(Run(c, actions))
  {
    InitiallyInvariant(c);
    PermittedRunIsHarmless(c, actions, |actions|);
    assert actions[..|actions|] == actions;
  }
}
