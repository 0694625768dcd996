/** For every choice of assumptions on exits, exactly which clusters stay in one component;
    and exactly which exits are safe. */
module ClusterExactness {
  import opened NodeState
  import opened ClusterProtocol
  import opened ClusterSafety
  import opened ClusterWitness

  predicate MayStart(c: Cluster, i: nat) {
    i < |c.nodes| && CanStart(c.nodes[i])
  }

  /** A bootstrapper and one other node that can start. */
  ghost predicate BootstrapperAndOther(c: Cluster) {
    exists e: nat, f: nat :: MayBootstrap(c, e) && MayStart(c, f) && e != f
  }

  /** A bootstrapper and two other nodes that can start. */
  ghost predicate BootstrapperAndTwoOthers(c: Cluster) {
    exists e: nat, f: nat, g: nat ::
      MayBootstrap(c, e) && MayStart(c, f) && MayStart(c, g) && e != f && e != g && f != g
  }

  ghost predicate Safe(env: Guard, c: Cluster) {
    if env.quietProbes && (env.leftoversStay || env.cleanStarts) then
      AtMostOneMayBootstrap(c) && Covering(c)
    else if env.cleanStarts then
      AtMostOneMayBootstrap(c) && Covering(c) && !BootstrapperAndTwoOthers(c)
    else
      !BootstrapperAndOther(c)
  }

  // ------------------------------------------------------ unsafe clusters split

  lemma {:induction false} StartsByJoining(c: Cluster, i: nat)
    requires MayStart(c, i) && |c.nodes[i].cfg.clusterIps| > 1 && !MayBootstrap(c, i)
    ensures Joins(c.nodes[i])
  {
  }

  lemma {:induction false} UnsafeSplits(env: Guard, c: Cluster) returns (actions: seq<Action>)
    requires Initial(c) && MultiNode(c) && !Safe(env, c)
    ensures ToleratedRun(env, c, actions) && !OneComponent(Run(c, actions))
  {
    if !AtMostOneMayBootstrap(c) {
      var i: nat, j: nat :| MayBootstrap(c, i) && MayBootstrap(c, j) && i != j;
      actions := TwoBootstrappersSplit(env, c, i, j);
    } else if !Covering(c) {
      var e: nat, f: nat :| MayBootstrap(c, e) && f < |c.nodes| && f != e && !Refuses(c.nodes[f])
                            && f !in c.nodes[e].cfg.clusterIps;
      StartsByJoining(c, f);
      actions := UncoveredSplits(env, c, e, f);
    } else if env.cleanStarts {
      var e: nat, f: nat, g: nat :|
        MayBootstrap(c, e) && MayStart(c, f) && MayStart(c, g) && e != f && e != g && f != g;
      StartsByJoining(c, f);
      StartsByJoining(c, g);
      actions := ExitsDuringProbesSplit(env, c, e, f, g);
    } else {
      var e: nat, f: nat :| MayBootstrap(c, e) && MayStart(c, f) && e != f;
      StartsByJoining(c, f);
      actions := LeftoverSplits(env, c, e, f);
    }
  }

  // ------------------------------------------------------ safe clusters do not

  /** No node has a mysqld running between the beginning of a start and its launch. */
  predicate StartsClean(c: Cluster) {
    forall i :: 0 <= i < |c.nodes| ==>
      (c.nodes[i].pc.Choosing? || c.nodes[i].pc.Probing? || c.nodes[i].pc.Launching? ==> c.nodes[i].mysqld.Down?)
  }

  /** A synced node is one that could start at the outset. */
  lemma {:induction false} SyncedCouldStart(c: Cluster, actions: seq<Action>, i: nat)
    requires Initial(c) && MultiNode(c) && IsSynced(Run(c, actions), i)
    ensures MayStart(c, i)
  {
    RunKeepsNodes(c, actions);
    if !MayStart(c, i) { RefusesForever(c, actions, i); }
  }

  /** With clean starts only two further synced nodes, one of them going down, can mislead. */
  lemma {:induction false} MisleadingTakesThree(c: Cluster, before: seq<Action>, a: Action, i: nat)
    requires Initial(c) && MultiNode(c) && NodesInvariant(Run(c, before)) && StartsClean(Run(c, before))
    requires GoesDown(Run(c, before), a) && Misled(Act(Run(c, before), a), i)
    ensures BootstrapperAndTwoOthers(c)
  {
    var d := Run(c, before);
    var j: nat :| j < |d.nodes| && Act(d, a).nodes[j].mysqld.Synced?;
    assert NodeInvariant(d.nodes[i]) && i != a.node && d.nodes[i].mysqld.Down?;
    assert MayBootstrap(d, i);
    assert j != a.node && IsSynced(d, j);
    SyncedCouldStart(c, before, a.node);
    SyncedCouldStart(c, before, j);
    RunKeepsNodes(c, before);
  }

  lemma {:induction false} ToleratedIsHarmless(env: Guard, c: Cluster, before: seq<Action>, a: Action)
    requires Initial(c) && MultiNode(c) && Safe(env, c)
    requires env.cleanStarts || (env.quietProbes && env.leftoversStay)
    requires ClusterInvariant(Run(c, before)) && (env.cleanStarts ==> StartsClean(Run(c, before)))
    requires Tolerated(env, Run(c, before), a)
    ensures Harmless(Run(c, before), a)
  {
    var d := Run(c, before);
    if GoesDown(d, a) {
      if env.quietProbes {
        PermittedIsHarmless(d, a);
      } else {
        forall i: nat ensures !Misled(Act(d, a), i) {
          if Misled(Act(d, a), i) { MisleadingTakesThree(c, before, a, i); }
        }
      }
    }
  }

  lemma {:induction false} StartsStayClean(env: Guard, c: Cluster, a: Action)
    requires StartsClean(c) && env.cleanStarts && Tolerated(env, c, a)
    ensures StartsClean(Act(c, a))
  {
  }

  lemma {:induction false} ToleratedRunIsHarmless(env: Guard, c: Cluster, actions: seq<Action>, k: nat)
    requires Initial(c) && MultiNode(c) && Safe(env, c)
    requires env.cleanStarts || (env.quietProbes && env.leftoversStay)
    requires ToleratedRun(env, c, actions) && k <= |actions|
    ensures HarmlessRun(c, actions[..k]) && ClusterInvariant(Run(c, actions[..k]))
    ensures env.cleanStarts ==> StartsClean(Run(c, actions[..k]))
  {
    if k == 0 {
      InitiallyInvariant(c);
    } else {
      var before, a := actions[..k - 1], actions[k - 1];
      ToleratedRunIsHarmless(env, c, actions, k - 1);
      ToleratedIsHarmless(env, c, before, a);
      InitiallyInvariant(c);
      HarmlessAppend(c, before, a);
      if env.cleanStarts { StartsStayClean(env, Run(c, before), a); }
      assert actions[..k] == before + [a];
      assert actions[..k][..k - 1] == before;
    }
  }

  lemma {:induction false} FirstSyncIsABootstrap(c: Cluster, a: Action)
    requires NodesInvariant(c) && !SomeSynced(c) && Truthful(c, a) && forall i: nat :: !MayBootstrap(c, i)
    ensures !SomeSynced(Act(c, a))
  {
    var d := Act(c, a);
    forall m: Mysqld | m.Starting? ensures m == Starting(Bootstrap) || m == Starting(Join) {
      assert m.mode.Bootstrap? || m.mode.Join?;
    }
    if i :| 0 <= i < |d.nodes| && d.nodes[i].mysqld.Synced? {
      assert NodeInvariant(c.nodes[i]) && !MayBootstrap(c, i);
      assert !c.nodes[i].mysqld.Synced?;
    }
  }

  /** Without a bootstrapper nothing ever becomes synced. */
  lemma {:induction false} NobodyEverSynced(env: Guard, c: Cluster, actions: seq<Action>, k: nat)
    requires Initial(c) && MultiNode(c) && ToleratedRun(env, c, actions) && k <= |actions|
    requires forall i: nat :: !MayBootstrap(c, i)
    ensures !SomeSynced(Run(c, actions[..k]))
  {
    if k > 0 {
      var d := Run(c, actions[..k - 1]);
      NobodyEverSynced(env, c, actions, k - 1);
      RunKeepsNodes(c, actions[..k - 1]);
      assert Tolerated(env, d, actions[k - 1]);
      FirstSyncIsABootstrap(d, actions[k - 1]);
      assert actions[..k][..k - 1] == actions[..k - 1];
    }
  }

  /** A bootstrapper that is the only node that can start is alone in its component. */
  lemma {:induction false} LonelyStaysTogether(env: Guard, c: Cluster, actions: seq<Action>)
    requires Initial(c) && MultiNode(c) && ToleratedRun(env, c, actions) && !BootstrapperAndOther(c)
    ensures OneComponent(Run(c, actions))
  {
    var d := Run(c, actions);
    assert actions[..|actions|] == actions;
    if e: nat :| MayBootstrap(c, e) {
      forall i: nat | IsSynced(d, i) ensures i == e { SyncedCouldStart(c, actions, i); }
      assert forall i :: 0 <= i < |d.nodes| && d.nodes[i].mysqld.Synced? ==> IsSynced(d, i);
    } else {
      NobodyEverSynced(env, c, actions, |actions|);
    }
  }

  /** Whatever is assumed about exits and starts: all tolerated runs of a cluster stay in one
      component if and only if the cluster is safe for these assumptions. */
  lemma {:induction false} OneComponentExactlyWhen(env: Guard, c: Cluster)
    requires Initial(c) && MultiNode(c)
    ensures (forall actions :: ToleratedRun(env, c, actions) ==> OneComponent(Run(c, actions))) <==> Safe(env, c)
  {
    if Safe(env, c) {
      forall actions | ToleratedRun(env, c, actions) ensures OneComponent(Run(c, actions)) {
        SafeStaysTogether(env, c, actions);
      }
    } else {
      var actions := UnsafeSplits(env, c);
    }
  }

  lemma {:induction false} SafeStaysTogether(env: Guard, c: Cluster, actions: seq<Action>)
    requires Initial(c) && MultiNode(c) && Safe(env, c)
    requires ToleratedRun(env, c, actions)
    ensures OneComponent(Run(c, actions))
  {
    if env.cleanStarts || (env.quietProbes && env.leftoversStay) {
      ToleratedRunIsHarmless(env, c, actions, |actions|);
      assert actions[..|actions|] == actions;
    } else {
      LonelyStaysTogether(env, c, actions);
    }
  }

  // --------------------------------------------------- exactly the safe exits

  /** A misled node that has no mysqld creates a second component. */
  lemma {:induction false} MisledSplits(env: Guard, c: Cluster, i: nat) returns (actions: seq<Action>)
    requires Misled(c, i) && NodeInvariant(c.nodes[i]) && ComponentsNumbered(c)
    requires c.nodes[i].mysqld != Starting(Bootstrap)
    ensures ToleratedRun(env, c, actions) && !OneComponent(Run(c, actions))
  {
    var plan := Plan(Bootstrap, CLUSTERED);
    assert Leads(env, c, [], c);
    actions := Extend(env, c, [], c, Action(i, Exit));
    var d := Move(c, i, c.nodes[i].pc, Down);
    assert Act(c, Action(i, Exit)) == d;
    if c.nodes[i].pc.Probing? {
      actions := ProbeToTheEnd(env, c, actions, d, i);
      d := Move(d, i, Probing(|c.nodes[i].cfg.clusterIps|), Down);
      actions := EndProbing(env, c, actions, d, i);
      d := Move(d, i, Launching(plan), Down);
    }
    var j :| 0 <= j < |c.nodes| && c.nodes[j].mysqld.Synced?;
    actions := BootstrapNow(env, c, actions, d, i);
    assert Run(c, actions).nodes[i].mysqld != Run(c, actions).nodes[j].mysqld;
  }

  lemma {:induction false} PermittedContinuationStays(d: Cluster, later: seq<Action>)
    requires ClusterInvariant(d) && PermittedRun(d, later)
    ensures OneComponent(Run(d, later))
  {
    PermittedRunIsHarmless(d, later, |later|);
    assert later[..|later|] == later;
  }

  lemma {:induction false} MisleadingExitSplits(c: Cluster, a: Action, i: nat) returns (later: seq<Action>)
    requires ClusterInvariant(c) && GoesDown(c, a) && Misled(Act(c, a), i)
    ensures PermittedRun(Act(c, a), later) && !OneComponent(Run(Act(c, a), later))
  {
    var env := Guard(true, true, false, false);
    ActKeepsNodes(c, a);
    later := MisledSplits(env, Act(c, a), i);
    forall k | 0 <= k < |later| ensures Permitted(Run(Act(c, a), later[..k]), later[k]) {
      assert Tolerated(env, Run(Act(c, a), later[..k]), later[k]);
    }
  }

  /** At any point of any harmless run, a synced mysqld can go down without the cluster ever
      splitting in a permitted continuation if and only if that misleads nobody. */
  lemma {:induction false} ExitIsSafeExactlyWhen(c: Cluster, before: seq<Action>, a: Action)
    requires Initial(c) && MultiNode(c) && Covering(c) && AtMostOneMayBootstrap(c)
    requires HarmlessRun(c, before) && GoesDown(Run(c, before), a)
    ensures var d := Act(Run(c, before), a);
      (forall later :: PermittedRun(d, later) ==> OneComponent(Run(d, later))) <==> NobodyMisled(d)
  {
    InitiallyInvariant(c);
    RunKeepsCluster(c, before);
    var d := Act(Run(c, before), a);
    if NobodyMisled(d) {
      ActKeepsCluster(Run(c, before), a);
      forall later | PermittedRun(d, later) ensures OneComponent(Run(d, later)) {
        PermittedContinuationStays(d, later);
      }
    } else {
      var i: nat :| Misled(d, i);
      var later := MisleadingExitSplits(Run(c, before), a, i);
    }
  }
}
