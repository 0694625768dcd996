/** The assumptions of the safety theorem are needed, whatever the cluster looks like:
    runs that split it are built step by step. */
module ClusterWitness {
  import opened Text
  import opened NodeState
  import opened ClusterProtocol
  import opened ClusterSafety

  /** Which assumptions hold beyond truthful steps: `quietProbes` and `leftoversStay` are the
      two of `Permitted`; with `cleanStarts` a start leaves no earlier mysqld running; with
      `accurateProbes` a node that is not synced is never found healthy. */
  datatype Guard = Guard(quietProbes: bool, leftoversStay: bool, cleanStarts: bool, accurateProbes: bool)

  predicate Accurate(c: Cluster, a: Action) {
    a.node < |c.nodes| && a.step.Probe? && c.nodes[a.node].pc.Probing? ==>
      var n := c.nodes[a.node];
      n.pc.next < |n.cfg.clusterIps| && a.step.healthy ==> IsSynced(c, n.cfg.clusterIps[n.pc.next])
  }

  predicate Tolerated(env: Guard, c: Cluster, a: Action) {
    && Truthful(c, a)
    && (env.quietProbes && GoesDown(c, a) ==> NobodyProbes(c))
    && (env.leftoversStay && GoesDown(c, a) ==> !BoundToBootstrap(c.nodes[a.node]))
    && (env.cleanStarts && a.step.Begin? && a.node < |c.nodes| && c.nodes[a.node].pc.Idle? ==>
          Act(c, a).nodes[a.node].mysqld.Down?)
    && (env.accurateProbes ==> Accurate(c, a))
  }

  predicate ToleratedRun(env: Guard, c: Cluster, actions: seq<Action>) {
    forall k :: 0 <= k < |actions| ==> Tolerated(env, Run(c, actions[..k]), actions[k])
  }

  /** A run under construction: `actions` leads from `c` to `d`. */
  predicate Leads(env: Guard, c: Cluster, actions: seq<Action>, d: Cluster) {
    ToleratedRun(env, c, actions) && Run(c, actions) == d
  }

  function Move(d: Cluster, i: nat, pc: Pc, mysqld: Mysqld): Cluster
    requires i < |d.nodes|
  {
    d.(nodes := d.nodes[i := d.nodes[i].(pc := pc, mysqld := mysqld)])
  }

  lemma {:induction false} Extend(env: Guard, c: Cluster, actions: seq<Action>, d: Cluster, a: Action)
    returns (longer: seq<Action>)
    requires Leads(env, c, actions, d) && Tolerated(env, d, a)
    ensures Leads(env, c, longer, Act(d, a))
  {
    longer := actions + [a];
    assert longer[..|actions|] == actions;
    forall k | 0 <= k < |longer| ensures Tolerated(env, Run(c, longer[..k]), longer[k]) {
      if k < |actions| { assert longer[..k] == actions[..k]; }
    }
  }

  /** An idle node that may bootstrap starts and enters its probe loop. */
  lemma {:induction false} EnterProbing(env: Guard, c: Cluster, actions: seq<Action>, d: Cluster, i: nat)
    returns (longer: seq<Action>)
    requires Leads(env, c, actions, d) && MayBootstrap(d, i) && d.nodes[i].pc.Idle?
    requires env.cleanStarts ==> d.nodes[i].mysqld.Down?
    ensures Leads(env, c, longer, Move(d, i, Probing(0), d.nodes[i].mysqld))
  {
    longer := Extend(env, c, actions, d, Action(i, Begin(false)));
    var e := Move(d, i, Choosing, d.nodes[i].mysqld);
    assert Act(d, Action(i, Begin(false))) == e;
    var choose := Action(i, Choose(!Eligible(d.nodes[i].cfg, d.nodes[i].file)));
    longer := Extend(env, c, longer, e, choose);
    assert Act(e, choose) == Move(d, i, Probing(0), d.nodes[i].mysqld);
  }

  lemma {:induction false} ProbeInVain(env: Guard, c: Cluster, actions: seq<Action>, d: Cluster, i: nat, k: nat)
    returns (longer: seq<Action>)
    requires i < |d.nodes| && k < |d.nodes[i].cfg.clusterIps| && !IsSynced(d, d.nodes[i].cfg.clusterIps[k])
    requires Leads(env, c, actions, Move(d, i, Probing(k), d.nodes[i].mysqld))
    ensures Leads(env, c, longer, Move(d, i, Probing(k + 1), d.nodes[i].mysqld))
  {
    var e := Move(d, i, Probing(k), d.nodes[i].mysqld);
    longer := Extend(env, c, actions, e, Action(i, Probe(false)));
    assert Act(e, Action(i, Probe(false))) == Move(d, i, Probing(k + 1), d.nodes[i].mysqld);
  }

  /** With nobody synced among the addresses still to be asked, all are asked in vain. */
  lemma {:induction false} ProbeToTheEnd(env: Guard, c: Cluster, actions: seq<Action>, d: Cluster, i: nat)
    returns (longer: seq<Action>)
    requires Leads(env, c, actions, d) && i < |d.nodes| && d.nodes[i].pc.Probing?
    requires d.nodes[i].pc.next <= |d.nodes[i].cfg.clusterIps|
    requires !SyncedAhead(d, d.nodes[i].cfg.clusterIps, d.nodes[i].pc.next)
    ensures Leads(env, c, longer, Move(d, i, Probing(|d.nodes[i].cfg.clusterIps|), d.nodes[i].mysqld))
  {
    var m, n := d.nodes[i].mysqld, |d.nodes[i].cfg.clusterIps|;
    longer := actions;
    assert Move(d, i, d.nodes[i].pc, m) == d;
    for k := d.nodes[i].pc.next to n
      invariant Leads(env, c, longer, Move(d, i, Probing(k), m))
    {
      longer := ProbeInVain(env, c, longer, d, i, k);
    }
  }

  /** With nobody synced a start gets through the whole probe loop. */
  lemma {:induction false} AskEverybody(env: Guard, c: Cluster, actions: seq<Action>, d: Cluster, i: nat)
    returns (longer: seq<Action>)
    requires Leads(env, c, actions, d) && MayBootstrap(d, i) && d.nodes[i].pc.Idle? && !SomeSynced(d)
    requires env.cleanStarts ==> d.nodes[i].mysqld.Down?
    ensures Leads(env, c, longer, Move(d, i, Probing(|d.nodes[i].cfg.clusterIps|), d.nodes[i].mysqld))
  {
    longer := EnterProbing(env, c, actions, d, i);
    var e := Move(d, i, Probing(0), d.nodes[i].mysqld);
    longer := ProbeToTheEnd(env, c, longer, e, i);
    assert Move(e, i, Probing(|d.nodes[i].cfg.clusterIps|), d.nodes[i].mysqld)
        == Move(d, i, Probing(|d.nodes[i].cfg.clusterIps|), d.nodes[i].mysqld);
  }

  /** And so decides to bootstrap. */
  lemma {:induction false} DecideToBootstrap(env: Guard, c: Cluster, actions: seq<Action>, d: Cluster, i: nat)
    returns (longer: seq<Action>)
    requires Leads(env, c, actions, d) && MayBootstrap(d, i) && d.nodes[i].pc.Idle? && !SomeSynced(d)
    requires env.cleanStarts ==> d.nodes[i].mysqld.Down?
    ensures Leads(env, c, longer, Move(d, i, Launching(Plan(Bootstrap, CLUSTERED)), d.nodes[i].mysqld))
  {
    longer := AskEverybody(env, c, actions, d, i);
    var m, n := d.nodes[i].mysqld, |d.nodes[i].cfg.clusterIps|;
    longer := EndProbing(env, c, longer, Move(d, i, Probing(n), m), i);
    assert Move(Move(d, i, Probing(n), m), i, Launching(Plan(Bootstrap, CLUSTERED)), m)
        == Move(d, i, Launching(Plan(Bootstrap, CLUSTERED)), m);
  }

  /** The loop is through: nobody was healthy. */
  lemma {:induction false} EndProbing(env: Guard, c: Cluster, actions: seq<Action>, d: Cluster, i: nat)
    returns (longer: seq<Action>)
    requires Leads(env, c, actions, d) && i < |d.nodes| && d.nodes[i].pc == Probing(|d.nodes[i].cfg.clusterIps|)
    ensures Leads(env, c, longer, Move(d, i, Launching(Plan(Bootstrap, CLUSTERED)), d.nodes[i].mysqld))
  {
    longer := Extend(env, c, actions, d, Action(i, Probe(false)));
    assert Act(d, Action(i, Probe(false))) ==
           Move(d, i, Launching(Plan(Bootstrap, CLUSTERED)), d.nodes[i].mysqld);
  }

  lemma {:induction false} LaunchNow(env: Guard, c: Cluster, actions: seq<Action>, d: Cluster, i: nat)
    returns (longer: seq<Action>)
    requires Leads(env, c, actions, d) && i < |d.nodes| && d.nodes[i].pc.Launching? && d.nodes[i].mysqld.Down?
    ensures Leads(env, c, longer,
                  Move(d, i, Waiting(d.nodes[i].pc.plan.record), Starting(d.nodes[i].pc.plan.mode)))
  {
    longer := Extend(env, c, actions, d, Action(i, Launch));
    assert Act(d, Action(i, Launch)) ==
           Move(d, i, Waiting(d.nodes[i].pc.plan.record), Starting(d.nodes[i].pc.plan.mode));
  }

  lemma {:induction false} BecomeComponent(env: Guard, c: Cluster, actions: seq<Action>, d: Cluster, i: nat)
    returns (longer: seq<Action>)
    requires Leads(env, c, actions, d) && i < |d.nodes| && d.nodes[i].mysqld == Starting(Bootstrap)
    ensures Leads(env, c, longer,
                  Move(d, i, d.nodes[i].pc, Synced(d.nextComponent)).(nextComponent := d.nextComponent + 1))
  {
    longer := Extend(env, c, actions, d, Action(i, Sync(0)));
  }

  /** Two nodes that may both bootstrap can split the cluster within the assumptions. */
  lemma {:induction false} TwoBootstrappersSplit(env: Guard, c: Cluster, i: nat, j: nat) returns (actions: seq<Action>)
    requires Initial(c) && i != j && MayBootstrap(c, i) && MayBootstrap(c, j)
    ensures ToleratedRun(env, c, actions) && !OneComponent(Run(c, actions))
  {
    var plan := Plan(Bootstrap, CLUSTERED);
    assert Leads(env, c, [], c);
    actions := DecideToBootstrap(env, c, [], c, i);
    var d := Move(c, i, Launching(plan), Down);
    actions := DecideToBootstrap(env, c, actions, d, j);
    d := Move(d, j, Launching(plan), Down);
    actions := LaunchNow(env, c, actions, d, i);
    d := Move(d, i, Waiting(CLUSTERED), Starting(Bootstrap));
    actions := LaunchNow(env, c, actions, d, j);
    d := Move(d, j, Waiting(CLUSTERED), Starting(Bootstrap));
    actions := BecomeComponent(env, c, actions, d, i);
    d := Move(d, i, Waiting(CLUSTERED), Synced(d.nextComponent)).(nextComponent := d.nextComponent + 1);
    actions := BecomeComponent(env, c, actions, d, j);
    d := Move(d, j, Waiting(CLUSTERED), Synced(d.nextComponent)).(nextComponent := d.nextComponent + 1);
    assert d.nodes[i].mysqld != d.nodes[j].mysqld;
  }

  /** A node that can start over and join a synced peer: its state file says CLUSTERED, or
      is not found. */
  predicate Joins(n: Node) {
    JoinsSeeing(n, n.file) || (n.flaky && JoinsSeeing(n, Missing))
  }

  predicate JoinsSeeing(n: Node, file: FileView) {
    AfterChoice(n.cfg, file) == Launching(Plan(Join, CLUSTERED))
  }

  lemma {:induction false} JoinPeer(env: Guard, c: Cluster, actions: seq<Action>, d: Cluster, i: nat, peer: nat)
    returns (longer: seq<Action>)
    requires Leads(env, c, actions, d) && i < |d.nodes| && peer < |d.nodes| && peer != i
    requires Joins(d.nodes[i]) && d.nodes[i].mysqld.Down? && d.nodes[peer].mysqld.Synced?
    ensures Leads(env, c, longer, Move(d, i, Waiting(CLUSTERED), d.nodes[peer].mysqld))
  {
    longer := DecideToJoin(env, c, actions, d, i);
    var e := Move(d, i, Launching(Plan(Join, CLUSTERED)), Down);
    longer := LaunchNow(env, c, longer, e, i);
    e := Move(d, i, Waiting(CLUSTERED), Starting(Join));
    longer := JoinSync(env, c, longer, e, i, peer);
    assert Move(e, i, Waiting(CLUSTERED), d.nodes[peer].mysqld) == Move(d, i, Waiting(CLUSTERED), d.nodes[peer].mysqld);
  }

  /** Whatever the node was doing, its start dies and a new one begins. */
  lemma {:induction false} StartOver(env: Guard, c: Cluster, actions: seq<Action>, d: Cluster, i: nat)
    returns (longer: seq<Action>)
    requires Leads(env, c, actions, d) && i < |d.nodes| && d.nodes[i].mysqld.Down?
    ensures Leads(env, c, longer, Move(d, i, Choosing, Down))
  {
    longer := Extend(env, c, actions, d, Action(i, Abort));
    var e := Move(d, i, Idle, Down);
    assert Act(d, Action(i, Abort)) == e;
    longer := Extend(env, c, longer, e, Action(i, Begin(false)));
    assert Act(e, Action(i, Begin(false))) == Move(d, i, Choosing, Down);
  }

  lemma {:induction false} DecideToJoin(env: Guard, c: Cluster, actions: seq<Action>, d: Cluster, i: nat)
    returns (longer: seq<Action>)
    requires Leads(env, c, actions, d) && i < |d.nodes| && Joins(d.nodes[i]) && d.nodes[i].mysqld.Down?
    ensures Leads(env, c, longer, Move(d, i, Launching(Plan(Join, CLUSTERED)), Down))
  {
    longer := StartOver(env, c, actions, d, i);
    var e := Move(d, i, Choosing, Down);
    var choose := Action(i, Choose(!JoinsSeeing(d.nodes[i], d.nodes[i].file)));
    longer := Extend(env, c, longer, e, choose);
    assert Act(e, choose) == Move(d, i, Launching(Plan(Join, CLUSTERED)), Down);
  }

  lemma {:induction false} JoinSync(env: Guard, c: Cluster, actions: seq<Action>, d: Cluster, i: nat, peer: nat)
    returns (longer: seq<Action>)
    requires Leads(env, c, actions, d) && i < |d.nodes| && peer < |d.nodes|
    requires d.nodes[i].mysqld == Starting(Join) && d.nodes[peer].mysqld.Synced?
    ensures Leads(env, c, longer, Move(d, i, d.nodes[i].pc, d.nodes[peer].mysqld))
  {
    var a := Action(i, Sync(d.nodes[peer].mysqld.component));
    longer := Extend(env, c, actions, d, a);
    assert Act(d, a) == Move(d, i, d.nodes[i].pc, d.nodes[peer].mysqld);
  }

  /** The node asked next goes down, is found down, and joins its peer again. */
  lemma {:induction false} Dodge(
    env: Guard, c: Cluster, actions: seq<Action>, d: Cluster, e: nat, asked: nat, peer: nat)
    returns (longer: seq<Action>)
    requires !env.quietProbes && Leads(env, c, actions, d) && Dodgers(d, e, asked, peer)
    requires d.nodes[e].pc.Probing? && d.nodes[e].pc.next < |d.nodes[e].cfg.clusterIps|
    requires d.nodes[e].cfg.clusterIps[d.nodes[e].pc.next] == asked
    ensures Leads(env, c, longer, Move(d, e, Probing(d.nodes[e].pc.next + 1), Down))
  {
    var after := Probing(d.nodes[e].pc.next + 1);
    longer := MissTheNodeAsked(env, c, actions, d, e, asked);
    var d' := Move(Move(d, asked, Waiting(CLUSTERED), Down), e, after, Down);
    longer := JoinPeer(env, c, longer, d', asked, peer);
    assert Move(d', asked, Waiting(CLUSTERED), d.nodes[peer].mysqld) == Move(d, e, after, Down);
  }

  lemma {:induction false} MissTheNodeAsked(
    env: Guard, c: Cluster, actions: seq<Action>, d: Cluster, e: nat, asked: nat)
    returns (longer: seq<Action>)
    requires !env.quietProbes && Leads(env, c, actions, d)
    requires e < |d.nodes| && asked < |d.nodes| && asked != e && d.nodes[asked].pc.Waiting?
    requires d.nodes[e].pc.Probing? && d.nodes[e].pc.next < |d.nodes[e].cfg.clusterIps| && d.nodes[e].mysqld.Down?
    requires d.nodes[e].cfg.clusterIps[d.nodes[e].pc.next] == asked
    ensures Leads(env, c, longer,
      Move(Move(d, asked, d.nodes[asked].pc, Down), e, Probing(d.nodes[e].pc.next + 1), Down))
  {
    longer := Extend(env, c, actions, d, Action(asked, Exit));
    var d' := Move(d, asked, d.nodes[asked].pc, Down);
    assert Act(d, Action(asked, Exit)) == d';
    longer := Extend(env, c, longer, d', Action(e, Probe(false)));
    assert Act(d', Action(e, Probe(false))) == Move(d', e, Probing(d.nodes[e].pc.next + 1), Down);
  }

  /** Two synced nodes `f` and `g` dodge one probe of `e`: whichever is asked is down
      at that moment and joins the other one again. */
  lemma {:induction false} DodgeProbe(env: Guard, c: Cluster, actions: seq<Action>, d: Cluster, e: nat, f: nat, g: nat)
    returns (longer: seq<Action>)
    requires !env.quietProbes && Leads(env, c, actions, d) && Dodgers(d, e, f, g)
    requires d.nodes[e].pc.Probing? && d.nodes[e].pc.next < |d.nodes[e].cfg.clusterIps|
    ensures Leads(env, c, longer, Move(d, e, Probing(d.nodes[e].pc.next + 1), Down))
  {
    var asked := d.nodes[e].cfg.clusterIps[d.nodes[e].pc.next];
    var after := Probing(d.nodes[e].pc.next + 1);
    if asked == f {
      longer := Dodge(env, c, actions, d, e, f, g);
    } else if asked == g {
      longer := Dodge(env, c, actions, d, e, g, f);
    } else {
      longer := Extend(env, c, actions, d, Action(e, Probe(false)));
      assert Act(d, Action(e, Probe(false))) == Move(d, e, after, Down);
    }
  }

  predicate Dodgers(d: Cluster, e: nat, f: nat, g: nat) {
    && e < |d.nodes| && f < |d.nodes| && g < |d.nodes| && e != f && f != g && e != g
    && Joins(d.nodes[f]) && Joins(d.nodes[g])
    && d.nodes[f].pc == d.nodes[g].pc == Waiting(CLUSTERED)
    && d.nodes[f].mysqld.Synced? && d.nodes[g].mysqld == d.nodes[f].mysqld
    && d.nodes[f].mysqld.component < d.nextComponent
    && forall i :: 0 <= i < |d.nodes| && i != f && i != g ==> d.nodes[i].mysqld.Down?
  }

  lemma {:induction false} DodgeProbeAt(
    env: Guard, c: Cluster, actions: seq<Action>, d: Cluster, e: nat, f: nat, g: nat, k: nat)
    returns (longer: seq<Action>)
    requires !env.quietProbes && Dodgers(d, e, f, g) && k < |d.nodes[e].cfg.clusterIps|
    requires Leads(env, c, actions, Move(d, e, Probing(k), Down))
    ensures Leads(env, c, longer, Move(d, e, Probing(k + 1), Down))
  {
    var p := Move(d, e, Probing(k), Down);
    longer := DodgeProbe(env, c, actions, p, e, f, g);
    assert Move(p, e, Probing(k + 1), Down) == Move(d, e, Probing(k + 1), Down);
  }

  /** A node that has decided to bootstrap does so. */
  lemma {:induction false} BootstrapNow(env: Guard, c: Cluster, actions: seq<Action>, d: Cluster, i: nat)
    returns (longer: seq<Action>)
    requires Leads(env, c, actions, d) && i < |d.nodes|
    requires d.nodes[i].pc == Launching(Plan(Bootstrap, CLUSTERED)) && d.nodes[i].mysqld.Down?
    ensures Leads(env, c, longer,
                  Move(d, i, Waiting(CLUSTERED), Synced(d.nextComponent)).(nextComponent := d.nextComponent + 1))
  {
    longer := LaunchNow(env, c, actions, d, i);
    var e := Move(d, i, Waiting(CLUSTERED), Starting(Bootstrap));
    longer := BecomeComponent(env, c, longer, e, i);
    assert Move(e, i, Waiting(CLUSTERED), Synced(d.nextComponent))
        == Move(d, i, Waiting(CLUSTERED), Synced(d.nextComponent));
  }

  lemma {:induction false} CrashNow(env: Guard, c: Cluster, actions: seq<Action>, d: Cluster, i: nat)
    returns (longer: seq<Action>)
    requires Leads(env, c, actions, d) && i < |d.nodes| && (env.quietProbes ==> NobodyProbes(d))
    ensures Leads(env, c, longer, Move(d, i, Idle, Down))
  {
    longer := Extend(env, c, actions, d, Action(i, Abort));
    var e := Move(d, i, Idle, d.nodes[i].mysqld);
    assert Act(d, Action(i, Abort)) == e;
    longer := Extend(env, c, longer, e, Action(i, Exit));
    assert Act(e, Action(i, Exit)) == Move(d, i, Idle, Down);
  }

  /** The bootstrapper creates a component, dies before recording it, and two nodes join. */
  lemma {:induction false} CrashAfterBootstrap(env: Guard, c: Cluster, e: nat, f: nat, g: nat)
    returns (actions: seq<Action>, d: Cluster)
    requires !env.quietProbes && Initial(c) && MayBootstrap(c, e) && f < |c.nodes| && g < |c.nodes|
    requires e != f && f != g && e != g && Joins(c.nodes[f]) && Joins(c.nodes[g])
    ensures Leads(env, c, actions, d) && Dodgers(d, e, f, g)
    ensures MayBootstrap(d, e) && d.nodes[e].pc.Idle?
  {
    assert Leads(env, c, [], c);
    actions := DecideToBootstrap(env, c, [], c, e);
    d := Move(c, e, Launching(Plan(Bootstrap, CLUSTERED)), Down);
    actions := BootstrapNow(env, c, actions, d, e);
    d := Move(d, e, Waiting(CLUSTERED), Synced(d.nextComponent)).(nextComponent := d.nextComponent + 1);
    actions := JoinPeer(env, c, actions, d, f, e);
    d := Move(d, f, Waiting(CLUSTERED), d.nodes[e].mysqld);
    actions := JoinPeer(env, c, actions, d, g, e);
    d := Move(d, g, Waiting(CLUSTERED), d.nodes[e].mysqld);
    actions := CrashNow(env, c, actions, d, e);
    d := Move(d, e, Idle, Down);
  }

  /** The bootstrapper starts again while the two nodes dodge all of its probes. */
  lemma {:induction false} DodgeAllProbes(
    env: Guard, c: Cluster, before: seq<Action>, d: Cluster, e: nat, f: nat, g: nat)
    returns (actions: seq<Action>)
    requires !env.quietProbes && Leads(env, c, before, d) && Dodgers(d, e, f, g)
    requires MayBootstrap(d, e) && d.nodes[e].pc.Idle?
    ensures Leads(env, c, actions, Move(d, e, Launching(Plan(Bootstrap, CLUSTERED)), Down))
  {
    actions := EnterProbing(env, c, before, d, e);
    var n := |d.nodes[e].cfg.clusterIps|;
    for k := 0 to n
      invariant Leads(env, c, actions, Move(d, e, Probing(k), Down))
    {
      actions := DodgeProbeAt(env, c, actions, d, e, f, g, k);
    }
    actions := EndProbing(env, c, actions, Move(d, e, Probing(n), Down), e);
    assert Move(Move(d, e, Probing(n), Down), e, Launching(Plan(Bootstrap, CLUSTERED)), Down)
        == Move(d, e, Launching(Plan(Bootstrap, CLUSTERED)), Down);
  }

  /** If synced nodes may go down during a probe loop, every cluster with a bootstrapper and
      two joining nodes can be split, even if no start finds an earlier mysqld running. */
  lemma {:induction false} ExitsDuringProbesSplit(env: Guard, c: Cluster, e: nat, f: nat, g: nat)
    returns (actions: seq<Action>)
    requires !env.quietProbes && Initial(c) && MayBootstrap(c, e) && f < |c.nodes| && g < |c.nodes|
    requires e != f && f != g && e != g && Joins(c.nodes[f]) && Joins(c.nodes[g])
    ensures ToleratedRun(env, c, actions) && !OneComponent(Run(c, actions))
  {
    var d;
    actions, d := CrashAfterBootstrap(env, c, e, f, g);
    actions := DodgeAllProbes(env, c, actions, d, e, f, g);
    d := Move(d, e, Launching(Plan(Bootstrap, CLUSTERED)), Down);
    actions := BootstrapNow(env, c, actions, d, e);
    assert Run(c, actions).nodes[e].mysqld != Run(c, actions).nodes[f].mysqld;
  }

  // ------------------------------------------- a state file that is not found

  /** A node that has recorded CLUSTERED bootstraps again if it is the bootstrap node and its
      state file is not found: what its file says is no bound on who bootstraps. */
  lemma {:induction false} UnfoundFileRebootstraps(env: Guard, c: Cluster, e: nat) returns (actions: seq<Action>)
    requires Initial(c) && MultiNode(c) && e < |c.nodes|
    requires c.nodes[e].flaky && c.nodes[e].cfg.bootstrapNode && c.nodes[e].file == Contents(CLUSTERED)
    ensures !Eligible(c.nodes[e].cfg, c.nodes[e].file)
    ensures ToleratedRun(env, c, actions) && Run(c, actions).nextComponent == c.nextComponent + 1
  {
    TornRecordDecodes(c.nodes[e].cfg, |CLUSTERED|, false);
    assert CLUSTERED[..|CLUSTERED|] == CLUSTERED;
    assert Leads(env, c, [], c);
    actions := DecideToBootstrap(env, c, [], c, e);
    actions := BootstrapNow(env, c, actions, Move(c, e, Launching(Plan(Bootstrap, CLUSTERED)), Down), e);
  }

  // --------------------------------------------- an address that is missing

  /** The bootstrapper creates a component, `f` joins it, and the bootstrapper dies. */
  lemma {:induction false} LeaveComponentTo(env: Guard, c: Cluster, e: nat, f: nat)
    returns (actions: seq<Action>, d: Cluster)
    requires Initial(c) && MayBootstrap(c, e) && f < |c.nodes| && e != f && Joins(c.nodes[f])
    ensures Leads(env, c, actions, d) && d.nextComponent == c.nextComponent + 1
    ensures d.nodes == c.nodes[f := c.nodes[f].(pc := Waiting(CLUSTERED), mysqld := Synced(c.nextComponent))]
  {
    assert Leads(env, c, [], c);
    actions := DecideToBootstrap(env, c, [], c, e);
    d := Move(c, e, Launching(Plan(Bootstrap, CLUSTERED)), Down);
    actions := BootstrapNow(env, c, actions, d, e);
    d := Move(d, e, Waiting(CLUSTERED), Synced(d.nextComponent)).(nextComponent := d.nextComponent + 1);
    actions := JoinPeer(env, c, actions, d, f, e);
    d := Move(d, f, Waiting(CLUSTERED), d.nodes[e].mysqld);
    actions := CrashNow(env, c, actions, d, e);
    d := Move(d, e, Idle, Down);
  }

  /** A bootstrapper that dies and does not have the address of a node that joined it splits
      the cluster, whatever is assumed. */
  lemma {:induction false} UncoveredSplits(env: Guard, c: Cluster, e: nat, f: nat) returns (actions: seq<Action>)
    requires Initial(c) && MayBootstrap(c, e) && f < |c.nodes| && e != f && Joins(c.nodes[f])
    requires f !in c.nodes[e].cfg.clusterIps
    ensures ToleratedRun(env, c, actions) && !OneComponent(Run(c, actions))
  {
    var d;
    actions, d := LeaveComponentTo(env, c, e, f);
    actions := EnterProbing(env, c, actions, d, e);
    d := Move(d, e, Probing(0), Down);
    actions := ProbeToTheEnd(env, c, actions, d, e);
    d := Move(d, e, Probing(|c.nodes[e].cfg.clusterIps|), Down);
    actions := EndProbing(env, c, actions, d, e);
    d := Move(d, e, Launching(Plan(Bootstrap, CLUSTERED)), Down);
    actions := BootstrapNow(env, c, actions, d, e);
    assert Run(c, actions).nodes[e].mysqld != Run(c, actions).nodes[f].mysqld;
  }

  // ------------------------------------------- a mysqld that was left behind

  /** The bootstrapper dies with its mysqld still starting, starts again and finds nobody. */
  lemma {:induction false} LeaveBehind(env: Guard, c: Cluster, e: nat) returns (actions: seq<Action>)
    requires !env.cleanStarts && Initial(c) && MayBootstrap(c, e)
    ensures Leads(env, c, actions, Move(c, e, Probing(|c.nodes[e].cfg.clusterIps|), Starting(Bootstrap)))
  {
    assert Leads(env, c, [], c);
    actions := DecideToBootstrap(env, c, [], c, e);
    var d := Move(c, e, Launching(Plan(Bootstrap, CLUSTERED)), Down);
    actions := LaunchNow(env, c, actions, d, e);
    d := Move(d, e, Waiting(CLUSTERED), Starting(Bootstrap));
    actions := Extend(env, c, actions, d, Action(e, Abort));
    d := Move(c, e, Idle, Starting(Bootstrap));
    assert Act(Move(c, e, Waiting(CLUSTERED), Starting(Bootstrap)), Action(e, Abort)) == d;
    actions := AskEverybody(env, c, actions, d, e);
  }

  /** What was left behind becomes a component, `f` joins it, and it exits. */
  lemma {:induction false} LeaveToOther(
    env: Guard, c: Cluster, actions: seq<Action>, d: Cluster, e: nat, f: nat)
    returns (longer: seq<Action>, after: Cluster)
    requires Leads(env, c, actions, d) && e < |d.nodes| && f < |d.nodes| && e != f
    requires d.nodes[e].mysqld == Starting(Bootstrap) && Joins(d.nodes[f]) && d.nodes[f].mysqld.Down?
    requires env.quietProbes ==> NobodyProbes(d)
    requires env.leftoversStay ==> !BoundToBootstrap(d.nodes[e])
    ensures Leads(env, c, longer, after) && |after.nodes| == |d.nodes| && after.nextComponent == d.nextComponent + 1
    ensures after.nodes[e] == d.nodes[e].(mysqld := Down)
    ensures after.nodes[f].mysqld == Synced(d.nextComponent)
  {
    longer := BecomeComponent(env, c, actions, d, e);
    after := Move(d, e, d.nodes[e].pc, Synced(d.nextComponent)).(nextComponent := d.nextComponent + 1);
    longer := JoinPeer(env, c, longer, after, f, e);
    after := Move(after, f, Waiting(CLUSTERED), Synced(d.nextComponent));
    longer := Extend(env, c, longer, after, Action(e, Exit));
    after := Act(after, Action(e, Exit));
  }

  /** With a mysqld left behind, a cluster with a bootstrapper and one joining node can be
      split as soon as one of the two assumptions on exits is dropped. */
  lemma {:induction false} LeftoverSplits(env: Guard, c: Cluster, e: nat, f: nat) returns (actions: seq<Action>)
    requires !env.cleanStarts && !(env.quietProbes && env.leftoversStay)
    requires Initial(c) && MayBootstrap(c, e) && f < |c.nodes| && e != f && Joins(c.nodes[f])
    ensures ToleratedRun(env, c, actions) && !OneComponent(Run(c, actions))
  {
    var plan, n := Plan(Bootstrap, CLUSTERED), |c.nodes[e].cfg.clusterIps|;
    actions := LeaveBehind(env, c, e);
    var d := Move(c, e, Probing(n), Starting(Bootstrap));
    if env.quietProbes {
      actions := EndProbing(env, c, actions, d, e);
      d := Move(d, e, Launching(plan), Starting(Bootstrap));
      actions, d := LeaveToOther(env, c, actions, d, e, f);
    } else {
      actions, d := LeaveToOther(env, c, actions, d, e, f);
      actions := EndProbing(env, c, actions, d, e);
      d := Move(d, e, Launching(plan), Down);
    }
    actions := BootstrapNow(env, c, actions, d, e);
    assert Run(c, actions).nodes[e].mysqld != Run(c, actions).nodes[f].mysqld;
  }

  /** In particular, that no synced mysqld goes down during a probe loop is not enough. */
  lemma {:induction false} QuietProbesAreNotEnough(c: Cluster, e: nat, f: nat) returns (actions: seq<Action>)
    requires Initial(c) && MayBootstrap(c, e) && f < |c.nodes| && e != f && Joins(c.nodes[f])
    ensures forall k :: 0 <= k < |actions| ==>
      Truthful(Run(c, actions[..k]), actions[k]) && Accurate(Run(c, actions[..k]), actions[k])
      && (GoesDown(Run(c, actions[..k]), actions[k]) ==> NobodyProbes(Run(c, actions[..k])))
    ensures !OneComponent(Run(c, actions))
  {
    var env := Guard(true, false, false, true);
    actions := LeftoverSplits(env, c, e, f);
    forall k | 0 <= k < |actions|
      ensures Truthful(Run(c, actions[..k]), actions[k]) && Accurate(Run(c, actions[..k]), actions[k])
      ensures GoesDown(Run(c, actions[..k]), actions[k]) ==> NobodyProbes(Run(c, actions[..k]))
    {
      assert Tolerated(env, Run(c, actions[..k]), actions[k]);
    }
  }
}
