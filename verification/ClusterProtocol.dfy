/** Any number of nodes starting, crashing and restarting side by side. Every node runs
    the start procedure of `Execute` and `StartNodeFromState` one observable step at a
    time; an action names a node and the step it takes, and a run is any sequence of
    actions. An action that is not enabled changes nothing. */
module ClusterProtocol {
  import opened Text
  import opened NodeState

  /** mysqld on one node. A data directory admits one server, so a node has one of these. */
  datatype Mysqld = Down | Starting(mode: Mode) | Synced(component: nat)

  /** Where the start procedure of one node stands. */
  datatype Pc =
    | Idle                               // not running
    | Choosing                           // about to read the state file
    | Probing(next: nat)                 // in the health check, about to ask clusterIps[next]
    | Launching(plan: Plan)              // decided, mysqld not launched yet
    | Waiting(record: string)            // polling mysqld and seeding it
    | Writing(record: string)            // about to write the state file
    | Supervising                        // state written, waiting for mysqld to exit

  /** `flaky` nodes are those on which looking for the state file may fail. */
  datatype Node = Node(cfg: Config, file: FileView, flaky: bool, pc: Pc, mysqld: Mysqld)

  /** `nextComponent` names the next component to be created by a bootstrap. */
  datatype Cluster = Cluster(nodes: seq<Node>, nextComponent: nat)

  datatype Step =
    | Begin(stopOld: bool)               // a start begins, stopping a running mysqld or not
    | Choose(statFails: bool)            // the state file is decoded, or not found on a flaky node
    | Probe(healthy: bool)               // one probe is answered, or the loop ends
    | Launch                             // mysqld is launched
    | Sync(component: nat)               // the launched mysqld becomes part of a component
    | Reach                              // the wait loop sees mysqld synced; seeding succeeds
    | Record                             // the state file is written
    | Tear(kept: nat)                    // the write stops early and the start fails
    | Abort                              // the start fails or is killed; mysqld lives on
    | Exit                               // mysqld goes down

  datatype Action = Action(node: nat, step: Step)

  /** A step of the start procedure, or of mysqld, that concerns one node only. */
  function Local(n: Node, step: Step): Node {
    match step
    case Begin(stopOld) =>
      if n.pc.Idle? then n.(pc := Choosing, mysqld := if stopOld then Down else n.mysqld) else n
    case Choose(statFails) =>
      if n.pc.Choosing? then n.(pc := AfterChoice(n.cfg, Seen(n.file, n.flaky && statFails))) else n
    case Probe(healthy) =>
      if n.pc.Probing? then n.(pc := AfterProbe(n.cfg, n.pc.next, healthy)) else n
    case Launch =>
      // a second mysqld on an occupied data directory does not survive; the wait loop
      // may still see the first one
      if n.pc.Launching? then
        n.(pc := Waiting(n.pc.plan.record),
           mysqld := if n.mysqld.Down? then Starting(n.pc.plan.mode) else n.mysqld)
      else n
    case Sync(component) =>
      if n.mysqld.Starting? then n.(mysqld := Synced(component)) else n
    case Reach =>
      if n.pc.Waiting? && n.mysqld.Synced? then n.(pc := Writing(n.pc.record)) else n
    case Record =>
      if n.pc.Writing? then n.(pc := Supervising, file := Contents(n.pc.record)) else n
    case Tear(kept) =>
      if n.pc.Writing? && kept <= |n.pc.record| then
        n.(pc := Idle, file := Contents(n.pc.record[..kept]))
      else n
    case Abort => n.(pc := Idle)
    case Exit => n.(mysqld := Down)
  }

  /** A node in state NEEDS_BOOTSTRAP asks for a healthy cluster before it decides. */
  function AfterChoice(cfg: Config, file: FileView): Pc {
    match CurrentNodeState(cfg, file)
    case ReadError => Idle
    case State(name) =>
      if name == NEEDS_BOOTSTRAP then Probing(0)
      else match PlanFor(name, false)
           case Some(plan) => Launching(plan)
           case None => Idle
  }

  function AfterProbe(cfg: Config, next: nat, healthy: bool): Pc {
    if next >= |cfg.clusterIps| then Launching(Plan(Bootstrap, CLUSTERED))
    else if healthy then Launching(Plan(Join, CLUSTERED))
    else Probing(next + 1)
  }

  function Act(c: Cluster, a: Action): Cluster {
    if a.node >= |c.nodes| then
      c
    else
      var n := c.nodes[a.node];
      if a.step.Sync? && n.mysqld == Starting(Bootstrap) then
        Cluster(c.nodes[a.node := Local(n, Sync(c.nextComponent))], c.nextComponent + 1)
      else
        c.(nodes := c.nodes[a.node := Local(n, a.step)])
  }

  /** The state a run of actions leads to. */
  function Run(c: Cluster, actions: seq<Action>): Cluster {
    if actions == [] then c else Act(Run(c, actions[..|actions| - 1]), actions[|actions| - 1])
  }

  // ------------------------------------------------------------ environment

  predicate IsSynced(c: Cluster, i: nat) {
    i < |c.nodes| && c.nodes[i].mysqld.Synced?
  }

  /** A step by which a synced mysqld goes down: it exits or a new start stops it. */
  predicate GoesDown(c: Cluster, a: Action) {
    IsSynced(c, a.node) && !IsSynced(Act(c, a), a.node)
  }

  /** A probe of a synced node finds it, and joining needs a synced peer. A probe of a node
      that is not synced may be answered either way. */
  predicate Truthful(c: Cluster, a: Action) {
    a.node < |c.nodes| ==>
      var n := c.nodes[a.node];
      match a.step
      case Probe(healthy) =>
        n.pc.Probing? && n.pc.next < |n.cfg.clusterIps| ==>
          (IsSynced(c, n.cfg.clusterIps[n.pc.next]) ==> healthy)
      case Sync(component) =>
        n.mysqld == Starting(Join) ==>
          exists j :: 0 <= j < |c.nodes| && c.nodes[j].mysqld == Synced(component)
      case _ => true
  }

  predicate NobodyProbes(c: Cluster) {
    forall j :: 0 <= j < |c.nodes| ==> !c.nodes[j].pc.Probing?
  }

  /** The node has been through its probe loop and is about to launch a bootstrap. */
  predicate BoundToBootstrap(n: Node) {
    n.pc.Launching? && n.pc.plan.mode == Bootstrap
  }

  /** The environment assumptions: steps are truthful; no synced mysqld goes down during a
      probe loop; and one that an earlier start left behind does not go down on a node that
      is bound to bootstrap. */
  predicate Permitted(c: Cluster, a: Action) {
    Truthful(c, a) && (GoesDown(c, a) ==> NobodyProbes(c) && !BoundToBootstrap(c.nodes[a.node]))
  }

  predicate PermittedRun(c: Cluster, actions: seq<Action>) {
    forall k :: 0 <= k < |actions| ==> Permitted(Run(c, actions[..k]), actions[k])
  }

  /** Nothing runs yet; the configurations and the state files are arbitrary. */
  predicate Initial(c: Cluster) {
    forall i :: 0 <= i < |c.nodes| ==> c.nodes[i].pc.Idle? && c.nodes[i].mysqld.Down?
  }

  predicate MultiNode(c: Cluster) {
    forall i :: 0 <= i < |c.nodes| ==> |c.nodes[i].cfg.clusterIps| > 1
  }

  /** Any configurations and any state files may be there at the outset. */
  lemma {:induction false} AnythingAtTheOutset(cfgs: seq<Config>, files: seq<FileView>, flaky: seq<bool>)
    requires |files| == |flaky| == |cfgs|
    ensures var nodes := seq(|cfgs|, i requires 0 <= i < |cfgs| => Node(cfgs[i], files[i], flaky[i], Idle, Down));
      var c := Cluster(nodes, 0);
      Initial(c) && ((forall i :: 0 <= i < |cfgs| ==> |cfgs[i].clusterIps| >= 2) ==> MultiNode(c))
  {
  }

  /** The next start of the node may bootstrap: by its state file, or because the file is
      not found on a flaky node. */
  predicate CanBootstrap(n: Node) {
    Eligible(n.cfg, n.file) || (n.flaky && Eligible(n.cfg, Missing))
  }

  predicate MayBootstrap(c: Cluster, i: nat) {
    i < |c.nodes| && CanBootstrap(c.nodes[i])
  }

  /** The state file of the node leads to a start, or it is not found on a flaky node. */
  predicate CanStart(n: Node) {
    n.flaky || !AfterChoice(n.cfg, n.file).Idle?
  }

  /** A node that is down and cannot start. */
  predicate Refuses(n: Node) {
    !CanStart(n) && (n.pc.Idle? || n.pc.Choosing?) && n.mysqld.Down?
  }

  /** A node that may bootstrap has the addresses of all other nodes that do not refuse. */
  ghost predicate Covering(c: Cluster) {
    forall i: nat, j: nat :: MayBootstrap(c, i) && j < |c.nodes| && j != i && !Refuses(c.nodes[j]) ==>
      j in c.nodes[i].cfg.clusterIps
  }

  ghost predicate AtMostOneMayBootstrap(c: Cluster) {
    forall i: nat, j: nat :: MayBootstrap(c, i) && MayBootstrap(c, j) ==> i == j
  }

  predicate OneComponent(c: Cluster) {
    forall i, j :: 0 <= i < |c.nodes| && 0 <= j < |c.nodes|
      && c.nodes[i].mysqld.Synced? && c.nodes[j].mysqld.Synced?
      ==> c.nodes[i].mysqld.component == c.nodes[j].mysqld.component
  }

  /** A mysqld that is creating a component has no synced node beside it. */
  predicate BootstrapsAlone(c: Cluster) {
    forall i, j :: 0 <= i < |c.nodes| && 0 <= j < |c.nodes| && c.nodes[i].mysqld == Starting(Bootstrap)
      ==> !c.nodes[j].mysqld.Synced?
  }
}
