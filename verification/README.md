# Verified model of galera-init

galera-init runs on every start of a MySQL/Galera node. It decides from the node's
configuration and a state file whether the node bootstraps a new cluster or joins one,
upgrades `mysqld` if its version changed, launches and supervises it, seeds databases and
users, and records the outcome in the state file for the next start.

This project models that behaviour in Dafny and proves what it keeps. Verify it with

    dafny verify dfyconfig.toml

## How the project is laid out

- `Text.dfy`: white-space trimming and the `safe_to_bootstrap` rewrite, as the scans the
  program performs, against position-by-position specifications.
- `NodeState.dfy`: the decision from configuration and state file (`NodeState`), and what the
  state file remembers over any history of starts of one node (`History`).
- `HealthCheck.dfy`: the probe loop.
- `ClusterProtocol.dfy`, `ClusterSafety.dfy`, `ClusterWitness.dfy`, `ClusterExactness.dfy`: any
  number of nodes starting, failing, dying and restarting side by side. A node takes its
  start one observable step at a time; an action names a node and a step; a run is any
  sequence of actions. State file writes may stop after any number of characters, looking
  for the file may fail on nodes marked as flaky, which the program takes for a missing
  file, and a start may die and leave its `mysqld` running. `ClusterWitness` builds runs that split a
  cluster when an assumption is dropped; `ClusterExactness` says for every choice of
  assumptions exactly which clusters are safe, and which exits are.
- `AccountDatabase.dfy`, `Seeding.dfy`, `LastWriters.dfy`, `SeedingOutcome.dfy`,
  `SeedingRetry.dfy`: an account database, the SQL statements that change it, the seeding
  procedures as methods that stop at the first error, the database of the last writers,
  exactly when seeding completes and leaves it, and convergence after interruptions.
  A connection may fail after any number of statements and may lose the row of a query.
- `PostStart.dfy`: execution of the configured SQL files.
- `Trace.dfy`: the events of one start, an automaton for their order, and what follows for
  every trace it accepts.
- `Upgrader.dfy`, `StartManager.dfy`: reachability, both polling loops, the upgrade, and
  `Execute` as methods that update the files, the command and the database of a node.
- `ExitChannel.dfy`: the one-slot channel that carries the exit of `mysqld`, under every
  interleaving with the code that launched it. `ExitOracle.dfy`: the polling rounds and
  endings over which `Execute` is stated are exactly those the channel can produce, and
  what `Execute` returns is what the channel comes to.

## Environment of the cluster theorem

`ClusterSafety.AllSyncedNodesShareOneComponent` is about every cluster of nodes with
multi-node configurations in which at most one node may bootstrap at the outset, and that
node has the addresses of all other nodes that can start. A node may bootstrap if its state
file says so, or if it is the bootstrap node and looking for the file may fail. The
assumptions are guards on actions (`ClusterProtocol.Permitted`):

1. a probe of a synced node finds it, and joining needs a synced peer; a node that is not
   synced may be found healthy by mistake;
2. no synced `mysqld` goes down during a probe loop;
3. a `mysqld` left behind by an earlier start, and synced in the meantime, does not go down
   on a node that has been through its probe loop and is about to launch a bootstrap.

Outside these two intervals, and in particular while nodes are about to launch a join,
nodes go down freely.

Guards 1 and 2 alone are not enough: `ClusterWitness.QuietProbesAreNotEnough` splits any
cluster with a bootstrapper and a joining node. The bootstrapper dies with `mysqld` still
starting, starts again (a starting `mysqld` does not answer the check for a running one,
so nothing stops it) and finds nobody; then what was left behind becomes synced, a node
joins it, it exits, and the bootstrapper launches a second component.

`ClusterExactness.OneComponentExactlyWhen` settles every combination of guard 2, guard 3,
clean starts (no start leaves an earlier `mysqld` running) and accurate probes (nobody is
found healthy by mistake). All runs stay in one component if and only if

| assumed besides guard 1 | condition on the cluster |
|---|---|
| guard 2 with guard 3 or clean starts | at most one node may bootstrap, and it has the addresses of all others that can start |
| clean starts without guard 2 | that, and there are not two others that can start |
| anything less | no node that may bootstrap has another beside it that can start |

Accurate probes make no difference. `ClusterExactness.ExitIsSafeExactlyWhen` gives the
weakest guard on exits: at any point of a run a synced `mysqld` can go down without a later
split if and only if no node on its way to a bootstrap is left with other nodes synced and
none of them still to be asked.

## Model

| member | source | states |
|---|---|---|
| Text.SpaceIsOneOf | start_manager/start_manager.go:180 | the white space that is trimmed is these twenty-five code points, six of them ASCII, and no other |
| Text.TrimSpace | start_manager/start_manager.go:175-183 | the two scans return the stripped middle of the text, equal to `Trim` |
| Text.TrimIsTheStrippedMiddle | start_manager/start_manager.go:180 | a middle with only white space around it and none at its ends is unique and is the trimmed text |
| Text.TrimIdempotent | start_manager/start_manager.go:180 | trimming twice is trimming once |
| Text.TrimIgnoresPadding | start_manager/start_manager.go:180 | any white space put around a text is trimmed away |
| Text.ReplaceFlag | start_manager/node_starter/starter.go:115-118 | the greedy left-to-right replacement changes position `k` exactly if the twenty characters up to it are `safe_to_bootstrap: 0`, and then to `1`, and keeps the length |
| Text.FlagsDoNotOverlap | start_manager/node_starter/starter.go:117 | two occurrences of the flag never overlap, in any text |
| Text.FlagIsMadeSafe | start_manager/node_starter/starter.go:117 | a flag between any two texts becomes `safe_to_bootstrap: 1`, and the texts around it are rewritten as if they stood alone |
| Text.RewriteLeavesNoUnsafeFlag | start_manager/node_starter/starter.go:117 | the rewritten text is not of the form anything, `safe_to_bootstrap: 0`, anything |
| Text.RewriteMakesExactlyTheseSafe | start_manager/node_starter/starter.go:117 | at each position a safe flag stands afterwards if and only if a safe or an unsafe one stood there before |
| Text.RewriteIdempotent | start_manager/node_starter/starter.go:117 | rewriting a second time changes nothing |
| NodeState.PaddedStateDecodes | start_manager/start_manager.go:145-183 | each of the three words, however padded, decodes to itself, `SINGLE_NODE` to `NEEDS_BOOTSTRAP` under a multi-node configuration |
| NodeState.EditedStateDecodes | start_manager/start_manager.go:175-183 | a file with blanks and line ends around `CLUSTERED` decodes to it |
| NodeState.DecisionTable | start_manager/node_starter/starter.go:62-78 | for several nodes, how each file leads to a bootstrap or a join, and that `CLUSTERED` is recorded |
| NodeState.SingleNodeBootstraps | start_manager/start_manager.go:145-150 | a single node bootstraps and records `SINGLE_NODE` whatever its file says |
| NodeState.StartRefusedExactlyWhen | start_manager/start_manager.go:145-183 | a start is refused exactly if a multi-node configuration meets an unreadable file or a stripped text that is no known state |
| NodeState.TornRecordDecodes | start_manager/start_manager.go:145-173 | no prefix of CLUSTERED makes the node eligible to bootstrap, and only the whole word leads to a start |
| History.FileRemembersLastRecorded | start_manager/start_manager.go:101-109 | over every history of starts, whether they find the file or not, the file is missing until one is recorded and then holds the state given by the size of the last recorded start |
| History.BootstrapsExactlyWhen | start_manager/node_starter/starter.go:62-78 | the exact condition, on the history alone, for the next start to bootstrap |
| History.NoRebootstrap | start_manager/start_manager.go:145-173 | a node that recorded CLUSTERED bootstraps in a cluster again only after a recorded single-node start in between, or if it is the bootstrap node and looking for its state file fails |
| HealthCheck.HealthyCluster | cluster_health_checker/cluster_health_checker.go:34-55 | healthy exactly if some address answers with status 200; addresses are asked in order up to the first such one |
| ClusterProtocol.AnythingAtTheOutset | start_manager/start_manager.go:145-173 | the cluster theorems start from any configurations and any state files |
| ClusterSafety.LocalKeepsNodeInvariant | start_manager/node_starter/starter.go:57-107 | each step of one node keeps: only CLUSTERED is recorded, whoever is on the way to a bootstrap may still bootstrap, a completed record ends that unless the file may go unfound |
| ClusterSafety.EligibilityOnlyShrinks | start_manager/start_manager.go:94-109 | over any run in any environment, with failures, torn writes and unfound state files anywhere, no node becomes one that may bootstrap |
| ClusterSafety.NoComponentAfterLastEligible | start_manager/node_starter/starter.go:62-78 | once no node may bootstrap, no new component is created in any continuation |
| ClusterSafety.RefusesForever | start_manager/start_manager.go:145-173 | a node that is down with a state file that is found and leads to no start never launches `mysqld` again and keeps that file, over any run |
| ClusterSafety.TornWriteLeavesPrefix | os_helper/os_helper.go:75-78 | a write that stops early leaves that prefix of `CLUSTERED`, and with `mysqld` down the node then refuses to start |
| ClusterSafety.TornWriteWedgesNode | os_helper/os_helper.go:75-78 | in any run that tears the write of a node whose `mysqld` then goes down, the node is down with the torn file after every continuation |
| ClusterSafety.GoesDownExactlyWhen | start_manager/start_manager.go:70-74 | a synced `mysqld` goes down by its exit or by a new start that stops it, and by no other step |
| ClusterSafety.RecordedOnlyIfSynced | start_manager/start_manager.go:101-109 | in any run, a node whose state file has changed or is about to be written has been synced |
| ClusterSafety.ProbesDecideLikeHealthyCluster | cluster_health_checker/cluster_health_checker.go:38-54 | stepping through the probes launches a join exactly if some answer is healthy, otherwise a bootstrap |
| ClusterSafety.UndisturbedStartAgreesWithHistory | start_manager/start_manager.go:94-109 | the protocol steps of one start, taken without interruption, record what a start in `History` records and end supervising a synced node |
| ClusterSafety.ActKeepsCluster | start_manager/node_starter/starter.go:62-78 | every truthful action that misleads no bootstrapper by an exit keeps the cluster invariant |
| ClusterSafety.OneComponentUnlessMisled | start_manager/node_starter/starter.go:62-78 | in every state of every such run all synced nodes are in one component and a bootstrapping `mysqld` has no synced node beside it |
| ClusterSafety.AllSyncedNodesShareOneComponent | start_manager/node_starter/starter.go:62-78 | the same in every state of every run in which probes find synced nodes and no synced `mysqld` goes down during a probe loop, nor a leftover under a node about to bootstrap |
| ClusterWitness.QuietProbesAreNotEnough | start_manager/node_starter/starter.go:62-78 | a run with accurate probes and no exit during a probe loop that splits any cluster with a bootstrapper and a joining node |
| ClusterWitness.LeftoverSplits | start_manager/node_starter/starter.go:62-78 | such a run exists whenever either guard on exits is dropped and starts need not be clean |
| ClusterWitness.UncoveredSplits | cluster_health_checker/cluster_health_checker.go:34-55 | a bootstrapper that lacks the address of a joining node can split the cluster, whatever is assumed |
| ClusterWitness.UnfoundFileRebootstraps | os_helper/os_helper.go:60-63 | a bootstrap node that has recorded CLUSTERED creates a component again if looking for its state file fails |
| ClusterExactness.OneComponentExactlyWhen | start_manager/start_manager.go:145-173 | for each of the sixteen choices of assumptions, all runs stay in one component if and only if the cluster meets the stated condition at the outset |
| ClusterExactness.ExitIsSafeExactlyWhen | cluster_health_checker/cluster_health_checker.go:34-55 | at any point of a harmless run, an exit can never be followed by a split if and only if it misleads no bootstrapper |
| ClusterWitness.ExitsDuringProbesSplit | cluster_health_checker/cluster_health_checker.go:38-54 | if synced nodes may go down during the probe loop, any cluster with a bootstrapper and two joining nodes has a run that splits it, with accurate probes and clean starts |
| AccountDatabase.UnknownUserIsRejected | db_helper/seeder/seeder.go:60-116 | for a user that does not exist the server takes the statements that create users and rejects every other one |
| AccountDatabase.ExistingUserIsKept | db_helper/user_seeder.go:47-57 | `CREATE USER IF NOT EXISTS` always succeeds and leaves an existing user alone |
| Seeding.DbHelper.CreateDBIfNeeded | db_helper/seeder/seeder.go:37-44 | fails only with the connection and then changes nothing; otherwise the database is there afterwards beside the old ones; accounts and grants stay |
| Seeding.DbHelper.IsExistingUser | db_helper/seeder/seeder.go:46-58 | found means that some account has the name, under any host; not found means that none has, unless the row was lost, which the source takes for an unknown user; the database stays |
| Seeding.DbHelper.GrantUserPrivileges | db_helper/seeder/seeder.go:89-116 | grant, then revoke, stopping at the first error; after success the user at `%` has exactly the seventeen listed privileges on the database of the entry; other grants, accounts and databases stay |
| Seeding.DbHelper.SeedDatabase | db_helper/db_helper.go:209-234 | one entry, stopping at the first error, equals the specification that sends nothing after an error |
| Seeding.DbHelper.Seed | db_helper/db_helper.go:194-241 | the loop over all entries, with the skipped, unopenable and failing cases, equals its specification |
| Seeding.DbHelper.SeedUser | db_helper/user_seeder.go:28-82 | role and host are checked before anything is sent, then three statements |
| Seeding.DbHelper.SeedUsers | db_helper/db_helper.go:243-274 | the loop over all users equals its specification |
| SeedingOutcome.SeedExact | db_helper/db_helper.go:194-241 | over any connection, with any rows lost, `Seed` succeeds if and only if it opens, stays up for five statements an entry and the flush, and each entry passes: with its row lost, its user is not at `%` yet; otherwise its name is unused or at `%` already; the whole session afterwards |
| SeedingOutcome.PassableWithoutLoss | db_helper/seeder/seeder.go:46-87 | with no row lost, all entries pass if and only if every name in use beforehand is in use at `%`, repeated users included |
| SeedingOutcome.SeedSucceedsExactlyWhen | db_helper/db_helper.go:209-234 | `Seed` over a reliable connection succeeds if and only if every preseeded name in use under some host is in use at host `%` |
| SeedingOutcome.SeedablePreserved | db_helper/db_helper.go:209-234 | seeding some entries does not change whether another one can be seeded |
| SeedingOutcome.SeedBothOutcome | start_manager/node_starter/starter.go:91-99 | both stages succeed if and only if the databases can be seeded and all users are valid, and leave exactly the database of the last writers |
| SeedingOutcome.SeedBothExact | start_manager/node_starter/starter.go:91-99 | the exact condition for both stages to succeed over any connection, with any rows lost, and the whole session they leave |
| SeedingOutcome.SuccessLeavesSeeded | start_manager/node_starter/starter.go:91-99 | whatever the connection did, a seeding that reports success has left exactly the database of the last writers |
| SeedingOutcome.LostRowLetsThrough | db_helper/seeder/seeder.go:46-58 | a lost row makes a seeding succeed that fails otherwise |
| SeedingOutcome.LostRowBlocks | db_helper/seeder/seeder.go:46-58 | a lost row makes a seeding fail that succeeds otherwise |
| SeedingOutcome.PasswordIsThatOfLastWriter | db_helper/db_helper.go:258-271 | a seeded user and host has the password of its last entry, a preseeded user at `%` that of its last database unless a seeded user at host `any` has its name |
| SeedingOutcome.PrivilegesAreThoseOfLastRole | db_helper/user_seeder.go:71-104 | the last entry for a user and host decides: every global privilege for `admin`, none for `minimal` |
| SeedingOutcome.GrantOptionIsSticky | db_helper/user_seeder.go:84-91 | afterwards an account has the grant option exactly if it had it or any entry made it admin |
| SeedingOutcome.MinimalKeepsGrantOption | db_helper/user_seeder.go:84-91 | a concrete seeding after which a `minimal` user has no privileges but the grant option |
| SeedingOutcome.SeedingFrames | db_helper/seeder/seeder.go:89-116 | each preseeded database exists and its user at `%` has exactly the listed privileges on it; databases, grants and accounts that no entry names are unchanged |
| Seeding.ValidUser | db_helper/user_seeder.go:84-104 | an entry is valid exactly if its role is `admin` or `minimal` and its host `localhost`, `loopback` or `any` |
| SeedingOutcome.InvalidUserStopsCleanly | db_helper/user_seeder.go:28-45 | the first role or host outside these stops `SeedUsers` with the effect of the entries before it, whatever the connection |
| SeedingOutcome.SuccessMeansAllValid | db_helper/db_helper.go:258-273 | success means that every entry had a valid role and host, whatever the connection |
| SeedingRetry.PartWayLeadsToSame | db_helper/db_helper.go:194-274 | completing the seeding from any database it may have stopped in gives the same final database |
| SeedingRetry.SeedBothStaysPartWay | db_helper/db_helper.go:194-274 | wherever an attempt is cut off, the database is such a stopping point |
| SeedingRetry.AttemptGoesOn | db_helper/db_helper.go:194-274 | each attempt starts from the database the ones before it left, over its own connection |
| SeedingRetry.AnySuccessConverges | db_helper/db_helper.go:194-274 | after any number of attempts cut off anywhere and losing any rows, an attempt that reports success has left the database of the last writers on top of the original one |
| SeedingRetry.RetryConverges | db_helper/db_helper.go:194-274 | after such attempts an undisturbed one succeeds and ends in the database the original one would have ended in, if that one would have succeeded |
| PostStart.ReadableFilesAreAll | db_helper/db_helper.go:296-302 | the readable files are those at an increasing list of positions that holds every readable file |
| PostStart.RunPostStartSQL | db_helper/db_helper.go:285-310 | what is executed is the readable files in order up to and including the first rejected one; success exactly if the connection opens and every readable file is accepted |
| Trace.AtMostOnce | start_manager/start_manager.go:66-143 | in every accepted trace each launch, the write, the status server start and SIGTERM happen at most once |
| Trace.NodeStartAfterUpgradeExit | start_manager/start_manager.go:76-104 | a node start after an upgrade start has the nil exit of the upgrade `mysqld` in between |
| Trace.StopsAndUpgradesFirst | start_manager/start_manager.go:70-92 | only stops of an old `mysqld` come before such a stop or before an upgrade start |
| Trace.UpgradeInOrder | upgrader/upgrader.go:57-99 | the upgrade script follows a successful poll, the stop the script, and the exit the stop |
| Trace.WriteComesLast | start_manager/node_starter/starter.go:79-106 | the write is directly preceded by a successful poll, seeding of databases and users, and post-start SQL, in that order, after a launch |
| Trace.ServesOnlyWhatIsRecorded | start_manager/start_manager.go:106-127 | the status server follows a successful write, SIGTERM follows the status server |
| Trace.CleanFinish | start_manager/start_manager.go:106-142 | a trace that ends in a nil exit has the successful write and the status server start before it |
| Upgrader.WaitUntilMySQLReachable | upgrader/upgrader.go:102-125 | succeeds exactly if one of the first attempts is reachable; polls at most the limit, one pause per failed poll, total pause within limit times delay |
| Upgrader.RunScriptAndStop | upgrader/upgrader.go:61-99 | the stop is issued whatever the script did; an exit error comes before a script error |
| Upgrader.PhrasesAreAccepted | upgrader/upgrader.go:65-66 | script output with one of the three phrases is accepted, whatever stands around it |
| Upgrader.Upgrade | upgrader/upgrader.go:48-100 | the exact condition for success with thirty polls ten seconds apart and the three accepted phrases, the exact error otherwise, script exactly if reachable in time, no node start in its trace |
| Upgrader.IsDatabaseReachable | db_helper/db_helper.go:154-192 | reachable exactly if the connection opens and the provider is absent or `none`, or the local state is `Synced` |
| Upgrader.NeedsUpgrade | upgrader/upgrader.go:131-182 | the check fails exactly if there was an upgrade before and a version cannot be read; no upgrade is reported only from two readable versions |
| Upgrader.VersionPaddingIsIgnored | upgrader/upgrader.go:131-182 | the upgrade check ignores white space around either version and finds nothing to do exactly if the stripped versions agree |
| StartManager.WaitForDatabaseToAcceptConnections | start_manager/node_starter/starter.go:150-171 | terminates by the round that settles it, pausing five seconds after each other one; succeeds exactly if a round finds the database reachable and no round so far an exit; with Galera on that means Synced |
| StartManager.Node.BootstrapNode | start_manager/node_starter/starter.go:113-133 | a readable grastate file is rewritten before the launch; exact success condition |
| StartManager.Node.JoinCluster | start_manager/node_starter/starter.go:135-148 | launches in join mode and leaves the files alone |
| StartManager.Node.StartNodeFromState | start_manager/node_starter/starter.go:57-107 | follows the plan of the state, exact conditions for launch and success, the error of the first stage that fails, database and grastate afterwards |
| StartManager.Node.WriteStringToFile | os_helper/os_helper.go:75-78 | a complete write leaves the text, one cut short a prefix that refuses the next start, one that does not open the file the old contents |
| StartManager.Node.Execute | start_manager/start_manager.go:66-143 | accepted trace; exact conditions for the stop of an old `mysqld`, upgrade start, launch, write, SIGTERM and nil result; the exact outcome of every execution that launches `mysqld`; state file, torn or not, and account database afterwards; agreement with `History.After` |
| ExitChannel.SendNeverBlocks | os_helper/os_helper.go:52-58 | in every interleaving the goroutine's send finds room |
| ExitChannel.ExitMessageIsConserved | start_manager/start_manager.go:118-142 | the message is in exactly one place and consumed at most once, by the startup loop only if the start then fails; a returned exit is the exit of `mysqld` |
| ExitChannel.ReceivesAfterCancel | start_manager/start_manager.go:124-137 | a node start waits for the message alone only after a cancellation; an upgrade never looks at the channel before its work is done |
| ExitChannel.UpgradeReturns | upgrader/upgrader.go:55-99 | an upgrade that has done its work returns the exit it receives, one that has not returns without it |
| ExitChannel.MessageIsNotLost | start_manager/node_starter/starter.go:150-171 | while the launcher runs and `mysqld` has exited, the goroutine alone can bring the message into the channel |
| ExitChannel.ReturnsOnceMessageIsThere | start_manager/start_manager.go:118-142 | with the message in the channel the launcher always has a step, and each step brings it closer to returning |
| ExitChannel.AtMostFiveStepsAfterExit | start_manager/start_manager.go:118-142 | after the message is sent the launcher takes at most five more steps |
| ExitOracle.ChannelIsAccountedFor | start_manager/start_manager.go:118-142 | every interleaving of the channel in which the start returns comes to the result that goes with the observed rounds and an ending that is a cancellation exactly if SIGTERM was sent |
| ExitOracle.AccountHasChannel | start_manager/node_starter/starter.go:150-171 | conversely, for all rounds and endings some interleaving goes through rounds with the same exits that settle at the same point, and comes to that result |
| ExitOracle.VerdictCorresponds | start_manager/start_manager.go:99-142 | the outcome of `Execute` after a launch is, error by error, the result of the channel for its rounds and ending |
| ExitOracle.ExecuteOverChannel | start_manager/start_manager.go:66-143 | each execution that launches `mysqld` has an interleaving of the channel with its rounds, its SIGTERM and its outcome |

## Left out

- Configuration loading and validation, command-line wiring, signal delivery and exit codes: the model starts from a valid configuration, and cancellation is an event.
- HTTP, process spawning, log files, file permissions and time: only outcomes (an answer, a launch that succeeds or not, a write that is complete or cut short, a number of pauses).
- SQL text, quoting and connection strings: statements are structured values.
- MySQL beyond the account statements sent: no wildcard database names in grants, no authentication plugins, no replication of accounts; `FLUSH PRIVILEGES` changes nothing; `REVOKE ALL PRIVILEGES ON *.*` leaves the grant option and the grants on single databases alone.
- The effect of post-start SQL on accounts: the seeding results hold at the point just before it runs.
- What happens to a `mysqld` whose start failed: error paths return without stopping it, so in the cluster it lives on, and within one start only what that start launches and observes is stated.
- Network partitions and components merging: a component comes only from a bootstrap and is left only by going down.
- The upgrade in the cluster protocol: it runs with Galera off, before the state file is read, so it is part of `StartManager` only.
- Invalid UTF-8 in state, version and grastate files: texts are sequences of code points.
- StartManager.WaitForDatabaseToAcceptConnections: requires that some round finds `mysqld` exited or reachable; without it the loop in the source need not end.
- StartManager.Node.Execute: inherits that requirement, and assumes that `mysqld` exits once it has been stopped or signalled, since the source then blocks on its exit.
- The nil-channel check after a launch (`starter.go` line 82): the wait for a command always returns a channel.
- Some comments in `os_helper/os_helper.go` speak of a panic on errors where the code returns them; the model follows the code. A failed stop of `mysqld` is logged as fatal, which does panic, and is modelled as such.
