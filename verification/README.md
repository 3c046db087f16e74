# Verification of the PostgreSQL charm library's distributed protocols

A Dafny model of the parts of `single_kernel_postgresql` in which units of an application, or two
applications, coordinate through Juju databags, with proofs of what those protocols keep and where
they do not. `dafny verify dfyconfig.toml` checks all of it.

Code that changes databags step by step is a class whose methods have the loops and early returns of
the source and are proved equal to a specification function on the whole state. Runs, invariants and
liveness are proved about those functions, over every order of hooks. What one hook or request comes to
is also stated apart from the order of its steps, key by key and from what it finds (`RaftHooks`,
`AsyncEvents`, `OfferAnswers`, `SubscriptionAnswers`), and proved to be what the function computes.

A databag value of `""` is an absent key. Unless said otherwise a hook that raises commits no databag
write but keeps what it did to its machine or to PostgreSQL. Calls to Patroni, raft, PostgreSQL, S3
and the workload are parameters: each may succeed, time out or fail, and the proofs hold for every
combination of answers.

## What is modelled

**Recovery from a lost raft majority** (`RaftModel`, `RaftManager`, `RaftSafety`,
`RaftHooks`, `RaftProgress`).
Any number of units run one guarded hook at a time while leadership moves freely; each sees the unit
databags and the application databag only. Besides the databags the state says of every machine
whether Patroni runs and whether its raft journal is there. A timeout is caught by the handlers
(`events/postgresql.py:427-433`, `1438-1443`), so the databag writes made before it commit; any other
failure discards them. Proved: a unit reinitialises raft only over a stopped and wiped cluster, at
most one does, the phases come in order, and an exact account of progress. A `raft_candidate` that is
forced on a unit already stopped, or anywhere after `raft_rejoin` is published, is never popped; the
recovery ends in every fair run exactly if that does not happen. So the hypothesis is wider than
"not on a stopped unit". `unwedge_stale_recovery` may fire at any time with any answer about quorum.

**Asynchronous replication** (`AsyncCounters`, `AsyncBarrier`, `AsyncManager`, `AsyncEvents`,
`AsyncProgress`).
The counters decide which of two clusters is primary; the barrier turns a demoted cluster into a
standby. The barrier is modelled for one promotion with a fixed leader and no stop marker left over
at its start, on both substrates, for every order and repetition of events, each of which may raise
after any of its stages. Patroni is taken to report a running standby leader only after the leader
unit has started its standby database, and only new units join during the promotion.

**Logical replication** (`LogicalChains`, `LogicalGraph`, `LogicalRequests`, `OfferModel`,
`OfferProperties`, `OfferAnswers`, `OfferManager`, `OfferRuns`, `SubscriptionModel`, `SubscriptionProperties`,
`SubscriptionAnswers`, `SubscriptionManager`, `SubscriptionLeftover`, `Slots`). For each database and table the published chains are meant to be the
paths of a graph of applications. While they are, the checks of accepted publications keep the graph
acyclic; chains go stale exactly when the upstream of a table changes above an application it is
offered to, and then three applications are enough for a cycle that both checks accept. Identities are taken to be stamped on
both sides, and no application is related to itself.

**Supporting machines**: the members list and its raft clean-up (`Membership`), the Kubernetes
endpoints (`MembershipK8s`), S3 initialisation between primary and leader (`S3Markers`, `S3Progress`, `S3Manager`),
the prefix mapping (`PrefixMapping`, `DatabaseManager`), the synchronous node count (`SyncCount`) and
the memo of the cluster status (`StatusMemo`).

## Where the code falls short

Each of these is a lemma about the code as it is; most stand beside a lemma that says exactly when
the code does what it should.

- A promotion forced late wedges the raft recovery for good (`RaftProgress.OnlyLateForcingWedges`,
  `RaftProgress.RecoversUnlessForcedLate`, `RaftProgress.AskingTwiceWedges`).
- A unit that joins a VM application while it is being demoted follows at once and never publishes a
  stop marker, so the promoted cluster, once related to it, waits for ever
  (`AsyncProgress.TheGateOpensExactly`; `managers/async_replication.py:779-790` against
  `events/async_replication.py:238-256`).
- Stale chains admit a replication cycle (`LogicalGraph.StaleChainsCloseACycle`,
  `LogicalGraph.ExactnessSurvivesExactlySettledSteps`,
  `LogicalGraph.AcceptedStepsCloseCyclesExactlyOffTheChain`). The docstring at
  `managers/logical_replication.py:636-638` admits that chains go stale.
- Until a mutual subscription is recorded the publisher's direct check goes by its own request and
  misses, or refuses, what the graph would not (`LogicalGraph.DirectCheckIsExactOnceRecorded`,
  `LogicalGraph.UnrecordedMutualSubscriptionsPass`).
- A requested table name without exactly one dot raises in the publisher's hook, which takes back the
  databag writes but not the publications made before; they then conflict with themselves
  (`OfferProperties.RaisesExactly`, `OfferProperties.RaisingKeepsAgreementExactly`,
  `OfferProperties.UnrecordedPublicationsConflict`).
- `subscription_table_set` (`utils/postgresql.py:1259-1275`) looks the subscription's publications up
  among those of the database it is connected to, which is the subscriber's. Where the subscriber
  publishes nothing under that name the set is empty, so a table that is already replicated and holds
  rows blocks every refresh, which the docstring at `managers/logical_replication.py:859-871` means
  to allow: a run to the end is one that meets no such table
  (`SubscriptionProperties.RefreshesAskForEmptyTables`,
  `SubscriptionProperties.RunsStopExactlyOnFullTables`,
  `SubscriptionLeftover.RefreshesOfFullTablesAreBlocked`). It also answers for subscriptions
  of other databases, which needs a publication made by hand to matter
  (`SubscriptionProperties.DatabasesReportTheirOwn`,
  `SubscriptionProperties.BorrowedNamesSilenceTheGuard`).
- A retry drops subscriptions but not their baseline, which later vouches for tables nobody
  replicates (`SubscriptionProperties.RetryKeepsCoverageExactly`,
  `SubscriptionLeftover.RetriesSilenceTheGuard`).
- A blocked refresh returns before the new subscriptions are recorded, and a malformed configuration
  raises after subscriptions were dropped
  (`SubscriptionProperties.BlockedRefreshesKeepMatchesExactly`,
  `SubscriptionProperties.MalformedConfigurationsKeepMatchesExactly`,
  `SubscriptionProperties.UnrecordedSubscriptionsRaise`).
- A done marker left on a unit closes a new S3 round with an old outcome
  (`S3Markers.RoundsCloseAtOnceExactlyOnLeftovers`).
- An empty answer of the endpoints is stored in the status memo but never served; every call fetches
  again (`StatusMemo.FreshFetchesAreServed` asks for a non-empty one).

## Model

| member | source | states |
|---|---|---|
| RaftModel.FirstCandidate | single_kernel_postgresql/managers/cluster_membership.py:427-434 | the first unit, in the order visited, that asked to take over; none only if no unit did |
| RaftModel.AddAddresses | single_kernel_postgresql/managers/cluster_membership.py:453-456 | a rebuilt members list holds the given addresses and every published unit address, and repeats none |
| RaftManager.ClusterMembershipManager.StuckClusterCheck | single_kernel_postgresql/managers/cluster_membership.py:420-443 | one pass over the peers selects a candidate as the recovery model says, and only then |
| RaftManager.ClusterMembershipManager.StuckClusterRejoin | single_kernel_postgresql/managers/cluster_membership.py:445-468 | the leader's rejoin step, members list and endpoint update included, is the model's step on the whole cluster state |
| RaftManager.ClusterMembershipManager.StuckClusterStoppedCheck | single_kernel_postgresql/managers/cluster_membership.py:470-480 | the loop with its early return publishes raft_followers_stopped exactly when the model does |
| RaftManager.ClusterMembershipManager.StuckClusterCleanup | single_kernel_postgresql/managers/cluster_membership.py:482-494 | the loop with its early return clears the application flags exactly when the model does |
| RaftManager.ClusterMembershipManager.ReinitSelectedCandidate | single_kernel_postgresql/managers/cluster_membership.py:512-530 | the wipe step in all its endings (done, watcher still active, timed out, raised), state and ending equal to the model's |
| RaftManager.ClusterMembershipManager.ReinitPromoteCandidate | single_kernel_postgresql/managers/cluster_membership.py:532-543 | the promotion step in all its endings, state and ending equal to the model's |
| RaftManager.ClusterMembershipManager.ReinitRejoinCleanup | single_kernel_postgresql/managers/cluster_membership.py:545-555 | the rejoin step in all its endings, state and ending equal to the model's |
| RaftManager.ClusterMembershipManager.RaftReinitialisation | single_kernel_postgresql/managers/cluster_membership.py:496-510 | the whole guarded sequence with its early returns is the model's hook |
| RaftManager.ClusterMembershipManager.RecoveryHook | single_kernel_postgresql/events/postgresql.py:1437-1444 | a hook with recovery keys runs the sequence; a timeout commits, any other failure discards the databag writes but not what happened to the machine |
| RaftManager.ClusterMembershipManager.ForcePromotion | single_kernel_postgresql/events/postgresql.py:1307-1317 | a forced promotion is accepted exactly when recovery keys exist, marks the unit and, on the leader, runs the sequence; a timeout fails the action, which cannot be deferred, like any other failure |
| RaftManager.ClusterMembershipManager.SetStuckRaftFlag | single_kernel_postgresql/managers/raft.py:190-207 | the flag is set exactly when no recovery is under way |
| RaftManager.ClusterMembershipManager.UnwedgeStaleRecovery | single_kernel_postgresql/managers/cluster_membership.py:370-418 | keys are cleared exactly with quorum regained and no unit or application marker of a committed recovery |
| RaftSafety.NextKeepsInv | single_kernel_postgresql/managers/cluster_membership.py:370-555 | every step of any unit -- hook, force, detection, unwedge, election, re-addressing -- keeps the databags and the machines in agreement |
| RaftSafety.RunKeepsInv | single_kernel_postgresql/managers/cluster_membership.py:370-555 | so does every run, leadership moving freely |
| RaftSafety.ReinitialisesOnlyOverAStoppedCluster | single_kernel_postgresql/managers/cluster_membership.py:532-543 | whenever a unit gets to reinitialise raft, in a hook or in a forced promotion, it is the selected candidate, every unit has reported itself stopped and every other machine is down with its journal gone (its own too on the first attempt) |
| RaftSafety.SelectsExactlyWhenEveryUnitIsStuck | single_kernel_postgresql/managers/cluster_membership.py:420-443 | a hook selects a candidate if and only if it runs on the leader, every unit reports a lost quorum and some unit asked to take over; the selected unit is one of those |
| RaftSafety.AtMostOnePrimary | single_kernel_postgresql/managers/cluster_membership.py:532-543 | in every reachable state at most one unit holds raft_primary, and it is the selected candidate |
| RaftSafety.PhaseLadder | single_kernel_postgresql/managers/cluster_membership.py:445-530 | raft_rejoin implies raft_reset_primary implies raft_followers_stopped implies a selected candidate among the units; a unit with raft_stopped always has a selected candidate |
| RaftSafety.RebuiltMembersAreTheAddresses | single_kernel_postgresql/managers/cluster_membership.py:452-458 | the rebuilt list is duplicate-free and is exactly the published unit addresses and the leader's own |
| RaftSafety.RejoinComesWithTheCurrentMembers | single_kernel_postgresql/managers/cluster_membership.py:445-468 | a hook that publishes raft_rejoin has rebuilt members_ips to exactly the current units' addresses |
| RaftHooks.FirstHalfExactly | single_kernel_postgresql/managers/cluster_membership.py:496-510 | while raft_rejoin is not published: what a hook publishes, what it does to its machine and how it ends, each key decided by what the hook finds and not by the order of its pieces |
| RaftHooks.HooksExactly | single_kernel_postgresql/managers/cluster_membership.py:496-555 | the same of the whole hook: who restarts, when the leader ends the recovery, and that a failed hook leaves its machine and the number of attempts only |
| RaftHooks.AnActiveWatcherEndsTheHook | single_kernel_postgresql/managers/cluster_membership.py:512-530 | a unit that stops while the raft watcher is still active says so and ends its hook: beside a selection nothing else is published, no raft data is reinitialised and nothing is started |
| RaftHooks.WithoutAWatcherTheHookGoesOn | single_kernel_postgresql/managers/cluster_membership.py:512-530 | without an active watcher the selected leader goes on, in the same hook, to reinitialise raft over its stopped peers and to publish raft_rejoin |
| RaftHooks.OutsideStepsAreSeen | single_kernel_postgresql/managers/cluster_membership.py:420-458 | whoever is elected selects the candidate in its next hook, and an address published meanwhile is in the rebuilt list |
| RaftHooks.UnwedgingExactly | single_kernel_postgresql/managers/cluster_membership.py:370-418 | unwedging clears all keys of its own unit and nothing else, exactly with keys, quorum and no committed machine, and takes back a detection |
| RaftProgress.NextAdvances | single_kernel_postgresql/managers/cluster_membership.py:482-555 | no step takes a committed recovery farther from its end, except a promotion forced too late |
| RaftProgress.AdvancingIsNotFarther | single_kernel_postgresql/managers/cluster_membership.py:482-555 | an advancing step does not increase the lexicographic distance, and at equal distance the same units are awaited |
| RaftProgress.HelpingBringsTheEndNearer | single_kernel_postgresql/managers/cluster_membership.py:482-555 | the awaited unit's hook, its calls succeeding, ends the recovery or strictly decreases the distance |
| RaftProgress.ForceWedgesExactlyLate | single_kernel_postgresql/events/postgresql.py:1307-1317 | a forced promotion leaves a raft_candidate nobody will drop exactly when it commits on a unit already stopped or after raft_rejoin |
| RaftProgress.OnlyLateForcingWedges | single_kernel_postgresql/managers/cluster_membership.py:482-555 | no other step wedges the recovery and no step frees a wedged one |
| RaftProgress.AskingTwiceWedges | single_kernel_postgresql/events/postgresql.py:1307-1317 | for any two units a run from a clean cluster exists that wedges the recovery: both lose the quorum, one is forced, both stop, and it is forced again |
| RaftProgress.EndsOrWedges | single_kernel_postgresql/managers/cluster_membership.py:482-555 | every endless fair run, from any committed moment, comes to a clean or to a wedged state |
| RaftProgress.RecoversUnlessWedged | single_kernel_postgresql/managers/cluster_membership.py:482-555 | in every endless fair run the recovery ends with no raft_ key in any databag if and only if it is not wedged before |
| RaftProgress.RecoversUnlessForcedLate | single_kernel_postgresql/managers/cluster_membership.py:482-555 | and, nothing being wedged yet, if and only if no promotion is forced on a stopped unit or after raft_rejoin, and commits, before that |
| AsyncCounters.GetPrimaryCluster | single_kernel_postgresql/managers/async_replication.py:271-298 | the scan over both relations and both databags names the first application with the highest positive counter, unreadable databags skipped, or nobody |
| AsyncCounters.PrimaryIsUnique | single_kernel_postgresql/managers/async_replication.py:271-298 | that specification determines the answer |
| AsyncCounters.NamesWhom | single_kernel_postgresql/managers/async_replication.py:271-298 | whom a side names, from its own peer counter and the other side's mirror: the remote application on a tie |
| AsyncCounters.NeverBothPrimary | single_kernel_postgresql/managers/async_replication.py:271-298 | with mirrored counters the two clusters never both consider themselves primary, ties included |
| AsyncCounters.AgreeExactlyWhenDistinct | single_kernel_postgresql/managers/async_replication.py:271-298 | with mirrored counters both name the same cluster (or nobody) exactly when the counters differ (or are both zero) |
| AsyncCounters.PromotionWinsExactlyWithALargerTimestamp | single_kernel_postgresql/managers/async_replication.py:519-555 | a promotion makes both clusters name the promoter if and only if its timestamp exceeds the other's counter |
| AsyncCounters.ClearStalePromotion | single_kernel_postgresql/managers/async_replication.py:426-468 | the counter is cleared exactly on the leader, when positive and mirrored on no current relation, unreadable databags not counting |
| AsyncCounters.ClearedExactlyWhenStale | single_kernel_postgresql/managers/async_replication.py:426-468 | for any number of relations, readable or not: cleared exactly on the leader and with no readable mirror of the counter; an unreadable databag or another counter vouches for nothing, a mirror saves it |
| AsyncCounters.ClearingRestoresMirroring | single_kernel_postgresql/managers/async_replication.py:426-468 | clearing on both sides restores the mirroring exactly when no relation databag holds another counter; over a new relation it always does |
| AsyncCounters.ReformedClustersMayBothBePrimary | single_kernel_postgresql/managers/async_replication.py:426-468 | without clearing, two clusters promoted under different dead relations both claim to be primary |
| AsyncCounters.ClearedExactly | single_kernel_postgresql/managers/async_replication.py:426-468 | a side counts as having cleared exactly if it cleared, promoted or tore down after the relation was last formed, or did before the run and no relation formed in it |
| AsyncCounters.RunStaysSound | single_kernel_postgresql/managers/async_replication.py:426-468 | every run of promotions, clearings, teardowns and new relations keeps mirrors absent or equal, and equal once cleared |
| AsyncCounters.NeverBothPrimaryOverRuns | single_kernel_postgresql/managers/async_replication.py:271-298 | over such runs, once both sides cleared or promoted since the relation formed, they are never both primary |
| AsyncManager.AsyncReplicationManager.StopDatabase | single_kernel_postgresql/managers/async_replication.py:849-882 | stopping the database, the leader's part included, in each of its endings |
| AsyncManager.AsyncReplicationManager.WaitForAllUnitsStopped | single_kernel_postgresql/managers/async_replication.py:711-728 | the check of this unit and the loop over its peers wait exactly unless every unit has stopped or follows |
| AsyncManager.AsyncReplicationManager.HandleDatabaseStart | single_kernel_postgresql/managers/async_replication.py:922-977 | a started unit takes the counter and drops its stop marker; the leader loops over all units and restores cluster_initialised exactly when every one carries the counter |
| AsyncManager.AsyncReplicationManager.OnAsyncRelationChanged | single_kernel_postgresql/events/async_replication.py:314-351 | the handler climbs the steps in order with their early returns; a hook that raises after any stage keeps no databag write and every effect on the machine up to there |
| AsyncBarrier.NextKeepsInv | single_kernel_postgresql/managers/async_replication.py:711-1013 | every event keeps the promise behind each databag flag: stopped means down, its data gone or to be dropped before a start, and so on |
| AsyncBarrier.RunKeepsInv | single_kernel_postgresql/managers/async_replication.py:711-1013 | so does every run |
| AsyncBarrier.StartsOnlyOverAStoppedApplication | single_kernel_postgresql/managers/async_replication.py:762-777 | a unit that gets to start its standby database, whether the start succeeds, is postponed or is refused, sees every unit stopped or following, no old database up, its own old data gone and, unless it leads, the leader's database started |
| AsyncBarrier.InitialisedAgainOnlyWhenAllFollow | single_kernel_postgresql/managers/async_replication.py:957-977 | cluster_initialised, once dropped by the leader, is back only when every unit carries the counter |
| AsyncBarrier.PromotesOnlyOverAStoppedCluster | single_kernel_postgresql/managers/async_replication.py:779-821 | a unit of the promoted cluster that passes its check on VM does so over related units that have all stopped the old database and removed its data, or follow |
| AsyncEvents.RungsExactly | single_kernel_postgresql/events/async_replication.py:314-351 | on which of its steps an event ends, from what it finds alone |
| AsyncEvents.EventsExactly | single_kernel_postgresql/managers/async_replication.py:711-1013 | what an event that does not fail leaves of its unit, key by key and on both substrates -- stop, stop marker, data, clearing, start, counter -- and when it drops and restores cluster_initialised |
| AsyncEvents.FailuresExactly | single_kernel_postgresql/managers/async_replication.py:711-1013 | an event that fails, wherever it does, writes no databag key and touches no other unit; what is left is what it had done to its machine; without an exception on the way it fails exactly if the standby database may be started and refuses |
| AsyncEvents.StoppedUnitsSaySo | single_kernel_postgresql/managers/async_replication.py:730-739 | in every reachable state of a VM application each unit that has stopped has published the epoch's counter as its stop marker |
| AsyncProgress.NextAdvances | single_kernel_postgresql/managers/async_replication.py:711-1013 | no event takes any unit back |
| AsyncProgress.AwaitedEventHelps | single_kernel_postgresql/managers/async_replication.py:711-1013 | a cooperating event of an awaited unit settles the standby or brings it strictly nearer |
| AsyncProgress.Settles | single_kernel_postgresql/managers/async_replication.py:711-1013 | every endless fair run reaches a moment at which every unit follows and the cluster is initialised again |
| AsyncProgress.TheBarrierOpens | single_kernel_postgresql/managers/async_replication.py:711-1013 | and stays there for good |
| AsyncProgress.TheGateOpensExactly | single_kernel_postgresql/managers/async_replication.py:730-795 | in every fair run on VM the other cluster's check of the stop markers passes for good from some moment on if and only if no related unit joined as a replica without a marker |
| LogicalChains.TokensAreInjective | single_kernel_postgresql/managers/logical_replication.py:472-474 | different identities have different chain tokens |
| LogicalChains.StampsDecide | single_kernel_postgresql/managers/logical_replication.py:509-519 | in a chain of tokens the identity stamp alone decides whether an application is on it |
| LogicalChains.CheckPublisherCircularReplication | single_kernel_postgresql/managers/logical_replication.py:521-628 | the loops and branches of the publisher's check refuse exactly the specified tables |
| LogicalChains.BuildReplicationChains | single_kernel_postgresql/managers/logical_replication.py:630-682 | each requested table gets the upstream chain extended by this application, or this application alone |
| LogicalGraph.ClosesACycleExactlyUpstream | single_kernel_postgresql/managers/logical_replication.py:521-545 | adding a subscription closes a cycle if and only if the subscriber is on the path down to its publisher |
| LogicalGraph.ExactMeansRooted | single_kernel_postgresql/managers/logical_replication.py:630-650 | where every published chain is the real upstream path, every application has a path to an origin and no table replicates in a circle |
| LogicalGraph.ChainBuiltIsThePath | single_kernel_postgresql/managers/logical_replication.py:630-682 | in such a network the chain an application builds is the duplicate-free path from the origin to itself |
| LogicalGraph.PublisherCheckIsExact | single_kernel_postgresql/managers/logical_replication.py:593-628 | for a requester it does not subscribe to, the publisher refuses a table if and only if publishing it would close a cycle |
| LogicalGraph.DirectCheckIsExactOnceRecorded | single_kernel_postgresql/managers/logical_replication.py:556-591 | for the application it subscribes to, the check is exact once that subscription is recorded and published; before, it goes by this application's own request, whatever is published |
| LogicalGraph.UnrecordedMutualSubscriptionsPass | single_kernel_postgresql/managers/logical_replication.py:556-591 | for any two applications, database and table: with the first subscription published but not recorded, the second one passes the check though it closes the cycle |
| LogicalGraph.SubscriberCheckIsExact | single_kernel_postgresql/managers/logical_replication.py:1261-1303 | the subscriber refuses a table published to it if and only if that publication closes a cycle |
| LogicalGraph.DirectSubscriberCheckIsSubsumed | single_kernel_postgresql/managers/logical_replication.py:1305-1354 | a table already published to the same application is refused by its chain as well |
| LogicalGraph.AcceptedPublicationsCloseNoCycle | single_kernel_postgresql/managers/logical_replication.py:521-682 | from exact chains, a publication both checks accept closes no cycle, and its chain is the path from origin to publisher, without repetitions and without the subscriber |
| LogicalGraph.SettledStepsKeepExact | single_kernel_postgresql/managers/logical_replication.py:636-638 | steps that change no upstream above somebody it is offered to keep every chain exact |
| LogicalGraph.UnsettledStepsLoseExactness | single_kernel_postgresql/managers/logical_replication.py:636-638 | any other step leaves a stale chain |
| LogicalGraph.ExactnessSurvivesExactlySettledSteps | single_kernel_postgresql/managers/logical_replication.py:636-638 | so an accepted step keeps all chains exact if and only if no table whose upstream changes is offered onwards by the subscriber |
| LogicalGraph.SettledRunsStayAcyclic | single_kernel_postgresql/managers/logical_replication.py:521-682 | over every run of accepted settled steps no database and table ever replicates in a circle |
| LogicalGraph.AcceptedStepsCloseCyclesExactlyOffTheChain | single_kernel_postgresql/managers/logical_replication.py:521-682 | over any graph without a cycle, chains exact or not, an accepted publication closes a cycle if and only if the subscriber is on the real path to its publisher; the published chain does not show it |
| LogicalGraph.StaleChainsCloseACycle | single_kernel_postgresql/managers/logical_replication.py:636-638 | for any three applications, any database and any table, a run of accepted publications exists that ends in a cycle, one chain on it having gone stale |
| LogicalRequests.SchemaAndTable | single_kernel_postgresql/managers/logical_replication.py:419-419 | a split name is its two parts joined by the only dot |
| LogicalRequests.SplitsAtTheOnlyDot | single_kernel_postgresql/managers/logical_replication.py:419-419 | every name with exactly one dot splits there |
| LogicalRequests.SplitsItsNames | single_kernel_postgresql/managers/logical_replication.py:419-419 | a name splits into schema and table exactly if it is theirs, joined by its only dot |
| OfferModel.TablesVerdict | single_kernel_postgresql/managers/logical_replication.py:416-422 | validation of tables passes exactly if every table not yet published is spelled schema, dot, table and the database holds that table; its error names the database |
| OfferAnswers.ValidatedExactly | single_kernel_postgresql/managers/logical_replication.py:408-422 | validation fails for a missing database, else at the first new table the database does not hold, with that table's error, or raises if it has no single dot |
| OfferManager.LogicalReplicationOffer.ValidateNewPublication | single_kernel_postgresql/managers/logical_replication.py:408-422 | the loop finds the first table that fails, in order, or that raises |
| OfferManager.LogicalReplicationOffer.CreateNewPublication | single_kernel_postgresql/managers/logical_replication.py:424-459 | creating a publication, its refusals and the raise, on the server and in the working map |
| OfferManager.LogicalReplicationOffer.AlterExistingPublication | single_kernel_postgresql/managers/logical_replication.py:353-389 | altering a publication, its refusals and the raise |
| OfferManager.LogicalReplicationOffer.DropRedundantPublications | single_kernel_postgresql/managers/logical_replication.py:326-337 | every publication of a database no longer requested is dropped from the server and the map, nothing else |
| OfferManager.LogicalReplicationOffer.ReconcileOne | single_kernel_postgresql/managers/logical_replication.py:339-389 | one turn of the request loop |
| OfferManager.LogicalReplicationOffer.Run | single_kernel_postgresql/managers/logical_replication.py:308-406 | a run leaves the relation databag, the errors, the application's record of this relation and the server as the specification says, other relations' records alone, and commits no databag write if it raises |
| OfferProperties.OneRequestSettles | single_kernel_postgresql/managers/logical_replication.py:339-389 | a request is refused with one error, nothing changing, or served; no other database is touched |
| OfferAnswers.OneAnswer | single_kernel_postgresql/managers/logical_replication.py:339-389 | a request is refused with an error exactly if that error stands in its way: circle, missing database, first missing table, name taken, publication gone |
| OfferAnswers.AnswersExactly | single_kernel_postgresql/managers/logical_replication.py:308-406 | a run reports exactly the errors that stand in the way of its requests, judged on the record and the server it found |
| OfferAnswers.NewRequestsAreServedExactly | single_kernel_postgresql/managers/logical_replication.py:408-459 | a request that closes no circle, for a database without a record and without a publication of that name, is served if and only if the database and all its tables exist |
| OfferAnswers.AlteredRequestsAreServedExactly | single_kernel_postgresql/managers/logical_replication.py:353-422 | a different request for a publication the server holds is served if and only if the database and the new tables exist; published ones are not looked up |
| OfferProperties.OfferIsReconciled | single_kernel_postgresql/managers/logical_replication.py:308-406 | no database outside the request stays published, and every requested one either has exactly one error and keeps what it had, or has a publication of the requested tables as a multiset, kept or freshly chained, and no error |
| OfferProperties.OfferKeepsAgreement | single_kernel_postgresql/managers/logical_replication.py:308-406 | if record, databag and server agreed, they do after the run, names, slots, tables and chains; publications of other names are untouched |
| OfferProperties.OfferSettlesInOneRun | single_kernel_postgresql/managers/logical_replication.py:308-406 | a second run with nothing else changed reports the same errors and changes nothing |
| OfferProperties.OfferPublishesAcceptedChains | single_kernel_postgresql/managers/logical_replication.py:339-389 | whatever is created or altered is, in the network, a publication the publisher's check accepts, with that step's chains |
| OfferProperties.MalformedExactly | single_kernel_postgresql/managers/logical_replication.py:416-422 | validation raises exactly if the first table to validate that does not pass has no single dot |
| OfferProperties.RaisesExactly | single_kernel_postgresql/managers/logical_replication.py:308-422 | a run raises if and only if some request is not circular, asks for a missing or different publication and meets such a name in validation |
| OfferProperties.RaisingKeepsAgreementExactly | single_kernel_postgresql/managers/logical_replication.py:308-422 | a raising run leaves its relation's record and server in agreement if and only if there was nothing to drop and no earlier request created or altered a publication; other names are untouched |
| OfferProperties.UnrecordedPublicationsConflict | single_kernel_postgresql/managers/logical_replication.py:437-443 | a publication on the server that is not recorded is refused as a conflict, whatever else is requested |
| OfferProperties.WellFormedRequestsDoNotRaise | single_kernel_postgresql/managers/logical_replication.py:416-422 | in particular a request of well-formed names never raises |
| OfferProperties.RaisingStrandsPublications | single_kernel_postgresql/managers/logical_replication.py:416-422 | an instance: the first database is published before the second one's malformed name raises, and conflicts with itself once the request is corrected |
| OfferRuns.PublishedResources.CleanUpPublishedResources | single_kernel_postgresql/managers/logical_replication.py:257-306 | the loops over records and databases keep exactly the active relations' records and drop exactly the others' publications |
| OfferRuns.StepsKeepInvExactly | single_kernel_postgresql/managers/logical_replication.py:257-406 | databag, record and server of every relation there is or was agree after a reconcile, a new relation or a clean-up if and only if it is no reconcile that raises after dropping, creating or altering a publication |
| OfferRuns.RunsKeepInv | single_kernel_postgresql/managers/logical_replication.py:257-406 | they agree over every run, of any number of relations, without such a reconcile |
| OfferRuns.CleanUpLeavesTheActive | single_kernel_postgresql/managers/logical_replication.py:257-306 | after a clean-up the server holds no publication of a relation that is gone and every other one as before |
| OfferRuns.SlotsAreNamedOverRuns | single_kernel_postgresql/managers/logical_replication.py:165-201 | over those runs each recorded slot carries its relation's and database's name, as the slot lemmas ask |
| Slots.NamesAreInjective | single_kernel_postgresql/managers/logical_replication.py:165-172 | different relations or databases have different resource names |
| Slots.ReplicationSlots | single_kernel_postgresql/managers/logical_replication.py:190-201 | the double loop's dictionary has every recorded slot name, and every name in it is some entry's |
| Slots.EntryKeepsItsSlot | single_kernel_postgresql/managers/logical_replication.py:190-201 | no later entry replaces an earlier one: each slot name maps to its own database |
| Slots.NoSlotIsLost | single_kernel_postgresql/managers/logical_replication.py:190-201 | there are as many slots as published entries |
| Slots.SlotsPatch | single_kernel_postgresql/managers/patroni.py:886-894 | the loop builds null for every slot Patroni had and an object for every published one |
| Slots.PatchedSlotNames | single_kernel_postgresql/managers/patroni.py:886-901 | after the patch the slots are the published ones and those created since the configuration was read, no others |
| Slots.PatchedSlot | single_kernel_postgresql/managers/patroni.py:886-901 | a published slot is logical, for its database, and keeps what others set on it |
| Slots.PatroniHoldsEveryEntry | single_kernel_postgresql/managers/patroni.py:853-902 | every recorded entry ends as a slot of its database in Patroni |
| Slots.PatroniHoldsNothingElse | single_kernel_postgresql/managers/patroni.py:853-902 | and with no slot created meanwhile there are exactly as many slots as entries |
| SubscriptionManager.LogicalReplicationSubscriber.CheckPublisherErrors | single_kernel_postgresql/managers/logical_replication.py:1000-1052 | the publisher's errors stop validation exactly if they are about the configured request as pushed and one is relevant to it |
| SubscriptionManager.LogicalReplicationSubscriber.EnforceEmptyTableGuard | single_kernel_postgresql/managers/logical_replication.py:796-851 | the guard fires exactly for a non-empty table no live subscription is seen to replicate, in enforce mode or for a recorded database |
| SubscriptionManager.LogicalReplicationSubscriber.ValidateTable | single_kernel_postgresql/managers/logical_replication.py:744-794 | a table passes exactly if its name splits, it exists, neither circular check refuses it and the guard does not fire |
| SubscriptionManager.LogicalReplicationSubscriber.ValidateSubscriptionRequest | single_kernel_postgresql/managers/logical_replication.py:704-742 | the nested loops accept exactly a request all of whose databases and tables pass, and the failure marker is the opposite of the answer |
| SubscriptionManager.LogicalReplicationSubscriber.GuardSubscriptionRefresh | single_kernel_postgresql/managers/logical_replication.py:853-902 | a refresh is allowed exactly if every requested table not yet replicated exists and is empty |
| SubscriptionManager.LogicalReplicationSubscriber.ReconcileSubscriptions | single_kernel_postgresql/managers/logical_replication.py:1151-1231 | the run's outcome and the peer databag and server it leaves: to the end, stopped at a blocked refresh, or raised with the databag as it was |
| SubscriptionManager.LogicalReplicationSubscriber.ApplyUpdatedSubscriptionRequest | single_kernel_postgresql/managers/logical_replication.py:1054-1077 | subscriptions of databases no longer configured are dropped from the record and the server, the baseline left alone |
| SubscriptionManager.LogicalReplicationSubscriber.ApplyChangedConfig | single_kernel_postgresql/events/logical_replication.py:111-148 | a changed configuration is validated in auto mode and, if it passes, applied with its baseline |
| SubscriptionManager.LogicalReplicationSubscriber.RetryValidation | single_kernel_postgresql/managers/logical_replication.py:1079-1100 | a retry validates against the configured request itself and leaves the baseline alone |
| SubscriptionManager.LogicalReplicationSubscriber.DropSubscriptions | single_kernel_postgresql/managers/logical_replication.py:1233-1245 | a broken relation clears the record, the baseline and the recorded subscriptions |
| SubscriptionAnswers.ReportsDecideExactly | single_kernel_postgresql/managers/logical_replication.py:1000-1052 | a request is accepted exactly if it would be without any report and none stands: one about the configured request, the pushed request being that one |
| SubscriptionAnswers.StaleReportsDecideNothing | single_kernel_postgresql/managers/logical_replication.py:1025-1031 | while another request is pushed any reports give the same answer |
| SubscriptionAnswers.StandingReportsStopEverything | single_kernel_postgresql/managers/logical_replication.py:1000-1052 | while a report stands no run subscribes to or records anything new, however it ends, a configuration change fails and a retry goes on failing |
| SubscriptionAnswers.GuardExactly | single_kernel_postgresql/managers/logical_replication.py:796-851 | the guard fires exactly for a table that holds rows, is not replicated and was not asked for before; in auto mode never for a database not recorded, and as always for a recorded one |
| SubscriptionAnswers.RefreshExactly | single_kernel_postgresql/managers/logical_replication.py:853-902 | a refresh is allowed exactly if every configured table is in the publication subscribed to, as this server knows it, or exists and holds no rows |
| SubscriptionAnswers.RunsFlagExactly | single_kernel_postgresql/managers/logical_replication.py:1185-1220 | the failure marker after a run is what the last new database left, set if refused and cleared if accepted; a stopped run sets it; a run without new databases leaves it |
| SubscriptionAnswers.AcceptedExactly | single_kernel_postgresql/managers/logical_replication.py:704-851 | the configured request is accepted if and only if no report stands against it, its databases exist, and each table is spelled and exists, is neither given back nor offered in a circle, and is empty, replicated, asked for before or, in auto mode, of a database not recorded |
| SubscriptionAnswers.OperationsExactly | single_kernel_postgresql/managers/logical_replication.py:1054-1245 | what a configuration change, a retry and a broken relation leave of record, baseline, failure marker and live subscriptions |
| SubscriptionProperties.RecordedIsExact | single_kernel_postgresql/managers/logical_replication.py:1180-1226 | after a run to the end the recorded databases are exactly the recorded ones still published and the published ones that passed validation at their turn |
| SubscriptionProperties.ReconcileKeepsMatches | single_kernel_postgresql/managers/logical_replication.py:1151-1231 | after a run to the end the record matches the live subscriptions if it did on entry |
| SubscriptionProperties.RunsEndExactly | single_kernel_postgresql/managers/logical_replication.py:1151-1231 | with a matching record a run is stopped if and only if a recorded database's refresh is blocked, and otherwise raises if and only if the configuration is malformed |
| SubscriptionProperties.BlockedRefreshesKeepMatchesExactly | single_kernel_postgresql/managers/logical_replication.py:1187-1192 | a run stopped at a blocked refresh records nothing, and the record still matches if and only if every database published before the blocked one was recorded or failed validation |
| SubscriptionProperties.UnrecordedSubscriptionsRaise | single_kernel_postgresql/managers/logical_replication.py:1197-1220 | a run raises wherever it comes to an unrecorded database that passes and whose subscription is live |
| SubscriptionProperties.MalformedConfigurationsKeepMatchesExactly | single_kernel_postgresql/managers/logical_replication.py:1211-1231 | under a malformed configuration a run drops and then raises, and the record still matches if and only if there was nothing to drop |
| SubscriptionProperties.ReconcileSetsTheBaseline | single_kernel_postgresql/managers/logical_replication.py:904-922 | afterwards the baseline's databases are exactly the configured ones that are recorded, with the configured tables |
| SubscriptionProperties.GuardIsExact | single_kernel_postgresql/managers/logical_replication.py:796-851 | for a database not recorded the guard lets a table pass if and only if it is locally empty, reported for another database's subscription, or vouched for by the baseline with no live table reported |
| SubscriptionProperties.DatabasesReportTheirOwn | single_kernel_postgresql/utils/postgresql.py:1259-1275 | where the server's publications and the subscribed ones carry the charm's names, a database reports nothing of another database's subscription |
| SubscriptionProperties.BorrowedNamesSilenceTheGuard | single_kernel_postgresql/utils/postgresql.py:1259-1275 | a publication made by hand under the name another database's subscription subscribes to silences the guard for a full table |
| SubscriptionProperties.NewSubscriptionsAreGuarded | single_kernel_postgresql/managers/logical_replication.py:1197-1220 | every configured table of a newly recorded database existed, passed the guard for one of those reasons at its turn, is not published back and is offered with a chain free of this application |
| SubscriptionProperties.NewTablesWereEmpty | single_kernel_postgresql/managers/logical_replication.py:1197-1220 | with the charm's names, a matching record and a covered baseline, every such table was locally empty |
| SubscriptionProperties.RefreshesAreGuarded | single_kernel_postgresql/managers/logical_replication.py:853-902 | in a run to the end every configured table of a refreshed subscription was reported as replicated, or existed and was empty at that turn |
| SubscriptionProperties.RefreshesAskForEmptyTables | single_kernel_postgresql/managers/logical_replication.py:853-902 | where this server publishes nothing in the database under the subscribed name, a refresh is allowed if and only if every configured table exists and is empty |
| SubscriptionProperties.RunsStopExactlyOnFullTables | single_kernel_postgresql/managers/logical_replication.py:1185-1192 | under the same proviso a run over a matching record is stopped if and only if a recorded database still published has a configured table that is missing or not empty |
| SubscriptionProperties.RetryKeepsCoverageExactly | single_kernel_postgresql/managers/logical_replication.py:1079-1100 | a retry keeps the baseline within the record if and only if it applies nothing or every baseline database is still configured |
| SubscriptionProperties.StepsKeepCoverageExactly | single_kernel_postgresql/managers/logical_replication.py:1054-1245 | every other operation, stopped and raising reconciles included, keeps it |
| SubscriptionProperties.StepsKeepMatchesExactly | single_kernel_postgresql/managers/logical_replication.py:1054-1245 | an operation keeps record and server matching if and only if it is no reconcile stopped after a new database passed and none that drops under a malformed configuration |
| SubscriptionProperties.RunsKeepMatches | single_kernel_postgresql/managers/logical_replication.py:1054-1245 | record and server match over every run of reconciles, configuration changes, retries and teardowns without such a reconcile |
| SubscriptionProperties.RunsKeepCoverage | single_kernel_postgresql/managers/logical_replication.py:1054-1245 | the baseline stays within the record over every run without a retry that drops a database of the baseline |
| SubscriptionLeftover.HooksAreARun | single_kernel_postgresql/events/logical_replication.py:111-195 | the six hooks of the story are operations on one relation, each possible |
| SubscriptionLeftover.RetriesLeaveBaselinesBehind | single_kernel_postgresql/managers/logical_replication.py:1079-1100 | a run of four hooks from an empty record, ending in a retry that drops a subscription and leaves its baseline |
| SubscriptionLeftover.RetriesSilenceTheGuard | single_kernel_postgresql/managers/logical_replication.py:834-842 | two more hooks, a refused configuration change and a reconcile, subscribe the database again over its full table |
| SubscriptionLeftover.RefreshesOfFullTablesAreBlocked | single_kernel_postgresql/managers/logical_replication.py:853-902 | the reconcile that follows the first two hooks of that run is stopped by the rows replicated meanwhile |
| Membership.IpsAgreeExactlyWhenTheBagIsCurrent | single_kernel_postgresql/managers/cluster_membership.py:118-126 | the state's addresses are among the manager's, and equal exactly when this unit's databag holds no stale address |
| Membership.ClusterMembershipManager.AddMemberIp | single_kernel_postgresql/core/peer_relation.py:586-591 | the leader's list gains the address once; nobody else's changes |
| Membership.ClusterMembershipManager.RemoveMemberIp | single_kernel_postgresql/core/peer_relation.py:593-598 | the leader's list loses the address's first occurrence, a missing one being no error |
| Membership.ClusterMembershipManager.CleanupRaftCluster | single_kernel_postgresql/managers/raft.py:159-188 | success exactly if every stale partner could be removed, and the list then left is the pass's over all of them; no unit's address is dropped on the way, and none is added |
| Membership.CleaningExactly | single_kernel_postgresql/managers/raft.py:159-188 | on the leader exactly the addresses of no unit go under which raft reports a partner that is neither connected nor the watcher |
| Membership.ClusterMembershipManager.AddClusterMember | single_kernel_postgresql/managers/cluster_membership.py:266-285 | it raises exactly if the unit has an address and its member is not ready or its configuration fails; the address is then listed unless the member was not ready |
| Membership.ClusterMembershipManager.AddMembers | single_kernel_postgresql/managers/cluster_membership.py:287-326 | it succeeds if and only if point-in-time recovery failed, the cluster is in order (both leave the list alone), or no unknown host is held up, no address still missing meets a failing configuration and the synchronous count is updated; the list then holds the old addresses, the unknown hosts' and the state's |
| Membership.FailsExactly | single_kernel_postgresql/managers/cluster_membership.py:287-363 | what makes adding members fail outside a failed recovery: Patroni and hosts differ or an address is missing, and a new member is held up, the synchronous count fails, or the configuration fails with an address still forgotten; and removing, an address of no unit that raft will not drop |
| Membership.ClusterMembershipManager.RemoveDeparted | single_kernel_postgresql/managers/cluster_membership.py:350-363 | success exactly if every departed address could be removed from raft, and then the leader's list holds addresses of units only; a list without departed addresses is left alone |
| Membership.ClusterMembershipManager.ReconfigureCluster | single_kernel_postgresql/managers/cluster_membership.py:328-363 | it succeeds if and only if its three parts do; whatever it returns, no address of a unit is dropped and none of no unit added; on the leader's success the list lies between the state's addresses and the manager's, and is exactly the units' where the databag is current; a cluster in order with nothing stale succeeds unchanged |
| MembershipK8s.EndpointsNameTheirMembers | single_kernel_postgresql/managers/cluster_membership.py:629-632 | an endpoint's front part names a member whose endpoint is that endpoint |
| MembershipK8s.EndpointsAreInjective | single_kernel_postgresql/managers/cluster_membership.py:629-632 | different units have different endpoints |
| MembershipK8s.K8sMembershipManager.AddEndpoint | single_kernel_postgresql/core/peer_relation.py:572-577 | the leader's list gains the endpoint once |
| MembershipK8s.K8sMembershipManager.RemoveEndpoint | single_kernel_postgresql/core/peer_relation.py:579-584 | the leader's list loses the endpoint's first occurrence |
| MembershipK8s.K8sMembershipManager.AddMembers | single_kernel_postgresql/managers/cluster_membership.py:702-738 | nothing is dropped, only host endpoints are added; it completes if and only if the leader of an initialised cluster finds it in order, changing nothing, or finds everybody to add ready and updates the synchronous count, and then every host endpoint is listed |
| MembershipK8s.K8sMembershipManager.RemoveDepartedEndpoints | single_kernel_postgresql/managers/cluster_membership.py:655-672 | exactly the endpoints of departed hosts are returned, and on the leader exactly those are gone |
| MembershipK8s.WaitingExactly | single_kernel_postgresql/managers/cluster_membership.py:702-738 | the cluster is out of order exactly if pods, members and endpoints differ, and the addition waits exactly if a member to add is not ready |
| MembershipK8s.K8sMembershipManager.Reconcile | single_kernel_postgresql/managers/cluster_membership.py:655-738 | the two in a row complete exactly then, and leave exactly the host endpoints |
| S3Markers.FirstReport | single_kernel_postgresql/managers/backup.py:598-601 | the loop stops at the first unit with a done marker, or finds none |
| S3Manager.BackupManager.InitialiseS3Repository | single_kernel_postgresql/managers/backup.py:1263-1301 | an attempt's markers in each of its endings, on the leader and elsewhere |
| S3Manager.BackupManager.CoordinateStanzaFields | single_kernel_postgresql/managers/backup.py:593-610 | the leader closes an open round with the first report it finds |
| S3Manager.BackupManager.HandleS3Initialization | single_kernel_postgresql/events/postgresql.py:1558-1592 | coordination, a renewed attempt by the primary and the clean-up of a reported unit, in their order with the early return |
| S3Markers.CoordinatesExactly | single_kernel_postgresql/managers/backup.py:593-610 | the leader closes an open round with the first report in order, or with what the application already holds; otherwise nothing changes |
| S3Markers.RelationHooksExactly | single_kernel_postgresql/events/postgresql.py:1558-1592 | after the coordination of a relation-changed hook: who attempts, where the outcome goes, and when the unit's report is cleared -- not after a failed attempt |
| S3Markers.OtherHooksExactly | single_kernel_postgresql/managers/backup.py:1303-1322 | credentials that go clear the unit's marks and, on the leader, the application's; a restore drops the block, and leaves a complaint as the only mark |
| S3Markers.StepsKeepInv | single_kernel_postgresql/managers/backup.py:262-610 | every hook, leader and primary moving, keeps the marker invariant |
| S3Markers.RunsKeepInv | single_kernel_postgresql/managers/backup.py:262-610 | over every run an open round implies no block message and no done marker, and neither the application's nor any unit's databag holds a stanza and a block together |
| S3Markers.MarkersAreReports | single_kernel_postgresql/managers/backup.py:514-531 | a done marker that appears during a run was put there by an attempt of that unit, and its databag is still that report |
| S3Markers.RoundsCloseWithTheirOwnReports | single_kernel_postgresql/managers/backup.py:593-610 | a round opened with no marker left over is only ever closed with a report made since it opened, stanza and block copied from it |
| S3Markers.RoundsCloseAtOnceExactlyOnLeftovers | single_kernel_postgresql/managers/backup.py:593-610 | a round just opened can be closed by copying if and only if some unit still holds a marker, and then with that old outcome |
| S3Markers.RoundsComeToAnEnd | single_kernel_postgresql/managers/backup.py:514-610 | opening, report, copy and clean-up in turn bring the primary's outcome to the application and leave no marker on any unit |
| S3Progress.EveryRoundCloses | single_kernel_postgresql/managers/backup.py:514-610 | with a fixed leader and primary and credentials that stay, every fair run closes an open round, whatever markers are left over |
| S3Markers.PrimariesReportAtOnce | single_kernel_postgresql/events/backup.py:87-88 | a primary that does not lead reports in the credentials-changed hook too, in its own databag only, and the leader's next hook closes the open round with it |
| S3Markers.LeadingPrimariesCloseAtOnce | single_kernel_postgresql/events/backup.py:85-88 | a leader that is also primary ends with its outcome in the application databag and no round open |
| S3Markers.LeadingReportersAnswerStale | single_kernel_postgresql/events/backup.py:85-88 | a reporter that becomes leader makes no new attempt and closes the round with its old report |
| PrefixMapping.SortedCopyIsSorted | single_kernel_postgresql/managers/database.py:193-193 | the copy is sorted (and a permutation) |
| PrefixMapping.SortingIsUnique | single_kernel_postgresql/managers/database.py:193-193 | sorted lists of the same elements are equal |
| PrefixMapping.StartsExactly | single_kernel_postgresql/managers/database.py:189-189 | a fitting prefix is a front part of the name |
| PrefixMapping.UsersExactly | single_kernel_postgresql/managers/database.py:184-210 | the users told are those of a fitting prefix when adding, and of an entry that holds the database when removing |
| PrefixMapping.ExtendedHolds | single_kernel_postgresql/managers/database.py:189-196 | an extended entry stays sorted, duplicate-free and within its prefix, and gains exactly a fitting database |
| PrefixMapping.ReducedHolds | single_kernel_postgresql/managers/database.py:204-207 | a reduced entry stays so and loses exactly the database |
| PrefixMapping.MappingsStaySound | single_kernel_postgresql/managers/database.py:184-210 | adding and removing keep every entry sound |
| PrefixMapping.AddingTwiceIsAddingOnce | single_kernel_postgresql/managers/database.py:184-198 | adding is idempotent and returns the same users again |
| PrefixMapping.RemovingUndoesAdding | single_kernel_postgresql/managers/database.py:184-210 | removing undoes adding a database no entry held, for the same users in the same order |
| PrefixMapping.AddingUndoesRemovingExactly | single_kernel_postgresql/managers/database.py:184-210 | adding undoes removing exactly if no entry of a fitting prefix lacked the database |
| DatabaseManager.PutEntries | single_kernel_postgresql/managers/database.py:171-176 | setting an entry replaces its relation's and no other |
| DatabaseManager.DroppedEntries | single_kernel_postgresql/managers/database.py:177-178 | unsetting drops its relation's entry and no other |
| DatabaseManager.PutStaysSoundExactly | single_kernel_postgresql/managers/database.py:161-182 | the mapping stays sound exactly if the entry set is |
| DatabaseManager.DatabaseManager.SetDatabasesPrefixMapping | single_kernel_postgresql/managers/database.py:161-182 | sets, unsets or leaves the mapping by the source's conditions |
| DatabaseManager.DatabaseManager.AddDatabaseToPrefixMapping | single_kernel_postgresql/managers/database.py:184-198 | the loop extends every fitting entry and returns the fitting users in order |
| DatabaseManager.DatabaseManager.RemoveDatabaseFromPrefixMapping | single_kernel_postgresql/managers/database.py:200-210 | the loop reduces every entry that holds the database and returns their users in order |
| SyncCount.CountIsInRange | single_kernel_postgresql/core/state.py:540-553 | the count lies between none and all but the leader exactly when a unit is planned, and is none only for a lone unit |
| SyncCount.CountIsMonotone | single_kernel_postgresql/core/state.py:540-553 | more planned units never ask for fewer standbys |
| SyncCount.SettingsMeanTheirWords | single_kernel_postgresql/core/state.py:540-553 | no admitted setting asks for more than all; a count is honoured up to that; majority is the least count with which the holders of a write are a majority |
| SyncCount.StrictAsksForAStandby | single_kernel_postgresql/core/state.py:555-569 | strict mode is on exactly in an initialised cluster of more than one member and more than one planned unit that wants it, so never with a count of none, and leaves the count as it is |
| SyncCount.MajoritiesHoldTheWrites | single_kernel_postgresql/core/state.py:546-547 | with majority, the leader and its standbys meet every majority of the planned units |
| SyncCount.EveryMajorityHoldsTheWritesExactly | single_kernel_postgresql/core/state.py:546-547 | for any count, that holds if and only if the leader and its standbys are at least half of the units |
| StatusMemo.PatroniManager.CachedClusterStatus | single_kernel_postgresql/managers/patroni.py:215-230 | the memo, unless empty or as old as the TTL |
| StatusMemo.PatroniManager.InvalidateClusterStatusCache | single_kernel_postgresql/managers/patroni.py:232-235 | the memo is dropped |
| StatusMemo.PatroniManager.ClusterStatus | single_kernel_postgresql/managers/patroni.py:237-274 | the answer and the memo left, credentials missing, memo served, endpoints answering or failing, own or other cluster |
| StatusMemo.ServedAnswersAreFresh | single_kernel_postgresql/managers/patroni.py:215-274 | over every run an answer served without a query is the latest fetch from this cluster, less than the TTL old, with no invalidation since |
| StatusMemo.FreshFetchesAreServed | single_kernel_postgresql/managers/patroni.py:215-274 | and such a fetch, if not empty, is always served |
| StatusMemo.SpacedPollsAreNeverMemoized | single_kernel_postgresql/managers/patroni.py:222-224 | a poll a TTL or more after every earlier one is answered by the endpoints |
| StatusMemo.OtherClustersLeaveNoTrace | single_kernel_postgresql/managers/patroni.py:245-249 | a query of other endpoints leaves the memo as if it had not been made |
| StatusMemo.OtherClustersAnswerThemselves | single_kernel_postgresql/managers/patroni.py:245-258 | over any two runs a query of other endpoints has the same answer: theirs, queried, with credentials, and nothing without |
| StatusMemo.NoCredentialsNoAnswer | single_kernel_postgresql/managers/patroni.py:237-244 | without credentials nothing is queried, served or memoised |
| StatusMemo.MemoHoldsTheLatestFetch | single_kernel_postgresql/managers/patroni.py:262-270 | what the memo holds is the latest fetch from this cluster |

## Left out

- Raft consensus, Patroni's elections, PostgreSQL itself: external; their answers are parameters.
- Raft recovery: units joining or leaving during a recovery, Patroni restarted by other paths, two hooks at once (Juju runs one hook of a unit at a time, but hooks of different units overlap; each is one atomic step here), and the relation-changed event that `_set_stuck_raft_flag` emits inside its own hook.
- RaftManager.ClusterMembershipManager.SetStuckRaftFlag: does not model the relation-changed event the leader emits inside the same hook; it is a hook of its own here.
- AsyncManager.AsyncReplicationManager.OnAsyncRelationChanged: a hook raises between stages; what a stage itself does is done together.
- Asynchronous replication: leadership moving or a second promotion during one barrier, `_on_async_relation_joined` on units that are not new, secrets and endpoints in the relation data, the watcher.
- LogicalGraph.DirectSubscriberCheckIsSubsumed: says nothing of a subscriber with several offer relations, for which `get_relation` raises in the source.
- LogicalChains.CheckPublisherCircularReplication: the refused tables are a set; the source sorts them for its message.
- OfferManager.LogicalReplicationOffer.Run: does not model privileges, users and secrets, nor the exceptions of PostgreSQL calls; the only raise modelled is that of a malformed table name.
- SubscriptionManager.LogicalReplicationSubscriber.ReconcileSubscriptions: does not model replication slots dropped on the publisher or calls of PostgreSQL that fail; a subscription to create that already exists raises, one to drop is taken to exist.
- SubscriptionManager.LogicalReplicationSubscriber.ApplyUpdatedSubscriptionRequest: does not model the request and identity it writes to the relation databag; the pushed request is a parameter.
- SubscriptionManager.LogicalReplicationSubscriber.ApplyChangedConfig: does not model the push before validation, whose result is the pushed request it is given, nor the marker of an ongoing validation.
- SubscriptionManager.LogicalReplicationSubscriber.CheckPublisherErrors: reported errors are read structurally, not by pattern from their text.
- OfferRuns.PublishedResources.CleanUpPublishedResources: does not model the users, secrets and slots it deletes besides the publications.
- `update_subscriptions_from_secret`, secret rotation and `handle_publisher_errors`: easy given the rest.
- Membership.ClusterMembershipManager.ReconfigureCluster: raises of `remove_raft_member` other than its own error class, and recovery keys appearing halfway, are not modelled.
- `remove_departed_members`, `update_member_ip` and `raft_reconnect`: the same list operations under other gates.
- S3Manager.BackupManager.InitialiseS3Repository: does not model the VM timeouts that raise, after which nothing is committed.
- S3Markers.RunsKeepInv: a hook that raises (the VM timeouts) is no step; the bucket, its model-uuid file, rendering and status texts are left out.
- DatabaseManager.DatabaseManager.SetDatabasesPrefixMapping: the entry's databases are the caller's; the SQL pattern they come from treats `_` and `%` in a prefix as wildcards, which PutStaysSoundExactly leaves to the caller.
- Username mapping, HBA rules and endpoints of the database manager: plain dictionary code.
- PrefixMapping.SortedCopyIsSorted: strings are compared by code point, without normalisation.
- SyncCount.MajoritiesHoldTheWrites: that Patroni keeps as many synchronous standbys as asked is taken from Patroni.
- Retry timing, unit and application statuses, the refresh gate, configuration rendering, TLS, LDAP, tracing, log rotation and observers: input and output, or plain plumbing.
