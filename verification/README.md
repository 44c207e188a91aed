# A verified model of the GPU cluster scheduler's control plane

This project models, in Dafny, the part of the GPU cluster scheduler that decides and records
who runs where: the scheduling tick with its placement and preemption planner, every request and
report that changes the same tables, the Redis lease that decides which replica may tick, the
per-client rate limiter, and the translation of a job filter into a query. `dafny verify
dfyconfig.toml` checks everything.

## How the model is built

* **Values and objects.** The rows of the two tables are datatypes (`Model.dfy`), and every
  operation has a specification on values: placing and planning (`Placement.dfy`,
  `Preemption.dfy`), one pass over the queue (`Tick.dfy`), the whole control plane as a state
  machine whose steps are Submit, Register, Heartbeat, SetNodeStatus, Report, Cancel and RunTick
  (`Cluster.dfy`). The code that works by updating objects is modelled by classes and loops
  (`NodeObjects.dfy`, `Services.dfy`, `Engine.dfy`, and the loops in `Placement.dfy`,
  `Preemption.dfy`, `Ordering.dfy`, `Lease.dfy`, `RateLimit.dfy`, `JobQuery.dfy`), each proved to
  compute its specification. `Engine.Scheduler.Tick` is the largest: a complete tick over node
  objects and tables is proved equal to the step `Cluster.DoTick`.
* **Theorems** are about the specifications: what each attempt of a tick keeps
  (`TickInvariants.dfy`, `TickLedger.dfy`, `TickFates.dfy`, `TickOutcomes.dfy`) and exactly when
  it places or evicts (`AttemptOutcomes.dfy`), in which order jobs are tried (`QueueOrder.dfy`),
  the planner against every set of victims it could have chosen (`PlannerTheorems.dfy`,
  `FewestVictims.dfy`), what each step of the state machine keeps and exactly when
  (`TableRows.dfy`, `ClusterInvariants.dfy`, `TickSteps.dfy`), what holds in every run
  (`Histories.dfy` without any condition, `RowRuns.dfy`, `Runs.dfy`, `FreshTicks.dfy`,
  `QuietRuns.dfy`, and per job and per node `JobHistories.dfy`, `NodeHistories.dfy`), shares
  (`FairShares.dfy`), aging (`Ordering.dfy`), the lease (`Lease.dfy`), the limiter and the query
  builder. `Witnesses.dfy` holds runs in which the code misbehaves, worked out with the help of
  `OneNode.dfy`.
* **Environment.** Clock readings, job ids and the order in which queries return their rows are
  parameters: every theorem about ticks holds for every row order. Two histories that no program
  reads are carried along: what each node lost to jobs stripped from it, and how often each job
  was requeued from a lost node.

## Assumptions

* Each request, report and tick is one atomic step, and store calls succeed. The code reads rows
  and writes absolute availability back without a transaction.
* Three things the code takes on trust are *not* assumed. The steps are modelled as they are, and
  the theorems say exactly when they are harmless, by a condition on the state before the step:
  a report about a job that is not active (`ClusterInvariants.ReportInv`), a repeated
  registration or one under the empty id (`ClusterInvariants.RegisterInv`), and a tick that evicts
  the same job twice (`TickLedger.DrainLedger`, `TickSteps.TickLedgerExact`). `Witnesses.dfy` shows
  runs where the harm happens. A run whose steps all meet these conditions is called admissible;
  only the accounts need it, and they need exactly that (`Runs.ConservationExact`). Retry budgets
  and losses need no condition, and assignments only need sound running reports and node ids that
  are not empty.
* A tick can be recognised as harmless from its queue alone if at most one queued job has the
  right to preempt (`FreshTicks.LonePreemptor`).

## Where the code differs from its own words

The model follows the code in each case.

* `FindPreemption` is documented to evict the fewest jobs. It compares only one greedy plan per
  node, and a greedy plan may evict a small job that a larger one makes unnecessary
  (`Witnesses.GreedyEvictsMore`). `FewestVictims.PlanIsFewestIff` says exactly when the words
  hold where one resource is short; `PlannerTheorems.BottleneckOptimal` says what holds always.
* `applyPreemption` leaves its victims in the running map, so a later job of the same tick can
  evict them again. The node is then over-committed (`Witnesses.DoubleEvictionOvercommits`), or
  the eviction is in vain, and then preemption need not come to an end
  (`Witnesses.PreemptionWithoutEnd`). It does come to an end as long as no eviction is in vain
  (`QuietRuns.PreemptionEnds`), which `QuietRuns.CapableIsProductive` and
  `QuietRuns.FreshPreemptionEnds` recognise in advance.
* A node may register under the empty id, and jobs are placed on it. But the empty id also stands
  for no node: such a job is left out of the running map, and neither its completion nor its
  cancellation gives anything back (`Witnesses.NamelessNodeKeepsResources`). The model keeps these
  three tests; the registration is the step whose condition rules the case out.
* First-fit is described by registration order; the nodes are listed by hostname. The model allows
  any order.
* Aging is said to guarantee that no job starves. It bounds who is tried earlier
  (`Ordering.NeverOvertaken`), but preemption compares base priorities only, so a starving job of
  low priority may still wait forever.
* Fair share is described by dominant resource; the code counts GPUs only.
* The leader context is said to be cancelled the moment leadership is lost. It is cancelled at the
  next failed renewal, so a slow leader can overlap with its successor (`Witnesses.TwoLeaders`,
  `Lease.SecondLeaderIff`).
* The rate limiter is said to drop idle keys; it never does.

## Model

| member | source | states |
|---|---|---|
| `NodeObjects.Node.Fits` | internal/models/node.go:46-51 | agrees with the row: the node is ready and every resource suffices |
| `NodeObjects.Node.Reserve` | internal/models/node.go:78-82 | the availability drops by the request in all three dimensions, and nothing else changes |
| `NodeObjects.Node.Release` | internal/models/node.go:85-98 | the request is added in all three dimensions, each clamped to the capacity |
| `Placement.FirstFitIndex` | internal/scheduler/placement.go:11-19 | finds a node exactly when one fits, and no earlier node fits |
| `Placement.BestFitIndex` | internal/scheduler/placement.go:24-61 | finds a node exactly when one fits: the one with the fewest free GPUs, then CPUs, then memory, then the first listed |
| `Placement.Place` | internal/scheduler/strategies.go:20-98 | placement fails exactly when no node fits; otherwise first-fit takes the first fitting node, and every other algorithm the one with the least left over |
| `Placement.FirstFitNode` | internal/scheduler/placement.go:11-19 | the scan with early return finds the first fitting node |
| `Placement.BestFitNode` | internal/scheduler/placement.go:24-46 | the loop with its running best finds the best-fitting node |
| `Preemption.FindPreemption` | internal/scheduler/preemption.go:21-73 | the nested loops return the cheapest of the per-node greedy plans |
| `Preemption.TakeVictims` | internal/scheduler/preemption.go:44-60 | the loop with three running totals stops at the first prefix that makes room |
| `Preemption.EligibleVictims` | internal/scheduler/preemption.go:29-35 | the loop collects exactly the strictly lower-priority jobs with a user, in order |
| `Preemption.Beats` | internal/scheduler/preemption.go:76-89 | fewer victims win; with equally many, the smaller sum of priorities |
| `Preemption.Cheapest` | internal/scheduler/preemption.go:62-66 | fewest victims win, then the smaller sum of priorities, then the earlier node; there is a winner exactly when some node has a plan |
| `Preemption.SumPriorityAdds` | internal/scheduler/preemption.go:83-89 | the sum adds over lists and is the priority of a single job |
| `Preemption.TakeFromIsFirst` | internal/scheduler/preemption.go:44-54 | no shorter prefix makes room, and the prefix taken does unless all are taken |
| `PlannerTheorems.PlannerComplete` | internal/scheduler/preemption.go:15-73 | a plan is found exactly when some ready node has some set of eligible, strictly lower-priority jobs whose eviction makes the request fit |
| `PlannerTheorems.PlanIsCheapest` | internal/scheduler/preemption.go:62-89 | against every other node's plan, the chosen one has fewer victims, or equally many with a smaller sum of priorities, or both equal and comes earlier |
| `PlannerTheorems.SparesTheOlder` | internal/scheduler/preemption.go:36-42 | an eligible job that is spared is more important than every victim of its node, or equally important and no younger |
| `PlannerTheorems.BottleneckOptimal` | internal/scheduler/preemption.go:36-54 | every set of eligible jobs that makes room contains a job at least as important as every job the plan evicts |
| `PlannerTheorems.NoVictimInVain` | internal/scheduler/preemption.go:47-54 | a prefix of the victim list makes room exactly when it is the whole list |
| `FewestVictims.PlanIsFewestIff` | internal/scheduler/preemption.go:15-73 | where only one resource can be short on each ready node, the plan of the planner evicts the fewest jobs that would do on any node exactly when on no ready node one fewer of the largest eligible jobs would do |
| `FewestVictims.PlanIsFewestIf` | internal/scheduler/preemption.go:15-73 | that condition, for some resource on each node, is enough whatever else is short |
| `FewestVictims.FewestIf` | internal/scheduler/preemption.go:36-60 | on one node, k evictions are needed if the k-1 largest eligible jobs leave some resource short |
| `Witnesses.GreedyEvictsMore` | internal/scheduler/preemption.go:15-73 | a whole family of clusters on which the planner evicts two jobs although one would do |
| `TickInvariants.PlaceOneAgrees` | internal/scheduler/engine.go:129-199 | every attempt keeps the agreement of loaded nodes, running map and tables |
| `TickInvariants.ViewAgreesWithStore` | internal/scheduler/engine.go:112-199 | at every boundary of a tick each loaded node equals its stored row, and the jobs still to be tried are still queued |
| `TickInvariants.RunningIsActivePlusEvicted` | internal/scheduler/engine.go:112-199 | the running map lists exactly the active jobs of each node plus the jobs evicted from it earlier in the tick, and these two never overlap |
| `TickInvariants.ReleaseAllSum` | internal/models/node.go:85-98 | releasing victims one after the other, clamping each time, equals one clamped release of their sum |
| `TickLedger.StepLedger` | internal/scheduler/engine.go:129-199 | an attempt keeps every account exactly when what it releases for already evicted jobs is nothing or is swallowed by the clamp |
| `TickLedger.DrainLedger` | internal/scheduler/engine.go:120-124 | the accounts balance at every boundary of a tick exactly when every attempt meets that condition |
| `TickOutcomes.SecondPlace` | internal/scheduler/engine.go:140-149 | after an eviction every algorithm places the job on the plan's node if its capacity covers the request, and otherwise nowhere |
| `TickOutcomes.NoWastedEviction` | internal/scheduler/engine.go:132-149 | if the victims are active and the accounts balance, the plan evicts somebody and the job is placed on exactly the plan's node |
| `TickOutcomes.EvictionNeverClamped` | internal/scheduler/engine.go:182-184 | under the same conditions, after each victim of the eviction loop the availability has grown by exactly the requests released so far |
| `TickOutcomes.PassIsMaximal` | internal/scheduler/engine.go:106-157 | without preemption, whoever is still queued after the pass fits on no node |
| `TickFates.PassFates` | internal/scheduler/engine.go:120-199 | through a pass, a job keeps its work and its row changes only by being placed or evicted; no node changes anything but its availability |
| `AttemptOutcomes.EvictsExactly` | internal/scheduler/engine.go:129-208 | an attempt evicts exactly when no node fits, preemption is on, the job has waited for the threshold or has priority 8 or more, and some set of less important jobs of one ready node would make room |
| `AttemptOutcomes.PlacesExactly` | internal/scheduler/engine.go:129-208 | with balanced accounts and victims that are still active, a job is placed exactly when some node fits or it may preempt and eviction can make room |
| `AttemptOutcomes.AttemptRecorded` | internal/scheduler/engine.go:152-179 | an attempt writes exactly one event, which says truly whether and where the job now runs, and lists the job under that node and nowhere else |
| `AttemptOutcomes.TriedInOrder` | internal/scheduler/engine.go:120-124 | a pass tries every job of the ordered queue exactly once and in that order, with one event for each |
| `Progress.AttemptRaises` | internal/scheduler/engine.go:129-199 | an attempt raises the sum over active jobs of (n+1)^priority by its placement, evictions included, or changes no job, exactly when it does not evict in vain |
| `Progress.PotentialBounds` | internal/api/handlers.go:39 | with priorities from 0 to 10 that sum is never above n(n+1)^10 |
| `Ordering.OrderRespects` | internal/scheduler/strategies.go:16-94 | for every algorithm the tried order is a permutation of the queue, and whoever must precede another does |
| `QueueOrder.FirstComeOrder` | internal/scheduler/placement.go:64-70 | first-fit and best-fit try older jobs first |
| `QueueOrder.PriorityFirstOrder` | internal/scheduler/strategies.go:44-58 | the priority algorithm tries a higher effective priority first, the older job on ties |
| `QueueOrder.FairOrder` | internal/scheduler/strategies.go:72-94 | fair share tries first whose team has fewer GPUs in use by its scheduled and running jobs, then the higher effective priority, then the older job |
| `QueueOrder.FairOrderWithoutGpus` | internal/scheduler/engine.go:255-257 | in a cluster without GPUs it orders by effective priority and age alone |
| `QueueOrder.TotalIsAll` | internal/scheduler/engine.go:250-253 | the listed capacities add up to those of the table, in any row order |
| `QueueOrder.ShareIs` | internal/scheduler/engine.go:249-263 | a team's share is the GPUs of its active jobs over those of all registered nodes, and zero for a team without any |
| `Ordering.AgingRounds` | internal/scheduler/strategies.go:103-109 | aging adds the minutes waited times the factor, rounded towards zero, and nothing before the job is created |
| `Ordering.NeverOvertaken` | internal/scheduler/strategies.go:100-109 | a job is ahead of one of equal or higher priority at all times exactly when that one arrives later by at least the minutes its priority lead is worth, despite truncation |
| `Ordering.OvertakingWindow` | internal/scheduler/strategies.go:44-58 | with priorities from 0 to 10, only jobs that arrive within 10/f minutes can ever be tried before a job |
| `Ordering.StampSort` | internal/scheduler/strategies.go:44-58 | sorting by stamped effective priorities gives the same order as comparing the jobs directly |
| `Ordering.PriorityOrder` | internal/scheduler/strategies.go:44-58 | the method that stamps first and then sorts returns that order |
| `Sorting.SortSorts` | internal/scheduler/placement.go:64-70 | the result of the stable sort is sorted |
| `Sorting.SortIsStable` | internal/scheduler/strategies.go:50-56 | tied elements keep their order |
| `ClusterInvariants.SubmitInv` | internal/api/handlers.go:19-73 | a submission, accepted or not, keeps the invariant |
| `ClusterInvariants.RegisterInv` | internal/store/nodes.go:26-50 | a registration keeps the invariant exactly when its id is not empty, a known node keeps its capacity and a new one's is not negative |
| `ClusterInvariants.HeartbeatInv` | internal/store/nodes.go:92-104 | a heartbeat, also one that revives a node, keeps the invariant |
| `ClusterInvariants.SetNodeStatusInv` | internal/api/handlers.go:161-175 | cordon, drain and uncordon keep the invariant |
| `ClusterInvariants.CancelInv` | internal/api/handlers.go:106-135 | a cancellation keeps the invariant, whatever state the job is in |
| `ClusterInvariants.ReportInv` | internal/grpc/server.go:97-136 | a report keeps the invariant exactly when the job is active, or has no node to give back to, or what it frees or claims without right amounts to nothing |
| `TickSteps.ReconcileInv` | internal/scheduler/engine.go:212-245 | stripping the jobs of stale nodes keeps the invariant, with what they held booked as lost |
| `TickSteps.QueuePending` | internal/scheduler/engine.go:92-118 | the ordered queue holds exactly the queued jobs, each once, none of them listed as running |
| `TickSteps.GroupOrder` | internal/scheduler/engine.go:112-118 | the running map lists under each node exactly its active jobs, in the order they were listed |
| `TickSteps.TickLedgerExact` | internal/scheduler/engine.go:82-125 | the accounts balance throughout a tick exactly when no attempt releases for jobs it does not hold |
| `TickSteps.TickInv` | internal/scheduler/engine.go:82-125 | such a tick keeps the invariant |
| `Runs.StepExact` | internal/grpc/server.go:36-136 | every step other than a tick keeps the invariant exactly when its condition on the state before it holds |
| `Runs.Conservation` | internal/scheduler/engine.go:82-245 | in every admissible run each node's capacity is exactly what is free, plus the requests of its active jobs, plus what it lost; so no node is over-committed |
| `Runs.ConservationExact` | internal/scheduler/engine.go:82-245 | the accounts balance after every step of a run and at every boundary of every tick exactly when the run is admissible |
| `Runs.ClampNeverBites` | internal/models/node.go:85-98 | while the accounts balance, the release of a report or a cancellation never reaches the clamp |
| `Histories.LossOnlyFromStaleNodes` | internal/scheduler/engine.go:212-245 | in any state, a node's loss grows only in a tick that finds it stale, by exactly what its active jobs held |
| `Histories.LossIsForever` | internal/scheduler/engine.go:229-244 | in every run at all, what a node lost it never gets back |
| `RowRuns.RowsExact` | internal/grpc/server.go:36-121 | every step keeps the rows in order (keys, requests, priorities, assignments) exactly when it is neither a running report about a job that is inactive and names no live node, nor a registration under the empty id; ticks, completions and every other registration always do |
| `RowRuns.RowsThroughout` | internal/grpc/server.go:36-121 | over every run from an empty cluster, the rows are in order throughout exactly when no step of it is such a report or registration |
| `RowRuns.AssignmentSafety` | internal/scheduler/engine.go:212-245 | in every run without such reports and registrations, whatever else happens in it, an active job sits on a registered node that is not down, and a waiting job has no node |
| `Histories.RetryBudget` | internal/scheduler/engine.go:229-244 | in every run at all, a job is requeued from lost nodes at most as often as its retry budget allows, although preemptions use the same counter |
| `JobHistories.SubmittedIsTried` | internal/api/handlers.go:19-73 | a submission changes nothing if it is invalid; otherwise it adds one job, as asked for with its priority brought into 0 to 10, and a tick that follows tries it |
| `JobHistories.LostJobReturns` | internal/scheduler/engine.go:212-245 | a job on a node found lost is queued again without a node and with one more retry, or failed if its retries are used up; no other job changes |
| `JobHistories.LostJobIsTried` | internal/scheduler/engine.go:86-110 | the tick that finds the node lost tries the returned job at once, with the same work |
| `JobHistories.ReportRecords` | internal/grpc/server.go:97-136 | a report of running, completed or failed sets that job's status and no other field; any other report changes nothing |
| `JobHistories.CancelRecords` | internal/api/handlers.go:106-135 | cancelling makes an unfinished job cancelled and changes no other job; a finished one is left alone |
| `JobHistories.FinishedStays` | internal/api/handlers.go:117-120 | over every sequence of steps without a report about it, a finished job keeps its row as it is |
| `JobHistories.RunKeepsIds` | internal/store/jobs.go:131-155 | in every run each job row carries its own key |
| `JobHistories.NeverPreempted` | internal/scheduler/engine.go:182-190 | in every run no job is left in the preempted state |
| `NodeHistories.NodeFollows` | internal/store/nodes.go:26-133 | what each step makes of a node's row but for its availability: which fields a repeated registration overwrites, that a heartbeat revives only a down node, that a tick takes down exactly the stale ones |
| `NodeHistories.NewNodeIsReady` | internal/grpc/server.go:36-58 | a new node starts ready, entirely free and heard of now |
| `NodeHistories.HeartbeatBuysTime` | internal/store/nodes.go:92-133 | after a heartbeat, a tick finds the node down exactly if it comes later than the time to live |
| `NodeHistories.OnlyReadyNodesFill` | internal/models/node.go:22-51 | a tick gives no new job to a node that was not ready |
| `NodeHistories.ShutNodeEmpties` | internal/models/node.go:22-51 | over every run during which a node is cordoned, draining or down, jobs only ever leave it, unless a running report revives one |
| `RowRuns.TickIsMaximal` | internal/scheduler/engine.go:82-157 | with preemption off, a job that was in a tick's queue and is still queued after it fits on no node, for every algorithm and row order, whatever the accounts say |
| `FreshTicks.FreshTickHarmless` | internal/scheduler/engine.go:182-199 | a tick that evicts nobody twice is harmless |
| `FreshTicks.LonePreemptor` | internal/scheduler/engine.go:203-208 | a tick whose queue holds at most one job with the right to preempt is harmless |
| `QuietRuns.PreemptionEnds` | internal/scheduler/engine.go:129-199 | with n jobs and no arrivals, completions, cancellations or node losses, as long as no tick evicts in vain, no run makes more than n(n+1)^10 placements nor more than n evictions per placement, whatever heartbeats, registrations under an id, operator commands and running reports it holds; if no tick evicts a job twice, at most n evictions beyond its placements |
| `QuietRuns.FreshPreemptionEnds` | internal/scheduler/engine.go:129-199 | starting with balanced accounts, not evicting anybody twice in a tick is enough for these bounds |
| `QuietRuns.CapableIsProductive` | internal/scheduler/engine.go:140-157 | no attempt of a tick evicts in vain if every queued job with the right to preempt could be held by every ready node |
| `FairShares.SharesSumToAtMostOne` | internal/scheduler/engine.go:249-263 | the shares of any teams, each counted once, add up to at most one |
| `FairShares.ShareInUnitInterval` | internal/scheduler/algorithm.go:29 | every share lies between zero and one |
| `Witnesses.DoubleEvictionOvercommits` | internal/scheduler/engine.go:182-199 | a run from an empty cluster whose accounts balance until a tick puts six GPUs' worth of jobs on a node of four and takes a job past its retry budget |
| `Witnesses.PreemptionWithoutEnd` | internal/scheduler/engine.go:140-199 | a run from an empty cluster in which every heartbeat and tick, without limit and at any times, place two jobs and evict them again for a third that fits on no node, while the accounts balance |
| `Witnesses.ReportHarms` | internal/grpc/server.go:125-136 | a repeated completion report for a GPU job breaks the accounts of every node that is not entirely free |
| `Witnesses.RepeatedReportOvercommits` | internal/grpc/server.go:125-136 | a run from an empty cluster after which this frees all GPUs of a node that another job fills |
| `Witnesses.NamelessNodeKeepsResources` | internal/grpc/server.go:125-127 | a run from an empty cluster on a node with the empty id, at whose end nothing is active, nothing was lost, and nothing is free |
| `Engine.LoadObjects` | internal/store/nodes.go:63-78 | one fresh object per listed row, in order |
| `Engine.GroupRunning` | internal/scheduler/engine.go:112-118 | the loop builds the running map |
| `Engine.Scheduler.CommitPlacement` | internal/scheduler/engine.go:160-179 | objects, running map, tables and records change as the placement step says |
| `Engine.Scheduler.CarryOut` | internal/scheduler/engine.go:182-199 | the eviction loop changes object, tables and log as the eviction step says |
| `Engine.Scheduler.Attempt` | internal/scheduler/engine.go:129-157 | place, else preempt and place again, else give up: equals one attempt of the specification |
| `Engine.Scheduler.Drain` | internal/scheduler/engine.go:120-124 | the loop over the ordered queue equals the pass of the specification |
| `Engine.Scheduler.ReconcileDeadNodes` | internal/scheduler/engine.go:212-245 | with its early return and its loop over active jobs, equals reconciliation of the specification |
| `Engine.Scheduler.TeamShareMap` | internal/scheduler/engine.go:249-263 | the loops compute each team's active GPUs over the total capacity, and nothing without capacity |
| `Engine.Scheduler.Tick` | internal/scheduler/engine.go:82-125 | a tick over objects and tables equals the tick step of the state machine, for the row order its queries return |
| `Services.TallyTeams` | internal/store/jobs.go:166-184 | grouping and summing row by row gives each team's sum over the whole table, for exactly the teams with active jobs |
| `ClusterInvariants.UsedAfterEnd` | internal/store/jobs.go:131-139 | writing a final status takes a job's share out of the use of its node and out of no other |
| `TickInvariants.EvictedUsed` | internal/store/jobs.go:150-155 | requeueing a victim takes exactly what it held out of the use of every node |
| `TickLedger.CommitBalance` | internal/store/jobs.go:142-146 | scheduling a job and writing the new availability leave the sum of free and used unchanged on every node |
| `TickSteps.ReconcileUsed` | internal/store/nodes.go:114-133 | once stale nodes are marked down and stripped, nothing is in use on them and the use of every other node is unchanged |
| `Services.NodeServer.Register` | internal/grpc/server.go:36-58 | equals the registration step |
| `Services.NodeServer.Heartbeat` | internal/grpc/server.go:61-73 | equals the heartbeat step; an agent is never told that its node is down |
| `Services.NodeServer.UpdateJobStatus` | internal/grpc/server.go:97-121 | equals the report step, with the acknowledgement for unknown jobs and unsupported statuses |
| `Services.NodeServer.ReleaseAndFinalize` | internal/grpc/server.go:125-136 | gives the request back to the row's node, if any, and records the status |
| `Services.ApiServer.Complaint` | internal/api/handlers.go:59-73 | there is no complaint exactly when the payload is valid |
| `Services.ApiServer.SubmitJob` | internal/api/handlers.go:19-57 | equals the submission step, and answers created or bad request exactly when it should |
| `Services.ApiServer.CancelJob` | internal/api/handlers.go:106-135 | equals the cancellation step, with the answers for unknown and finished jobs |
| `Services.ApiServer.SetNodeStatus` | internal/api/handlers.go:165-175 | equals the status step, with the answer for unknown nodes |
| `Lease.MutualExclusion` | internal/redisx/leader.go:58-117 | in every timed run, of two replicas inside `lead` one has been there past the lease time of its last acknowledgement |
| `Lease.SecondLeaderIff` | internal/redisx/leader.go:84-91 | an acquire makes a second leader exactly when the key has run out while another replica overstays |
| `Lease.OthersCannotTouch` | internal/redisx/leader.go:12-27 | while a replica leads within its lease, no step of another replica changes its key or its phase |
| `Lease.PromptReplicasExclude` | internal/redisx/leader.go:93-111 | if renewals are heard and `lead` stops within less than the lease time, at most one replica is inside `lead` in every run |
| `Lease.Failover` | internal/redisx/leader.go:58-91 | from every reachable world: if the owner stops renewing and a standby retries at its interval, some replica takes the key within lease time plus interval, for every interleaving, and leads if no reply to an acquire is lost |
| `Lease.AcquirerLeads` | internal/redisx/leader.go:84-91 | in every reachable world, a standby that finds the key free leads for at least a lease time |
| `Lease.LeaderStays` | internal/redisx/leader.go:93-111 | a leader whose every renewal comes and is heard in time stays leader and keeps the key, whatever the others do |
| `Lease.RenewalDecides` | internal/redisx/leader.go:21-27 | a renewal keeps the leader leading exactly when the key is still its own, and then for a full lease time from now; otherwise it must stop and the key is untouched |
| `Lease.HandOver` | internal/redisx/leader.go:71-74 | a leader that returns and releases frees the key at once, and any standby that asks next leads |
| `Lease.LostRepliesDelay` | internal/redisx/leader.go:84-108 | a lost reply to an acquire or a renewal, or a late renewal, keeps a standby out for exactly a lease time, though the replica concerned does not lead |
| `Lease.AbandonedKeyDelays` | internal/redisx/leader.go:71-75 | after a crash, or a release that was not sent, a standby gets the key exactly when it has run out |
| `Lease.LeasesRunOut` | internal/redisx/leader.go:84-111 | in every run the key never outlives the lease time counted from now |
| `Lease.Elector.Campaign` | internal/redisx/leader.go:66-71 | one turn of the campaign loop equals the acquire step |
| `Lease.Elector.KeepAlive` | internal/redisx/leader.go:95-111 | one turn of the keep-alive loop equals the renewal step, cancelling on failure |
| `Lease.Elector.StepDown` | internal/redisx/leader.go:71-74 | returning from `lead` and releasing equal the two steps |
| `Witnesses.TwoLeaders` | internal/redisx/leader.go:55-57 | a leader that overstays a whole lease time shares the lead |
| `RateLimit.TokensInRange` | internal/api/ratelimit.go:22-37 | tokens stay between zero and the capacity through every sequence of calls |
| `RateLimit.RateBound` | internal/api/ratelimit.go:22-37 | between any two moments at most the capacity plus rate times their distance is allowed, for every sequence of calls |
| `RateLimit.AllowedExactly` | internal/api/ratelimit.go:22-37 | a call is allowed exactly when it fits the capacity plus the refill since each earlier call, counting those allowed in between |
| `RateLimit.SteadyClientNeverRefused` | internal/api/ratelimit.go:18-37 | calls at least 1/rate apart are never refused when the capacity is at least one |
| `RateLimit.TooSmallRefusesAll` | internal/api/ratelimit.go:22-37 | a capacity below one refuses every call |
| `RateLimit.KeyIsolation` | internal/api/ratelimit.go:56-65 | in every interleaving over any keys, a key gets the decisions of a bucket of its own for its calls alone |
| `RateLimit.KeyRateBound` | internal/api/ratelimit.go:22-65 | in every interleaving over any keys, each key is allowed at most the capacity plus rate times the distance, between any two moments |
| `RateLimit.TokenBucket.TryTake` | internal/api/ratelimit.go:22-37 | the method equals one call of the specification |
| `RateLimit.RateLimiter.TryTake` | internal/api/ratelimit.go:56-65 | creating a bucket on first use and taking from it equal one call, and no other key's bucket changes |
| `JobQuery.BuildQuery` | internal/store/jobs.go:63-110 | the running counter numbers every placeholder by its argument, every argument is used once and in order, the conditions select exactly what the filter asks for, and the limit is bound last |
| `JobQuery.AddStatuses` | internal/store/jobs.go:74-82 | numbering one placeholder per status adds exactly the condition that the status is one of them, and leaves the counter at the next argument |

## Left out

- Concurrency inside a step: rows are read and written back without a transaction, and the model takes each request, report and tick as atomic.
- Failing store calls: the rollback of a placement whose row could not be written, and ticks cut short by a failed query.
- Clock readings within a tick: staleness, ordering and the right to preempt use one moment, where the code reads the clock three times.
- Floating-point rounding and integer width: times, shares, tokens and aging are reals, resources are unbounded integers.
- `started_at`, `completed_at`, names, images, commands and cost of jobs, and the text of reasons and events.
- SQL text, row order and collation; the newest-first order of listings is one of the row orders every theorem covers.
- Redis details: milliseconds, and the exact moment of expiry (a key is live strictly before it).
- Lease: the ticker of the campaign loop is a bound on the time between attempts, not a loop.
- A freedom-from-starvation claim for preemption, which the code does not provide.
- FewestVictims.PlanIsFewestIff: exact only where one resource can be short on each node; with several scarce resources on one node the fewest victims are a covering problem without such a test, and `PlanIsFewestIf` gives one direction.
- TickSteps.TickInv: one direction; the exact condition is about the accounts at every boundary of the tick (`TickLedgerExact`), since a later step could hide an earlier imbalance.
- Log streaming, assignments polling, utilization and fragmentation figures, team quotas, algorithm names and configuration: easy members only.
- Metrics, logging, HTTP and gRPC wiring, authentication, the agent's simulated workload, the web interface and deployment.
