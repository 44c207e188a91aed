/** What becomes of a job: submitted, lost, reported, finished. */
module JobHistories {
  import opened Sorting
  import opened Model
  import opened Placement
  import opened Preemption
  import opened PlannerTheorems
  import opened Ordering
  import opened Tick
  import opened TickInvariants
  import opened Cluster
  import opened TickSteps
  import opened Histories

  // ----- submission

  /** The number from 0 to 10 that is nearest to `asked`. */
  predicate Nearest(p: int, asked: int) {
    0 <= p <= 10 && (0 <= asked <= 10 ==> p == asked) && (asked < 0 ==> p == 0) && (asked > 10 ==> p == 10)
  }

  /** The payload names a user, asks for no negative amount, for at least one GPU or CPU, and for at
      most 64 GPUs. */
  predicate Acceptable(s: Submission) {
    && s.userId != "" && s.req.gpu >= 0 && s.req.cpu >= 0 && s.req.mem >= 0
    && (s.req.gpu > 0 || s.req.cpu > 0) && s.req.gpu <= 64
  }

  /** A queued job is listed and tried by every tick that finds it queued. */
  lemma ListedIsTried(cfg: Config, c: State, now: real, l: Listing, id: JobId)
    requires Lists(c, l) && id in c.jobs && c.jobs[id].status == Queued
    ensures id in l.queued && c.jobs[id] in TickQueue(cfg, c, now, l)
  {
    hide Before, TeamShares;
    assert id in l.queued;
    var i :| 0 <= i < |l.queued| && l.queued[i] == id;
    assert LoadJobs(c.jobs, l.queued)[i] == c.jobs[id];
    var less := Before(cfg.alg, now, cfg.agingFactor, TeamShares(c.jobs, LoadNodes(c.nodes, l.nodes)));
    assert c.jobs[id] in StableSort(LoadJobs(c.jobs, l.queued), less);
  }

  predicate AsAsked(j: Job, id: JobId, s: Submission, retries: int, at: real) {
    && j.id == id && j.userId == s.userId && j.teamId == s.teamId && j.req == s.req
    && Nearest(j.priority, s.priority) && j.status == Queued && j.node == None
    && j.retries == 0 && j.createdAt == at
    && (s.maxRetries > 0 ==> j.maxRetries == s.maxRetries) && (s.maxRetries <= 0 ==> j.maxRetries == retries)
  }

  lemma SubmittedAsAsked(c: State, id: JobId, s: Submission, retries: int, at: real)
    ensures var c' := DoSubmit(c, id, s, retries, at);
            if !Acceptable(s) || id in c.jobs then c' == c
            else
              && c'.nodes == c.nodes && c'.jobs.Keys == c.jobs.Keys + {id}
              && (forall k :: k in c.jobs ==> c'.jobs[k] == c.jobs[k])
              && c'.jobs[id].status == Queued && AsAsked(c'.jobs[id], id, s, retries, at)
  {
  }

  /** An acceptable payload under a new id adds a job, and nothing else changes; the next tick tries
      that job as it was asked for, with its priority brought into the range from 0 to 10, no
      retries used, the default budget unless a positive one was asked for, and its age counted
      from the submission. Any other payload changes nothing. */
  lemma SubmittedIsTried(cfg: Config, c: State, id: JobId, s: Submission, retries: int, at: real, now: real, l: Listing)
    ensures var c' := DoSubmit(c, id, s, retries, at);
            if !Acceptable(s) || id in c.jobs then c' == c
            else
              && c'.nodes == c.nodes && c'.jobs.Keys == c.jobs.Keys + {id}
              && (forall k :: k in c.jobs ==> c'.jobs[k] == c.jobs[k])
              && (Lists(c', l) ==> exists j :: j in TickQueue(cfg, c', now, l) && AsAsked(j, id, s, retries, at))
  {
    SubmittedAsAsked(c, id, s, retries, at);
    var c' := DoSubmit(c, id, s, retries, at);
    hide DoSubmit, AsAsked, Lists, TickQueue;
    if Acceptable(s) && id !in c.jobs && Lists(c', l) {
      ListedIsTried(cfg, c', now, l, id);
    }
  }

  // ----- lost nodes

  /** The job is active on a node that is not down but was last heard of before `now - ttl`. */
  predicate OnLostNode(c: State, j: Job, now: real, ttl: real) {
    && (j.status == Scheduled || j.status == Running)
    && j.NodeName() in c.nodes && c.nodes[j.NodeName()].status != Down
    && c.nodes[j.NodeName()].lastHeartbeat < now - ttl
  }

  /** In any state: a job active on a lost node goes back to the queue without its node and with one
      more retry while it has retries left, and fails where it is otherwise. No other job changes. */
  lemma LostJobReturns(c: State, now: real, ttl: real, id: JobId)
    requires id in c.jobs
    ensures var j, after := c.jobs[id], Reconcile(c, now, ttl).jobs;
            && after.Keys == c.jobs.Keys
            && after[id] == if !OnLostNode(c, j, now, ttl) then j
                            else if j.retries >= j.maxRetries then j.(status := Failed)
                            else j.(status := Queued, node := None, retries := j.retries + 1)
  {
  }

  /** The tick that finds the node lost tries the returned job at once. */
  lemma LostJobIsTried(cfg: Config, c: State, now: real, l: Listing, id: JobId)
    requires id in c.jobs && OnLostNode(c, c.jobs[id], now, cfg.heartbeatTtl)
    requires c.jobs[id].retries < c.jobs[id].maxRetries
    requires Lists(Reconcile(c, now, cfg.heartbeatTtl), l)
    ensures id in l.queued
    ensures exists j :: j in TickQueue(cfg, Reconcile(c, now, cfg.heartbeatTtl), now, l) && SameWork(j, c.jobs[id])
  {
    hide Lists, TickQueue;
    var r := Reconcile(c, now, cfg.heartbeatTtl);
    LostJobReturns(c, now, cfg.heartbeatTtl, id);
    ListedIsTried(cfg, r, now, l, id);
    assert SameWork(r.jobs[id], c.jobs[id]);
  }

  // ----- reports and cancellations

  /** A report that a known job runs, completed or failed records exactly that status and changes no
      other job; any other report changes nothing. */
  lemma ReportRecords(c: State, id: JobId, s: JobStatus)
    ensures var c' := DoReport(c, id, s);
            if id in c.jobs && (s == Running || s == Completed || s == Failed)
            then c'.jobs == c.jobs[id := c.jobs[id].(status := s)]
            else c' == c
  {
  }

  /** A cancellation makes any unfinished job cancelled and changes no other job. */
  lemma CancelRecords(c: State, id: JobId)
    ensures var c' := DoCancel(c, id);
            if id in c.jobs && c.jobs[id].status !in {Completed, Failed, Cancelled}
            then c'.jobs == c.jobs[id := c.jobs[id].(status := Cancelled)]
            else c' == c
  {
  }

  // ----- jobs a pass does not touch

  /** The running map does not list the job. */
  ghost predicate Unlisted(running: RunningMap, id: JobId) {
    forall n, r :: r in Occupants(running, n) ==> r.id != id
  }

  ghost predicate Untouched(v: TickView, r: TickView, id: JobId) {
    && r.jobs.Keys == v.jobs.Keys && (id in v.jobs ==> r.jobs[id] == v.jobs[id])
    && Unlisted(r.running, id)
  }

  lemma CommitUntouched(v: TickView, job: Job, i: nat, id: JobId)
    requires i < |v.nodes| && job.id != id && Unlisted(v.running, id)
    ensures Untouched(v, Commit(v, job, i), id)
  {
    var r := Commit(v, job, i);
    forall n, x | x in Occupants(r.running, n)
      ensures x.id != id
    {
      assert x in Occupants(v.running, n) || x == job;
    }
  }

  lemma VictimsListed(job: Job, v: TickView, plan: Plan, id: JobId)
    requires FindPlan(job, v.nodes, v.running) == Some(plan) && Unlisted(v.running, id)
    ensures !Names(plan.victims, id)
  {
    var n := v.nodes[plan.at];
    assert PlanAt(job, v.nodes, v.running, plan.at) == Some(plan.victims);
    hide FindPlan;
    PlanSplits(job, n, Occupants(v.running, n.id));
    NamesIndex(plan.victims, id);
    hide NodePlan;
    forall k | 0 <= k < |plan.victims|
      ensures plan.victims[k].id != id
    {
      assert plan.victims[k] in plan.victims;
    }
  }

  lemma EvictUntouched(job: Job, v: TickView, plan: Plan, id: JobId)
    requires FindPlan(job, v.nodes, v.running) == Some(plan) && Unlisted(v.running, id)
    ensures Untouched(v, ApplyPreemption(v, plan), id)
  {
    VictimsListed(job, v, plan, id);
    EvictAllKeys(v.jobs, plan.victims);
    hide FindPlan;
    if id in v.jobs {
      EvictAllRows(v.jobs, plan.victims, id);
    }
  }

  lemma AttemptUntouched(cfg: Config, v: TickView, job: Job, now: real, id: JobId)
    requires job.id != id && Unlisted(v.running, id)
    ensures Untouched(v, PlaceOne(cfg, v, job, now), id)
  {
    hide FindPlan, EvictAll, ReleaseAll, Unlisted;
    var first := Place(cfg.alg, v.nodes, job.req);
    if first.Some? {
      CommitUntouched(v, job, first.value, id);
    } else if PlanFor(cfg, v, job, now).Some? {
      var plan := PlanFor(cfg, v, job, now).value;
      var e := ApplyPreemption(v, plan);
      EvictUntouched(job, v, plan, id);
      var second := Place(cfg.alg, e.nodes, job.req);
      if second.Some? {
        CommitUntouched(e, job, second.value, id);
      }
    }
  }

  lemma {:induction false} PassUntouched(cfg: Config, v: TickView, queue: seq<Job>, now: real, k: nat, id: JobId)
    requires k <= |queue| && Unlisted(v.running, id) && forall j :: j in queue ==> j.id != id
    ensures Untouched(v, Boundary(cfg, v, queue, now, k), id)
    decreases k
  {
    hide PlaceOne, Unlisted;
    if k > 0 {
      PassUntouched(cfg, v, queue, now, k - 1, id);
      assert queue[k - 1] in queue;
      AttemptUntouched(cfg, Boundary(cfg, v, queue, now, k - 1), queue[k - 1], now, id);
    }
  }

  // ----- finished jobs

  /** Every job row carries its key. */
  predicate IdsKept(jobs: Jobs) {
    forall id :: id in jobs ==> jobs[id].id == id
  }

  lemma TickKeepsIds(cfg: Config, c: State, now: real, l: Listing)
    requires IdsKept(c.jobs)
    ensures IdsKept(DoTick(cfg, c, now, l).jobs)
  {
    var r, c' := Reconcile(c, now, cfg.heartbeatTtl), DoTick(cfg, c, now, l);
    TickTables(cfg, c, now, l);
    hide DoTick, Lists;
    if Lists(r, l) {
      forall id | id in c'.jobs
        ensures c'.jobs[id].id == id
      {
        LostJobReturns(c, now, cfg.heartbeatTtl, id);
        assert SameWork(r.jobs[id], c'.jobs[id]);
      }
    }
  }

  lemma StepKeepsIds(cfg: Config, c: State, op: Op)
    requires IdsKept(c.jobs)
    ensures IdsKept(Apply(cfg, c, op).jobs)
  {
    hide DoTick;
    match op
    case RunTick(now, l) => TickKeepsIds(cfg, c, now, l);
    case _ =>
  }

  lemma {:induction false} RunKeepsIds(cfg: Config, ops: seq<Op>)
    ensures IdsKept(Run(cfg, EMPTY, ops).jobs)
    decreases ops
  {
    hide Apply, IdsKept;
    if ops == [] {
      NoIds();
    } else {
      var k := |ops| - 1;
      RunKeepsIds(cfg, ops[..k]);
      StepKeepsIds(cfg, Run(cfg, EMPTY, ops[..k]), ops[k]);
    }
  }

  lemma NoIds()
    ensures IdsKept(EMPTY.jobs)
  {
  }

  lemma InactiveUnlisted(c: State, l: Listing, id: JobId)
    requires IdsKept(c.jobs) && Lists(c, l) && id in c.jobs && !c.jobs[id].status.IsActive()
    ensures Unlisted(GroupByNode(LoadJobs(c.jobs, l.active)), id)
  {
    var js := LoadJobs(c.jobs, l.active);
    forall n, r | r in Occupants(GroupByNode(js), n)
      ensures r.id != id
    {
      GroupMembers(js, n, r);
      var i :| 0 <= i < |js| && js[i] == r;
      assert l.active[i] in l.active;
    }
  }

  lemma UnqueuedUntried(cfg: Config, c: State, now: real, l: Listing, id: JobId)
    requires IdsKept(c.jobs) && Lists(c, l) && id in c.jobs && c.jobs[id].status != Queued
    ensures forall j :: j in TickQueue(cfg, c, now, l) ==> j.id != id
  {
    hide Before, TeamShares;
    var less := Before(cfg.alg, now, cfg.agingFactor, TeamShares(c.jobs, LoadNodes(c.nodes, l.nodes)));
    var loaded := LoadJobs(c.jobs, l.queued);
    forall j | j in StableSort(loaded, less)
      ensures j.id != id
    {
      assert j in loaded;
      var i :| 0 <= i < |loaded| && loaded[i] == j;
      assert l.queued[i] in l.queued;
    }
  }

  lemma FinishedPass(cfg: Config, c: State, now: real, l: Listing, id: JobId)
    requires IdsKept(c.jobs) && Lists(c, l) && id in c.jobs && c.jobs[id].status.IsTerminal()
    ensures var v := TickEnd(cfg, c, now, l); id in v.jobs && v.jobs[id] == c.jobs[id]
  {
    InactiveUnlisted(c, l, id);
    UnqueuedUntried(cfg, c, now, l, id);
    hide Boundary, TickQueue, Unlisted;
    var queue := TickQueue(cfg, c, now, l);
    PassUntouched(cfg, Snapshot(c, l), queue, now, |queue|, id);
  }

  lemma ReconcileKeepsIds(c: State, now: real, ttl: real)
    requires IdsKept(c.jobs)
    ensures IdsKept(Reconcile(c, now, ttl).jobs)
  {
  }

  lemma FinishedTick(cfg: Config, c: State, now: real, l: Listing, id: JobId)
    requires IdsKept(c.jobs) && id in c.jobs && c.jobs[id].status.IsTerminal()
    ensures var c' := DoTick(cfg, c, now, l); id in c'.jobs && c'.jobs[id] == c.jobs[id]
  {
    var r := Reconcile(c, now, cfg.heartbeatTtl);
    LostJobReturns(c, now, cfg.heartbeatTtl, id);
    ReconcileKeepsIds(c, now, cfg.heartbeatTtl);
    hide TickEnd, IdsKept, Reconcile;
    if Lists(r, l) {
      FinishedPass(cfg, r, now, l, id);
    }
  }

  lemma FinishedStep(cfg: Config, c: State, op: Op, id: JobId)
    requires IdsKept(c.jobs) && id in c.jobs && c.jobs[id].status.IsTerminal() && !(op.Report? && op.job == id)
    ensures var c' := Apply(cfg, c, op); id in c'.jobs && c'.jobs[id] == c.jobs[id]
  {
    hide DoTick, IdsKept;
    match op
    case RunTick(now, l) => FinishedTick(cfg, c, now, l, id);
    case _ =>
  }

  /** A job that completed, failed or was cancelled stays as it is through every run in which no
      agent reports about it again. */
  lemma {:induction false} FinishedStays(cfg: Config, c: State, ops: seq<Op>, id: JobId)
    requires IdsKept(c.jobs) && id in c.jobs && c.jobs[id].status in {Completed, Failed, Cancelled}
    requires forall op :: op in ops ==> !(op.Report? && op.job == id)
    ensures var c' := Run(cfg, c, ops); IdsKept(c'.jobs) && id in c'.jobs && c'.jobs[id] == c.jobs[id]
    decreases ops
  {
    hide Apply, IdsKept;
    if ops != [] {
      var k := |ops| - 1;
      assert ops[k] in ops && forall op :: op in ops[..k] ==> op in ops;
      FinishedStays(cfg, c, ops[..k], id);
      StepKeepsIds(cfg, Run(cfg, c, ops[..k]), ops[k]);
      FinishedStep(cfg, Run(cfg, c, ops[..k]), ops[k], id);
    }
  }

  // ----- nobody stays preempted

  ghost predicate NonePreempted(jobs: Jobs) {
    forall id :: id in jobs ==> jobs[id].status != Preempted
  }

  lemma EvictNonePreempted(jobs: Jobs, vs: seq<Job>)
    requires NonePreempted(jobs)
    ensures NonePreempted(EvictAll(jobs, vs))
  {
    EvictAllKeys(jobs, vs);
    forall id | id in jobs
      ensures EvictAll(jobs, vs)[id].status != Preempted
    {
      EvictAllRows(jobs, vs, id);
    }
  }

  lemma CommitNonePreempted(v: TickView, job: Job, i: nat)
    requires NonePreempted(v.jobs) && i < |v.nodes|
    ensures NonePreempted(Commit(v, job, i).jobs)
  {
  }

  lemma AttemptNonePreempted(cfg: Config, v: TickView, job: Job, now: real)
    requires NonePreempted(v.jobs)
    ensures NonePreempted(PlaceOne(cfg, v, job, now).jobs)
  {
    hide FindPlan, EvictAll, ReleaseAll, NonePreempted, Commit;
    var first := Place(cfg.alg, v.nodes, job.req);
    if first.Some? {
      CommitNonePreempted(v, job, first.value);
    } else if PlanFor(cfg, v, job, now).Some? {
      var plan := PlanFor(cfg, v, job, now).value;
      var e := ApplyPreemption(v, plan);
      EvictNonePreempted(v.jobs, plan.victims);
      var second := Place(cfg.alg, e.nodes, job.req);
      if second.Some? {
        CommitNonePreempted(e, job, second.value);
      }
    }
  }

  lemma {:induction false} PassNonePreempted(cfg: Config, v: TickView, queue: seq<Job>, now: real, k: nat)
    requires NonePreempted(v.jobs) && k <= |queue|
    ensures NonePreempted(Boundary(cfg, v, queue, now, k).jobs)
    decreases k
  {
    hide PlaceOne, NonePreempted;
    if k > 0 {
      PassNonePreempted(cfg, v, queue, now, k - 1);
      AttemptNonePreempted(cfg, Boundary(cfg, v, queue, now, k - 1), queue[k - 1], now);
    }
  }

  lemma ReconcileNonePreempted(c: State, now: real, ttl: real)
    requires NonePreempted(c.jobs)
    ensures NonePreempted(Reconcile(c, now, ttl).jobs)
  {
  }

  lemma TickNonePreempted(cfg: Config, c: State, now: real, l: Listing)
    requires NonePreempted(c.jobs)
    ensures NonePreempted(DoTick(cfg, c, now, l).jobs)
  {
    var r := Reconcile(c, now, cfg.heartbeatTtl);
    ReconcileNonePreempted(c, now, cfg.heartbeatTtl);
    hide NonePreempted, Boundary, TickQueue, Reconcile;
    if Lists(r, l) {
      var queue := TickQueue(cfg, r, now, l);
      PassNonePreempted(cfg, Snapshot(r, l), queue, now, |queue|);
    }
  }

  lemma StepNonePreempted(cfg: Config, c: State, op: Op)
    requires NonePreempted(c.jobs)
    ensures NonePreempted(Apply(cfg, c, op).jobs)
  {
    hide DoTick;
    match op
    case RunTick(now, l) => TickNonePreempted(cfg, c, now, l);
    case _ =>
  }

  /** In every run, no job is left preempted: evicted jobs are back in the queue after every step. */
  lemma {:induction false} NeverPreempted(cfg: Config, ops: seq<Op>)
    ensures NonePreempted(Run(cfg, EMPTY, ops).jobs)
    decreases ops
  {
    hide Apply;
    if ops != [] {
      var k := |ops| - 1;
      NeverPreempted(cfg, ops[..k]);
      StepNonePreempted(cfg, Run(cfg, EMPTY, ops[..k]), ops[k]);
    }
  }
}
