/** Exactly what one attempt does with a queued job (internal/scheduler/engine.go:129-208). */
module AttemptOutcomes {
  import opened Model
  import opened Placement
  import opened Preemption
  import opened PlannerTheorems
  import opened Tick
  import opened TickInvariants
  import opened TickLedger
  import opened TickOutcomes

  /** Some ready node would have room for the job if some of its occupants went, all of them of
      strictly lower priority and with a known user. */
  ghost predicate RoomByEviction(job: Job, nodes: seq<NodeRow>, running: RunningMap) {
    exists i, ids :: 0 <= i < |nodes| && nodes[i].status == Ready
                  && RoomWithout(job, nodes[i], Occupants(running, nodes[i].id), ids)
  }

  predicate RoomWithout(job: Job, n: NodeRow, occupants: seq<Job>, ids: set<JobId>) {
    && (forall r :: r in occupants && r.id in ids ==> r.priority < job.priority && r.userId != "")
    && n.avail.gpu + SumOf(occupants, ids).gpu >= job.req.gpu
    && n.avail.cpu + SumOf(occupants, ids).cpu >= job.req.cpu
    && n.avail.mem + SumOf(occupants, ids).mem >= job.req.mem
  }

  /** The job has waited for the starvation threshold or is of high priority, and preemption is on. */
  predicate HasRight(cfg: Config, job: Job, now: real) {
    cfg.preempt && (now - job.createdAt >= cfg.starvation || job.priority >= 8)
  }

  lemma RoomIsPlan(job: Job, nodes: seq<NodeRow>, running: RunningMap)
    requires SaneRunning(nodes, running)
    ensures FindPlan(job, nodes, running).Some? <==> RoomByEviction(job, nodes, running)
  {
    hide FindPlan, SaneRunning, SumOf;
    PlannerComplete(job, nodes, running);
    forall i, ids | 0 <= i < |nodes|
      ensures Suffices(job, nodes[i], Occupants(running, nodes[i].id), ids)
         <==> RoomWithout(job, nodes[i], Occupants(running, nodes[i].id), ids)
    {
      SufficesIs(job, nodes[i], Occupants(running, nodes[i].id), ids);
    }
  }

  lemma SufficesIs(job: Job, n: NodeRow, occupants: seq<Job>, ids: set<JobId>)
    ensures Suffices(job, n, occupants, ids) <==> RoomWithout(job, n, occupants, ids)
  {
    hide SumOf;
  }

  /** What an attempt logs, by its three outcomes. */
  lemma AttemptLog(cfg: Config, v: TickView, job: Job, now: real)
    ensures var r, plan := PlaceOne(cfg, v, job, now), FindPlan(job, v.nodes, v.running);
            if NoneFits(v.nodes, job.req) && HasRight(cfg, job, now) && plan.Some?
            then r.evictions == v.evictions + EvictionLog(v.nodes[plan.value.at].id, plan.value.victims)
            else r.evictions == v.evictions
  {
    hide FindPlan, EvictAll, ReleaseAll, Commit;
    var plan := FindPlan(job, v.nodes, v.running);
    if NoneFits(v.nodes, job.req) && HasRight(cfg, job, now) && plan.Some? {
      var e := ApplyPreemption(v, plan.value);
      assert PlanFor(cfg, v, job, now) == plan;
      if Place(cfg.alg, e.nodes, job.req).Some? {
        CommitKeepsLog(e, job, Place(cfg.alg, e.nodes, job.req).value);
      }
    } else if Place(cfg.alg, v.nodes, job.req).Some? {
      CommitKeepsLog(v, job, Place(cfg.alg, v.nodes, job.req).value);
    }
  }

  lemma CommitKeepsLog(v: TickView, job: Job, i: nat)
    requires i < |v.nodes|
    ensures Commit(v, job, i).evictions == v.evictions
  {
  }

  lemma PlanHasVictims(v: TickView, job: Job)
    requires NoneFits(v.nodes, job.req) && FindPlan(job, v.nodes, v.running).Some?
    ensures FindPlan(job, v.nodes, v.running).value.victims != []
  {
    var plan := FindPlan(job, v.nodes, v.running).value;
    assert PlanAt(job, v.nodes, v.running, plan.at) == Some(plan.victims);
    hide FindPlan;
    var n := v.nodes[plan.at];
    PlanSplits(job, n, Occupants(v.running, n.id));
    RoomNeedsVictims(n, job.req, plan.victims);
  }

  /** An attempt evicts exactly when no node has room, preemption is on, the job has waited for the
      starvation threshold or has priority eight or more, and some ready node would have room
      without some of its lower-priority jobs. */
  lemma EvictsExactly(cfg: Config, v: TickView, job: Job, now: real)
    requires SaneRunning(v.nodes, v.running)
    ensures |PlaceOne(cfg, v, job, now).evictions| > |v.evictions|
       <==> && (forall i :: 0 <= i < |v.nodes| ==> !v.nodes[i].Fits(job.req))
            && cfg.preempt && (now - job.createdAt >= cfg.starvation || job.priority >= 8)
            && RoomByEviction(job, v.nodes, v.running)
  {
    hide PlaceOne, FindPlan, SaneRunning, RoomByEviction;
    AttemptLog(cfg, v, job, now);
    RoomIsPlan(job, v.nodes, v.running);
    if NoneFits(v.nodes, job.req) && FindPlan(job, v.nodes, v.running).Some? {
      PlanHasVictims(v, job);
    }
  }

  // ----- who gets placed

  /** The attempt records one event; it is a success, with the node, exactly when the job is now
      scheduled there, and the job is then the last occupant of that node; otherwise the job waits as
      before. The running map does not change otherwise: victims stay in it. */
  ghost predicate Recorded(v: TickView, r: TickView, job: Job) {
    && |r.events| == |v.events| + 1 && r.events[..|v.events|] == v.events
    && job.id in r.jobs
    && var e := r.events[|v.events|];
       && e.job == job.id && e.node == r.jobs[job.id].node
       && (if e.success then r.jobs[job.id].status == Scheduled && e.node.Some? else Waiting(r.jobs, job.id))
       && (forall n :: Occupants(r.running, n)
                       == Occupants(v.running, n) + if e.success && e.node == Some(n) then [job] else [])
  }

  lemma CommitRecorded(v: TickView, r: TickView, job: Job, i: nat)
    requires i < |v.nodes| && job.id in v.jobs && r == Commit(v, job, i)
    ensures Recorded(v, r, job) && r.events[|v.events|].success
  {
  }

  lemma RejectRecorded(v: TickView, r: TickView, job: Job)
    requires Waiting(v.jobs, job.id) && r == Reject(v, job)
    ensures Recorded(v, r, job) && !r.events[|v.events|].success
  {
  }

  lemma RecordedAfter(v: TickView, e: TickView, r: TickView, job: Job)
    requires e.events == v.events && e.running == v.running && Recorded(e, r, job)
    ensures Recorded(v, r, job)
  {
  }

  lemma EvictionKeepsWaiting(cfg: Config, v: TickView, job: Job, now: real, plan: Plan)
    requires Agrees(v) && Pending(v, [job]) && PlanFor(cfg, v, job, now) == Some(plan)
    ensures Waiting(ApplyPreemption(v, plan).jobs, job.id)
  {
    PlanForSound(cfg, v, job, now);
    EvictAgrees(v, plan, [job]);
    assert job in [job];
    hide PlanFor, ApplyPreemption, Agrees;
  }

  /** An attempt's record is true. */
  lemma AttemptRecorded(cfg: Config, v: TickView, job: Job, now: real)
    requires Agrees(v) && Pending(v, [job])
    ensures Recorded(v, PlaceOne(cfg, v, job, now), job)
  {
    assert job in [job];
    assert Waiting(v.jobs, job.id);
    hide FindPlan, EvictAll, ReleaseAll, Agrees, Pending, Commit, Recorded, Reject;
    var first := Place(cfg.alg, v.nodes, job.req);
    if first.Some? {
      CommitRecorded(v, Commit(v, job, first.value), job, first.value);
    } else if PlanFor(cfg, v, job, now).Some? {
      var plan := PlanFor(cfg, v, job, now).value;
      var e, r := ApplyPreemption(v, plan), PlaceOne(cfg, v, job, now);
      EvictionKeepsWaiting(cfg, v, job, now, plan);
      var second := Place(cfg.alg, e.nodes, job.req);
      if second.Some? {
        CommitRecorded(e, r, job, second.value);
      } else {
        RejectRecorded(e, r, job);
      }
      RecordedAfter(v, e, r, job);
    } else {
      RejectRecorded(v, Reject(v, job), job);
    }
  }

  /** Every job the attempt evicts was still active where it is evicted. */
  ghost predicate EvictsActive(v: TickView, r: TickView) {
    forall k :: |v.evictions| <= k < |r.evictions| ==>
      r.evictions[k].job in v.jobs && v.jobs[r.evictions[k].job].OnNode(r.evictions[k].node)
  }

  lemma LogIsActive(v: TickView, r: TickView, plan: Plan)
    requires plan.at < |v.nodes| && EvictsActive(v, r)
    requires r.evictions == v.evictions + EvictionLog(v.nodes[plan.at].id, plan.victims)
    ensures AllActive(v, plan)
  {
    forall x | x in plan.victims
      ensures x.id in v.jobs && v.jobs[x.id].OnNode(v.nodes[plan.at].id)
    {
      var i :| 0 <= i < |plan.victims| && plan.victims[i] == x;
      var k := |v.evictions| + i;
      assert r.evictions[k] == Eviction(v.nodes[plan.at].id, x.id);
    }
  }

  lemma CommitPlaces(v: TickView, job: Job, i: nat)
    requires i < |v.nodes| && job.id in v.jobs
    ensures var r := Commit(v, job, i); job.id in r.jobs && r.jobs[job.id].status == Scheduled
  {
  }

  lemma EvictionPlaces(cfg: Config, v: TickView, job: Job, now: real, lost: Lost)
    requires Agrees(v) && Pending(v, [job]) && Ledger(v.jobs, v.rows, lost)
    requires EvictsActive(v, PlaceOne(cfg, v, job, now))
    requires NoneFits(v.nodes, job.req) && HasRight(cfg, job, now) && FindPlan(job, v.nodes, v.running).Some?
    ensures var r := PlaceOne(cfg, v, job, now); job.id in r.jobs && r.jobs[job.id].status == Scheduled
  {
    var plan := FindPlan(job, v.nodes, v.running).value;
    AttemptLog(cfg, v, job, now);
    assert PlanFor(cfg, v, job, now) == Some(plan);
    LogIsActive(v, PlaceOne(cfg, v, job, now), plan);
    NoWastedEviction(cfg, v, job, now, lost);
    PlanForSound(cfg, v, job, now);
    EvictAgrees(v, plan, [job]);
    assert job in [job];
    CommitPlaces(ApplyPreemption(v, plan), job, plan.at);
  }

  lemma RejectionKeeps(cfg: Config, v: TickView, job: Job, now: real)
    requires Waiting(v.jobs, job.id) && NoneFits(v.nodes, job.req)
    requires !(HasRight(cfg, job, now) && FindPlan(job, v.nodes, v.running).Some?)
    ensures PlaceOne(cfg, v, job, now).jobs == v.jobs
  {
    hide FindPlan;
  }

  /** While the accounts balance and nobody is evicted twice, an attempt places the job exactly when
      some node has room, or preemption is on, the job has the right to it, and some ready node
      would have room without some of its lower-priority jobs. */
  lemma PlacesExactly(cfg: Config, v: TickView, job: Job, now: real, lost: Lost)
    requires Agrees(v) && Pending(v, [job]) && Ledger(v.jobs, v.rows, lost)
    requires EvictsActive(v, PlaceOne(cfg, v, job, now))
    ensures var r := PlaceOne(cfg, v, job, now);
            job.id in r.jobs
            && (r.jobs[job.id].status == Scheduled
                <==> || (exists i :: 0 <= i < |v.nodes| && v.nodes[i].Fits(job.req))
                     || (cfg.preempt && (now - job.createdAt >= cfg.starvation || job.priority >= 8)
                         && RoomByEviction(job, v.nodes, v.running)))
  {
    assert job in [job];
    AgreesSane(v);
    RoomIsPlan(job, v.nodes, v.running);
    hide FindPlan, Agrees, Ledger, EvictsActive, RoomByEviction, SaneRunning;
    if !NoneFits(v.nodes, job.req) {
      CommitPlaces(v, job, Place(cfg.alg, v.nodes, job.req).value);
    } else if HasRight(cfg, job, now) && FindPlan(job, v.nodes, v.running).Some? {
      EvictionPlaces(cfg, v, job, now, lost);
    } else {
      RejectionKeeps(cfg, v, job, now);
    }
  }

  // ----- a pass

  /** `after` is `before` with one event for each of the first `k` jobs of the queue, in order. */
  ghost predicate Logs(before: seq<Event>, after: seq<Event>, queue: seq<Job>, k: nat)
    requires k <= |queue|
  {
    && |after| == |before| + k && after[..|before|] == before
    && forall i :: 0 <= i < k ==> after[|before| + i].job == queue[i].id
  }

  predicate Adds(before: seq<Event>, after: seq<Event>, id: JobId) {
    |after| == |before| + 1 && after[..|before|] == before && after[|before|].job == id
  }

  lemma LogsOneMore(a: seq<Event>, b: seq<Event>, c: seq<Event>, queue: seq<Job>, k: nat)
    requires k < |queue| && Logs(a, b, queue, k) && Adds(b, c, queue[k].id)
    ensures Logs(a, c, queue, k + 1)
  {
    assert c[..|a|] == c[..|b|][..|a|];
    assert forall i :: 0 <= i < |b| ==> c[i] == c[..|b|][i];
  }

  lemma OneEvent(cfg: Config, v: TickView, job: Job, now: real)
    ensures Adds(v.events, PlaceOne(cfg, v, job, now).events, job.id)
  {
    hide FindPlan, Place, EvictAll, ReleaseAll, EvictionLog;
  }

  /** A pass tries every job of the queue once, in order: it writes one event for each. */
  lemma {:induction false} TriedInOrder(cfg: Config, v: TickView, queue: seq<Job>, now: real, k: nat)
    requires k <= |queue|
    ensures Logs(v.events, Boundary(cfg, v, queue, now, k).events, queue, k)
    decreases k
  {
    hide PlaceOne;
    if k > 0 {
      hide Logs, Adds;
      TriedInOrder(cfg, v, queue, now, k - 1);
      var b := Boundary(cfg, v, queue, now, k - 1);
      OneEvent(cfg, b, queue[k - 1], now);
      LogsOneMore(v.events, b.events, Boundary(cfg, v, queue, now, k).events, queue, k - 1);
    }
  }
}
