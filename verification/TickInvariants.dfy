/** What every attempt of a tick keeps: the in-memory view agrees with the tables. */
module TickInvariants {
  import opened Resources
  import opened Model
  import opened Placement
  import opened Preemption
  import opened PlannerTheorems
  import opened Tick

  /** The loaded nodes are exactly the rows of the nodes table, availability included. */
  ghost predicate NodesAgree(nodes: seq<NodeRow>, rows: Nodes) {
    && (forall i, j :: 0 <= i < j < |nodes| ==> nodes[i].id != nodes[j].id)
    && (forall i :: 0 <= i < |nodes| ==> nodes[i].id in rows && rows[nodes[i].id] == nodes[i])
    && (forall n :: n in rows ==> exists i :: 0 <= i < |nodes| && nodes[i].id == n)
  }

  /** Two copies of one job: same work, possibly loaded at different times. */
  predicate SameWork(a: Job, b: Job) {
    && a.id == b.id && a.userId == b.userId && a.teamId == b.teamId && a.priority == b.priority
    && a.req == b.req && a.maxRetries == b.maxRetries && a.createdAt == b.createdAt
  }

  predicate Occupies(running: RunningMap, n: NodeId, id: JobId) {
    exists r :: r in Occupants(running, n) && r.id == id
  }

  predicate Waiting(jobs: Jobs, id: JobId) {
    id in jobs && jobs[id].status == Queued && jobs[id].node == None
  }

  /** Every listed occupant is a job of the table, active on that node or evicted from it in
      this tick. */
  ghost predicate OccupantsKnown(v: TickView) {
    forall n, r :: r in Occupants(v.running, n) ==>
      && r.id in v.jobs && SameWork(r, v.jobs[r.id])
      && (v.jobs[r.id].OnNode(n) || Eviction(n, r.id) in v.evictions)
  }

  ghost predicate OccupantsDistinct(v: TickView) {
    forall n :: DistinctIds(Occupants(v.running, n))
  }

  /** Every active job is listed on its node. */
  ghost predicate ActiveListed(v: TickView) {
    forall n, id :: id in v.jobs && v.jobs[id].OnNode(n) ==> Occupies(v.running, n, id)
  }

  /** Every job evicted in this tick waits in the queue and is still listed on its old node. */
  ghost predicate EvictedListed(v: TickView) {
    forall e :: e in v.evictions ==> Waiting(v.jobs, e.job) && Occupies(v.running, e.node, e.job)
  }

  /** The jobs still to be tried wait in the queue and are listed on no node. */
  ghost predicate Pending(v: TickView, queue: seq<Job>) {
    && DistinctIds(queue)
    && forall j :: j in queue ==>
         && Waiting(v.jobs, j.id) && SameWork(j, v.jobs[j.id])
         && forall n :: !Occupies(v.running, n, j.id)
  }

  ghost predicate JobsKeyed(jobs: Jobs) {
    && RequestsNonNeg(jobs)
    && forall id :: id in jobs ==> jobs[id].id == id
  }

  /** The in-memory view agrees with the tables. */
  ghost predicate Agrees(v: TickView) {
    && NodesAgree(v.nodes, v.rows)
    && JobsKeyed(v.jobs)
    && OccupantsKnown(v) && OccupantsDistinct(v) && ActiveListed(v) && EvictedListed(v)
  }

  // ----- evictions

  /** Some job of `vs` has the given id. */
  predicate Names(vs: seq<Job>, id: JobId) {
    vs != [] && (vs[|vs| - 1].id == id || Names(vs[..|vs| - 1], id))
  }

  lemma {:induction false} NamesIndex(vs: seq<Job>, id: JobId)
    ensures Names(vs, id) <==> exists k :: 0 <= k < |vs| && vs[k].id == id
    decreases vs
  {
    if vs != [] {
      NamesIndex(vs[..|vs| - 1], id);
    }
  }

  /** Evicting `vs` touches exactly the rows of `vs`, and leaves those waiting. */
  lemma {:induction false} EvictAllRows(jobs: Jobs, vs: seq<Job>, id: JobId)
    requires id in jobs
    ensures EvictAll(jobs, vs).Keys == jobs.Keys
    ensures !Names(vs, id) ==> EvictAll(jobs, vs)[id] == jobs[id]
    ensures Names(vs, id) ==> Waiting(EvictAll(jobs, vs), id)
    ensures SameWork(jobs[id], EvictAll(jobs, vs)[id])
    ensures EvictAll(jobs, vs)[id].retries >= jobs[id].retries
    decreases vs
  {
    if vs != [] {
      EvictAllRows(jobs, vs[..|vs| - 1], id);
    }
  }

  /** What the victims really hold of node `n` according to the table. */
  function HeldBy(jobs: Jobs, vs: seq<Job>, n: NodeId): Res {
    if vs == [] then ZERO
    else
      var last := vs[|vs| - 1];
      HeldBy(jobs, vs[..|vs| - 1], n).Plus(if last.id in jobs then Share(jobs[last.id], n) else ZERO)
  }

  /** Evictions take exactly what the victims held out of the active total. */
  lemma {:induction false} EvictAllUsed(jobs: Jobs, vs: seq<Job>, n: NodeId)
    requires DistinctIds(vs)
    requires forall k :: 0 <= k < |vs| ==> vs[k].id in jobs
    ensures Used(EvictAll(jobs, vs), n) == Used(jobs, n).Minus(HeldBy(jobs, vs, n))
    decreases vs
  {
    if vs != [] {
      var k := |vs| - 1;
      var init, id := vs[..k], vs[k].id;
      EvictAllUsed(jobs, init, n);
      NamesIndex(init, id);
      EvictAllRows(jobs, init, id);
      EvictedUsed(EvictAll(jobs, init), id, n);
    }
  }

  lemma EvictedUsed(jobs: Jobs, id: JobId, n: NodeId)
    requires id in jobs
    ensures Used(Evicted(jobs, id), n) == Used(jobs, n).Minus(Share(jobs[id], n))
  {
    var mid := Requeue(jobs, id, Preempted);
    UsedUpdate(jobs, id, mid[id], n);
    UsedUpdate(mid, id, mid[id].(status := Queued), n);
  }

  /** Releasing one by one, clamped each time, equals one clamped release of the sum. */
  lemma {:induction false} ReleaseAllSum(avail: Res, cap: Res, vs: seq<Job>)
    requires AllNonNeg(vs)
    requires vs != []
    ensures ReleaseAll(avail, cap, vs) == avail.Plus(SumReq(vs)).ClampTo(cap)
    decreases vs
  {
    var init, last := vs[..|vs| - 1], vs[|vs| - 1];
    assert last in vs;
    if init != [] {
      assert forall v :: v in init ==> v in vs;
      ReleaseAllSum(avail, cap, init);
    }
  }

  // ----- preservation

  lemma NodesAgreeUpdate(nodes: seq<NodeRow>, rows: Nodes, i: nat, a: Res)
    requires NodesAgree(nodes, rows) && i < |nodes|
    ensures NodesAgree(nodes[i := nodes[i].(avail := a)], UpdateAvailability(rows, nodes[i].id, a))
    ensures UpdateAvailability(rows, nodes[i].id, a).Keys == rows.Keys
  {
    var nodes', rows' := nodes[i := nodes[i].(avail := a)], UpdateAvailability(rows, nodes[i].id, a);
    forall n | n in rows'
      ensures exists k :: 0 <= k < |nodes'| && nodes'[k].id == n
    {
      var k :| 0 <= k < |nodes| && nodes[k].id == n;
      assert nodes'[k].id == n;
    }
  }

  /** The plan evicts distinct occupants of its node. */
  ghost predicate PlanSound(v: TickView, plan: Plan) {
    && plan.at < |v.nodes|
    && DistinctIds(plan.victims)
    && forall r :: r in plan.victims ==> r in Occupants(v.running, v.nodes[plan.at].id)
  }

  lemma EvictKeepsTables(v: TickView, plan: Plan)
    requires Agrees(v) && PlanSound(v, plan)
    ensures NodesAgree(ApplyPreemption(v, plan).nodes, ApplyPreemption(v, plan).rows)
    ensures JobsKeyed(ApplyPreemption(v, plan).jobs)
    ensures ApplyPreemption(v, plan).jobs.Keys == v.jobs.Keys
  {
    var n := v.nodes[plan.at];
    NodesAgreeUpdate(v.nodes, v.rows, plan.at, ReleaseAll(n.avail, n.cap, plan.victims));
    EvictAllKeys(v.jobs, plan.victims);
    forall id | id in v.jobs
      ensures EvictAll(v.jobs, plan.victims)[id].id == id && EvictAll(v.jobs, plan.victims)[id].req.NonNeg()
    {
      EvictAllRows(v.jobs, plan.victims, id);
    }
  }

  lemma {:induction false} EvictAllKeys(jobs: Jobs, vs: seq<Job>)
    ensures EvictAll(jobs, vs).Keys == jobs.Keys
    decreases vs
  {
    if vs != [] {
      EvictAllKeys(jobs, vs[..|vs| - 1]);
    }
  }

  /** A victim's row becomes a logged eviction; every other row is untouched. */
  lemma EvictedOrSame(v: TickView, plan: Plan, id: JobId)
    requires Agrees(v) && PlanSound(v, plan)
    requires id in v.jobs
    ensures var e := ApplyPreemption(v, plan);
            && id in e.jobs && SameWork(v.jobs[id], e.jobs[id])
            && (Names(plan.victims, id) ==> Waiting(e.jobs, id) && Eviction(v.nodes[plan.at].id, id) in e.evictions)
            && (!Names(plan.victims, id) ==> e.jobs[id] == v.jobs[id])
  {
    EvictAllRows(v.jobs, plan.victims, id);
    NamesIndex(plan.victims, id);
    if Names(plan.victims, id) {
      var k :| 0 <= k < |plan.victims| && plan.victims[k].id == id;
      var log := EvictionLog(v.nodes[plan.at].id, plan.victims);
      assert log[k] in v.evictions + log;
    }
  }

  lemma VictimAt(v: TickView, plan: Plan, n: NodeId, id: JobId)
    requires Agrees(v) && PlanSound(v, plan)
    requires Names(plan.victims, id)
    requires id in v.jobs && v.jobs[id].OnNode(n)
    ensures n == v.nodes[plan.at].id
  {
    NamesIndex(plan.victims, id);
    var k :| 0 <= k < |plan.victims| && plan.victims[k].id == id;
    assert plan.victims[k] in Occupants(v.running, v.nodes[plan.at].id);
  }

  lemma EvictKeepsOccupants(v: TickView, plan: Plan)
    requires Agrees(v) && PlanSound(v, plan)
    ensures OccupantsKnown(ApplyPreemption(v, plan))
    ensures OccupantsDistinct(ApplyPreemption(v, plan))
  {
    var e := ApplyPreemption(v, plan);
    forall n, r | r in Occupants(e.running, n)
      ensures r.id in e.jobs && SameWork(r, e.jobs[r.id])
      ensures e.jobs[r.id].OnNode(n) || Eviction(n, r.id) in e.evictions
    {
      assert r in Occupants(v.running, n);
      EvictedOrSame(v, plan, r.id);
      if v.jobs[r.id].OnNode(n) && Names(plan.victims, r.id) {
        VictimAt(v, plan, n, r.id);
      }
    }
  }

  lemma EvictKeepsListing(v: TickView, plan: Plan)
    requires Agrees(v) && PlanSound(v, plan)
    ensures ActiveListed(ApplyPreemption(v, plan))
    ensures EvictedListed(ApplyPreemption(v, plan))
  {
    var e := ApplyPreemption(v, plan);
    var m := v.nodes[plan.at].id;
    EvictAllKeys(v.jobs, plan.victims);
    forall n, id | id in e.jobs && e.jobs[id].OnNode(n)
      ensures Occupies(e.running, n, id)
    {
      EvictedOrSame(v, plan, id);
      assert Occupies(v.running, n, id);
    }
    forall x | x in e.evictions
      ensures Waiting(e.jobs, x.job) && Occupies(e.running, x.node, x.job)
    {
      if x in v.evictions {
        assert Occupies(v.running, x.node, x.job);
      } else {
        var k :| 0 <= k < |plan.victims| && x == EvictionLog(m, plan.victims)[k];
        assert plan.victims[k] in Occupants(v.running, m);
        NamesIndex(plan.victims, x.job);
      }
      EvictedOrSame(v, plan, x.job);
    }
  }

  /** An eviction keeps the agreement, and no job still to be tried is touched. */
  lemma EvictAgrees(v: TickView, plan: Plan, queue: seq<Job>)
    requires Agrees(v) && PlanSound(v, plan) && Pending(v, queue)
    ensures Agrees(ApplyPreemption(v, plan))
    ensures Pending(ApplyPreemption(v, plan), queue)
  {
    EvictKeepsTables(v, plan);
    EvictKeepsOccupants(v, plan);
    EvictKeepsListing(v, plan);
    var e := ApplyPreemption(v, plan);
    forall j | j in queue
      ensures Waiting(e.jobs, j.id) && SameWork(j, e.jobs[j.id]) && forall n :: !Occupies(e.running, n, j.id)
    {
      EvictedOrSame(v, plan, j.id);
      assert forall n :: Occupies(e.running, n, j.id) == Occupies(v.running, n, j.id);
    }
  }

  lemma CommitOccupants(v: TickView, job: Job, i: nat, n: NodeId)
    requires i < |v.nodes|
    ensures Occupants(Commit(v, job, i).running, n)
         == Occupants(v.running, n) + (if n == v.nodes[i].id then [job] else [])
  {
    if n != v.nodes[i].id {
      assert Occupants(v.running, n) + [] == Occupants(v.running, n);
    }
  }

  lemma CommitOccupies(v: TickView, job: Job, i: nat, n: NodeId, id: JobId)
    requires i < |v.nodes|
    ensures Occupies(Commit(v, job, i).running, n, id)
       <==> Occupies(v.running, n, id) || (n == v.nodes[i].id && id == job.id)
  {
    CommitOccupants(v, job, i, n);
    if Occupies(v.running, n, id) {
      var r :| r in Occupants(v.running, n) && r.id == id;
      assert r in Occupants(Commit(v, job, i).running, n);
    }
    if n == v.nodes[i].id && id == job.id {
      assert job in Occupants(Commit(v, job, i).running, n);
    }
  }

  lemma CommitKeepsOccupants(v: TickView, job: Job, i: nat)
    requires Agrees(v) && Pending(v, [job]) && i < |v.nodes|
    ensures OccupantsKnown(Commit(v, job, i))
    ensures OccupantsDistinct(Commit(v, job, i))
  {
    var c := Commit(v, job, i);
    assert job in [job];
    forall n, r | r in Occupants(c.running, n)
      ensures r.id in c.jobs && SameWork(r, c.jobs[r.id])
      ensures c.jobs[r.id].OnNode(n) || Eviction(n, r.id) in c.evictions
    {
      CommitOccupants(v, job, i, n);
      if r in Occupants(v.running, n) {
        assert Occupies(v.running, n, r.id);
      }
    }
    forall n
      ensures DistinctIds(Occupants(c.running, n))
    {
      CommitOccupants(v, job, i, n);
      forall k | 0 <= k < |Occupants(v.running, n)|
        ensures Occupants(v.running, n)[k].id != job.id
      {
        assert Occupants(v.running, n)[k] in Occupants(v.running, n);
        assert !Occupies(v.running, n, job.id);
      }
    }
  }

  lemma CommitKeepsListing(v: TickView, job: Job, i: nat)
    requires Agrees(v) && Pending(v, [job]) && i < |v.nodes|
    ensures ActiveListed(Commit(v, job, i))
    ensures EvictedListed(Commit(v, job, i))
  {
    var c := Commit(v, job, i);
    assert job in [job];
    forall n, id | id in c.jobs && c.jobs[id].OnNode(n)
      ensures Occupies(c.running, n, id)
    {
      CommitOccupies(v, job, i, n, id);
    }
    forall x | x in c.evictions
      ensures Waiting(c.jobs, x.job) && Occupies(c.running, x.node, x.job)
    {
      CommitOccupies(v, job, i, x.node, x.job);
      assert Occupies(v.running, x.node, x.job);
    }
  }

  lemma PendingSplit(v: TickView, job: Job, rest: seq<Job>)
    requires Pending(v, [job] + rest)
    ensures Pending(v, [job]) && Pending(v, rest)
    ensures forall j :: j in rest ==> j.id != job.id
  {
    var queue := [job] + rest;
    assert job in queue && forall j :: j in rest ==> j in queue;
    assert forall k :: 0 <= k < |rest| ==> rest[k] == queue[k + 1];
    forall j | j in rest
      ensures j.id != job.id
    {
      var k :| 0 <= k < |rest| && rest[k] == j;
      assert queue[0].id != queue[k + 1].id;
    }
  }

  /** A placement keeps the agreement and takes the job out of those to be tried. */
  lemma CommitAgrees(v: TickView, job: Job, i: nat, rest: seq<Job>)
    requires Agrees(v) && Pending(v, [job] + rest) && i < |v.nodes|
    ensures Agrees(Commit(v, job, i))
    ensures Pending(Commit(v, job, i), rest)
  {
    PendingSplit(v, job, rest);
    NodesAgreeUpdate(v.nodes, v.rows, i, v.nodes[i].avail.Minus(job.req));
    CommitKeepsOccupants(v, job, i);
    CommitKeepsListing(v, job, i);
    var c := Commit(v, job, i);
    forall j | j in rest
      ensures Waiting(c.jobs, j.id) && SameWork(j, c.jobs[j.id]) && forall n :: !Occupies(c.running, n, j.id)
    {
      forall n
        ensures !Occupies(c.running, n, j.id)
      {
        CommitOccupies(v, job, i, n, j.id);
      }
    }
  }

  lemma RejectAgrees(v: TickView, job: Job, rest: seq<Job>)
    requires Agrees(v) && Pending(v, [job] + rest)
    ensures Agrees(Reject(v, job))
    ensures Pending(Reject(v, job), rest)
  {
    PendingSplit(v, job, rest);
  }

  /** What the planner is given in a tick is well formed. */
  lemma AgreesSane(v: TickView)
    requires Agrees(v)
    ensures SaneRunning(v.nodes, v.running)
  {
    forall i | 0 <= i < |v.nodes|
      ensures AllNonNeg(Occupants(v.running, v.nodes[i].id))
    {
    }
  }

  lemma PlanForOrigin(cfg: Config, v: TickView, job: Job, now: real)
    requires PlanFor(cfg, v, job, now).Some?
    ensures var plan := PlanFor(cfg, v, job, now).value;
            var n := v.nodes[plan.at];
            NodePlan(job, n, Occupants(v.running, n.id)) == Some(plan.victims) && !n.Fits(job.req)
    ensures NoneFits(v.nodes, job.req)
  {
    var plan := PlanFor(cfg, v, job, now).value;
    assert PlanAt(job, v.nodes, v.running, plan.at) == Some(plan.victims);
  }

  lemma RoomNeedsVictims(n: NodeRow, req: Res, victims: seq<Job>)
    requires n.status == Ready && !n.Fits(req)
    requires n.avail.Plus(SumReq(victims)).Covers(req)
    ensures victims != []
  {
    assert SumReq([]) == ZERO;
  }

  /** The plan a tick carries out evicts at least one job, each listed once on the plan's node,
      eligible, and of strictly lower priority. */
  lemma PlanForSound(cfg: Config, v: TickView, job: Job, now: real)
    requires Agrees(v)
    requires PlanFor(cfg, v, job, now).Some?
    ensures var plan := PlanFor(cfg, v, job, now).value;
            && PlanSound(v, plan) && AllNonNeg(plan.victims) && plan.victims != []
            && v.nodes[plan.at].status == Ready
            && v.nodes[plan.at].avail.Plus(SumReq(plan.victims)).Covers(job.req)
            && forall r :: r in plan.victims ==> Eligible(job, r)
  {
    PlanForOrigin(cfg, v, job, now);
    var plan := PlanFor(cfg, v, job, now).value;
    var n := v.nodes[plan.at];
    var occ := Occupants(v.running, n.id);
    AgreesSane(v);
    PlanSplits(job, n, occ);
    PlanDistinct(job, n, occ);
    RoomNeedsVictims(n, job.req, plan.victims);
  }

  lemma PlanDistinct(job: Job, n: NodeRow, occ: seq<Job>)
    requires DistinctIds(occ) && NodePlan(job, n, occ).Some?
    ensures DistinctIds(NodePlan(job, n, occ).value)
  {
    PlanSplits(job, n, occ);
    CandidatesDistinct(job, occ);
  }

  /** Every attempt of a tick keeps the agreement between memory and tables. */
  lemma PlaceOneAgrees(cfg: Config, v: TickView, job: Job, now: real, rest: seq<Job>)
    requires Agrees(v) && Pending(v, [job] + rest)
    ensures Agrees(PlaceOne(cfg, v, job, now))
    ensures Pending(PlaceOne(cfg, v, job, now), rest)
  {
    var first := Place(cfg.alg, v.nodes, job.req);
    if first.Some? {
      CommitAgrees(v, job, first.value, rest);
    } else {
      match PlanFor(cfg, v, job, now)
      case None => RejectAgrees(v, job, rest);
      case Some(plan) =>
        PlanForSound(cfg, v, job, now);
        EvictAgrees(v, plan, [job] + rest);
        var e := ApplyPreemption(v, plan);
        var second := Place(cfg.alg, e.nodes, job.req);
        if second.Some? {
          CommitAgrees(e, job, second.value, rest);
        } else {
          RejectAgrees(e, job, rest);
        }
    }
  }

  /** At every boundary of a tick the loaded nodes equal their rows, and each node's running list
      holds exactly the jobs active on it plus those evicted from it earlier in the tick. */
  lemma {:induction false} ViewAgreesWithStore(cfg: Config, v: TickView, queue: seq<Job>, now: real, k: nat)
    requires Agrees(v) && Pending(v, queue) && k <= |queue|
    ensures Agrees(Boundary(cfg, v, queue, now, k))
    ensures Pending(Boundary(cfg, v, queue, now, k), queue[k..])
    decreases k
  {
    hide PlaceOne, Agrees, Pending;
    if k > 0 {
      ViewAgreesWithStore(cfg, v, queue, now, k - 1);
      assert queue[k - 1..] == [queue[k - 1]] + queue[k..];
      PlaceOneAgrees(cfg, Boundary(cfg, v, queue, now, k - 1), queue[k - 1], now, queue[k..]);
    } else {
      assert queue[0..] == queue;
    }
  }

  /** The view an attempt starts from, and the one it leads to. */
  lemma BoundaryStep(cfg: Config, v: TickView, queue: seq<Job>, now: real, k: nat)
    requires Agrees(v) && Pending(v, queue) && k < |queue|
    ensures Agrees(Boundary(cfg, v, queue, now, k))
    ensures Pending(Boundary(cfg, v, queue, now, k), [queue[k]])
    ensures Boundary(cfg, v, queue, now, k + 1) == PlaceOne(cfg, Boundary(cfg, v, queue, now, k), queue[k], now)
  {
    hide PlaceOne, Agrees;
    ViewAgreesWithStore(cfg, v, queue, now, k);
    assert queue[k..] == [queue[k]] + queue[k + 1..];
    PendingSplit(Boundary(cfg, v, queue, now, k), queue[k], queue[k + 1..]);
  }

  /** The running list of a node, read as a set of ids. */
  lemma RunningIsActivePlusEvicted(v: TickView, n: NodeId, id: JobId)
    requires Agrees(v)
    ensures Occupies(v.running, n, id)
       <==> (id in v.jobs && v.jobs[id].OnNode(n)) || Eviction(n, id) in v.evictions
    ensures !((id in v.jobs && v.jobs[id].OnNode(n)) && Eviction(n, id) in v.evictions)
  {
    if Eviction(n, id) in v.evictions {
      var e := Eviction(n, id);
      assert Waiting(v.jobs, e.job);
    }
  }
}
