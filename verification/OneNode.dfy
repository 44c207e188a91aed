/** Ticks on a cluster of one node with four GPUs, worked out step by step. */
module OneNode {
  import opened Resources
  import opened Sorting
  import opened Model
  import opened Placement
  import opened Preemption
  import opened Ordering
  import opened Tick
  import opened TickLedger
  import opened Cluster

  function Gpus(k: int): Res {
    Res(k, 0, 0)
  }

  function FourGpus(n: NodeId, free: int, heartbeat: real): NodeRow {
    NodeRow(n, "host", Ready, Gpus(4), Gpus(free), heartbeat)
  }

  function Ask(priority: int, gpus: int): Submission {
    Submission("user", "team", priority, Gpus(gpus), 1)
  }

  /** A job as it is submitted. */
  function Submitted(id: JobId, priority: int, gpus: int): Job {
    Job(id, "user", "team", Queued, priority, Gpus(gpus), None, 0, 1, 0.0)
  }

  /** First come first served, with preemption on. */
  predicate Fifo(cfg: Config) {
    (cfg.alg == FirstFit || cfg.alg == BestFit) && cfg.preempt && cfg.heartbeatTtl >= 0.0
  }

  lemma {:induction false} TiedStay(xs: seq<Job>, less: (Job, Job) -> bool)
    requires forall a, b :: less(a, b) ==> a.createdAt < b.createdAt
    requires forall a :: a in xs ==> a.createdAt == 0.0
    ensures StableSort(xs, less) == xs
    decreases xs
  {
    if xs != [] {
      var x, rest := xs[0], xs[1..];
      assert xs == [x] + rest && x in xs;
      TiedStay(rest, less);
      assert rest != [] ==> rest[0] in xs && !less(rest[0], x);
    }
  }

  lemma QueueAsListed(cfg: Config, now: real, c: State, l: Listing, queue: seq<Job>)
    requires Fifo(cfg)
    requires Lists(c, l) && queue == LoadJobs(c.jobs, l.queued)
    requires forall a :: a in queue ==> a.createdAt == 0.0
    ensures TickQueue(cfg, c, now, l) == queue
  {
    TiedStay(queue, Before(cfg.alg, now, cfg.agingFactor, TeamShares(c.jobs, LoadNodes(c.nodes, l.nodes))));
  }

  lemma NothingStripped(cfg: Config, c: State, now: real, l: Listing)
    requires forall n :: n in c.nodes ==> !Stale(c.nodes[n], now, cfg.heartbeatTtl)
    requires Lists(c, l) && l.queued != []
    ensures var v := TickEnd(cfg, c, now, l);
            DoTick(cfg, c, now, l) == c.(jobs := v.jobs, nodes := v.rows)
  {
    NothingStale(c, now, cfg.heartbeatTtl);
  }

  /** Nothing is stale and all jobs are equally old: the tick tries the queue as it is listed. */
  lemma TickIsPass(cfg: Config, now: real, c: State, row: NodeRow, l: Listing, queue: seq<Job>, running: RunningMap)
    requires Fifo(cfg)
    requires c.nodes == map[row.id := row] && row.lastHeartbeat == now
    requires Lists(c, l) && l.nodes == [row.id] && l.queued != []
    requires queue == LoadJobs(c.jobs, l.queued) && running == GroupByNode(LoadJobs(c.jobs, l.active))
    requires forall a :: a in queue ==> a.createdAt == 0.0
    ensures var end := Boundary(cfg, TickView([row], running, c.jobs, c.nodes, [], []), queue, now, |queue|);
            DoTick(cfg, c, now, l) == c.(jobs := end.jobs, nodes := end.rows)
  {
    NothingStripped(cfg, c, now, l);
    QueueAsListed(cfg, now, c, l, queue);
    SnapshotIs(c, row, l, running);
    EndIs(cfg, now, c, l, queue, TickView([row], running, c.jobs, c.nodes, [], []));
  }

  lemma SnapshotIs(c: State, row: NodeRow, l: Listing, running: RunningMap)
    requires c.nodes == map[row.id := row] && Lists(c, l) && l.nodes == [row.id]
    requires running == GroupByNode(LoadJobs(c.jobs, l.active))
    ensures Snapshot(c, l) == TickView([row], running, c.jobs, c.nodes, [], [])
  {
    assert LoadNodes(c.nodes, l.nodes) == [row];
  }

  lemma EndIs(cfg: Config, now: real, c: State, l: Listing, queue: seq<Job>, v: TickView)
    requires Lists(c, l) && TickQueue(cfg, c, now, l) == queue && Snapshot(c, l) == v
    ensures TickEnd(cfg, c, now, l) == Boundary(cfg, v, queue, now, |queue|)
  {
  }

  /** The view of a cluster of one node. */
  ghost predicate Single(v: TickView, row: NodeRow, running: RunningMap, jobs: Jobs) {
    v.nodes == [row] && v.rows == map[row.id := row] && v.running == running && v.jobs == jobs
  }

  lemma SingleCommit(v: TickView, row: NodeRow, job: Job)
    requires v.nodes == [row] && v.rows == map[row.id := row]
    ensures Single(Commit(v, job, 0), row.(avail := row.avail.Minus(job.req)),
                   v.running[row.id := Occupants(v.running, row.id) + [job]], Schedule(v.jobs, job.id, row.id))
  {
  }

  lemma PlaceDirectly(cfg: Config, now: real, v: TickView, row: NodeRow, job: Job)
    requires Fifo(cfg)
    requires v.nodes == [row] && v.rows == map[row.id := row] && row.Fits(job.req)
    ensures Single(PlaceOne(cfg, v, job, now), row.(avail := row.avail.Minus(job.req)),
                   v.running[row.id := Occupants(v.running, row.id) + [job]], Schedule(v.jobs, job.id, row.id))
  {
    SingleFits(cfg, v, row, job.req);
    SingleCommit(v, row, job);
  }

  lemma SinglePlan(cfg: Config, now: real, v: TickView, row: NodeRow, job: Job, vs: seq<Job>)
    requires Fifo(cfg)
    requires v.nodes == [row] && !row.Fits(job.req) && job.priority >= HIGH_PRIORITY
    requires NodePlan(job, row, Occupants(v.running, row.id)) == Some(vs)
    ensures PlanFor(cfg, v, job, now) == Some(Plan(0, vs))
  {
    assert PlanAt(job, v.nodes, v.running, 0) == Some(vs);
  }

  lemma SingleEvict(v: TickView, row: NodeRow, vs: seq<Job>)
    requires v.nodes == [row] && v.rows == map[row.id := row]
    ensures Single(ApplyPreemption(v, Plan(0, vs)), row.(avail := ReleaseAll(row.avail, row.cap, vs)),
                   v.running, EvictAll(v.jobs, vs))
  {
  }

  lemma SingleFits(cfg: Config, v: TickView, row: NodeRow, req: Res)
    requires v.nodes == [row]
    ensures Place(cfg.alg, v.nodes, req) == if row.Fits(req) then Some(0) else None
  {
    assert v.nodes[0].Fits(req) <==> row.Fits(req);
  }

  lemma EvictionPath(cfg: Config, now: real, v: TickView, row: NodeRow, job: Job, vs: seq<Job>)
    requires Fifo(cfg)
    requires v.nodes == [row] && v.rows == map[row.id := row] && !row.Fits(job.req) && job.priority >= HIGH_PRIORITY
    requires NodePlan(job, row, Occupants(v.running, row.id)) == Some(vs)
    ensures var e := ApplyPreemption(v, Plan(0, vs));
            PlaceOne(cfg, v, job, now) == if e.nodes[0].Fits(job.req) then Commit(e, job, 0) else Reject(e, job)
  {
    SingleFits(cfg, v, row, job.req);
    SinglePlan(cfg, now, v, row, job, vs);
    SingleEvict(v, row, vs);
    var e := ApplyPreemption(v, Plan(0, vs));
    SingleFits(cfg, e, e.nodes[0], job.req);
  }

  /** The job takes what its victims leave. */
  lemma PlaceByEviction(cfg: Config, now: real, v: TickView, row: NodeRow, job: Job, vs: seq<Job>, row': NodeRow)
    requires Fifo(cfg)
    requires v.nodes == [row] && v.rows == map[row.id := row] && !row.Fits(job.req) && job.priority >= HIGH_PRIORITY
    requires NodePlan(job, row, Occupants(v.running, row.id)) == Some(vs)
    requires row' == row.(avail := ReleaseAll(row.avail, row.cap, vs)) && row'.Fits(job.req)
    ensures Single(PlaceOne(cfg, v, job, now), row'.(avail := row'.avail.Minus(job.req)),
                   v.running[row.id := Occupants(v.running, row.id) + [job]],
                   Schedule(EvictAll(v.jobs, vs), job.id, row.id))
  {
    EvictionPath(cfg, now, v, row, job, vs);
    SingleEvict(v, row, vs);
    SingleCommit(ApplyPreemption(v, Plan(0, vs)), row', job);
  }

  /** The job evicts in vain. */
  lemma EvictInVain(cfg: Config, now: real, v: TickView, row: NodeRow, job: Job, vs: seq<Job>, row': NodeRow)
    requires Fifo(cfg)
    requires v.nodes == [row] && v.rows == map[row.id := row] && !row.Fits(job.req) && job.priority >= HIGH_PRIORITY
    requires NodePlan(job, row, Occupants(v.running, row.id)) == Some(vs)
    requires row' == row.(avail := ReleaseAll(row.avail, row.cap, vs)) && !row'.Fits(job.req)
    ensures Single(PlaceOne(cfg, v, job, now), row', v.running, EvictAll(v.jobs, vs))
  {
    EvictionPath(cfg, now, v, row, job, vs);
    SingleEvict(v, row, vs);
  }

  // ----- plans on the node

  lemma OneCandidate(job: Job, x: Job)
    requires Eligible(job, x)
    ensures Candidates(job, [x]) == [x]
  {
    assert [x] == [x] + [] && [x][1..] == [];
    FilterCons(x, [], EligibleFor(job));
    assert Filter([x], EligibleFor(job)) == [x];
  }

  /** An occupant that may not be evicted is not a candidate. */
  lemma FirstCandidate(job: Job, x: Job, a: Job)
    requires Eligible(job, x) && !Eligible(job, a)
    ensures Candidates(job, [x, a]) == [x]
  {
    assert [x, a] == [x] + [a] && [a] == [a] + [] && [x][1..] == [];
    FilterCons(x, [a], EligibleFor(job));
    FilterCons(a, [], EligibleFor(job));
    assert Filter([x, a], EligibleFor(job)) == [x];
  }

  lemma TakesOne(free: Res, req: Res, x: Job)
    requires !free.Covers(req) && free.Plus(x.req).Covers(req)
    ensures [x][..TakeFrom(free, req, [x], 0)] == [x] && SumReq([x]) == x.req
  {
    assert [x][..0] == [] && [x][..1] == [x];
  }

  lemma PlanOne(job: Job, row: NodeRow, occupants: seq<Job>, x: Job)
    requires Candidates(job, occupants) == [x] && row.status == Ready
    requires !row.avail.Covers(job.req) && row.avail.Plus(x.req).Covers(job.req)
    ensures NodePlan(job, row, occupants) == Some([x])
  {
    TakesOne(row.avail, job.req, x);
  }

  lemma ReleaseOne(avail: Res, cap: Res, x: Job)
    ensures ReleaseAll(avail, cap, [x]) == avail.Plus(x.req).ClampTo(cap)
  {
    assert [x][..0] == [];
  }

  lemma ReleaseTwo(avail: Res, cap: Res, x: Job, a: Job)
    ensures ReleaseAll(avail, cap, [x, a]) == avail.Plus(x.req).ClampTo(cap).Plus(a.req).ClampTo(cap)
  {
    assert [x, a][..1] == [x];
    ReleaseOne(avail, cap, x);
  }

  lemma EvictTwo(jobs: Jobs, x: Job, a: Job)
    ensures EvictAll(jobs, [x]) == Evicted(jobs, x.id)
    ensures EvictAll(jobs, [x, a]) == Evicted(Evicted(jobs, x.id), a.id)
  {
    assert [x, a][..1] == [x] && [x][..0] == [];
  }

  lemma TwoCandidates(job: Job, a: Job, b: Job)
    requires Eligible(job, a) && Eligible(job, b) && a.priority < b.priority
    ensures Candidates(job, [a, b]) == [a, b]
  {
    assert [a, b] == [a] + [b] && [b] == [b] + [];
    FilterCons(a, [b], EligibleFor(job));
    FilterCons(b, [], EligibleFor(job));
    assert Filter([a, b], EligibleFor(job)) == [a, b];
    assert [a, b][1..] == [b] && [b][1..] == [];
    assert StableSort([b], VictimBefore) == [b];
  }

  lemma SumCovers(free: Res, a: Res, b: Res, req: Res)
    requires free.gpu + a.gpu + b.gpu >= req.gpu && free.cpu + a.cpu + b.cpu >= req.cpu
    requires free.mem + a.mem + b.mem >= req.mem
    ensures free.Plus(a).Plus(b).Covers(req)
  {
  }

  lemma Short(free: Res, a: Res, req: Res)
    requires free.gpu + a.gpu < req.gpu
    ensures !free.Plus(a).Covers(req)
  {
  }

  lemma TakesTwo(free: Res, req: Res, a: Job, b: Job)
    requires !free.Covers(req) && !free.Plus(a.req).Covers(req)
    ensures TakeFrom(free, req, [a, b], 0) == 2 && SumReq([a, b]) == a.req.Plus(b.req)
  {
    var vs := [a, b];
    assert vs[..0] == [] && vs[..1] == [a] && vs[..2] == vs && [a][..0] == [];
    assert SumReq([a]) == a.req;
    assert TakeFrom(free, req, vs, 1) == TakeFrom(free, req, vs, 2) == 2;
  }

  lemma LoadTwo(jobs: Jobs, a: JobId, b: JobId)
    requires a in jobs && b in jobs
    ensures LoadJobs(jobs, [a, b]) == [jobs[a], jobs[b]]
  {
  }

  lemma GroupOne(x: Job, n: NodeId)
    requires x.node == Some(n) && n != ""
    ensures GroupByNode([x]) == map[n := [x]]
  {
    assert [x][..0] == [] && GroupByNode([]) == map[];
    assert Occupants(map[], n) + [x] == [x];
  }

  // ----- runs

  lemma {:induction false} RunConcat(cfg: Config, c: State, first: seq<Op>, more: seq<Op>)
    ensures Run(cfg, c, first + more) == Run(cfg, Run(cfg, c, first), more)
    decreases more
  {
    hide Apply;
    if more == [] {
      assert first + more == first;
    } else {
      var init, op := more[..|more| - 1], more[|more| - 1];
      assert more == init + [op] && first + more == (first + init) + [op];
      RunConcat(cfg, c, first, init);
      RunSnoc(cfg, c, first + init, op);
      RunSnoc(cfg, Run(cfg, c, first), init, op);
    }
  }

  lemma RunOne(cfg: Config, c: State, op: Op)
    ensures Run(cfg, c, [op]) == Apply(cfg, c, op)
  {
    hide Apply;
    assert [op][..0] == [];
  }

  lemma RunTwo(cfg: Config, c: State, first: Op, second: Op)
    ensures Run(cfg, c, [first, second]) == Apply(cfg, Apply(cfg, c, first), second)
  {
    hide Apply;
    assert [first, second][..1] == [first];
    RunOne(cfg, c, first);
  }

  /** A valid submission under a new id adds its job and nothing else. */
  lemma Arrives(c: State, id: JobId, priority: int, gpus: int)
    requires id !in c.jobs && 0 <= priority <= 10 && 1 <= gpus <= 64
    ensures DoSubmit(c, id, Ask(priority, gpus), 3, 0.0)
         == c.(jobs := c.jobs[id := Submitted(id, priority, gpus)], lossRequeues := c.lossRequeues[id := 0])
  {
  }

  /** One node, and one job that waits or has been placed. */
  function Alone(n: NodeId, job: Job, free: int): State {
    State(map[job.id := job], map[n := FourGpus(n, free, 0.0)], map[n := ZERO], map[job.id := 0])
  }

  lemma ArrivalRun(cfg: Config, n: NodeId, x: JobId)
    ensures Run(cfg, EMPTY, [Register(n, "host", Gpus(4), 0.0), Submit(x, Ask(1, 4), 3, 0.0)])
         == Alone(n, Submitted(x, 1, 4), 4)
  {
    RunTwo(cfg, EMPTY, Register(n, "host", Gpus(4), 0.0), Submit(x, Ask(1, 4), 3, 0.0));
  }

  /** A lone queued job finds the node free. */
  lemma LoneTick(cfg: Config, c: State, n: NodeId, job: Job, c': State)
    requires Fifo(cfg)
    requires c.nodes == map[n := FourGpus(n, 4, 0.0)] && Lists(c, Listing([n], [job.id], []))
    requires LoadJobs(c.jobs, [job.id]) == [job] && GroupByNode(LoadJobs(c.jobs, [])) == map[]
    requires job.createdAt == 0.0 && job.req == Gpus(4)
    requires c' == c.(jobs := Schedule(c.jobs, job.id, n), nodes := map[n := FourGpus(n, 0, 0.0)])
    ensures DoTick(cfg, c, 0.0, Listing([n], [job.id], [])) == c'
  {
    TickIsPass(cfg, 0.0, c, FourGpus(n, 4, 0.0), Listing([n], [job.id], []), [job], map[]);
    var v := TickView([FourGpus(n, 4, 0.0)], map[], c.jobs, c.nodes, [], []);
    PlaceDirectly(cfg, 0.0, v, FourGpus(n, 4, 0.0), job);
    OneAttempt(cfg, 0.0, v, job);
  }

  lemma FirstTick(cfg: Config, n: NodeId, job: Job)
    requires Fifo(cfg)
    requires job.status == Queued && job.createdAt == 0.0 && job.req == Gpus(4)
    ensures DoTick(cfg, Alone(n, job, 4), 0.0, Listing([n], [job.id], []))
         == Alone(n, job.(status := Scheduled, node := Some(n)), 0)
  {
    AloneListing(n, job);
    AlonePlaced(n, job);
    LoneTick(cfg, Alone(n, job, 4), n, job, Alone(n, job.(status := Scheduled, node := Some(n)), 0));
  }

  lemma AlonePlaced(n: NodeId, job: Job)
    ensures var c := Alone(n, job, 4);
            Alone(n, job.(status := Scheduled, node := Some(n)), 0)
            == c.(jobs := Schedule(c.jobs, job.id, n), nodes := map[n := FourGpus(n, 0, 0.0)])
  {
  }

  lemma OneAttempt(cfg: Config, now: real, v: TickView, job: Job)
    ensures Boundary(cfg, v, [job], now, 1) == PlaceOne(cfg, v, job, now)
  {
    assert Boundary(cfg, v, [job], now, 0) == v;
  }

  lemma AloneListing(n: NodeId, job: Job)
    requires job.status == Queued
    ensures var c := Alone(n, job, 4);
            && Lists(c, Listing([n], [job.id], []))
            && LoadJobs(c.jobs, [job.id]) == [job] && GroupByNode(LoadJobs(c.jobs, [])) == map[]
  {
  }

  lemma TickStep(cfg: Config, now: real, c: State, l: Listing, c': State)
    requires DoTick(cfg, c, now, l) == c'
    ensures Apply(cfg, c, RunTick(now, l)) == c'
  {
    hide DoTick;
  }

  lemma RunStages(cfg: Config, first: seq<Op>, op: Op, more: seq<Op>, c: State, c': State)
    requires Run(cfg, EMPTY, first) == c && Apply(cfg, c, op) == c'
    ensures Run(cfg, EMPTY, first + [op] + more) == Run(cfg, c', more)
  {
    hide Apply;
    RunConcat(cfg, EMPTY, first + [op], more);
    RunConcat(cfg, EMPTY, first, [op]);
    RunOne(cfg, c, op);
  }

  // ----- what the jobs of a small table use

  lemma UsedByOne(jobs: Jobs, i: JobId, n: NodeId)
    requires jobs.Keys == {i}
    ensures Used(jobs, n) == Share(jobs[i], n)
  {
    UsedWithout(jobs, i, n);
    UsedNone(jobs - {i}, n);
  }

  lemma UsedByTwo(jobs: Jobs, i: JobId, j: JobId, n: NodeId)
    requires jobs.Keys == {i, j} && i != j
    ensures Used(jobs, n) == Share(jobs[i], n).Plus(Share(jobs[j], n))
  {
    UsedWithout(jobs, i, n);
    UsedByOne(jobs - {i}, j, n);
  }

  lemma UsedByThree(jobs: Jobs, i: JobId, j: JobId, k: JobId, n: NodeId)
    requires jobs.Keys == {i, j, k} && i != j && j != k && i != k
    ensures Used(jobs, n) == Share(jobs[i], n).Plus(Share(jobs[j], n)).Plus(Share(jobs[k], n))
  {
    var rest := jobs - {i};
    assert rest.Keys == {j, k} && rest[j] == jobs[j] && rest[k] == jobs[k];
    assert Used(jobs, n) == Share(jobs[i], n).Plus(Used(rest, n)) by {
      UsedWithout(jobs, i, n);
    }
    UsedByTwo(rest, j, k, n);
  }

  lemma PlusGpus(p: int, q: int)
    ensures Gpus(p).Plus(Gpus(q)) == Gpus(p + q)
  {
  }

  lemma UsedGpus(jobs: Jobs, i: JobId, j: JobId, k: JobId, n: NodeId, p: int, q: int, r: int)
    requires jobs.Keys == {i, j, k} && i != j && j != k && i != k
    requires Share(jobs[i], n) == Gpus(p) && Share(jobs[j], n) == Gpus(q) && Share(jobs[k], n) == Gpus(r)
    ensures Used(jobs, n) == Gpus(p + q + r)
  {
    hide Used, Share, Res.Plus, Gpus;
    UsedByThree(jobs, i, j, k, n);
    PlusGpus(p, q);
    PlusGpus(p + q, r);
  }

  /** The books of a cluster with a single node. */
  lemma OneNodeBalanced(jobs: Jobs, row: NodeRow)
    requires row.avail.NonNeg() && row.cap == row.avail.Plus(Used(jobs, row.id))
    ensures Ledger(jobs, map[row.id := row], map[row.id := ZERO])
  {
    assert Account(jobs, row, map[row.id := ZERO], row.id);
  }

  lemma FourBalanced(jobs: Jobs, n: NodeId, free: int, heartbeat: real)
    requires 0 <= free <= 4 && Used(jobs, n) == Gpus(4 - free)
    ensures Ledger(jobs, map[n := FourGpus(n, free, heartbeat)], map[n := ZERO])
  {
    hide Used, Ledger;
    OneNodeBalanced(jobs, FourGpus(n, free, heartbeat));
  }
}
