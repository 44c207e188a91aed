/** One pass over the ordered queue, on values (internal/scheduler/engine.go:112-208). */
module Tick {
  import opened Resources
  import opened Model
  import opened Placement
  import opened Preemption

  /** The scheduling settings a tick reads; times count seconds. */
  datatype Config = Config(
    alg: Algorithm,
    preempt: bool,
    starvation: real,
    agingFactor: real,
    heartbeatTtl: real)

  /** A recorded scheduling decision. */
  datatype Event = Event(job: JobId, node: Option<NodeId>, success: bool)

  /** A logged eviction. */
  datatype Eviction = Eviction(node: NodeId, job: JobId)

  /** Everything a tick reads and writes between two queued jobs: the loaded nodes, the running
      map, the two tables, and the decisions and evictions recorded so far. */
  datatype TickView = TickView(
    nodes: seq<NodeRow>,
    running: RunningMap,
    jobs: Jobs,
    rows: Nodes,
    events: seq<Event>,
    evictions: seq<Eviction>)

  const HIGH_PRIORITY: int := 8

  predicate ShouldPreempt(cfg: Config, job: Job, now: real) {
    now - job.createdAt >= cfg.starvation || job.priority >= HIGH_PRIORITY
  }

  /** Reserves the request on the node at `i` and records the placement. */
  function Commit(v: TickView, job: Job, i: nat): TickView
    requires i < |v.nodes|
  {
    var n := v.nodes[i].(avail := v.nodes[i].avail.Minus(job.req));
    v.(nodes := v.nodes[i := n],
       running := v.running[n.id := Occupants(v.running, n.id) + [job]],
       jobs := Schedule(v.jobs, job.id, n.id),
       rows := UpdateAvailability(v.rows, n.id, n.avail),
       events := v.events + [Event(job.id, Some(n.id), true)])
  }

  function Reject(v: TickView, job: Job): TickView {
    v.(events := v.events + [Event(job.id, None, false)])
  }

  /** Releases the victims' requests one after the other, clamping each time. */
  function ReleaseAll(avail: Res, cap: Res, vs: seq<Job>): Res {
    if vs == [] then avail
    else ReleaseAll(avail, cap, vs[..|vs| - 1]).Plus(vs[|vs| - 1].req).ClampTo(cap)
  }

  /** A victim is marked preempted, then returned to the queue. */
  function Evicted(jobs: Jobs, id: JobId): Jobs {
    UpdateStatus(Requeue(jobs, id, Preempted), id, Queued)
  }

  function EvictAll(jobs: Jobs, vs: seq<Job>): Jobs {
    if vs == [] then jobs else Evicted(EvictAll(jobs, vs[..|vs| - 1]), vs[|vs| - 1].id)
  }

  function EvictionLog(n: NodeId, vs: seq<Job>): (log: seq<Eviction>)
    ensures |log| == |vs|
    ensures forall i :: 0 <= i < |vs| ==> log[i] == Eviction(n, vs[i].id)
  {
    if vs == [] then [] else EvictionLog(n, vs[..|vs| - 1]) + [Eviction(n, vs[|vs| - 1].id)]
  }

  /** Evicts the plan's victims; they stay in the running map, as in the source. */
  function ApplyPreemption(v: TickView, plan: Plan): TickView
    requires plan.at < |v.nodes|
  {
    var was := v.nodes[plan.at];
    var n := was.(avail := ReleaseAll(was.avail, was.cap, plan.victims));
    v.(nodes := v.nodes[plan.at := n],
       jobs := EvictAll(v.jobs, plan.victims),
       rows := UpdateAvailability(v.rows, n.id, n.avail),
       evictions := v.evictions + EvictionLog(n.id, plan.victims))
  }

  /** The plan a tick carries out for `job`, if it comes to that. */
  function PlanFor(cfg: Config, v: TickView, job: Job, now: real): (p: Option<Plan>)
    ensures p.Some? ==> p.value.at < |v.nodes|
  {
    if Place(cfg.alg, v.nodes, job.req).Some? || !cfg.preempt || !ShouldPreempt(cfg, job, now) then None
    else FindPlan(job, v.nodes, v.running)
  }

  /** Tries the job where there is room, then after a preemption, and gives up otherwise. */
  function PlaceOne(cfg: Config, v: TickView, job: Job, now: real): TickView {
    var first := Place(cfg.alg, v.nodes, job.req);
    if first.Some? then Commit(v, job, first.value)
    else
      match PlanFor(cfg, v, job, now)
      case None => Reject(v, job)
      case Some(plan) =>
        var e := ApplyPreemption(v, plan);
        var second := Place(cfg.alg, e.nodes, job.req);
        if second.Some? then Commit(e, job, second.value) else Reject(e, job)
  }

  /** The view after the first `k` jobs of the ordered queue. */
  function Boundary(cfg: Config, v: TickView, queue: seq<Job>, now: real, k: nat): TickView
    requires k <= |queue|
  {
    if k == 0 then v else PlaceOne(cfg, Boundary(cfg, v, queue, now, k - 1), queue[k - 1], now)
  }
}
