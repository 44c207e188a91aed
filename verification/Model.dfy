/** Jobs, nodes and the row-level effect of each statement the control plane issues. */
module Model {
  import opened Resources
  import opened Sums

  type JobId = string
  type NodeId = string

  datatype Option<+T> = None | Some(value: T)

  datatype JobStatus = Queued | Scheduled | Running | Completed | Failed | Cancelled | Preempted {
    predicate IsTerminal() {
      this == Completed || this == Failed || this == Cancelled
    }

    /** Scheduled and running jobs occupy cluster resources. */
    predicate IsActive() {
      this == Scheduled || this == Running
    }
  }

  datatype NodeStatus = Ready | Draining | Cordoned | Down

  /** A row of the jobs table; `createdAt` counts seconds. */
  datatype Job = Job(
    id: JobId,
    userId: string,
    teamId: string,
    status: JobStatus,
    priority: int,
    req: Res,
    node: Option<NodeId>,
    retries: int,
    maxRetries: int,
    createdAt: real)
  {
    /** The node's id as the code reads it: a row without a node reads as the empty id. */
    function NodeName(): NodeId {
      if node.None? then "" else node.value
    }

    /** The code's test for a job that has been placed; it misses a node with the empty id. */
    predicate Placed()
      ensures Placed() ==> node.Some?
    {
      NodeName() != ""
    }

    /** The job holds resources of node `n`. */
    predicate OnNode(n: NodeId) {
      status.IsActive() && node == Some(n)
    }
  }

  /** A row of the nodes table. */
  datatype NodeRow = NodeRow(
    id: NodeId,
    hostname: string,
    status: NodeStatus,
    cap: Res,
    avail: Res,
    lastHeartbeat: real)
  {
    /** The node accepts new work and has room for `r` (internal/models/node.go:46). */
    predicate Fits(r: Res) {
      status == Ready && avail.Covers(r)
    }
  }

  type Jobs = map<JobId, Job>
  type Nodes = map<NodeId, NodeRow>

  // ----- statements on the jobs table (internal/store/jobs.go:131-155); unknown ids match no row

  function UpdateStatus(jobs: Jobs, id: JobId, s: JobStatus): Jobs {
    if id in jobs then jobs[id := jobs[id].(status := s)] else jobs
  }

  function Schedule(jobs: Jobs, id: JobId, n: NodeId): Jobs {
    if id in jobs then jobs[id := jobs[id].(status := Scheduled, node := Some(n))] else jobs
  }

  function Requeue(jobs: Jobs, id: JobId, s: JobStatus): Jobs {
    if id in jobs then jobs[id := jobs[id].(status := s, node := None, retries := jobs[id].retries + 1)] else jobs
  }

  // ----- statements on the nodes table (internal/store/nodes.go:82-110)

  function UpdateAvailability(nodes: Nodes, n: NodeId, avail: Res): Nodes {
    if n in nodes then nodes[n := nodes[n].(avail := avail)] else nodes
  }

  function SetStatus(nodes: Nodes, n: NodeId, s: NodeStatus): Nodes {
    if n in nodes then nodes[n := nodes[n].(status := s)] else nodes
  }

  // ----- what the active jobs of a node add up to

  function Share(j: Job, n: NodeId): Res {
    if j.OnNode(n) then j.req else ZERO
  }

  function GpuOn(n: NodeId): Job -> int { (j: Job) => Share(j, n).gpu }
  function CpuOn(n: NodeId): Job -> int { (j: Job) => Share(j, n).cpu }
  function MemOn(n: NodeId): Job -> int { (j: Job) => Share(j, n).mem }

  /** The requests of all jobs active on `n`. */
  ghost function Used(jobs: Jobs, n: NodeId): Res {
    Res(SumOver(jobs, GpuOn(n)), SumOver(jobs, CpuOn(n)), SumOver(jobs, MemOn(n)))
  }

  lemma UsedUpdate(jobs: Jobs, id: JobId, j: Job, n: NodeId)
    ensures Used(jobs[id := j], n)
         == Used(jobs, n).Minus(if id in jobs then Share(jobs[id], n) else ZERO).Plus(Share(j, n))
  {
    SumUpdate(jobs, id, j, GpuOn(n));
    SumUpdate(jobs, id, j, CpuOn(n));
    SumUpdate(jobs, id, j, MemOn(n));
  }

  lemma UsedWithout(jobs: Jobs, id: JobId, n: NodeId)
    requires id in jobs
    ensures Used(jobs, n) == Share(jobs[id], n).Plus(Used(jobs - {id}, n))
  {
    SumRemove(jobs, id, GpuOn(n));
    SumRemove(jobs, id, CpuOn(n));
    SumRemove(jobs, id, MemOn(n));
  }

  lemma UsedSame(jobs: Jobs, jobs': Jobs, n: NodeId)
    requires jobs.Keys == jobs'.Keys
    requires forall id :: id in jobs ==> Share(jobs[id], n) == Share(jobs'[id], n)
    ensures Used(jobs, n) == Used(jobs', n)
  {
    SumSame(jobs, GpuOn(n), jobs', GpuOn(n));
    SumSame(jobs, CpuOn(n), jobs', CpuOn(n));
    SumSame(jobs, MemOn(n), jobs', MemOn(n));
  }

  lemma UsedNone(jobs: Jobs, n: NodeId)
    requires forall id :: id in jobs ==> !jobs[id].OnNode(n)
    ensures Used(jobs, n) == ZERO
  {
    UsedZero(jobs, n);
  }

  lemma UsedZero(jobs: Jobs, n: NodeId)
    requires forall id :: id in jobs ==> Share(jobs[id], n) == ZERO
    ensures Used(jobs, n) == ZERO
  {
    SumZero(jobs, GpuOn(n));
    SumZero(jobs, CpuOn(n));
    SumZero(jobs, MemOn(n));
  }

  ghost predicate RequestsNonNeg(jobs: Jobs) {
    forall id :: id in jobs ==> jobs[id].req.NonNeg()
  }

  lemma UsedNonNeg(jobs: Jobs, n: NodeId)
    requires RequestsNonNeg(jobs)
    ensures Used(jobs, n).NonNeg()
  {
    SumNonNeg(jobs, GpuOn(n));
    SumNonNeg(jobs, CpuOn(n));
    SumNonNeg(jobs, MemOn(n));
  }
}
