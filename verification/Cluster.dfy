/** The control plane as a state machine: one step per request, report or tick. */
module Cluster {
  import opened Resources
  import opened Sums
  import opened Model
  import opened Preemption
  import opened Ordering
  import opened Tick
  import opened TickLedger

  /** The two tables, and two histories no program reads: what each node lost to jobs stripped
      from it, and how often each job was requeued from a lost node. */
  datatype State = State(jobs: Jobs, nodes: Nodes, lost: Lost, lossRequeues: map<JobId, nat>)

  const EMPTY: State := State(map[], map[], map[], map[])

  /** The payload of a job submission; `maxRetries` of zero or less means the default. */
  datatype Submission = Submission(
    userId: string,
    teamId: string,
    priority: int,
    req: Res,
    maxRetries: int)

  /** The order in which the three queries of a tick return their rows. */
  datatype Listing = Listing(nodes: seq<NodeId>, queued: seq<JobId>, active: seq<JobId>)

  datatype Op =
    | Submit(job: JobId, s: Submission, defaultRetries: int, now: real)
    | Register(node: NodeId, hostname: string, cap: Res, now: real)
    | Heartbeat(node: NodeId, now: real)
    | SetNodeStatus(node: NodeId, to: NodeStatus)
    | Report(job: JobId, status: JobStatus)
    | Cancel(job: JobId)
    | RunTick(now: real, listing: Listing)

  // ----- submissions

  function Clamp(x: int, lo: int, hi: int): int {
    if x < lo then lo else if x > hi then hi else x
  }

  predicate ValidSubmission(s: Submission) {
    && s.userId != ""
    && s.req.NonNeg()
    && !(s.req.gpu == 0 && s.req.cpu == 0)
    && s.req.gpu <= 64
  }

  function NewJob(id: JobId, s: Submission, defaultRetries: int, now: real): Job {
    Job(id, s.userId, s.teamId, Queued, Clamp(s.priority, 0, 10), s.req, None, 0,
        if s.maxRetries <= 0 then defaultRetries else s.maxRetries, now)
  }

  /** A rejected payload, or an id already taken, creates nothing. */
  function DoSubmit(c: State, id: JobId, s: Submission, defaultRetries: int, now: real): State {
    if !ValidSubmission(s) || id in c.jobs then c
    else c.(jobs := c.jobs[id := NewJob(id, s, defaultRetries, now)], lossRequeues := c.lossRequeues[id := 0])
  }

  // ----- node reports and operator commands

  /** A known node gets its new hostname, capacity and heartbeat; availability and status stay. */
  function DoRegister(c: State, n: NodeId, hostname: string, cap: Res, now: real): State {
    if n in c.nodes then
      c.(nodes := c.nodes[n := c.nodes[n].(hostname := hostname, cap := cap, lastHeartbeat := now)])
    else
      c.(nodes := c.nodes[n := NodeRow(n, hostname, Ready, cap, cap, now)], lost := c.lost[n := ZERO])
  }

  function DoHeartbeat(c: State, n: NodeId, now: real): State {
    if n !in c.nodes then c
    else
      var row := c.nodes[n];
      c.(nodes := c.nodes[n := row.(lastHeartbeat := now, status := if row.status == Down then Ready else row.status)])
  }

  /** Operators can cordon, drain and uncordon; no request marks a node down. */
  function DoSetNodeStatus(c: State, n: NodeId, s: NodeStatus): State {
    if s == Down then c else c.(nodes := SetStatus(c.nodes, n, s))
  }

  /** Gives a request back to a node's row, if the row exists. */
  function ReleaseRow(nodes: Nodes, n: NodeId, r: Res): Nodes {
    if n in nodes then UpdateAvailability(nodes, n, nodes[n].avail.Plus(r).ClampTo(nodes[n].cap)) else nodes
  }

  /** The handler looks at the reported status and the row's node, not at the row's status. */
  function DoReport(c: State, id: JobId, s: JobStatus): State {
    if id !in c.jobs then c
    else
      match s
      case Running => c.(jobs := UpdateStatus(c.jobs, id, Running))
      case Completed => Finalize(c, id, s)
      case Failed => Finalize(c, id, s)
      case Queued => c
      case Scheduled => c
      case Cancelled => c
      case Preempted => c
  }

  /** Gives back the job's request if it reads as placed, and records the final status. */
  function Finalize(c: State, id: JobId, s: JobStatus): State
    requires id in c.jobs
  {
    var job := c.jobs[id];
    var nodes := if job.Placed() then ReleaseRow(c.nodes, job.NodeName(), job.req) else c.nodes;
    c.(nodes := nodes, jobs := UpdateStatus(c.jobs, id, s))
  }

  function DoCancel(c: State, id: JobId): State {
    if id !in c.jobs || c.jobs[id].status.IsTerminal() then c
    else
      var job := c.jobs[id];
      var nodes := if job.status.IsActive() && job.Placed() then ReleaseRow(c.nodes, job.NodeName(), job.req)
                   else c.nodes;
      c.(nodes := nodes, jobs := UpdateStatus(c.jobs, id, Cancelled))
  }

  // ----- ticks

  /** The node is not down yet and has missed its heartbeats. */
  predicate Stale(n: NodeRow, now: real, ttl: real) {
    n.status != Down && n.lastHeartbeat < now - ttl
  }

  predicate OnStale(c: State, j: Job, now: real, ttl: real) {
    j.status.IsActive() && j.NodeName() in c.nodes && Stale(c.nodes[j.NodeName()], now, ttl)
  }

  predicate Exhausted(j: Job) {
    j.retries >= j.maxRetries
  }

  /** A job of a lost node goes back to the queue while it has retries left, and fails otherwise;
      a failed one keeps its node. */
  function Stripped(j: Job): Job {
    if Exhausted(j) then j.(status := Failed) else j.(status := Queued, node := None, retries := j.retries + 1)
  }

  function StripJobs(c: State, now: real, ttl: real): (jobs: Jobs)
    ensures jobs.Keys == c.jobs.Keys
  {
    map id | id in c.jobs :: if OnStale(c, c.jobs[id], now, ttl) then Stripped(c.jobs[id]) else c.jobs[id]
  }

  function MarkStaleDown(nodes: Nodes, now: real, ttl: real): (nodes': Nodes)
    ensures nodes'.Keys == nodes.Keys
  {
    map n | n in nodes :: if Stale(nodes[n], now, ttl) then nodes[n].(status := Down) else nodes[n]
  }

  /** What the stripped jobs held is never given back. */
  ghost function AddLost(c: State, now: real, ttl: real): Lost {
    map n | n in c.lost ::
      if n in c.nodes && Stale(c.nodes[n], now, ttl) then c.lost[n].Plus(Used(c.jobs, n)) else c.lost[n]
  }

  function CountLoss(c: State, now: real, ttl: real): map<JobId, nat> {
    map id | id in c.lossRequeues ::
      if id in c.jobs && OnStale(c, c.jobs[id], now, ttl) && !Exhausted(c.jobs[id]) then c.lossRequeues[id] + 1
      else c.lossRequeues[id]
  }

  /** Marks stale nodes down and strips their jobs; nothing is released. */
  ghost function Reconcile(c: State, now: real, ttl: real): State {
    State(StripJobs(c, now, ttl), MarkStaleDown(c.nodes, now, ttl), AddLost(c, now, ttl), CountLoss(c, now, ttl))
  }

  lemma NothingStale(c: State, now: real, ttl: real)
    requires forall n :: n in c.nodes ==> !Stale(c.nodes[n], now, ttl)
    ensures Reconcile(c, now, ttl) == c
  {
    assert StripJobs(c, now, ttl) == c.jobs;
    assert MarkStaleDown(c.nodes, now, ttl) == c.nodes;
    assert AddLost(c, now, ttl) == c.lost;
    assert CountLoss(c, now, ttl) == c.lossRequeues;
  }

  ghost predicate NoRepeats<T(!new)>(s: seq<T>) {
    forall i, j :: 0 <= i < j < |s| ==> s[i] != s[j]
  }

  /** Each query returns the rows it asks for, each once. */
  ghost predicate Lists(c: State, l: Listing) {
    && NoRepeats(l.nodes) && (forall n :: n in l.nodes <==> n in c.nodes)
    && NoRepeats(l.queued) && (forall id :: id in l.queued <==> id in c.jobs && c.jobs[id].status == Queued)
    && NoRepeats(l.active) && (forall id :: id in l.active <==> id in c.jobs && c.jobs[id].status.IsActive())
  }

  function LoadNodes(nodes: Nodes, ids: seq<NodeId>): (r: seq<NodeRow>)
    requires forall n :: n in ids ==> n in nodes
    ensures |r| == |ids|
    ensures forall i :: 0 <= i < |ids| ==> r[i] == nodes[ids[i]]
  {
    seq(|ids|, i requires 0 <= i < |ids| => assert ids[i] in ids; nodes[ids[i]])
  }

  function LoadJobs(jobs: Jobs, ids: seq<JobId>): (r: seq<Job>)
    requires forall id :: id in ids ==> id in jobs
    ensures |r| == |ids|
    ensures forall i :: 0 <= i < |ids| ==> r[i] == jobs[ids[i]]
  {
    seq(|ids|, i requires 0 <= i < |ids| => assert ids[i] in ids; jobs[ids[i]])
  }

  /** Appends each placed job to the list of its node. */
  function GroupByNode(js: seq<Job>): RunningMap {
    if js == [] then map[]
    else
      var rest, last := GroupByNode(js[..|js| - 1]), js[|js| - 1];
      if last.Placed() then rest[last.NodeName() := Occupants(rest, last.NodeName()) + [last]] else rest
  }

  /** What a tick has loaded when it starts on the queue. */
  function Snapshot(c: State, l: Listing): TickView
    requires forall n :: n in l.nodes ==> n in c.nodes
    requires forall id :: id in l.active ==> id in c.jobs
  {
    TickView(LoadNodes(c.nodes, l.nodes), GroupByNode(LoadJobs(c.jobs, l.active)), c.jobs, c.nodes, [], [])
  }

  function TeamGpu(team: string): Job -> int {
    (j: Job) => if j.status.IsActive() && j.teamId == team then j.req.gpu else 0
  }

  function GpuTotal(rows: seq<NodeRow>): int {
    if rows == [] then 0 else GpuTotal(rows[..|rows| - 1]) + rows[|rows| - 1].cap.gpu
  }

  /** Each team's active GPUs as a fraction of the listed capacity; no entries without capacity. */
  ghost function TeamShares(jobs: Jobs, rows: seq<NodeRow>): map<string, real> {
    var total := GpuTotal(rows);
    if total == 0 then map[]
    else
      var teams := set id | id in jobs && jobs[id].status.IsActive() :: jobs[id].teamId;
      map team | team in teams :: SumOver(jobs, TeamGpu(team)) as real / total as real
  }

  /** The queue in the order the algorithm tries it. */
  ghost function TickQueue(cfg: Config, c: State, now: real, l: Listing): seq<Job>
    requires Lists(c, l)
  {
    var rows := LoadNodes(c.nodes, l.nodes);
    Order(cfg.alg, LoadJobs(c.jobs, l.queued), now, cfg.agingFactor, TeamShares(c.jobs, rows))
  }

  /** The view a tick ends with, starting from the reconciled state `c`. */
  ghost function TickEnd(cfg: Config, c: State, now: real, l: Listing): TickView
    requires Lists(c, l)
  {
    var queue := TickQueue(cfg, c, now, l);
    Boundary(cfg, Snapshot(c, l), queue, now, |queue|)
  }

  /** One tick; a listing that the queries could not have returned has no effect. */
  ghost function DoTick(cfg: Config, c: State, now: real, l: Listing): State {
    var r := Reconcile(c, now, cfg.heartbeatTtl);
    if !Lists(r, l) then c
    else if l.queued == [] then r
    else
      var v := TickEnd(cfg, r, now, l);
      r.(jobs := v.jobs, nodes := v.rows)
  }

  ghost function Apply(cfg: Config, c: State, op: Op): State {
    match op
    case Submit(id, s, retries, now) => DoSubmit(c, id, s, retries, now)
    case Register(n, hostname, cap, now) => DoRegister(c, n, hostname, cap, now)
    case Heartbeat(n, now) => DoHeartbeat(c, n, now)
    case SetNodeStatus(n, s) => DoSetNodeStatus(c, n, s)
    case Report(id, s) => DoReport(c, id, s)
    case Cancel(id) => DoCancel(c, id)
    case RunTick(now, l) => DoTick(cfg, c, now, l)
  }

  /** The state after a sequence of steps. */
  ghost function Run(cfg: Config, c: State, ops: seq<Op>): State {
    if ops == [] then c else Apply(cfg, Run(cfg, c, ops[..|ops| - 1]), ops[|ops| - 1])
  }

  /** One more step at the end of a run. */
  lemma RunSnoc(cfg: Config, c: State, ops: seq<Op>, op: Op)
    ensures Run(cfg, c, ops + [op]) == Apply(cfg, Run(cfg, c, ops), op)
  {
    assert (ops + [op])[..|ops|] == ops;
  }
}
