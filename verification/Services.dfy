/** The tables and the handlers that read, change and write back their rows
    (internal/store, internal/grpc/server.go, internal/api/handlers.go). */
module Services {
  import opened Resources
  import opened Sums
  import opened Model
  import opened NodeObjects
  import opened TickLedger
  import opened Cluster

  /** Lists a set, each element once, in some order. */
  method Enumerate(ids: set<string>) returns (l: seq<string>)
    ensures NoRepeats(l)
    ensures forall x :: x in l <==> x in ids
  {
    l := [];
    var rest := ids;
    while rest != {}
      invariant rest <= ids && NoRepeats(l)
      invariant forall x :: x in l <==> x in ids && x !in rest
    {
      var x :| x in rest;
      l := l + [x];
      rest := rest - {x};
    }
  }

  function Teams(jobs: Jobs): set<string> {
    set id | id in jobs && jobs[id].status.IsActive() :: jobs[id].teamId
  }

  function Gpus(usage: map<string, int>, team: string): int {
    if team in usage then usage[team] else 0
  }

  /** The usage with one more row added in. */
  function Tallied(usage: map<string, int>, j: Job): map<string, int> {
    if j.status.IsActive() then usage[j.teamId := Gpus(usage, j.teamId) + j.req.gpu] else usage
  }

  /** What is tallied and what the rows of `rest` still add come to the whole table's sums. */
  ghost predicate Tallies(usage: map<string, int>, rest: Jobs, jobs: Jobs) {
    forall team :: Gpus(usage, team) + SumOver(rest, TeamGpu(team)) == SumOver(jobs, TeamGpu(team))
  }

  lemma TallyStep(usage: map<string, int>, rest: Jobs, jobs: Jobs, id: JobId)
    requires id in rest && Tallies(usage, rest, jobs)
    ensures Tallies(Tallied(usage, rest[id]), rest - {id}, jobs)
  {
    forall team
      ensures Gpus(Tallied(usage, rest[id]), team) + SumOver(rest - {id}, TeamGpu(team)) == SumOver(jobs, TeamGpu(team))
    {
      SumRemove(rest, id, TeamGpu(team));
    }
  }

  lemma TallyDone(usage: map<string, int>, rest: Jobs, jobs: Jobs)
    requires rest.Keys == {} && Tallies(usage, rest, jobs)
    ensures forall team :: team in usage ==> usage[team] == SumOver(jobs, TeamGpu(team))
  {
    forall team | team in usage ensures usage[team] == SumOver(jobs, TeamGpu(team)) {
      assert Gpus(usage, team) + SumOver(rest, TeamGpu(team)) == SumOver(jobs, TeamGpu(team));
    }
  }

  lemma TeamsStep(jobs: Jobs, rest: set<JobId>, id: JobId)
    requires id in rest && id in jobs
    ensures Teams(jobs - (rest - {id}))
         == Teams(jobs - rest) + if jobs[id].status.IsActive() then {jobs[id].teamId} else {}
  {
    var more, less := jobs - (rest - {id}), jobs - rest;
    assert forall k :: k in more <==> k in less || k == id;
    assert jobs[id].status.IsActive() ==> jobs[id].teamId in Teams(more) by {
      assert id in more;
    }
  }

  method TallyTeams(jobs: Jobs) returns (usage: map<string, int>)
    ensures usage.Keys == Teams(jobs)
    ensures forall team :: team in usage ==> usage[team] == SumOver(jobs, TeamGpu(team))
  {
    usage := map[];
    var rest := jobs.Keys;
    assert jobs - {} == jobs && jobs - (jobs.Keys - jobs.Keys) == jobs;
    while rest != {}
      invariant rest <= jobs.Keys
      invariant usage.Keys == Teams(jobs - rest)
      invariant Tallies(usage, jobs - (jobs.Keys - rest), jobs)
    {
      var id :| id in rest;
      TallyStep(usage, jobs - (jobs.Keys - rest), jobs, id);
      TeamsStep(jobs, rest, id);
      assert jobs - (jobs.Keys - rest) - {id} == jobs - (jobs.Keys - (rest - {id}));
      usage, rest := Tallied(usage, jobs[id]), rest - {id};
    }
    TallyDone(usage, jobs - (jobs.Keys - rest), jobs);
  }

  /** The jobs and nodes tables; every call succeeds and is atomic. */
  class Store {
    var jobs: Jobs
    var nodes: Nodes
    ghost var lost: Lost
    ghost var lossRequeues: map<JobId, nat>

    ghost function Value(): State
      reads this
    {
      State(jobs, nodes, lost, lossRequeues)
    }

    /** The id is the primary key of the jobs table. */
    ghost predicate Keyed()
      reads this
    {
      forall id :: id in jobs ==> jobs[id].id == id
    }

    constructor ()
      ensures Value() == EMPTY
    {
      jobs, nodes, lost, lossRequeues := map[], map[], map[], map[];
    }

    method UpdateStatus(id: JobId, s: JobStatus)
      modifies this`jobs
      ensures jobs == Model.UpdateStatus(old(jobs), id, s)
    {
      if id in jobs {
        jobs := jobs[id := jobs[id].(status := s)];
      }
    }

    method Schedule(id: JobId, n: NodeId)
      modifies this`jobs
      ensures jobs == Model.Schedule(old(jobs), id, n)
    {
      if id in jobs {
        jobs := jobs[id := jobs[id].(status := Scheduled, node := Some(n))];
      }
    }

    method Requeue(id: JobId, s: JobStatus)
      modifies this`jobs
      ensures jobs == Model.Requeue(old(jobs), id, s)
    {
      if id in jobs {
        jobs := jobs[id := jobs[id].(status := s, node := None, retries := jobs[id].retries + 1)];
      }
    }

    method UpdateAvailability(n: NodeId, gpu: int, cpu: int, mem: int)
      modifies this`nodes
      ensures nodes == Model.UpdateAvailability(old(nodes), n, Res(gpu, cpu, mem))
    {
      if n in nodes {
        nodes := nodes[n := nodes[n].(avail := Res(gpu, cpu, mem))];
      }
    }

    method SetStatus(n: NodeId, s: NodeStatus)
      modifies this`nodes
      ensures nodes == Model.SetStatus(old(nodes), n, s)
    {
      if n in nodes {
        nodes := nodes[n := nodes[n].(status := s)];
      }
    }

    /** Refreshes liveness and revives a node that was down; reports whether the node is known. */
    method Heartbeat(n: NodeId, now: real) returns (found: bool)
      modifies this`nodes
      ensures found <==> n in old(nodes)
      ensures Value() == DoHeartbeat(old(Value()), n, now)
    {
      found := n in nodes;
      if found {
        var row := nodes[n];
        nodes := nodes[n := row.(lastHeartbeat := now, status := if row.status == Down then Ready else row.status)];
      }
    }

    /** Inserts a node, or updates hostname, capacity and heartbeat of a known one. */
    method Upsert(row: NodeRow)
      modifies this`nodes, this`lost
      ensures nodes == old(nodes)[row.id :=
                if row.id !in old(nodes) then row
                else old(nodes)[row.id].(hostname := row.hostname, cap := row.cap, lastHeartbeat := row.lastHeartbeat)]
      ensures lost == if row.id in old(nodes) then old(lost) else old(lost)[row.id := ZERO]
    {
      if row.id in nodes {
        var known := nodes[row.id];
        nodes := nodes[row.id := known.(hostname := row.hostname, cap := row.cap, lastHeartbeat := row.lastHeartbeat)];
      } else {
        nodes := nodes[row.id := row];
        lost := lost[row.id := ZERO];
      }
    }

    /** Marks every stale node down and returns which those were. */
    method MarkStaleDown(now: real, ttl: real) returns (dead: set<NodeId>)
      modifies this`nodes
      ensures dead == set n | n in old(nodes) && Stale(old(nodes)[n], now, ttl)
      ensures nodes == Cluster.MarkStaleDown(old(nodes), now, ttl)
    {
      dead := set n | n in nodes && Stale(nodes[n], now, ttl);
      nodes := map n | n in nodes :: if n in dead then nodes[n].(status := Down) else nodes[n];
    }

    method ListNodes() returns (ids: seq<NodeId>)
      ensures NoRepeats(ids) && forall n :: n in ids <==> n in nodes
    {
      ids := Enumerate(nodes.Keys);
    }

    /** The rows with one of the given statuses, in some order. */
    method ListByStatuses(statuses: set<JobStatus>) returns (js: seq<Job>, ghost ids: seq<JobId>)
      ensures NoRepeats(ids) && forall id :: id in ids <==> id in jobs && jobs[id].status in statuses
      ensures js == LoadJobs(jobs, ids)
    {
      var listed := Enumerate(set id | id in jobs && jobs[id].status in statuses);
      js, ids := LoadJobs(jobs, listed), listed;
    }

    /** The GPUs of each team's active jobs; a team without active jobs has no entry. */
    method TeamGpuUsage() returns (usage: map<string, int>)
      ensures usage.Keys == Teams(jobs)
      ensures forall team :: team in usage ==> usage[team] == SumOver(jobs, TeamGpu(team))
    {
      usage := TallyTeams(jobs);
    }

    /** Creates a job unless its id is taken. */
    method Create(j: Job) returns (ok: bool)
      modifies this`jobs, this`lossRequeues
      ensures ok <==> j.id !in old(jobs)
      ensures jobs == if ok then old(jobs)[j.id := j] else old(jobs)
      ensures lossRequeues == if ok then old(lossRequeues)[j.id := 0] else old(lossRequeues)
    {
      ok := j.id !in jobs;
      if ok {
        jobs := jobs[j.id := j];
        lossRequeues := lossRequeues[j.id := 0];
      }
    }
  }

  /** Loads a node, releases a request on the object, and writes its availability back. */
  method ReleaseOn(store: Store, n: NodeId, r: Res)
    modifies store`nodes
    ensures store.nodes == ReleaseRow(old(store.nodes), n, r)
  {
    if n in store.nodes {
      var node := new Node(store.nodes[n]);
      node.Release(r);
      store.UpdateAvailability(n, node.gpuAvailable, node.cpuAvailable, node.memoryAvailable);
    }
  }

  /** What an agent is told about a status report. */
  datatype Ack = Done | NotFound | Unsupported

  class NodeServer {
    const store: Store

    constructor (store: Store)
      ensures this.store == store
    {
      this.store := store;
    }

    method Register(n: NodeId, hostname: string, cap: Res, now: real)
      modifies store
      ensures store.Value() == DoRegister(old(store.Value()), n, hostname, cap, now)
    {
      store.Upsert(NodeRow(n, hostname, Ready, cap, cap, now));
    }

    /** The status the agent should adopt; none for a node that must register first. */
    method Heartbeat(n: NodeId, now: real) returns (desired: Option<NodeStatus>)
      modifies store
      ensures store.Value() == DoHeartbeat(old(store.Value()), n, now)
      ensures desired == if n in store.nodes then Some(store.nodes[n].status) else None
      ensures desired != Some(Down)
    {
      var found := store.Heartbeat(n, now);
      if !found {
        return None;
      }
      return Some(store.nodes[n].status);
    }

    method UpdateJobStatus(id: JobId, s: JobStatus) returns (ack: Ack)
      modifies store
      ensures store.Value() == DoReport(old(store.Value()), id, s)
      ensures ack == if id !in old(store.jobs) then NotFound
                     else if s == Running || s == Completed || s == Failed then Done else Unsupported
    {
      if id !in store.jobs {
        return NotFound;
      }
      var job := store.jobs[id];
      match s
      case Running =>
        store.UpdateStatus(id, Running);
        return Done;
      case Completed =>
        ReleaseAndFinalize(id, job, s);
        return Done;
      case Failed =>
        ReleaseAndFinalize(id, job, s);
        return Done;
      case _ =>
        return Unsupported;
    }

    method ReleaseAndFinalize(id: JobId, job: Job, s: JobStatus)
      requires id in store.jobs && store.jobs[id] == job
      modifies store
      ensures store.Value() == Finalize(old(store.Value()), id, s)
    {
      if job.NodeName() != "" {
        ReleaseOn(store, job.NodeName(), job.req);
      }
      store.UpdateStatus(id, s);
    }
  }

  datatype Response = Created | Ok | BadRequest(reason: string) | Missing | Conflict | ServerError

  class ApiServer {
    const store: Store
    const defaultRetries: int

    constructor (store: Store, defaultRetries: int)
      ensures this.store == store && this.defaultRetries == defaultRetries
    {
      this.store, this.defaultRetries := store, defaultRetries;
    }

    /** The first complaint about a payload, if there is one. */
    function Complaint(s: Submission): (r: Option<string>)
      ensures r.None? <==> ValidSubmission(s)
    {
      if s.userId == "" then Some("user_id is required")
      else if s.req.gpu < 0 || s.req.cpu < 0 || s.req.mem < 0 then Some("resource requests must be non-negative")
      else if s.req.gpu == 0 && s.req.cpu == 0 then Some("job must request at least one GPU or CPU")
      else if s.req.gpu > 64 then Some("gpu_count exceeds maximum of 64")
      else None
    }

    method SubmitJob(id: JobId, s: Submission, now: real) returns (r: Response)
      modifies store
      ensures store.Value() == DoSubmit(old(store.Value()), id, s, defaultRetries, now)
      ensures r == Created <==> ValidSubmission(s) && id !in old(store.jobs)
      ensures r.BadRequest? <==> !ValidSubmission(s)
    {
      var complaint := Complaint(s);
      if complaint.Some? {
        return BadRequest(complaint.value);
      }
      var maxRetries := s.maxRetries;
      if maxRetries <= 0 {
        maxRetries := defaultRetries;
      }
      var job := Job(id, s.userId, s.teamId, Queued, Clamp(s.priority, 0, 10), s.req, None, 0, maxRetries, now);
      var created := store.Create(job);
      return if created then Created else ServerError;
    }

    method CancelJob(id: JobId) returns (r: Response)
      modifies store
      ensures store.Value() == DoCancel(old(store.Value()), id)
      ensures r == if id !in old(store.jobs) then Missing
                   else if old(store.jobs)[id].status.IsTerminal() then Conflict else Ok
    {
      if id !in store.jobs {
        return Missing;
      }
      var job := store.jobs[id];
      if job.status.IsTerminal() {
        return Conflict;
      }
      if job.status.IsActive() && job.NodeName() != "" {
        ReleaseOn(store, job.NodeName(), job.req);
      }
      store.UpdateStatus(id, Cancelled);
      return Ok;
    }

    /** Cordon, drain or uncordon. */
    method SetNodeStatus(n: NodeId, s: NodeStatus) returns (r: Response)
      requires s != Down
      modifies store
      ensures store.Value() == DoSetNodeStatus(old(store.Value()), n, s)
      ensures r == if n in old(store.nodes) then Ok else Missing
    {
      if n !in store.nodes {
        return Missing;
      }
      store.SetStatus(n, s);
      return Ok;
    }
  }
}
