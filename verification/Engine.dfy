/** The scheduling engine: a tick as it runs, over node objects and the tables
    (internal/scheduler/engine.go). */
module Engine {
  import opened Resources
  import opened Sums
  import opened Sorting
  import opened Model
  import opened NodeObjects
  import opened Placement
  import opened Preemption
  import opened Ordering
  import opened Tick
  import opened Cluster
  import opened Services

  /** Loads one object per listed node. */
  method LoadObjects(table: Nodes, ids: seq<NodeId>) returns (nodes: seq<Node>)
    requires forall n :: n in ids ==> n in table
    ensures Distinct(nodes) && fresh(nodes)
    ensures Rows(nodes) == LoadNodes(table, ids)
  {
    nodes := [];
    for k := 0 to |ids|
      invariant |nodes| == k && Distinct(nodes) && fresh(nodes)
      invariant forall i :: 0 <= i < k ==> nodes[i].Row() == table[ids[i]]
    {
      var node := new Node(table[ids[k]]);
      nodes := nodes + [node];
    }
  }

  /** The active jobs by the node they occupy. */
  method GroupRunning(active: seq<Job>) returns (running: RunningMap)
    ensures running == GroupByNode(active)
  {
    running := map[];
    for k := 0 to |active|
      invariant running == GroupByNode(active[..k])
    {
      assert active[..k + 1][..k] == active[..k];
      var j := active[k];
      if j.NodeName() != "" {
        running := running[j.NodeName() := Occupants(running, j.NodeName()) + [j]];
      }
    }
    assert active[..|active|] == active;
  }

  method TotalGpus(nodes: seq<Node>) returns (total: int)
    ensures total == GpuTotal(Rows(nodes))
  {
    total := 0;
    ghost var rows := Rows(nodes);
    for k := 0 to |nodes|
      invariant total == GpuTotal(rows[..k])
    {
      assert rows[..k + 1][..k] == rows[..k];
      total := total + nodes[k].capacity.gpu;
    }
    assert rows[..|nodes|] == rows;
  }

  /** Divides each team's usage by the total. */
  method Fractions(usage: map<string, int>, total: int) returns (shares: map<string, real>)
    requires total != 0
    ensures shares == map team | team in usage :: usage[team] as real / total as real
  {
    shares := map[];
    var rest := usage.Keys;
    while rest != {}
      invariant rest <= usage.Keys && shares.Keys == usage.Keys - rest
      invariant forall team :: team in shares ==> shares[team] == usage[team] as real / total as real
    {
      var team :| team in rest;
      shares := shares[team := usage[team] as real / total as real];
      rest := rest - {team};
    }
  }

  method OrderQueue(alg: Algorithm, jobs: seq<Job>, now: real, f: real, shares: map<string, real>)
    returns (out: seq<Job>)
    ensures out == Order(alg, jobs, now, f, shares)
  {
    if alg == Priority {
      out := PriorityOrder(jobs, now, f);
    } else {
      out := StableSort(jobs, Before(alg, now, f, shares));
    }
  }

  /** The table after the listed jobs of dead nodes are stripped. */
  function StripListed(jobs: Jobs, active: seq<Job>, dead: set<NodeId>): Jobs {
    map id | id in jobs ::
      var j := jobs[id];
      if j in active && j.id == id && j.NodeName() in dead then Stripped(j) else j
  }

  /** Stripping the active jobs of the nodes found stale is what reconciliation does. */
  lemma ListedAreOnStale(c: State, active: seq<Job>, dead: set<NodeId>, now: real, ttl: real)
    requires forall id :: id in c.jobs ==> c.jobs[id].id == id && (c.jobs[id] in active <==> c.jobs[id].status.IsActive())
    requires dead == set n | n in c.nodes && Stale(c.nodes[n], now, ttl)
    ensures StripListed(c.jobs, active, dead) == StripJobs(c, now, ttl)
  {
  }

  lemma FractionsAreShares(jobs: Jobs, rows: seq<NodeRow>, usage: map<string, int>, total: int)
    requires total == GpuTotal(rows) != 0 && usage.Keys == Teams(jobs)
    requires forall team :: team in usage ==> usage[team] == SumOver(jobs, TeamGpu(team))
    ensures (map team | team in usage :: usage[team] as real / total as real) == TeamShares(jobs, rows)
  {
  }

  class Scheduler {
    const store: Store
    const cfg: Config
    // The tick's running map (a map passed by reference in the source) and its records.
    var running: RunningMap
    var events: seq<Event>
    var evictions: seq<Eviction>

    constructor (store: Store, cfg: Config)
      ensures this.store == store && this.cfg == cfg
    {
      this.store, this.cfg := store, cfg;
      running, events, evictions := map[], [], [];
    }

    /** What a tick sees between two queued jobs. */
    ghost function View(nodes: seq<Node>): TickView
      reads this, store, nodes
    {
      TickView(Rows(nodes), running, store.jobs, store.nodes, events, evictions)
    }

    method ReserveAt(nodes: seq<Node>, i: nat, r: Res)
      requires i < |nodes| && Distinct(nodes)
      modifies nodes
      ensures Rows(nodes) == var was := old(Rows(nodes)); was[i := was[i].(avail := was[i].avail.Minus(r))]
    {
      nodes[i].Reserve(r);
      assert Rows(nodes) == old(Rows(nodes))[i := nodes[i].Row()];
    }

    /** Books the placement in the running map, the tables and the records. */
    method Book(job: Job, node: Node)
      modifies this, store`jobs, store`nodes
      ensures running == old(running)[node.nodeId := Occupants(old(running), node.nodeId) + [job]]
      ensures store.jobs == Model.Schedule(old(store.jobs), job.id, node.nodeId)
      ensures store.nodes == Model.UpdateAvailability(old(store.nodes), node.nodeId, node.Row().avail)
      ensures events == old(events) + [Event(job.id, Some(node.nodeId), true)]
      ensures evictions == old(evictions)
    {
      running := running[node.nodeId := Occupants(running, node.nodeId) + [job]];
      store.Schedule(job.id, node.nodeId);
      store.UpdateAvailability(node.nodeId, node.gpuAvailable, node.cpuAvailable, node.memoryAvailable);
      events := events + [Event(job.id, Some(node.nodeId), true)];
    }

    method CommitPlacement(job: Job, nodes: seq<Node>, i: nat)
      requires i < |nodes| && Distinct(nodes)
      modifies this, store`jobs, store`nodes, nodes
      ensures View(nodes) == Commit(old(View(nodes)), job, i)
    {
      ReserveAt(nodes, i, job.req);
      ghost var row := Rows(nodes)[i];
      assert nodes[i].Row() == row;
      Book(job, nodes[i]);
    }

    /** Releases one victim on the node object and sends it back to the queue. */
    method EvictOne(node: Node, v: Job)
      modifies this`evictions, store`jobs, node
      ensures node.Row() == old(node.Row()).(avail := old(node.Row()).avail.Plus(v.req).ClampTo(old(node.Row()).cap))
      ensures store.jobs == Evicted(old(store.jobs), v.id)
      ensures evictions == old(evictions) + [Eviction(node.nodeId, v.id)]
    {
      node.Release(v.req);
      store.Requeue(v.id, Preempted);
      store.UpdateStatus(v.id, Queued);
      evictions := evictions + [Eviction(node.nodeId, v.id)];
    }

    /** Evicts the victims one after the other. */
    method EvictVictims(node: Node, victims: seq<Job>)
      modifies this`evictions, store`jobs, node
      ensures store.jobs == EvictAll(old(store.jobs), victims)
      ensures evictions == old(evictions) + EvictionLog(node.nodeId, victims)
      ensures var was := old(node.Row()); node.Row() == was.(avail := ReleaseAll(was.avail, was.cap, victims))
    {
      ghost var was := node.Row();
      for k := 0 to |victims|
        invariant node.Row() == was.(avail := ReleaseAll(was.avail, was.cap, victims[..k]))
        invariant store.jobs == EvictAll(old(store.jobs), victims[..k])
        invariant evictions == old(evictions) + EvictionLog(node.nodeId, victims[..k])
      {
        assert victims[..k + 1][..k] == victims[..k];
        EvictOne(node, victims[k]);
      }
      assert victims[..|victims|] == victims;
    }

    method CarryOut(nodes: seq<Node>, plan: Plan)
      requires plan.at < |nodes| && Distinct(nodes)
      modifies this, store`jobs, store`nodes, nodes
      ensures View(nodes) == ApplyPreemption(old(View(nodes)), plan)
    {
      var node := nodes[plan.at];
      EvictVictims(node, plan.victims);
      assert Rows(nodes) == old(Rows(nodes))[plan.at := node.Row()];
      store.UpdateAvailability(node.nodeId, node.gpuAvailable, node.cpuAvailable, node.memoryAvailable);
    }

    method GiveUp(job: Job, nodes: seq<Node>)
      modifies this`events
      ensures View(nodes) == Reject(old(View(nodes)), job)
    {
      events := events + [Event(job.id, None, false)];
    }

    /** Places the job if some node has room now. */
    method TryPlace(job: Job, nodes: seq<Node>) returns (ok: bool)
      requires Distinct(nodes)
      modifies this, store`jobs, store`nodes, nodes
      ensures var was := old(View(nodes));
              var at := Place(cfg.alg, was.nodes, job.req);
              ok == at.Some? && View(nodes) == if ok then Commit(was, job, at.value) else was
    {
      var at := PlaceJob(cfg.alg, job.req, nodes);
      ok := at.Some?;
      if ok {
        CommitPlacement(job, nodes, at.value);
      }
    }

    /** A plan, if the job has the right to preempt and some node would do. */
    method PlanPreemption(job: Job, nodes: seq<Node>, now: real) returns (plan: Option<Plan>)
      requires Place(cfg.alg, Rows(nodes), job.req).None?
      ensures plan == PlanFor(cfg, View(nodes), job, now)
    {
      plan := None;
      if cfg.preempt && (now - job.createdAt >= cfg.starvation || job.priority >= HIGH_PRIORITY) {
        plan := FindPreemption(job, nodes, running);
      }
    }

    /** Plans a preemption and carries it out. */
    method TryPreempt(job: Job, nodes: seq<Node>, now: real) returns (ok: bool)
      requires Distinct(nodes) && Place(cfg.alg, Rows(nodes), job.req).None?
      modifies this, store`jobs, store`nodes, nodes
      ensures var was := old(View(nodes));
              var plan := PlanFor(cfg, was, job, now);
              ok == plan.Some? && View(nodes) == if ok then ApplyPreemption(was, plan.value) else was
    {
      var plan := PlanPreemption(job, nodes, now);
      ok := plan.Some?;
      if ok {
        CarryOut(nodes, plan.value);
      }
    }

    method Attempt(job: Job, nodes: seq<Node>, now: real)
      requires Distinct(nodes)
      modifies this, store`jobs, store`nodes, nodes
      ensures View(nodes) == PlaceOne(cfg, old(View(nodes)), job, now)
    {
      ghost var was := View(nodes);
      var ok := TryPlace(job, nodes);
      if ok {
        return;
      }
      ok := TryPreempt(job, nodes, now);
      if ok {
        ghost var evicted := View(nodes);
        ok := TryPlace(job, nodes);
        assert View(nodes) == if ok then Commit(evicted, job, Place(cfg.alg, evicted.nodes, job.req).value) else evicted;
      }
      if !ok {
        GiveUp(job, nodes);
      }
    }

    /** Tries every job of the ordered queue. */
    method Drain(queue: seq<Job>, nodes: seq<Node>, now: real)
      requires Distinct(nodes)
      modifies this, store`jobs, store`nodes, nodes
      ensures View(nodes) == Boundary(cfg, old(View(nodes)), queue, now, |queue|)
    {
      for k := 0 to |queue|
        invariant View(nodes) == Boundary(cfg, old(View(nodes)), queue, now, k)
      {
        Attempt(queue[k], nodes, now);
      }
    }

    method TeamShareMap(nodes: seq<Node>) returns (shares: map<string, real>)
      ensures shares == TeamShares(store.jobs, Rows(nodes))
    {
      var total := TotalGpus(nodes);
      var usage := store.TeamGpuUsage();
      shares := map[];
      if total != 0 {
        shares := Fractions(usage, total);
        FractionsAreShares(store.jobs, Rows(nodes), usage, total);
      }
    }

    /** Sends the listed job of a dead node back to the queue, or fails it. */
    method Strip(job: Job)
      requires job.id in store.jobs && store.jobs[job.id] == job
      modifies store`jobs
      ensures store.jobs == old(store.jobs)[job.id := Stripped(job)]
    {
      if job.retries >= job.maxRetries {
        store.UpdateStatus(job.id, Failed);
      } else {
        store.Requeue(job.id, Queued);
      }
    }

    method StripDead(active: seq<Job>, dead: set<NodeId>)
      requires forall i :: 0 <= i < |active| ==> active[i].id in store.jobs && store.jobs[active[i].id] == active[i]
      requires forall i, k :: 0 <= i < k < |active| ==> active[i].id != active[k].id
      modifies store`jobs
      ensures store.jobs == StripListed(old(store.jobs), active, dead)
    {
      for k := 0 to |active|
        invariant store.jobs.Keys == old(store.jobs.Keys)
        invariant forall i :: k <= i < |active| ==> store.jobs[active[i].id] == active[i]
        invariant forall id :: id in store.jobs ==>
                    var j := old(store.jobs)[id];
                    store.jobs[id] ==
                    if j in active[..k] && j.id == id && j.NodeName() in dead then Stripped(j) else j
      {
        if active[k].NodeName() in dead {
          Strip(active[k]);
        }
      }
    }

    /** Marks stale nodes down and strips their jobs. */
    method ReconcileDeadNodes(now: real)
      requires store.Keyed()
      modifies store
      ensures store.Value() == Reconcile(old(store.Value()), now, cfg.heartbeatTtl)
    {
      ghost var c := store.Value();
      var dead := store.MarkStaleDown(now, cfg.heartbeatTtl);
      store.lost := AddLost(c, now, cfg.heartbeatTtl);
      store.lossRequeues := CountLoss(c, now, cfg.heartbeatTtl);
      if dead == {} {
        assert forall n :: n in c.nodes && Stale(c.nodes[n], now, cfg.heartbeatTtl) ==> n in dead;
        NothingStale(c, now, cfg.heartbeatTtl);
        return;
      }
      var active, _ := ListActive();
      StripDead(active, dead);
      ListedAreOnStale(c, active, dead, now, cfg.heartbeatTtl);
    }

    /** The active jobs, each once. */
    method ListActive() returns (active: seq<Job>, ghost ids: seq<JobId>)
      requires store.Keyed()
      ensures NoRepeats(ids) && forall id :: id in ids <==> id in store.jobs && store.jobs[id].status.IsActive()
      ensures active == LoadJobs(store.jobs, ids)
      ensures forall i :: 0 <= i < |active| ==> active[i].id in store.jobs && store.jobs[active[i].id] == active[i]
      ensures forall i, k :: 0 <= i < k < |active| ==> active[i].id != active[k].id
      ensures forall id :: id in store.jobs ==> (store.jobs[id] in active <==> store.jobs[id].status.IsActive())
    {
      active, ids := store.ListByStatuses({Scheduled, Running});
      forall i | 0 <= i < |active|
        ensures active[i].id == ids[i] && ids[i] in store.jobs && store.jobs[ids[i]] == active[i]
        ensures active[i].status.IsActive()
      {
        assert ids[i] in ids;
      }
      forall id | id in store.jobs && store.jobs[id].status.IsActive()
        ensures store.jobs[id] in active
      {
        assert id in ids;
        var i :| 0 <= i < |ids| && ids[i] == id;
        assert active[i] == store.jobs[id];
      }
    }

    /** Loads what the pass over the queue starts from. */
    method Load(ids: seq<NodeId>, active: seq<Job>, ghost l: Listing) returns (nodes: seq<Node>)
      requires ids == l.nodes && forall n :: n in ids ==> n in store.nodes
      requires (forall id :: id in l.active ==> id in store.jobs) && active == LoadJobs(store.jobs, l.active)
      modifies this
      ensures Distinct(nodes) && fresh(nodes)
      ensures View(nodes) == Snapshot(store.Value(), l)
    {
      running := GroupRunning(active);
      events, evictions := [], [];
      nodes := LoadObjects(store.nodes, ids);
    }

    method OrderedQueue(nodes: seq<Node>, queued: seq<Job>, now: real, ghost l: Listing) returns (ordered: seq<Job>)
      requires Lists(store.Value(), l)
      requires queued == LoadJobs(store.jobs, l.queued) && Rows(nodes) == LoadNodes(store.nodes, l.nodes)
      ensures ordered == TickQueue(cfg, store.Value(), now, l)
    {
      var shares := TeamShareMap(nodes);
      ordered := OrderQueue(cfg.alg, queued, now, cfg.agingFactor, shares);
    }

    /** Orders the queue and tries every job of it. */
    method PlaceQueue(ids: seq<NodeId>, queued: seq<Job>, active: seq<Job>, now: real, ghost l: Listing)
      requires Lists(store.Value(), l) && ids == l.nodes
      requires queued == LoadJobs(store.jobs, l.queued) && active == LoadJobs(store.jobs, l.active)
      modifies this, store`jobs, store`nodes
      ensures var v := TickEnd(cfg, old(store.Value()), now, l);
              store.jobs == v.jobs && store.nodes == v.rows
    {
      var nodes := Load(ids, active, l);
      var ordered := OrderedQueue(nodes, queued, now, l);
      Drain(ordered, nodes, now);
      assert View(nodes) == TickEnd(cfg, old(store.Value()), now, l);
    }

    /** Runs the three queries. */
    method Query() returns (ids: seq<NodeId>, queued: seq<Job>, active: seq<Job>, ghost l: Listing)
      ensures Lists(store.Value(), l) && ids == l.nodes
      ensures queued == LoadJobs(store.jobs, l.queued) && active == LoadJobs(store.jobs, l.active)
    {
      ghost var queuedIds, activeIds;
      ids := store.ListNodes();
      queued, queuedIds := store.ListByStatuses({Queued});
      active, activeIds := store.ListByStatuses({Scheduled, Running});
      l := Listing(ids, queuedIds, activeIds);
    }

    /** One full pass: reconcile, query, and place as many queued jobs as possible. */
    method Tick(now: real) returns (ghost l: Listing)
      requires store.Keyed()
      modifies this, store
      ensures Lists(Reconcile(old(store.Value()), now, cfg.heartbeatTtl), l)
      ensures store.Value() == DoTick(cfg, old(store.Value()), now, l)
    {
      ReconcileDeadNodes(now);
      ghost var r := store.Value();
      var ids, queued, active;
      ids, queued, active, l := Query();
      if queued != [] {
        PlaceQueue(ids, queued, active, now, l);
      }
    }
  }
}
