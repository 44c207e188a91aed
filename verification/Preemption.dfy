/** The preemption planner (internal/scheduler/preemption.go). */
module Preemption {
  import opened Resources
  import opened Sorting
  import opened Model
  import opened NodeObjects

  /** Jobs occupying each node, as one tick believes them to be. */
  type RunningMap = map<NodeId, seq<Job>>

  function Occupants(running: RunningMap, n: NodeId): seq<Job> {
    if n in running then running[n] else []
  }

  /** The plan's node by position, and the jobs to evict from it, in order. */
  datatype Plan = Plan(at: nat, victims: seq<Job>)

  predicate Eligible(job: Job, r: Job) {
    r.priority < job.priority && r.userId != ""
  }

  function EligibleFor(job: Job): Job -> bool {
    (r: Job) => Eligible(job, r)
  }

  /** Cheapest victims first: lower priority, then newer. */
  predicate VictimBefore(a: Job, b: Job) {
    if a.priority != b.priority then a.priority < b.priority else a.createdAt > b.createdAt
  }

  function Candidates(job: Job, occupants: seq<Job>): seq<Job> {
    StableSort(Filter(occupants, EligibleFor(job)), VictimBefore)
  }

  function SumReq(js: seq<Job>): Res {
    if js == [] then ZERO else SumReq(js[..|js| - 1]).Plus(js[|js| - 1].req)
  }

  function SumPriority(js: seq<Job>): int {
    if js == [] then 0 else SumPriority(js[..|js| - 1]) + js[|js| - 1].priority
  }

  /** A single job counts with its priority, and lists add up. */
  lemma {:induction false} SumPriorityAdds(a: seq<Job>, b: seq<Job>)
    ensures SumPriority(a + b) == SumPriority(a) + SumPriority(b)
    ensures |b| == 1 ==> SumPriority(b) == b[0].priority
    decreases b
  {
    if b == [] {
      assert a + b == a;
    } else {
      var k := |b| - 1;
      assert (a + b)[..|a| + k] == a + b[..k];
      SumPriorityAdds(a, b[..k]);
    }
  }

  lemma SumReqStep(js: seq<Job>, k: nat)
    requires k < |js|
    ensures SumReq(js[..k + 1]) == SumReq(js[..k]).Plus(js[k].req)
  {
    assert js[..k + 1][..k] == js[..k];
  }

  /** How many of `vs` the greedy loop takes, having taken the first `k`. */
  function TakeFrom(free: Res, req: Res, vs: seq<Job>, k: nat): (n: nat)
    requires k <= |vs|
    ensures k <= n <= |vs|
    decreases |vs| - k
  {
    if k == |vs| || free.Plus(SumReq(vs[..k])).Covers(req) then k else TakeFrom(free, req, vs, k + 1)
  }

  /** The loop stops at the first prefix that makes room, or at the end. */
  lemma {:induction false} TakeFromIsFirst(free: Res, req: Res, vs: seq<Job>, k: nat)
    requires k <= |vs|
    ensures forall i :: k <= i < TakeFrom(free, req, vs, k) ==> !free.Plus(SumReq(vs[..i])).Covers(req)
    ensures TakeFrom(free, req, vs, k) < |vs| ==> free.Plus(SumReq(vs[..TakeFrom(free, req, vs, k)])).Covers(req)
    decreases |vs| - k
  {
    if k < |vs| && !free.Plus(SumReq(vs[..k])).Covers(req) {
      TakeFromIsFirst(free, req, vs, k + 1);
    }
  }

  /** The shortest prefix of the candidates that makes room on `n`, if any does. */
  function NodePlan(job: Job, n: NodeRow, occupants: seq<Job>): Option<seq<Job>> {
    if n.status != Ready then None
    else
      var vs := Candidates(job, occupants);
      var chosen := vs[..TakeFrom(n.avail, job.req, vs, 0)];
      if n.avail.Plus(SumReq(chosen)).Covers(job.req) then Some(chosen) else None
  }

  /** How much a plan disrupts: the number of victims, then their summed priority. */
  datatype Cost = Cost(victims: nat, priority: int) {
    predicate Less(b: Cost) {
      if victims != b.victims then victims < b.victims else priority < b.priority
    }
  }

  function CostOf(plan: Option<seq<Job>>): Option<Cost> {
    if plan.None? then None else Some(Cost(|plan.value|, SumPriority(plan.value)))
  }

  /** The position of the least cost, the first of those on ties. */
  function Cheapest(costs: seq<Option<Cost>>): (r: Option<nat>)
    ensures r.None? <==> forall i :: 0 <= i < |costs| ==> costs[i].None?
    ensures r.Some? ==> r.value < |costs| && costs[r.value].Some?
    ensures r.Some? ==> forall i :: 0 <= i < |costs| && costs[i].Some? && i != r.value ==>
                          var a, b := costs[r.value].value, costs[i].value;
                          || a.victims < b.victims
                          || (a.victims == b.victims && a.priority < b.priority)
                          || (a.victims == b.victims && a.priority == b.priority && r.value < i)
  {
    if costs == [] then None
    else
      var init, last := costs[..|costs| - 1], costs[|costs| - 1];
      var r := Cheapest(init);
      assert forall i :: 0 <= i < |init| ==> costs[i] == init[i];
      if last.None? then r
      else if r.None? || last.value.Less(init[r.value].value) then Some(|costs| - 1)
      else r
  }

  lemma CheapestStep(costs: seq<Option<Cost>>, k: nat)
    requires k < |costs|
    ensures Cheapest(costs[..k + 1])
         == var r := Cheapest(costs[..k]);
            if costs[k].None? then r
            else if r.None? || costs[k].value.Less(costs[r.value].value) then Some(k)
            else r
  {
    assert costs[..k + 1][..k] == costs[..k];
  }

  function PlanAt(job: Job, nodes: seq<NodeRow>, running: RunningMap, i: nat): Option<seq<Job>>
    requires i < |nodes|
  {
    NodePlan(job, nodes[i], Occupants(running, nodes[i].id))
  }

  function Costs(job: Job, nodes: seq<NodeRow>, running: RunningMap): (r: seq<Option<Cost>>)
    ensures |r| == |nodes|
    ensures forall i :: 0 <= i < |r| ==> r[i] == CostOf(PlanAt(job, nodes, running, i))
  {
    if nodes == [] then []
    else
      var k := |nodes| - 1;
      assert forall i :: 0 <= i < k ==> nodes[..k][i] == nodes[i];
      Costs(job, nodes[..k], running) + [CostOf(PlanAt(job, nodes, running, k))]
  }

  /** The least disruptive of the per-node plans, the first node's on ties. */
  function FindPlan(job: Job, nodes: seq<NodeRow>, running: RunningMap): (r: Option<Plan>)
    ensures r.None? <==> forall i :: 0 <= i < |nodes| ==> PlanAt(job, nodes, running, i).None?
    ensures r.Some? ==> r.value.at < |nodes| && PlanAt(job, nodes, running, r.value.at) == Some(r.value.victims)
  {
    var costs := Costs(job, nodes, running);
    var i := Cheapest(costs);
    assert forall i :: 0 <= i < |nodes| ==> (costs[i].None? <==> PlanAt(job, nodes, running, i).None?);
    if i.None? then None else Some(Plan(i.value, PlanAt(job, nodes, running, i.value).value))
  }

  // ----- the loops of FindPreemption

  method TotalPriority(victims: seq<Job>) returns (sum: int)
    ensures sum == SumPriority(victims)
  {
    sum := 0;
    for k := 0 to |victims|
      invariant sum == SumPriority(victims[..k])
    {
      assert victims[..k + 1][..k] == victims[..k];
      sum := sum + victims[k].priority;
    }
    assert victims[..|victims|] == victims;
  }

  lemma {:induction false} FilterExtends(xs: seq<Job>, k: nat, p: Job -> bool)
    requires k < |xs|
    ensures Filter(xs[..k + 1], p) == Filter(xs[..k], p) + (if p(xs[k]) then [xs[k]] else [])
    decreases k
  {
    if k == 0 {
      assert xs[..1][1..] == [];
    } else {
      assert xs[..k + 1][1..] == xs[1..][..k];
      assert xs[..k][1..] == xs[1..][..k - 1];
      FilterExtends(xs[1..], k - 1, p);
    }
  }

  method EligibleVictims(job: Job, occupants: seq<Job>) returns (victims: seq<Job>)
    ensures victims == Filter(occupants, EligibleFor(job))
  {
    victims := [];
    for k := 0 to |occupants|
      invariant victims == Filter(occupants[..k], EligibleFor(job))
    {
      FilterExtends(occupants, k, EligibleFor(job));
      var r := occupants[k];
      if r.priority < job.priority && r.userId != "" {
        victims := victims + [r];
      }
    }
    assert occupants[..|occupants|] == occupants;
  }

  /** The greedy loop: evict from the front until the request fits or nobody is left. */
  method TakeVictims(n: Node, req: Res, victims: seq<Job>) returns (chosen: seq<Job>, enough: bool)
    ensures chosen == victims[..TakeFrom(n.Row().avail, req, victims, 0)]
    ensures enough == n.Row().avail.Plus(SumReq(chosen)).Covers(req)
  {
    ghost var avail := n.Row().avail;
    var freeGpu, freeCpu, freeMem := n.gpuAvailable, n.cpuAvailable, n.memoryAvailable;
    chosen := [];
    assert SumReq(chosen) == ZERO;
    hide SumReq;
    var k := 0;
    while k < |victims| && !(freeGpu >= req.gpu && freeCpu >= req.cpu && freeMem >= req.mem)
      invariant 0 <= k <= |victims|
      invariant chosen == victims[..k]
      invariant Res(freeGpu, freeCpu, freeMem) == avail.Plus(SumReq(chosen))
      invariant TakeFrom(avail, req, victims, 0) == TakeFrom(avail, req, victims, k)
    {
      var v := victims[k];
      SumReqStep(victims, k);
      chosen := chosen + [v];
      assert chosen == victims[..k + 1];
      freeGpu, freeCpu, freeMem := freeGpu + v.req.gpu, freeCpu + v.req.cpu, freeMem + v.req.mem;
      k := k + 1;
    }
    enough := !(freeGpu < req.gpu || freeCpu < req.cpu || freeMem < req.mem);
  }

  method PlanForNode(job: Job, n: Node, occupants: seq<Job>) returns (plan: Option<seq<Job>>)
    ensures plan == NodePlan(job, n.Row(), occupants)
  {
    if n.status != Ready {
      return None;
    }
    var victims := EligibleVictims(job, occupants);
    victims := StableSort(victims, VictimBefore);
    var chosen, enough := TakeVictims(n, job.req, victims);
    plan := if enough then Some(chosen) else None;
  }

  method Beats(a: seq<Job>, b: seq<Job>) returns (better: bool)
    ensures better <==> |a| < |b| || (|a| == |b| && SumPriority(a) < SumPriority(b))
  {
    if |a| != |b| {
      return |a| < |b|;
    }
    var pa := TotalPriority(a);
    var pb := TotalPriority(b);
    return pa < pb;
  }

  method FindPreemption(job: Job, nodes: seq<Node>, running: RunningMap) returns (best: Option<Plan>)
    ensures best == FindPlan(job, Rows(nodes), running)
  {
    hide NodePlan, Cheapest, Costs;
    ghost var rows := Rows(nodes);
    ghost var costs := Costs(job, rows, running);
    best := None;
    for k := 0 to |nodes|
      invariant best.None? <==> Cheapest(costs[..k]).None?
      invariant best.Some? ==> Cheapest(costs[..k]) == Some(best.value.at) && best.value.at < k
      invariant best.Some? ==> PlanAt(job, rows, running, best.value.at) == Some(best.value.victims)
    {
      CheapestStep(costs, k);
      var n := nodes[k];
      var plan := PlanForNode(job, n, Occupants(running, n.nodeId));
      assert costs[k] == CostOf(plan);
      if plan.Some? {
        if best == None {
          best := Some(Plan(k, plan.value));
        } else {
          var better := Beats(plan.value, best.value.victims);
          if better {
            best := Some(Plan(k, plan.value));
          }
        }
      }
    }
    assert costs[..|nodes|] == costs;
  }
}
