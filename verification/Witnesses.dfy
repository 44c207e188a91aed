/** Runs in which the code does not do what one would expect of it. */
module Witnesses {
  import opened Resources
  import opened Model
  import opened Preemption
  import opened PlannerTheorems
  import opened FewestVictims
  import opened Tick
  import opened TickLedger
  import opened Cluster
  import opened TableRows
  import opened ClusterInvariants
  import opened OneNode
  import Lease

  // ----- the planner does not always evict the fewest jobs

  lemma OnlyNode(job: Job, n: NodeRow, occupants: seq<Job>, vs: seq<Job>)
    requires NodePlan(job, n, occupants) == Some(vs)
    ensures FindPlan(job, [n], map[n.id := occupants]) == Some(Plan(0, vs))
  {
    assert PlanAt(job, [n], map[n.id := occupants], 0) == Some(vs);
  }

  lemma GreedyPlan(job: Job, small: Job, large: Job, n: NodeRow)
    requires Eligible(job, small) && Eligible(job, large) && small.priority < large.priority
    requires n.status == Ready && small.req.NonNeg()
    requires !n.avail.Plus(small.req).Covers(job.req) && n.avail.Plus(small.req).Plus(large.req).Covers(job.req)
    ensures NodePlan(job, n, [small, large]) == Some([small, large])
  {
    TwoCandidates(job, small, large);
    TakesTwo(n.avail, job.req, small, large);
    assert [small, large][..2] == [small, large];
  }

  lemma LargeSuffices(job: Job, small: Job, large: Job, n: NodeRow)
    requires Eligible(job, large) && small.id != large.id && n.avail.Plus(large.req).Covers(job.req)
    ensures Suffices(job, n, [small, large], {large.id})
  {
    assert [small, large] == [small] + [large];
    SumOfCons(small, [large], {large.id});
    SumOfOne(large, {large.id});
  }

  /** On a cluster of one node, the planner evicts a small and a less dispensable large job
      although the large one alone would make room. */
  lemma GreedyEvictsMore(job: Job, small: Job, large: Job, n: NodeRow)
    requires Eligible(job, small) && Eligible(job, large) && small.priority < large.priority && small.id != large.id
    requires n.status == Ready && small.req.NonNeg()
    requires !n.avail.Plus(small.req).Covers(job.req) && n.avail.Plus(large.req).Covers(job.req)
    ensures var running := map[n.id := [small, large]];
            && FindPlan(job, [n], running) == Some(Plan(0, [small, large]))
            && Suffices(job, n, Occupants(running, n.id), {large.id})
            && !FewestAnywhere(job, [n], running, 2)
  {
    hide NodePlan, FindPlan, PlanAt, Eligible;
    var both := [small, large];
    GreedyPlan(job, small, large, n);
    OnlyNode(job, n, both, both);
    LargeSuffices(job, small, large, n);
    assert |{large.id}| == 1;
    assert !Fewest(job, [n][0], both, 2);
  }

  /** Such jobs exist: three GPUs are wanted on top of a free one, and one job has them. */
  lemma GreedyExample()
    ensures var job := Submitted("j", 9, 4);
            var small, large := Submitted("s", 1, 1), Submitted("l", 2, 3);
            FindPlan(job, [FourGpus("n", 1, 0.0)], map["n" := [small, large]]) == Some(Plan(0, [small, large]))
  {
    GreedyEvictsMore(Submitted("j", 9, 4), Submitted("s", 1, 1), Submitted("l", 2, 3), FourGpus("n", 1, 0.0));
  }

  // ----- one victim evicted twice in a tick

  /** "x" fills the node; "a" and "b" wait. The names may be any. */
  function Crowded(n: NodeId, x: JobId, a: JobId, b: JobId): State {
    State(map[x := Submitted(x, 1, 4).(status := Scheduled, node := Some(n)),
              a := Submitted(a, 9, 2), b := Submitted(b, 9, 4)],
          map[n := FourGpus(n, 0, 0.0)], map[n := ZERO], map[x := 0, a := 0, b := 0])
  }

  predicate Differ(x: JobId, a: JobId, b: JobId) {
    x != a && a != b && x != b
  }

  function CrowdingOps(n: NodeId, x: JobId, a: JobId, b: JobId): seq<Op> {
    [Register(n, "host", Gpus(4), 0.0), Submit(x, Ask(1, 4), 3, 0.0)]
    + [RunTick(0.0, Listing([n], [x], []))]
    + [Submit(a, Ask(9, 2), 3, 0.0), Submit(b, Ask(9, 4), 3, 0.0)]
  }

  function DoubleEvictionTick(n: NodeId, x: JobId, a: JobId, b: JobId): Op {
    RunTick(0.0, Listing([n], [a, b], [x]))
  }

  lemma MoreArrivals(cfg: Config, n: NodeId, x: JobId, a: JobId, b: JobId)
    requires Differ(x, a, b)
    ensures Run(cfg, Alone(n, Submitted(x, 1, 4).(status := Scheduled, node := Some(n)), 0),
                [Submit(a, Ask(9, 2), 3, 0.0), Submit(b, Ask(9, 4), 3, 0.0)])
         == Crowded(n, x, a, b)
  {
    hide DoSubmit;
    var c := Alone(n, Submitted(x, 1, 4).(status := Scheduled, node := Some(n)), 0);
    Arrives(c, a, 9, 2);
    Arrives(DoSubmit(c, a, Ask(9, 2), 3, 0.0), b, 9, 4);
    RunTwo(cfg, c, Submit(a, Ask(9, 2), 3, 0.0), Submit(b, Ask(9, 4), 3, 0.0));
  }

  lemma CrowdingRun(cfg: Config, n: NodeId, x: JobId, a: JobId, b: JobId)
    requires Fifo(cfg)
    requires Differ(x, a, b)
    ensures Run(cfg, EMPTY, CrowdingOps(n, x, a, b)) == Crowded(n, x, a, b)
  {
    var c, c' := Alone(n, Submitted(x, 1, 4), 4), Alone(n, Submitted(x, 1, 4).(status := Scheduled, node := Some(n)), 0);
    ArrivalRun(cfg, n, x);
    FirstTick(cfg, n, Submitted(x, 1, 4));
    TickStep(cfg, 0.0, c, Listing([n], [x], []), c');
    RunStages(cfg, [Register(n, "host", Gpus(4), 0.0), Submit(x, Ask(1, 4), 3, 0.0)],
              RunTick(0.0, Listing([n], [x], [])),
              [Submit(a, Ask(9, 2), 3, 0.0), Submit(b, Ask(9, 4), 3, 0.0)], c, c');
    MoreArrivals(cfg, n, x, a, b);
  }

  lemma OneOccupantMore(n: NodeId, x: Job, a: Job)
    ensures map[n := [x]][n := Occupants(map[n := [x]], n) + [a]] == map[n := [x, a]]
  {
    assert [x] + [a] == [x, a];
  }

  lemma OnlyOccupant(now: real, v: TickView, n: NodeId, x: Job, a: Job)
    requires v.running == map[n := [x]]
    requires x.req == Gpus(4) && a.req == Gpus(2) && Eligible(a, x)
    ensures NodePlan(a, FourGpus(n, 0, now), Occupants(v.running, n)) == Some([x])
  {
    OneCandidate(a, x);
    PlanOne(a, FourGpus(n, 0, now), [x], x);
  }

  /** A job with two GPUs and the right to preempt takes the place of `x`. */
  lemma TakesPlace(cfg: Config, now: real, v: TickView, n: NodeId, x: Job, a: Job)
    requires Fifo(cfg)
    requires Single(v, FourGpus(n, 0, now), map[n := [x]], v.jobs)
    requires x.req == Gpus(4) && a.req == Gpus(2) && Eligible(a, x) && a.priority >= HIGH_PRIORITY
    ensures Single(PlaceOne(cfg, v, a, now), FourGpus(n, 2, now), map[n := [x, a]],
                   Schedule(Evicted(v.jobs, x.id), a.id, n))
  {
    OnlyOccupant(now, v, n, x, a);
    ReleaseOne(Gpus(0), Gpus(4), x);
    EvictTwo(v.jobs, x, x);
    OneOccupantMore(n, x, a);
    PlaceByEviction(cfg, now, v, FourGpus(n, 0, now), a, [x], FourGpus(n, 4, now));
  }

  /** Another one evicts `x` again, and takes GPUs that `a` already holds. */
  lemma TakesTwice(cfg: Config, now: real, v: TickView, n: NodeId, x: Job, a: Job, b: Job)
    requires Fifo(cfg)
    requires Single(v, FourGpus(n, 2, now), map[n := [x, a]], v.jobs)
    requires x.req == b.req == Gpus(4) && Eligible(b, x) && !Eligible(b, a) && b.priority >= HIGH_PRIORITY
    ensures var r := PlaceOne(cfg, v, b, now);
            Single(r, FourGpus(n, 0, now), r.running, Schedule(Evicted(v.jobs, x.id), b.id, n))
  {
    assert NodePlan(b, FourGpus(n, 2, now), [x, a]) == Some([x]) by {
      FirstCandidate(b, x, a);
      PlanOne(b, FourGpus(n, 2, now), [x, a], x);
    }
    ReleaseOne(Gpus(2), Gpus(4), x);
    EvictTwo(v.jobs, x, x);
    PlaceByEviction(cfg, now, v, FourGpus(n, 2, now), b, [x], FourGpus(n, 4, now));
  }

  lemma TwoAttempts(cfg: Config, now: real, v: TickView, a: Job, b: Job)
    ensures Boundary(cfg, v, [a, b], now, 2) == PlaceOne(cfg, PlaceOne(cfg, v, a, now), b, now)
  {
    assert Boundary(cfg, v, [a, b], now, 1) == PlaceOne(cfg, Boundary(cfg, v, [a, b], now, 0), a, now);
  }

  lemma CrowdedPass(cfg: Config, now: real, v: TickView, n: NodeId, x: Job, a: Job, b: Job)
    requires Fifo(cfg)
    requires Single(v, FourGpus(n, 0, now), map[n := [x]], v.jobs)
    requires x.req == b.req == Gpus(4) && a.req == Gpus(2)
    requires Eligible(a, x) && Eligible(b, x) && !Eligible(b, a) && a.priority == b.priority == 9
    ensures var end := Boundary(cfg, v, [a, b], now, 2);
            Single(end, FourGpus(n, 0, now), end.running,
                   Schedule(Evicted(Schedule(Evicted(v.jobs, x.id), a.id, n), x.id), b.id, n))
  {
    TwoAttempts(cfg, now, v, a, b);
    TakesPlace(cfg, now, v, n, x, a);
    TakesTwice(cfg, now, PlaceOne(cfg, v, a, now), n, x, a, b);
  }

  /** `x` fills the only node, and `a` and `b` wait to take its place. */
  ghost predicate IsCrowded(c: State, n: NodeId, x: JobId, a: JobId, b: JobId) {
    && n != "" && c.nodes == map[n := FourGpus(n, 0, 0.0)] && c.jobs.Keys == {x, a, b} && Differ(x, a, b)
    && (forall id :: id in c.jobs ==> c.jobs[id].id == id && c.jobs[id].createdAt == 0.0 && c.jobs[id].userId != "")
    && c.jobs[x].OnNode(n) && c.jobs[x].priority == 1 && c.jobs[x].req == Gpus(4)
    && c.jobs[x].retries == 0 && c.jobs[x].maxRetries == 1
    && c.jobs[a].status == Queued && c.jobs[a].priority == 9 && c.jobs[a].req == Gpus(2)
    && c.jobs[b].status == Queued && c.jobs[b].priority == 9 && c.jobs[b].req == Gpus(4)
  }

  lemma CrowdedIs(n: NodeId, x: JobId, a: JobId, b: JobId)
    requires n != "" && Differ(x, a, b)
    ensures IsCrowded(Crowded(n, x, a, b), n, x, a, b) && Crowded(n, x, a, b).lost == map[n := ZERO]
  {
  }

  lemma CrowdedListing(c: State, n: NodeId, x: JobId, a: JobId, b: JobId)
    requires IsCrowded(c, n, x, a, b)
    ensures Lists(c, Listing([n], [a, b], [x]))
    ensures LoadJobs(c.jobs, [a, b]) == [c.jobs[a], c.jobs[b]]
    ensures GroupByNode(LoadJobs(c.jobs, [x])) == map[n := [c.jobs[x]]]
  {
    LoadTwo(c.jobs, a, b);
    assert LoadJobs(c.jobs, [x]) == [c.jobs[x]];
    GroupOne(c.jobs[x], n);
  }

  lemma CrowdedTick(cfg: Config, c: State, n: NodeId, x: JobId, a: JobId, b: JobId)
    requires Fifo(cfg)
    requires IsCrowded(c, n, x, a, b)
    ensures DoTick(cfg, c, 0.0, Listing([n], [a, b], [x]))
         == c.(jobs := Schedule(Evicted(Schedule(Evicted(c.jobs, x), a, n), x), b, n))
  {
    CrowdedListing(c, n, x, a, b);
    var queue, running := [c.jobs[a], c.jobs[b]], map[n := [c.jobs[x]]];
    TickIsPass(cfg, 0.0, c, FourGpus(n, 0, 0.0), Listing([n], [a, b], [x]), queue, running);
    var v := TickView([FourGpus(n, 0, 0.0)], running, c.jobs, c.nodes, [], []);
    CrowdedPass(cfg, 0.0, v, n, c.jobs[x], c.jobs[a], c.jobs[b]);
  }

  lemma CrowdedRows(n: NodeId, x: JobId, a: JobId, b: JobId)
    requires n != "" && Differ(x, a, b)
    ensures RowsOk(Crowded(n, x, a, b))
  {
    var c := Crowded(n, x, a, b);
    forall id | id in c.jobs
      ensures JobOk(c, id)
    {
      assert id == x || id == a || id == b;
    }
  }

  lemma CrowdedBalanced(c: State, n: NodeId, x: JobId, a: JobId, b: JobId)
    requires IsCrowded(c, n, x, a, b) && c.lost == map[n := ZERO]
    ensures Ledger(c.jobs, c.nodes, c.lost)
  {
    assert Share(c.jobs[x], n) == Gpus(4) && Share(c.jobs[a], n) == Gpus(0) == Share(c.jobs[b], n);
    hide Ledger, Used, Share, Gpus;
    UsedGpus(c.jobs, x, a, b, n, 4, 0, 0);
    FourBalanced(c.jobs, n, 0, 0.0);
  }

  lemma CrowdedInv(n: NodeId, x: JobId, a: JobId, b: JobId)
    requires n != "" && Differ(x, a, b)
    ensures Inv(Crowded(n, x, a, b))
  {
    hide RowsOk, Ledger, Crowded, IsCrowded;
    CrowdedIs(n, x, a, b);
    CrowdedRows(n, x, a, b);
    CrowdedBalanced(Crowded(n, x, a, b), n, x, a, b);
  }

  /** The node holds six GPUs' worth of jobs on its four, and `x` is past its retry budget. */
  ghost predicate Overcommitted(c: State, n: NodeId, x: JobId) {
    && n in c.nodes && c.nodes[n].cap == Gpus(4) && Used(c.jobs, n) == Gpus(6)
    && x in c.jobs && c.jobs[x].retries > c.jobs[x].maxRetries
  }

  lemma OvercommittedBreaks(c: State, n: NodeId, x: JobId)
    requires Overcommitted(c, n, x)
    ensures !Inv(c)
  {
    assert !Account(c.jobs, c.nodes[n], c.lost, n);
  }

  /** The row of a job that is scheduled, evicted or left alone by one statement. */
  lemma StatementRows(jobs: Jobs, id: JobId, other: JobId, n: NodeId)
    requires id in jobs && other in jobs && id != other
    ensures Schedule(jobs, id, n).Keys == jobs.Keys == Evicted(jobs, id).Keys
    ensures Schedule(jobs, id, n)[id] == jobs[id].(status := Scheduled, node := Some(n))
    ensures Evicted(jobs, id)[id] == jobs[id].(status := Queued, node := None, retries := jobs[id].retries + 1)
    ensures Schedule(jobs, id, n)[other] == jobs[other] == Evicted(jobs, id)[other]
  {
  }

  lemma CrowdedEndRows(jobs: Jobs, n: NodeId, x: JobId, a: JobId, b: JobId)
    requires jobs.Keys == {x, a, b} && Differ(x, a, b)
    ensures var end := Schedule(Evicted(Schedule(Evicted(jobs, x), a, n), x), b, n);
            && end.Keys == {x, a, b}
            && end[x] == jobs[x].(status := Queued, node := None, retries := jobs[x].retries + 2)
            && end[a] == jobs[a].(status := Scheduled, node := Some(n))
            && end[b] == jobs[b].(status := Scheduled, node := Some(n))
  {
    hide Schedule, Evicted;
    var j1 := Evicted(jobs, x);
    var j2 := Schedule(j1, a, n);
    var j3 := Evicted(j2, x);
    StatementRows(jobs, x, a, n);
    StatementRows(jobs, x, b, n);
    StatementRows(j1, a, x, n);
    StatementRows(j1, a, b, n);
    StatementRows(j2, x, a, n);
    StatementRows(j2, x, b, n);
    StatementRows(j3, b, x, n);
    StatementRows(j3, b, a, n);
  }

  lemma CrowdedEnd(c: State, n: NodeId, x: JobId, a: JobId, b: JobId)
    requires IsCrowded(c, n, x, a, b)
    ensures Overcommitted(c.(jobs := Schedule(Evicted(Schedule(Evicted(c.jobs, x), a, n), x), b, n)), n, x)
  {
    hide Used, Schedule, Evicted;
    CrowdedEndRows(c.jobs, n, x, a, b);
    UsedGpus(Schedule(Evicted(Schedule(Evicted(c.jobs, x), a, n), x), b, n), x, a, b, n, 0, 2, 4);
  }

  lemma AfterCrowding(cfg: Config, ops: seq<Op>, c: State, n: NodeId, x: JobId, a: JobId, b: JobId)
    requires Fifo(cfg)
    requires Run(cfg, EMPTY, ops) == c && IsCrowded(c, n, x, a, b)
    ensures Overcommitted(Run(cfg, EMPTY, ops + [DoubleEvictionTick(n, x, a, b)]), n, x)
  {
    var c' := c.(jobs := Schedule(Evicted(Schedule(Evicted(c.jobs, x), a, n), x), b, n));
    CrowdedTick(cfg, c, n, x, a, b);
    TickStep(cfg, 0.0, c, Listing([n], [a, b], [x]), c');
    RunStages(cfg, ops, DoubleEvictionTick(n, x, a, b), [], c, c');
    assert ops + [DoubleEvictionTick(n, x, a, b)] + [] == ops + [DoubleEvictionTick(n, x, a, b)];
    CrowdedEnd(c, n, x, a, b);
  }

  /** A run from an empty cluster whose accounts balance until a tick evicts `x` twice: the node
      then holds six GPUs' worth of jobs on its four, and `x` is past its retry budget. */
  lemma DoubleEvictionOvercommits(cfg: Config, n: NodeId, x: JobId, a: JobId, b: JobId)
    requires Fifo(cfg)
    requires n != "" && Differ(x, a, b)
    ensures Inv(Run(cfg, EMPTY, CrowdingOps(n, x, a, b)))
    ensures var after := Run(cfg, EMPTY, CrowdingOps(n, x, a, b) + [DoubleEvictionTick(n, x, a, b)]);
            Overcommitted(after, n, x) && !Inv(after)
  {
    CrowdingRun(cfg, n, x, a, b);
    CrowdedInv(n, x, a, b);
    CrowdedIs(n, x, a, b);
    AfterCrowding(cfg, CrowdingOps(n, x, a, b), Crowded(n, x, a, b), n, x, a, b);
    OvercommittedBreaks(Run(cfg, EMPTY, CrowdingOps(n, x, a, b) + [DoubleEvictionTick(n, x, a, b)]), n, x);
  }

  // ----- preemption without end

  /** A free node of four GPUs, last heard of at `at`; `x`, `a` and `b` wait, and `b` asks for more
      than the node has. */
  ghost predicate IsIdle(c: State, n: NodeId, x: JobId, a: JobId, b: JobId, at: real) {
    && n != "" && c.nodes == map[n := FourGpus(n, 4, at)] && c.lost == map[n := ZERO]
    && c.jobs.Keys == {x, a, b} && Differ(x, a, b)
    && (forall id :: id in c.jobs ==> c.jobs[id].id == id && c.jobs[id].createdAt == 0.0 && c.jobs[id].userId != "")
    && (forall id :: id in c.jobs ==> c.jobs[id].status == Queued && c.jobs[id].node == None)
    && c.jobs[x].priority == 1 && c.jobs[x].req == Gpus(4)
    && c.jobs[a].priority == 8 && c.jobs[a].req == Gpus(2)
    && c.jobs[b].priority == 9 && c.jobs[b].req == Gpus(8)
  }

  lemma IdleInv(c: State, n: NodeId, x: JobId, a: JobId, b: JobId, at: real)
    requires IsIdle(c, n, x, a, b, at)
    ensures Inv(c)
  {
    assert RowsOk(c);
    UsedNone(c.jobs, n);
    FourBalanced(c.jobs, n, 4, at);
  }

  /** With both `x` and `a` on record, the planner believes in eight free GPUs. */
  lemma BothOccupants(row: NodeRow, x: Job, a: Job, b: Job)
    requires row.status == Ready && row.avail == Gpus(2)
    requires x.req == Gpus(4) && a.req == Gpus(2) && b.req == Gpus(8)
    requires Eligible(b, x) && Eligible(b, a) && x.priority < a.priority
    ensures NodePlan(b, row, [x, a]) == Some([x, a])
  {
    hide NodePlan, Eligible, Res.Plus;
    SumCovers(row.avail, x.req, a.req, b.req);
    Short(row.avail, x.req, b.req);
    GreedyPlan(b, x, a, row);
  }

  lemma BothReleased(x: Job, a: Job)
    requires x.req == Gpus(4) && a.req == Gpus(2)
    ensures ReleaseAll(Gpus(2), Gpus(4), [x, a]) == Gpus(4)
  {
    hide ReleaseAll;
    ReleaseTwo(Gpus(2), Gpus(4), x, a);
  }

  lemma BothEvicted(cfg: Config, now: real, v: TickView, n: NodeId, x: Job, a: Job, b: Job)
    requires Fifo(cfg)
    requires Single(v, FourGpus(n, 2, now), map[n := [x, a]], v.jobs)
    requires x.req == Gpus(4) && a.req == Gpus(2) && b.req == Gpus(8)
    requires Eligible(b, x) && Eligible(b, a) && x.priority < a.priority && b.priority >= HIGH_PRIORITY
    ensures Single(PlaceOne(cfg, v, b, now), FourGpus(n, 4, now), v.running, Evicted(Evicted(v.jobs, x.id), a.id))
  {
    hide NodePlan, PlaceOne, ReleaseAll, EvictAll, Evicted, Eligible;
    BothOccupants(FourGpus(n, 2, now), x, a, b);
    BothReleased(x, a);
    EvictTwo(v.jobs, x, a);
    assert Occupants(v.running, n) == [x, a];
    EvictInVain(cfg, now, v, FourGpus(n, 2, now), b, [x, a], FourGpus(n, 4, now));
  }

  lemma ThreeAttempts(cfg: Config, now: real, v: TickView, x: Job, a: Job, b: Job)
    ensures Boundary(cfg, v, [x, a, b], now, 3)
         == PlaceOne(cfg, PlaceOne(cfg, PlaceOne(cfg, v, x, now), a, now), b, now)
  {
    var queue := [x, a, b];
    assert Boundary(cfg, v, queue, now, 1) == PlaceOne(cfg, Boundary(cfg, v, queue, now, 0), x, now);
    assert Boundary(cfg, v, queue, now, 2) == PlaceOne(cfg, Boundary(cfg, v, queue, now, 1), a, now);
  }

  lemma FirstOfThree(cfg: Config, now: real, v: TickView, n: NodeId, x: Job)
    requires Fifo(cfg)
    requires Single(v, FourGpus(n, 4, now), map[], v.jobs) && x.req == Gpus(4)
    ensures Single(PlaceOne(cfg, v, x, now), FourGpus(n, 0, now), map[n := [x]], Schedule(v.jobs, x.id, n))
  {
    assert Occupants(map[], n) + [x] == [x];
    PlaceDirectly(cfg, now, v, FourGpus(n, 4, now), x);
  }

  /** `x` is placed, gives way to `a`, and both are evicted for `b`, which is not placed. */
  lemma IdlePass(cfg: Config, now: real, v: TickView, n: NodeId, x: Job, a: Job, b: Job)
    requires Fifo(cfg)
    requires Single(v, FourGpus(n, 4, now), map[], v.jobs)
    requires x.req == Gpus(4) && a.req == Gpus(2) && b.req == Gpus(8)
    requires Eligible(a, x) && Eligible(b, x) && Eligible(b, a) && a.priority == 8 && b.priority == 9
    ensures var end := Boundary(cfg, v, [x, a, b], now, 3);
            var placed := Schedule(Evicted(Schedule(v.jobs, x.id, n), x.id), a.id, n);
            Single(end, FourGpus(n, 4, now), end.running, Evicted(Evicted(placed, x.id), a.id))
  {
    ThreeAttempts(cfg, now, v, x, a, b);
    var v1 := PlaceOne(cfg, v, x, now);
    FirstOfThree(cfg, now, v, n, x);
    TakesPlace(cfg, now, v1, n, x, a);
    BothEvicted(cfg, now, PlaceOne(cfg, v1, a, now), n, x, a, b);
  }

  function IdleListing(n: NodeId, x: JobId, a: JobId, b: JobId): Listing {
    Listing([n], [x, a, b], [])
  }

  lemma IdleLists(c: State, n: NodeId, x: JobId, a: JobId, b: JobId, at: real)
    requires IsIdle(c, n, x, a, b, at)
    ensures Lists(c, IdleListing(n, x, a, b))
    ensures LoadJobs(c.jobs, [x, a, b]) == [c.jobs[x], c.jobs[a], c.jobs[b]]
    ensures GroupByNode(LoadJobs(c.jobs, [])) == map[]
  {
  }

  /** The same jobs wait again, two more retries on `x` and one more on `a`. */
  function Again(jobs: Jobs, x: JobId, a: JobId): Jobs
    requires x in jobs && a in jobs
  {
    jobs[x := jobs[x].(retries := jobs[x].retries + 2)][a := jobs[a].(retries := jobs[a].retries + 1)]
  }

  lemma EvictedRow(jobs: Jobs, id: JobId)
    requires id in jobs
    ensures Evicted(jobs, id) == jobs[id := jobs[id].(status := Queued, node := None, retries := jobs[id].retries + 1)]
  {
  }

  /** A waiting job that is placed and evicted waits again, with one more retry. */
  lemma PlacedAndEvicted(jobs: Jobs, id: JobId, n: NodeId)
    requires id in jobs && jobs[id].status == Queued && jobs[id].node == None
    ensures Evicted(Schedule(jobs, id, n), id) == jobs[id := jobs[id].(retries := jobs[id].retries + 1)]
  {
    EvictedRow(Schedule(jobs, id, n), id);
  }

  lemma OtherOrder(jobs: Jobs, x: JobId, a: JobId, n: NodeId)
    requires x in jobs && a in jobs && x != a
    ensures Evicted(Schedule(jobs, a, n), x) == Schedule(Evicted(jobs, x), a, n)
  {
    EvictedRow(Schedule(jobs, a, n), x);
    EvictedRow(jobs, x);
  }

  lemma IdleJobs(jobs: Jobs, n: NodeId, x: JobId, a: JobId)
    requires x in jobs && a in jobs && x != a
    requires jobs[x].status == Queued && jobs[x].node == None && jobs[a].status == Queued && jobs[a].node == None
    ensures var placed := Schedule(Evicted(Schedule(jobs, x, n), x), a, n);
            Evicted(Evicted(placed, x), a) == Again(jobs, x, a)
  {
    var once := jobs[x := jobs[x].(retries := jobs[x].retries + 1)];
    var twice := jobs[x := jobs[x].(retries := jobs[x].retries + 2)];
    PlacedAndEvicted(jobs, x, n);
    OtherOrder(once, x, a, n);
    assert Evicted(once, x) == twice by {
      EvictedRow(once, x);
    }
    PlacedAndEvicted(twice, a, n);
  }

  lemma IdleTick(cfg: Config, now: real, c: State, n: NodeId, x: JobId, a: JobId, b: JobId)
    requires Fifo(cfg)
    requires IsIdle(c, n, x, a, b, now)
    ensures DoTick(cfg, c, now, IdleListing(n, x, a, b)) == c.(jobs := Again(c.jobs, x, a))
  {
    IdleLists(c, n, x, a, b, now);
    var queue := [c.jobs[x], c.jobs[a], c.jobs[b]];
    TickIsPass(cfg, now, c, FourGpus(n, 4, now), IdleListing(n, x, a, b), queue, map[]);
    var v := TickView([FourGpus(n, 4, now)], map[], c.jobs, c.nodes, [], []);
    IdlePass(cfg, now, v, n, c.jobs[x], c.jobs[a], c.jobs[b]);
    IdleJobs(c.jobs, n, x, a);
  }

  lemma IdleStays(c: State, n: NodeId, x: JobId, a: JobId, b: JobId, at: real)
    requires IsIdle(c, n, x, a, b, at)
    ensures IsIdle(c.(jobs := Again(c.jobs, x, a)), n, x, a, b, at)
  {
    assert Again(c.jobs, x, a).Keys == c.jobs.Keys;
  }

  lemma IdleBeats(c: State, n: NodeId, x: JobId, a: JobId, b: JobId, at: real, now: real)
    requires IsIdle(c, n, x, a, b, at)
    ensures IsIdle(DoHeartbeat(c, n, now), n, x, a, b, now) && DoHeartbeat(c, n, now).jobs == c.jobs
  {
    assert DoHeartbeat(c, n, now).nodes == map[n := FourGpus(n, 4, now)];
  }

  /** A heartbeat and a tick. */
  function Round(n: NodeId, x: JobId, a: JobId, b: JobId, now: real): seq<Op> {
    [Heartbeat(n, now), RunTick(now, IdleListing(n, x, a, b))]
  }

  /** One round at each of the given times. */
  function Rounds(n: NodeId, x: JobId, a: JobId, b: JobId, times: seq<real>): seq<Op> {
    if times == [] then []
    else Rounds(n, x, a, b, times[..|times| - 1]) + Round(n, x, a, b, times[|times| - 1])
  }

  /** After `k` rounds. */
  ghost predicate Cycled(c: State, n: NodeId, x: JobId, a: JobId, b: JobId, k: nat) {
    && (exists at :: IsIdle(c, n, x, a, b, at))
    && c.jobs[x].retries == 2 * k && c.jobs[a].retries == k
  }

  lemma RoundResult(cfg: Config, c: State, n: NodeId, x: JobId, a: JobId, b: JobId, at: real, now: real)
    requires Fifo(cfg)
    requires IsIdle(c, n, x, a, b, at)
    ensures var c' := Run(cfg, c, Round(n, x, a, b, now));
            IsIdle(c', n, x, a, b, now) && c'.jobs == Again(c.jobs, x, a)
  {
    hide DoTick, Cycled;
    var h := DoHeartbeat(c, n, now);
    IdleBeats(c, n, x, a, b, at, now);
    IdleTick(cfg, now, h, n, x, a, b);
    IdleStays(h, n, x, a, b, now);
    RunTwo(cfg, c, Heartbeat(n, now), RunTick(now, IdleListing(n, x, a, b)));
  }

  lemma CycleStep(cfg: Config, c: State, n: NodeId, x: JobId, a: JobId, b: JobId, k: nat, now: real)
    requires Fifo(cfg)
    requires Cycled(c, n, x, a, b, k)
    ensures Cycled(Run(cfg, c, Round(n, x, a, b, now)), n, x, a, b, k + 1)
  {
    hide Run;
    var at :| IsIdle(c, n, x, a, b, at);
    RoundResult(cfg, c, n, x, a, b, at, now);
  }

  lemma {:induction false} Cycle(cfg: Config, c: State, n: NodeId, x: JobId, a: JobId, b: JobId, times: seq<real>)
    requires Fifo(cfg)
    requires Cycled(c, n, x, a, b, 0)
    ensures Cycled(Run(cfg, c, Rounds(n, x, a, b, times)), n, x, a, b, |times|)
    decreases times
  {
    hide Cycled, Apply;
    if times != [] {
      var k := |times| - 1;
      var before := Rounds(n, x, a, b, times[..k]);
      Cycle(cfg, c, n, x, a, b, times[..k]);
      CycleStep(cfg, Run(cfg, c, before), n, x, a, b, k, times[k]);
      RunConcat(cfg, c, before, Round(n, x, a, b, times[k]));
    }
  }

  function IdleOps(n: NodeId, x: JobId, a: JobId, b: JobId): seq<Op> {
    [Register(n, "host", Gpus(4), 0.0), Submit(x, Ask(1, 4), 3, 0.0)]
    + [Submit(a, Ask(8, 2), 3, 0.0)] + [Submit(b, Ask(9, 8), 3, 0.0)]
  }

  lemma IdleArrivals(n: NodeId, x: JobId, a: JobId, b: JobId)
    requires n != "" && Differ(x, a, b)
    ensures Cycled(DoSubmit(DoSubmit(Alone(n, Submitted(x, 1, 4), 4), a, Ask(8, 2), 3, 0.0), b, Ask(9, 8), 3, 0.0),
                   n, x, a, b, 0)
  {
    var c := Alone(n, Submitted(x, 1, 4), 4);
    var c1 := DoSubmit(c, a, Ask(8, 2), 3, 0.0);
    var c2 := DoSubmit(c1, b, Ask(9, 8), 3, 0.0);
    Arrives(c, a, 8, 2);
    Arrives(c1, b, 9, 8);
    hide DoSubmit;
    assert c2.jobs.Keys == {x, a, b};
    assert c2.jobs[x] == Submitted(x, 1, 4) && c2.jobs[a] == Submitted(a, 8, 2) && c2.jobs[b] == Submitted(b, 9, 8);
    assert IsIdle(c2, n, x, a, b, 0.0);
  }

  lemma IdleRun(cfg: Config, n: NodeId, x: JobId, a: JobId, b: JobId)
    requires n != "" && Differ(x, a, b)
    ensures Cycled(Run(cfg, EMPTY, IdleOps(n, x, a, b)), n, x, a, b, 0)
  {
    var c := Alone(n, Submitted(x, 1, 4), 4);
    var c' := DoSubmit(c, a, Ask(8, 2), 3, 0.0);
    IdleArrivals(n, x, a, b);
    hide Cycled, DoSubmit;
    ArrivalRun(cfg, n, x);
    RunStages(cfg, [Register(n, "host", Gpus(4), 0.0), Submit(x, Ask(1, 4), 3, 0.0)], Submit(a, Ask(8, 2), 3, 0.0),
              [Submit(b, Ask(9, 8), 3, 0.0)], c, c');
    RunOne(cfg, c', Submit(b, Ask(9, 8), 3, 0.0));
  }

  lemma CycledInv(c: State, n: NodeId, x: JobId, a: JobId, b: JobId, k: nat)
    requires Cycled(c, n, x, a, b, k)
    ensures Inv(c) && b in c.jobs && c.jobs[b].status == Queued
  {
    var at :| IsIdle(c, n, x, a, b, at);
    IdleInv(c, n, x, a, b, at);
  }

  /** Preemption can go on forever, at any times: from an empty cluster, one registration and three
      submissions lead to a state that every later heartbeat and tick lead back to, the tick having
      placed `x` and `a` and evicted them again for `b`, which fits on no node. The accounts
      balance all the while. */
  lemma PreemptionWithoutEnd(cfg: Config, n: NodeId, x: JobId, a: JobId, b: JobId, times: seq<real>)
    requires Fifo(cfg)
    requires n != "" && Differ(x, a, b)
    ensures var c := Run(cfg, EMPTY, IdleOps(n, x, a, b) + Rounds(n, x, a, b, times));
            && Inv(c) && c.jobs.Keys == {x, a, b} && c.jobs[b].status == Queued
            && c.jobs[x].retries == 2 * |times| && c.jobs[a].retries == |times|
  {
    hide Run, Inv;
    IdleRun(cfg, n, x, a, b);
    Cycle(cfg, Run(cfg, EMPTY, IdleOps(n, x, a, b)), n, x, a, b, times);
    RunConcat(cfg, EMPTY, IdleOps(n, x, a, b), Rounds(n, x, a, b, times));
    CycledInv(Run(cfg, EMPTY, IdleOps(n, x, a, b) + Rounds(n, x, a, b, times)), n, x, a, b, |times|);
  }

  // ----- a repeated report

  /** `x` has finished, and `y` holds the node's four GPUs. */
  function Busy(n: NodeId, x: JobId, y: JobId): State {
    State(map[x := Submitted(x, 1, 4).(status := Completed, node := Some(n)),
              y := Submitted(y, 5, 4).(status := Scheduled, node := Some(n))],
          map[n := FourGpus(n, 0, 0.0)], map[n := ZERO], map[x := 0, y := 0])
  }

  /** `x` has finished, and `y` waits. */
  function Freed(n: NodeId, x: JobId, y: JobId): State {
    Busy(n, x, y).(jobs := map[x := Submitted(x, 1, 4).(status := Completed, node := Some(n)), y := Submitted(y, 5, 4)],
                   nodes := map[n := FourGpus(n, 4, 0.0)])
  }

  lemma FreedListing(n: NodeId, x: JobId, y: JobId)
    requires x != y
    ensures var c := Freed(n, x, y);
            && Lists(c, Listing([n], [y], []))
            && LoadJobs(c.jobs, [y]) == [Submitted(y, 5, 4)] && GroupByNode(LoadJobs(c.jobs, [])) == map[]
  {
  }

  lemma FreedTick(cfg: Config, n: NodeId, x: JobId, y: JobId)
    requires Fifo(cfg)
    requires x != y
    ensures DoTick(cfg, Freed(n, x, y), 0.0, Listing([n], [y], [])) == Busy(n, x, y)
  {
    FreedListing(n, x, y);
    FreedThenBusy(n, x, y);
    LoneTick(cfg, Freed(n, x, y), n, Submitted(y, 5, 4), Busy(n, x, y));
  }

  lemma FreedThenBusy(n: NodeId, x: JobId, y: JobId)
    requires x != y
    ensures var c := Freed(n, x, y);
            Busy(n, x, y) == c.(jobs := Schedule(c.jobs, y, n), nodes := map[n := FourGpus(n, 0, 0.0)])
  {
    assert Schedule(Freed(n, x, y).jobs, y, n) == Busy(n, x, y).jobs;
  }

  function BusyOps(n: NodeId, x: JobId, y: JobId): seq<Op> {
    [Register(n, "host", Gpus(4), 0.0), Submit(x, Ask(1, 4), 3, 0.0)]
    + [RunTick(0.0, Listing([n], [x], []))]
    + [Report(x, Completed), Submit(y, Ask(5, 4), 3, 0.0)]
    + [RunTick(0.0, Listing([n], [y], []))] + []
  }

  lemma ReleaseSingle(n: NodeId, row: NodeRow, r: Res)
    ensures ReleaseRow(map[n := row], n, r) == map[n := row.(avail := row.avail.Plus(r).ClampTo(row.cap))]
  {
  }

  lemma EndSingle(job: Job, s: JobStatus)
    ensures UpdateStatus(map[job.id := job], job.id, s) == map[job.id := job.(status := s)]
  {
  }

  lemma Completion(n: NodeId, job: Job)
    requires job.OnNode(n) && job.req == Gpus(4) && n != ""
    ensures DoReport(Alone(n, job, 0), job.id, Completed) == Alone(n, job.(status := Completed), 4)
  {
    hide ReleaseRow, UpdateStatus;
    ReleaseSingle(n, FourGpus(n, 0, 0.0), job.req);
    EndSingle(job, Completed);
  }

  lemma NextArrival(n: NodeId, x: JobId, y: JobId)
    requires x != y
    ensures DoSubmit(Alone(n, Submitted(x, 1, 4).(status := Completed, node := Some(n)), 4), y, Ask(5, 4), 3, 0.0)
         == Freed(n, x, y)
  {
  }

  lemma FinishingRun(cfg: Config, n: NodeId, x: JobId, y: JobId)
    requires n != "" && x != y
    ensures Run(cfg, Alone(n, Submitted(x, 1, 4).(status := Scheduled, node := Some(n)), 0),
                [Report(x, Completed), Submit(y, Ask(5, 4), 3, 0.0)]) == Freed(n, x, y)
  {
    var job := Submitted(x, 1, 4).(status := Scheduled, node := Some(n));
    RunTwo(cfg, Alone(n, job, 0), Report(x, Completed), Submit(y, Ask(5, 4), 3, 0.0));
    Completion(n, job);
    NextArrival(n, x, y);
  }

  lemma BusyRun(cfg: Config, n: NodeId, x: JobId, y: JobId)
    requires Fifo(cfg)
    requires n != "" && x != y
    ensures Run(cfg, EMPTY, BusyOps(n, x, y)) == Busy(n, x, y)
  {
    var c, c' := Alone(n, Submitted(x, 1, 4), 4), Alone(n, Submitted(x, 1, 4).(status := Scheduled, node := Some(n)), 0);
    var first := [Register(n, "host", Gpus(4), 0.0), Submit(x, Ask(1, 4), 3, 0.0)];
    var more := [Report(x, Completed), Submit(y, Ask(5, 4), 3, 0.0)];
    var tick, tick' := RunTick(0.0, Listing([n], [x], [])), RunTick(0.0, Listing([n], [y], []));
    ArrivalRun(cfg, n, x);
    FirstTick(cfg, n, Submitted(x, 1, 4));
    TickStep(cfg, 0.0, c, Listing([n], [x], []), c');
    RunStages(cfg, first, tick, more, c, c');
    FinishingRun(cfg, n, x, y);
    FreedTick(cfg, n, x, y);
    TickStep(cfg, 0.0, Freed(n, x, y), Listing([n], [y], []), Busy(n, x, y));
    RunStages(cfg, first + [tick] + more, tick', [], Freed(n, x, y), Busy(n, x, y));
  }

  lemma BusyRows(n: NodeId, x: JobId, y: JobId)
    requires n != "" && x != y
    ensures RowsOk(Busy(n, x, y))
  {
    var c := Busy(n, x, y);
    forall id | id in c.jobs
      ensures JobOk(c, id)
    {
      assert id == x || id == y;
    }
  }

  lemma BusyUsed(n: NodeId, x: JobId, y: JobId)
    requires x != y
    ensures Used(Busy(n, x, y).jobs, n) == Gpus(4)
  {
    hide Used, Res.Plus;
    UsedByTwo(Busy(n, x, y).jobs, x, y, n);
    PlusGpus(0, 4);
  }

  lemma BusyInv(n: NodeId, x: JobId, y: JobId)
    requires n != "" && x != y
    ensures Inv(Busy(n, x, y))
  {
    hide RowsOk, Ledger, Used;
    BusyRows(n, x, y);
    BusyUsed(n, x, y);
    FourBalanced(Busy(n, x, y).jobs, n, 0, 0.0);
  }

  /** A repeated completion report for a GPU job breaks the books of any node that is not
      entirely free: it frees GPUs that other jobs hold, and leaves those jobs running. */
  lemma ReportHarms(c: State, id: JobId, n: NodeId)
    requires Inv(c) && id in c.jobs && c.jobs[id].status == Completed && c.jobs[id].node == Some(n)
    requires n in c.nodes && c.nodes[n].avail.gpu < c.nodes[n].cap.gpu && c.jobs[id].req.gpu > 0
    ensures var c' := DoReport(c, id, Completed);
            && !Inv(c') && c'.jobs == c.jobs
            && c'.nodes[n].avail.gpu == Min(c.nodes[n].avail.gpu + c.jobs[id].req.gpu, c.nodes[n].cap.gpu)
  {
    ReportInv(c, id, Completed);
  }

  /** A run from an empty cluster leads to such a state: `y` holds the whole node, and the second
      report about `x` frees all of it. */
  lemma RepeatedReportOvercommits(cfg: Config, n: NodeId, x: JobId, y: JobId)
    requires Fifo(cfg)
    requires n != "" && x != y
    ensures var c := Run(cfg, EMPTY, BusyOps(n, x, y));
            var c' := Apply(cfg, c, Report(x, Completed));
            && Inv(c) && !Inv(c')
            && n in c'.nodes && c'.nodes[n].avail.gpu == 4
            && y in c'.jobs && c'.jobs[y].OnNode(n) && c'.jobs[y].req.gpu == 4
  {
    hide DoTick, Inv, Run;
    BusyRun(cfg, n, x, y);
    BusyInv(n, x, y);
    ReportHarms(Busy(n, x, y), x, n);
  }

  // ----- a node with the empty id

  function NamelessOps(x: JobId): seq<Op> {
    [Register("", "host", Gpus(4), 0.0), Submit(x, Ask(1, 4), 3, 0.0)]
    + [RunTick(0.0, Listing([""], [x], []))] + [Report(x, Completed)]
  }

  lemma NamelessCompletion(job: Job)
    requires job.node == Some("")
    ensures DoReport(Alone("", job, 0), job.id, Completed) == Alone("", job.(status := Completed), 0)
  {
    hide ReleaseRow, UpdateStatus;
    EndSingle(job, Completed);
  }

  /** A node may register under the empty id, and jobs are placed there; but such a job reads as
      unplaced, so that its completion gives nothing back. The run ends with nothing active, nothing
      lost, and nothing free. */
  lemma NamelessNodeKeepsResources(cfg: Config, x: JobId)
    requires Fifo(cfg)
    ensures var c := Run(cfg, EMPTY, NamelessOps(x));
            && !Inv(c) && "" in c.nodes && c.nodes[""].cap == Gpus(4) && c.nodes[""].avail == ZERO
            && c.lost == map["" := ZERO] && Used(c.jobs, "") == ZERO
  {
    var job := Submitted(x, 1, 4);
    var placed := job.(status := Scheduled, node := Some(""));
    NamelessRun(cfg, x, job, placed);
    UsedByOne(Alone("", placed.(status := Completed), 0).jobs, x, "");
  }

  lemma NamelessRun(cfg: Config, x: JobId, job: Job, placed: Job)
    requires Fifo(cfg)
    requires job == Submitted(x, 1, 4) && placed == job.(status := Scheduled, node := Some(""))
    ensures Run(cfg, EMPTY, NamelessOps(x)) == Alone("", placed.(status := Completed), 0)
  {
    hide DoTick, DoReport;
    ArrivalRun(cfg, "", x);
    FirstTick(cfg, "", job);
    NamelessCompletion(placed);
    TickStep(cfg, 0.0, Alone("", job, 4), Listing([""], [x], []), Alone("", placed, 0));
    RunStages(cfg, [Register("", "host", Gpus(4), 0.0), Submit(x, Ask(1, 4), 3, 0.0)],
              RunTick(0.0, Listing([""], [x], [])), [Report(x, Completed)], Alone("", job, 4), Alone("", placed, 0));
    RunOne(cfg, Alone("", placed, 0), Report(x, Completed));
  }

  // ----- two leaders

  /** A leader that neither renews nor stops for a whole lease time shares the lead. */
  lemma TwoLeaders(ttl: real)
    requires ttl > 0.0
    ensures var w := Lease.Run(Lease.World(0.0, Lease.Absent, map[]),
                               [Lease.Acquire("p"), Lease.Wait(ttl), Lease.Acquire("q")], ttl);
            w.Inside("p") && w.Inside("q")
  {
    var w := Lease.World(0.0, Lease.Absent, map[]);
    var es := [Lease.Acquire("p"), Lease.Wait(ttl), Lease.Acquire("q")];
    var w1 := Lease.Step(w, es[0], ttl);
    var w2 := Lease.Step(w1, es[1], ttl);
    var w3 := Lease.Step(w2, es[2], ttl);
    assert es[1..][1..] == [es[2]] && [es[2]][1..] == [];
    assert Lease.Run(w2, [es[2]], ttl) == Lease.Run(w3, [], ttl) == w3;
    assert Lease.Run(w1, es[1..], ttl) == w3;
  }
}
