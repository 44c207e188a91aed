/** Preemption cannot cycle: every placement raises a bounded potential. */
module Progress {
  import opened Sums
  import opened Model
  import opened Placement
  import opened Preemption
  import opened PlannerTheorems
  import opened Tick
  import opened TickInvariants
  import opened TickOutcomes

  const MAX_PRIORITY: nat := 10

  function Pow(b: nat, e: nat): (p: nat)
    ensures b >= 1 ==> p >= 1
  {
    if e == 0 then 1 else
      var q := Pow(b, e - 1);
      assert b >= 1 ==> b * q >= 1 * 1;
      b * q
  }

  lemma {:induction false} PowMonotone(b: nat, e: nat, f: nat)
    requires b >= 1 && e <= f
    ensures Pow(b, e) <= Pow(b, f)
    decreases f
  {
    if e < f {
      PowMonotone(b, e, f - 1);
      var q := Pow(b, f - 1);
      assert b * q >= 1 * q;
    }
  }

  predicate PriorityOk(j: Job) {
    0 <= j.priority <= MAX_PRIORITY
  }

  predicate PrioritiesOk(jobs: Jobs) {
    forall id :: id in jobs ==> PriorityOk(jobs[id])
  }

  /** An active job of priority p weighs (n+1)^p. */
  function Weight(n: nat, j: Job): nat {
    if j.status.IsActive() && PriorityOk(j) then Pow(n + 1, j.priority) else 0
  }

  function WeightOf(n: nat): Job -> int {
    (j: Job) => Weight(n, j)
  }

  /** The total weight of the active jobs, in a table of n jobs. */
  ghost function Potential(jobs: Jobs, n: nat): int {
    SumOver(jobs, WeightOf(n))
  }

  lemma PotentialBounds(jobs: Jobs)
    requires PrioritiesOk(jobs)
    ensures 0 <= Potential(jobs, |jobs|) <= |jobs| * Pow(|jobs| + 1, MAX_PRIORITY)
  {
    var n := |jobs|;
    forall id | id in jobs
      ensures WeightOf(n)(jobs[id]) <= Pow(n + 1, MAX_PRIORITY)
    {
      PowMonotone(n + 1, jobs[id].priority, MAX_PRIORITY);
    }
    SumBound(jobs, WeightOf(n), Pow(n + 1, MAX_PRIORITY));
    SumNonNeg(jobs, WeightOf(n));
  }

  lemma EvictedDrop(jobs: Jobs, id: JobId, n: nat)
    requires id in jobs
    ensures Potential(Evicted(jobs, id), n) == Potential(jobs, n) - Weight(n, jobs[id])
  {
    var mid := Requeue(jobs, id, Preempted);
    SumUpdate(jobs, id, mid[id], WeightOf(n));
    SumUpdate(mid, id, mid[id].(status := Queued), WeightOf(n));
  }

  /** However its status changes, the row weighs at most `b`. */
  predicate CheapRow(j: Job, n: nat, b: nat) {
    PriorityOk(j) ==> Pow(n + 1, j.priority) <= b
  }

  lemma StillCheap(j: Job, j': Job, n: nat, b: nat)
    requires SameWork(j, j') && CheapRow(j, n, b)
    ensures Weight(n, j') <= b
  {
  }

  /** Each victim costs at most the weight `b`. */
  lemma {:induction false} EvictAllDrop(jobs: Jobs, vs: seq<Job>, n: nat, b: nat)
    requires forall r :: r in vs ==> r.id in jobs && CheapRow(jobs[r.id], n, b)
    ensures Potential(EvictAll(jobs, vs), n) >= Potential(jobs, n) - Times(|vs|, b)
    decreases vs
  {
    if vs != [] {
      var init, last := vs[..|vs| - 1], vs[|vs| - 1];
      assert last in vs && forall r :: r in init ==> r in vs;
      EvictAllDrop(jobs, init, n, b);
      var before := EvictAll(jobs, init);
      assert Weight(n, before[last.id]) <= b by {
        EvictAllRows(jobs, init, last.id);
        StillCheap(jobs[last.id], before[last.id], n, b);
      }
      EvictAllKeys(jobs, init);
      EvictedDrop(before, last.id, n);
    }
  }

  function Times(k: nat, b: nat): nat {
    if k == 0 then 0 else Times(k - 1, b) + b
  }

  lemma {:induction false} TimesMonotone(k: nat, n: nat, b: nat)
    requires k <= n
    ensures Times(k, b) <= Times(n, b)
    decreases n
  {
    if k < n {
      TimesMonotone(k, n - 1, b);
    }
  }

  lemma {:induction false} TimesIsProduct(k: nat, b: nat)
    ensures Times(k, b) == k * b
  {
    if k > 0 {
      TimesIsProduct(k - 1, b);
      assert (k - 1) * b + b == k * b;
    }
  }

  lemma {:induction false} TimesAdd(j: nat, k: nat, b: nat)
    ensures Times(j + k, b) == Times(j, b) + Times(k, b)
  {
    if k > 0 {
      TimesAdd(j, k - 1, b);
    }
  }

  lemma IdsOfLast(vs: seq<Job>)
    requires DistinctIds(vs) && vs != []
    ensures var init, last := vs[..|vs| - 1], vs[|vs| - 1];
            Ids(vs) == Ids(init) + {last.id} && last.id !in Ids(init)
  {
    var init, last := vs[..|vs| - 1], vs[|vs| - 1];
    assert forall v :: v in vs <==> v in init || v == last;
    forall id | id in Ids(init)
      ensures id != last.id
    {
      var v :| v in init && v.id == id;
      var i :| 0 <= i < |init| && init[i] == v;
      assert vs[i].id != vs[|vs| - 1].id;
    }
  }

  lemma {:induction false} DistinctCount(vs: seq<Job>)
    requires DistinctIds(vs)
    ensures |Ids(vs)| == |vs|
    decreases vs
  {
    hide Ids;
    if vs == [] {
      NoIds(vs);
    } else {
      DistinctCount(vs[..|vs| - 1]);
      IdsOfLast(vs);
    }
  }

  lemma NoIds(vs: seq<Job>)
    requires vs == []
    ensures Ids(vs) == {}
  {
  }

  lemma SubsetCount<T>(a: set<T>, b: set<T>)
    requires a <= b
    ensures |a| <= |b|
  {
    assert b == a + (b - a);
  }

  /** A plan never evicts more jobs than the table holds. */
  lemma VictimCount(v: TickView, plan: Plan)
    requires Agrees(v) && PlanSound(v, plan)
    ensures |plan.victims| <= |v.jobs|
  {
    DistinctCount(plan.victims);
    forall id | id in Ids(plan.victims)
      ensures id in v.jobs
    {
      var r :| r in plan.victims && r.id == id;
    }
    SubsetCount(Ids(plan.victims), v.jobs.Keys);
  }

  lemma CommitGain(v: TickView, job: Job, i: nat, n: nat)
    requires Agrees(v) && Pending(v, [job]) && i < |v.nodes| && PriorityOk(job)
    ensures Potential(Commit(v, job, i).jobs, n) == Potential(v.jobs, n) + Pow(n + 1, job.priority)
  {
    assert job in [job];
    var row := v.jobs[job.id];
    SumUpdate(v.jobs, job.id, row.(status := Scheduled, node := Some(v.nodes[i].id)), WeightOf(n));
  }

  lemma VictimRowsCheap(v: TickView, plan: Plan, job: Job, n: nat)
    requires Agrees(v) && PlanSound(v, plan) && PrioritiesOk(v.jobs) && plan.victims != []
    requires forall r :: r in plan.victims ==> Eligible(job, r)
    ensures job.priority >= 1
    ensures forall r :: r in plan.victims ==>
              r.id in v.jobs && CheapRow(v.jobs[r.id], n, Pow(n + 1, job.priority - 1))
  {
    VictimsBelow(v, plan, job);
    forall r | r in plan.victims
      ensures r.id in v.jobs && CheapRow(v.jobs[r.id], n, Pow(n + 1, job.priority - 1))
    {
      PowMonotone(n + 1, v.jobs[r.id].priority, job.priority - 1);
    }
  }

  /** The evictions of one plan cost less than placing the pending job gains. */
  lemma EvictionIsCheap(v: TickView, plan: Plan, job: Job)
    requires Agrees(v) && PrioritiesOk(v.jobs) && PriorityOk(job)
    requires PlanSound(v, plan) && plan.victims != []
    requires forall r :: r in plan.victims ==> Eligible(job, r)
    ensures var n := |v.jobs|;
            Potential(EvictAll(v.jobs, plan.victims), n) + Pow(n + 1, job.priority) > Potential(v.jobs, n)
  {
    hide Agrees, PrioritiesOk, Times, Pow, EvictAll;
    var n := |v.jobs|;
    VictimCount(v, plan);
    VictimRowsCheap(v, plan, job, n);
    var b := Pow(n + 1, job.priority - 1);
    EvictAllDrop(v.jobs, plan.victims, n, b);
    TimesMonotone(|plan.victims|, n, b);
    TimesIsProduct(n, b);
    PowStep(n, job.priority);
  }

  lemma PowStep(n: nat, p: nat)
    requires p >= 1
    ensures Pow(n + 1, p) > n * Pow(n + 1, p - 1)
  {
    var b := Pow(n + 1, p - 1);
    assert (n + 1) * b == n * b + b;
  }

  lemma VictimsBelow(v: TickView, plan: Plan, job: Job)
    requires Agrees(v) && PlanSound(v, plan) && PrioritiesOk(v.jobs) && plan.victims != []
    requires forall r :: r in plan.victims ==> Eligible(job, r)
    ensures job.priority >= 1
    ensures forall r :: r in plan.victims ==> r.id in v.jobs && 0 <= v.jobs[r.id].priority < job.priority
  {
    assert plan.victims[0] in plan.victims;
  }

  /** The attempt evicts for nothing: its plan's node cannot hold the job at all. */
  predicate Wasted(cfg: Config, v: TickView, job: Job, now: real) {
    var p := PlanFor(cfg, v, job, now);
    p.Some? && !v.nodes[p.value.at].cap.Covers(job.req)
  }

  function Placements(events: seq<Event>): nat {
    if events == [] then 0
    else Placements(events[..|events| - 1]) + if events[|events| - 1].success then 1 else 0
  }

  lemma PlacementsStep(events: seq<Event>, e: Event)
    ensures Placements(events + [e]) == Placements(events) + if e.success then 1 else 0
  {
    assert (events + [e])[..|events|] == events;
  }

  /** What an attempt does to the potential of a table of n jobs: it gains if it places a job,
      evicting at most n, and changes no job if it does not. */
  ghost predicate Raises(v: TickView, r: TickView, n: nat) {
    || (Placements(r.events) == Placements(v.events) + 1 && Potential(r.jobs, n) > Potential(v.jobs, n)
        && |v.evictions| <= |r.evictions| <= |v.evictions| + n)
    || (Placements(r.events) == Placements(v.events) && r.jobs == v.jobs && r.evictions == v.evictions)
  }

  lemma DirectRaises(v: TickView, job: Job, i: nat, n: nat)
    requires Agrees(v) && Pending(v, [job]) && i < |v.nodes| && PriorityOk(job)
    ensures Raises(v, Commit(v, job, i), n)
  {
    CommitGain(v, job, i, n);
    PlacementsStep(v.events, Event(job.id, Some(v.nodes[i].id), true));
  }

  lemma PreemptionRaises(v: TickView, plan: Plan, job: Job)
    requires Agrees(v) && Pending(v, [job]) && PrioritiesOk(v.jobs) && PriorityOk(job)
    requires PlanSound(v, plan) && plan.victims != []
    requires forall r :: r in plan.victims ==> Eligible(job, r)
    ensures Raises(v, Commit(ApplyPreemption(v, plan), job, plan.at), |v.jobs|)
  {
    var e, n := ApplyPreemption(v, plan), |v.jobs|;
    assert Potential(Commit(e, job, plan.at).jobs, n) > Potential(v.jobs, n) by {
      EvictionIsCheap(v, plan, job);
      EvictAgrees(v, plan, [job]);
      CommitGain(e, job, plan.at, n);
    }
    VictimCount(v, plan);
    PlacementsStep(v.events, Event(job.id, Some(e.nodes[plan.at].id), true));
  }

  /** An attempt that evicts in vain places nobody and still evicts. */
  lemma WastedEvicts(cfg: Config, v: TickView, job: Job, now: real)
    requires Agrees(v) && Wasted(cfg, v, job, now)
    ensures !Raises(v, PlaceOne(cfg, v, job, now), |v.jobs|)
  {
    var plan := PlanFor(cfg, v, job, now).value;
    PlanForSound(cfg, v, job, now);
    SecondPlace(cfg, v, job, now);
    PlacementsStep(v.events, Event(job.id, None, false));
    assert |ApplyPreemption(v, plan).evictions| == |v.evictions| + |plan.victims|;
  }

  /** An attempt raises the potential by its placement, or changes no job, exactly when it does
      not evict in vain. */
  lemma AttemptRaises(cfg: Config, v: TickView, job: Job, now: real)
    requires Agrees(v) && Pending(v, [job]) && PrioritiesOk(v.jobs) && PriorityOk(job)
    ensures Raises(v, PlaceOne(cfg, v, job, now), |v.jobs|) <==> !Wasted(cfg, v, job, now)
  {
    var first := Place(cfg.alg, v.nodes, job.req);
    if first.Some? {
      DirectRaises(v, job, first.value, |v.jobs|);
    } else if Wasted(cfg, v, job, now) {
      WastedEvicts(cfg, v, job, now);
    } else if PlanFor(cfg, v, job, now).Some? {
      PlanForSound(cfg, v, job, now);
      SecondPlace(cfg, v, job, now);
      PreemptionRaises(v, PlanFor(cfg, v, job, now).value, job);
    } else {
      PlacementsStep(v.events, Event(job.id, None, false));
    }
  }

  // ----- counting active jobs

  function OneIfActive(): Job -> int {
    (j: Job) => if j.status.IsActive() then 1 else 0
  }

  ghost function ActiveCount(jobs: Jobs): int {
    SumOver(jobs, OneIfActive())
  }

  lemma ActiveCountBounds(jobs: Jobs)
    ensures 0 <= ActiveCount(jobs) <= |jobs|
  {
    SumBound(jobs, OneIfActive(), 1);
    SumNonNeg(jobs, OneIfActive());
  }

  lemma EvictedCount(jobs: Jobs, id: JobId)
    requires id in jobs && jobs[id].status.IsActive()
    ensures ActiveCount(Evicted(jobs, id)) == ActiveCount(jobs) - 1
  {
    var mid := Requeue(jobs, id, Preempted);
    SumUpdate(jobs, id, mid[id], OneIfActive());
    SumUpdate(mid, id, mid[id].(status := Queued), OneIfActive());
  }

  /** Evicting distinct active jobs lowers the count by their number. */
  lemma {:induction false} EvictAllCount(jobs: Jobs, vs: seq<Job>)
    requires DistinctIds(vs)
    requires forall r :: r in vs ==> r.id in jobs && jobs[r.id].status.IsActive()
    ensures ActiveCount(EvictAll(jobs, vs)) == ActiveCount(jobs) - |vs|
    decreases vs
  {
    if vs != [] {
      var k := |vs| - 1;
      var init, id := vs[..k], vs[k].id;
      assert vs[k] in vs && forall r :: r in init ==> r in vs;
      EvictAllCount(jobs, init);
      NamesIndex(init, id);
      EvictAllRows(jobs, init, id);
      EvictedCount(EvictAll(jobs, init), id);
    }
  }

  /** Every placement makes one more job active, every eviction one fewer. */
  ghost predicate Counts(v: TickView, r: TickView) {
    ActiveCount(r.jobs) - ActiveCount(v.jobs)
    == (Placements(r.events) - Placements(v.events)) - (|r.evictions| - |v.evictions|)
  }

  lemma CommitCounts(v: TickView, job: Job, i: nat)
    requires Agrees(v) && Pending(v, [job]) && i < |v.nodes|
    ensures Counts(v, Commit(v, job, i))
  {
    assert job in [job];
    var row := v.jobs[job.id];
    SumUpdate(v.jobs, job.id, row.(status := Scheduled, node := Some(v.nodes[i].id)), OneIfActive());
    PlacementsStep(v.events, Event(job.id, Some(v.nodes[i].id), true));
  }

  lemma EvictCounts(v: TickView, plan: Plan)
    requires Agrees(v) && PlanSound(v, plan) && AllActive(v, plan)
    ensures Counts(v, ApplyPreemption(v, plan))
  {
    EvictAllCount(v.jobs, plan.victims);
  }

  lemma RejectCounts(v: TickView, job: Job)
    ensures Counts(v, Reject(v, job))
  {
    PlacementsStep(v.events, Event(job.id, None, false));
  }

  /** An attempt that evicts only active jobs accounts for every change in their number. */
  lemma AttemptCounts(cfg: Config, v: TickView, job: Job, now: real)
    requires Agrees(v) && Pending(v, [job])
    requires PlanFor(cfg, v, job, now).Some? ==> AllActive(v, PlanFor(cfg, v, job, now).value)
    ensures Counts(v, PlaceOne(cfg, v, job, now))
  {
    var first := Place(cfg.alg, v.nodes, job.req);
    if first.Some? {
      CommitCounts(v, job, first.value);
    } else if PlanFor(cfg, v, job, now).Some? {
      var plan := PlanFor(cfg, v, job, now).value;
      PlanForSound(cfg, v, job, now);
      EvictCounts(v, plan);
      EvictAgrees(v, plan, [job]);
      var e := ApplyPreemption(v, plan);
      var second := Place(cfg.alg, e.nodes, job.req);
      if second.Some? {
        CommitCounts(e, job, second.value);
      } else {
        RejectCounts(e, job);
      }
    } else {
      RejectCounts(v, job);
    }
  }
}
