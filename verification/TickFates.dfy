/** What can become of each row in a tick. */
module TickFates {
  import opened Model
  import opened Placement
  import opened Preemption
  import opened Tick
  import opened TickInvariants

  /** A tick leaves a job as it was, sends it back to the queue, or schedules it onto a ready
      node; what the job asks for does not change, and retries are only ever added. */
  predicate Fate(before: Job, after: Job, rows: Nodes) {
    && SameWork(before, after) && after.retries >= before.retries
    && (|| (after.status == before.status && after.node == before.node)
        || (after.status == Queued && after.node == None)
        || (after.status == Scheduled && after.node.Some? && after.node.value in rows
            && rows[after.node.value].status == Ready))
  }

  ghost predicate JobFates(before: Jobs, after: Jobs, rows: Nodes) {
    && after.Keys == before.Keys
    && forall id :: id in before ==> Fate(before[id], after[id], rows)
  }

  /** Nothing but availability changes in the nodes table. */
  ghost predicate NodeFates(before: Nodes, after: Nodes) {
    && after.Keys == before.Keys
    && forall n :: n in before ==> after[n] == before[n].(avail := after[n].avail)
  }

  ghost predicate Fates(v: TickView, r: TickView) {
    NodeFates(v.rows, r.rows) && JobFates(v.jobs, r.jobs, r.rows)
  }

  lemma FatesTrans(a: TickView, b: TickView, c: TickView)
    requires Fates(a, b) && Fates(b, c)
    ensures Fates(a, c)
  {
    forall id | id in a.jobs
      ensures Fate(a.jobs[id], c.jobs[id], c.rows)
    {
      assert Fate(a.jobs[id], b.jobs[id], b.rows);
      assert Fate(b.jobs[id], c.jobs[id], c.rows);
    }
  }

  lemma CommitFates(v: TickView, job: Job, i: nat)
    requires Agrees(v) && Pending(v, [job]) && i < |v.nodes| && v.nodes[i].Fits(job.req)
    ensures Fates(v, Commit(v, job, i))
  {
    assert job in [job];
  }

  lemma EvictFates(v: TickView, plan: Plan)
    requires Agrees(v) && PlanSound(v, plan)
    ensures Fates(v, ApplyPreemption(v, plan))
  {
    var e := ApplyPreemption(v, plan);
    EvictAllKeys(v.jobs, plan.victims);
    forall id | id in v.jobs
      ensures Fate(v.jobs[id], e.jobs[id], e.rows)
    {
      EvictAllRows(v.jobs, plan.victims, id);
    }
  }

  lemma AttemptFates(cfg: Config, v: TickView, job: Job, now: real)
    requires Agrees(v) && Pending(v, [job])
    ensures Fates(v, PlaceOne(cfg, v, job, now))
  {
    var first := Place(cfg.alg, v.nodes, job.req);
    if first.Some? {
      CommitFates(v, job, first.value);
    } else if PlanFor(cfg, v, job, now).Some? {
      var plan := PlanFor(cfg, v, job, now).value;
      PlanForSound(cfg, v, job, now);
      EvictFates(v, plan);
      EvictAgrees(v, plan, [job]);
      var e := ApplyPreemption(v, plan);
      var second := Place(cfg.alg, e.nodes, job.req);
      if second.Some? {
        CommitFates(e, job, second.value);
        FatesTrans(v, e, Commit(e, job, second.value));
      }
    }
  }

  lemma FatesRefl(v: TickView)
    ensures Fates(v, v)
  {
  }

  lemma FatesStep(cfg: Config, v: TickView, queue: seq<Job>, now: real, k: nat)
    requires Agrees(v) && Pending(v, queue) && k < |queue|
    ensures Fates(Boundary(cfg, v, queue, now, k), Boundary(cfg, v, queue, now, k + 1))
  {
    BoundaryStep(cfg, v, queue, now, k);
    AttemptFates(cfg, Boundary(cfg, v, queue, now, k), queue[k], now);
  }

  lemma {:induction false} FatesChain(b: nat -> TickView, k: nat)
    requires forall i :: 0 <= i < k ==> Fates(b(i), b(i + 1))
    ensures Fates(b(0), b(k))
    decreases k
  {
    if k == 0 {
      FatesRefl(b(0));
    } else {
      FatesChain(b, k - 1);
      FatesTrans(b(0), b(k - 1), b(k));
    }
  }

  lemma FatesSteps(cfg: Config, v: TickView, queue: seq<Job>, now: real, b: nat -> TickView)
    requires Agrees(v) && Pending(v, queue)
    requires forall i :: 0 <= i <= |queue| ==> b(i) == Boundary(cfg, v, queue, now, i)
    ensures forall i :: 0 <= i < |queue| ==> Fates(b(i), b(i + 1))
  {
    forall i | 0 <= i < |queue|
      ensures Fates(b(i), b(i + 1))
    {
      FatesStep(cfg, v, queue, now, i);
    }
  }

  lemma PassFates(cfg: Config, v: TickView, queue: seq<Job>, now: real, k: nat)
    requires Agrees(v) && Pending(v, queue) && k <= |queue|
    ensures Fates(v, Boundary(cfg, v, queue, now, k))
  {
    var b := (i: nat) => if i <= |queue| then Boundary(cfg, v, queue, now, i) else v;
    FatesSteps(cfg, v, queue, now, b);
    FatesChain(b, k);
  }
}
