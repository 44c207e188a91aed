/** What a tick achieves: evictions pay off, and nothing placeable is left. */
module TickOutcomes {
  import opened Resources
  import opened Model
  import opened Placement
  import opened Preemption
  import opened PlannerTheorems
  import opened Tick
  import opened TickInvariants
  import opened TickLedger

  // ----- no wasted eviction

  /** After an eviction the job fits on the plan's node exactly when that node could hold it at
      all, and then every algorithm chooses that node; otherwise no node takes it. */
  lemma SecondPlace(cfg: Config, v: TickView, job: Job, now: real)
    requires Agrees(v)
    requires PlanFor(cfg, v, job, now).Some?
    ensures var plan := PlanFor(cfg, v, job, now).value;
            var second := Place(cfg.alg, ApplyPreemption(v, plan).nodes, job.req);
            second == if v.nodes[plan.at].cap.Covers(job.req) then Some(plan.at) else None
  {
    var plan := PlanFor(cfg, v, job, now).value;
    PlanForOrigin(cfg, v, job, now);
    PlanForSound(cfg, v, job, now);
    var n := v.nodes[plan.at];
    FitsAfterRelease(n, plan.victims, job.req);
    OnlyFit(cfg.alg, v.nodes, plan.at, ReleaseAll(n.avail, n.cap, plan.victims), job.req);
  }

  lemma FitsAfterRelease(n: NodeRow, victims: seq<Job>, req: Res)
    requires n.status == Ready && AllNonNeg(victims) && victims != []
    requires n.avail.Plus(SumReq(victims)).Covers(req)
    ensures n.(avail := ReleaseAll(n.avail, n.cap, victims)).Fits(req) <==> n.cap.Covers(req)
  {
    ReleaseAllSum(n.avail, n.cap, victims);
  }

  /** When nothing fits and one node's availability changes, only that node can be chosen. */
  lemma OnlyFit(alg: Algorithm, nodes: seq<NodeRow>, i: nat, a: Res, req: Res)
    requires NoneFits(nodes, req) && i < |nodes|
    ensures var nodes' := nodes[i := nodes[i].(avail := a)];
            Place(alg, nodes', req) == if nodes'[i].Fits(req) then Some(i) else None
  {
    var nodes' := nodes[i := nodes[i].(avail := a)];
    assert forall k :: 0 <= k < |nodes'| && k != i ==> nodes'[k] == nodes[k];
  }

  /** Every victim of the plan is really active on the plan's node. */
  predicate AllActive(v: TickView, plan: Plan)
    requires plan.at < |v.nodes|
  {
    forall r :: r in plan.victims ==> r.id in v.jobs && v.jobs[r.id].OnNode(v.nodes[plan.at].id)
  }

  /** No eviction is wasted: if the victims are active and the ledger holds, the evicted node
      then takes the job. */
  lemma NoWastedEviction(cfg: Config, v: TickView, job: Job, now: real, lost: Lost)
    requires Agrees(v) && Ledger(v.jobs, v.rows, lost)
    requires PlanFor(cfg, v, job, now).Some? && AllActive(v, PlanFor(cfg, v, job, now).value)
    ensures var plan := PlanFor(cfg, v, job, now).value;
            && plan.victims != []
            && Place(cfg.alg, ApplyPreemption(v, plan).nodes, job.req) == Some(plan.at)
  {
    var plan := PlanFor(cfg, v, job, now).value;
    PlanForSound(cfg, v, job, now);
    SecondPlace(cfg, v, job, now);
    VictimsHeld(v, plan, lost);
  }

  lemma PrefixSound(v: TickView, plan: Plan, i: nat)
    requires PlanSound(v, plan) && AllNonNeg(plan.victims) && AllActive(v, plan) && i <= |plan.victims|
    ensures var part := Plan(plan.at, plan.victims[..i]);
            PlanSound(v, part) && AllNonNeg(part.victims) && AllActive(v, part)
  {
    assert forall r :: r in plan.victims[..i] ==> r in plan.victims;
  }

  /** In the eviction loop too, the clamp never bites: after each victim the node's availability
      has grown by exactly the requests released so far, if the victims are active and the ledger
      holds. */
  lemma EvictionNeverClamped(v: TickView, plan: Plan, lost: Lost, i: nat)
    requires Agrees(v) && Ledger(v.jobs, v.rows, lost)
    requires PlanSound(v, plan) && AllNonNeg(plan.victims) && AllActive(v, plan) && i <= |plan.victims|
    ensures var n := v.nodes[plan.at];
            ReleaseAll(n.avail, n.cap, plan.victims[..i]) == n.avail.Plus(SumReq(plan.victims[..i]))
  {
    var n, part := v.nodes[plan.at], Plan(plan.at, plan.victims[..i]);
    if part.victims != [] {
      PrefixSound(v, plan, i);
      VictimsHeld(v, part, lost);
      ReleaseAllSum(n.avail, n.cap, part.victims);
    }
  }

  /** What active victims release fits between what is free and the capacity. */
  lemma VictimsHeld(v: TickView, plan: Plan, lost: Lost)
    requires Agrees(v) && Ledger(v.jobs, v.rows, lost)
    requires PlanSound(v, plan) && AllNonNeg(plan.victims) && AllActive(v, plan) && plan.victims != []
    ensures v.nodes[plan.at].cap.Covers(v.nodes[plan.at].avail.Plus(SumReq(plan.victims)))
  {
    var n := v.nodes[plan.at];
    assert Account(v.jobs, n, lost, n.id);
    HeldByBounds(v, n.id, plan.victims);
    EvictBalanceHere(v, plan);
    EvictKeepsTables(v, plan);
    UsedNonNeg(ApplyPreemption(v, plan).jobs, n.id);
  }

  // ----- a tick without preemption leaves nothing placeable

  lemma ReservingShrinks(nodes: seq<NodeRow>, i: nat, r: Res, req: Res)
    requires NoneFits(nodes, req) && i < |nodes| && r.NonNeg()
    ensures NoneFits(nodes[i := nodes[i].(avail := nodes[i].avail.Minus(r))], req)
  {
  }

  /** A job that was tried is placed, or fits nowhere. */
  predicate Settled(v: TickView, id: JobId, req: Res) {
    (id in v.jobs && v.jobs[id].status == Scheduled) || NoneFits(v.nodes, req)
  }

  lemma AttemptSettles(cfg: Config, v: TickView, job: Job, now: real)
    requires !cfg.preempt && Agrees(v) && Pending(v, [job])
    ensures Settled(PlaceOne(cfg, v, job, now), job.id, job.req)
  {
    assert job in [job];
  }

  lemma SettledStays(cfg: Config, v: TickView, job: Job, now: real, id: JobId, req: Res)
    requires !cfg.preempt && Agrees(v) && Pending(v, [job])
    requires id != job.id && Settled(v, id, req)
    ensures Settled(PlaceOne(cfg, v, job, now), id, req)
  {
    assert job in [job];
    var first := Place(cfg.alg, v.nodes, job.req);
    if first.Some? && NoneFits(v.nodes, req) {
      ReservingShrinks(v.nodes, first.value, job.req, req);
    }
  }

  lemma SettledStep(cfg: Config, v: TickView, queue: seq<Job>, now: real, i: nat, k: nat)
    requires !cfg.preempt && Agrees(v) && Pending(v, queue)
    requires i <= k < |queue|
    requires i < k ==> Settled(Boundary(cfg, v, queue, now, k), queue[i].id, queue[i].req)
    ensures Settled(Boundary(cfg, v, queue, now, k + 1), queue[i].id, queue[i].req)
  {
    var b := Boundary(cfg, v, queue, now, k);
    BoundaryStep(cfg, v, queue, now, k);
    if i == k {
      AttemptSettles(cfg, b, queue[k], now);
    } else {
      assert queue[i].id != queue[k].id;
      SettledStays(cfg, b, queue[k], now, queue[i].id, queue[i].req);
    }
  }

  lemma {:induction false} SettledAt(cfg: Config, v: TickView, queue: seq<Job>, now: real, i: nat, k: nat)
    requires !cfg.preempt && Agrees(v) && Pending(v, queue)
    requires i < k <= |queue|
    ensures Settled(Boundary(cfg, v, queue, now, k), queue[i].id, queue[i].req)
    decreases k
  {
    hide PlaceOne, Agrees, Pending, Settled;
    if i < k - 1 {
      SettledAt(cfg, v, queue, now, i, k - 1);
    }
    SettledStep(cfg, v, queue, now, i, k - 1);
  }

  /** Without preemption, a job of the queue that is still queued after the pass fits on no node
      at the availability the pass leaves behind. */
  lemma PassIsMaximal(cfg: Config, v: TickView, queue: seq<Job>, now: real, i: nat)
    requires !cfg.preempt && Agrees(v) && Pending(v, queue)
    requires i < |queue|
    ensures var b := Boundary(cfg, v, queue, now, |queue|);
            queue[i].id in b.jobs && b.jobs[queue[i].id].status == Queued ==>
              forall n :: n in b.rows ==> !b.rows[n].Fits(queue[i].req)
  {
    var b := Boundary(cfg, v, queue, now, |queue|);
    ViewAgreesWithStore(cfg, v, queue, now, |queue|);
    SettledAt(cfg, v, queue, now, i, |queue|);
    if NoneFits(b.nodes, queue[i].req) {
      forall n | n in b.rows
        ensures !b.rows[n].Fits(queue[i].req)
      {
        var k :| 0 <= k < |b.nodes| && b.nodes[k].id == n;
        assert b.rows[n] == b.nodes[k];
      }
    }
  }
}
