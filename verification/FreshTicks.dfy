/** Ticks that evict nobody twice: always harmless, never in vain. */
module FreshTicks {
  import opened Model
  import opened Tick
  import opened TickInvariants
  import opened TickLedger
  import opened TickOutcomes
  import opened Progress
  import opened Cluster
  import opened TableRows
  import opened ClusterInvariants
  import opened TickSteps

  /** When its turn comes, attempt `i` evicts only jobs still active on its plan's node. */
  ghost predicate FreshAt(cfg: Config, v: TickView, queue: seq<Job>, now: real, i: nat)
    requires i < |queue|
  {
    var b := Boundary(cfg, v, queue, now, i);
    PlanFor(cfg, b, queue[i], now).Some? ==> AllActive(b, PlanFor(cfg, b, queue[i], now).value)
  }

  /** Evicting only active jobs is always harmless and, while the ledger holds, never in vain. */
  lemma FreshIsHarmless(cfg: Config, v: TickView, job: Job, now: real, lost: Lost)
    requires Agrees(v) && Ledger(v.jobs, v.rows, lost)
    requires PlanFor(cfg, v, job, now).Some? ==> AllActive(v, PlanFor(cfg, v, job, now).value)
    ensures StepAbsorbed(cfg, v, job, now) && !Wasted(cfg, v, job, now)
  {
    if PlanFor(cfg, v, job, now).Some? {
      var plan := PlanFor(cfg, v, job, now).value;
      PlanForSound(cfg, v, job, now);
      HeldByBounds(v, v.nodes[plan.at].id, plan.victims);
      NoWastedEviction(cfg, v, job, now, lost);
      SecondPlace(cfg, v, job, now);
    }
  }

  /** No attempt of the pass evicts a job twice. */
  ghost predicate FreshPass(cfg: Config, v: TickView, queue: seq<Job>, now: real) {
    forall i :: 0 <= i < |queue| ==> FreshAt(cfg, v, queue, now, i)
  }

  lemma FreshStep(cfg: Config, v: TickView, queue: seq<Job>, now: real, lost: Lost, i: nat)
    requires Agrees(v) && Pending(v, queue) && i < |queue| && FreshAt(cfg, v, queue, now, i)
    requires LedgerAt(cfg, v, queue, now, lost, i)
    ensures AbsorbedAt(cfg, v, queue, now, i) && !Wasted(cfg, Boundary(cfg, v, queue, now, i), queue[i], now)
    ensures LedgerAt(cfg, v, queue, now, lost, i + 1)
  {
    BoundaryStep(cfg, v, queue, now, i);
    FreshIsHarmless(cfg, Boundary(cfg, v, queue, now, i), queue[i], now, lost);
    BoundaryLedger(cfg, v, queue, now, lost, i);
  }

  lemma {:induction false} FreshLedger(cfg: Config, v: TickView, queue: seq<Job>, now: real, lost: Lost, k: nat)
    requires Agrees(v) && Pending(v, queue) && k <= |queue| && FreshPass(cfg, v, queue, now)
    requires Ledger(v.jobs, v.rows, lost)
    ensures LedgerAt(cfg, v, queue, now, lost, k)
    decreases k
  {
    hide PlaceOne, Agrees, Pending, FreshAt, Ledger;
    if k > 0 {
      FreshLedger(cfg, v, queue, now, lost, k - 1);
      FreshStep(cfg, v, queue, now, lost, k - 1);
    }
  }

  /** A tick that evicts nobody twice meets the guard of ticks. */
  lemma FreshTickHarmless(cfg: Config, c: State, now: real, l: Listing)
    requires Inv(c)
    requires var r := Reconcile(c, now, cfg.heartbeatTtl);
             Lists(r, l) ==> FreshPass(cfg, Snapshot(r, l), TickQueue(cfg, r, now, l), now)
    ensures TickHarmless(cfg, c, now, l)
  {
    var r := Reconcile(c, now, cfg.heartbeatTtl);
    ReconcileInv(c, now, cfg.heartbeatTtl);
    if Lists(r, l) {
      var v, queue := Snapshot(r, l), TickQueue(cfg, r, now, l);
      SnapshotAgrees(r, l);
      QueuePending(cfg, r, now, l);
      forall i | 0 <= i < |queue|
        ensures AbsorbedAt(cfg, v, queue, now, i)
      {
        FreshLedger(cfg, v, queue, now, r.lost, i);
        FreshStep(cfg, v, queue, now, r.lost, i);
      }
    }
  }

  // ----- a guard that can be read off the queue

  /** The job may evict others if there is no room for it. */
  predicate MayPreempt(cfg: Config, job: Job, now: real) {
    cfg.preempt && ShouldPreempt(cfg, job, now)
  }

  lemma NoPlanNoEviction(cfg: Config, v: TickView, job: Job, now: real)
    requires !MayPreempt(cfg, job, now)
    ensures PlaceOne(cfg, v, job, now).evictions == v.evictions
  {
  }

  lemma {:induction false} NoEvictionYet(cfg: Config, v: TickView, queue: seq<Job>, now: real, k: nat)
    requires k <= |queue| && forall i :: 0 <= i < k ==> !MayPreempt(cfg, queue[i], now)
    ensures Boundary(cfg, v, queue, now, k).evictions == v.evictions
    decreases k
  {
    hide PlaceOne, MayPreempt;
    if k > 0 {
      NoEvictionYet(cfg, v, queue, now, k - 1);
      NoPlanNoEviction(cfg, Boundary(cfg, v, queue, now, k - 1), queue[k - 1], now);
    }
  }

  /** The first eviction of a tick concerns only active jobs. */
  lemma FirstIsFresh(cfg: Config, v: TickView, job: Job, now: real)
    requires Agrees(v) && v.evictions == []
    ensures PlanFor(cfg, v, job, now).Some? ==> AllActive(v, PlanFor(cfg, v, job, now).value)
  {
    if PlanFor(cfg, v, job, now).Some? {
      PlanForSound(cfg, v, job, now);
    }
  }

  lemma LoneAt(cfg: Config, v: TickView, queue: seq<Job>, now: real, i: nat)
    requires Agrees(v) && Pending(v, queue) && v.evictions == [] && i < |queue|
    requires forall k :: 0 <= k < i ==> !(MayPreempt(cfg, queue[k], now) && MayPreempt(cfg, queue[i], now))
    ensures FreshAt(cfg, v, queue, now, i)
  {
    if MayPreempt(cfg, queue[i], now) {
      NoEvictionYet(cfg, v, queue, now, i);
      BoundaryStep(cfg, v, queue, now, i);
      FirstIsFresh(cfg, Boundary(cfg, v, queue, now, i), queue[i], now);
    }
  }

  /** At most one of the jobs listed as queued may preempt. */
  ghost predicate Lone(cfg: Config, c: State, now: real, l: Listing)
    requires Lists(c, l)
  {
    forall a, b :: a in l.queued && b in l.queued && a != b ==>
      !(MayPreempt(cfg, c.jobs[a], now) && MayPreempt(cfg, c.jobs[b], now))
  }

  lemma LoneInQueue(cfg: Config, c: State, now: real, l: Listing, i: nat, k: nat)
    requires RowsOk(c) && Lists(c, l) && Lone(cfg, c, now, l)
    requires k < i < |TickQueue(cfg, c, now, l)|
    ensures var queue := TickQueue(cfg, c, now, l);
            !(MayPreempt(cfg, queue[k], now) && MayPreempt(cfg, queue[i], now))
  {
    var queue := TickQueue(cfg, c, now, l);
    QueuePending(cfg, c, now, l);
    assert queue[k] in queue && queue[i] in queue && queue[k].id != queue[i].id;
  }

  lemma LonePass(cfg: Config, c: State, now: real, l: Listing)
    requires RowsOk(c) && Lists(c, l) && Lone(cfg, c, now, l)
    ensures FreshPass(cfg, Snapshot(c, l), TickQueue(cfg, c, now, l), now)
  {
    var v, queue := Snapshot(c, l), TickQueue(cfg, c, now, l);
    SnapshotAgrees(c, l);
    QueuePending(cfg, c, now, l);
    forall i | 0 <= i < |queue|
      ensures FreshAt(cfg, v, queue, now, i)
    {
      forall k | 0 <= k < i
        ensures !(MayPreempt(cfg, queue[k], now) && MayPreempt(cfg, queue[i], now))
      {
        LoneInQueue(cfg, c, now, l, i, k);
      }
      LoneAt(cfg, v, queue, now, i);
    }
  }

  /** A tick is harmless if at most one of the jobs it finds queued may preempt. */
  lemma LonePreemptor(cfg: Config, c: State, now: real, l: Listing)
    requires Inv(c)
    requires var r := Reconcile(c, now, cfg.heartbeatTtl); Lists(r, l) ==> Lone(cfg, r, now, l)
    ensures TickHarmless(cfg, c, now, l)
  {
    var r := Reconcile(c, now, cfg.heartbeatTtl);
    ReconcileInv(c, now, cfg.heartbeatTtl);
    if Lists(r, l) {
      LonePass(cfg, r, now, l);
    }
    FreshTickHarmless(cfg, c, now, l);
  }
}
