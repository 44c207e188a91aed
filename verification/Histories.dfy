/** What holds in every run at all, with no condition on any step: retry budgets and losses. */
module Histories {
  import opened Resources
  import opened Model
  import opened Placement
  import opened Preemption
  import opened Tick
  import opened TickInvariants
  import opened TickFates
  import opened Cluster

  // ----- rows through a pass, whatever its view looks like

  /** No row appears or disappears, nodes change nothing but availability, jobs keep their work,
      and retries only grow. */
  ghost predicate Grown(v: TickView, r: TickView) {
    && NodeFates(v.rows, r.rows) && r.jobs.Keys == v.jobs.Keys
    && forall id :: id in v.jobs ==>
         SameWork(v.jobs[id], r.jobs[id]) && r.jobs[id].retries >= v.jobs[id].retries
  }

  lemma GrownTrans(a: TickView, b: TickView, c: TickView)
    requires Grown(a, b) && Grown(b, c)
    ensures Grown(a, c)
  {
  }

  lemma CommitGrown(v: TickView, job: Job, i: nat)
    requires i < |v.nodes|
    ensures Grown(v, Commit(v, job, i))
  {
  }

  lemma EvictGrown(v: TickView, plan: Plan)
    requires plan.at < |v.nodes|
    ensures Grown(v, ApplyPreemption(v, plan))
  {
    var e := ApplyPreemption(v, plan);
    EvictAllKeys(v.jobs, plan.victims);
    forall id | id in v.jobs
      ensures SameWork(v.jobs[id], e.jobs[id]) && e.jobs[id].retries >= v.jobs[id].retries
    {
      EvictAllRows(v.jobs, plan.victims, id);
    }
  }

  lemma AttemptGrown(cfg: Config, v: TickView, job: Job, now: real)
    ensures Grown(v, PlaceOne(cfg, v, job, now))
  {
    var first := Place(cfg.alg, v.nodes, job.req);
    if first.Some? {
      CommitGrown(v, job, first.value);
    } else if PlanFor(cfg, v, job, now).Some? {
      var plan := PlanFor(cfg, v, job, now).value;
      EvictGrown(v, plan);
      var e := ApplyPreemption(v, plan);
      var second := Place(cfg.alg, e.nodes, job.req);
      if second.Some? {
        CommitGrown(e, job, second.value);
        GrownTrans(v, e, Commit(e, job, second.value));
      }
    }
  }

  lemma {:induction false} PassGrown(cfg: Config, v: TickView, queue: seq<Job>, now: real, k: nat)
    requires k <= |queue|
    ensures Grown(v, Boundary(cfg, v, queue, now, k))
    decreases k
  {
    if k > 0 {
      var b := Boundary(cfg, v, queue, now, k - 1);
      PassGrown(cfg, v, queue, now, k - 1);
      AttemptGrown(cfg, b, queue[k - 1], now);
      GrownTrans(v, b, PlaceOne(cfg, b, queue[k - 1], now));
    }
  }

  /** From `r` to `c'` no row appeared or disappeared, nodes changed nothing but availability, work
      was kept, and retries only grew. */
  ghost predicate GrownState(r: State, c': State) {
    && NodeFates(r.nodes, c'.nodes) && c'.jobs.Keys == r.jobs.Keys
    && forall id :: id in r.jobs ==>
         SameWork(r.jobs[id], c'.jobs[id]) && c'.jobs[id].retries >= r.jobs[id].retries
  }

  /** What any tick does to the tables' keys and to the histories. */
  lemma TickTables(cfg: Config, c: State, now: real, l: Listing)
    ensures var r, c' := Reconcile(c, now, cfg.heartbeatTtl), DoTick(cfg, c, now, l);
            if Lists(r, l) then GrownState(r, c') && c'.lost == r.lost && c'.lossRequeues == r.lossRequeues
            else c' == c
  {
    var r := Reconcile(c, now, cfg.heartbeatTtl);
    if Lists(r, l) && l.queued != [] {
      var queue := TickQueue(cfg, r, now, l);
      PassGrown(cfg, Snapshot(r, l), queue, now, |queue|);
    }
  }

  // ----- losses

  /** Requests are not negative, and the loss of every node is on record. */
  ghost predicate LossTracked(c: State) {
    RequestsNonNeg(c.jobs) && c.nodes.Keys <= c.lost.Keys
  }

  lemma TickTracked(cfg: Config, c: State, now: real, l: Listing)
    requires LossTracked(c)
    ensures LossTracked(DoTick(cfg, c, now, l))
  {
    var r, c' := Reconcile(c, now, cfg.heartbeatTtl), DoTick(cfg, c, now, l);
    TickTables(cfg, c, now, l);
    if Lists(r, l) {
      StripNonNeg(c, now, cfg.heartbeatTtl);
      GrownNonNeg(r, c');
    }
  }

  lemma StripNonNeg(c: State, now: real, ttl: real)
    requires RequestsNonNeg(c.jobs)
    ensures RequestsNonNeg(StripJobs(c, now, ttl))
  {
  }

  lemma GrownNonNeg(r: State, c': State)
    requires GrownState(r, c') && RequestsNonNeg(r.jobs)
    ensures RequestsNonNeg(c'.jobs)
  {
    forall id | id in c'.jobs
      ensures c'.jobs[id].req.NonNeg()
    {
      assert SameWork(r.jobs[id], c'.jobs[id]);
    }
  }

  lemma StepTracked(cfg: Config, c: State, op: Op)
    requires LossTracked(c)
    ensures LossTracked(Apply(cfg, c, op))
  {
    hide DoTick;
    match op
    case RunTick(now, l) => TickTracked(cfg, c, now, l);
    case _ =>
  }

  lemma {:induction false} RunTracked(cfg: Config, ops: seq<Op>)
    ensures LossTracked(Run(cfg, EMPTY, ops))
    decreases ops
  {
    if ops != [] {
      var k := |ops| - 1;
      RunTracked(cfg, ops[..k]);
      StepTracked(cfg, Run(cfg, EMPTY, ops[..k]), ops[k]);
    }
  }

  /** A node's loss grows only in a tick that finds the node stale, and then by exactly what the
      jobs active on it held. */
  lemma LossOnlyFromStaleNodes(cfg: Config, c: State, op: Op, n: NodeId)
    requires n in c.nodes && n in c.lost
    ensures var c' := Apply(cfg, c, op);
            && n in c'.nodes && n in c'.lost
            && c'.lost[n] == if op.RunTick? && Lists(Reconcile(c, op.now, cfg.heartbeatTtl), op.listing)
                                && Stale(c.nodes[n], op.now, cfg.heartbeatTtl)
                             then c.lost[n].Plus(Used(c.jobs, n)) else c.lost[n]
  {
    hide DoTick, Lists;
    match op
    case RunTick(now, l) => TickTables(cfg, c, now, l);
    case _ =>
  }

  lemma LossGrows(cfg: Config, c: State, op: Op, n: NodeId)
    requires LossTracked(c) && n in c.nodes
    ensures var c' := Apply(cfg, c, op); n in c'.nodes && n in c'.lost && c'.lost[n].Covers(c.lost[n])
  {
    LossOnlyFromStaleNodes(cfg, c, op, n);
    UsedNonNeg(c.jobs, n);
  }

  /** What a node lost it never gets back: in every run, the loss on record after more steps is
      at least the loss before them. */
  lemma {:induction false} LossIsForever(cfg: Config, ops: seq<Op>, k: nat, n: NodeId)
    requires k <= |ops| && n in Run(cfg, EMPTY, ops[..k]).nodes
    ensures var c, c' := Run(cfg, EMPTY, ops[..k]), Run(cfg, EMPTY, ops);
            n in c.lost && n in c'.nodes && n in c'.lost && c'.lost[n].Covers(c.lost[n])
    decreases |ops|
  {
    hide Apply, LossTracked;
    RunTracked(cfg, ops[..k]);
    if k == |ops| {
      assert ops[..k] == ops;
    } else {
      var m := |ops| - 1;
      assert ops[..m][..k] == ops[..k];
      LossIsForever(cfg, ops[..m], k, n);
      RunTracked(cfg, ops[..m]);
      LossGrows(cfg, Run(cfg, EMPTY, ops[..m]), ops[m], n);
    }
  }

  // ----- retry budgets

  /** Requeues from lost nodes stay within the retry budget and are all counted as retries. */
  predicate BudgetOk(c: State, id: JobId)
    requires id in c.jobs
  {
    id in c.lossRequeues && c.lossRequeues[id] <= c.jobs[id].retries
    && c.lossRequeues[id] <= Max(0, c.jobs[id].maxRetries)
  }

  predicate BudgetsOk(c: State) {
    forall id :: id in c.jobs ==> BudgetOk(c, id)
  }

  lemma ReconcileBudget(c: State, now: real, ttl: real, id: JobId)
    requires id in c.jobs && BudgetOk(c, id)
    ensures BudgetOk(Reconcile(c, now, ttl), id)
  {
    var j := StripJobs(c, now, ttl)[id];
    assert j == if OnStale(c, c.jobs[id], now, ttl) then Stripped(c.jobs[id]) else c.jobs[id];
  }

  lemma TickBudget(cfg: Config, c: State, now: real, l: Listing, id: JobId)
    requires id in c.jobs && BudgetOk(c, id)
    ensures var c' := DoTick(cfg, c, now, l); id in c'.jobs && BudgetOk(c', id)
  {
    var r := Reconcile(c, now, cfg.heartbeatTtl);
    TickTables(cfg, c, now, l);
    ReconcileBudget(c, now, cfg.heartbeatTtl, id);
    if Lists(r, l) {
      assert SameWork(r.jobs[id], DoTick(cfg, c, now, l).jobs[id]);
    }
  }

  lemma TickBudgets(cfg: Config, c: State, now: real, l: Listing)
    requires BudgetsOk(c)
    ensures BudgetsOk(DoTick(cfg, c, now, l))
  {
    var c' := DoTick(cfg, c, now, l);
    TickTables(cfg, c, now, l);
    forall id | id in c'.jobs
      ensures BudgetOk(c', id)
    {
      assert BudgetOk(c, id);
      TickBudget(cfg, c, now, l, id);
    }
  }

  /** Every step keeps the budgets: double evictions, stray reports and changed capacities too. */
  lemma StepBudget(cfg: Config, c: State, op: Op)
    requires BudgetsOk(c)
    ensures BudgetsOk(Apply(cfg, c, op))
  {
    hide DoTick;
    match op
    case RunTick(now, l) => TickBudgets(cfg, c, now, l);
    case _ =>
      var c' := Apply(cfg, c, op);
      forall id | id in c'.jobs
        ensures BudgetOk(c', id)
      {
        assert id in c.jobs ==> BudgetOk(c, id);
      }
  }

  lemma {:induction false} RunBudget(cfg: Config, ops: seq<Op>)
    ensures BudgetsOk(Run(cfg, EMPTY, ops))
    decreases ops
  {
    if ops != [] {
      var k := |ops| - 1;
      RunBudget(cfg, ops[..k]);
      StepBudget(cfg, Run(cfg, EMPTY, ops[..k]), ops[k]);
    }
  }

  /** The step is a tick that takes `id` off a lost node and puts it back in the queue. */
  ghost predicate RequeuesFromLoss(cfg: Config, c: State, op: Op, id: JobId) {
    && op.RunTick? && Lists(Reconcile(c, op.now, cfg.heartbeatTtl), op.listing)
    && id in c.jobs && OnStale(c, c.jobs[id], op.now, cfg.heartbeatTtl) && !Exhausted(c.jobs[id])
  }

  ghost function LossRequeues(cfg: Config, c: State, ops: seq<Op>, id: JobId): nat {
    if ops == [] then 0
    else
      var k := |ops| - 1;
      LossRequeues(cfg, c, ops[..k], id) + if RequeuesFromLoss(cfg, Run(cfg, c, ops[..k]), ops[k], id) then 1 else 0
  }

  lemma LossCountStep(cfg: Config, c: State, op: Op, id: JobId)
    requires id in c.jobs && id in c.lossRequeues
    ensures var c' := Apply(cfg, c, op);
            && id in c'.jobs && id in c'.lossRequeues
            && c'.lossRequeues[id] == c.lossRequeues[id] + if RequeuesFromLoss(cfg, c, op, id) then 1 else 0
  {
    hide DoTick, Lists;
    match op
    case RunTick(now, l) => TickTables(cfg, c, now, l);
    case _ =>
  }

  lemma LossCountNew(cfg: Config, c: State, op: Op, id: JobId)
    requires id !in c.jobs && id in Apply(cfg, c, op).jobs
    ensures id in Apply(cfg, c, op).lossRequeues && Apply(cfg, c, op).lossRequeues[id] == 0
  {
    match op
    case RunTick(now, l) => TickTables(cfg, c, now, l);
    case _ =>
  }

  lemma {:induction false} LossCount(cfg: Config, ops: seq<Op>, id: JobId)
    ensures var c := Run(cfg, EMPTY, ops);
            if id in c.jobs then id in c.lossRequeues && c.lossRequeues[id] == LossRequeues(cfg, EMPTY, ops, id)
            else LossRequeues(cfg, EMPTY, ops, id) == 0
    decreases ops
  {
    if ops != [] {
      var k := |ops| - 1;
      var before := Run(cfg, EMPTY, ops[..k]);
      LossCount(cfg, ops[..k], id);
      if id in before.jobs {
        LossCountStep(cfg, before, ops[k], id);
      } else if id in Run(cfg, EMPTY, ops).jobs {
        LossCountNew(cfg, before, ops[k], id);
      }
    }
  }

  /** In every run, a job is requeued from lost nodes at most as often as its retry budget
      allows, although preemptions use up the same counter. */
  lemma RetryBudget(cfg: Config, ops: seq<Op>, id: JobId)
    requires id in Run(cfg, EMPTY, ops).jobs
    ensures LossRequeues(cfg, EMPTY, ops, id) <= Max(0, Run(cfg, EMPTY, ops).jobs[id].maxRetries)
  {
    RunBudget(cfg, ops);
    LossCount(cfg, ops, id);
    assert BudgetOk(Run(cfg, EMPTY, ops), id);
  }
}
