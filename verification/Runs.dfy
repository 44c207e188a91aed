/** What holds in every run of the control plane. */
module Runs {
  import opened Sums
  import opened Model
  import opened Tick
  import opened TickLedger
  import opened Cluster
  import opened TableRows
  import opened ClusterInvariants
  import opened TickSteps

  /** Every step but a tick keeps the invariant exactly when its guard holds. */
  lemma StepExact(cfg: Config, c: State, op: Op)
    requires Inv(c) && !op.RunTick?
    ensures Inv(Apply(cfg, c, op)) <==> Admissible(cfg, c, op)
  {
    match op
    case Submit(id, s, retries, now) => SubmitInv(c, id, s, retries, now);
    case Register(n, hostname, cap, now) => RegisterInv(c, n, hostname, cap, now);
    case Heartbeat(n, now) => HeartbeatInv(c, n, now);
    case SetNodeStatus(n, s) => SetNodeStatusInv(c, n, s);
    case Report(id, s) => ReportInv(c, id, s);
    case Cancel(id) => CancelInv(c, id);
  }

  lemma StepInv(cfg: Config, c: State, op: Op)
    requires Inv(c) && Admissible(cfg, c, op)
    ensures Inv(Apply(cfg, c, op))
  {
    match op
    case RunTick(now, l) => TickInv(cfg, c, now, l);
    case _ => StepExact(cfg, c, op);
  }

  /** Every step of the run meets its guard when its turn comes. */
  ghost predicate AdmissibleRun(cfg: Config, c: State, ops: seq<Op>) {
    ops == [] ||
    (var k := |ops| - 1;
     AdmissibleRun(cfg, c, ops[..k]) && Admissible(cfg, Run(cfg, c, ops[..k]), ops[k]))
  }

  lemma {:induction false} RunInv(cfg: Config, c: State, ops: seq<Op>)
    requires Inv(c) && AdmissibleRun(cfg, c, ops)
    ensures Inv(Run(cfg, c, ops))
    decreases ops
  {
    hide Inv, Admissible, Apply;
    if ops != [] {
      var k := |ops| - 1;
      RunInv(cfg, c, ops[..k]);
      StepInv(cfg, Run(cfg, c, ops[..k]), ops[k]);
    }
  }

  lemma EmptyInv()
    ensures Inv(EMPTY)
  {
  }

  // ----- conservation

  /** In every run from an empty cluster, each node's capacity is exactly what is free, plus the
      requests of the jobs active on it, plus what it lost; so no node is over-committed. */
  lemma Conservation(cfg: Config, ops: seq<Op>, n: NodeId)
    requires AdmissibleRun(cfg, EMPTY, ops)
    requires n in Run(cfg, EMPTY, ops).nodes
    ensures var c := Run(cfg, EMPTY, ops);
            && n in c.lost && c.lost[n].NonNeg()
            && c.nodes[n].cap == c.nodes[n].avail.Plus(Used(c.jobs, n)).Plus(c.lost[n])
            && c.nodes[n].avail.NonNeg()
            && c.nodes[n].cap.Covers(Used(c.jobs, n))
  {
    EmptyInv();
    RunInv(cfg, EMPTY, ops);
    var c := Run(cfg, EMPTY, ops);
    assert Account(c.jobs, c.nodes[n], c.lost, n);
  }

  // ----- exactly which runs conserve

  /** The accounts balance after the step and, in a tick, before and after every attempt. */
  ghost predicate BalancedStep(cfg: Config, c: State, op: Op) {
    Inv(Apply(cfg, c, op)) && (op.RunTick? ==> BalancedTick(cfg, c, op.now, op.listing))
  }

  ghost predicate BalancedTick(cfg: Config, c: State, now: real, l: Listing) {
    var r := Reconcile(c, now, cfg.heartbeatTtl);
    Lists(r, l) ==>
      var queue := TickQueue(cfg, r, now, l);
      forall i :: 0 <= i <= |queue| ==> LedgerAt(cfg, Snapshot(r, l), queue, now, r.lost, i)
  }

  lemma TickBalanced(cfg: Config, c: State, now: real, l: Listing)
    requires Inv(c)
    ensures BalancedTick(cfg, c, now, l) <==> TickHarmless(cfg, c, now, l)
  {
    hide Inv, LedgerAt, AbsorbedAt, TickQueue;
    var r := Reconcile(c, now, cfg.heartbeatTtl);
    ReconcileInv(c, now, cfg.heartbeatTtl);
    if Lists(r, l) {
      TickLedgerExact(cfg, r, now, l);
    }
  }

  lemma StepBalanced(cfg: Config, c: State, op: Op)
    requires Inv(c)
    ensures BalancedStep(cfg, c, op) <==> Admissible(cfg, c, op)
  {
    hide Inv, BalancedTick, TickHarmless, RegisterHarmless, ReportHarmless;
    match op
    case RunTick(now, l) =>
      TickBalanced(cfg, c, now, l);
      if TickHarmless(cfg, c, now, l) {
        TickInv(cfg, c, now, l);
      }
    case _ => StepExact(cfg, c, op);
  }

  /** The accounts balance after every step of the run, and at every boundary of every tick. */
  ghost predicate BalancedRun(cfg: Config, c: State, ops: seq<Op>) {
    ops == [] ||
    (var k := |ops| - 1;
     BalancedRun(cfg, c, ops[..k]) && BalancedStep(cfg, Run(cfg, c, ops[..k]), ops[k]))
  }

  /** Conservation, exactly: the accounts balance throughout a run if and only if every step of it
      meets its guard. */
  lemma {:induction false} ConservationExact(cfg: Config, c: State, ops: seq<Op>)
    requires Inv(c)
    ensures BalancedRun(cfg, c, ops) <==> AdmissibleRun(cfg, c, ops)
    decreases ops
  {
    hide Inv, BalancedStep, Admissible, Apply;
    if ops != [] {
      var k := |ops| - 1;
      ConservationExact(cfg, c, ops[..k]);
      if AdmissibleRun(cfg, c, ops[..k]) {
        RunInv(cfg, c, ops[..k]);
        StepBalanced(cfg, Run(cfg, c, ops[..k]), ops[k]);
      }
    }
  }

  // ----- the clamp

  /** Giving back the request of a job active on its node never reaches the clamp. */
  lemma ClampNeverBites(c: State, id: JobId, n: NodeId)
    requires Inv(c) && id in c.jobs && c.jobs[id].OnNode(n)
    ensures n in c.nodes
    ensures c.nodes[n].avail.Plus(c.jobs[id].req).ClampTo(c.nodes[n].cap) == c.nodes[n].avail.Plus(c.jobs[id].req)
  {
    assert JobOk(c, id) && Account(c.jobs, c.nodes[n], c.lost, n);
    RowsNonNeg(c);
    UsedAtLeast(c.jobs, id, n);
  }

  lemma UsedAtLeast(jobs: Jobs, id: JobId, n: NodeId)
    requires id in jobs && RequestsNonNeg(jobs)
    ensures Used(jobs, n).Covers(Share(jobs[id], n))
  {
    SumAtLeastRow(jobs, GpuOn(n), id);
    SumAtLeastRow(jobs, CpuOn(n), id);
    SumAtLeastRow(jobs, MemOn(n), id);
  }
}
