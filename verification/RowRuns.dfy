/** The rows through every run: assignments, and what a tick leaves in the queue. Neither depends
    on the accounts. */
module RowRuns {
  import opened Model
  import opened Tick
  import opened TickInvariants
  import opened TickLedger
  import opened TickFates
  import opened TickOutcomes
  import opened Cluster
  import opened TableRows
  import opened TickSteps

  /** Every step keeps the rows in order exactly when its guard holds; only running reports and
      registrations have one. */
  lemma RowsExact(cfg: Config, c: State, op: Op)
    requires RowsOk(c)
    ensures RowsOk(Apply(cfg, c, op)) <==> RowsGuard(c, op)
  {
    hide DoTick;
    match op
    case Submit(id, s, retries, now) => SubmitRows(c, id, s, retries, now);
    case Register(n, hostname, cap, now) => RegisterRows(c, n, hostname, cap, now);
    case Report(id, s) => ReportRows(c, id, s);
    case Cancel(id) => CancelRows(c, id);
    case RunTick(now, l) => TickRows(cfg, c, now, l);
    case _ => NodesRows(c, Apply(cfg, c, op).nodes);
  }

  /** The rows are in order after the first `i` steps. */
  ghost predicate RowsAt(cfg: Config, ops: seq<Op>, i: nat) {
    i <= |ops| && RowsOk(Run(cfg, EMPTY, ops[..i]))
  }

  /** Step `i` meets its guard when its turn comes. */
  ghost predicate GuardAt(cfg: Config, ops: seq<Op>, i: nat) {
    i < |ops| && RowsGuard(Run(cfg, EMPTY, ops[..i]), ops[i])
  }

  /** Every running report of the run concerns a job that is active, or that still names a node
      which is not down, and no node registers under the empty id. */
  ghost predicate SoundRun(cfg: Config, ops: seq<Op>) {
    forall i :: 0 <= i < |ops| ==> GuardAt(cfg, ops, i)
  }

  lemma RowsStep(cfg: Config, ops: seq<Op>, i: nat)
    requires i < |ops| && RowsAt(cfg, ops, i)
    ensures RowsAt(cfg, ops, i + 1) <==> GuardAt(cfg, ops, i)
  {
    assert ops[..i + 1] == ops[..i] + [ops[i]];
    RunSnoc(cfg, EMPTY, ops[..i], ops[i]);
    RowsExact(cfg, Run(cfg, EMPTY, ops[..i]), ops[i]);
  }

  /** Over every run from an empty cluster, the rows are in order throughout exactly when the run
      is sound. */
  lemma RowsThroughout(cfg: Config, ops: seq<Op>)
    ensures (forall i :: 0 <= i <= |ops| ==> RowsAt(cfg, ops, i)) <==> SoundRun(cfg, ops)
  {
    var fact := (i: nat) => RowsAt(cfg, ops, i);
    var guard := (i: nat) => GuardAt(cfg, ops, i);
    forall i | 0 <= i < |ops| && fact(i)
      ensures fact(i + 1) <==> guard(i)
    {
      RowsStep(cfg, ops, i);
    }
    assert ops[..0] == [];
    Chain(|ops|, fact, guard);
    if SoundRun(cfg, ops) {
      forall i | 0 <= i < |ops| ensures guard(i) { assert GuardAt(cfg, ops, i); }
      forall i | 0 <= i <= |ops| ensures RowsAt(cfg, ops, i) { assert fact(i); }
    }
    if forall i :: 0 <= i <= |ops| ==> RowsAt(cfg, ops, i) {
      forall i | 0 <= i <= |ops| ensures fact(i) { assert RowsAt(cfg, ops, i); }
      forall i | 0 <= i < |ops| ensures GuardAt(cfg, ops, i) { assert guard(i); }
    }
  }

  /** In every sound run, whatever it evicts, whatever capacities it registers and whatever
      completions are reported: an active job is assigned to a registered node that is
      not down, and a job that waits has no node. */
  lemma AssignmentSafety(cfg: Config, ops: seq<Op>, id: JobId)
    requires SoundRun(cfg, ops) && id in Run(cfg, EMPTY, ops).jobs
    ensures var c := Run(cfg, EMPTY, ops);
            var j := c.jobs[id];
            && (j.status.IsActive() ==> j.node.Some? && j.node.value in c.nodes && c.nodes[j.node.value].status != Down)
            && (j.status == Queued || j.status == Preempted ==> j.node == None)
  {
    RowsThroughout(cfg, ops);
    assert RowsAt(cfg, ops, |ops|);
    assert ops[..|ops|] == ops;
    assert JobOk(Run(cfg, EMPTY, ops), id);
  }

  /** With preemption off, after any tick every job that was in its queue and is still queued
      fits on no node, for every algorithm and every listing. */
  lemma TickIsMaximal(cfg: Config, c: State, now: real, l: Listing, id: JobId, n: NodeId)
    requires RowsOk(c) && !cfg.preempt
    requires Lists(Reconcile(c, now, cfg.heartbeatTtl), l) && id in l.queued
    requires var c' := DoTick(cfg, c, now, l); id in c'.jobs && c'.jobs[id].status == Queued && n in c'.nodes
    ensures !DoTick(cfg, c, now, l).nodes[n].Fits(DoTick(cfg, c, now, l).jobs[id].req)
  {
    hide Boundary, Agrees, Pending, TeamShares, GroupByNode;
    var r := Reconcile(c, now, cfg.heartbeatTtl);
    ReconcileRows(c, now, cfg.heartbeatTtl);
    var queue := TickQueue(cfg, r, now, l);
    SnapshotAgrees(r, l);
    QueuePending(cfg, r, now, l);
    assert JobOk(r, id);
    assert r.jobs[id] in queue;
    var i :| 0 <= i < |queue| && queue[i] == r.jobs[id];
    PassIsMaximal(cfg, Snapshot(r, l), queue, now, i);
    TickEndFates(cfg, r, now, l);
    var v := TickEnd(cfg, r, now, l);
    assert Fate(r.jobs[id], v.jobs[id], v.rows);
  }
}
