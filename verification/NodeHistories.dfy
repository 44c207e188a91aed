/** What becomes of a node's row: liveness, status, and who may be placed on it. */
module NodeHistories {
  import opened Resources
  import opened Model
  import opened Tick
  import opened TickFates
  import opened Cluster
  import opened TableRows
  import opened TickSteps
  import opened Histories

  /** The node's row after a step, but for its availability. */
  ghost predicate Follows(cfg: Config, c: State, op: Op, before: NodeRow, after: NodeRow) {
    match op
    case Register(n, hostname, cap, now) =>
      after.(avail := before.avail)
      == if n == before.id then before.(hostname := hostname, cap := cap, lastHeartbeat := now) else before
    case Heartbeat(n, now) =>
      after.(avail := before.avail)
      == if n != before.id then before
         else before.(lastHeartbeat := now, status := if before.status == Down then Ready else before.status)
    case SetNodeStatus(n, s) =>
      after.(avail := before.avail) == if n == before.id && s != Down then before.(status := s) else before
    case RunTick(now, l) =>
      after.(avail := before.avail)
      == if && Lists(Reconcile(c, now, cfg.heartbeatTtl), l)
            && before.status != Down && before.lastHeartbeat < now - cfg.heartbeatTtl
         then before.(status := Down) else before
    case _ => after.(avail := before.avail) == before
  }

  lemma TickFollows(cfg: Config, c: State, now: real, l: Listing, n: NodeId)
    requires n in c.nodes
    ensures var c' := DoTick(cfg, c, now, l);
            n in c'.nodes && Follows(cfg, c, RunTick(now, l), c.nodes[n], c'.nodes[n])
  {
    TickTables(cfg, c, now, l);
    hide DoTick, Lists;
    var r := Reconcile(c, now, cfg.heartbeatTtl);
    assert r.nodes[n] == if Stale(c.nodes[n], now, cfg.heartbeatTtl) then c.nodes[n].(status := Down) else c.nodes[n];
  }

  /** In any state, every step changes a node's row, but for its availability, only like this: a
      registration sets hostname, capacity and heartbeat; a heartbeat sets the heartbeat and makes a node that
      was down ready; operators set the status; a tick brings down exactly the nodes that are up and
      were last heard of longer ago than the time to live. */
  lemma NodeFollows(cfg: Config, c: State, op: Op, n: NodeId)
    requires n in c.nodes && c.nodes[n].id == n
    ensures var c' := Apply(cfg, c, op); n in c'.nodes && Follows(cfg, c, op, c.nodes[n], c'.nodes[n])
  {
    hide DoTick;
    match op
    case RunTick(now, l) => TickFollows(cfg, c, now, l, n);
    case _ =>
  }

  /** A new node starts ready, entirely free, and heard of now. */
  lemma NewNodeIsReady(cfg: Config, c: State, n: NodeId, hostname: string, cap: Res, now: real)
    requires n !in c.nodes
    ensures var c' := Apply(cfg, c, Register(n, hostname, cap, now));
            && n in c'.nodes && c'.nodes[n].id == n && c'.nodes[n].status == Ready && c'.nodes[n].lastHeartbeat == now
            && c'.nodes[n].cap == c'.nodes[n].avail == cap
  {
  }

  /** After a heartbeat at `t`, a tick at `u` finds the node down exactly when `u` is more than the
      time to live later. */
  lemma HeartbeatBuysTime(cfg: Config, c: State, n: NodeId, t: real, u: real, l: Listing)
    requires n in c.nodes && c.nodes[n].id == n
    requires Lists(Reconcile(DoHeartbeat(c, n, t), u, cfg.heartbeatTtl), l)
    ensures var c' := DoTick(cfg, DoHeartbeat(c, n, t), u, l);
            n in c'.nodes && (c'.nodes[n].status == Down <==> u > t + cfg.heartbeatTtl)
  {
    hide DoTick, Lists, Reconcile;
    TickFollows(cfg, DoHeartbeat(c, n, t), u, l, n);
  }

  lemma FateKeepsOff(r: Job, after: Job, rows: Nodes, n: NodeId)
    requires Fate(r, after, rows) && n in rows && rows[n].status != Ready && after.OnNode(n)
    ensures r.OnNode(n)
  {
  }

  lemma ReconcileFillsNothing(c: State, now: real, ttl: real, id: JobId, n: NodeId)
    requires id in c.jobs && n in c.nodes && c.nodes[n].status != Ready
    ensures var r := Reconcile(c, now, ttl);
            && n in r.nodes && r.nodes[n].status != Ready && id in r.jobs
            && (r.jobs[id].OnNode(n) ==> c.jobs[id].OnNode(n))
  {
  }

  lemma PassKeepsOff(cfg: Config, r: State, now: real, l: Listing, id: JobId, n: NodeId)
    requires RowsOk(r) && Lists(r, l) && n in r.nodes && r.nodes[n].status != Ready && id in r.jobs
    ensures var v := TickEnd(cfg, r, now, l); id in v.jobs && (v.jobs[id].OnNode(n) ==> r.jobs[id].OnNode(n))
  {
    hide TickEnd, RowsOk, Lists, Fate;
    TickEndFates(cfg, r, now, l);
    var v := TickEnd(cfg, r, now, l);
    if v.jobs[id].OnNode(n) {
      FateKeepsOff(r.jobs[id], v.jobs[id], v.rows, n);
    }
  }

  /** A tick gives no new job to a node that was not ready. */
  lemma OnlyReadyNodesFill(cfg: Config, c: State, now: real, l: Listing, id: JobId, n: NodeId)
    requires RowsOk(c) && n in c.nodes && c.nodes[n].status != Ready && id in c.jobs
    ensures var c' := DoTick(cfg, c, now, l);
            id in c'.jobs && (c'.jobs[id].OnNode(n) ==> c.jobs[id].OnNode(n))
  {
    hide TickEnd, RowsOk, Reconcile;
    var r := Reconcile(c, now, cfg.heartbeatTtl);
    ReconcileRows(c, now, cfg.heartbeatTtl);
    ReconcileFillsNothing(c, now, cfg.heartbeatTtl, id, n);
    if Lists(r, l) {
      PassKeepsOff(cfg, r, now, l, id, n);
    }
  }

  /** A step that is not a running report about an inactive job. */
  predicate NoRevival(c: State, op: Op) {
    op.Report? && op.status == Running && op.job in c.jobs ==> c.jobs[op.job].status.IsActive()
  }

  lemma ShutNodeStep(cfg: Config, c: State, op: Op, id: JobId, n: NodeId)
    requires RowsOk(c) && n in c.nodes && c.nodes[n].status != Ready && NoRevival(c, op)
    requires id in Apply(cfg, c, op).jobs && Apply(cfg, c, op).jobs[id].OnNode(n)
    ensures id in c.jobs && c.jobs[id].OnNode(n)
  {
    match op
    case RunTick(now, l) =>
      TickTables(cfg, c, now, l);
      hide DoTick, RowsOk;
      OnlyReadyNodesFill(cfg, c, now, l, id, n);
    case _ =>
      hide DoTick, RowsOk;
  }

  /** The rows are in order, the node is not ready, and no finished job is reported running, before
      every step of the run. */
  ghost predicate ShutThroughout(cfg: Config, c: State, ops: seq<Op>, n: NodeId) {
    forall i :: 0 <= i < |ops| ==> ShutAt(cfg, Run(cfg, c, ops[..i]), ops[i], n)
  }

  ghost predicate ShutAt(cfg: Config, c: State, op: Op, n: NodeId) {
    RowsOk(c) && n in c.nodes && c.nodes[n].status != Ready && NoRevival(c, op)
  }

  /** While a node is cordoned, draining or down, jobs only ever leave it. */
  lemma {:induction false} ShutNodeEmpties(cfg: Config, c: State, ops: seq<Op>, id: JobId, n: NodeId)
    requires ShutThroughout(cfg, c, ops, n)
    requires id in Run(cfg, c, ops).jobs && Run(cfg, c, ops).jobs[id].OnNode(n)
    ensures id in c.jobs && c.jobs[id].OnNode(n)
    decreases ops
  {
    if ops != [] {
      var k := |ops| - 1;
      hide Apply, ShutAt;
      assert ShutAt(cfg, Run(cfg, c, ops[..k]), ops[k], n);
      ShutStepAt(cfg, Run(cfg, c, ops[..k]), ops[k], id, n);
      ShutPrefix(cfg, c, ops, n);
      hide ShutThroughout, Run;
      ShutNodeEmpties(cfg, c, ops[..k], id, n);
    }
  }

  lemma ShutPrefix(cfg: Config, c: State, ops: seq<Op>, n: NodeId)
    requires ops != [] && ShutThroughout(cfg, c, ops, n)
    ensures ShutThroughout(cfg, c, ops[..|ops| - 1], n)
  {
    hide Run, ShutAt;
    var k := |ops| - 1;
    forall i | 0 <= i < k
      ensures ShutAt(cfg, Run(cfg, c, ops[..k][..i]), ops[..k][i], n)
    {
      assert ops[..k][..i] == ops[..i];
    }
  }

  lemma ShutStepAt(cfg: Config, c: State, op: Op, id: JobId, n: NodeId)
    requires ShutAt(cfg, c, op, n)
    requires id in Apply(cfg, c, op).jobs && Apply(cfg, c, op).jobs[id].OnNode(n)
    ensures id in c.jobs && c.jobs[id].OnNode(n)
  {
    hide Apply;
    ShutNodeStep(cfg, c, op, id, n);
  }
}
