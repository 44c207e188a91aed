/** Ticks as steps of the control plane. */
module TickSteps {
  import opened Resources
  import opened Sorting
  import opened Model
  import opened Preemption
  import opened PlannerTheorems
  import opened Ordering
  import opened Tick
  import opened TickInvariants
  import opened TickLedger
  import opened TickFates
  import opened Cluster
  import opened TableRows
  import opened ClusterInvariants

  // ----- reconciliation

  lemma StripShare(c: State, now: real, ttl: real, n: NodeId, id: JobId)
    requires n in c.nodes && id in c.jobs
    ensures Share(StripJobs(c, now, ttl)[id], n)
         == if Stale(c.nodes[n], now, ttl) then ZERO else Share(c.jobs[id], n)
  {
    var j := StripJobs(c, now, ttl)[id];
    assert j == if OnStale(c, c.jobs[id], now, ttl) then Stripped(c.jobs[id]) else c.jobs[id];
  }

  lemma ReconcileUsed(c: State, now: real, ttl: real, n: NodeId)
    requires n in c.nodes
    ensures Used(StripJobs(c, now, ttl), n)
         == if Stale(c.nodes[n], now, ttl) then ZERO else Used(c.jobs, n)
  {
    var jobs' := StripJobs(c, now, ttl);
    forall id | id in c.jobs
      ensures Share(jobs'[id], n) == if Stale(c.nodes[n], now, ttl) then ZERO else Share(c.jobs[id], n)
    {
      StripShare(c, now, ttl, n, id);
    }
    if Stale(c.nodes[n], now, ttl) {
      UsedZero(jobs', n);
    } else {
      UsedSame(c.jobs, jobs', n);
    }
  }

  /** What was in use becomes lost. */
  lemma LossBalances(row: NodeRow, used: Res, lost: Res)
    requires Balanced(row, used, lost) && used.NonNeg() && lost.NonNeg()
    ensures Balanced(row.(status := Down), ZERO, lost.Plus(used)) && lost.Plus(used).NonNeg()
  {
  }

  /** A lost node's account: what its jobs held becomes lost, and nobody is active there. */
  lemma ReconcileAccount(c: State, now: real, ttl: real, n: NodeId)
    requires Inv(c) && n in c.nodes
    ensures var r := Reconcile(c, now, ttl); n in r.nodes && Account(r.jobs, r.nodes[n], r.lost, n)
  {
    assert Account(c.jobs, c.nodes[n], c.lost, n);
    ReconcileUsed(c, now, ttl, n);
    if Stale(c.nodes[n], now, ttl) {
      RowsNonNeg(c);
      UsedNonNeg(c.jobs, n);
      LossBalances(c.nodes[n], Used(c.jobs, n), c.lost[n]);
    }
  }

  lemma ReconcileInv(c: State, now: real, ttl: real)
    requires Inv(c)
    ensures Inv(Reconcile(c, now, ttl))
  {
    var r := Reconcile(c, now, ttl);
    ReconcileRows(c, now, ttl);
    forall n | n in r.nodes
      ensures Account(r.jobs, r.nodes[n], r.lost, n)
    {
      ReconcileAccount(c, now, ttl, n);
    }
  }

  // ----- what a tick loads

  lemma {:induction false} GroupMembers(js: seq<Job>, n: NodeId, r: Job)
    ensures r in Occupants(GroupByNode(js), n) <==> r in js && r.node == Some(n) && n != ""
    decreases js
  {
    if js != [] {
      var init, last := js[..|js| - 1], js[|js| - 1];
      assert js == init + [last];
      GroupMembers(init, n, r);
    }
  }

  /** The running map keeps the order in which the active jobs were listed. */
  lemma {:induction false} GroupOrder(js: seq<Job>, n: NodeId)
    requires n != ""
    ensures Occupants(GroupByNode(js), n) == Filter(js, (j: Job) => j.node == Some(n))
    decreases js
  {
    var p := (j: Job) => j.node == Some(n);
    if js != [] {
      var k := |js| - 1;
      GroupOrder(js[..k], n);
      FilterExtends(js, k, p);
      assert js[..k + 1] == js;
    }
  }

  lemma {:induction false} GroupDistinct(js: seq<Job>, n: NodeId)
    requires DistinctIds(js)
    ensures DistinctIds(Occupants(GroupByNode(js), n))
    decreases js
  {
    if js != [] {
      var init, last := js[..|js| - 1], js[|js| - 1];
      GroupDistinct(init, n);
      if last.node == Some(n) {
        var occ := Occupants(GroupByNode(init), n);
        forall k | 0 <= k < |occ|
          ensures occ[k].id != last.id
        {
          GroupMembers(init, n, occ[k]);
          assert occ[k] in init;
          var i :| 0 <= i < |init| && init[i] == occ[k];
          assert js[i].id != js[|js| - 1].id;
        }
      }
    }
  }

  lemma LoadDistinct(c: State, ids: seq<JobId>)
    requires RowsOk(c) && NoRepeats(ids)
    requires forall id :: id in ids ==> id in c.jobs
    ensures DistinctIds(LoadJobs(c.jobs, ids))
    ensures forall j :: j in LoadJobs(c.jobs, ids) <==> j.id in ids && j == c.jobs[j.id]
  {
    var js := LoadJobs(c.jobs, ids);
    forall i | 0 <= i < |ids|
      ensures js[i].id == ids[i]
    {
      assert ids[i] in ids;
      assert JobOk(c, ids[i]);
    }
    forall j: Job | j.id in ids && j == c.jobs[j.id]
      ensures j in js
    {
      var i :| 0 <= i < |ids| && ids[i] == j.id;
      assert js[i] == j;
    }
  }

  lemma SnapshotOccupants(c: State, l: Listing, n: NodeId, r: Job)
    requires RowsOk(c) && Lists(c, l)
    ensures r in Occupants(Snapshot(c, l).running, n) <==> r.id in c.jobs && r == c.jobs[r.id] && r.OnNode(n)
  {
    GroupMembers(LoadJobs(c.jobs, l.active), n, r);
    LoadDistinct(c, l.active);
  }

  lemma SnapshotOccupies(c: State, l: Listing, n: NodeId, id: JobId)
    requires RowsOk(c) && Lists(c, l)
    ensures Occupies(Snapshot(c, l).running, n, id) <==> id in c.jobs && c.jobs[id].OnNode(n)
  {
    var v := Snapshot(c, l);
    if Occupies(v.running, n, id) {
      var r :| r in Occupants(v.running, n) && r.id == id;
      SnapshotOccupants(c, l, n, r);
    }
    if id in c.jobs && c.jobs[id].OnNode(n) {
      assert JobOk(c, id);
      SnapshotOccupants(c, l, n, c.jobs[id]);
    }
  }

  lemma SnapshotNodes(c: State, l: Listing)
    requires RowsOk(c) && Lists(c, l)
    ensures NodesAgree(Snapshot(c, l).nodes, c.nodes)
  {
    var nodes := LoadNodes(c.nodes, l.nodes);
    forall i | 0 <= i < |nodes|
      ensures nodes[i].id == l.nodes[i]
    {
      assert l.nodes[i] in l.nodes;
    }
    forall n | n in c.nodes
      ensures exists i :: 0 <= i < |nodes| && nodes[i].id == n
    {
      var i :| 0 <= i < |l.nodes| && l.nodes[i] == n;
      assert nodes[i].id == n;
    }
  }

  /** A tick starts with its view in agreement. */
  lemma SnapshotAgrees(c: State, l: Listing)
    requires RowsOk(c) && Lists(c, l)
    ensures Agrees(Snapshot(c, l))
  {
    var v := Snapshot(c, l);
    SnapshotNodes(c, l);
    forall id | id in c.jobs
      ensures c.jobs[id].id == id && c.jobs[id].req.NonNeg()
    {
      assert JobOk(c, id);
    }
    forall n, r | r in Occupants(v.running, n)
      ensures r.id in v.jobs && SameWork(r, v.jobs[r.id]) && v.jobs[r.id].OnNode(n)
    {
      SnapshotOccupants(c, l, n, r);
    }
    forall n
      ensures DistinctIds(Occupants(v.running, n))
    {
      LoadDistinct(c, l.active);
      GroupDistinct(LoadJobs(c.jobs, l.active), n);
    }
    forall n, id | id in v.jobs && v.jobs[id].OnNode(n)
      ensures Occupies(v.running, n, id)
    {
      SnapshotOccupies(c, l, n, id);
    }
  }

  /** The ordered queue holds exactly the queued jobs, each once, for every algorithm. */
  lemma QueuePending(cfg: Config, c: State, now: real, l: Listing)
    requires RowsOk(c) && Lists(c, l)
    ensures Pending(Snapshot(c, l), TickQueue(cfg, c, now, l))
    ensures forall j :: j in TickQueue(cfg, c, now, l) <==> j.id in l.queued && j == c.jobs[j.id]
  {
    var v, queue := Snapshot(c, l), TickQueue(cfg, c, now, l);
    var loaded := LoadJobs(c.jobs, l.queued);
    var less := Before(cfg.alg, now, cfg.agingFactor, TeamShares(c.jobs, LoadNodes(c.nodes, l.nodes)));
    LoadDistinct(c, l.queued);
    SortDistinct(loaded, less);
    assert queue == StableSort(loaded, less);
    forall j | j in queue
      ensures Waiting(v.jobs, j.id) && SameWork(j, v.jobs[j.id]) && forall n :: !Occupies(v.running, n, j.id)
    {
      assert j in loaded;
      assert JobOk(c, j.id);
      forall n
        ensures !Occupies(v.running, n, j.id)
      {
        SnapshotOccupies(c, l, n, j.id);
      }
    }
  }

  // ----- the tick itself

  /** Over a whole tick: the ledger holds at every boundary exactly when no attempt releases for
      jobs already evicted, except where the clamp swallows it. */
  lemma TickLedgerExact(cfg: Config, c: State, now: real, l: Listing)
    requires Inv(c) && Lists(c, l)
    ensures var queue := TickQueue(cfg, c, now, l);
            var kept := forall i :: 0 <= i <= |queue| ==> LedgerAt(cfg, Snapshot(c, l), queue, now, c.lost, i);
            kept <==> forall i :: 0 <= i < |queue| ==> AbsorbedAt(cfg, Snapshot(c, l), queue, now, i)
  {
    SnapshotAgrees(c, l);
    QueuePending(cfg, c, now, l);
    DrainLedger(cfg, Snapshot(c, l), TickQueue(cfg, c, now, l), now, c.lost);
  }

  lemma TickEndFates(cfg: Config, c: State, now: real, l: Listing)
    requires RowsOk(c) && Lists(c, l)
    ensures var v := TickEnd(cfg, c, now, l); NodeFates(c.nodes, v.rows) && JobFates(c.jobs, v.jobs, v.rows)
  {
    var queue := TickQueue(cfg, c, now, l);
    SnapshotAgrees(c, l);
    QueuePending(cfg, c, now, l);
    PassFates(cfg, Snapshot(c, l), queue, now, |queue|);
  }

  /** A tick keeps the rows in order, whatever it evicts and whatever the accounts say. */
  lemma TickRows(cfg: Config, c: State, now: real, l: Listing)
    requires RowsOk(c)
    ensures RowsOk(DoTick(cfg, c, now, l))
  {
    var r := Reconcile(c, now, cfg.heartbeatTtl);
    ReconcileRows(c, now, cfg.heartbeatTtl);
    if Lists(r, l) && l.queued != [] {
      TickEndFates(cfg, r, now, l);
      var v := TickEnd(cfg, r, now, l);
      FatesKeepRows(r, v.jobs, v.rows);
    }
  }

  lemma TickEndLedger(cfg: Config, c: State, now: real, l: Listing)
    requires Inv(c) && Lists(c, l)
    requires var queue := TickQueue(cfg, c, now, l);
             forall i :: 0 <= i < |queue| ==> AbsorbedAt(cfg, Snapshot(c, l), queue, now, i)
    ensures Ledger(TickEnd(cfg, c, now, l).jobs, TickEnd(cfg, c, now, l).rows, c.lost)
  {
    var queue := TickQueue(cfg, c, now, l);
    TickLedgerExact(cfg, c, now, l);
    assert LedgerAt(cfg, Snapshot(c, l), queue, now, c.lost, |queue|);
  }

  /** A harmless tick, one that releases nothing for jobs already evicted in it except where the
      clamp swallows it, keeps the invariant, for every algorithm and listing. */
  lemma TickInv(cfg: Config, c: State, now: real, l: Listing)
    requires Inv(c) && TickHarmless(cfg, c, now, l)
    ensures Inv(DoTick(cfg, c, now, l))
  {
    var r := Reconcile(c, now, cfg.heartbeatTtl);
    ReconcileInv(c, now, cfg.heartbeatTtl);
    TickRows(cfg, c, now, l);
    if Lists(r, l) && l.queued != [] {
      TickEndLedger(cfg, r, now, l);
    }
  }
}
