/** The order in which a tick tries the queue, in the figures of the tables
    (internal/scheduler/engine.go:106-110, internal/scheduler/strategies.go). */
module QueueOrder {
  import opened Sums
  import opened Sorting
  import opened Model
  import opened Placement
  import opened Ordering
  import opened Tick
  import opened Cluster

  /** The GPUs of the scheduled and running jobs of a team. */
  ghost function ActiveGpus(jobs: Jobs, team: string): int {
    SumOver(jobs, GpusFor(team))
  }

  function GpusFor(team: string): Job -> int {
    (j: Job) => if (j.status == Scheduled || j.status == Running) && j.teamId == team then j.req.gpu else 0
  }

  /** The GPUs of all registered nodes. */
  ghost function AllGpus(nodes: Nodes): int {
    SumOver(nodes, (n: NodeRow) => n.cap.gpu)
  }

  // ----- shares

  lemma TeamSum(jobs: Jobs, team: string)
    ensures SumOver(jobs, TeamGpu(team)) == ActiveGpus(jobs, team)
  {
    SumSame(jobs, TeamGpu(team), jobs, GpusFor(team));
  }

  lemma NoTeamNoGpus(jobs: Jobs, team: string)
    requires forall id :: id in jobs && jobs[id].status.IsActive() ==> jobs[id].teamId != team
    ensures ActiveGpus(jobs, team) == 0
  {
    SumZero(jobs, GpusFor(team));
  }

  lemma LoadWithout(nodes: Nodes, ids: seq<NodeId>, n: NodeId)
    requires n !in ids && forall x :: x in ids ==> x in nodes
    ensures forall x :: x in ids ==> x in nodes - {n}
    ensures LoadNodes(nodes - {n}, ids) == LoadNodes(nodes, ids)
  {
  }

  lemma TotalLast(nodes: Nodes, ids: seq<NodeId>)
    requires ids != [] && forall x :: x in ids ==> x in nodes
    ensures var k := |ids| - 1;
            && ids[k] in nodes && (forall x :: x in ids[..k] ==> x in nodes)
            && GpuTotal(LoadNodes(nodes, ids)) == GpuTotal(LoadNodes(nodes, ids[..k])) + nodes[ids[k]].cap.gpu
  {
    var k := |ids| - 1;
    assert ids[k] in ids && forall x :: x in ids[..k] ==> x in ids;
    assert LoadNodes(nodes, ids)[..k] == LoadNodes(nodes, ids[..k]);
  }

  /** The listed capacities add up to those of the table. */
  lemma {:induction false} TotalIsAll(nodes: Nodes, ids: seq<NodeId>)
    requires NoRepeats(ids) && forall n :: n in ids <==> n in nodes
    ensures GpuTotal(LoadNodes(nodes, ids)) == AllGpus(nodes)
    decreases ids
  {
    if ids == [] {
      assert nodes.Keys == {};
    } else {
      var k := |ids| - 1;
      var init, last := ids[..k], ids[k];
      assert last in ids;
      assert forall n :: n in init <==> n in nodes - {last} by {
        forall n
          ensures n in init <==> n in nodes - {last}
        {
          if n in nodes - {last} {
            var i :| 0 <= i < |ids| && ids[i] == n;
          }
        }
      }
      TotalIsAll(nodes - {last}, init);
      SumRemove(nodes, last, (n: NodeRow) => n.cap.gpu);
      hide GpuTotal, LoadNodes;
      TotalLast(nodes, ids);
      LoadWithout(nodes, init, last);
    }
  }

  /** A team's share of the cluster is its active GPUs over all GPUs; teams without active jobs
      have none. */
  lemma ShareIs(c: State, l: Listing, team: string)
    requires Lists(c, l) && AllGpus(c.nodes) != 0
    ensures TeamShare(TeamShares(c.jobs, LoadNodes(c.nodes, l.nodes)), team)
         == ActiveGpus(c.jobs, team) as real / AllGpus(c.nodes) as real
  {
    TotalIsAll(c.nodes, l.nodes);
    TeamSum(c.jobs, team);
    hide AllGpus, ActiveGpus, GpuTotal;
    if team !in TeamShares(c.jobs, LoadNodes(c.nodes, l.nodes)) {
      NoTeamNoGpus(c.jobs, team);
    }
  }

  lemma NoCapacityNoShare(c: State, l: Listing, team: string)
    requires Lists(c, l) && AllGpus(c.nodes) == 0
    ensures TeamShare(TeamShares(c.jobs, LoadNodes(c.nodes, l.nodes)), team) == 0.0
  {
    hide AllGpus;
    TotalIsAll(c.nodes, l.nodes);
  }

  lemma FractionOrder(a: int, b: int, total: int)
    requires total > 0
    ensures a as real / total as real < b as real / total as real <==> a < b
    ensures a as real / total as real == b as real / total as real <==> a == b
  {
    var t := total as real;
    var x, y := a as real / t, b as real / t;
    assert x * t == a as real && y * t == b as real;
    if a < b {
      assert (y - x) * t > 0.0;
    } else if a > b {
      assert (x - y) * t > 0.0;
    }
  }

  // ----- the order

  /** Of two jobs, `a` may be tried first as far as aging is concerned: its effective priority is
      higher, or the same and it is no younger. */
  predicate AgedFirst(a: Job, b: Job, now: real, f: real) {
    var ea, eb := EffectivePriority(a, now, f), EffectivePriority(b, now, f);
    ea > eb || (ea == eb && a.createdAt <= b.createdAt)
  }

  lemma QueueSorted(cfg: Config, c: State, now: real, l: Listing, i: nat, j: nat)
    requires Lists(c, l) && i < j < |TickQueue(cfg, c, now, l)|
    ensures var queue, shares := TickQueue(cfg, c, now, l), TeamShares(c.jobs, LoadNodes(c.nodes, l.nodes));
            !Before(cfg.alg, now, cfg.agingFactor, shares)(queue[j], queue[i])
  {
    hide TeamShares, Before;
    var shares := TeamShares(c.jobs, LoadNodes(c.nodes, l.nodes));
    var less := Before(cfg.alg, now, cfg.agingFactor, shares);
    BeforeIsSortOrder(cfg.alg, now, cfg.agingFactor, shares);
    SortSorts(LoadJobs(c.jobs, l.queued), less);
  }

  /** First-fit and best-fit try older jobs first. */
  lemma FirstComeOrder(cfg: Config, c: State, now: real, l: Listing, i: nat, j: nat)
    requires Lists(c, l) && i < j < |TickQueue(cfg, c, now, l)| && (cfg.alg == FirstFit || cfg.alg == BestFit)
    ensures TickQueue(cfg, c, now, l)[i].createdAt <= TickQueue(cfg, c, now, l)[j].createdAt
  {
    hide TickQueue, TeamShares;
    QueueSorted(cfg, c, now, l, i, j);
  }

  /** The priority algorithm tries higher effective priorities first, and older jobs on ties. */
  lemma PriorityFirstOrder(cfg: Config, c: State, now: real, l: Listing, i: nat, j: nat)
    requires Lists(c, l) && i < j < |TickQueue(cfg, c, now, l)| && cfg.alg == Priority
    ensures AgedFirst(TickQueue(cfg, c, now, l)[i], TickQueue(cfg, c, now, l)[j], now, cfg.agingFactor)
  {
    hide TickQueue, TeamShares, EffectivePriority;
    QueueSorted(cfg, c, now, l, i, j);
  }

  lemma FairByShares(cfg: Config, c: State, now: real, l: Listing, i: nat, j: nat)
    requires Lists(c, l) && i < j < |TickQueue(cfg, c, now, l)| && cfg.alg == FairShare
    ensures var queue, shares := TickQueue(cfg, c, now, l), TeamShares(c.jobs, LoadNodes(c.nodes, l.nodes));
            var sa, sb := TeamShare(shares, queue[i].teamId), TeamShare(shares, queue[j].teamId);
            sa < sb || (sa == sb && AgedFirst(queue[i], queue[j], now, cfg.agingFactor))
  {
    hide TickQueue, TeamShares, EffectivePriority, TeamShare;
    QueueSorted(cfg, c, now, l, i, j);
  }

  /** The fair-share algorithm tries the jobs of teams with fewer active GPUs first, then higher
      effective priorities, then older jobs. */
  lemma FairOrder(cfg: Config, c: State, now: real, l: Listing, i: nat, j: nat)
    requires Lists(c, l) && i < j < |TickQueue(cfg, c, now, l)| && cfg.alg == FairShare && AllGpus(c.nodes) > 0
    ensures var a, b := TickQueue(cfg, c, now, l)[i], TickQueue(cfg, c, now, l)[j];
            var ga, gb := ActiveGpus(c.jobs, a.teamId), ActiveGpus(c.jobs, b.teamId);
            ga < gb || (ga == gb && AgedFirst(a, b, now, cfg.agingFactor))
  {
    hide TickQueue, TeamShares, TeamShare, ActiveGpus, AllGpus, AgedFirst;
    var a, b := TickQueue(cfg, c, now, l)[i], TickQueue(cfg, c, now, l)[j];
    FairByShares(cfg, c, now, l, i, j);
    ShareIs(c, l, a.teamId);
    ShareIs(c, l, b.teamId);
    FractionOrder(ActiveGpus(c.jobs, a.teamId), ActiveGpus(c.jobs, b.teamId), AllGpus(c.nodes));
  }

  /** Without any GPUs in the cluster it orders by effective priority and age alone. */
  lemma FairOrderWithoutGpus(cfg: Config, c: State, now: real, l: Listing, i: nat, j: nat)
    requires Lists(c, l) && i < j < |TickQueue(cfg, c, now, l)| && cfg.alg == FairShare && AllGpus(c.nodes) == 0
    ensures AgedFirst(TickQueue(cfg, c, now, l)[i], TickQueue(cfg, c, now, l)[j], now, cfg.agingFactor)
  {
    hide TickQueue, TeamShares, TeamShare, AllGpus, AgedFirst;
    FairByShares(cfg, c, now, l, i, j);
    NoCapacityNoShare(c, l, TickQueue(cfg, c, now, l)[i].teamId);
    NoCapacityNoShare(c, l, TickQueue(cfg, c, now, l)[j].teamId);
  }
}
