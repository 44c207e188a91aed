/** Team shares are true shares of the cluster's GPUs (internal/scheduler/engine.go:249-263). */
module FairShares {
  import opened Sums
  import opened Model
  import opened TickLedger
  import opened Cluster
  import opened QueueOrder
  import opened TableRows
  import opened ClusterInvariants

  // ----- regrouping the GPUs of active jobs

  /** GPUs of active jobs of the given teams. */
  function TeamsGpu(teams: seq<string>): Job -> int {
    (j: Job) => if j.status.IsActive() && j.teamId in teams then j.req.gpu else 0
  }

  /** GPUs of active jobs on the given nodes. */
  function NodesGpu(ids: seq<NodeId>): Job -> int {
    (j: Job) => if j.status.IsActive() && j.node.Some? && j.node.value in ids then j.req.gpu else 0
  }

  ghost function SumTeams(jobs: Jobs, teams: seq<string>): int {
    if teams == [] then 0
    else SumTeams(jobs, teams[..|teams| - 1]) + SumOver(jobs, TeamGpu(teams[|teams| - 1]))
  }

  ghost function SumNodes(jobs: Jobs, ids: seq<NodeId>): int {
    if ids == [] then 0
    else SumNodes(jobs, ids[..|ids| - 1]) + Used(jobs, ids[|ids| - 1]).gpu
  }

  lemma SplitLast<T(!new)>(s: seq<T>)
    requires s != [] && NoRepeats(s)
    ensures NoRepeats(s[..|s| - 1]) && s[|s| - 1] !in s[..|s| - 1]
    ensures forall x :: x in s <==> x in s[..|s| - 1] || x == s[|s| - 1]
  {
    assert s == s[..|s| - 1] + [s[|s| - 1]];
  }

  /** Summing team by team is summing over the jobs of those teams. */
  lemma {:induction false} ByTeam(jobs: Jobs, teams: seq<string>)
    requires NoRepeats(teams)
    ensures SumTeams(jobs, teams) == SumOver(jobs, TeamsGpu(teams))
    decreases teams
  {
    if teams == [] {
      SumZero(jobs, TeamsGpu(teams));
    } else {
      SplitLast(teams);
      var init, last := teams[..|teams| - 1], teams[|teams| - 1];
      ByTeam(jobs, init);
      SumAdd(jobs, TeamsGpu(init), TeamGpu(last), TeamsGpu(teams));
    }
  }

  /** Summing node by node is summing over the jobs on those nodes. */
  lemma {:induction false} ByNode(jobs: Jobs, ids: seq<NodeId>)
    requires NoRepeats(ids)
    ensures SumNodes(jobs, ids) == SumOver(jobs, NodesGpu(ids))
    decreases ids
  {
    if ids == [] {
      SumZero(jobs, NodesGpu(ids));
    } else {
      SplitLast(ids);
      var init, last := ids[..|ids| - 1], ids[|ids| - 1];
      ByNode(jobs, init);
      SumAdd(jobs, NodesGpu(init), GpuOn(last), NodesGpu(ids));
    }
  }

  lemma JobWithinNodes(c: State, l: Listing, teams: seq<string>, id: JobId)
    requires Inv(c) && Lists(c, l) && id in c.jobs
    ensures TeamsGpu(teams)(c.jobs[id]) <= NodesGpu(l.nodes)(c.jobs[id])
  {
    assert JobOk(c, id);
  }

  /** What the teams use together is at most what the listed nodes have given out. */
  lemma TeamsWithinNodes(c: State, l: Listing, teams: seq<string>)
    requires Inv(c) && Lists(c, l) && NoRepeats(teams)
    ensures SumTeams(c.jobs, teams) <= SumNodes(c.jobs, l.nodes)
  {
    hide Inv, SumTeams, SumNodes;
    ByTeam(c.jobs, teams);
    ByNode(c.jobs, l.nodes);
    forall id | id in c.jobs
      ensures TeamsGpu(teams)(c.jobs[id]) <= NodesGpu(l.nodes)(c.jobs[id])
    {
      JobWithinNodes(c, l, teams, id);
    }
    SumMonotone(c.jobs, TeamsGpu(teams), c.jobs, NodesGpu(l.nodes));
  }

  lemma NodeWithinCapacity(c: State, n: NodeId)
    requires Inv(c) && n in c.nodes
    ensures Used(c.jobs, n).gpu <= c.nodes[n].cap.gpu
  {
    assert Account(c.jobs, c.nodes[n], c.lost, n);
  }

  lemma {:induction false} NodesWithinCapacity(c: State, ids: seq<NodeId>)
    requires Inv(c) && forall n :: n in ids ==> n in c.nodes
    ensures SumNodes(c.jobs, ids) <= GpuTotal(LoadNodes(c.nodes, ids))
    decreases ids
  {
    hide Inv, GpuTotal, LoadNodes;
    if ids == [] {
      NoNodesNoGpus(c.nodes, ids);
    } else {
      TotalLast(c.nodes, ids);
      NodesWithinCapacity(c, ids[..|ids| - 1]);
      NodeWithinCapacity(c, ids[|ids| - 1]);
    }
  }

  lemma NoNodesNoGpus(nodes: Nodes, ids: seq<NodeId>)
    requires ids == []
    ensures GpuTotal(LoadNodes(nodes, ids)) == 0
  {
  }

  // ----- the shares

  function SumShares(shares: map<string, real>, teams: seq<string>): real
    requires forall t :: t in teams ==> t in shares
  {
    if teams == [] then 0.0
    else
      var init, last := teams[..|teams| - 1], teams[|teams| - 1];
      assert last in teams && forall t :: t in init ==> t in teams;
      SumShares(shares, init) + shares[last]
  }

  lemma AddShares(a: int, b: int, total: int)
    requires total > 0
    ensures (a + b) as real / total as real == a as real / total as real + b as real / total as real
  {
  }

  lemma {:induction false} SharesAreFractions(jobs: Jobs, total: int, shares: map<string, real>, teams: seq<string>)
    requires total > 0
    requires forall t :: t in shares ==> shares[t] == SumOver(jobs, TeamGpu(t)) as real / total as real
    requires forall t :: t in teams ==> t in shares
    ensures SumShares(shares, teams) == SumTeams(jobs, teams) as real / total as real
    decreases teams
  {
    if teams != [] {
      var init, last := teams[..|teams| - 1], teams[|teams| - 1];
      assert last in teams && forall t :: t in init ==> t in teams;
      SharesAreFractions(jobs, total, shares, init);
      AddShares(SumTeams(jobs, init), SumOver(jobs, TeamGpu(last)), total);
    }
  }

  lemma FractionAtMostOne(a: int, total: int)
    requires total > 0 && a <= total
    ensures a as real / total as real <= 1.0
  {
  }

  lemma FractionNonNeg(a: int, total: int)
    requires total > 0 && a >= 0
    ensures a as real / total as real >= 0.0
  {
  }

  lemma TotalPositive(c: State, l: Listing)
    requires Inv(c) && Lists(c, l)
    ensures GpuTotal(LoadNodes(c.nodes, l.nodes)) >= 0
  {
    NodesWithinCapacity(c, l.nodes);
    TeamsWithinNodes(c, l, []);
  }

  /** The shares of any teams, counted once each, add up to at most the whole cluster. */
  lemma SharesSumToAtMostOne(c: State, l: Listing, teams: seq<string>)
    requires Inv(c) && Lists(c, l) && NoRepeats(teams)
    requires forall t :: t in teams ==> t in TeamShares(c.jobs, LoadNodes(c.nodes, l.nodes))
    ensures SumShares(TeamShares(c.jobs, LoadNodes(c.nodes, l.nodes)), teams) <= 1.0
  {
    var rows := LoadNodes(c.nodes, l.nodes);
    var shares, total := TeamShares(c.jobs, rows), GpuTotal(rows);
    if teams != [] {
      assert teams[0] in teams;
      TotalPositive(c, l);
      SharesAreFractions(c.jobs, total, shares, teams);
      TeamsWithinNodes(c, l, teams);
      NodesWithinCapacity(c, l.nodes);
      FractionAtMostOne(SumTeams(c.jobs, teams), total);
    }
  }

  lemma TeamGpuNonNeg(c: State, team: string)
    requires Inv(c)
    ensures SumOver(c.jobs, TeamGpu(team)) >= 0
  {
    forall id | id in c.jobs
      ensures TeamGpu(team)(c.jobs[id]) >= 0
    {
      assert JobOk(c, id);
    }
    SumNonNeg(c.jobs, TeamGpu(team));
  }

  lemma OneTeam(shares: map<string, real>, team: string)
    requires team in shares
    ensures SumShares(shares, [team]) == shares[team]
  {
    assert [team][..0] == [];
  }

  /** Every share lies between zero and one. */
  lemma ShareInUnitInterval(c: State, l: Listing, team: string)
    requires Inv(c) && Lists(c, l)
    requires team in TeamShares(c.jobs, LoadNodes(c.nodes, l.nodes))
    ensures 0.0 <= TeamShares(c.jobs, LoadNodes(c.nodes, l.nodes))[team] <= 1.0
  {
    hide Inv, GpuTotal;
    var rows := LoadNodes(c.nodes, l.nodes);
    var shares := TeamShares(c.jobs, rows);
    assert shares[team] <= 1.0 by {
      SharesSumToAtMostOne(c, l, [team]);
      OneTeam(shares, team);
    }
    TotalPositive(c, l);
    TeamGpuNonNeg(c, team);
    FractionNonNeg(SumOver(c.jobs, TeamGpu(team)), GpuTotal(rows));
  }
}
