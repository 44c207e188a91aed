/** When the planner's promise of the fewest evictions is true (internal/scheduler/preemption.go:15-20). */
module FewestVictims {
  import opened Resources
  import opened Sorting
  import opened Model
  import opened Preemption
  import opened PlannerTheorems

  /** No set of fewer than `k` eligible occupants makes room. */
  ghost predicate Fewest(job: Job, n: NodeRow, occupants: seq<Job>, k: nat) {
    forall ids :: Suffices(job, n, occupants, ids) ==> |ids| >= k
  }

  datatype Kind = Gpu | Cpu | Memory

  function Of(r: Res, d: Kind): int {
    match d
    case Gpu => r.gpu
    case Cpu => r.cpu
    case Memory => r.mem
  }

  function More(d: Kind): (Job, Job) -> bool {
    (a: Job, b: Job) => Of(a.req, d) > Of(b.req, d)
  }

  /** The eligible occupants, those with the most of one resource first. */
  function LargestFirst(job: Job, occupants: seq<Job>, d: Kind): seq<Job> {
    StableSort(Candidates(job, occupants), More(d))
  }

  predicate Descending(ws: seq<Job>, d: Kind) {
    forall i, j :: 0 <= i < j < |ws| ==> Of(ws[i].req, d) >= Of(ws[j].req, d)
  }

  lemma LargestFirstFacts(job: Job, occupants: seq<Job>, d: Kind)
    requires AllNonNeg(occupants) && DistinctIds(occupants)
    ensures var ws := LargestFirst(job, occupants, d);
            && DistinctIds(ws) && AllNonNeg(ws) && Descending(ws, d)
            && |ws| == |Candidates(job, occupants)|
            && forall w :: w in ws ==> w in occupants && Eligible(job, w)
  {
    var vs, ws := Candidates(job, occupants), LargestFirst(job, occupants, d);
    CandidatesDistinct(job, occupants);
    SortDistinct(vs, More(d));
    CandidateFacts(job, occupants);
    SortSorts(vs, More(d));
    forall i, j | 0 <= i < j < |ws|
      ensures Of(ws[i].req, d) >= Of(ws[j].req, d)
    {
      assert !More(d)(ws[j], ws[i]);
    }
  }

  // ----- the largest k requests outweigh any other k

  lemma {:induction false} SumOfWithout(js: seq<Job>, ids: set<JobId>, id: JobId)
    requires forall j :: j in js ==> j.id != id
    ensures SumOf(js, ids) == SumOf(js, ids - {id})
    decreases js
  {
    if js != [] {
      assert js[0] in js && forall j :: j in js[1..] ==> j in js;
      SumOfWithout(js[1..], ids, id);
    }
  }

  lemma {:induction false} PrefixGrows(ws: seq<Job>, d: Kind, i: nat, k: nat)
    requires AllNonNeg(ws) && i <= k <= |ws|
    ensures Of(SumReq(ws[..i]), d) <= Of(SumReq(ws[..k]), d)
    decreases k
  {
    if i < k {
      PrefixGrows(ws, d, i, k - 1);
      SumReqStep(ws, k - 1);
      assert ws[k - 1] in ws;
    }
  }

  /** The smallest job joins: its weight is at most that of the next larger one not yet counted. */
  lemma OutweighNamed(ws: seq<Job>, d: Kind, m: nat, worth: int)
    requires Descending(ws, d) && m < |ws|
    requires worth <= Of(SumReq(ws[..m]), d)
    ensures worth + Of(ws[|ws| - 1].req, d) <= Of(SumReq(ws[..m + 1]), d)
  {
    SumReqStep(ws, m);
    assert m < |ws| - 1 ==> Of(ws[m].req, d) >= Of(ws[|ws| - 1].req, d);
  }

  lemma DropLast(ws: seq<Job>, d: Kind)
    requires ws != [] && AllNonNeg(ws) && DistinctIds(ws) && Descending(ws, d)
    ensures var init := ws[..|ws| - 1];
            && AllNonNeg(init) && DistinctIds(init) && Descending(init, d)
            && forall w :: w in init ==> w.id != ws[|ws| - 1].id
  {
    var init := ws[..|ws| - 1];
    assert forall w :: w in init ==> w in ws;
  }

  lemma OfPlus(a: Res, b: Res, d: Kind)
    ensures Of(a.Plus(b), d) == Of(a, d) + Of(b, d) && Of(ZERO, d) == 0
  {
  }

  lemma {:induction false} LargestOutweigh(ws: seq<Job>, d: Kind, ids: set<JobId>)
    requires AllNonNeg(ws) && DistinctIds(ws) && Descending(ws, d)
    ensures Of(SumOf(ws, ids), d) <= Of(SumReq(ws[..Min(|ids|, |ws|)]), d)
    decreases |ws|
  {
    if ws == [] {
      assert ws[..0] == [];
    } else {
      hide SumOf, SumReq, Of, AllNonNeg, DistinctIds, Descending;
      var k := |ws| - 1;
      var init, last := ws[..k], ws[k];
      var others := ids - {last.id};
      var m := Min(|others|, k);
      DropLast(ws, d);
      LargestOutweigh(init, d, others);
      assert init[..m] == ws[..m];
      SumOfWithout(init, ids, last.id);
      SumOfLast(ws, ids);
      if last.id in ids {
        OfPlus(SumOf(init, ids), last.req, d);
        OutweighNamed(ws, d, m, Of(SumOf(init, others), d));
        assert Min(|ids|, |ws|) == m + 1;
      } else {
        OfPlus(SumOf(init, ids), ZERO, d);
        assert others == ids;
        PrefixGrows(ws, d, m, Min(|ids|, |ws|));
      }
    }
  }

  lemma {:induction false} IdsAtMost(js: seq<Job>)
    ensures |Ids(js)| <= |js|
    decreases js
  {
    if js != [] {
      var init, last := js[..|js| - 1], js[|js| - 1];
      IdsAtMost(init);
      assert forall j :: j in js <==> j in init || j == last;
      assert Ids(js) == Ids(init) + {last.id};
    }
  }

  /** What a node can have free of one resource at most after evicting `m` eligible jobs. */
  function MostFree(job: Job, n: NodeRow, occupants: seq<Job>, d: Kind, m: nat): int {
    var ws := LargestFirst(job, occupants, d);
    Of(n.avail, d) + Of(SumReq(ws[..Min(m, |ws|)]), d)
  }

  /** A set that makes room has at least as many jobs as are needed of the largest ones. */
  lemma NotEnough(job: Job, n: NodeRow, occupants: seq<Job>, d: Kind, m: nat, ids: set<JobId>)
    requires AllNonNeg(occupants) && DistinctIds(occupants)
    requires MostFree(job, n, occupants, d, m) < Of(job.req, d)
    requires Suffices(job, n, occupants, ids)
    ensures |ids| > m
  {
    hide StableSort, Candidates, AllNonNeg, DistinctIds, SumOf;
    var ws := LargestFirst(job, occupants, d);
    LargestFirstFacts(job, occupants, d);
    SumOfCandidates(job, occupants, ids);
    SumOfSort(Candidates(job, occupants), More(d), ids);
    LargestOutweigh(ws, d, ids);
    if |ids| <= m {
      PrefixGrows(ws, d, Min(|ids|, |ws|), Min(m, |ws|));
    }
  }

  /** At least `k` evictions are needed if the `k - 1` largest eligible jobs would not free enough
      of some resource, whatever else is short. */
  lemma FewestIf(job: Job, n: NodeRow, occupants: seq<Job>, d: Kind, k: nat)
    requires AllNonNeg(occupants) && DistinctIds(occupants)
    requires k > 0 && MostFree(job, n, occupants, d, k - 1) < Of(job.req, d)
    ensures Fewest(job, n, occupants, k)
  {
    hide MostFree, Suffices;
    forall ids | Suffices(job, n, occupants, ids)
      ensures |ids| >= k
    {
      NotEnough(job, n, occupants, d, k - 1, ids);
    }
  }

  /** The node has enough of every other resource. */
  predicate OnlyShortOf(job: Job, n: NodeRow, d: Kind) {
    forall other :: other != d ==> Of(n.avail, other) >= Of(job.req, other)
  }

  /** The first `m` of the largest may all be evicted, and free what they ask for. */
  lemma LargestSet(job: Job, occupants: seq<Job>, d: Kind, m: nat)
    requires AllNonNeg(occupants) && DistinctIds(occupants) && m <= |LargestFirst(job, occupants, d)|
    ensures var part := LargestFirst(job, occupants, d)[..m];
            MayEvict(job, occupants, Ids(part)) && SumOf(occupants, Ids(part)).Covers(SumReq(part))
  {
    var ws := LargestFirst(job, occupants, d);
    LargestFirstFacts(job, occupants, d);
    var ids := Ids(ws[..m]);
    forall r | r in occupants && r.id in ids
      ensures Eligible(job, r)
    {
      var w :| w in ws[..m] && w.id == r.id;
      assert w in ws;
      SameIdSameJob(occupants, r, w);
    }
    PrefixWorth(ws, m, ids);
    SumOfCandidates(job, occupants, ids);
    SumOfSort(Candidates(job, occupants), More(d), ids);
  }

  lemma CoversOf(free: Res, more: Res, req: Res, d: Kind)
    requires more.NonNeg() && Of(free, d) + Of(more, d) >= Of(req, d)
    requires forall other :: other != d ==> Of(free, other) >= Of(req, other)
    ensures free.Plus(more).Covers(req)
  {
    assert Of(free, Gpu) + Of(more, Gpu) >= Of(req, Gpu);
    assert Of(free, Cpu) + Of(more, Cpu) >= Of(req, Cpu);
    assert Of(free, Memory) + Of(more, Memory) >= Of(req, Memory);
  }

  /** Otherwise, if that resource is all that is short, the largest ones are fewer and enough. */
  lemma NotFewest(job: Job, n: NodeRow, occupants: seq<Job>, d: Kind, k: nat)
    requires AllNonNeg(occupants) && DistinctIds(occupants)
    requires OnlyShortOf(job, n, d)
    requires k > 0 && MostFree(job, n, occupants, d, k - 1) >= Of(job.req, d)
    ensures !Fewest(job, n, occupants, k)
  {
    var ws := LargestFirst(job, occupants, d);
    var part := ws[..Min(k - 1, |ws|)];
    LargestSet(job, occupants, d, |part|);
    IdsAtMost(part);
    var freed := SumOf(occupants, Ids(part));
    SumOfNonNeg(occupants, Ids(part));
    CoversOf(n.avail, freed, job.req, d);
    assert Suffices(job, n, occupants, Ids(part));
  }

  // ----- the planner's promise

  /** No ready node has a set of fewer than `k` eligible jobs whose eviction makes room. */
  ghost predicate FewestAnywhere(job: Job, nodes: seq<NodeRow>, running: RunningMap, k: nat) {
    forall i :: 0 <= i < |nodes| && nodes[i].status == Ready ==>
      Fewest(job, nodes[i], Occupants(running, nodes[i].id), k)
  }

  /** On no ready node would the `m` largest eligible jobs free enough of the resource that is
      short there. */
  predicate NoneReaches(job: Job, nodes: seq<NodeRow>, running: RunningMap, short: seq<Kind>, m: nat)
    requires |short| == |nodes|
  {
    forall i :: 0 <= i < |nodes| && nodes[i].status == Ready ==>
      MostFree(job, nodes[i], Occupants(running, nodes[i].id), short[i], m) < Of(job.req, short[i])
  }

  /** On every ready node only the given resource can be short. */
  predicate OneShort(job: Job, nodes: seq<NodeRow>, short: seq<Kind>) {
    && |short| == |nodes|
    && forall i :: 0 <= i < |nodes| && nodes[i].status == Ready ==> OnlyShortOf(job, nodes[i], short[i])
  }

  lemma FewestAnywhereIf(job: Job, nodes: seq<NodeRow>, running: RunningMap, short: seq<Kind>, k: nat)
    requires SaneRunning(nodes, running) && |short| == |nodes|
    requires k > 0 && NoneReaches(job, nodes, running, short, k - 1)
    ensures FewestAnywhere(job, nodes, running, k)
  {
    hide MostFree, Fewest, AllNonNeg, DistinctIds, Of;
    forall i | 0 <= i < |nodes| && nodes[i].status == Ready
      ensures Fewest(job, nodes[i], Occupants(running, nodes[i].id), k)
    {
      FewestIf(job, nodes[i], Occupants(running, nodes[i].id), short[i], k);
    }
  }

  lemma FewestAnywhereIff(job: Job, nodes: seq<NodeRow>, running: RunningMap, short: seq<Kind>, k: nat)
    requires SaneRunning(nodes, running) && OneShort(job, nodes, short) && k > 0
    ensures FewestAnywhere(job, nodes, running, k) <==> NoneReaches(job, nodes, running, short, k - 1)
  {
    hide MostFree, Fewest, AllNonNeg, DistinctIds, Of, OnlyShortOf;
    if NoneReaches(job, nodes, running, short, k - 1) {
      FewestAnywhereIf(job, nodes, running, short, k);
    } else {
      var i :| 0 <= i < |nodes| && nodes[i].status == Ready
               && MostFree(job, nodes[i], Occupants(running, nodes[i].id), short[i], k - 1) >= Of(job.req, short[i]);
      NotFewest(job, nodes[i], Occupants(running, nodes[i].id), short[i], k);
    }
  }

  /** The planner evicts the fewest jobs that would do anywhere if on each node one fewer of the
      largest jobs would leave some resource short. */
  lemma PlanIsFewestIf(job: Job, nodes: seq<NodeRow>, running: RunningMap, short: seq<Kind>)
    requires SaneRunning(nodes, running) && |short| == |nodes|
    requires FindPlan(job, nodes, running).Some? && FindPlan(job, nodes, running).value.victims != []
    requires NoneReaches(job, nodes, running, short, |FindPlan(job, nodes, running).value.victims| - 1)
    ensures FewestAnywhere(job, nodes, running, |FindPlan(job, nodes, running).value.victims|)
  {
    hide FindPlan, FewestAnywhere, NoneReaches, SaneRunning, PlanAt;
    FewestAnywhereIf(job, nodes, running, short, |FindPlan(job, nodes, running).value.victims|);
  }

  /** Where only one resource can be short on each ready node, the planner's plan evicts the
      fewest jobs that would do on any node exactly when on no ready node one fewer of the largest
      eligible jobs would do. */
  lemma PlanIsFewestIff(job: Job, nodes: seq<NodeRow>, running: RunningMap, short: seq<Kind>)
    requires SaneRunning(nodes, running) && OneShort(job, nodes, short)
    requires FindPlan(job, nodes, running).Some? && FindPlan(job, nodes, running).value.victims != []
    ensures var k := |FindPlan(job, nodes, running).value.victims|;
            FewestAnywhere(job, nodes, running, k) <==> NoneReaches(job, nodes, running, short, k - 1)
  {
    hide FindPlan, FewestAnywhere, NoneReaches, SaneRunning, PlanAt;
    FewestAnywhereIff(job, nodes, running, short, |FindPlan(job, nodes, running).value.victims|);
  }
}
