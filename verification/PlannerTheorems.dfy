/** What the greedy planner guarantees, against all sets of victims it could have chosen. */
module PlannerTheorems {
  import opened Resources
  import opened Sorting
  import opened Model
  import opened Preemption

  /** The requests of those jobs of `js` whose ids are in `ids`. */
  function SumOf(js: seq<Job>, ids: set<JobId>): Res {
    if js == [] then ZERO
    else (if js[0].id in ids then js[0].req else ZERO).Plus(SumOf(js[1..], ids))
  }

  predicate AllNonNeg(js: seq<Job>) {
    forall j :: j in js ==> j.req.NonNeg()
  }

  /** `ids` names only occupants that the pending job may evict. */
  predicate MayEvict(job: Job, occupants: seq<Job>, ids: set<JobId>) {
    forall r :: r in occupants && r.id in ids ==> Eligible(job, r)
  }

  /** Evicting the occupants named by `ids` makes room for the pending job on `n`. */
  predicate Suffices(job: Job, n: NodeRow, occupants: seq<Job>, ids: set<JobId>) {
    MayEvict(job, occupants, ids) && n.avail.Plus(SumOf(occupants, ids)).Covers(job.req)
  }

  // ----- sums over the candidate list

  lemma VictimOrder()
    ensures SortOrder(VictimBefore)
  {
  }

  lemma SumOfCons(x: Job, ys: seq<Job>, ids: set<JobId>)
    ensures SumOf([x] + ys, ids) == (if x.id in ids then x.req else ZERO).Plus(SumOf(ys, ids))
  {
    assert ([x] + ys)[1..] == ys;
  }

  lemma {:induction false} SumOfInsert(x: Job, ys: seq<Job>, less: (Job, Job) -> bool, ids: set<JobId>)
    ensures SumOf(Insert(x, ys, less), ids) == SumOf([x] + ys, ids)
    decreases ys
  {
    if ys != [] && less(ys[0], x) {
      var rest := ys[1..];
      assert ys == [ys[0]] + rest;
      SumOfInsert(x, rest, less, ids);
      SumOfCons(ys[0], Insert(x, rest, less), ids);
      SumOfCons(x, rest, ids);
      SumOfCons(x, ys, ids);
      SumOfCons(ys[0], rest, ids);
    }
  }

  lemma {:induction false} SumOfSort(js: seq<Job>, less: (Job, Job) -> bool, ids: set<JobId>)
    ensures SumOf(StableSort(js, less), ids) == SumOf(js, ids)
    decreases js
  {
    if js != [] {
      SumOfSort(js[1..], less, ids);
      var rest := StableSort(js[1..], less);
      SumOfInsert(js[0], rest, less, ids);
      assert ([js[0]] + rest)[1..] == rest;
    }
  }

  lemma {:induction false} SumOfFilter(js: seq<Job>, p: Job -> bool, ids: set<JobId>)
    requires forall i :: 0 <= i < |js| && js[i].id in ids ==> p(js[i])
    ensures SumOf(Filter(js, p), ids) == SumOf(js, ids)
    decreases js
  {
    if js != [] {
      assert js == [js[0]] + js[1..];
      SumOfFilter(js[1..], p, ids);
      SumOfFilterStep(js[0], js[1..], p, ids);
    }
  }

  lemma SumOfFilterStep(x: Job, rest: seq<Job>, p: Job -> bool, ids: set<JobId>)
    requires SumOf(Filter(rest, p), ids) == SumOf(rest, ids)
    requires x.id in ids ==> p(x)
    ensures SumOf(Filter([x] + rest, p), ids) == SumOf([x] + rest, ids)
  {
    FilterCons(x, rest, p);
    SumOfCons(x, rest, ids);
    SumOfCons(x, Filter(rest, p), ids);
    assert [] + Filter(rest, p) == Filter(rest, p);
  }

  /** An admissible set of victims is worth the same among the candidates. */
  lemma SumOfCandidates(job: Job, occupants: seq<Job>, ids: set<JobId>)
    requires MayEvict(job, occupants, ids)
    ensures SumOf(Candidates(job, occupants), ids) == SumOf(occupants, ids)
  {
    assert forall i :: 0 <= i < |occupants| ==> occupants[i] in occupants;
    SumOfFilter(occupants, EligibleFor(job), ids);
    SumOfSort(Filter(occupants, EligibleFor(job)), VictimBefore, ids);
  }

  lemma {:induction false} SumOfConcat(a: seq<Job>, b: seq<Job>, ids: set<JobId>)
    ensures SumOf(a + b, ids) == SumOf(a, ids).Plus(SumOf(b, ids))
    decreases a
  {
    if a == [] {
      assert a + b == b;
    } else {
      assert (a + b)[1..] == a[1..] + b;
      SumOfConcat(a[1..], b, ids);
    }
  }

  lemma SumOfOne(x: Job, ids: set<JobId>)
    ensures SumOf([x], ids) == if x.id in ids then x.req else ZERO
  {
    assert [x][1..] == [];
  }

  lemma SumOfLast(js: seq<Job>, ids: set<JobId>)
    requires js != []
    ensures var k := |js| - 1;
            SumOf(js, ids) == SumOf(js[..k], ids).Plus(if js[k].id in ids then js[k].req else ZERO)
  {
    var init, last := js[..|js| - 1], js[|js| - 1];
    assert js == init + [last];
    SumOfConcat(init, [last], ids);
    SumOfOne(last, ids);
  }

  lemma {:induction false} SumOfAtMostAll(js: seq<Job>, ids: set<JobId>)
    requires AllNonNeg(js)
    ensures SumReq(js).Covers(SumOf(js, ids))
    decreases js
  {
    if js != [] {
      var init := js[..|js| - 1];
      assert js[|js| - 1] in js && forall j :: j in init ==> j in js;
      SumOfAtMostAll(init, ids);
      SumOfLast(js, ids);
    }
  }

  lemma {:induction false} SumOfEverything(js: seq<Job>, ids: set<JobId>)
    requires forall j :: j in js ==> j.id in ids
    ensures SumOf(js, ids) == SumReq(js)
    decreases js
  {
    if js != [] {
      var init := js[..|js| - 1];
      assert js[|js| - 1] in js && forall j :: j in init ==> j in js;
      SumOfEverything(init, ids);
      SumOfLast(js, ids);
    }
  }

  function Ids(js: seq<Job>): (ids: set<JobId>)
    ensures forall j :: j in js ==> j.id in ids
    ensures forall id :: id in ids ==> exists j :: j in js && j.id == id
  {
    set j | j in js :: j.id
  }

  predicate DistinctIds(js: seq<Job>) {
    forall i, j :: 0 <= i < j < |js| ==> js[i].id != js[j].id
  }

  lemma CandidateFacts(job: Job, occupants: seq<Job>)
    ensures forall v :: v in Candidates(job, occupants) <==> v in occupants && Eligible(job, v)
    ensures forall i, j :: 0 <= i < j < |Candidates(job, occupants)| ==>
              Candidates(job, occupants)[i].priority <= Candidates(job, occupants)[j].priority
  {
    VictimOrder();
    var vs := Candidates(job, occupants);
    SortSorts(Filter(occupants, EligibleFor(job)), VictimBefore);
    forall i, j | 0 <= i < j < |vs|
      ensures vs[i].priority <= vs[j].priority
    {
      assert !VictimBefore(vs[j], vs[i]);
    }
  }

  // ----- filtering and sorting introduce no repeats

  lemma {:induction false} InsertDistinct(x: Job, ys: seq<Job>, less: (Job, Job) -> bool)
    requires DistinctIds(ys) && forall y :: y in ys ==> y.id != x.id
    ensures DistinctIds(Insert(x, ys, less))
    decreases ys
  {
    if ys == [] || !less(ys[0], x) {
      assert forall k :: 0 <= k < |ys| ==> ys[k] in ys;
    } else {
      assert ys[0] in ys && forall y :: y in ys[1..] ==> y in ys;
      InsertDistinct(x, ys[1..], less);
      var tail := Insert(x, ys[1..], less);
      forall k | 0 <= k < |tail|
        ensures tail[k].id != ys[0].id
      {
        assert tail[k] in multiset(tail);
        assert tail[k] in [x] + ys[1..];
        if tail[k] in ys[1..] {
          var i :| 0 <= i < |ys[1..]| && ys[1..][i] == tail[k];
          assert ys[0].id != ys[i + 1].id;
        }
      }
    }
  }

  lemma {:induction false} SortDistinct(js: seq<Job>, less: (Job, Job) -> bool)
    requires DistinctIds(js)
    ensures DistinctIds(StableSort(js, less))
    decreases js
  {
    if js != [] {
      SortDistinct(js[1..], less);
      var rest := StableSort(js[1..], less);
      forall y | y in rest
        ensures y.id != js[0].id
      {
        assert y in js[1..];
        var i :| 0 <= i < |js[1..]| && js[1..][i] == y;
        assert js[0].id != js[i + 1].id;
      }
      InsertDistinct(js[0], rest, less);
    }
  }

  lemma {:induction false} FilterDistinct(js: seq<Job>, p: Job -> bool)
    requires DistinctIds(js)
    ensures DistinctIds(Filter(js, p))
    decreases js
  {
    if js != [] {
      FilterDistinct(js[1..], p);
      var kept := Filter(js[1..], p);
      forall i | 0 <= i < |kept|
        ensures kept[i].id != js[0].id
      {
        assert kept[i] in js[1..];
        var k :| 0 <= k < |js[1..]| && js[1..][k] == kept[i];
        assert js[0].id != js[k + 1].id;
      }
    }
  }

  lemma CandidatesDistinct(job: Job, occupants: seq<Job>)
    requires DistinctIds(occupants)
    ensures DistinctIds(Candidates(job, occupants))
  {
    FilterDistinct(occupants, EligibleFor(job));
    SortDistinct(Filter(occupants, EligibleFor(job)), VictimBefore);
  }

  // ----- completeness

  /** A node has a plan exactly when evicting some set of eligible occupants would do. */
  lemma NodePlanComplete(job: Job, n: NodeRow, occupants: seq<Job>)
    requires AllNonNeg(occupants) && DistinctIds(occupants)
    ensures NodePlan(job, n, occupants).Some?
       <==> n.status == Ready && exists ids :: Suffices(job, n, occupants, ids)
  {
    var vs := Candidates(job, occupants);
    CandidateFacts(job, occupants);
    var k := TakeFrom(n.avail, job.req, vs, 0);
    TakeFromIsFirst(n.avail, job.req, vs, 0);
    forall ids | Suffices(job, n, occupants, ids)
      ensures n.avail.Plus(SumReq(vs[..k])).Covers(job.req)
    {
      SumOfCandidates(job, occupants, ids);
      SumOfAtMostAll(vs, ids);
      if k == |vs| {
        assert vs[..k] == vs;
      }
    }
    if NodePlan(job, n, occupants).Some? {
      EvictedSetSuffices(job, n, occupants);
    }
  }

  /** Splits the candidates at the end of the plan. */
  lemma PlanSplits(job: Job, n: NodeRow, occupants: seq<Job>)
    requires NodePlan(job, n, occupants).Some?
    ensures var vs, chosen := Candidates(job, occupants), NodePlan(job, n, occupants).value;
            |chosen| <= |vs| && chosen == vs[..|chosen|] && vs == chosen + vs[|chosen|..]
    ensures forall v :: v in NodePlan(job, n, occupants).value ==> v in occupants && Eligible(job, v)
    ensures n.status == Ready
    ensures n.avail.Plus(SumReq(NodePlan(job, n, occupants).value)).Covers(job.req)
  {
    hide Candidates, TakeFrom;
    CandidateFacts(job, occupants);
    var vs := Candidates(job, occupants);
    var k := TakeFrom(n.avail, job.req, vs, 0);
    assert forall v :: v in vs[..k] ==> v in vs;
  }

  /** The set of a plan's victims is itself one of the sets that would do. */
  lemma EvictedSetSuffices(job: Job, n: NodeRow, occupants: seq<Job>)
    requires AllNonNeg(occupants) && DistinctIds(occupants)
    requires NodePlan(job, n, occupants).Some?
    ensures Suffices(job, n, occupants, Ids(NodePlan(job, n, occupants).value))
  {
    PlanSplits(job, n, occupants);
    var chosen := NodePlan(job, n, occupants).value;
    var ids := Ids(chosen);
    forall r | r in occupants && r.id in ids
      ensures Eligible(job, r)
    {
      var v :| v in chosen && v.id == r.id;
      SameIdSameJob(occupants, r, v);
    }
    PrefixWorth(Candidates(job, occupants), |chosen|, ids) by {
      CandidateFacts(job, occupants);
    }
    SumOfCandidates(job, occupants, ids);
  }

  lemma PrefixWorth(vs: seq<Job>, k: nat, ids: set<JobId>)
    requires AllNonNeg(vs) && k <= |vs|
    requires forall v :: v in vs[..k] ==> v.id in ids
    ensures SumOf(vs, ids).Covers(SumReq(vs[..k]))
  {
    assert vs == vs[..k] + vs[k..];
    SumOfConcat(vs[..k], vs[k..], ids);
    SumOfEverything(vs[..k], ids);
    assert forall v :: v in vs[k..] ==> v in vs;
    SumOfNonNeg(vs[k..], ids);
  }

  lemma SameIdSameJob(js: seq<Job>, a: Job, b: Job)
    requires DistinctIds(js) && a in js && b in js && a.id == b.id
    ensures a == b
  {
    var i :| 0 <= i < |js| && js[i] == a;
    var j :| 0 <= j < |js| && js[j] == b;
    assert i == j;
  }

  lemma {:induction false} SumOfNonNeg(js: seq<Job>, ids: set<JobId>)
    requires AllNonNeg(js)
    ensures SumOf(js, ids).NonNeg()
    decreases js
  {
    if js != [] {
      assert js[0] in js && forall j :: j in js[1..] ==> j in js;
      SumOfNonNeg(js[1..], ids);
    }
  }

  /** The planner's view of a cluster: requests are not negative, and no node lists a job twice. */
  predicate SaneRunning(nodes: seq<NodeRow>, running: RunningMap) {
    forall i :: 0 <= i < |nodes| ==>
      AllNonNeg(Occupants(running, nodes[i].id)) && DistinctIds(Occupants(running, nodes[i].id))
  }

  /** The planner finds a plan exactly when some schedulable node has some set of eligible,
      strictly lower-priority jobs whose eviction makes the request fit. */
  lemma PlannerComplete(job: Job, nodes: seq<NodeRow>, running: RunningMap)
    requires SaneRunning(nodes, running)
    ensures FindPlan(job, nodes, running).Some?
       <==> exists i, ids :: 0 <= i < |nodes| && nodes[i].status == Ready
                          && Suffices(job, nodes[i], Occupants(running, nodes[i].id), ids)
  {
    forall i | 0 <= i < |nodes|
      ensures PlanAt(job, nodes, running, i).Some?
         <==> nodes[i].status == Ready && exists ids :: Suffices(job, nodes[i], Occupants(running, nodes[i].id), ids)
    {
      NodePlanComplete(job, nodes[i], Occupants(running, nodes[i].id));
    }
  }

  /** The plan evicts fewer jobs than the plan of any other node, or as many of a smaller summed
      priority, or as many of the same summed priority on an earlier node. */
  lemma PlanIsCheapest(job: Job, nodes: seq<NodeRow>, running: RunningMap, i: nat)
    requires FindPlan(job, nodes, running).Some?
    requires i < |nodes| && i != FindPlan(job, nodes, running).value.at && PlanAt(job, nodes, running, i).Some?
    ensures var p := FindPlan(job, nodes, running).value;
            var mine, theirs := p.victims, PlanAt(job, nodes, running, i).value;
            || |mine| < |theirs|
            || (|mine| == |theirs| && SumPriority(mine) < SumPriority(theirs))
            || (|mine| == |theirs| && SumPriority(mine) == SumPriority(theirs) && p.at < i)
  {
    hide NodePlan, SumPriority;
    var costs := Costs(job, nodes, running);
    var p := FindPlan(job, nodes, running).value;
    assert Cheapest(costs) == Some(p.at);
    assert costs[i] == CostOf(PlanAt(job, nodes, running, i));
    assert costs[p.at] == CostOf(Some(p.victims));
  }

  // ----- optimality on the chosen node

  /** Every set of eligible occupants that makes room contains a job at least as important as
      every job the plan evicts: no other choice spares its most important victim. */
  lemma BottleneckOptimal(job: Job, n: NodeRow, occupants: seq<Job>, ids: set<JobId>)
    requires AllNonNeg(occupants)
    requires NodePlan(job, n, occupants).Some? && NodePlan(job, n, occupants).value != []
    requires Suffices(job, n, occupants, ids)
    ensures exists r :: r in occupants && r.id in ids
              && forall v :: v in NodePlan(job, n, occupants).value ==> v.priority <= r.priority
  {
    var vs := Candidates(job, occupants);
    var chosen := NodePlan(job, n, occupants).value;
    var k := |chosen| - 1;
    CandidateFacts(job, occupants);
    PlanSplits(job, n, occupants);
    SumOfCandidates(job, occupants, ids);
    TakeFromIsFirst(n.avail, job.req, vs, 0);
    assert !n.avail.Plus(SumReq(vs[..k])).Covers(job.req);
    var j := SomeoneBeyond(vs, k, ids, n.avail, job.req);
    LaterIsCostlier(vs, k, j);
    assert vs[j] in vs && chosen == vs[..k + 1];
  }

  lemma LaterIsCostlier(vs: seq<Job>, k: nat, j: nat)
    requires forall i, j :: 0 <= i < j < |vs| ==> vs[i].priority <= vs[j].priority
    requires k <= j < |vs|
    ensures forall v :: v in vs[..k + 1] ==> v.priority <= vs[j].priority
  {
    forall v | v in vs[..k + 1]
      ensures v.priority <= vs[j].priority
    {
      var i :| 0 <= i < k + 1 && vs[i] == v;
      assert i == j || i < j;
    }
  }

  /** A set worth more than a rejected prefix names somebody beyond that prefix. */
  lemma SomeoneBeyond(vs: seq<Job>, k: nat, ids: set<JobId>, free: Res, req: Res) returns (j: nat)
    requires AllNonNeg(vs) && k <= |vs|
    requires !free.Plus(SumReq(vs[..k])).Covers(req)
    requires free.Plus(SumOf(vs, ids)).Covers(req)
    ensures k <= j < |vs| && vs[j].id in ids
  {
    var cheaper, rest := vs[..k], vs[k..];
    assert SumOf(vs, ids) == SumOf(cheaper, ids).Plus(SumOf(rest, ids)) by {
      assert vs == cheaper + rest;
      SumOfConcat(cheaper, rest, ids);
    }
    assert SumReq(cheaper).Covers(SumOf(cheaper, ids)) by {
      assert forall v :: v in cheaper ==> v in vs;
      SumOfAtMostAll(cheaper, ids);
    }
    if forall r :: r in rest ==> r.id !in ids {
      SumOfNone(rest, ids);
    }
    var r :| r in rest && r.id in ids;
    j :| k <= j < |vs| && vs[j] == r;
  }

  lemma {:induction false} SumOfNone(js: seq<Job>, ids: set<JobId>)
    requires forall j :: j in js ==> j.id !in ids
    ensures SumOf(js, ids) == ZERO
    decreases js
  {
    if js != [] {
      assert js[0] in js && forall j :: j in js[1..] ==> j in js;
      SumOfNone(js[1..], ids);
    }
  }

  lemma BeyondPrefix(vs: seq<Job>, k: nat, v: Job, w: Job)
    requires Sorted(vs, VictimBefore) && k <= |vs| && v in vs[..k] && w in vs && w !in vs[..k]
    ensures !VictimBefore(w, v)
  {
    hide VictimBefore;
    var i :| 0 <= i < k && vs[i] == v;
    var j :| 0 <= j < |vs| && vs[j] == w;
    assert forall x :: 0 <= x < k ==> vs[x] in vs[..k];
    assert i < j;
  }

  /** Among the jobs that may be evicted, whoever is evicted is less important than whoever is
      spared, or as important and no older. */
  lemma SparesTheOlder(job: Job, n: NodeRow, occupants: seq<Job>, v: Job, w: Job)
    requires NodePlan(job, n, occupants).Some?
    requires v in NodePlan(job, n, occupants).value && w !in NodePlan(job, n, occupants).value
    requires w in occupants && w.priority < job.priority && w.userId != ""
    ensures v.priority < w.priority || (v.priority == w.priority && v.createdAt >= w.createdAt)
  {
    VictimOrder();
    SortSorts(Filter(occupants, EligibleFor(job)), VictimBefore);
    assert Sorted(Candidates(job, occupants), VictimBefore);
    PlanSplits(job, n, occupants);
    CandidateFacts(job, occupants);
    hide NodePlan, Candidates, Sorted, SortOrder;
    BeyondPrefix(Candidates(job, occupants), |NodePlan(job, n, occupants).value|, v, w);
  }

  /** No shorter prefix of the victim list would have been enough; the whole list is. */
  lemma NoVictimInVain(job: Job, n: NodeRow, occupants: seq<Job>, i: nat)
    requires NodePlan(job, n, occupants).Some?
    requires i <= |NodePlan(job, n, occupants).value|
    ensures var chosen := NodePlan(job, n, occupants).value;
            n.avail.Plus(SumReq(chosen[..i])).Covers(job.req) <==> i == |chosen|
  {
    var vs := Candidates(job, occupants);
    var chosen := NodePlan(job, n, occupants).value;
    TakeFromIsFirst(n.avail, job.req, vs, 0);
    assert chosen[..i] == vs[..i];
  }
}
