/** The resource ledger through a tick: exactly when an attempt keeps it. */
module TickLedger {
  import opened Resources
  import opened Model
  import opened Placement
  import opened Preemption
  import opened PlannerTheorems
  import opened Tick
  import opened TickInvariants

  /** Resources of each node that were taken by jobs stripped from it when it was lost. */
  type Lost = map<NodeId, Res>

  /** What holds of a node's account. */
  ghost predicate Balanced(row: NodeRow, used: Res, lost: Res) {
    row.cap == row.avail.Plus(used).Plus(lost)
  }

  /** The account of node `n`: its capacity is what is free, plus what active jobs hold, plus
      what was lost; and it is not over-committed. */
  ghost predicate Account(jobs: Jobs, row: NodeRow, lost: Lost, n: NodeId) {
    && row.id == n && n in lost && lost[n].NonNeg()
    && row.avail.NonNeg()
    && Balanced(row, Used(jobs, n), lost[n])
  }

  ghost predicate Ledger(jobs: Jobs, rows: Nodes, lost: Lost) {
    forall n :: n in rows ==> Account(jobs, rows[n], lost, n)
  }

  /** A release is harmless in one dimension if nothing in it was already free, or if the
      clamp swallows it because the node is then entirely free. */
  predicate Absorbed(cap: int, avail: int, held: int, stale: int) {
    stale == 0 || avail + held == cap
  }

  /** Releasing `total` on a node where only `held` of it is really held does no harm. */
  predicate ReleaseAbsorbed(n: NodeRow, held: Res, total: Res) {
    && Absorbed(n.cap.gpu, n.avail.gpu, held.gpu, total.gpu - held.gpu)
    && Absorbed(n.cap.cpu, n.avail.cpu, held.cpu, total.cpu - held.cpu)
    && Absorbed(n.cap.mem, n.avail.mem, held.mem, total.mem - held.mem)
  }

  /** The guard of one attempt: the preemption it carries out, if any, releases nothing for
      jobs that were already evicted, except where the clamp swallows it. */
  predicate StepAbsorbed(cfg: Config, v: TickView, job: Job, now: real) {
    match PlanFor(cfg, v, job, now)
    case None => true
    case Some(plan) =>
      var n := v.nodes[plan.at];
      ReleaseAbsorbed(n, HeldBy(v.jobs, plan.victims, n.id), SumReq(plan.victims))
  }

  // ----- a placement moves resources from free to held

  lemma CommitBalance(v: TickView, job: Job, i: nat, n: NodeId)
    requires Agrees(v) && Pending(v, [job]) && i < |v.nodes| && n in v.rows
    ensures var c := Commit(v, job, i);
            && n in c.rows && c.rows[n].cap == v.rows[n].cap && c.rows[n].id == v.rows[n].id
            && c.rows[n].avail.Plus(Used(c.jobs, n)) == v.rows[n].avail.Plus(Used(v.jobs, n))
            && c.rows[n].avail == if n == v.nodes[i].id then v.rows[n].avail.Minus(job.req) else v.rows[n].avail
  {
    assert job in [job];
    var row := v.jobs[job.id];
    UsedUpdate(v.jobs, job.id, row.(status := Scheduled, node := Some(v.nodes[i].id)), n);
  }

  ghost predicate FreeNonNeg(rows: Nodes) {
    forall n :: n in rows ==> rows[n].avail.NonNeg()
  }

  /** A placement neither repairs nor breaks the ledger. */
  lemma CommitLedger(v: TickView, job: Job, i: nat, lost: Lost)
    requires Agrees(v) && Pending(v, [job]) && i < |v.nodes| && v.nodes[i].Fits(job.req)
    requires FreeNonNeg(v.rows)
    ensures Ledger(Commit(v, job, i).jobs, Commit(v, job, i).rows, lost) <==> Ledger(v.jobs, v.rows, lost)
  {
    var c := Commit(v, job, i);
    assert c.rows.Keys == v.rows.Keys;
    forall n | n in v.rows
      ensures Account(c.jobs, c.rows[n], lost, n) <==> Account(v.jobs, v.rows[n], lost, n)
    {
      CommitBalance(v, job, i, n);
    }
  }

  // ----- an eviction moves them back

  lemma {:induction false} HeldByNone(jobs: Jobs, vs: seq<Job>, n: NodeId)
    requires forall id :: Names(vs, id) && id in jobs ==> Share(jobs[id], n) == ZERO
    ensures HeldBy(jobs, vs, n) == ZERO
    decreases vs
  {
    if vs != [] {
      assert Names(vs, vs[|vs| - 1].id);
      HeldByNone(jobs, vs[..|vs| - 1], n);
    }
  }

  lemma HeldByElsewhere(v: TickView, plan: Plan, n: NodeId)
    requires Agrees(v) && PlanSound(v, plan) && n != v.nodes[plan.at].id
    ensures HeldBy(v.jobs, plan.victims, n) == ZERO
  {
    forall id | Names(plan.victims, id) && id in v.jobs
      ensures Share(v.jobs[id], n) == ZERO
    {
      if v.jobs[id].OnNode(n) {
        VictimAt(v, plan, n, id);
      }
    }
    HeldByNone(v.jobs, plan.victims, n);
  }

  /** The victims hold at most what their requests say, and all of it if all are active there. */
  lemma {:induction false} HeldByBounds(v: TickView, n: NodeId, vs: seq<Job>)
    requires Agrees(v)
    requires forall r :: r in vs ==> r in Occupants(v.running, n)
    ensures SumReq(vs).Covers(HeldBy(v.jobs, vs, n)) && HeldBy(v.jobs, vs, n).NonNeg()
    ensures (forall r :: r in vs ==> v.jobs[r.id].OnNode(n)) ==> HeldBy(v.jobs, vs, n) == SumReq(vs)
    decreases vs
  {
    if vs != [] {
      var init, last := vs[..|vs| - 1], vs[|vs| - 1];
      assert last in vs && forall r :: r in init ==> r in vs;
      HeldByBounds(v, n, init);
      assert last in Occupants(v.running, n);
    }
  }

  /** On the plan's node the release is clamped, and the active total drops by what was held. */
  lemma EvictBalanceHere(v: TickView, plan: Plan)
    requires Agrees(v) && PlanSound(v, plan) && AllNonNeg(plan.victims) && plan.victims != []
    ensures var e, m := ApplyPreemption(v, plan), v.nodes[plan.at];
            && m.id in e.rows
            && e.rows[m.id] == m.(avail := m.avail.Plus(SumReq(plan.victims)).ClampTo(m.cap))
            && Used(e.jobs, m.id) == Used(v.jobs, m.id).Minus(HeldBy(v.jobs, plan.victims, m.id))
  {
    var m := v.nodes[plan.at];
    ReleaseAllSum(m.avail, m.cap, plan.victims);
    VictimsKnown(v, plan);
    EvictAllUsed(v.jobs, plan.victims, m.id);
  }

  /** No other node is affected. */
  lemma EvictBalanceElsewhere(v: TickView, plan: Plan, n: NodeId)
    requires Agrees(v) && PlanSound(v, plan)
    requires n != v.nodes[plan.at].id
    ensures Used(ApplyPreemption(v, plan).jobs, n) == Used(v.jobs, n)
  {
    var held := HeldBy(v.jobs, plan.victims, n);
    assert Used(EvictAll(v.jobs, plan.victims), n) == Used(v.jobs, n).Minus(held) by {
      VictimsKnown(v, plan);
      EvictAllUsed(v.jobs, plan.victims, n);
    }
    assert held == ZERO by {
      HeldByElsewhere(v, plan, n);
    }
  }

  lemma VictimsKnown(v: TickView, plan: Plan)
    requires Agrees(v) && PlanSound(v, plan)
    ensures forall k :: 0 <= k < |plan.victims| ==> plan.victims[k].id in v.jobs
  {
    forall k | 0 <= k < |plan.victims|
      ensures plan.victims[k].id in v.jobs
    {
      assert plan.victims[k] in plan.victims;
    }
  }

  /** After an eviction the account balances exactly when what was not held is absorbed. */
  lemma AccountAfterEviction(m: NodeRow, used: Res, lost: Res, held: Res, total: Res)
    requires Balanced(m, used, lost) && m.avail.NonNeg()
    requires lost.NonNeg() && used.Covers(held) && total.Covers(held) && held.NonNeg()
    ensures Balanced(m.(avail := m.avail.Plus(total).ClampTo(m.cap)), used.Minus(held), lost)
         == ReleaseAbsorbed(m, held, total)
    ensures m.avail.Plus(total).ClampTo(m.cap).NonNeg()
  {
  }

  lemma EvictAccountHere(v: TickView, plan: Plan, lost: Lost)
    requires Agrees(v) && PlanSound(v, plan) && AllNonNeg(plan.victims) && plan.victims != []
    requires Ledger(v.jobs, v.rows, lost)
    ensures var e, m := ApplyPreemption(v, plan), v.nodes[plan.at];
            && m.id in e.rows && e.rows[m.id].avail.NonNeg()
            && Account(e.jobs, e.rows[m.id], lost, m.id)
               == ReleaseAbsorbed(m, HeldBy(v.jobs, plan.victims, m.id), SumReq(plan.victims))
  {
    var e, m := ApplyPreemption(v, plan), v.nodes[plan.at];
    assert Account(v.jobs, m, lost, m.id);
    EvictBalanceHere(v, plan);
    HeldByBounds(v, m.id, plan.victims);
    EvictKeepsTables(v, plan);
    UsedNonNeg(e.jobs, m.id);
    AccountAfterEviction(m, Used(v.jobs, m.id), lost[m.id], HeldBy(v.jobs, plan.victims, m.id), SumReq(plan.victims));
  }

  lemma EvictAccountElsewhere(v: TickView, plan: Plan, lost: Lost, n: NodeId)
    requires Agrees(v) && PlanSound(v, plan)
    requires n in v.rows && n != v.nodes[plan.at].id
    requires Account(v.jobs, v.rows[n], lost, n)
    ensures var e := ApplyPreemption(v, plan);
            n in e.rows && e.rows[n] == v.rows[n] && Account(e.jobs, e.rows[n], lost, n)
  {
    EvictBalanceElsewhere(v, plan, n);
  }

  lemma EvictLedger(v: TickView, plan: Plan, lost: Lost)
    requires Agrees(v) && PlanSound(v, plan) && AllNonNeg(plan.victims) && plan.victims != []
    requires Ledger(v.jobs, v.rows, lost)
    ensures Ledger(ApplyPreemption(v, plan).jobs, ApplyPreemption(v, plan).rows, lost)
       <==> ReleaseAbsorbed(v.nodes[plan.at], HeldBy(v.jobs, plan.victims, v.nodes[plan.at].id), SumReq(plan.victims))
    ensures FreeNonNeg(ApplyPreemption(v, plan).rows)
  {
    hide ReleaseAbsorbed, HeldBy, SumReq, EvictAll, ReleaseAll, Used;
    var e, m := ApplyPreemption(v, plan), v.nodes[plan.at].id;
    EvictAccountHere(v, plan, lost);
    assert e.rows.Keys == v.rows.Keys;
    forall n | n in e.rows && n != m
      ensures Account(e.jobs, e.rows[n], lost, n)
    {
      EvictAccountElsewhere(v, plan, lost, n);
    }
  }

  // ----- the attempt as a whole

  /** An attempt keeps the ledger exactly when its guard holds. */
  lemma StepLedger(cfg: Config, v: TickView, job: Job, now: real, lost: Lost)
    requires Agrees(v) && Pending(v, [job])
    requires Ledger(v.jobs, v.rows, lost)
    ensures var r := PlaceOne(cfg, v, job, now);
            Ledger(r.jobs, r.rows, lost) <==> StepAbsorbed(cfg, v, job, now)
  {
    var first := Place(cfg.alg, v.nodes, job.req);
    if first.Some? {
      CommitLedger(v, job, first.value, lost);
    } else if PlanFor(cfg, v, job, now).Some? {
      var plan := PlanFor(cfg, v, job, now).value;
      PlanForSound(cfg, v, job, now);
      EvictLedger(v, plan, lost);
      EvictAgrees(v, plan, [job]);
      var e := ApplyPreemption(v, plan);
      var second := Place(cfg.alg, e.nodes, job.req);
      if second.Some? {
        CommitLedger(e, job, second.value, lost);
      }
    }
  }

  /** The ledger holds after the first `i` attempts. */
  ghost predicate LedgerAt(cfg: Config, v: TickView, queue: seq<Job>, now: real, lost: Lost, i: nat) {
    i <= |queue| && Ledger(Boundary(cfg, v, queue, now, i).jobs, Boundary(cfg, v, queue, now, i).rows, lost)
  }

  /** The guard of attempt `i` holds when its turn comes. */
  predicate AbsorbedAt(cfg: Config, v: TickView, queue: seq<Job>, now: real, i: nat) {
    i < |queue| && StepAbsorbed(cfg, Boundary(cfg, v, queue, now, i), queue[i], now)
  }

  lemma BoundaryLedger(cfg: Config, v: TickView, queue: seq<Job>, now: real, lost: Lost, i: nat)
    requires Agrees(v) && Pending(v, queue) && i < |queue|
    requires LedgerAt(cfg, v, queue, now, lost, i)
    ensures LedgerAt(cfg, v, queue, now, lost, i + 1) <==> AbsorbedAt(cfg, v, queue, now, i)
  {
    var b := Boundary(cfg, v, queue, now, i);
    BoundaryStep(cfg, v, queue, now, i);
    StepLedger(cfg, b, queue[i], now, lost);
  }

  /** If a fact carries over each step exactly when the step's guard holds, it holds throughout
      exactly when all guards do. */
  lemma {:induction false} Chain(k: nat, fact: nat -> bool, guard: nat -> bool)
    requires fact(0)
    requires forall i :: 0 <= i < k && fact(i) ==> (fact(i + 1) <==> guard(i))
    ensures (forall i :: 0 <= i <= k ==> fact(i)) <==> (forall i :: 0 <= i < k ==> guard(i))
    decreases k
  {
    if k > 0 {
      Chain(k - 1, fact, guard);
      assert fact(k - 1) ==> (fact(k) <==> guard(k - 1));
    }
  }

  /** Over a whole tick: the ledger holds at every boundary exactly when every attempt's guard
      holds. */
  lemma DrainLedger(cfg: Config, v: TickView, queue: seq<Job>, now: real, lost: Lost)
    requires Agrees(v) && Pending(v, queue)
    requires Ledger(v.jobs, v.rows, lost)
    ensures (forall i :: 0 <= i <= |queue| ==> LedgerAt(cfg, v, queue, now, lost, i))
       <==> (forall i :: 0 <= i < |queue| ==> AbsorbedAt(cfg, v, queue, now, i))
  {
    var fact := (i: nat) => LedgerAt(cfg, v, queue, now, lost, i);
    var guard := (i: nat) => AbsorbedAt(cfg, v, queue, now, i);
    forall i | 0 <= i < |queue| && fact(i)
      ensures fact(i + 1) <==> guard(i)
    {
      BoundaryLedger(cfg, v, queue, now, lost, i);
    }
    Chain(|queue|, fact, guard);
    if forall i :: 0 <= i < |queue| ==> AbsorbedAt(cfg, v, queue, now, i) {
      forall i | 0 <= i < |queue| ensures guard(i) { assert AbsorbedAt(cfg, v, queue, now, i); }
      forall i | 0 <= i <= |queue| ensures LedgerAt(cfg, v, queue, now, lost, i) { assert fact(i); }
    }
    if forall i :: 0 <= i <= |queue| ==> LedgerAt(cfg, v, queue, now, lost, i) {
      forall i | 0 <= i <= |queue| ensures fact(i) { assert LedgerAt(cfg, v, queue, now, lost, i); }
      forall i | 0 <= i < |queue| ensures AbsorbedAt(cfg, v, queue, now, i) { assert guard(i); }
    }
  }
}
