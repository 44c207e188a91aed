/** Left alone, the scheduler settles: a bound on all placements and evictions. */
module QuietRuns {
  import opened Sums
  import opened Model
  import opened Tick
  import opened TickInvariants
  import opened TickFates
  import opened Progress
  import opened Cluster
  import opened TableRows
  import opened ClusterInvariants
  import opened TickSteps
  import opened RowRuns
  import opened Runs
  import opened FreshTicks

  // ----- one pass

  /** No attempt of the pass evicts jobs and then fails to place its own. */
  ghost predicate ProductivePass(cfg: Config, v: TickView, queue: seq<Job>, now: real) {
    forall i :: 0 <= i < |queue| ==> !Wasted(cfg, Boundary(cfg, v, queue, now, i), queue[i], now)
  }

  /** From `v` to `r`, the potential of n jobs grew by at least the number of placements, and in a
      pass that evicts nobody twice placements and evictions account for the change in the number
      of active jobs. */
  ghost predicate Gains(v: TickView, r: TickView, n: nat, once: bool) {
    && Placements(v.events) <= Placements(r.events) && |v.evictions| <= |r.evictions|
    && Potential(r.jobs, n) >= Potential(v.jobs, n) + Placements(r.events) - Placements(v.events)
    && (once ==> Counts(v, r))
  }

  /** Moreover each placement evicted at most n jobs. */
  ghost predicate Accrues(v: TickView, r: TickView, n: nat, once: bool) {
    && Gains(v, r, n, once)
    && |r.evictions| - |v.evictions| <= Times(Placements(r.events) - Placements(v.events), n)
  }

  lemma AccruesTrans(a: TickView, b: TickView, c: TickView, n: nat, once: bool)
    requires Accrues(a, b, n, once) && Accrues(b, c, n, once)
    ensures Accrues(a, c, n, once)
  {
    TimesAdd(Placements(b.events) - Placements(a.events), Placements(c.events) - Placements(b.events), n);
  }

  lemma {:induction false} AccruesChain(b: nat -> TickView, k: nat, n: nat, once: bool)
    requires forall i :: 0 <= i < k ==> Accrues(b(i), b(i + 1), n, once)
    ensures Accrues(b(0), b(k), n, once)
    decreases k
  {
    if k > 0 {
      AccruesChain(b, k - 1, n, once);
      AccruesTrans(b(0), b(k - 1), b(k), n, once);
    }
  }

  lemma FatesCount(v: TickView, r: TickView)
    requires Fates(v, r) && PrioritiesOk(v.jobs)
    ensures |r.jobs| == |v.jobs| && PrioritiesOk(r.jobs)
  {
    assert |r.jobs.Keys| == |v.jobs.Keys|;
    forall id | id in r.jobs
      ensures PriorityOk(r.jobs[id])
    {
      assert Fate(v.jobs[id], r.jobs[id], r.rows);
    }
  }

  lemma RaisesAccrues(v: TickView, r: TickView, n: nat, once: bool)
    requires Raises(v, r, n) && (once ==> Counts(v, r))
    ensures Accrues(v, r, n, once)
  {
    assert Times(1, n) == n;
  }

  lemma AttemptAccrues(cfg: Config, v: TickView, queue: seq<Job>, now: real, i: nat, once: bool)
    requires Agrees(v) && Pending(v, queue) && PrioritiesOk(v.jobs) && i < |queue|
    requires ProductivePass(cfg, v, queue, now) && (once ==> FreshPass(cfg, v, queue, now))
    ensures Accrues(Boundary(cfg, v, queue, now, i), Boundary(cfg, v, queue, now, i + 1), |v.jobs|, once)
  {
    var b := Boundary(cfg, v, queue, now, i);
    BoundaryStep(cfg, v, queue, now, i);
    PassFates(cfg, v, queue, now, i);
    FatesCount(v, b);
    assert queue[i] in [queue[i]];
    assert PriorityOk(b.jobs[queue[i].id]);
    AttemptRaises(cfg, b, queue[i], now);
    if once {
      assert FreshAt(cfg, v, queue, now, i);
      AttemptCounts(cfg, b, queue[i], now);
    }
    RaisesAccrues(b, PlaceOne(cfg, b, queue[i], now), |v.jobs|, once);
  }

  lemma AttemptsAccrue(cfg: Config, v: TickView, queue: seq<Job>, now: real, b: nat -> TickView, once: bool)
    requires Agrees(v) && Pending(v, queue) && PrioritiesOk(v.jobs)
    requires ProductivePass(cfg, v, queue, now) && (once ==> FreshPass(cfg, v, queue, now))
    requires forall i :: 0 <= i <= |queue| ==> b(i) == Boundary(cfg, v, queue, now, i)
    ensures forall i :: 0 <= i < |queue| ==> Accrues(b(i), b(i + 1), |v.jobs|, once)
  {
    forall i | 0 <= i < |queue|
      ensures Accrues(b(i), b(i + 1), |v.jobs|, once)
    {
      AttemptAccrues(cfg, v, queue, now, i, once);
    }
  }

  lemma PassAccrues(cfg: Config, v: TickView, queue: seq<Job>, now: real, once: bool)
    requires Agrees(v) && Pending(v, queue) && PrioritiesOk(v.jobs)
    requires ProductivePass(cfg, v, queue, now) && (once ==> FreshPass(cfg, v, queue, now))
    ensures Accrues(v, Boundary(cfg, v, queue, now, |queue|), |v.jobs|, once)
  {
    var b := (i: nat) => if i <= |queue| then Boundary(cfg, v, queue, now, i) else v;
    AttemptsAccrue(cfg, v, queue, now, b, once);
    AccruesChain(b, |queue|, |v.jobs|, once);
  }

  // ----- whole runs

  /** A tick that finds every node alive and evicts nobody in vain; with `once`, nor anybody
      twice. */
  ghost predicate QuietTick(cfg: Config, c: State, now: real, l: Listing, once: bool) {
    && (forall n :: n in c.nodes ==> !Stale(c.nodes[n], now, cfg.heartbeatTtl))
    && (Lists(c, l) ==>
          var v, queue := Snapshot(c, l), TickQueue(cfg, c, now, l);
          ProductivePass(cfg, v, queue, now) && (once ==> FreshPass(cfg, v, queue, now)))
  }

  /** No arrival, no completion, no cancellation and no node loss. Heartbeats, registrations,
      operator commands, running reports of active jobs, rejected requests and quiet ticks may
      come in any order. */
  ghost predicate QuietStep(cfg: Config, c: State, op: Op, once: bool) {
    match op
    case Submit(id, s, _, _) => !ValidSubmission(s) || id in c.jobs
    case Register(n, _, _, _) => n != ""
    case Heartbeat(_, _) => true
    case SetNodeStatus(_, _) => true
    case Report(id, s) =>
      id in c.jobs ==> (s == Running ==> c.jobs[id].status.IsActive()) && s != Completed && s != Failed
    case Cancel(id) => id in c.jobs ==> c.jobs[id].status.IsTerminal()
    case RunTick(now, l) => QuietTick(cfg, c, now, l, once)
  }

  ghost predicate QuietRun(cfg: Config, c: State, ops: seq<Op>, once: bool) {
    forall i :: 0 <= i < |ops| ==> QuietStep(cfg, Run(cfg, c, ops[..i]), ops[i], once)
  }

  /** How many jobs a step places. */
  ghost function StepPlacements(cfg: Config, c: State, op: Op): nat {
    if op.RunTick? && Lists(c, op.listing) then Placements(TickEnd(cfg, c, op.now, op.listing).events) else 0
  }

  /** How many evictions a step logs. */
  ghost function StepEvictions(cfg: Config, c: State, op: Op): nat {
    if op.RunTick? && Lists(c, op.listing) then |TickEnd(cfg, c, op.now, op.listing).evictions| else 0
  }

  ghost function PlacementsAt(cfg: Config, c: State, ops: seq<Op>): nat -> nat {
    (i: nat) => if i < |ops| then StepPlacements(cfg, Run(cfg, c, ops[..i]), ops[i]) else 0
  }

  ghost function EvictionsAt(cfg: Config, c: State, ops: seq<Op>): nat -> nat {
    (i: nat) => if i < |ops| then StepEvictions(cfg, Run(cfg, c, ops[..i]), ops[i]) else 0
  }

  ghost function SumTo(f: nat -> nat, k: nat): nat {
    if k == 0 then 0 else SumTo(f, k - 1) + f(k - 1)
  }

  ghost function RunPlacements(cfg: Config, c: State, ops: seq<Op>): nat {
    SumTo(PlacementsAt(cfg, c, ops), |ops|)
  }

  ghost function RunEvictions(cfg: Config, c: State, ops: seq<Op>): nat {
    SumTo(EvictionsAt(cfg, c, ops), |ops|)
  }

  lemma EmptyQueue(cfg: Config, c: State, now: real, l: Listing)
    requires Lists(c, l) && l.queued == []
    ensures TickEnd(cfg, c, now, l) == Snapshot(c, l)
  {
    assert TickQueue(cfg, c, now, l) == [];
  }

  /** A tick's jobs are those its pass over the queue ends with. */
  lemma TickJobs(cfg: Config, c: State, r: State, now: real, l: Listing)
    requires r == Reconcile(c, now, cfg.heartbeatTtl) && Lists(r, l)
    ensures DoTick(cfg, c, now, l).jobs == TickEnd(cfg, r, now, l).jobs
  {
    hide Boundary, TickQueue;
    if l.queued == [] {
      EmptyQueue(cfg, r, now, l);
    }
  }

  lemma QuietAccrues(cfg: Config, c: State, now: real, l: Listing, once: bool)
    requires RowsOk(c) && Lists(c, l) && QuietTick(cfg, c, now, l, once)
    ensures Accrues(Snapshot(c, l), TickEnd(cfg, c, now, l), |c.jobs|, once)
  {
    hide Boundary, Agrees, Pending, Accrues, ProductivePass, FreshPass, PrioritiesOk, RowsOk, TickQueue;
    SnapshotAgrees(c, l);
    QueuePending(cfg, c, now, l);
    RowsNonNeg(c);
    PassAccrues(cfg, Snapshot(c, l), TickQueue(cfg, c, now, l), now, once);
  }

  lemma TickEndCount(cfg: Config, c: State, now: real, l: Listing)
    requires RowsOk(c) && Lists(c, l)
    ensures |TickEnd(cfg, c, now, l).jobs| == |c.jobs|
  {
    hide TickEnd, RowsOk, Lists, NodeFates, Fate;
    TickEndFates(cfg, c, now, l);
    assert |TickEnd(cfg, c, now, l).jobs.Keys| == |c.jobs.Keys|;
  }

  lemma FromStart(v: TickView, r: TickView, n: nat, once: bool)
    requires Accrues(v, r, n, once) && v.events == [] && v.evictions == []
    ensures Gains(v, r, n, once) && |r.evictions| <= Times(Placements(r.events), n)
  {
    assert Placements([]) == 0;
  }

  lemma QuietPass(cfg: Config, c: State, now: real, l: Listing, once: bool)
    requires RowsOk(c) && Lists(c, l) && QuietTick(cfg, c, now, l, once)
    ensures Gains(Snapshot(c, l), TickEnd(cfg, c, now, l), |c.jobs|, once)
    ensures |TickEnd(cfg, c, now, l).evictions| <= Times(Placements(TickEnd(cfg, c, now, l).events), |c.jobs|)
    ensures |TickEnd(cfg, c, now, l).jobs| == |c.jobs|
  {
    hide TickEnd, RowsOk, QuietTick, Gains, Accrues;
    QuietAccrues(cfg, c, now, l, once);
    TickEndCount(cfg, c, now, l);
    FromStart(Snapshot(c, l), TickEnd(cfg, c, now, l), |c.jobs|, once);
  }

  /** Between `c` and `c'` there were that many placements and evictions: each placement is worth
      a point of potential, and if nobody was evicted twice in a tick, together they explain the
      number of active jobs. */
  ghost predicate Tally(c: State, c': State, placements: nat, evictions: nat, once: bool) {
    && |c'.jobs| == |c.jobs|
    && Potential(c'.jobs, |c.jobs|) >= Potential(c.jobs, |c.jobs|) + placements
    && (once ==> ActiveCount(c'.jobs) == ActiveCount(c.jobs) + placements - evictions)
  }

  lemma GainsTally(c: State, c': State, v: TickView, r: TickView, once: bool)
    requires Gains(v, r, |c.jobs|, once) && v.events == [] && v.evictions == []
    requires c.jobs == v.jobs && c'.jobs == r.jobs && |r.jobs| == |v.jobs|
    ensures Tally(c, c', Placements(r.events), |r.evictions|, once)
  {
  }

  lemma QuietTickTally(cfg: Config, c: State, now: real, l: Listing, once: bool)
    requires RowsOk(c) && QuietTick(cfg, c, now, l, once)
    ensures var op := RunTick(now, l);
            && Tally(c, DoTick(cfg, c, now, l), StepPlacements(cfg, c, op), StepEvictions(cfg, c, op), once)
            && StepEvictions(cfg, c, op) <= Times(StepPlacements(cfg, c, op), |c.jobs|)
  {
    hide Gains, Tally, TickQueue, Boundary, ProductivePass, FreshPass;
    NothingStale(c, now, cfg.heartbeatTtl);
    if Lists(c, l) {
      TickJobs(cfg, c, c, now, l);
      QuietPass(cfg, c, now, l, once);
      GainsTally(c, DoTick(cfg, c, now, l), Snapshot(c, l), TickEnd(cfg, c, now, l), once);
    } else {
      TallyRefl(c, once);
    }
  }

  /** A job that is already active may be reported as running: it weighs and counts the same. */
  lemma RunningTally(c: State, id: JobId, once: bool)
    requires id in c.jobs && c.jobs[id].status.IsActive()
    ensures Tally(c, c.(jobs := UpdateStatus(c.jobs, id, Running)), 0, 0, once)
  {
    var j := c.jobs[id].(status := Running);
    SumUpdate(c.jobs, id, j, WeightOf(|c.jobs|));
    SumUpdate(c.jobs, id, j, OneIfActive());
    assert c.jobs[id := j].Keys == c.jobs.Keys;
    assert |c.jobs[id := j].Keys| == |c.jobs.Keys|;
  }

  lemma QuietStepTally(cfg: Config, c: State, op: Op, once: bool)
    requires RowsOk(c) && QuietStep(cfg, c, op, once)
    ensures Tally(c, Apply(cfg, c, op), StepPlacements(cfg, c, op), StepEvictions(cfg, c, op), once)
    ensures StepEvictions(cfg, c, op) <= Times(StepPlacements(cfg, c, op), |c.jobs|)
  {
    hide DoTick, RowsOk;
    match op
    case RunTick(now, l) => QuietTickTally(cfg, c, now, l, once);
    case Report(id, s) =>
      if id in c.jobs && s == Running {
        RunningTally(c, id, once);
      }
    case _ =>
  }

  lemma TallyAdd(a: State, b: State, c: State, p: nat, q: nat, e: nat, f: nat, once: bool)
    requires Tally(a, b, p, e, once) && Tally(b, c, q, f, once)
    ensures Tally(a, c, p + q, e + f, once)
  {
  }

  lemma TallyRefl(c: State, once: bool)
    ensures Tally(c, c, 0, 0, once)
  {
  }

  lemma QuietRows(cfg: Config, c: State, op: Op, once: bool)
    requires RowsOk(c) && QuietStep(cfg, c, op, once)
    ensures RowsOk(Apply(cfg, c, op))
  {
    hide RowsOk, Apply, QuietTick;
    RowsExact(cfg, c, op);
  }

  lemma {:induction false} QuietRunRows(cfg: Config, c: State, ops: seq<Op>, i: nat, once: bool)
    requires RowsOk(c) && QuietRun(cfg, c, ops, once) && i <= |ops|
    ensures RowsOk(Run(cfg, c, ops[..i]))
    decreases i
  {
    hide RowsOk, Apply, QuietStep;
    if i == 0 {
      assert ops[..0] == [];
    } else {
      QuietRunRows(cfg, c, ops, i - 1, once);
      QuietRows(cfg, Run(cfg, c, ops[..i - 1]), ops[i - 1], once);
      assert ops[..i] == ops[..i - 1] + [ops[i - 1]];
      RunSnoc(cfg, c, ops[..i - 1], ops[i - 1]);
    }
  }

  lemma QuietTallyAt(cfg: Config, c: State, ops: seq<Op>, i: nat, once: bool)
    requires RowsOk(c) && QuietRun(cfg, c, ops, once) && i < |ops|
    ensures Tally(Run(cfg, c, ops[..i]), Run(cfg, c, ops[..i + 1]),
                  PlacementsAt(cfg, c, ops)(i), EvictionsAt(cfg, c, ops)(i), once)
    ensures EvictionsAt(cfg, c, ops)(i) <= Times(PlacementsAt(cfg, c, ops)(i), |Run(cfg, c, ops[..i]).jobs|)
  {
    QuietRunRows(cfg, c, ops, i, once);
    assert ops[..i + 1] == ops[..i] + [ops[i]];
    RunSnoc(cfg, c, ops[..i], ops[i]);
    QuietStepTally(cfg, Run(cfg, c, ops[..i]), ops[i], once);
  }

  /** The tally of the first `i` steps. */
  ghost predicate TallyTo(cfg: Config, c: State, ops: seq<Op>, i: nat, once: bool) {
    i <= |ops|
    && Tally(c, Run(cfg, c, ops[..i]), SumTo(PlacementsAt(cfg, c, ops), i), SumTo(EvictionsAt(cfg, c, ops), i), once)
  }

  lemma SumToStep(f: nat -> nat, i: nat)
    ensures SumTo(f, i + 1) == SumTo(f, i) + f(i)
  {
  }

  lemma TallyStep(cfg: Config, c: State, ops: seq<Op>, i: nat, once: bool)
    requires RowsOk(c) && QuietRun(cfg, c, ops, once) && i < |ops| && TallyTo(cfg, c, ops, i, once)
    ensures TallyTo(cfg, c, ops, i + 1, once)
  {
    var p, e := PlacementsAt(cfg, c, ops), EvictionsAt(cfg, c, ops);
    QuietTallyAt(cfg, c, ops, i, once);
    TallyAdd(c, Run(cfg, c, ops[..i]), Run(cfg, c, ops[..i + 1]), SumTo(p, i), p(i), SumTo(e, i), e(i), once);
    SumToStep(p, i);
    SumToStep(e, i);
  }

  lemma {:induction false} QuietRunTally(cfg: Config, c: State, ops: seq<Op>, i: nat, once: bool)
    requires RowsOk(c) && QuietRun(cfg, c, ops, once) && i <= |ops|
    ensures TallyTo(cfg, c, ops, i, once)
    decreases i
  {
    if i == 0 {
      TallyRefl(c, once);
      assert Run(cfg, c, ops[..0]) == c;
    } else {
      QuietRunTally(cfg, c, ops, i - 1, once);
      TallyStep(cfg, c, ops, i - 1, once);
    }
  }

  lemma {:induction false} SumToBound(p: nat -> nat, e: nat -> nat, n: nat, k: nat)
    requires forall i :: 0 <= i < k ==> e(i) <= Times(p(i), n)
    ensures SumTo(e, k) <= Times(SumTo(p, k), n)
    decreases k
  {
    if k > 0 {
      SumToBound(p, e, n, k - 1);
      TimesAdd(SumTo(p, k - 1), p(k - 1), n);
    }
  }

  /** Each placement of a quiet run evicts at most as many jobs as there are. */
  lemma EvictionsPerPlacement(cfg: Config, c: State, ops: seq<Op>, once: bool)
    requires RowsOk(c) && QuietRun(cfg, c, ops, once)
    ensures RunEvictions(cfg, c, ops) <= RunPlacements(cfg, c, ops) * |c.jobs|
  {
    var p, e := PlacementsAt(cfg, c, ops), EvictionsAt(cfg, c, ops);
    forall i | 0 <= i < |ops|
      ensures e(i) <= Times(p(i), |c.jobs|)
    {
      QuietTallyAt(cfg, c, ops, i, once);
      QuietRunTally(cfg, c, ops, i, once);
    }
    SumToBound(p, e, |c.jobs|, |ops|);
    TimesIsProduct(RunPlacements(cfg, c, ops), |c.jobs|);
  }

  /** A tally can never exceed what the potential leaves room for. */
  lemma TallyBound(c: State, c': State, p: nat, e: nat, once: bool)
    requires RowsOk(c) && RowsOk(c') && Tally(c, c', p, e, once)
    ensures p <= |c.jobs| * Pow(|c.jobs| + 1, MAX_PRIORITY)
    ensures once ==> e <= p + |c.jobs|
  {
    RowsNonNeg(c);
    RowsNonNeg(c');
    PotentialBounds(c.jobs);
    PotentialBounds(c'.jobs);
    ActiveCountBounds(c.jobs);
    ActiveCountBounds(c'.jobs);
  }

  /** Preemption cannot cycle as long as no tick evicts in vain: with n jobs, no quiet run, however
      long and whatever else happens in it, makes more than n(n+1)^10 placements, nor more than n
      evictions per placement. If moreover no tick evicts a job twice, there are at most n more
      evictions than placements. */
  lemma PreemptionEnds(cfg: Config, c: State, ops: seq<Op>, once: bool)
    requires RowsOk(c) && QuietRun(cfg, c, ops, once)
    ensures RunPlacements(cfg, c, ops) <= |c.jobs| * Pow(|c.jobs| + 1, MAX_PRIORITY)
    ensures RunEvictions(cfg, c, ops) <= RunPlacements(cfg, c, ops) * |c.jobs|
    ensures once ==> RunEvictions(cfg, c, ops) <= RunPlacements(cfg, c, ops) + |c.jobs|
  {
    QuietRunTally(cfg, c, ops, |ops|, once);
    QuietRunRows(cfg, c, ops, |ops|, once);
    assert ops[..|ops|] == ops;
    TallyBound(c, Run(cfg, c, ops), RunPlacements(cfg, c, ops), RunEvictions(cfg, c, ops), once);
    EvictionsPerPlacement(cfg, c, ops, once);
  }

  // ----- when ticks do not evict in vain

  /** While the accounts balance, a pass that evicts nobody twice evicts nobody in vain. */
  lemma FreshIsProductive(cfg: Config, c: State, now: real, l: Listing)
    requires Inv(c) && Lists(c, l)
    requires FreshPass(cfg, Snapshot(c, l), TickQueue(cfg, c, now, l), now)
    ensures ProductivePass(cfg, Snapshot(c, l), TickQueue(cfg, c, now, l), now)
  {
    var v, queue := Snapshot(c, l), TickQueue(cfg, c, now, l);
    SnapshotAgrees(c, l);
    QueuePending(cfg, c, now, l);
    forall i | 0 <= i < |queue|
      ensures !Wasted(cfg, Boundary(cfg, v, queue, now, i), queue[i], now)
    {
      FreshLedger(cfg, v, queue, now, c.lost, i);
      FreshStep(cfg, v, queue, now, c.lost, i);
    }
  }

  /** Every queued job that may preempt could be held by every ready node. */
  ghost predicate Capable(cfg: Config, c: State, now: real, l: Listing)
    requires Lists(c, l)
  {
    forall id, n :: id in l.queued && MayPreempt(cfg, c.jobs[id], now) && n in c.nodes && c.nodes[n].status == Ready ==>
      c.nodes[n].cap.Covers(c.jobs[id].req)
  }

  lemma CapableAt(cfg: Config, c: State, now: real, l: Listing, i: nat)
    requires RowsOk(c) && Lists(c, l) && Capable(cfg, c, now, l) && i < |TickQueue(cfg, c, now, l)|
    ensures var queue := TickQueue(cfg, c, now, l);
            !Wasted(cfg, Boundary(cfg, Snapshot(c, l), queue, now, i), queue[i], now)
  {
    var v, queue := Snapshot(c, l), TickQueue(cfg, c, now, l);
    var b := Boundary(cfg, v, queue, now, i);
    SnapshotAgrees(c, l);
    QueuePending(cfg, c, now, l);
    BoundaryStep(cfg, v, queue, now, i);
    PassFates(cfg, v, queue, now, i);
    var p := PlanFor(cfg, b, queue[i], now);
    if p.Some? {
      PlanForSound(cfg, b, queue[i], now);
      var n := b.nodes[p.value.at];
      assert b.rows[n.id] == n && n == c.nodes[n.id].(avail := n.avail);
      assert queue[i] in queue;
    }
  }

  /** If every queued job with the right to preempt could be held by every ready node, no attempt
      of the tick evicts in vain, whatever it evicts twice and whatever the accounts say. */
  lemma CapableIsProductive(cfg: Config, c: State, now: real, l: Listing)
    requires RowsOk(c) && Lists(c, l) && Capable(cfg, c, now, l)
    ensures ProductivePass(cfg, Snapshot(c, l), TickQueue(cfg, c, now, l), now)
  {
    var queue := TickQueue(cfg, c, now, l);
    forall i | 0 <= i < |queue|
      ensures !Wasted(cfg, Boundary(cfg, Snapshot(c, l), queue, now, i), queue[i], now)
    {
      CapableAt(cfg, c, now, l, i);
    }
  }

  // ----- runs that evict nobody twice

  /** A step of a run that changes nothing the accounts do not know of. */
  ghost predicate FreshQuietStep(cfg: Config, c: State, op: Op) {
    match op
    case Register(n, _, cap, _) => RegisterHarmless(c, n, cap)
    case RunTick(now, l) =>
      && (forall n :: n in c.nodes ==> !Stale(c.nodes[n], now, cfg.heartbeatTtl))
      && (Lists(c, l) ==> FreshPass(cfg, Snapshot(c, l), TickQueue(cfg, c, now, l), now))
    case _ => QuietStep(cfg, c, op, true)
  }

  ghost predicate FreshQuietRun(cfg: Config, c: State, ops: seq<Op>) {
    forall i :: 0 <= i < |ops| ==> FreshQuietStep(cfg, Run(cfg, c, ops[..i]), ops[i])
  }

  lemma FreshStepIsQuiet(cfg: Config, c: State, op: Op)
    requires Inv(c) && FreshQuietStep(cfg, c, op)
    ensures QuietStep(cfg, c, op, true) && Inv(Apply(cfg, c, op))
  {
    match op
    case RunTick(now, l) =>
      if Lists(c, l) {
        FreshIsProductive(cfg, c, now, l);
      }
      NothingStale(c, now, cfg.heartbeatTtl);
      FreshTickHarmless(cfg, c, now, l);
      TickInv(cfg, c, now, l);
    case _ => StepExact(cfg, c, op);
  }

  lemma FreshInvStep(cfg: Config, c: State, ops: seq<Op>, i: nat)
    requires FreshQuietRun(cfg, c, ops) && i < |ops| && Inv(Run(cfg, c, ops[..i]))
    ensures Inv(Run(cfg, c, ops[..i + 1])) && QuietStep(cfg, Run(cfg, c, ops[..i]), ops[i], true)
  {
    assert ops[..i + 1] == ops[..i] + [ops[i]];
    RunSnoc(cfg, c, ops[..i], ops[i]);
    FreshStepIsQuiet(cfg, Run(cfg, c, ops[..i]), ops[i]);
  }

  lemma {:induction false} FreshRunInv(cfg: Config, c: State, ops: seq<Op>, i: nat)
    requires Inv(c) && FreshQuietRun(cfg, c, ops) && i <= |ops|
    ensures Inv(Run(cfg, c, ops[..i]))
    decreases i
  {
    if i == 0 {
      assert Run(cfg, c, ops[..0]) == c;
    } else {
      FreshRunInv(cfg, c, ops, i - 1);
      FreshInvStep(cfg, c, ops, i - 1);
    }
  }

  lemma FreshRunIsQuiet(cfg: Config, c: State, ops: seq<Op>)
    requires Inv(c) && FreshQuietRun(cfg, c, ops)
    ensures QuietRun(cfg, c, ops, true)
  {
    forall i | 0 <= i < |ops|
      ensures QuietStep(cfg, Run(cfg, c, ops[..i]), ops[i], true)
    {
      FreshRunInv(cfg, c, ops, i);
      FreshInvStep(cfg, c, ops, i);
    }
  }

  /** Starting with balanced accounts, not evicting anybody twice in a tick is enough for both
      bounds. */
  lemma FreshPreemptionEnds(cfg: Config, c: State, ops: seq<Op>)
    requires Inv(c) && FreshQuietRun(cfg, c, ops)
    ensures RunPlacements(cfg, c, ops) <= |c.jobs| * Pow(|c.jobs| + 1, MAX_PRIORITY)
    ensures RunEvictions(cfg, c, ops) <= RunPlacements(cfg, c, ops) + |c.jobs|
  {
    FreshRunIsQuiet(cfg, c, ops);
    PreemptionEnds(cfg, c, ops, true);
  }
}
