/** The order in which a tick tries the queue (internal/scheduler/strategies.go). */
module Ordering {
  import opened Sorting
  import opened Model
  import opened Placement

  /** Go's conversion of a float to an int: truncation toward zero. */
  function Trunc(x: real): int {
    if x >= 0.0 then x.Floor else -((-x).Floor)
  }

  function WaitMinutes(j: Job, now: real): real {
    var w := (now - j.createdAt) / 60.0;
    if w < 0.0 then 0.0 else w
  }

  /** Base priority plus `f` points for each minute waited. */
  function EffectivePriority(j: Job, now: real, f: real): int {
    j.priority + Trunc(WaitMinutes(j, now) * f)
  }

  /** What waiting is worth: nothing before the job exists, and afterwards the waited minutes times
      `f`, rounded toward zero. */
  lemma AgingRounds(j: Job, now: real, f: real)
    ensures now <= j.createdAt ==> EffectivePriority(j, now, f) == j.priority
    ensures now >= j.createdAt ==>
              var earned := EffectivePriority(j, now, f) - j.priority;
              var exact := (now - j.createdAt) / 60.0 * f;
              if exact >= 0.0 then earned as real <= exact < earned as real + 1.0
              else earned as real - 1.0 < exact <= earned as real
  {
    if now <= j.createdAt {
      assert WaitMinutes(j, now) * f == 0.0 by {
        assert WaitMinutes(j, now) == 0.0;
      }
    } else {
      assert WaitMinutes(j, now) == (now - j.createdAt) / 60.0;
    }
  }

  predicate CreatedBefore(a: Job, b: Job) {
    a.createdAt < b.createdAt
  }

  predicate PriorityBefore(a: Job, b: Job, now: real, f: real) {
    var ea, eb := EffectivePriority(a, now, f), EffectivePriority(b, now, f);
    if ea != eb then ea > eb else a.createdAt < b.createdAt
  }

  /** A team without active jobs has no entry and counts as zero. */
  function TeamShare(shares: map<string, real>, team: string): real {
    if team in shares then shares[team] else 0.0
  }

  predicate FairBefore(a: Job, b: Job, now: real, f: real, shares: map<string, real>) {
    var sa, sb := TeamShare(shares, a.teamId), TeamShare(shares, b.teamId);
    if sa != sb then sa < sb else PriorityBefore(a, b, now, f)
  }

  function Before(alg: Algorithm, now: real, f: real, shares: map<string, real>): (Job, Job) -> bool {
    match alg
    case FirstFit => CreatedBefore
    case BestFit => CreatedBefore
    case Priority => (a: Job, b: Job) => PriorityBefore(a, b, now, f)
    case FairShare => (a: Job, b: Job) => FairBefore(a, b, now, f, shares)
  }

  /** The sequence in which an algorithm tries the queued jobs. */
  function Order(alg: Algorithm, jobs: seq<Job>, now: real, f: real, shares: map<string, real>): seq<Job> {
    StableSort(jobs, Before(alg, now, f, shares))
  }

  lemma BeforeIsSortOrder(alg: Algorithm, now: real, f: real, shares: map<string, real>)
    ensures SortOrder(Before(alg, now, f, shares))
  {
  }

  /** For every algorithm the tried sequence is a permutation of the queue, and a job that must
      come before another does. */
  lemma OrderRespects(alg: Algorithm, jobs: seq<Job>, now: real, f: real, shares: map<string, real>, i: nat, j: nat)
    requires i < |jobs| && j < |jobs|
    requires var out := Order(alg, jobs, now, f, shares); Before(alg, now, f, shares)(out[i], out[j])
    ensures i < j
    ensures multiset(Order(alg, jobs, now, f, shares)) == multiset(jobs)
  {
    var less := Before(alg, now, f, shares);
    BeforeIsSortOrder(alg, now, f, shares);
    SortSorts(jobs, less);
    var out := Order(alg, jobs, now, f, shares);
    assert Sorted(out, less);
    assert !less(out[j], out[i]);
  }

  // ----- bounded overtaking

  lemma FloorShift(x: real, y: real, k: int)
    requires x >= y + k as real
    ensures x.Floor >= y.Floor + k
  {
  }

  /** The priority points that waiting `gap` seconds is worth. */
  function Points(gap: real, f: real): real {
    (gap / 60.0) * f
  }

  lemma PointsNonNeg(gap: real, f: real)
    requires gap >= 0.0 && f >= 0.0
    ensures Points(gap, f) >= 0.0
  {
  }

  lemma PointsAdd(ca: real, cb: real, now: real, f: real)
    ensures Points(now - ca, f) == Points(now - cb, f) + Points(cb - ca, f)
  {
    var x, y := (now - cb) / 60.0, (cb - ca) / 60.0;
    assert (now - ca) / 60.0 == x + y;
    assert (x + y) * f == x * f + y * f;
  }

  lemma EffectiveIs(j: Job, now: real, f: real)
    requires f >= 0.0 && j.createdAt <= now
    ensures EffectivePriority(j, now, f) == j.priority + Points(now - j.createdAt, f).Floor
    ensures Points(now - j.createdAt, f) >= 0.0
  {
    PointsNonNeg(now - j.createdAt, f);
  }

  /** The head start of `a` over `b`, in priority points. */
  function HeadStart(a: Job, b: Job, f: real): real {
    Points(b.createdAt - a.createdAt, f)
  }

  /** `a` is tried before `b` at every moment at which both exist. */
  ghost predicate AlwaysAhead(a: Job, b: Job, f: real) {
    forall now: real :: a.createdAt <= now && b.createdAt <= now ==> PriorityBefore(a, b, now, f)
  }

  lemma AheadWithHeadStart(a: Job, b: Job, f: real, now: real)
    requires f > 0.0
    requires a.createdAt < b.createdAt <= now
    requires HeadStart(a, b, f) >= (b.priority - a.priority) as real
    ensures PriorityBefore(a, b, now, f)
  {
    EffectiveIs(a, now, f);
    EffectiveIs(b, now, f);
    PointsAdd(a.createdAt, b.createdAt, now, f);
    FloorShift(Points(now - a.createdAt, f), Points(now - b.createdAt, f), b.priority - a.priority);
  }

  lemma BehindWithoutHeadStart(a: Job, b: Job, f: real)
    requires f > 0.0
    requires a.createdAt < b.createdAt
    requires HeadStart(a, b, f) < (b.priority - a.priority) as real
    ensures !PriorityBefore(a, b, b.createdAt, f)
  {
    EffectiveIs(a, b.createdAt, f);
    EffectiveIs(b, b.createdAt, f);
    assert Points(0.0, f) == 0.0;
  }

  lemma BehindWhenYounger(a: Job, b: Job, f: real)
    requires f > 0.0 && a.priority <= b.priority
    requires a.createdAt >= b.createdAt
    ensures !PriorityBefore(a, b, a.createdAt, f)
  {
    EffectiveIs(a, a.createdAt, f);
    EffectiveIs(b, a.createdAt, f);
    assert Points(0.0, f) == 0.0;
  }

  /** A job is never overtaken by one of equal or higher priority exactly when that one arrives
      later by at least the minutes its priority lead is worth, despite the truncation. */
  lemma NeverOvertaken(a: Job, b: Job, f: real)
    requires f > 0.0 && a.priority <= b.priority
    ensures AlwaysAhead(a, b, f)
       <==> a.createdAt < b.createdAt && HeadStart(a, b, f) >= (b.priority - a.priority) as real
  {
    if a.createdAt >= b.createdAt {
      BehindWhenYounger(a, b, f);
    } else if HeadStart(a, b, f) < (b.priority - a.priority) as real {
      BehindWithoutHeadStart(a, b, f);
    } else {
      forall now: real | a.createdAt <= now && b.createdAt <= now
        ensures PriorityBefore(a, b, now, f)
      {
        AheadWithHeadStart(a, b, f, now);
      }
    }
  }

  lemma WindowInPoints(gap: real, f: real, points: real)
    requires f > 0.0 && gap / 60.0 >= points / f
    ensures Points(gap, f) >= points
  {
    var x, y := gap / 60.0, points / f;
    assert y * f == points;
    assert (x - y) * f >= 0.0;
  }

  /** With priorities from 0 to 10, a job that arrives 10/f minutes or more after another is
      tried after it by every later tick, wherever both stand in the queue. */
  lemma OvertakingWindow(jobs: seq<Job>, now: real, f: real, i: nat, j: nat)
    requires f > 0.0 && i < |jobs| && j < |jobs|
    requires var out := Order(Priority, jobs, now, f, map[]);
             && 0 <= out[i].priority <= 10 && 0 <= out[j].priority <= 10
             && out[i].createdAt < out[j].createdAt <= now
             && (out[j].createdAt - out[i].createdAt) / 60.0 >= 10.0 / f
    ensures i < j
  {
    var out := Order(Priority, jobs, now, f, map[]);
    WindowAhead(out[i], out[j], f, now);
    OrderRespects(Priority, jobs, now, f, map[], i, j);
  }

  lemma WindowAhead(a: Job, b: Job, f: real, now: real)
    requires f > 0.0 && 0 <= a.priority <= 10 && 0 <= b.priority <= 10
    requires a.createdAt < b.createdAt <= now
    requires (b.createdAt - a.createdAt) / 60.0 >= 10.0 / f
    ensures PriorityBefore(a, b, now, f)
  {
    WindowInPoints(b.createdAt - a.createdAt, f, 10.0);
    assert (b.priority - a.priority) as real <= 10.0;
    AheadWithHeadStart(a, b, f, now);
  }

  // ----- the Order methods stamp the effective priority once, then sort

  datatype Stamped = Stamped(job: Job, effective: int)

  predicate StampedBefore(a: Stamped, b: Stamped) {
    if a.effective != b.effective then a.effective > b.effective else a.job.createdAt < b.job.createdAt
  }

  function Stamp(jobs: seq<Job>, now: real, f: real): (r: seq<Stamped>)
    ensures |r| == |jobs|
  {
    if jobs == [] then [] else [Stamped(jobs[0], EffectivePriority(jobs[0], now, f))] + Stamp(jobs[1..], now, f)
  }

  lemma {:induction false} StampAt(jobs: seq<Job>, now: real, f: real, k: nat)
    requires k < |jobs|
    ensures Stamp(jobs, now, f)[k] == Stamped(jobs[k], EffectivePriority(jobs[k], now, f))
    decreases k
  {
    if k > 0 {
      StampAt(jobs[1..], now, f, k - 1);
    }
  }

  lemma StampCons(x: Job, rest: seq<Job>, now: real, f: real)
    ensures Stamp([x] + rest, now, f) == [StampOf(x, now, f)] + Stamp(rest, now, f)
  {
    assert ([x] + rest)[1..] == rest;
  }

  function StampOf(j: Job, now: real, f: real): Stamped {
    Stamped(j, EffectivePriority(j, now, f))
  }

  lemma StampOrder(a: Job, b: Job, now: real, f: real)
    ensures StampedBefore(StampOf(a, now, f), StampOf(b, now, f)) <==> Before(Priority, now, f, map[])(a, b)
  {
    hide EffectivePriority;
  }

  lemma {:induction false} StampInsert(x: Job, ys: seq<Job>, now: real, f: real)
    ensures Insert(StampOf(x, now, f), Stamp(ys, now, f), StampedBefore)
         == Stamp(Insert(x, ys, Before(Priority, now, f, map[])), now, f)
    decreases ys
  {
    var less := Before(Priority, now, f, map[]);
    if ys == [] {
      StampCons(x, ys, now, f);
      assert [x] + ys == [x];
    } else {
      var y, rest := ys[0], ys[1..];
      assert ys == [y] + rest;
      StampInsert(x, rest, now, f);
      hide Insert, Stamp, Before, StampedBefore, StampOf;
      InsertCons(x, y, rest, less);
      InsertCons(StampOf(x, now, f), StampOf(y, now, f), Stamp(rest, now, f), StampedBefore);
      StampOrder(y, x, now, f);
      StampCons(y, rest, now, f);
      StampCons(x, ys, now, f);
      StampCons(y, Insert(x, rest, less), now, f);
    }
  }

  /** Sorting by the stamps gives the jobs in the order of their effective priorities. */
  lemma {:induction false} StampSort(jobs: seq<Job>, now: real, f: real)
    ensures StableSort(Stamp(jobs, now, f), StampedBefore) == Stamp(Order(Priority, jobs, now, f, map[]), now, f)
    decreases jobs
  {
    hide EffectivePriority;
    if jobs != [] {
      StampSort(jobs[1..], now, f);
      StampInsert(jobs[0], Order(Priority, jobs[1..], now, f, map[]), now, f);
      assert Stamp(jobs, now, f)[1..] == Stamp(jobs[1..], now, f);
    }
  }

  method StampAll(jobs: seq<Job>, now: real, f: real) returns (stamped: seq<Stamped>)
    ensures stamped == Stamp(jobs, now, f)
  {
    stamped := [];
    for k := 0 to |jobs|
      invariant |stamped| == k
      invariant forall i :: 0 <= i < k ==> stamped[i] == Stamped(jobs[i], EffectivePriority(jobs[i], now, f))
    {
      stamped := stamped + [Stamped(jobs[k], EffectivePriority(jobs[k], now, f))];
    }
    forall i | 0 <= i < |jobs| ensures Stamp(jobs, now, f)[i] == stamped[i] { StampAt(jobs, now, f, i); }
  }

  method Unstamp(stamped: seq<Stamped>) returns (jobs: seq<Job>)
    ensures |jobs| == |stamped|
    ensures forall i :: 0 <= i < |jobs| ==> jobs[i] == stamped[i].job
  {
    jobs := [];
    for k := 0 to |stamped|
      invariant |jobs| == k
      invariant forall i :: 0 <= i < k ==> jobs[i] == stamped[i].job
    {
      jobs := jobs + [stamped[k].job];
    }
  }

  lemma StampInjective(jobs: seq<Job>, goal: seq<Job>, now: real, f: real)
    requires |jobs| == |goal|
    requires forall i :: 0 <= i < |jobs| ==> jobs[i] == Stamp(goal, now, f)[i].job
    ensures jobs == goal
  {
    forall i | 0 <= i < |goal| ensures jobs[i] == goal[i] { StampAt(goal, now, f, i); }
  }

  method PriorityOrder(jobs: seq<Job>, now: real, f: real) returns (out: seq<Job>)
    ensures out == Order(Priority, jobs, now, f, map[])
  {
    var stamped := StampAll(jobs, now, f);
    var sorted := StableSort(stamped, StampedBefore);
    out := Unstamp(sorted);
    StampSort(jobs, now, f);
    StampInjective(out, Order(Priority, jobs, now, f, map[]), now, f);
  }
}
