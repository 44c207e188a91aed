/** Leader election by an expiring Redis key, as a timed transition system
    (internal/redisx/leader.go). Times count seconds. */
module Lease {

  type Replica = string

  /** The lock key; an expired key counts as absent. */
  datatype Key = Absent | Held(owner: Replica, expiry: real) {
    predicate Live(now: real) {
      Held? && now < expiry
    }

    predicate LiveFor(r: Replica, now: real) {
      Live(now) && owner == r
    }
  }

  // ----- the three Redis calls, each atomic

  /** SET NX PX: takes the key if nobody holds it. */
  function SetNX(key: Key, now: real, r: Replica, ttl: real): (Key, bool) {
    if key.Live(now) then (key, false) else (Held(r, now + ttl), true)
  }

  /** Extends the lease only for its owner. */
  function RenewScript(key: Key, now: real, r: Replica, ttl: real): (Key, bool) {
    if key.LiveFor(r, now) then (Held(r, now + ttl), true) else (key, false)
  }

  /** Deletes the key only for its owner. */
  function ReleaseScript(key: Key, now: real, r: Replica): Key {
    if key.LiveFor(r, now) then Absent else key
  }

  // ----- replicas

  /** Where a replica stands: between attempts; inside `lead`; inside `lead` with its context
      cancelled at some time; or past `lead`, about to release. `lastOk` is the time of its last
      acknowledged acquire or renewal. */
  datatype Phase =
    | Standby
    | Leading(lastOk: real)
    | Stopping(lastOk: real, cancelledAt: real)
    | Returned

  datatype World = World(now: real, key: Key, phases: map<Replica, Phase>) {
    function PhaseOf(r: Replica): Phase {
      if r in phases then phases[r] else Standby
    }

    /** The replica is inside `lead`. */
    predicate Inside(r: Replica) {
      PhaseOf(r).Leading? || PhaseOf(r).Stopping?
    }

    function LastOk(r: Replica): real
      requires Inside(r)
    {
      PhaseOf(r).lastOk
    }

    /** Still inside `lead` although its lease has run out. */
    predicate Overstayed(r: Replica, ttl: real) {
      Inside(r) && now >= LastOk(r) + ttl
    }

    function With(r: Replica, p: Phase): World {
      this.(phases := phases[r := p])
    }
  }

  datatype Event =
    | Wait(d: real)
    | Acquire(r: Replica)
    | AcquireReplyLost(r: Replica)
    | Renew(r: Replica)
    | RenewReplyLost(r: Replica)
    | Cancel(r: Replica)
    | LeadReturns(r: Replica)
    | Release(r: Replica)
    | ReleaseNotSent(r: Replica)
    | LateRenew(r: Replica)
    | Crash(r: Replica)

  /** One step; an event that the replica's phase does not allow changes nothing. */
  function Step(w: World, e: Event, ttl: real): World {
    match e
    case Wait(d) => if d >= 0.0 then w.(now := w.now + d) else w
    case Acquire(r) =>
      if !w.PhaseOf(r).Standby? then w
      else
        var (key, ok) := SetNX(w.key, w.now, r, ttl);
        if ok then w.(key := key).With(r, Leading(w.now)) else w
    case AcquireReplyLost(r) =>
      if !w.PhaseOf(r).Standby? then w else w.(key := SetNX(w.key, w.now, r, ttl).0)
    case Renew(r) =>
      if !w.PhaseOf(r).Leading? then w
      else
        var (key, ok) := RenewScript(w.key, w.now, r, ttl);
        if ok then w.(key := key).With(r, Leading(w.now)) else w.With(r, Stopping(w.PhaseOf(r).lastOk, w.now))
    case RenewReplyLost(r) =>
      if !w.PhaseOf(r).Leading? then w
      else w.(key := RenewScript(w.key, w.now, r, ttl).0).With(r, Stopping(w.PhaseOf(r).lastOk, w.now))
    case Cancel(r) =>
      if !w.PhaseOf(r).Leading? then w else w.With(r, Stopping(w.PhaseOf(r).lastOk, w.now))
    case LeadReturns(r) => if !w.Inside(r) then w else w.With(r, Returned)
    case Release(r) =>
      if !w.PhaseOf(r).Returned? then w else w.(key := ReleaseScript(w.key, w.now, r)).With(r, Standby)
    case ReleaseNotSent(r) => if !w.PhaseOf(r).Returned? then w else w.With(r, Standby)
    case LateRenew(r) => w.(key := RenewScript(w.key, w.now, r, ttl).0)
    case Crash(r) => w.With(r, Standby)
  }

  function Run(w: World, es: seq<Event>, ttl: real): World
    decreases es
  {
    if es == [] then w else Run(Step(w, es[0], ttl), es[1..], ttl)
  }

  predicate Start(w: World) {
    w.key == Absent && w.phases == map[]
  }

  // ----- safety

  /** Whoever is inside `lead` within the lease time of its last acknowledgement owns the key, for
      at least that long. */
  ghost predicate LeaseInv(w: World, ttl: real) {
    forall r :: w.Inside(r) ==>
      && w.LastOk(r) <= w.now
      && (w.now < w.LastOk(r) + ttl ==> w.key.Held? && w.key.owner == r && w.key.expiry >= w.LastOk(r) + ttl)
  }

  lemma StepInv(w: World, e: Event, ttl: real)
    requires LeaseInv(w, ttl)
    ensures LeaseInv(Step(w, e, ttl), ttl)
  {
    var w' := Step(w, e, ttl);
    forall r | w'.Inside(r)
      ensures w'.LastOk(r) <= w'.now
      ensures w'.now < w'.LastOk(r) + ttl ==>
                w'.key.Held? && w'.key.owner == r && w'.key.expiry >= w'.LastOk(r) + ttl
    {
      assert w.Inside(r) ==> w.LastOk(r) <= w.now;
    }
  }

  lemma {:induction false} RunInv(w: World, es: seq<Event>, ttl: real)
    requires LeaseInv(w, ttl)
    ensures LeaseInv(Run(w, es, ttl), ttl)
    decreases es
  {
    if es != [] {
      StepInv(w, es[0], ttl);
      RunInv(Step(w, es[0], ttl), es[1..], ttl);
    }
  }

  /** Over all timed runs: if two replicas are inside `lead` at once, one of them has been there
      past the lease time of its last acknowledged acquire or renewal. */
  lemma MutualExclusion(w: World, es: seq<Event>, ttl: real, p: Replica, q: Replica)
    requires Start(w)
    requires p != q && Run(w, es, ttl).Inside(p) && Run(w, es, ttl).Inside(q)
    ensures Run(w, es, ttl).Overstayed(p, ttl) || Run(w, es, ttl).Overstayed(q, ttl)
  {
    RunInv(w, es, ttl);
  }

  /** A second leader appears exactly when the key is free while somebody is inside; that somebody
      has then overstayed, and the acquire makes two. */
  lemma SecondLeaderIff(w: World, es: seq<Event>, ttl: real, q: Replica)
    requires Start(w)
    requires !Run(w, es, ttl).Inside(q)
    ensures var w1 := Run(w, es, ttl);
            var w2 := Step(w1, Acquire(q), ttl);
            var two := w2.Inside(q) && exists r :: r != q && w2.Inside(r);
            var late := w1.PhaseOf(q).Standby? && !w1.key.Live(w1.now) && exists r :: r != q && w1.Overstayed(r, ttl);
            two <==> late
  {
    RunInv(w, es, ttl);
    var w1 := Run(w, es, ttl);
    var w2 := Step(w1, Acquire(q), ttl);
    assert forall r :: r != q ==> (w1.Inside(r) <==> w2.Inside(r));
    if w2.Inside(q) && exists r :: r != q && w2.Inside(r) {
      var r :| r != q && w2.Inside(r);
      assert w1.Overstayed(r, ttl);
    }
    if exists r :: r != q && w1.Overstayed(r, ttl) {
      var r :| r != q && w1.Overstayed(r, ttl);
      assert w2.Inside(r) || !w1.PhaseOf(q).Standby? || w1.key.Live(w1.now);
    }
  }

  function Actor(e: Event): Replica
    requires !e.Wait?
  {
    e.r
  }

  /** While a replica leads within its lease, no step of any other replica touches its key. */
  lemma OthersCannotTouch(w: World, es: seq<Event>, ttl: real, r: Replica, e: Event)
    requires Start(w)
    requires Run(w, es, ttl).Inside(r) && !Run(w, es, ttl).Overstayed(r, ttl)
    requires e.Wait? || Actor(e) != r
    ensures Step(Run(w, es, ttl), e, ttl).key == Run(w, es, ttl).key
    ensures Step(Run(w, es, ttl), e, ttl).PhaseOf(r) == Run(w, es, ttl).PhaseOf(r)
  {
    RunInv(w, es, ttl);
  }

  // ----- prompt replicas

  /** A leading replica hears about a renewal, or is cancelled, within `renew` of its last
      acknowledgement; a cancelled one leaves `lead` within `stop`. */
  predicate Prompt(w: World, renew: real, stop: real) {
    forall r :: r in w.phases ==>
      match w.phases[r]
      case Leading(lastOk) => w.now <= lastOk + renew
      case Stopping(_, cancelledAt) => w.now <= cancelledAt + stop
      case Standby => true
      case Returned => true
  }

  predicate PromptRun(w: World, es: seq<Event>, ttl: real, renew: real, stop: real)
    decreases es
  {
    Prompt(w, renew, stop) && (es == [] || PromptRun(Step(w, es[0], ttl), es[1..], ttl, renew, stop))
  }

  /** Cancellation came in time. */
  predicate CancelledInTime(w: World, renew: real) {
    forall r :: r in w.phases && w.phases[r].Stopping? ==> w.phases[r].cancelledAt <= w.phases[r].lastOk + renew
  }

  lemma PromptStep(w: World, e: Event, ttl: real, renew: real, stop: real)
    requires CancelledInTime(w, renew) && Prompt(w, renew, stop)
    ensures CancelledInTime(Step(w, e, ttl), renew)
  {
    var w' := Step(w, e, ttl);
    forall r | r in w'.phases && w'.phases[r].Stopping?
      ensures w'.phases[r].cancelledAt <= w'.phases[r].lastOk + renew
    {
      assert r in w.phases;
    }
  }

  lemma {:induction false} PromptRunEnds(w: World, es: seq<Event>, ttl: real, renew: real, stop: real)
    requires CancelledInTime(w, renew) && PromptRun(w, es, ttl, renew, stop)
    ensures CancelledInTime(Run(w, es, ttl), renew) && Prompt(Run(w, es, ttl), renew, stop)
    decreases es
  {
    hide Step, CancelledInTime, Prompt;
    if es != [] {
      PromptStep(w, es[0], ttl, renew, stop);
      PromptRunEnds(Step(w, es[0], ttl), es[1..], ttl, renew, stop);
    }
  }

  /** If renewals are heard within `renew`, `lead` stops within `stop`, and the two together are
      shorter than the lease, at most one replica is inside `lead`, in every run. */
  lemma PromptReplicasExclude(w: World, es: seq<Event>, ttl: real, renew: real, stop: real, p: Replica, q: Replica)
    requires Start(w) && PromptRun(w, es, ttl, renew, stop) && renew >= 0.0 && stop >= 0.0 && renew + stop < ttl
    requires Run(w, es, ttl).Inside(p) && Run(w, es, ttl).Inside(q)
    ensures p == q
  {
    PromptRunEnds(w, es, ttl, renew, stop);
    if p != q {
      MutualExclusion(w, es, ttl, p, q);
    }
  }

  // ----- failover

  /** How often a standby retries: a third of the lease, but at least a second. */
  function AcquireInterval(ttl: real): (a: real)
    ensures a >= 1.0 && 3.0 * a >= ttl && (a == 1.0 || 3.0 * a == ttl)
  {
    if ttl / 3.0 < 1.0 then 1.0 else ttl / 3.0
  }

  predicate Attempts(w: World, e: Event, q: Replica) {
    (e == Acquire(q) || e == AcquireReplyLost(q)) && w.PhaseOf(q).Standby?
  }

  /** The step puts the key into the hands of a new owner. */
  predicate Takes(w: World, e: Event) {
    (e.Acquire? || e.AcquireReplyLost?) && w.PhaseOf(e.r).Standby? && !w.key.Live(w.now)
  }

  /** Throughout the run, `q` is a standby whose last attempt is never longer than `a` ago;
      `since` is how long ago it was at the start. */
  predicate LiveStandby(w: World, es: seq<Event>, ttl: real, q: Replica, a: real, since: real)
    decreases es
  {
    && 0.0 <= since <= a && w.PhaseOf(q).Standby?
    && (es == [] ||
        var w' := Step(w, es[0], ttl);
        if es[0].Wait? then LiveStandby(w', es[1..], ttl, q, a, since + (w'.now - w.now))
        else if Takes(w, es[0]) then true
        else LiveStandby(w', es[1..], ttl, q, a, if Attempts(w, es[0], q) then 0.0 else since))
  }

  /** `o` renews no more. */
  predicate NoRenewals(es: seq<Event>, o: Replica) {
    forall e :: e in es ==> !(e == Renew(o) || e == RenewReplyLost(o) || e == LateRenew(o))
  }

  /** The key, if held, runs out by `deadline`, and its owner is `o`. */
  predicate RunsOut(key: Key, o: Replica, deadline: real) {
    key.Held? ==> key.owner == o && key.expiry <= deadline
  }

  lemma StepRunsOut(w: World, e: Event, ttl: real, o: Replica, deadline: real)
    requires RunsOut(w.key, o, deadline) && !Takes(w, e)
    requires !(e == Renew(o) || e == RenewReplyLost(o) || e == LateRenew(o))
    ensures RunsOut(Step(w, e, ttl).key, o, deadline)
  {
  }

  /** If the owner stops renewing a key that runs out by `deadline`, and a standby keeps trying at
      intervals of at most `a`, some replica takes the key by `deadline + a`. */
  lemma {:induction false} FailoverBy(w: World, es: seq<Event>, ttl: real, o: Replica, q: Replica, a: real, since: real,
                                      deadline: real) returns (k: nat)
    requires RunsOut(w.key, o, deadline) && NoRenewals(es, o)
    requires LiveStandby(w, es, ttl, q, a, since)
    requires w.now - since < deadline
    requires Run(w, es, ttl).now >= deadline + a
    ensures k < |es| && Takes(Run(w, es[..k], ttl), es[k]) && Run(w, es[..k], ttl).now <= deadline + a
    decreases es
  {
    var e := es[0];
    assert e in es;
    if Takes(w, e) {
      k := 0;
      assert es[..0] == [];
    } else {
      var w' := Step(w, e, ttl);
      StepRunsOut(w, e, ttl, o, deadline);
      assert forall x :: x in es[1..] ==> x in es;
      var since' := if e.Wait? then since + (w'.now - w.now) else if Attempts(w, e, q) then 0.0 else since;
      k := FailoverBy(w', es[1..], ttl, o, q, a, since', deadline);
      assert es[..k + 1][1..] == es[1..][..k];
      k := k + 1;
    }
  }

  /** No lease outlives the lease time. */
  predicate RunsOutInTime(w: World, ttl: real) {
    w.key.Held? ==> w.key.expiry <= w.now + ttl
  }

  lemma {:induction false} LeasesRunOut(w: World, es: seq<Event>, ttl: real)
    requires RunsOutInTime(w, ttl)
    ensures RunsOutInTime(Run(w, es, ttl), ttl)
    decreases es
  {
    if es != [] {
      LeasesRunOut(Step(w, es[0], ttl), es[1..], ttl);
    }
  }

  /** Failover, from any reachable world: if the owner renews no more, and a live standby retries at
      its acquire interval, some replica holds a new lease after at most the lease time plus that
      interval; and if no reply to an acquire is lost, that replica then leads. */
  lemma Failover(w0: World, es0: seq<Event>, es: seq<Event>, ttl: real, o: Replica, q: Replica, since: real)
    returns (k: nat)
    requires ttl > 0.0 && Start(w0)
    requires var w := Run(w0, es0, ttl);
             && (w.key.Held? ==> w.key.owner == o) && NoRenewals(es, o)
             && LiveStandby(w, es, ttl, q, AcquireInterval(ttl), since)
             && Run(w, es, ttl).now >= w.now + ttl + AcquireInterval(ttl)
    ensures var w := Run(w0, es0, ttl);
            && k < |es| && Takes(Run(w, es[..k], ttl), es[k])
            && Run(w, es[..k], ttl).now <= w.now + ttl + AcquireInterval(ttl)
            && ((forall e :: e in es ==> !e.AcquireReplyLost?) ==>
                  Step(Run(w, es[..k], ttl), es[k], ttl).Inside(es[k].r))
  {
    var w := Run(w0, es0, ttl);
    LeasesRunOut(w0, es0, ttl);
    k := FailoverBy(w, es, ttl, o, q, AcquireInterval(ttl), since, w.now + ttl);
    assert es[k] in es;
  }

  // ----- keeping and handing over the lead

  /** The run holds a renewal by `r` before `due`, and again within every lease time after that, and
      nothing makes `r` stop: no lost reply, no cancellation, no return and no crash. */
  predicate KeepsRenewing(w: World, es: seq<Event>, ttl: real, r: Replica, due: real)
    decreases es
  {
    && w.now < due
    && (es == [] ||
        (&& es[0] !in {RenewReplyLost(r), Cancel(r), LeadReturns(r), Crash(r)}
         && KeepsRenewing(Step(w, es[0], ttl), es[1..], ttl, r, if es[0] == Renew(r) then w.now + ttl else due)))
  }

  ghost predicate LeadsUntil(w: World, ttl: real, r: Replica, due: real) {
    LeaseInv(w, ttl) && w.PhaseOf(r).Leading? && w.LastOk(r) + ttl == due
  }

  lemma RenewalCounts(w: World, e: Event, ttl: real, r: Replica, due: real)
    requires LeadsUntil(w, ttl, r, due) && w.now < due && e !in {RenewReplyLost(r), Cancel(r), LeadReturns(r), Crash(r)}
    ensures LeadsUntil(Step(w, e, ttl), ttl, r, if e == Renew(r) then w.now + ttl else due)
  {
    StepInv(w, e, ttl);
    assert w.Inside(r);
  }

  /** A leader that renews within every lease time leads as long as it does, whatever the others try,
      and owns the key all the while. */
  lemma {:induction false} LeaderStays(w: World, es: seq<Event>, ttl: real, r: Replica, due: real)
    requires LeadsUntil(w, ttl, r, due) && KeepsRenewing(w, es, ttl, r, due)
    ensures Run(w, es, ttl).PhaseOf(r).Leading? && Run(w, es, ttl).key.LiveFor(r, Run(w, es, ttl).now)
    decreases es
  {
    hide Step, LeaseInv;
    if es == [] {
      LeaderOwns(w, ttl, r, due);
    } else {
      RenewalCounts(w, es[0], ttl, r, due);
      LeaderStays(Step(w, es[0], ttl), es[1..], ttl, r, if es[0] == Renew(r) then w.now + ttl else due);
    }
  }

  lemma LeaderOwns(w: World, ttl: real, r: Replica, due: real)
    requires LeadsUntil(w, ttl, r, due) && w.now < due
    ensures w.key.LiveFor(r, w.now)
  {
    assert w.Inside(r);
  }

  /** In every reachable world: whoever acquires a free key leads for a lease time at least. */
  lemma AcquirerLeads(w0: World, es0: seq<Event>, ttl: real, r: Replica)
    requires Start(w0)
    requires Run(w0, es0, ttl).PhaseOf(r).Standby? && !Run(w0, es0, ttl).key.Live(Run(w0, es0, ttl).now)
    ensures LeadsUntil(Step(Run(w0, es0, ttl), Acquire(r), ttl), ttl, r, Run(w0, es0, ttl).now + ttl)
  {
    RunInv(w0, es0, ttl);
    StepInv(Run(w0, es0, ttl), Acquire(r), ttl);
  }

  /** A renewal keeps the replica leading, for another lease time, exactly when the key is still its
      own; otherwise its context is cancelled at that moment, as an outside cancellation does too. */
  lemma RenewalDecides(w: World, ttl: real, r: Replica)
    requires w.PhaseOf(r).Leading?
    ensures var w', w'' := Step(w, Renew(r), ttl), Step(w, Cancel(r), ttl);
            && (w'.PhaseOf(r).Leading? <==> w.key.LiveFor(r, w.now))
            && (w'.PhaseOf(r).Leading? ==> w'.LastOk(r) == w.now && w'.key == Held(r, w.now + ttl))
            && (!w'.PhaseOf(r).Leading? ==> w'.PhaseOf(r) == Stopping(w.LastOk(r), w.now) && w'.key == w.key)
            && w''.PhaseOf(r) == Stopping(w.LastOk(r), w.now) && w''.key == w.key
  {
  }

  /** A replica that returns from `lead` while it owns the key frees it at once: the next to try
      leads, without waiting for the lease to run out. */
  lemma HandOver(w: World, ttl: real, r: Replica, q: Replica)
    requires w.Inside(r) && w.key.LiveFor(r, w.now) && (q == r || w.PhaseOf(q).Standby?)
    ensures var w' := Step(Step(w, LeadReturns(r), ttl), Release(r), ttl);
            && !w'.key.Live(w'.now) && w'.now == w.now
            && Step(w', Acquire(q), ttl).PhaseOf(q) == Leading(w.now)
  {
  }

  /** `q` leads if it waits for `d` seconds and then asks for the key. */
  predicate LeadsAfter(w: World, ttl: real, q: Replica, d: real) {
    Step(Step(w, Wait(d), ttl), Acquire(q), ttl).Inside(q)
  }

  lemma KeyDecides(w: World, ttl: real, q: Replica, d: real)
    requires w.PhaseOf(q).Standby? && d >= 0.0
    ensures LeadsAfter(w, ttl, q, d) <==> !w.key.Live(w.now + d)
  {
  }

  /** What a lost reply or a late renewal costs a standby: it is kept out for a full lease time,
      though the replica whose reply was lost does not lead. */
  lemma LostRepliesDelay(w: World, ttl: real, r: Replica, q: Replica, d: real)
    requires q != r && w.PhaseOf(q).Standby? && d >= 0.0
    ensures w.PhaseOf(r).Standby? && !w.key.Live(w.now) ==>
              var w' := Step(w, AcquireReplyLost(r), ttl);
              !w'.Inside(r) && (LeadsAfter(w', ttl, q, d) <==> d >= ttl)
    ensures w.PhaseOf(r).Leading? && w.key.LiveFor(r, w.now) ==>
              var w' := Step(w, RenewReplyLost(r), ttl);
              w'.PhaseOf(r).Stopping? && (LeadsAfter(w', ttl, q, d) <==> d >= ttl)
    ensures w.key.LiveFor(r, w.now) ==>
              var w' := Step(w, LateRenew(r), ttl);
              w'.phases == w.phases && (LeadsAfter(w', ttl, q, d) <==> d >= ttl)
  {
    hide LeadsAfter;
    KeyDecides(Step(w, AcquireReplyLost(r), ttl), ttl, q, d);
    KeyDecides(Step(w, RenewReplyLost(r), ttl), ttl, q, d);
    KeyDecides(Step(w, LateRenew(r), ttl), ttl, q, d);
  }

  /** A crash, and a release that is never sent, keep a standby out until the key runs out. */
  lemma AbandonedKeyDelays(w: World, ttl: real, r: Replica, q: Replica, d: real)
    requires q != r && w.PhaseOf(q).Standby? && d >= 0.0 && w.key.LiveFor(r, w.now)
    ensures var w' := Step(w, Crash(r), ttl);
            w'.PhaseOf(r).Standby? && (LeadsAfter(w', ttl, q, d) <==> w.now + d >= w.key.expiry)
    ensures w.Inside(r) ==>
              var w' := Step(Step(w, LeadReturns(r), ttl), ReleaseNotSent(r), ttl);
              w'.PhaseOf(r).Standby? && (LeadsAfter(w', ttl, q, d) <==> w.now + d >= w.key.expiry)
  {
    hide LeadsAfter;
    KeyDecides(Step(w, Crash(r), ttl), ttl, q, d);
    KeyDecides(Step(Step(w, LeadReturns(r), ttl), ReleaseNotSent(r), ttl), ttl, q, d);
  }

  // ----- the elector's own methods

  /** The lock key on the Redis server. */
  class Redis {
    var key: Key

    constructor ()
      ensures key == Absent
    {
      key := Absent;
    }

    method TakeIfAbsent(r: Replica, ttl: real, now: real) returns (ok: bool)
      modifies this
      ensures (key, ok) == SetNX(old(key), now, r, ttl)
    {
      ok := false;
      if key == Absent || now >= key.expiry {
        key := Held(r, now + ttl);
        ok := true;
      }
    }

    method ExtendIfOwner(r: Replica, ttl: real, now: real) returns (ok: bool)
      modifies this
      ensures (key, ok) == RenewScript(old(key), now, r, ttl)
    {
      ok := false;
      if key.Held? && now < key.expiry && key.owner == r {
        key := Held(r, now + ttl);
        ok := true;
      }
    }

    method DeleteIfOwner(r: Replica, now: real)
      modifies this
      ensures key == ReleaseScript(old(key), now, r)
    {
      if key.Held? && now < key.expiry && key.owner == r {
        key := Absent;
      }
    }
  }

  class Elector {
    const identity: Replica
    const ttl: real
    var phase: Phase

    constructor (identity: Replica, ttl: real)
      ensures this.identity == identity && this.ttl == ttl && phase == Standby
    {
      this.identity, this.ttl := identity, ttl;
      phase := Standby;
    }

    /** This elector and the key, seen as a world. */
    function View(redis: Redis, now: real): World
      reads this, redis
    {
      World(now, redis.key, map[identity := phase])
    }

    /** One turn of the campaign loop. */
    method Campaign(redis: Redis, now: real)
      requires phase == Standby
      modifies this, redis
      ensures View(redis, now) == Step(old(View(redis, now)), Acquire(identity), ttl)
    {
      var ok := redis.TakeIfAbsent(identity, ttl, now);
      if ok {
        phase := Leading(now);
      }
    }

    /** One turn of the keep-alive loop. */
    method KeepAlive(redis: Redis, now: real)
      requires phase.Leading?
      modifies this, redis
      ensures View(redis, now) == Step(old(View(redis, now)), Renew(identity), ttl)
    {
      var ok := redis.ExtendIfOwner(identity, ttl, now);
      phase := if ok then Leading(now) else Stopping(phase.lastOk, now);
    }

    /** `lead` has returned: release and go back to campaigning. */
    method StepDown(redis: Redis, now: real)
      requires phase.Leading? || phase.Stopping?
      modifies this, redis
      ensures View(redis, now)
           == Step(Step(old(View(redis, now)), LeadReturns(identity), ttl), Release(identity), ttl)
    {
      redis.DeleteIfOwner(identity, now);
      phase := Standby;
    }
  }
}
