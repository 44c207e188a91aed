/** What every step of the control plane keeps, and exactly when. */
module ClusterInvariants {
  import opened Resources
  import opened Model
  import opened Tick
  import opened TickLedger
  import opened Cluster
  import opened TableRows

  /** The rows are in order and every node's account balances. */
  ghost predicate Inv(c: State) {
    RowsOk(c) && Ledger(c.jobs, c.nodes, c.lost)
  }

  // ----- the guard of each step, all of it visible before the call

  /** A report does no harm if it concerns an active job, or one without a node that is being
      finished, or if what it releases or claims without right amounts to nothing. */
  predicate ReportHarmless(c: State, id: JobId, s: JobStatus) {
    if id !in c.jobs then true
    else
      var j := c.jobs[id];
      if s == Running then
        j.status.IsActive()
        || (j.Placed() && j.NodeName() in c.nodes && c.nodes[j.NodeName()].status != Down && j.req == ZERO)
      else if s == Completed || s == Failed then
        j.status.IsActive() || !j.Placed()
        || (j.NodeName() in c.nodes && ReleaseAbsorbed(c.nodes[j.NodeName()], ZERO, j.req))
      else true
  }

  /** A first registration needs a capacity that is not negative, a repeated one the same as before;
      neither may use the empty id. */
  predicate RegisterHarmless(c: State, n: NodeId, cap: Res) {
    n != "" && if n in c.nodes then cap == c.nodes[n].cap else cap.NonNeg()
  }

  /** In a tick, no attempt releases for jobs that were already evicted in it. */
  ghost predicate TickHarmless(cfg: Config, c: State, now: real, l: Listing) {
    var r := Reconcile(c, now, cfg.heartbeatTtl);
    Lists(r, l) ==>
      var queue := TickQueue(cfg, r, now, l);
      forall i :: 0 <= i < |queue| ==> AbsorbedAt(cfg, Snapshot(r, l), queue, now, i)
  }

  ghost predicate Admissible(cfg: Config, c: State, op: Op) {
    match op
    case Register(n, _, cap, _) => RegisterHarmless(c, n, cap)
    case Report(id, s) => ReportHarmless(c, id, s)
    case RunTick(now, l) => TickHarmless(cfg, c, now, l)
    case _ => true
  }

  // ----- tables that differ in one row

  /** Changing one job's status and node shifts its share between accounts and nothing else. */
  lemma RowUsed(jobs: Jobs, id: JobId, j: Job, n: NodeId)
    requires id in jobs
    ensures Used(jobs[id := j], n) == Used(jobs, n).Minus(Share(jobs[id], n)).Plus(Share(j, n))
  {
    UsedUpdate(jobs, id, j, n);
  }

  /** Ending a job takes its share out of the account of its node and touches no other. */
  lemma UsedAfterEnd(jobs: Jobs, id: JobId, s: JobStatus, n: NodeId)
    requires id in jobs && s.IsTerminal()
    ensures Used(UpdateStatus(jobs, id, s), n) == Used(jobs, n).Minus(Share(jobs[id], n))
  {
    RowUsed(jobs, id, jobs[id].(status := s), n);
  }

  lemma AddJobLedger(jobs: Jobs, nodes: Nodes, lost: Lost, id: JobId, j: Job)
    requires Ledger(jobs, nodes, lost) && id !in jobs && j.node == None
    ensures Ledger(jobs[id := j], nodes, lost)
  {
    forall n | n in nodes
      ensures Account(jobs[id := j], nodes[n], lost, n)
    {
      assert Account(jobs, nodes[n], lost, n);
      UsedUpdate(jobs, id, j, n);
    }
  }

  lemma SubmitInv(c: State, id: JobId, s: Submission, retries: int, now: real)
    requires Inv(c)
    ensures Inv(DoSubmit(c, id, s, retries, now))
  {
    SubmitRows(c, id, s, retries, now);
    if ValidSubmission(s) && id !in c.jobs {
      AddJobLedger(c.jobs, c.nodes, c.lost, id, NewJob(id, s, retries, now));
    }
  }

  lemma RegisterInv(c: State, n: NodeId, hostname: string, cap: Res, now: real)
    requires Inv(c)
    ensures Inv(DoRegister(c, n, hostname, cap, now)) <==> RegisterHarmless(c, n, cap)
  {
    var c' := DoRegister(c, n, hostname, cap, now);
    if n in c.nodes {
      assert Account(c.jobs, c.nodes[n], c.lost, n);
      assert Account(c.jobs, c'.nodes[n], c.lost, n) <==> cap == c.nodes[n].cap;
    } else {
      forall id | id in c.jobs
        ensures !c.jobs[id].OnNode(n)
      {
        assert JobOk(c, id);
      }
      UsedNone(c.jobs, n);
      assert Account(c.jobs, c'.nodes[n], c'.lost, n) <==> cap.NonNeg();
    }
    forall m | m in c.nodes && m != n
      ensures Account(c.jobs, c'.nodes[m], c'.lost, m)
    {
      assert Account(c.jobs, c.nodes[m], c.lost, m);
    }
    RegisterRows(c, n, hostname, cap, now);
  }

  lemma HeartbeatInv(c: State, n: NodeId, now: real)
    requires Inv(c)
    ensures Inv(DoHeartbeat(c, n, now))
  {
    if n in c.nodes {
      var c' := DoHeartbeat(c, n, now);
      forall m | m in c'.nodes
        ensures Account(c.jobs, c'.nodes[m], c.lost, m)
      {
        assert Account(c.jobs, c.nodes[m], c.lost, m);
      }
      NodesRows(c, c'.nodes);
    }
  }

  lemma SetNodeStatusInv(c: State, n: NodeId, s: NodeStatus)
    requires Inv(c)
    ensures Inv(DoSetNodeStatus(c, n, s))
  {
    if s != Down && n in c.nodes {
      var c' := DoSetNodeStatus(c, n, s);
      forall m | m in c'.nodes
        ensures Account(c.jobs, c'.nodes[m], c.lost, m)
      {
        assert Account(c.jobs, c.nodes[m], c.lost, m);
      }
      NodesRows(c, c'.nodes);
    }
  }

  // ----- finishing a job

  /** The row `id` takes status `s`, and its request is given back to node `n` if that is where
      its row points. */
  function Finished(c: State, id: JobId, s: JobStatus, n: NodeId): State
    requires id in c.jobs
  {
    c.(nodes := ReleaseRow(c.nodes, n, c.jobs[id].req), jobs := UpdateStatus(c.jobs, id, s))
  }

  /** Releasing a job that is not active on the node is harmless exactly when the clamp swallows
      it; releasing an active one always is. */
  lemma FinishedAccount(c: State, id: JobId, s: JobStatus, n: NodeId)
    requires Inv(c) && id in c.jobs && s.IsTerminal() && n in c.nodes && c.jobs[id].node == Some(n)
    ensures var c' := Finished(c, id, s, n);
            var harmless := c.jobs[id].status.IsActive() || ReleaseAbsorbed(c.nodes[n], ZERO, c.jobs[id].req);
            n in c'.nodes && (Account(c'.jobs, c'.nodes[n], c'.lost, n) <==> harmless)
  {
    var j := c.jobs[id];
    var c' := Finished(c, id, s, n);
    assert JobOk(c, id) && Account(c.jobs, c.nodes[n], c.lost, n);
    UsedAfterEnd(c.jobs, id, s, n);
    RowsNonNeg(c);
    UsedNonNeg(c.jobs, n);
    UsedNonNeg(c'.jobs, n);
    AccountAfterEviction(c.nodes[n], Used(c.jobs, n), c.lost[n], Share(j, n), j.req);
  }

  lemma FinishedElsewhere(c: State, id: JobId, s: JobStatus, n: NodeId, m: NodeId)
    requires Inv(c) && id in c.jobs && s.IsTerminal() && c.jobs[id].node == Some(n)
    requires m in c.nodes && m != n
    ensures var c' := Finished(c, id, s, n);
            m in c'.nodes && Account(c'.jobs, c'.nodes[m], c'.lost, m)
  {
    var c' := Finished(c, id, s, n);
    assert Account(c.jobs, c.nodes[m], c.lost, m);
    assert Used(c'.jobs, m) == Used(c.jobs, m) by {
      UsedAfterEnd(c.jobs, id, s, m);
    }
    assert c'.nodes[m] == c.nodes[m];
  }

  lemma FinishedInv(c: State, id: JobId, s: JobStatus, n: NodeId)
    requires Inv(c) && id in c.jobs && s.IsTerminal() && c.jobs[id].node == Some(n)
    ensures Inv(Finished(c, id, s, n))
       <==> c.jobs[id].status.IsActive() || (n in c.nodes && ReleaseAbsorbed(c.nodes[n], ZERO, c.jobs[id].req))
  {
    assert JobOk(c, id);
    var c' := Finished(c, id, s, n);
    FinishedAccount(c, id, s, n);
    forall m | m in c.nodes && m != n
      ensures m in c'.nodes && Account(c'.jobs, c'.nodes[m], c'.lost, m)
    {
      FinishedElsewhere(c, id, s, n, m);
    }
    ReleaseFates(c.nodes, n, c.jobs[id].req);
    EndedRows(c, id, s, c'.nodes);
  }

  /** Ending a job without a node touches no account. */
  lemma EndUnplaced(c: State, id: JobId, s: JobStatus)
    requires Inv(c) && id in c.jobs && s.IsTerminal() && !c.jobs[id].status.IsActive()
    ensures Inv(c.(jobs := UpdateStatus(c.jobs, id, s)))
  {
    var c' := c.(jobs := UpdateStatus(c.jobs, id, s));
    EndedRows(c, id, s, c.nodes);
    forall m | m in c.nodes
      ensures Account(c'.jobs, c.nodes[m], c.lost, m)
    {
      assert Account(c.jobs, c.nodes[m], c.lost, m);
      UsedAfterEnd(c.jobs, id, s, m);
    }
  }

  lemma CancelInv(c: State, id: JobId)
    requires Inv(c)
    ensures Inv(DoCancel(c, id))
  {
    if id in c.jobs && !c.jobs[id].status.IsTerminal() {
      assert JobOk(c, id);
      if c.jobs[id].status.IsActive() {
        FinishedInv(c, id, Cancelled, c.jobs[id].node.value);
      } else {
        EndUnplaced(c, id, Cancelled);
      }
    }
  }

  lemma FinalizeInv(c: State, id: JobId, s: JobStatus)
    requires Inv(c) && id in c.jobs && (s == Completed || s == Failed)
    ensures Inv(DoReport(c, id, s)) <==> ReportHarmless(c, id, s)
  {
    assert JobOk(c, id);
    if c.jobs[id].node.Some? {
      FinishedInv(c, id, s, c.jobs[id].node.value);
    } else {
      EndUnplaced(c, id, s);
    }
  }

  lemma UsedAfterStart(jobs: Jobs, id: JobId, n: NodeId)
    requires id in jobs
    ensures Used(UpdateStatus(jobs, id, Running), n)
         == Used(jobs, n).Plus(if !jobs[id].status.IsActive() && jobs[id].node == Some(n) then jobs[id].req else ZERO)
  {
    RowUsed(jobs, id, jobs[id].(status := Running), n);
  }

  lemma RunningAccount(c: State, id: JobId, n: NodeId)
    requires Inv(c) && id in c.jobs && n in c.nodes
    ensures Account(UpdateStatus(c.jobs, id, Running), c.nodes[n], c.lost, n)
       <==> c.jobs[id].status.IsActive() || c.jobs[id].node != Some(n) || c.jobs[id].req == ZERO
  {
    var jobs' := UpdateStatus(c.jobs, id, Running);
    assert Account(c.jobs, c.nodes[n], c.lost, n);
    var claimed := if !c.jobs[id].status.IsActive() && c.jobs[id].node == Some(n) then c.jobs[id].req else ZERO;
    assert Used(jobs', n) == Used(c.jobs, n).Plus(claimed) by {
      UsedAfterStart(c.jobs, id, n);
    }
    MoreUsed(c.nodes[n], Used(c.jobs, n), c.lost[n], claimed);
  }

  /** A balanced account stays so exactly when nothing more is claimed. */
  lemma MoreUsed(row: NodeRow, used: Res, lost: Res, claimed: Res)
    requires Balanced(row, used, lost)
    ensures Balanced(row, used.Plus(claimed), lost) <==> claimed == ZERO
  {
  }

  /** A running report on an inactive job makes it active without a reservation. */
  lemma RunningInv(c: State, id: JobId)
    requires Inv(c) && id in c.jobs
    ensures Inv(DoReport(c, id, Running)) <==> ReportHarmless(c, id, Running)
  {
    assert JobOk(c, id);
    RunningRows(c, id);
    forall n | n in c.nodes
      ensures Account(UpdateStatus(c.jobs, id, Running), c.nodes[n], c.lost, n)
         <==> c.jobs[id].status.IsActive() || c.jobs[id].node != Some(n) || c.jobs[id].req == ZERO
    {
      RunningAccount(c, id, n);
    }
  }

  /** A report keeps the invariant exactly when it is harmless. */
  lemma ReportInv(c: State, id: JobId, s: JobStatus)
    requires Inv(c)
    ensures Inv(DoReport(c, id, s)) <==> ReportHarmless(c, id, s)
  {
    if id in c.jobs {
      if s == Running {
        RunningInv(c, id);
      } else if s == Completed || s == Failed {
        FinalizeInv(c, id, s);
      }
    }
  }
}
