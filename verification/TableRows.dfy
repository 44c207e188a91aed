/** What holds of the rows of both tables, whatever the accounts say: keys, requests, priorities
    and the assignment of jobs to nodes. */
module TableRows {
  import opened Resources
  import opened Model
  import opened TickFates
  import opened Progress
  import opened Cluster

  /** An active job sits on a registered node that is not down; a waiting job has no node; any
      node named is registered. */
  predicate Assigned(j: Job, nodes: Nodes) {
    && (j.status.IsActive() ==> j.node.Some? && j.node.value in nodes && nodes[j.node.value].status != Down)
    && (j.status == Queued || j.status == Preempted ==> j.node == None)
    && (j.node.Some? ==> j.node.value in nodes)
  }

  predicate JobOk(c: State, id: JobId)
    requires id in c.jobs
  {
    c.jobs[id].id == id && c.jobs[id].req.NonNeg() && PriorityOk(c.jobs[id]) && Assigned(c.jobs[id], c.nodes)
  }

  /** Rows carry their keys, and no node has the empty id, which reads as no node at all. */
  predicate NodesKeyed(nodes: Nodes) {
    "" !in nodes && forall n :: n in nodes ==> nodes[n].id == n
  }

  ghost predicate RowsOk(c: State) {
    (forall id :: id in c.jobs ==> JobOk(c, id)) && NodesKeyed(c.nodes)
  }

  /** Only two steps can put a row out of order: a running report, unless its job is active already
      or still names a node that is not down; and a registration under the empty id. */
  predicate RowsGuard(c: State, op: Op) {
    match op
    case Report(id, s) =>
      s == Running && id in c.jobs ==>
        var j := c.jobs[id];
        j.status.IsActive() || (j.Placed() && j.NodeName() in c.nodes && c.nodes[j.NodeName()].status != Down)
    case Register(n, _, _, _) => n != ""
    case _ => true
  }

  lemma RowsNonNeg(c: State)
    requires RowsOk(c)
    ensures RequestsNonNeg(c.jobs)
    ensures PrioritiesOk(c.jobs)
  {
    forall k | k in c.jobs
      ensures c.jobs[k].req.NonNeg() && PriorityOk(c.jobs[k])
    {
      assert JobOk(c, k);
    }
  }

  lemma SubmitRows(c: State, id: JobId, s: Submission, retries: int, now: real)
    requires RowsOk(c)
    ensures RowsOk(DoSubmit(c, id, s, retries, now))
  {
    var c' := DoSubmit(c, id, s, retries, now);
    forall k | k in c'.jobs
      ensures JobOk(c', k)
    {
      if k in c.jobs {
        assert JobOk(c, k);
      }
    }
  }

  lemma RegisterRows(c: State, n: NodeId, hostname: string, cap: Res, now: real)
    requires RowsOk(c)
    ensures RowsOk(DoRegister(c, n, hostname, cap, now)) <==> n != ""
  {
    if n != "" {
      NodesRows(c, DoRegister(c, n, hostname, cap, now).nodes);
    }
  }

  /** The nodes table may change in any way that keeps its keys and brings no node down. */
  lemma NodesRows(c: State, nodes': Nodes)
    requires RowsOk(c) && NodesKeyed(nodes')
    requires forall n :: n in c.nodes ==> n in nodes' && (c.nodes[n].status != Down ==> nodes'[n].status != Down)
    ensures RowsOk(c.(nodes := nodes'))
  {
    var c' := c.(nodes := nodes');
    forall id | id in c'.jobs
      ensures JobOk(c', id)
    {
      assert JobOk(c, id);
    }
  }

  /** So may one job's status, if it becomes a final one. */
  lemma EndedRows(c: State, id: JobId, s: JobStatus, nodes': Nodes)
    requires RowsOk(c) && id in c.jobs && s.IsTerminal()
    requires NodeFates(c.nodes, nodes')
    ensures RowsOk(c.(nodes := nodes', jobs := UpdateStatus(c.jobs, id, s)))
  {
    var c' := c.(nodes := nodes', jobs := UpdateStatus(c.jobs, id, s));
    forall k | k in c'.jobs
      ensures JobOk(c', k)
    {
      assert JobOk(c, k);
    }
  }

  lemma ReleaseFates(nodes: Nodes, n: NodeId, r: Res)
    ensures NodeFates(nodes, ReleaseRow(nodes, n, r))
  {
  }

  lemma FinalizeRows(c: State, id: JobId, s: JobStatus)
    requires RowsOk(c) && id in c.jobs && s.IsTerminal()
    ensures RowsOk(Finalize(c, id, s))
  {
    var j := c.jobs[id];
    if j.Placed() {
      ReleaseFates(c.nodes, j.NodeName(), j.req);
    }
    EndedRows(c, id, s, Finalize(c, id, s).nodes);
  }

  lemma CancelRows(c: State, id: JobId)
    requires RowsOk(c)
    ensures RowsOk(DoCancel(c, id))
  {
    if id in c.jobs && !c.jobs[id].status.IsTerminal() {
      var j := c.jobs[id];
      if j.Placed() {
        ReleaseFates(c.nodes, j.NodeName(), j.req);
      }
      EndedRows(c, id, Cancelled, DoCancel(c, id).nodes);
    }
  }

  lemma RunningRows(c: State, id: JobId)
    requires RowsOk(c) && id in c.jobs
    ensures RowsOk(c.(jobs := UpdateStatus(c.jobs, id, Running))) <==> RowsGuard(c, Report(id, Running))
  {
    var c' := c.(jobs := UpdateStatus(c.jobs, id, Running));
    forall k | k in c'.jobs && k != id
      ensures JobOk(c', k)
    {
      assert JobOk(c, k);
    }
    assert JobOk(c, id);
    assert JobOk(c', id) <==> RowsGuard(c, Report(id, Running));
  }

  lemma ReportRows(c: State, id: JobId, s: JobStatus)
    requires RowsOk(c)
    ensures RowsOk(DoReport(c, id, s)) <==> RowsGuard(c, Report(id, s))
  {
    if id in c.jobs {
      if s == Running {
        RunningRows(c, id);
      } else if s == Completed || s == Failed {
        FinalizeRows(c, id, s);
      }
    }
  }

  // ----- ticks

  lemma StrippedAssigned(c: State, now: real, ttl: real, j: Job)
    requires Assigned(j, c.nodes)
    ensures Assigned(if OnStale(c, j, now, ttl) then Stripped(j) else j, MarkStaleDown(c.nodes, now, ttl))
  {
  }

  lemma ReconcileRows(c: State, now: real, ttl: real)
    requires RowsOk(c)
    ensures RowsOk(Reconcile(c, now, ttl))
  {
    var r := Reconcile(c, now, ttl);
    forall id | id in r.jobs
      ensures JobOk(r, id)
    {
      assert JobOk(c, id);
      StrippedAssigned(c, now, ttl, c.jobs[id]);
    }
  }

  lemma FatesKeepRows(c: State, jobs': Jobs, nodes': Nodes)
    requires RowsOk(c) && NodeFates(c.nodes, nodes') && JobFates(c.jobs, jobs', nodes')
    ensures RowsOk(c.(jobs := jobs', nodes := nodes'))
  {
    var c' := c.(jobs := jobs', nodes := nodes');
    forall id | id in c'.jobs
      ensures JobOk(c', id)
    {
      assert JobOk(c, id);
      assert Fate(c.jobs[id], jobs'[id], nodes');
    }
  }
}
