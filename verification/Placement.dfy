/** Choosing a node for a job: first-fit and best-fit (internal/scheduler/placement.go). */
module Placement {
  import opened Resources
  import opened Model
  import opened NodeObjects

  datatype Algorithm = FirstFit | BestFit | Priority | FairShare

  /** What a placement would leave free on the node. */
  datatype Score = Score(gpu: int, cpu: int, mem: int) {
    predicate Less(b: Score) {
      if gpu != b.gpu then gpu < b.gpu
      else if cpu != b.cpu then cpu < b.cpu
      else mem < b.mem
    }
  }

  function ScoreOf(n: NodeRow, req: Res): Score {
    Score(n.avail.gpu - req.gpu, n.avail.cpu - req.cpu, n.avail.mem - req.mem)
  }

  predicate NoneFits(nodes: seq<NodeRow>, req: Res) {
    forall i :: 0 <= i < |nodes| ==> !nodes[i].Fits(req)
  }

  /** The lowest index that fits. */
  function FirstFitIndex(nodes: seq<NodeRow>, req: Res): (r: Option<nat>)
    ensures r.None? <==> NoneFits(nodes, req)
    ensures r.Some? ==> r.value < |nodes| && nodes[r.value].Fits(req) && NoneFits(nodes[..r.value], req)
  {
    if nodes == [] then None
    else
      var init := nodes[..|nodes| - 1];
      var r := FirstFitIndex(init, req);
      assert forall i :: 0 <= i < |init| ==> nodes[i] == init[i];
      if r.Some? then
        assert nodes[..r.value] == init[..r.value];
        r
      else if nodes[|nodes| - 1].Fits(req) then Some(|nodes| - 1)
      else None
  }

  /** The node at `k` fits, and every other node that fits has more free than it: more GPUs, or as
      many and more CPUs, or as many of both and more memory, or as much of everything and a later
      position. Since all would give up the same request, it is the one left with the least. */
  ghost predicate Tightest(nodes: seq<NodeRow>, req: Res, k: nat) {
    && k < |nodes| && nodes[k].Fits(req)
    && forall i :: 0 <= i < |nodes| && nodes[i].Fits(req) && i != k ==>
         var a, b := nodes[k].avail, nodes[i].avail;
         || a.gpu < b.gpu
         || (a.gpu == b.gpu && a.cpu < b.cpu)
         || (a.gpu == b.gpu && a.cpu == b.cpu && a.mem < b.mem)
         || (a.gpu == b.gpu && a.cpu == b.cpu && a.mem == b.mem && k < i)
  }

  /** The fitting index with the least leftover, the first of those on ties. */
  function BestFitIndex(nodes: seq<NodeRow>, req: Res): (r: Option<nat>)
    ensures r.None? <==> NoneFits(nodes, req)
    ensures r.Some? ==> Tightest(nodes, req, r.value)
  {
    if nodes == [] then None
    else
      var init, last := nodes[..|nodes| - 1], nodes[|nodes| - 1];
      var r := BestFitIndex(init, req);
      assert forall i :: 0 <= i < |init| ==> nodes[i] == init[i];
      if !last.Fits(req) then r
      else if r.None? || ScoreOf(last, req).Less(ScoreOf(init[r.value], req)) then Some(|nodes| - 1)
      else r
  }

  /** The node an algorithm chooses: only first-fit does not pack. */
  function Place(alg: Algorithm, nodes: seq<NodeRow>, req: Res): (r: Option<nat>)
    ensures r.None? <==> NoneFits(nodes, req)
    ensures r.Some? ==> r.value < |nodes| && nodes[r.value].Fits(req)
    ensures r.Some? ==> if alg == FirstFit then NoneFits(nodes[..r.value], req) else Tightest(nodes, req, r.value)
  {
    if alg == FirstFit then FirstFitIndex(nodes, req) else BestFitIndex(nodes, req)
  }

  method FirstFitNode(req: Res, nodes: seq<Node>) returns (r: Option<nat>)
    ensures r == FirstFitIndex(Rows(nodes), req)
  {
    ghost var rows := Rows(nodes);
    for k := 0 to |nodes|
      invariant FirstFitIndex(rows[..k], req) == None
    {
      assert rows[..k + 1][..k] == rows[..k];
      if nodes[k].Fits(req) {
        FirstFitExtends(rows, k + 1, req);
        return Some(k);
      }
    }
    assert rows[..|nodes|] == rows;
    return None;
  }

  lemma {:induction false} FirstFitExtends(nodes: seq<NodeRow>, k: nat, req: Res)
    requires k <= |nodes|
    requires FirstFitIndex(nodes[..k], req).Some?
    ensures FirstFitIndex(nodes, req) == FirstFitIndex(nodes[..k], req)
    decreases |nodes|
  {
    if k < |nodes| {
      var init := nodes[..|nodes| - 1];
      assert init[..k] == nodes[..k];
      FirstFitExtends(init, k, req);
    } else {
      assert nodes[..k] == nodes;
    }
  }

  lemma BestFitStep(rows: seq<NodeRow>, k: nat, req: Res)
    requires k < |rows|
    ensures BestFitIndex(rows[..k + 1], req)
         == var r := BestFitIndex(rows[..k], req);
            if !rows[k].Fits(req) then r
            else if r.None? || ScoreOf(rows[k], req).Less(ScoreOf(rows[r.value], req)) then Some(k)
            else r
  {
    assert rows[..k + 1][..k] == rows[..k];
  }

  method BestFitNode(req: Res, nodes: seq<Node>) returns (best: Option<nat>)
    ensures best == BestFitIndex(Rows(nodes), req)
  {
    ghost var rows := Rows(nodes);
    best := None;
    var bestScore := Score(0x4000_0000, 0x4000_0000, 0x4000_0000);
    for k := 0 to |nodes|
      invariant best == BestFitIndex(rows[..k], req)
      invariant best.Some? ==> best.value < k && bestScore == ScoreOf(rows[best.value], req)
    {
      BestFitStep(rows, k, req);
      var n := nodes[k];
      if n.Fits(req) {
        var s := Score(n.gpuAvailable - req.gpu, n.cpuAvailable - req.cpu, n.memoryAvailable - req.mem);
        if best == None || s.Less(bestScore) {
          best, bestScore := Some(k), s;
        }
      }
    }
    assert rows[..|nodes|] == rows;
  }

  method PlaceJob(alg: Algorithm, req: Res, nodes: seq<Node>) returns (r: Option<nat>)
    ensures r == Place(alg, Rows(nodes), req)
  {
    if alg == FirstFit {
      r := FirstFitNode(req, nodes);
    } else {
      r := BestFitNode(req, nodes);
    }
  }
}
