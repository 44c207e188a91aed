/** The in-memory node objects a tick or a handler loads, changes and writes back. */
module NodeObjects {
  import opened Resources
  import opened Model

  class Node {
    const nodeId: NodeId
    const hostname: string
    const status: NodeStatus
    const capacity: Res
    const lastHeartbeat: real
    var gpuAvailable: int
    var cpuAvailable: int
    var memoryAvailable: int

    /** The row this object stands for. */
    function Row(): NodeRow
      reads this
    {
      NodeRow(nodeId, hostname, status, capacity, Res(gpuAvailable, cpuAvailable, memoryAvailable), lastHeartbeat)
    }

    constructor (row: NodeRow)
      ensures Row() == row
    {
      nodeId, hostname, status := row.id, row.hostname, row.status;
      capacity, lastHeartbeat := row.cap, row.lastHeartbeat;
      gpuAvailable, cpuAvailable, memoryAvailable := row.avail.gpu, row.avail.cpu, row.avail.mem;
    }

    predicate Fits(r: Res)
      reads this
      ensures Fits(r) == Row().Fits(r)
    {
      status == Ready && gpuAvailable >= r.gpu && cpuAvailable >= r.cpu && memoryAvailable >= r.mem
    }

    method Reserve(r: Res)
      modifies this
      ensures Row() == old(Row()).(avail := old(Row()).avail.Minus(r))
    {
      gpuAvailable := gpuAvailable - r.gpu;
      cpuAvailable := cpuAvailable - r.cpu;
      memoryAvailable := memoryAvailable - r.mem;
    }

    /** Gives `r` back, never past the capacity. */
    method Release(r: Res)
      modifies this
      ensures Row() == old(Row()).(avail := old(Row()).avail.Plus(r).ClampTo(old(Row()).cap))
    {
      gpuAvailable := gpuAvailable + r.gpu;
      if gpuAvailable > capacity.gpu {
        gpuAvailable := capacity.gpu;
      }
      cpuAvailable := cpuAvailable + r.cpu;
      if cpuAvailable > capacity.cpu {
        cpuAvailable := capacity.cpu;
      }
      memoryAvailable := memoryAvailable + r.mem;
      if memoryAvailable > capacity.mem {
        memoryAvailable := capacity.mem;
      }
    }
  }

  ghost function Rows(ns: seq<Node>): (rows: seq<NodeRow>)
    reads ns
    ensures |rows| == |ns|
    ensures forall i :: 0 <= i < |ns| ==> rows[i] == ns[i].Row()
  {
    if ns == [] then [] else Rows(ns[..|ns| - 1]) + [ns[|ns| - 1].Row()]
  }

  /** No object is listed twice. */
  ghost predicate Distinct(ns: seq<Node>) {
    forall i, j :: 0 <= i < j < |ns| ==> ns[i] != ns[j]
  }
}
