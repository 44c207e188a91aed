/** Three-dimensional resource vectors (GPU, CPU, memory) and the clamped release arithmetic. */
module Resources {

  /** An amount of each resource: a request, a capacity or what a node has free. */
  datatype Res = Res(gpu: int, cpu: int, mem: int) {

    function Plus(r: Res): Res {
      Res(gpu + r.gpu, cpu + r.cpu, mem + r.mem)
    }

    function Minus(r: Res): Res {
      Res(gpu - r.gpu, cpu - r.cpu, mem - r.mem)
    }

    /** Every dimension of `this` is at least that of `r`. */
    predicate Covers(r: Res) {
      gpu >= r.gpu && cpu >= r.cpu && mem >= r.mem
    }

    predicate NonNeg() {
      Covers(ZERO)
    }

    /** Caps each dimension at that of `cap`. */
    function ClampTo(cap: Res): Res {
      Res(Min(gpu, cap.gpu), Min(cpu, cap.cpu), Min(mem, cap.mem))
    }
  }

  const ZERO: Res := Res(0, 0, 0)

  function Min(a: int, b: int): int {
    if a <= b then a else b
  }

  function Max(a: int, b: int): int {
    if a <= b then b else a
  }
}
