/** The fabric's entities: dimensions, per-dimension vectors, claimants, and the
    errors the forest gate reports. */
module Claimants {
  import opened Machine
  import opened WaterFill

  datatype Dim = Storage | Cpu | Bandwidth | RequestRate

  const ALL_DIMS: seq<Dim> := [Storage, Cpu, Bandwidth, RequestRate]

  datatype DemandVector = DemandVector(storage: Demand, cpu: Demand, bandwidth: Demand, requestRate: Demand) {
    function Get(dim: Dim): (r: Demand) {
      match dim
      case Storage => storage
      case Cpu => cpu
      case Bandwidth => bandwidth
      case RequestRate => requestRate
    }
  }

  datatype GrantVector = GrantVector(storage: u64, cpu: u64, bandwidth: u64, requestRate: u64) {
    function Get(dim: Dim): (r: u64) {
      match dim
      case Storage => storage
      case Cpu => cpu
      case Bandwidth => bandwidth
      case RequestRate => requestRate
    }

    function Set(dim: Dim, v: u64): (r: GrantVector) {
      match dim
      case Storage => this.(storage := v)
      case Cpu => this.(cpu := v)
      case Bandwidth => this.(bandwidth := v)
      case RequestRate => this.(requestRate := v)
    }
  }

  const NO_GRANT := GrantVector(0, 0, 0, 0)

  /** A claimant: its identity, its parent if it splits a parent's grant, and what
      it demands on each dimension. */
  datatype Quinhao = Quinhao(id: string, parent: Option<string>, demand: DemandVector)

  datatype FabricError =
    | DuplicateId(id: string)
    | UnknownParent(id: string, parent: string)
    | Cycle(id: string)
}
