/** The storage carve: bounded grow-only steps, and commands that only exist behind
    witnesses minted this tick.  Witnesses are values here; that each is used at most
    once is proved over runs in CarveRuns.dfy. */
module CarveSafety {
  import opened Machine

  const GI: u64 := 0x4000_0000
  const GROW_STEP_ABS_CAP_BYTES: u64 := 2 * GI
  const GROW_STEP_PCT_CAP_BPS: u64 := 2_000

  type TickId = u64

  // ---- ownership ---------------------------------------------------------

  datatype Volume = Volume(ns: string, name: string)

  datatype VolumeIdentity = VolumeIdentity(ns: string, name: string, roleLabel: Option<string>, ownershipTag: bool) {
    function Named(): (r: Volume) {
      Volume(ns, name)
    }
  }

  datatype FootprintPolicy = FootprintPolicy(ownedNamespaces: set<string>, ownerRole: string) {
    predicate Owns(id: VolumeIdentity) {
      id.ownershipTag || id.roleLabel == Some(ownerRole) || id.ns in ownedNamespaces
    }

    function TryOwn(id: VolumeIdentity, tick: TickId): (r: Option<OwnedPvc>) {
      if Owns(id) then Some(OwnedPvc(id.ns, id.name, tick)) else None
    }
  }

  datatype OwnedPvc = OwnedPvc(ns: string, name: string, tick: TickId)

  // ---- release -----------------------------------------------------------

  datatype DataRole = SaasState | RebuildableFromSource | Unknown

  datatype VolumeClass = Regenerable(owned: OwnedPvc) | Durable(owned: OwnedPvc)

  /** Durable unless proven regenerable. */
  function ClassifyDurability(owned: OwnedPvc, role: DataRole): (r: VolumeClass) {
    if role.RebuildableFromSource? then Regenerable(owned) else Durable(owned)
  }

  datatype Reachability = Reachability(liveConsumerPods: u32, attached: bool) {
    predicate IsOrphan() {
      liveConsumerPods == 0 && !attached
    }
  }

  datatype NotInUse = NotInUse(tick: TickId)

  function ProveNotInUse(reach: Reachability, tick: TickId): (r: Option<NotInUse>) {
    if reach.IsOrphan() then Some(NotInUse(tick)) else None
  }

  datatype ReleaseCommand = ReleaseCommand(ns: string, name: string, recreateTo: Option<u64>, tick: TickId)

  datatype CarveRefused =
    | StaleOwnershipWitness(minted: TickId, current: TickId)
    | StaleGrowWitness(minted: TickId, current: TickId)
    | StaleNotInUseWitness(minted: TickId, current: TickId)
    | VolumeMidOperation

  /** Only a regenerable volume can be released. */
  function Release(volume: VolumeClass, proof: NotInUse, current: TickId): (r: Result<ReleaseCommand, CarveRefused>)
    requires volume.Regenerable?
  {
    if volume.owned.tick != current then Err(StaleOwnershipWitness(volume.owned.tick, current))
    else if proof.tick != current then Err(StaleNotInUseWitness(proof.tick, current))
    else Ok(ReleaseCommand(volume.owned.ns, volume.owned.name, None, current))
  }

  function Recreate(volume: VolumeClass, proof: NotInUse, current: TickId, newSize: u64)
    : (r: Result<ReleaseCommand, CarveRefused>)
    requires volume.Regenerable?
  {
    match Release(volume, proof, current)
    case Err(e) => Err(e)
    case Ok(cmd) => Ok(cmd.(recreateTo := Some(newSize)))
  }

  // ---- bounded growth ----------------------------------------------------

  /** `min(+2Gi, +20%)`. */
  function GrowStepCap(current: u64): (r: u64) {
    Min(current / (10_000 / GROW_STEP_PCT_CAP_BPS), GROW_STEP_ABS_CAP_BYTES)
  }

  datatype SmallAtomicGrow = SmallAtomicGrow(from: u64, to: u64, tick: TickId)

  function PlanGrow(current: u64, desired: u64, tick: TickId): (r: Option<SmallAtomicGrow>)
    ensures r.Some? <==> desired > current && current >= 5
    ensures r.Some? ==> r.value.from == current && r.value.tick == tick
    ensures r.Some? ==> current < r.value.to <= Min(desired, current + GrowStepCap(current))
    ensures r.Some? ==>
      var up := r.value.to - current;
      && up <= current / 5 && up <= 0x8000_0000
      && (r.value.to == desired || up == current / 5 || up == 0x8000_0000)
  {
    if desired <= current then None
    else
      var cap := GrowStepCap(current);
      if cap == 0 then None
      else Some(SmallAtomicGrow(current, Min(desired, Sat64(current + cap)), tick))
  }

  datatype OpState = OpIdle | ResizeInProgress

  datatype AtomicGrowCommand = AtomicGrowCommand(ns: string, name: string, from: u64, to: u64, tick: TickId)

  function CommitSmallAtomicGrow(current: TickId, owned: OwnedPvc, grow: SmallAtomicGrow, op: OpState)
    : (r: Result<AtomicGrowCommand, CarveRefused>)
  {
    if owned.tick != current then Err(StaleOwnershipWitness(owned.tick, current))
    else if grow.tick != current then Err(StaleGrowWitness(grow.tick, current))
    else if op.ResizeInProgress? then Err(VolumeMidOperation)
    else Ok(AtomicGrowCommand(owned.ns, owned.name, grow.from, grow.to, current))
  }

  // ---- refusals ------------------------------------------------------------

  /** A refused grow names its first cause, with the ticks in which the witness was
      minted and presented. */
  lemma GrowRefusals(current: TickId, owned: OwnedPvc, grow: SmallAtomicGrow, op: OpState)
    ensures var r := CommitSmallAtomicGrow(current, owned, grow, op);
            && (r == Err(StaleOwnershipWitness(owned.tick, current)) <==> owned.tick != current)
            && (r == Err(StaleGrowWitness(grow.tick, current)) <==> owned.tick == current != grow.tick)
            && (r == Err(VolumeMidOperation) <==> owned.tick == current == grow.tick && op.ResizeInProgress?)
            && (r.Ok? <==> owned.tick == current == grow.tick && op.OpIdle?)
  {
  }

  /** So does a refused release or recreation. */
  lemma ReleaseRefusals(volume: VolumeClass, proof: NotInUse, current: TickId, newSize: u64)
    requires volume.Regenerable?
    ensures var r := Release(volume, proof, current);
            && (r == Err(StaleOwnershipWitness(volume.owned.tick, current)) <==> volume.owned.tick != current)
            && (r == Err(StaleNotInUseWitness(proof.tick, current)) <==> volume.owned.tick == current != proof.tick)
            && (r.Ok? <==> volume.owned.tick == current == proof.tick)
            && (r.Err? ==> Recreate(volume, proof, current, newSize) == r)
  {
  }
}
