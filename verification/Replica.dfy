/** The horizontal band law: how many replicas a workload should run.  Functions
    only, as in the source; `u32` saturation is explicit and a non-finite metric
    reading is its own value. */
module Replica {
  import opened Machine

  const MAX_REPLICAS: u32 := 100_000

  datatype Reading = Finite(v: real) | NonFinite

  datatype Ratio = Ratio(r: real) | Infinite

  datatype Signal = Utilization | RequestRate | QueueDepth {
    predicate IsAbsolute() {
      RequestRate? || QueueDepth?
    }

    /** `currentMetric / targetMetric`, the value the dead-band is applied to. */
    function MetricRatio(current: u32, value: Reading, target: real): (r: Ratio) {
      if value.NonFinite? || value.v < 0.0 || target <= 0.0 then Ratio(1.0)
      else if Utilization? then Ratio(value.v / target)
      else if current == 0 then (if value.v > 0.0 then Infinite else Ratio(1.0))
      else Ratio(value.v / current as real / target)
    }

    /** The raw desired count, before floor, ceiling and velocity. */
    function DesiredRaw(current: u32, value: Reading, target: real): (r: u32) {
      if value.NonFinite? || value.v < 0.0 || target <= 0.0 then current
      else
        WholeReplicas(if Utilization? then current as real * (value.v / target) else value.v / target, current)
    }
  }

  /** Rounded up, at most `MAX_REPLICAS`. */
  function WholeReplicas(raw: real, current: u32): (r: u32) {
    if raw < 0.0 then current
    else if Ceil(raw) >= MAX_REPLICAS then MAX_REPLICAS
    else Ceil(raw)
  }

  // ---- quorum sizes ------------------------------------------------------

  const MIN_QUORUM: u32 := 3

  /** A quorum size is odd and at least three, by construction. */
  type OddQuorum = n: u32 | n >= 3 && n % 2 == 1 witness 3

  /** The smallest quorum covering `n`. */
  function AtLeast(n: u32): (q: OddQuorum)
    ensures n <= q <= Max(3, n + 1)
  {
    var base := Max(n, MIN_QUORUM);
    if base % 2 == 0 then Sat32(base + 1) else base
  }

  /** The largest quorum within `ceiling`, but never below three. */
  function AtMost(ceiling: u32): (q: OddQuorum)
    ensures ceiling - 1 <= q <= Max(3, ceiling)
  {
    if ceiling <= MIN_QUORUM then MIN_QUORUM
    else if ceiling % 2 == 0 then ceiling - 1 else ceiling
  }

  /** One membership step up: the next quorum strictly above `current`, if any. */
  function StepUp(current: u32): (q: OddQuorum)
    ensures current < U32_MAX ==> q > current && q <= Max(3, current + 2)
  {
    AtLeast(Sat32(current + 1))
  }

  /** One membership step down, never below three. */
  function StepDown(current: u32): (q: OddQuorum)
    ensures current > 3 ==> current - 2 <= q < current
    ensures current <= 3 ==> q == 3
  {
    var odd := AtLeast(current);
    Max(Max(0, odd - 2), MIN_QUORUM)
  }

  // ---- configuration -----------------------------------------------------

  datatype Topology =
    | NonPersistent
    | Persistent(replicationFactor: u32)
    | MasterSlave(primaries: u32)
    | FullyDistributed
  {
    function HardFloor(): (r: u32) {
      match this
      case NonPersistent => 0
      case Persistent(r) => r
      case MasterSlave(p) => p
      case FullyDistributed => MIN_QUORUM
    }

    /** A forced count is snapped onto the topology's legal sizes. */
    function QuantizeTarget(to: u32, floor: u32, ceiling: u32): (r: u32) {
      if FullyDistributed? then Max(Min(AtLeast(to), AtMost(ceiling)), floor) else to
    }
  }

  datatype BandConfig = BandConfig(
    floor: u32, haFloor: Option<u32>, ceiling: u32,
    signal: Signal, target: real,
    toleranceUp: real, toleranceDown: real,
    maxUpPct: u32, maxUpPods: u32, maxDownPct: u32, maxDownPods: u32,
    topology: Topology)
  {
    function EffectiveFloor(): (r: u32) {
      if haFloor.Some? then Max(haFloor.value, floor) else floor
    }

    function TopologyFloor(): (r: u32) {
      var base := Max(EffectiveFloor(), topology.HardFloor());
      if topology.FullyDistributed? then AtLeast(base) else base
    }

    function Validate(): (r: Result<(), ReplicaError>) {
      if ceiling == 0 then Err(ZeroCeiling)
      else if EffectiveFloor() > ceiling then Err(EmptyRange)
      else if target <= 0.0 then Err(NoDenominator)
      else
        match topology
        case NonPersistent => Ok(())
        case Persistent(r) => if r == 0 || r > ceiling then Err(TopologyUnsatisfiable) else Ok(())
        case MasterSlave(p) => if p == 0 || p > ceiling then Err(TopologyUnsatisfiable) else Ok(())
        case FullyDistributed => if ceiling < MIN_QUORUM then Err(TopologyUnsatisfiable) else Ok(())
    }

    /** At most this many replicas are added in one tick. */
    function UpStep(current: u32): (r: nat) {
      Max(Max(maxUpPods, Sat32(current * maxUpPct) / 100), 1)
    }

    function DownStep(current: u32): (r: nat) {
      Max(Max(maxDownPods, Sat32(current * maxDownPct) / 100), 1)
    }
  }

  datatype ReplicaError = ZeroCeiling | EmptyRange | NoDenominator | BadSignal | Unreadable | TopologyUnsatisfiable

  // ---- one observation, one decision -------------------------------------

  datatype Observation = Observation(current: u32, value: Reading, windowMax: Option<u32>, reclaimPending: u32)

  datatype Decision =
    | Hold(current: u32)
    | ScaleUp(from: u32, to: u32)
    | ScaleDown(from: u32, to: u32)
    | AtFloor(current: u32)
    | AtCeiling(current: u32)
    | SpotScaleOut(from: u32, to: u32, reclaim: u32)
    | HeldForRebalance(current: u32, wouldShrinkTo: u32)
  {
    function Target(): (r: u32) {
      if ScaleUp? || ScaleDown? || SpotScaleOut? then to else current
    }

    predicate IsCarve() {
      (ScaleUp? || ScaleDown? || SpotScaleOut?) && from != to
    }
  }

  predicate Exceeds(ratio: Ratio, bound: real) {
    ratio.Infinite? || ratio.r > bound
  }

  predicate FallsBelow(ratio: Ratio, bound: real) {
    ratio.Ratio? && ratio.r < bound
  }

  predicate WantsUp(cfg: BandConfig, current: u32, value: Reading) {
    Exceeds(cfg.signal.MetricRatio(current, value, cfg.target), 1.0 + cfg.toleranceUp)
  }

  predicate WantsDown(cfg: BandConfig, current: u32, value: Reading) {
    FallsBelow(cfg.signal.MetricRatio(current, value, cfg.target), 1.0 - cfg.toleranceDown)
  }

  /** The scale-down stabilization: the highest recommendation over the window. */
  function Stabilized(window: Option<u32>, raw: u32): (r: u32) {
    if window.None? then raw else Max(window.value, raw)
  }

  function DecideCore(cfg: BandConfig, obs: Observation, floor: u32): (r: Decision) {
    var current := obs.current;
    var ceiling := Max(cfg.ceiling, floor);
    var raw := cfg.signal.DesiredRaw(current, obs.value, cfg.target);
    if obs.reclaimPending > 0 then
      var want := Max(Sat32(current + obs.reclaimPending), raw);
      SpotScaleOut(current, Clamp(want, floor, ceiling), obs.reclaimPending)
    else if WantsUp(cfg, current, obs.value) then
      var to := Min(Clamp(raw, floor, ceiling), Sat32(current + cfg.UpStep(current)));
      if to > current then ScaleUp(current, to) else AtCeiling(current)
    else if WantsDown(cfg, current, obs.value) then
      var desired := Clamp(Stabilized(obs.windowMax, raw), floor, ceiling);
      var to := Max(desired, Max(0, current - cfg.DownStep(current)));
      if to < current then ScaleDown(current, to) else AtFloor(current)
    else Hold(current)
  }

  /** The quorum law's ceiling: snapped down to odd, never below the odd floor. */
  function QuorumCeiling(cfg: BandConfig): (r: u32) {
    Max(AtMost(Max(cfg.ceiling, cfg.TopologyFloor())), cfg.TopologyFloor())
  }

  function DecideQuorum(cfg: BandConfig, obs: Observation): (r: Decision) {
    var current := obs.current;
    var floor := cfg.TopologyFloor();
    var ceiling := QuorumCeiling(cfg);
    var raw := cfg.signal.DesiredRaw(current, obs.value, cfg.target);
    if obs.reclaimPending > 0 then
      var want := Max(Sat32(current + obs.reclaimPending), raw);
      SpotScaleOut(current, Max(Min(AtLeast(want), ceiling), floor), obs.reclaimPending)
    else if WantsUp(cfg, current, obs.value) then
      var desired := Min(AtLeast(Clamp(raw, floor, ceiling)), ceiling);
      var to := Min(Max(Min(desired, StepUp(current)), floor), ceiling);
      if to > current then ScaleUp(current, to) else AtCeiling(current)
    else if WantsDown(cfg, current, obs.value) then
      var desired := Max(AtMost(Clamp(Stabilized(obs.windowMax, raw), floor, ceiling)), floor);
      var to := Clamp(Max(desired, StepDown(current)), floor, ceiling);
      if to < current then ScaleDown(current, to) else AtFloor(current)
    else Hold(current)
  }

  function DecideReplicas(cfg: BandConfig, obs: Observation): (r: Decision) {
    match cfg.topology
    case NonPersistent => DecideCore(cfg, obs, cfg.EffectiveFloor())
    case MasterSlave(_) => DecideCore(cfg, obs, cfg.TopologyFloor())
    case Persistent(_) =>
      var d := DecideCore(cfg, obs, cfg.TopologyFloor());
      if d.ScaleDown? then HeldForRebalance(d.from, d.to) else d
    case FullyDistributed => DecideQuorum(cfg, obs)
  }

  // ---- the gated planner -------------------------------------------------

  /** What the environment reports; `None` is an unreadable input. */
  datatype Environment = Environment(
    current: Option<u32>, value: Option<Reading>, windowMax: Option<u32>, reclaimPending: u32)

  datatype Gate = Gate(dryRun: bool, inCooldown: bool, scaleInPermitted: bool, force: Option<u32>)

  datatype TickPlan = TickPlan(decision: Decision, actuate: Option<u32>, deferred: bool)

  function Interpret(cfg: BandConfig, env: Environment): (r: Result<Decision, ReplicaError>) {
    var valid := cfg.Validate();
    if valid.Err? then Err(valid.error)
    else if env.current.None? then Err(Unreadable)
    else if env.value.None? then Err(Unreadable)
    else if env.value.value.NonFinite? || env.value.value.v < 0.0 then Err(BadSignal)
    else Ok(DecideReplicas(cfg, Observation(env.current.value, env.value.value, env.windowMax, env.reclaimPending)))
  }

  /** Break-glass: pin the count, inside the topology's envelope. */
  function Forced(cfg: BandConfig, current: u32, v: u32): (r: Decision) {
    var floor := cfg.TopologyFloor();
    var ceiling := Max(cfg.ceiling, floor);
    var to := cfg.topology.QuantizeTarget(Clamp(v, floor, ceiling), floor, ceiling);
    if to > current then ScaleUp(current, to)
    else if to < current then ScaleDown(current, to)
    else Hold(current)
  }

  function PlanTick(cfg: BandConfig, env: Environment, gate: Gate): (r: Result<TickPlan, ReplicaError>) {
    var valid := cfg.Validate();
    if valid.Err? then Err(valid.error)
    else
      var decided :=
        if gate.force.None? then Interpret(cfg, env)
        else if env.current.None? then Err(Unreadable)
        else Ok(Forced(cfg, env.current.value, gate.force.value));
      if decided.Err? then Err(decided.error)
      else
        var d := decided.value;
        var live := !gate.dryRun && !gate.inCooldown;
        var deferred := d.IsCarve() && d.ScaleDown? && !gate.scaleInPermitted && live;
        Ok(TickPlan(d, if d.IsCarve() && live && !deferred then Some(d.Target()) else None, deferred))
  }
}
