/** The lifecycle breath: five phases, a fused decision per tick, and the planner
    that turns it into a write.  Where the source's `clamp` would panic (its lower
    bound above its upper) the model says so instead of assuming it away. */
module Lifecycle {
  import opened Machine

  const I64_MIN: int := -0x8000_0000_0000_0000
  const I64_MAX: int := 0x7FFF_FFFF_FFFF_FFFF

  type i64 = x: int | I64_MIN <= x <= I64_MAX

  // ---- phases ------------------------------------------------------------

  datatype Phase = Zero | Wake | Settle | Steady | Idle {
    function Exits(): (r: seq<Phase>) {
      match this
      case Zero => [Wake]
      case Wake => [Settle]
      case Settle => [Steady, Wake]
      case Steady => [Idle, Wake]
      case Idle => [Zero, Steady]
    }

    predicate IsResting() {
      Zero? || Steady?
    }
  }

  const ALL_PHASES: seq<Phase> := [Zero, Wake, Settle, Steady, Idle]

  method LegalEdges() returns (edges: seq<(Phase, Phase)>)
    ensures forall p: Phase, q :: (p, q) in edges <==> q in p.Exits()
  {
    edges := [];
    for i := 0 to |ALL_PHASES|
      invariant forall p: Phase, q :: (p, q) in edges <==> p in ALL_PHASES[..i] && q in p.Exits()
    {
      var from := ALL_PHASES[i];
      var exits := from.Exits();
      assert ALL_PHASES[..i + 1] == ALL_PHASES[..i] + [from];
      for j := 0 to |exits|
        invariant forall p: Phase, q :: (p, q) in edges <==>
          (p in ALL_PHASES[..i] && q in p.Exits()) || (p == from && q in exits[..j])
      {
        assert exits[..j + 1] == exits[..j] + [exits[j]];
        edges := edges + [(from, exits[j])];
      }
      assert exits[..|exits|] == exits;
    }
    assert ALL_PHASES[..|ALL_PHASES|] == ALL_PHASES;
    forall p: Phase ensures p in ALL_PHASES {
      var k := match p case Zero => 0 case Wake => 1 case Settle => 2 case Steady => 3 case Idle => 4;
      assert ALL_PHASES[k] == p;
    }
  }

  // ---- configuration -----------------------------------------------------

  datatype BandConfig = BandConfig(
    growAbove: real, shrinkBelow: real, setpoint: real, growFactor: real, shrinkFactor: real,
    floorBytes: u64, ceilingBytes: u64, requestFloorBytes: u64, warmupSeconds: u64)
  {
    predicate IsValid() {
      && (shrinkBelow == 0.0 || 0.0 < shrinkBelow <= 1.0)
      && 0.0 < setpoint <= 1.0 && 0.0 < growAbove <= 1.0
      && shrinkBelow <= setpoint <= growAbove
      && growFactor > 1.0 && 0.0 < shrinkFactor < 1.0
      && floorBytes <= ceilingBytes
    }

    function Denominator(): (d: real)
      ensures d > 0.0
    {
      if setpoint <= 0.0 then 1.0 else setpoint
    }
  }

  /** The bytes that seat `used` at the setpoint. */
  function AtSetpoint(used: u64, cfg: BandConfig): (r: u64) {
    var x := used as real / cfg.Denominator();
    assert x >= 0.0 by {
      assert x * cfg.Denominator() == used as real;
    }
    Sat64(Ceil(x))
  }

  function SoftMin(workingSet: u64, cfg: BandConfig): (r: u64) {
    Max(Max(AtSetpoint(workingSet, cfg), cfg.requestFloorBytes), cfg.floorBytes)
  }

  function SafeMin(peak: u64, workingSet: u64, cfg: BandConfig): (r: u64) {
    Max(Max(AtSetpoint(Max(peak, workingSet), cfg), cfg.requestFloorBytes), cfg.floorBytes)
  }

  datatype LifecycleConfig = LifecycleConfig(
    steady: BandConfig, expansionFactor: real, settleStepFactor: real, idleBelow: real,
    idleToZeroSecs: u64, expansionMaxSecs: u64, settleMaxSecs: u64)
  {
    function Validate(): (r: Option<ConfigError>) {
      if !steady.IsValid() then Some(BadSteadyBand)
      else if expansionFactor < 1.0 then Some(BadExpansionFactor)
      else if !(0.0 < settleStepFactor < 1.0) then Some(BadStepFactor)
      else if !(0.0 < idleBelow <= 1.0) then Some(BadIdleThreshold)
      else if idleToZeroSecs == 0 || expansionMaxSecs == 0 || settleMaxSecs == 0 then Some(ZeroDuration)
      else None
    }
  }

  datatype ConfigError = BadSteadyBand | BadExpansionFactor | BadStepFactor | BadIdleThreshold | ZeroDuration

  // ---- signals -----------------------------------------------------------

  datatype Load = Load(rps: real, queueDepth: u64) {
    predicate IsActive() {
      rps > 0.0 || queueDepth > 0
    }
  }

  datatype Health = Health(restarts: u32, oom: bool, probeFailures: u32) {
    predicate IsStruggling() {
      restarts > 0 || oom || probeFailures > 0
    }
  }

  datatype Metrics = Metrics(used: Option<u64>, capacity: u64, observedForSecs: u64, peakUsed: u64)

  datatype StruggleReason = Oom | Restart | ProbeFail | Uncertain

  datatype WakeReason = ByLoad | BySchedule | ByReadiness | ByDependency

  datatype Signals = Signals(
    metrics: Metrics, readiness: Option<bool>, load: Option<Load>, health: Health,
    dependencyReady: Option<bool>, scheduleActive: Option<bool>, costOverBudget: bool, now: i64)
  {
    predicate LoadActive() {
      load.Some? && load.value.IsActive()
    }

    function AnyWake(): (r: Option<WakeReason>) {
      if LoadActive() then Some(ByLoad)
      else if scheduleActive == Some(true) then Some(BySchedule)
      else if readiness == Some(true) then Some(ByReadiness)
      else if dependencyReady == Some(true) then Some(ByDependency)
      else None
    }

    predicate IsStruggling() {
      health.IsStruggling() || readiness == Some(false)
    }

    function Reason(): (r: StruggleReason) {
      if health.oom then Oom
      else if health.restarts > 0 then Restart
      else if health.probeFailures > 0 || readiness == Some(false) then ProbeFail
      else Uncertain
    }
  }

  // ---- the confirmed reading ---------------------------------------------

  datatype Uncertainty = MetricMissing | ZeroUsed | NoCapacity | WithinWarmup(observedFor: u64, warmup: u64)

  datatype Confirmed = Confirmed(used: u64, capacity: u64, peak: u64) {
    function Util(): (r: real)
      requires capacity > 0
    {
      used as real / capacity as real
    }
  }

  /** The one ingress to a confirmed reading. */
  function Parse(m: Metrics, warmupSeconds: u64): (r: Result<Confirmed, Uncertainty>)
    ensures r.Ok? ==> r.value.capacity > 0 && r.value.used > 0 && r.value.peak >= r.value.used
  {
    if m.used.None? then Err(MetricMissing)
    else if m.used.value == 0 then Err(ZeroUsed)
    else if m.capacity == 0 then Err(NoCapacity)
    else if m.observedForSecs < warmupSeconds then Err(WithinWarmup(m.observedForSecs, warmupSeconds))
    else Ok(Confirmed(m.used.value, m.capacity, Max(m.peakUsed, m.used.value)))
  }

  // ---- carried state -----------------------------------------------------

  datatype Carry = Carry(enteredAt: i64, limit: u64, startupMin: u64, shadowConfirmedFor: Option<u64>)

  /** The saturating age of the phase has reached `secs`. */
  predicate Elapsed(now: i64, enteredAt: i64, secs: u64) {
    var age := Clamp(now - enteredAt, I64_MIN, I64_MAX);
    age >= 0 && age >= secs
  }

  // ---- the tightening step -----------------------------------------------

  datatype Step = Step(from: u64, to: u64)

  function Multiply(n: u64, factor: real): (r: real) {
    n as real * factor
  }

  /** One geometric step down, bounded by `bottom` and by at least one byte of
      progress. */
  function PlanStep(from: u64, steadyTarget: u64, floor: u64, stepFactor: real): (r: Option<Step>)
    ensures r.None? <==> from <= Max(steadyTarget, floor)
    ensures r.Some? ==> r.value.from == from && Max(steadyTarget, floor) <= r.value.to < from
  {
    var bottom := Max(steadyTarget, floor);
    if from <= bottom then None
    else
      var factor := if 0.0 < stepFactor < 1.0 then stepFactor else 0.9;
      var stepped := Sat64(Max(0, Multiply(from, factor).Floor));
      Some(Step(from, Max(Min(Max(stepped, bottom), from - 1), bottom)))
  }

  function SteadyTarget(cfg: LifecycleConfig, proof: Confirmed): (r: u64) {
    SoftMin(proof.used, cfg.steady)
  }

  function TightenFloor(cfg: LifecycleConfig, proof: Confirmed, startupMin: u64): (r: u64) {
    Max(SafeMin(proof.peak, proof.used, cfg.steady), startupMin)
  }

  /** How low the descent may go on this reading. */
  function Bottom(cfg: LifecycleConfig, proof: Confirmed, startupMin: u64): (r: u64) {
    Max(SteadyTarget(cfg, proof), TightenFloor(cfg, proof, startupMin))
  }

  // ---- growing -----------------------------------------------------------

  /** `v.clamp(lo, hi)`; `None` where the source would panic. */
  function ClampOrPanic(v: u64, lo: u64, hi: u64): (r: Option<u64>) {
    if lo > hi then None else Some(Clamp(v, lo, hi))
  }

  function GrowHeadroom(current: u64, cfg: LifecycleConfig): (r: Option<u64>) {
    var factor := if cfg.expansionFactor >= 1.0 then cfg.expansionFactor else 1.0;
    var base := Max(current, cfg.steady.floorBytes);
    var grown := Sat64(Max(0, Ceil(Multiply(base, factor))));
    match ClampOrPanic(grown, base, cfg.steady.ceilingBytes)
    case None => None
    case Some(g) => Some(Max(g, current))
  }

  function ExpansionLimit(cfg: LifecycleConfig, startupWs: u64): (r: Option<u64>) {
    var seed := Max(Max(startupWs, cfg.steady.requestFloorBytes), cfg.steady.floorBytes);
    var expanded := Sat64(Max(0, Ceil(Multiply(seed, cfg.expansionFactor) / cfg.steady.Denominator())));
    match ClampOrPanic(expanded, cfg.steady.floorBytes, cfg.steady.ceilingBytes)
    case None => None
    case Some(e) => Some(Max(e, 1))
  }

  // ---- the fused decision ------------------------------------------------

  datatype Decision =
    | Hold
    | WakeUp(expansionLimit: u64, wakeReason: WakeReason)
    | Expand(toLimit: u64, reason: StruggleReason)
    | Tighten(step: Step, shadowOnly: bool)
    | ReachedSetpoint(limit: u64)
    | ReExpand(expansionLimit: u64, reason: StruggleReason)
    | GoIdle(timeToZeroSecs: u64)
    | Reload
    | ScaleToZero
  {
    function NextPhase(current: Phase): (r: Phase) {
      match this
      case WakeUp(_, _) => Wake
      case Tighten(_, _) => current
      case Hold => current
      case Expand(_, _) => current
      case ReachedSetpoint(_) => Steady
      case Reload => Steady
      case ReExpand(_, _) => Wake
      case GoIdle(_) => Idle
      case ScaleToZero => Zero
    }
  }

  datatype Gate = Gate(dryRun: bool, inCooldown: bool)

  predicate Healthy(cfg: LifecycleConfig, sig: Signals) {
    Parse(sig.metrics, cfg.steady.warmupSeconds).Ok? && !sig.IsStruggling()
  }

  function FuseWake(cfg: LifecycleConfig, sig: Signals, proof: Confirmed, carry: Carry): (r: Decision)
    requires proof.capacity > 0
  {
    if proof.Util() < cfg.steady.setpoint || Elapsed(sig.now, carry.enteredAt, cfg.expansionMaxSecs) then
      var floor := TightenFloor(cfg, proof, carry.startupMin);
      match PlanStep(carry.limit, SteadyTarget(cfg, proof), floor, cfg.settleStepFactor)
      case Some(step) => Tighten(step, true)
      case None => ReachedSetpoint(Max(carry.limit, floor))
    else Hold
  }

  function FuseSettle(cfg: LifecycleConfig, sig: Signals, proof: Confirmed, carry: Carry, gate: Gate): (r: Decision) {
    var floor := TightenFloor(cfg, proof, carry.startupMin);
    match PlanStep(carry.limit, SteadyTarget(cfg, proof), floor, cfg.settleStepFactor)
    case None => ReachedSetpoint(Max(carry.limit, floor))
    case Some(step) =>
      if Elapsed(sig.now, carry.enteredAt, cfg.settleMaxSecs) then ReachedSetpoint(Max(carry.limit, floor))
      else Tighten(step, gate.dryRun || carry.shadowConfirmedFor != Some(step.from))
  }

  function FuseSteady(cfg: LifecycleConfig, sig: Signals, proof: Confirmed): (r: Decision)
    requires proof.capacity > 0
  {
    var byUtil := proof.Util() < cfg.idleBelow && !sig.LoadActive();
    var bySchedule := sig.scheduleActive == Some(false) && !sig.LoadActive();
    if byUtil || sig.costOverBudget || bySchedule then GoIdle(cfg.idleToZeroSecs) else Hold
  }

  function FuseIdle(cfg: LifecycleConfig, sig: Signals, carry: Carry): (r: Decision) {
    if sig.LoadActive() || sig.scheduleActive == Some(true) then Reload
    else if Elapsed(sig.now, carry.enteredAt, cfg.idleToZeroSecs) || sig.costOverBudget then ScaleToZero
    else Hold
  }

  /** `None` where the source would panic. */
  function Fuse(phase: Phase, cfg: LifecycleConfig, sig: Signals, carry: Carry, gate: Gate): (r: Option<Decision>) {
    if phase == Zero then
      match sig.AnyWake()
      case None => Some(Hold)
      case Some(reason) =>
        var e := ExpansionLimit(cfg, if sig.metrics.used.Some? then sig.metrics.used.value else 0);
        if e.None? then None else Some(WakeUp(e.value, reason))
    else if !Healthy(cfg, sig) then
      var grown := GrowHeadroom(carry.limit, cfg);
      if grown.None? then None
      else if phase == Settle || phase == Steady then Some(ReExpand(grown.value, sig.Reason()))
      else Some(Expand(grown.value, sig.Reason()))
    else
      var proof := Parse(sig.metrics, cfg.steady.warmupSeconds).value;
      match phase
      case Wake => Some(FuseWake(cfg, sig, proof, carry))
      case Settle => Some(FuseSettle(cfg, sig, proof, carry, gate))
      case Steady => Some(FuseSteady(cfg, sig, proof))
      case Idle => Some(FuseIdle(cfg, sig, carry))
  }

  // ---- the planner -------------------------------------------------------

  datatype TickPlan = TickPlan(decision: Decision, nextPhase: Phase, actuate: Option<u64>, scaleToZero: bool)

  datatype Failure = BadConfig(error: ConfigError) | Panicked

  function Actuates(d: Decision, gate: Gate): (r: Option<u64>) {
    match d
    case WakeUp(e, _) => Some(e)
    case Expand(t, _) => Some(t)
    case ReExpand(e, _) => Some(e)
    case Tighten(step, shadowOnly) => if shadowOnly || gate.inCooldown then None else Some(step.to)
    case ReachedSetpoint(l) => Some(l)
    case _ => None
  }

  function PlanTick(phase: Phase, cfg: LifecycleConfig, sig: Signals, gate: Gate, carry: Carry)
    : (r: Result<TickPlan, Failure>)
  {
    var bad := cfg.Validate();
    if bad.Some? then Err(BadConfig(bad.value))
    else
      match Fuse(phase, cfg, sig, carry, gate)
      case None => Err(Panicked)
      case Some(d) => Ok(TickPlan(d, d.NextPhase(phase), Actuates(d, gate), d.ScaleToZero?))
  }
}
