/** What the horizontal law keeps over runs: convergence of the core law under a
    constant load, the count envelope under any ticks whatever, and the quorum
    guarantees with the exact conditions under which they hold. */
module ReplicaRuns {
  import opened Machine
  import opened RealSums
  import opened Replica

  function Dist(a: int, b: int): (r: nat) {
    if a <= b then b - a else a - b
  }

  // ---- the core law under a constant load --------------------------------

  /** Where a constant total load wants the count. */
  function Goal(cfg: BandConfig, load: real, floor: u32): (r: u32) {
    Clamp(cfg.signal.DesiredRaw(0, Finite(load), cfg.target), floor, Max(cfg.ceiling, floor))
  }

  /** The load has been constant over the window too, so its memory holds nothing
      above the present recommendation. */
  predicate Settled(cfg: BandConfig, load: real, window: Option<u32>) {
    window.None? || window.value <= cfg.signal.DesiredRaw(0, Finite(load), cfg.target)
  }

  function CoreTick(cfg: BandConfig, load: real, floor: u32, window: Option<u32>, current: u32): (r: Decision) {
    DecideCore(cfg, Observation(current, Finite(load), window, 0), floor)
  }

  /** A constant total load read as per-replica utilization decides exactly as the
      total does, so everything below holds for the utilization signal too. */
  lemma UtilizationIsRate(cfg: BandConfig, load: real, floor: u32, window: Option<u32>, reclaim: u32, current: u32)
    requires cfg.signal.Utilization? && current > 0 && load >= 0.0 && cfg.target > 0.0
    ensures DecideCore(cfg, Observation(current, Finite(load / current as real), window, reclaim), floor)
         == DecideCore(cfg.(signal := RequestRate), Observation(current, Finite(load), window, reclaim), floor)
  {
    var per := load / current as real;
    ShareOfLoad(load, current as real, cfg.target);
    UtilizationReads(load, per, current, cfg.target);
    hide Signal.DesiredRaw, Signal.MetricRatio, Exceeds, FallsBelow, Stabilized;
  }

  lemma UtilizationReads(load: real, per: real, current: u32, target: real)
    requires current > 0 && load >= 0.0 && target > 0.0 && per == load / current as real >= 0.0
    requires current as real * (per / target) == load / target
    ensures Utilization.DesiredRaw(current, Finite(per), target)
        == RequestRate.DesiredRaw(current, Finite(load), target)
    ensures Utilization.MetricRatio(current, Finite(per), target)
        == RequestRate.MetricRatio(current, Finite(load), target)
  {
    hide WholeReplicas;
    assert RequestRate.DesiredRaw(current, Finite(load), target) == WholeReplicas(load / target, current);
    UtilizationCount(per, current, target, load / target);
  }

  lemma UtilizationCount(per: real, current: u32, target: real, raw: real)
    requires per >= 0.0 && target > 0.0 && current as real * (per / target) == raw
    ensures Utilization.DesiredRaw(current, Finite(per), target) == WholeReplicas(raw, current)
  {
  }

  lemma ShareOfLoad(load: real, current: real, target: real)
    requires load >= 0.0 && current > 0.0 && target > 0.0
    ensures load / current >= 0.0
    ensures current * (load / current / target) == load / target
  {
    RatioAgainstCount(load, target, current);
    var per, raw := load / current, load / target;
    var ratio := per / target;
    assert per * current == load && raw * target == load && ratio * target == per;
    assert (raw - ratio * current) * target == 0.0;
  }

  lemma RawIgnoresCount(cfg: BandConfig, load: real, a: u32, b: u32)
    requires cfg.signal.IsAbsolute() && load >= 0.0 && cfg.target > 0.0
    ensures cfg.signal.DesiredRaw(a, Finite(load), cfg.target) == cfg.signal.DesiredRaw(b, Finite(load), cfg.target)
  {
  }

  /** One tick moves toward the goal, by at least one, never past it; up only from
      below and down only from above. */
  lemma TickTowardsGoal(cfg: BandConfig, load: real, floor: u32, window: Option<u32>, current: u32)
    requires cfg.signal.IsAbsolute() && load >= 0.0 && cfg.target > 0.0 && Settled(cfg, load, window)
    ensures var d, goal := CoreTick(cfg, load, floor, window, current), Goal(cfg, load, floor);
            && (d.ScaleUp? ==> current < d.to <= goal)
            && (d.ScaleDown? ==> goal <= d.to < current)
            && (!d.ScaleUp? && !d.ScaleDown? ==> d.Target() == current)
            && (d.IsCarve() <==> d.ScaleUp? || d.ScaleDown?)
  {
    RawIgnoresCount(cfg, load, current, 0);
  }

  /** The velocity caps: a carve either lands on the goal or moves by exactly the
      configured step, up or down. */
  lemma FullStepOrGoal(cfg: BandConfig, load: real, floor: u32, window: Option<u32>, current: u32)
    requires cfg.signal.IsAbsolute() && load >= 0.0 && cfg.target > 0.0 && Settled(cfg, load, window)
    ensures var d, goal := CoreTick(cfg, load, floor, window, current), Goal(cfg, load, floor);
            && (d.ScaleUp? ==>
                  d.to == goal <= current + cfg.UpStep(current) || d.to == current + cfg.UpStep(current) < goal)
            && (d.ScaleDown? ==>
                  d.to == goal >= current - cfg.DownStep(current) || d.to == current - cfg.DownStep(current) > goal)
  {
    RawIgnoresCount(cfg, load, current, 0);
    hide *;
    UpLands(cfg, load, floor, window, current);
    DownLands(cfg, load, floor, window, current);
  }

  lemma UpLands(cfg: BandConfig, load: real, floor: u32, window: Option<u32>, current: u32)
    requires cfg.signal.DesiredRaw(current, Finite(load), cfg.target)
        == cfg.signal.DesiredRaw(0, Finite(load), cfg.target)
    ensures var d, goal := CoreTick(cfg, load, floor, window, current), Goal(cfg, load, floor);
            d.ScaleUp? ==> d.to == goal <= current + cfg.UpStep(current) || d.to == current + cfg.UpStep(current) < goal
  {
    hide BandConfig.UpStep, BandConfig.DownStep, Signal.DesiredRaw, WantsUp, WantsDown, Stabilized;
  }

  lemma DownLands(cfg: BandConfig, load: real, floor: u32, window: Option<u32>, current: u32)
    requires cfg.signal.DesiredRaw(current, Finite(load), cfg.target)
        == cfg.signal.DesiredRaw(0, Finite(load), cfg.target)
    requires Settled(cfg, load, window)
    ensures var d, goal := CoreTick(cfg, load, floor, window, current), Goal(cfg, load, floor);
            d.ScaleDown? ==>
              d.to == goal >= current - cfg.DownStep(current) || d.to == current - cfg.DownStep(current) > goal
  {
    hide BandConfig.UpStep, BandConfig.DownStep, Signal.DesiredRaw, WantsUp, WantsDown;
  }

  /** The stabilization window: a scale-in never undercuts the highest
      recommendation in it, as far as the ceiling allows (and, for a quorum, up to
      the snap to an odd count). */
  lemma WindowHolds(cfg: BandConfig, obs: Observation, floor: u32)
    requires obs.windowMax.Some?
    ensures DecideCore(cfg, obs, floor).ScaleDown? ==>
      DecideCore(cfg, obs, floor).to >= Min(obs.windowMax.value, Max(cfg.ceiling, floor))
    ensures DecideQuorum(cfg, obs).ScaleDown? ==>
      DecideQuorum(cfg, obs).to >= Min(obs.windowMax.value - 1, QuorumCeiling(cfg))
  {
    hide Signal.DesiredRaw, WantsUp, WantsDown;
  }

  /** Exactly when the core law rests: it wants no move, or it is already at or past
      the goal on that side. */
  lemma RestsIff(cfg: BandConfig, load: real, floor: u32, window: Option<u32>, current: u32)
    requires cfg.signal.IsAbsolute() && load >= 0.0 && cfg.target > 0.0 && Settled(cfg, load, window)
    ensures !CoreTick(cfg, load, floor, window, current).IsCarve()
       <==> (WantsUp(cfg, current, Finite(load)) ==> Goal(cfg, load, floor) <= current || current == U32_MAX)
            && (WantsDown(cfg, current, Finite(load)) && !WantsUp(cfg, current, Finite(load))
                ==> current <= Goal(cfg, load, floor))
  {
    RawIgnoresCount(cfg, load, current, 0);
  }

  /** Inside the envelope a resting count is at the goal or within the dead-band. */
  lemma RestsAtGoalOrInBand(cfg: BandConfig, load: real, floor: u32, window: Option<u32>, current: u32)
    requires cfg.signal.IsAbsolute() && load >= 0.0 && cfg.target > 0.0 && Settled(cfg, load, window)
    requires cfg.toleranceUp >= 0.0 && cfg.toleranceDown >= 0.0
    requires floor <= current <= Max(cfg.ceiling, floor) && current <= MAX_REPLICAS
    requires !CoreTick(cfg, load, floor, window, current).IsCarve()
    ensures current == Goal(cfg, load, floor)
         || (!WantsUp(cfg, current, Finite(load)) && !WantsDown(cfg, current, Finite(load)))
  {
    RestsIff(cfg, load, floor, window, current);
    RawIgnoresCount(cfg, load, current, 0);
    if current > 0 {
      RatioAgainstCount(load, current as real, cfg.target);
      var raw := load / cfg.target;
      assert cfg.signal.MetricRatio(current, Finite(load), cfg.target) == Ratio(load / current as real / cfg.target);
    }
  }

  /** Being above one per-replica target is needing more replicas than there are. */
  lemma RatioAgainstCount(load: real, current: real, target: real)
    requires current > 0.0 && target > 0.0 && load >= 0.0
    ensures load / current / target > 1.0 ==> load / target > current
    ensures load / current / target < 1.0 ==> load / target < current
    ensures load / target >= 0.0
  {
    assert Over(Over(load, current), target) == load / current / target && Over(load, target) == load / target;
    hide Times, Over;
    OverAtMost(Over(load, current), target, 1.0);
    TimesOne(target);
    OverAtMost(load, current, target);
    OverAtMost(load, target, current);
    TimesSwap(target, current, 0.0);
    OverSign(load, target);
  }

  /** The count after a run of ticks under the same load. */
  function CoreRun(cfg: BandConfig, load: real, floor: u32, windows: seq<Option<u32>>, start: u32): (r: u32) {
    if windows == [] then start
    else
      var front := windows[..|windows| - 1];
      CoreTick(cfg, load, floor, windows[|windows| - 1], CoreRun(cfg, load, floor, front, start)).Target()
  }

  function CoreCarves(cfg: BandConfig, load: real, floor: u32, windows: seq<Option<u32>>, start: u32): (r: nat) {
    if windows == [] then 0
    else
      var front := windows[..|windows| - 1];
      CoreCarves(cfg, load, floor, front, start)
      + if CoreTick(cfg, load, floor, windows[|windows| - 1], CoreRun(cfg, load, floor, front, start)).IsCarve()
        then 1 else 0
  }

  ghost predicate ConstantLoad(cfg: BandConfig, load: real, windows: seq<Option<u32>>) {
    && cfg.signal.IsAbsolute() && load >= 0.0 && cfg.target > 0.0
    && forall i :: 0 <= i < |windows| ==> Settled(cfg, load, windows[i])
  }

  /** Every carve is paid for by the distance to the goal, and the run stays on the
      side of the goal it started on. */
  lemma {:induction false} RunConverges(cfg: BandConfig, load: real, floor: u32, windows: seq<Option<u32>>, start: u32)
    requires ConstantLoad(cfg, load, windows)
    ensures var goal, now := Goal(cfg, load, floor), CoreRun(cfg, load, floor, windows, start);
            && CoreCarves(cfg, load, floor, windows, start) + Dist(now, goal) <= Dist(start, goal)
            && (start <= goal ==> start <= now <= goal)
            && (start >= goal ==> goal <= now <= start)
  {
    if windows != [] {
      var front := windows[..|windows| - 1];
      RunConverges(cfg, load, floor, front, start);
      TickTowardsGoal(cfg, load, floor, windows[|windows| - 1], CoreRun(cfg, load, floor, front, start));
    }
  }

  /** No oscillation: once a run has scaled up it never scales down, nor the other
      way round. */
  lemma NeverReverses(cfg: BandConfig, load: real, floor: u32, windows: seq<Option<u32>>, start: u32, i: nat, j: nat)
    requires ConstantLoad(cfg, load, windows) && i < |windows| && j < |windows|
    ensures !(CoreTick(cfg, load, floor, windows[i], CoreRun(cfg, load, floor, windows[..i], start)).ScaleUp?
              && CoreTick(cfg, load, floor, windows[j], CoreRun(cfg, load, floor, windows[..j], start)).ScaleDown?)
  {
    RunConverges(cfg, load, floor, windows[..i], start);
    RunConverges(cfg, load, floor, windows[..j], start);
    TickTowardsGoal(cfg, load, floor, windows[i], CoreRun(cfg, load, floor, windows[..i], start));
    TickTowardsGoal(cfg, load, floor, windows[j], CoreRun(cfg, load, floor, windows[..j], start));
  }

  lemma RestStays(cfg: BandConfig, load: real, floor: u32, w: Option<u32>, v: Option<u32>, current: u32)
    requires cfg.signal.IsAbsolute() && load >= 0.0 && cfg.target > 0.0 && Settled(cfg, load, w)
        && Settled(cfg, load, v)
    requires !CoreTick(cfg, load, floor, w, current).IsCarve()
    ensures !CoreTick(cfg, load, floor, v, current).IsCarve()
    ensures CoreTick(cfg, load, floor, w, current).Target() == current
  {
    RestsIff(cfg, load, floor, w, current);
    RestsIff(cfg, load, floor, v, current);
    TickTowardsGoal(cfg, load, floor, w, current);
  }

  lemma {:induction false} RestingOrCarving(cfg: BandConfig, load: real, floor: u32, windows: seq<Option<u32>>,
      start: u32, next: Option<u32>)
    requires ConstantLoad(cfg, load, windows) && Settled(cfg, load, next)
    ensures CoreTick(cfg, load, floor, next, CoreRun(cfg, load, floor, windows, start)).IsCarve()
        ==> CoreCarves(cfg, load, floor, windows, start) == |windows|
  {
    if windows != [] {
      var front, last := windows[..|windows| - 1], windows[|windows| - 1];
      var before := CoreRun(cfg, load, floor, front, start);
      RestingOrCarving(cfg, load, floor, front, start, last);
      if !CoreTick(cfg, load, floor, last, before).IsCarve() {
        RestStays(cfg, load, floor, last, next, before);
      }
    }
  }

  /** After at most `|start - goal|` ticks the law is at rest, for good: the carves
      come first, all of them, and every later tick leaves the count alone. */
  lemma RestsWithinDistance(cfg: BandConfig, load: real, floor: u32, windows: seq<Option<u32>>, start: u32,
      next: Option<u32>)
    requires ConstantLoad(cfg, load, windows) && Settled(cfg, load, next)
    requires |windows| >= Dist(start, Goal(cfg, load, floor))
    ensures !CoreTick(cfg, load, floor, next, CoreRun(cfg, load, floor, windows, start)).IsCarve()
  {
    RunConverges(cfg, load, floor, windows, start);
    RestingOrCarving(cfg, load, floor, windows, start, next);
    TickTowardsGoal(cfg, load, floor, next, CoreRun(cfg, load, floor, windows, start));
  }

  // ---- the envelope under any ticks --------------------------------------

  predicate InEnvelope(cfg: BandConfig, n: u32) {
    cfg.TopologyFloor() <= n <= Max(cfg.ceiling, cfg.TopologyFloor())
  }

  /** One planned tick on a live count: what the environment adds to the count. */
  datatype Tick = Tick(readable: bool, value: Option<Reading>, windowMax: Option<u32>, reclaimPending: u32, gate: Gate)

  function EnvironmentAt(n: u32, t: Tick): (r: Environment) {
    Environment(if t.readable then Some(n) else None, t.value, t.windowMax, t.reclaimPending)
  }

  /** The count after one planned tick is written. */
  function AfterTick(cfg: BandConfig, n: u32, t: Tick): (r: u32) {
    var plan := PlanTick(cfg, EnvironmentAt(n, t), t.gate);
    if plan.Ok? && plan.value.actuate.Some? then plan.value.actuate.value else n
  }

  function AfterTicks(cfg: BandConfig, n: u32, ticks: seq<Tick>): (r: u32) {
    if ticks == [] then n
    else AfterTick(cfg, AfterTicks(cfg, n, ticks[..|ticks| - 1]), ticks[|ticks| - 1])
  }

  lemma CoreStaysInside(cfg: BandConfig, obs: Observation, floor: u32)
    requires floor <= obs.current <= Max(cfg.ceiling, floor)
    ensures floor <= DecideCore(cfg, obs, floor).Target() <= Max(cfg.ceiling, floor)
  {
  }

  lemma QuorumStaysInside(cfg: BandConfig, obs: Observation)
    requires cfg.topology.FullyDistributed? && InEnvelope(cfg, obs.current)
    ensures InEnvelope(cfg, DecideQuorum(cfg, obs).Target())
  {
    hide Signal.DesiredRaw, WantsUp, WantsDown, Stabilized;
  }

  lemma TickStaysInside(cfg: BandConfig, n: u32, t: Tick)
    requires InEnvelope(cfg, n)
    ensures InEnvelope(cfg, AfterTick(cfg, n, t))
  {
    if t.gate.force.None? && t.value.Some? {
      var obs := Observation(n, t.value.value, t.windowMax, t.reclaimPending);
      if cfg.topology.FullyDistributed? {
        QuorumStaysInside(cfg, obs);
      } else {
        CoreStaysInside(cfg, obs, cfg.TopologyFloor());
      }
    }
  }

  /** The envelope is an invariant of every run: any signals, windows, reclaims,
      gates and forced counts. */
  lemma {:induction false} RunStaysInside(cfg: BandConfig, n: u32, ticks: seq<Tick>)
    requires InEnvelope(cfg, n)
    ensures InEnvelope(cfg, AfterTicks(cfg, n, ticks))
  {
    if ticks != [] {
      RunStaysInside(cfg, n, ticks[..|ticks| - 1]);
      TickStaysInside(cfg, AfterTicks(cfg, n, ticks[..|ticks| - 1]), ticks[|ticks| - 1]);
    }
  }

  /** Shadow and cooldown write nothing. */
  lemma QuietGatesHold(cfg: BandConfig, n: u32, t: Tick)
    requires t.gate.dryRun || t.gate.inCooldown
    ensures AfterTick(cfg, n, t) == n
    ensures PlanTick(cfg, EnvironmentAt(n, t), t.gate).Ok?
        ==> !PlanTick(cfg, EnvironmentAt(n, t), t.gate).value.deferred
  {
    hide DecideReplicas, Forced, BandConfig.Validate;
  }

  predicate IsLive(t: Tick) {
    !t.gate.dryRun && !t.gate.inCooldown
  }

  function LiveOnly(ticks: seq<Tick>): (r: seq<Tick>) {
    if ticks == [] then []
    else LiveOnly(ticks[..|ticks| - 1]) + if IsLive(ticks[|ticks| - 1]) then [ticks[|ticks| - 1]] else []
  }

  /** Ticks in shadow or cooldown leave no trace in any run: the live ticks alone
      give the same count. */
  lemma {:induction false} QuietTicksLeaveNoTrace(cfg: BandConfig, n: u32, ticks: seq<Tick>)
    ensures AfterTicks(cfg, n, ticks) == AfterTicks(cfg, n, LiveOnly(ticks))
  {
    hide AfterTick;
    if ticks != [] {
      var front, last := ticks[..|ticks| - 1], ticks[|ticks| - 1];
      QuietTicksLeaveNoTrace(cfg, n, front);
      if IsLive(last) {
        assert LiveOnly(ticks)[..|LiveOnly(front)|] == LiveOnly(front);
      } else {
        assert LiveOnly(ticks) == LiveOnly(front);
        QuietGatesHold(cfg, AfterTicks(cfg, n, front), last);
      }
    }
  }

  /** What a tick writes, if it writes. */
  function Written(cfg: BandConfig, n: u32, t: Tick): (w: Option<u32>) {
    var plan := PlanTick(cfg, EnvironmentAt(n, t), t.gate);
    if plan.Ok? then plan.value.actuate else None
  }

  ghost predicate WritesAt(cfg: BandConfig, n: u32, ticks: seq<Tick>, i: nat)
    requires i < |ticks|
  {
    Written(cfg, AfterTicks(cfg, n, ticks[..i]), ticks[i]).Some?
  }

  /** The count after any run is what its last write decided, and that tick was live;
      without a write it is the count at the start. */
  lemma {:induction false} LastWriteStands(cfg: BandConfig, n: u32, ticks: seq<Tick>) returns (k: nat)
    ensures k <= |ticks| && (k == 0 ==> AfterTicks(cfg, n, ticks) == n)
    ensures k > 0 ==>
      var t := ticks[k - 1];
      var plan := PlanTick(cfg, EnvironmentAt(AfterTicks(cfg, n, ticks[..k - 1]), t), t.gate);
      && IsLive(t) && plan.Ok? && plan.value.decision.IsCarve() && !plan.value.deferred
      && plan.value.decision.Target() == AfterTicks(cfg, n, ticks)
    ensures forall i :: k <= i < |ticks| ==> !WritesAt(cfg, n, ticks, i)
    ensures k > 0 ==> WritesAt(cfg, n, ticks, k - 1)
  {
    hide BandConfig.Validate, Interpret, Forced, Decision.IsCarve, Decision.Target;
    if ticks == [] {
      return 0;
    }
    var front, last := ticks[..|ticks| - 1], ticks[|ticks| - 1];
    if Written(cfg, AfterTicks(cfg, n, front), last).Some? {
      k := |ticks|;
      assert ticks[..k - 1] == front;
    } else {
      k := LastWriteStands(cfg, n, front);
      forall i | 0 <= i <= |front| ensures ticks[..i] == front[..i] {
      }
      assert front[..|front|] == front;
      forall i | k <= i < |ticks| ensures !WritesAt(cfg, n, ticks, i) {
        if i < |front| {
          assert !WritesAt(cfg, n, front, i);
        }
      }
      assert k > 0 ==> WritesAt(cfg, n, front, k - 1);
    }
  }

  /** A live tick writes what it decided, unless it is a scale-in the disruption
      policy refuses; then it writes nothing and says so. */
  lemma LiveTickLands(cfg: BandConfig, n: u32, t: Tick)
    requires !t.gate.dryRun && !t.gate.inCooldown && PlanTick(cfg, EnvironmentAt(n, t), t.gate).Ok?
    ensures var plan := PlanTick(cfg, EnvironmentAt(n, t), t.gate).value;
            var refused := plan.decision.ScaleDown? && !t.gate.scaleInPermitted;
            AfterTick(cfg, n, t) == (if refused then n else plan.decision.Target()) && plan.deferred == refused
  {
    if t.gate.force.None? && t.value.Some? {
      DecisionsStandFrom(cfg, Observation(n, t.value.value, t.windowMax, t.reclaimPending));
    }
    hide DecideReplicas, BandConfig.Validate, BandConfig.TopologyFloor, Topology.QuantizeTarget;
  }

  /** A decision that is no carve leaves the count; one that is a scale-in moves it. */
  lemma DecisionsStandFrom(cfg: BandConfig, obs: Observation)
    ensures var d := DecideReplicas(cfg, obs);
            (!d.IsCarve() ==> d.Target() == obs.current) && (d.ScaleDown? ==> d.IsCarve())
  {
    hide Signal.DesiredRaw, WantsUp, WantsDown, Stabilized, BandConfig.UpStep, BandConfig.DownStep,
      BandConfig.TopologyFloor, QuorumCeiling, AtLeast, AtMost, StepUp, StepDown;
  }

  lemma ReclaimNeverLowersInside(cfg: BandConfig, obs: Observation)
    requires InEnvelope(cfg, obs.current)
    requires cfg.topology.FullyDistributed? ==> obs.current <= QuorumCeiling(cfg)
    ensures DecideReplicas(cfg, obs).Target() < obs.current ==> DecideReplicas(cfg, obs).ScaleDown?
  {
    if obs.reclaimPending > 0 {
      ReclaimLowersIff(cfg, obs);
    }
    hide Signal.DesiredRaw, WantsUp, WantsDown, Stabilized, BandConfig.UpStep, BandConfig.DownStep;
  }

  /** Where the policy refuses scale-ins no run lowers the count, forced or not,
      from anywhere inside the walls. */
  lemma {:induction false} RefusedRunsNeverShrink(cfg: BandConfig, n: u32, ticks: seq<Tick>)
    requires InEnvelope(cfg, n) && n <= Wall(cfg)
    requires forall i :: 0 <= i < |ticks| ==> !ticks[i].gate.scaleInPermitted
    ensures n <= AfterTicks(cfg, n, ticks) <= Wall(cfg)
  {
    if ticks != [] {
      var front, last := ticks[..|ticks| - 1], ticks[|ticks| - 1];
      RefusedRunsNeverShrink(cfg, n, front);
      RunStaysInside(cfg, n, front);
      RefusedTick(cfg, AfterTicks(cfg, n, front), last);
    }
  }

  lemma CoreUnderWall(cfg: BandConfig, obs: Observation, floor: u32, wall: u32)
    requires Max(cfg.ceiling, floor) <= wall && obs.current <= wall
    ensures DecideCore(cfg, obs, floor).Target() <= wall
  {
    hide Signal.DesiredRaw, WantsUp, WantsDown, Stabilized, BandConfig.UpStep, BandConfig.DownStep;
  }

  lemma QuorumUnderWall(cfg: BandConfig, obs: Observation, wall: u32)
    requires cfg.topology.FullyDistributed? && QuorumCeiling(cfg) <= wall && obs.current <= wall
    ensures DecideQuorum(cfg, obs).Target() <= wall
  {
    assert cfg.TopologyFloor() <= QuorumCeiling(cfg);
    hide Signal.DesiredRaw, WantsUp, WantsDown, Stabilized, QuorumCeiling, BandConfig.TopologyFloor;
  }

  lemma WithinWall(cfg: BandConfig, obs: Observation)
    requires obs.current <= Wall(cfg)
    ensures DecideReplicas(cfg, obs).Target() <= Wall(cfg)
  {
    if cfg.topology.FullyDistributed? {
      QuorumUnderWall(cfg, obs, QuorumCeiling(cfg));
    } else {
      CoreUnderWall(cfg, obs, cfg.EffectiveFloor(), Wall(cfg));
      CoreUnderWall(cfg, obs, cfg.TopologyFloor(), Wall(cfg));
    }
    hide DecideCore, DecideQuorum, QuorumCeiling;
  }

  lemma RefusedTick(cfg: BandConfig, n: u32, t: Tick)
    requires InEnvelope(cfg, n) && n <= Wall(cfg) && !t.gate.scaleInPermitted
    ensures n <= AfterTick(cfg, n, t) <= Wall(cfg)
  {
    if t.gate.force.None? && t.value.Some? {
      var obs := Observation(n, t.value.value, t.windowMax, t.reclaimPending);
      ReclaimNeverLowersInside(cfg, obs);
      WithinWall(cfg, obs);
      hide DecideReplicas, Wall, InEnvelope, BandConfig.Validate;
    }
  }

  /** The ceiling that binds a scale-out: odd for a quorum. */
  function Wall(cfg: BandConfig): (r: u32) {
    if cfg.topology.FullyDistributed? then QuorumCeiling(cfg) else Max(cfg.ceiling, cfg.TopologyFloor())
  }

  /** A pending reclaim is covered: the decision goes to what the load needs and at
      least the current count plus the doomed replicas, as far as the wall allows, and
      no further than the floor asks or a quorum rounds up. */
  lemma ReclaimIsCovered(cfg: BandConfig, obs: Observation)
    requires obs.reclaimPending > 0
    ensures var d := DecideReplicas(cfg, obs);
            var want := Max(obs.current + obs.reclaimPending,
                cfg.signal.DesiredRaw(obs.current, obs.value, cfg.target));
            && d.SpotScaleOut? && d.from == obs.current && d.reclaim == obs.reclaimPending
            && Min(Wall(cfg), want) <= d.to <= Max(if cfg.topology.FullyDistributed? then want + 1 else want,
                cfg.TopologyFloor())
  {
    hide Signal.DesiredRaw, WantsUp, WantsDown, Stabilized;
  }

  /** Exactly when a pending reclaim lowers the count: when it is above the wall. */
  lemma ReclaimLowersIff(cfg: BandConfig, obs: Observation)
    requires obs.reclaimPending > 0
    ensures DecideReplicas(cfg, obs).Target() < obs.current <==> Wall(cfg) < obs.current
  {
    hide Signal.DesiredRaw, WantsUp, WantsDown, Stabilized;
  }

  lemma PersistentTick(cfg: BandConfig, n: u32, t: Tick)
    requires cfg.topology.Persistent? && InEnvelope(cfg, n) && t.gate.force.None?
    ensures AfterTick(cfg, n, t) >= n
  {
  }

  /** Unforced runs of a persistent workload never lower its count. */
  lemma {:induction false} PersistentNeverShrinks(cfg: BandConfig, n: u32, ticks: seq<Tick>)
    requires cfg.topology.Persistent? && InEnvelope(cfg, n)
    requires forall i :: 0 <= i < |ticks| ==> ticks[i].gate.force.None?
    ensures AfterTicks(cfg, n, ticks) >= n
  {
    if ticks != [] {
      var front := ticks[..|ticks| - 1];
      PersistentNeverShrinks(cfg, n, front);
      RunStaysInside(cfg, n, front);
      PersistentTick(cfg, AfterTicks(cfg, n, front), ticks[|ticks| - 1]);
    }
  }

  /** A default count band of a stateless workload with at most five replicas. */
  function FiveAtMost(): (r: BandConfig) {
    BandConfig(1, None, 5, RequestRate, 1.0, 0.1, 0.1, 100, 4, 10, 1, NonPersistent)
  }

  /** Ten replicas over a ceiling of five, one about to be reclaimed: the scale-out
      goes to five. */
  lemma ReclaimLowers()
    ensures FiveAtMost().Validate().Ok?
    ensures DecideReplicas(FiveAtMost(), Observation(10, Finite(10.0), None, 1)) == SpotScaleOut(10, 5, 1)
  {
  }

  // ---- the configured ceiling --------------------------------------------

  /** A valid band's floor passes its ceiling exactly when a quorum's floor sits on
      an even ceiling: snapping it to odd takes it one above. */
  lemma FloorAboveCeilingIff(cfg: BandConfig)
    requires cfg.Validate().Ok?
    ensures cfg.TopologyFloor() > cfg.ceiling
       <==> cfg.topology.FullyDistributed? && cfg.EffectiveFloor() == cfg.ceiling && cfg.ceiling % 2 == 0
  {
  }

  lemma TickUnderCeiling(cfg: BandConfig, n: u32, t: Tick)
    requires cfg.TopologyFloor() <= cfg.ceiling && n <= cfg.ceiling
    ensures AfterTick(cfg, n, t) <= cfg.ceiling
  {
    if t.gate.force.None? && t.value.Some? {
      var obs := Observation(n, t.value.value, t.windowMax, t.reclaimPending);
      if cfg.topology.FullyDistributed? {
        QuorumUnderWall(cfg, obs, cfg.ceiling);
      } else {
        CoreUnderWall(cfg, obs, cfg.EffectiveFloor(), cfg.ceiling);
        CoreUnderWall(cfg, obs, cfg.TopologyFloor(), cfg.ceiling);
      }
    }
    hide DecideCore, DecideQuorum;
  }

  lemma {:induction false} RunUnderCeiling(cfg: BandConfig, n: u32, ticks: seq<Tick>)
    requires cfg.TopologyFloor() <= cfg.ceiling && n <= cfg.ceiling
    ensures AfterTicks(cfg, n, ticks) <= cfg.ceiling
  {
    hide AfterTick, BandConfig.TopologyFloor;
    if ticks != [] {
      RunUnderCeiling(cfg, n, ticks[..|ticks| - 1]);
      TickUnderCeiling(cfg, AfterTicks(cfg, n, ticks[..|ticks| - 1]), ticks[|ticks| - 1]);
    }
  }

  /** A live tick forcing any count at all. */
  function ForcedTick(): (r: Tick) {
    Tick(true, None, None, 0, Gate(false, false, true, Some(0)))
  }

  lemma ForcedToFloor(cfg: BandConfig, n: u32)
    requires cfg.Validate().Ok? && n <= cfg.ceiling < cfg.TopologyFloor()
    ensures AfterTicks(cfg, n, [ForcedTick()]) == cfg.TopologyFloor()
  {
    var ticks := [ForcedTick()];
    assert ticks[..0] == [];
    assert AfterTicks(cfg, n, ticks) == AfterTick(cfg, n, ForcedTick());
  }

  /** "Never above the ceiling" holds of all runs of a valid band, from every count
      under it, exactly when the floor does not sit on an even ceiling of a quorum. */
  lemma NeverAboveCeilingIff(cfg: BandConfig)
    requires cfg.Validate().Ok?
    ensures (forall n: u32, ticks :: n <= cfg.ceiling ==> AfterTicks(cfg, n, ticks) <= cfg.ceiling)
       <==> !(cfg.topology.FullyDistributed? && cfg.EffectiveFloor() == cfg.ceiling && cfg.ceiling % 2 == 0)
  {
    FloorAboveCeilingIff(cfg);
    if cfg.TopologyFloor() > cfg.ceiling {
      ForcedToFloor(cfg, 0);
    } else {
      forall n: u32, ticks | n <= cfg.ceiling ensures AfterTicks(cfg, n, ticks) <= cfg.ceiling {
        RunUnderCeiling(cfg, n, ticks);
      }
    }
  }

  /** A quorum of exactly four is scaled to five. */
  function QuorumOfFour(): (r: BandConfig) {
    BandConfig(4, None, 4, RequestRate, 1.0, 0.1, 0.2, 100, 4, 10, 1, FullyDistributed)
  }

  lemma ScalesAboveCeiling()
    ensures QuorumOfFour().Validate().Ok?
    ensures DecideReplicas(QuorumOfFour(), Observation(4, Finite(8.0), None, 0)) == ScaleUp(4, 5)
  {
  }

  // ---- quorums -----------------------------------------------------------

  predicate IsQuorum(n: u32) {
    n >= 3 && n % 2 == 1
  }

  /** Whatever the current count, a quorum carve goes to an odd count of at least
      three: reactive or forced. */
  lemma QuorumTargetsAreQuorums(cfg: BandConfig, env: Environment, gate: Gate)
    requires cfg.topology.FullyDistributed?
    ensures var plan := PlanTick(cfg, env, gate);
            plan.Ok? && plan.value.decision.IsCarve() ==> IsQuorum(plan.value.decision.Target())
  {
    hide Signal.DesiredRaw, WantsUp, WantsDown, Stabilized, BandConfig.Validate, DecideCore;
    if gate.force.None? && env.current.Some? && env.value.Some? {
      QuorumDecisionIsOdd(cfg, Observation(env.current.value, env.value.value, env.windowMax, env.reclaimPending));
      hide DecideQuorum;
    }
  }

  lemma QuorumDecisionIsOdd(cfg: BandConfig, obs: Observation)
    requires cfg.topology.FullyDistributed?
    ensures DecideQuorum(cfg, obs).IsCarve() ==> IsQuorum(DecideQuorum(cfg, obs).Target())
  {
    hide Signal.DesiredRaw, WantsUp, WantsDown, Stabilized;
  }

  lemma {:induction false} QuorumRunsStayOdd(cfg: BandConfig, n: u32, ticks: seq<Tick>)
    requires cfg.topology.FullyDistributed? && IsQuorum(n)
    ensures IsQuorum(AfterTicks(cfg, n, ticks))
  {
    if ticks != [] {
      var front, last := ticks[..|ticks| - 1], ticks[|ticks| - 1];
      QuorumRunsStayOdd(cfg, n, front);
      QuorumTargetsAreQuorums(cfg, EnvironmentAt(AfterTicks(cfg, n, front), last), last.gate);
    }
  }

  /** From any count, odd or even: a run ends on a quorum exactly when it started on
      one or wrote anything at all. */
  lemma EndsOnQuorumIff(cfg: BandConfig, n: u32, ticks: seq<Tick>)
    requires cfg.topology.FullyDistributed?
    ensures IsQuorum(AfterTicks(cfg, n, ticks))
       <==> IsQuorum(n) || exists i :: 0 <= i < |ticks| && WritesAt(cfg, n, ticks, i)
  {
    hide WritesAt, AfterTicks, PlanTick, IsQuorum;
    var k := LastWriteStands(cfg, n, ticks);
    if k > 0 {
      var t := ticks[k - 1];
      QuorumTargetsAreQuorums(cfg, EnvironmentAt(AfterTicks(cfg, n, ticks[..k - 1]), t), t.gate);
    }
  }

  /** An even count inside the dead-band rests there. */
  lemma EvenCountRests()
    ensures DecideQuorum(DefaultQuorum(), Observation(4, Finite(4.0), None, 0)) == Hold(4)
  {
  }

  /** Exactly when a reactive shrink leaves a majority of the old membership: when
      that majority fits under the quorum ceiling (always, from inside it). */
  lemma ShrinkKeepsMajorityIff(cfg: BandConfig, obs: Observation)
    requires cfg.topology.FullyDistributed? && DecideQuorum(cfg, obs).ScaleDown?
    ensures DecideQuorum(cfg, obs).to >= obs.current / 2 + 1 <==> obs.current / 2 + 1 <= QuorumCeiling(cfg)
  {
    hide Signal.DesiredRaw, WantsUp, WantsDown, Stabilized;
  }

  /** A quorum of at most three. */
  function ThreeAtMost(): (r: BandConfig) {
    DefaultQuorum().(ceiling := 3)
  }

  /** Nine members over that ceiling shrink to three at once, short of the five that
      would be a majority of the old membership. */
  lemma ShrinkLosesMajority()
    ensures ThreeAtMost().Validate().Ok?
    ensures DecideQuorum(ThreeAtMost(), Observation(9, Finite(1.0), None, 0)) == ScaleDown(9, 3) && 3 < 9 / 2 + 1
  {
    var ratio := 1.0 / 9.0;
    assert ratio < 0.8;
  }

  /** Exactly when the quorum law flaps between two rungs under a constant load:
      when both dead-bands are left, and the load needs no more than one replica
      above the lower rung. */
  lemma QuorumFlapsIff(cfg: BandConfig, load: real, k: u32)
    requires cfg.topology.FullyDistributed? && cfg.signal.IsAbsolute() && cfg.target > 0.0 && load >= 0.0
    requires IsQuorum(k) && cfg.TopologyFloor() <= k && k + 2 <= QuorumCeiling(cfg) && k + 2 < MAX_REPLICAS
    ensures (DecideQuorum(cfg, Observation(k, Finite(load), None, 0)) == ScaleUp(k, k + 2)
             && DecideQuorum(cfg, Observation(k + 2, Finite(load), None, 0)) == ScaleDown(k + 2, k))
       <==> WantsUp(cfg, k, Finite(load)) && !WantsUp(cfg, k + 2, Finite(load)) && WantsDown(cfg, k + 2, Finite(load))
            && k as real < load / cfg.target <= (k + 1) as real
  {
    RawIgnoresCount(cfg, load, k, k + 2);
    RawOnLowerRung(cfg, load, k);
    hide *;
    RungUp(cfg, load, k);
    RungDown(cfg, load, k);
  }

  lemma RungUp(cfg: BandConfig, load: real, k: u32)
    requires cfg.topology.FullyDistributed? && IsQuorum(k) && cfg.TopologyFloor() <= k && k + 2 <= QuorumCeiling(cfg)
    ensures DecideQuorum(cfg, Observation(k, Finite(load), None, 0)) == ScaleUp(k, k + 2)
       <==> WantsUp(cfg, k, Finite(load)) && cfg.signal.DesiredRaw(k, Finite(load), cfg.target) >= k + 1
  {
    hide Signal.DesiredRaw, WantsUp, WantsDown;
  }

  lemma RungDown(cfg: BandConfig, load: real, k: u32)
    requires cfg.topology.FullyDistributed? && IsQuorum(k) && cfg.TopologyFloor() <= k && k + 2 <= QuorumCeiling(cfg)
    ensures DecideQuorum(cfg, Observation(k + 2, Finite(load), None, 0)) == ScaleDown(k + 2, k)
       <==> !WantsUp(cfg, k + 2, Finite(load)) && WantsDown(cfg, k + 2, Finite(load))
            && cfg.signal.DesiredRaw(k + 2, Finite(load), cfg.target) <= k + 1
  {
    hide Signal.DesiredRaw, WantsUp, WantsDown;
  }

  /** The raw count is one above `k` exactly for loads between `k` and `k + 1`. */
  lemma RawOnLowerRung(cfg: BandConfig, load: real, k: u32)
    requires cfg.signal.IsAbsolute() && cfg.target > 0.0 && load >= 0.0 && k + 2 < MAX_REPLICAS
    ensures var raw := cfg.signal.DesiredRaw(k, Finite(load), cfg.target);
            && (raw >= k + 1 <==> k as real < load / cfg.target)
            && (raw <= k + 1 <==> load / cfg.target <= (k + 1) as real)
  {
    RatioAgainstCount(load, 1.0, cfg.target);
  }

  /** The default dead-bands on a quorum between 3 and 9 members. */
  function DefaultQuorum(): (r: BandConfig) {
    BandConfig(2, None, 10, RequestRate, 1.0, 0.1, 0.2, 100, 4, 10, 1, FullyDistributed)
  }

  /** A load of 3.9 targets flaps a default quorum between 3 and 5 for ever. */
  lemma QuorumFlaps()
    ensures DecideQuorum(DefaultQuorum(), Observation(3, Finite(3.9), None, 0)) == ScaleUp(3, 5)
    ensures DecideQuorum(DefaultQuorum(), Observation(5, Finite(3.9), None, 0)) == ScaleDown(5, 3)
  {
    QuorumFlapsIff(DefaultQuorum(), 3.9, 3);
  }
}
