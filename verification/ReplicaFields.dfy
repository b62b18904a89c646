/** The horizontal law on the configuration's own fields: what the load needs, the
    dead-band, the velocity, the floor, and what is valid. */
module ReplicaFields {
  import opened Machine
  import opened RealSums
  import opened Replica
  import opened ReplicaRuns

  // ---- the load --------------------------------------------------------------

  /** The raw count is the least that carries the load at the target, as far as the
      limit on replicas. */
  lemma RawIsLeast(cfg: BandConfig, load: real, n: u32)
    requires cfg.signal.IsAbsolute() && load >= 0.0 && cfg.target > 0.0 && n < MAX_REPLICAS
    ensures n >= cfg.signal.DesiredRaw(0, Finite(load), cfg.target) <==> Times(n as real, cfg.target) >= load
  {
    hide Times;
    var raw := load / cfg.target;
    assert raw == Over(load, cfg.target);
    OverAtMost(load, cfg.target, n as real);
    OverSign(load, cfg.target);
    CeilAtMost(raw, n);
  }

  lemma CeilAtMost(x: real, n: nat)
    requires x >= 0.0
    ensures Ceil(x) <= n <==> x <= n as real
  {
  }

  /** The load per replica is beyond the target by more than the tolerance up. */
  lemma WantsUpIff(cfg: BandConfig, load: real, n: u32)
    requires cfg.signal.IsAbsolute() && load >= 0.0 && cfg.target > 0.0
    ensures n > 0 ==>
      (WantsUp(cfg, n, Finite(load)) <==> load > Times(Times(n as real, cfg.target), 1.0 + cfg.toleranceUp))
    ensures n == 0 && cfg.toleranceUp >= 0.0 ==> (WantsUp(cfg, n, Finite(load)) <==> load > 0.0)
  {
    if n > 0 {
      RatioIs(cfg, load, n);
      RatioAbove(load, n as real, cfg.target, 1.0 + cfg.toleranceUp);
    }
  }

  /** It is short of the target by more than the tolerance down. */
  lemma WantsDownIff(cfg: BandConfig, load: real, n: u32)
    requires cfg.signal.IsAbsolute() && load >= 0.0 && cfg.target > 0.0
    ensures n > 0 ==>
      (WantsDown(cfg, n, Finite(load)) <==> load < Times(Times(n as real, cfg.target), 1.0 - cfg.toleranceDown))
    ensures n == 0 && cfg.toleranceDown >= 0.0 ==> !WantsDown(cfg, n, Finite(load))
  {
    if n > 0 {
      RatioIs(cfg, load, n);
      RatioAbove(load, n as real, cfg.target, 1.0 - cfg.toleranceDown);
    }
  }

  lemma RatioIs(cfg: BandConfig, load: real, n: u32)
    requires cfg.signal.IsAbsolute() && load >= 0.0 && cfg.target > 0.0 && n > 0
    ensures cfg.signal.MetricRatio(n, Finite(load), cfg.target) == Ratio(Over(Over(load, n as real), cfg.target))
  {
  }

  lemma RatioAbove(load: real, n: real, target: real, bound: real)
    requires n > 0.0 && target > 0.0
    ensures Over(Over(load, n), target) > bound <==> load > Times(Times(n, target), bound)
    ensures Over(Over(load, n), target) < bound <==> load < Times(Times(n, target), bound)
  {
    hide Times, Over;
    OverAtMost(Over(load, n), target, bound);
    OverAtMost(load, n, Times(bound, target));
    TimesSwap(n, target, bound);
    TimesSwap(bound, target, n);
    TimesSwap(Times(bound, target), n, 0.0);
    TimesSwap(Times(n, target), bound, 0.0);
  }

  /** A utilization reading is compared with the target as it is. */
  lemma UtilizationWants(cfg: BandConfig, value: real, n: u32)
    requires cfg.signal.Utilization? && value >= 0.0 && cfg.target > 0.0
    ensures WantsUp(cfg, n, Finite(value)) <==> value > Times(cfg.target, 1.0 + cfg.toleranceUp)
    ensures WantsDown(cfg, n, Finite(value)) <==> value < Times(cfg.target, 1.0 - cfg.toleranceDown)
  {
    assert cfg.signal.MetricRatio(n, Finite(value), cfg.target) == Ratio(Over(value, cfg.target));
    hide Times, Over;
    OverAtMost(value, cfg.target, 1.0 + cfg.toleranceUp);
    OverAtMost(value, cfg.target, 1.0 - cfg.toleranceDown);
    TimesSwap(cfg.target, 1.0 + cfg.toleranceUp, 0.0);
    TimesSwap(cfg.target, 1.0 - cfg.toleranceDown, 0.0);
  }

  /** A reading that says nothing asks for nothing. */
  lemma BadReadingsHold(cfg: BandConfig, value: Reading, n: u32)
    requires (value.NonFinite? || value.v < 0.0) && cfg.toleranceUp >= 0.0 && cfg.toleranceDown >= 0.0
    ensures !WantsUp(cfg, n, value) && !WantsDown(cfg, n, value) && cfg.signal.DesiredRaw(n, value, cfg.target) == n
  {
  }

  /** What is reported, without a reclaim: a count that is to rise rises or is at the
      ceiling; one that is to fall falls, is at the floor, or is held with the count it
      would have shrunk to, which is how persistent workloads are always held. */
  lemma ReportsAre(cfg: BandConfig, obs: Observation)
    requires obs.reclaimPending == 0
    ensures var d, up := DecideReplicas(cfg, obs), WantsUp(cfg, obs.current, obs.value);
            var down := !up && WantsDown(cfg, obs.current, obs.value);
            && (up <==> d.ScaleUp? || d.AtCeiling?)
            && (down <==> d.ScaleDown? || d.AtFloor? || d.HeldForRebalance?)
            && (d.ScaleUp? ==> d.from == obs.current < d.to)
            && (d.ScaleDown? ==> d.from == obs.current > d.to && !cfg.topology.Persistent?)
            && (d.HeldForRebalance? ==> d.current == obs.current > d.wouldShrinkTo && cfg.topology.Persistent?)
            && (d.Hold? || d.AtFloor? || d.AtCeiling? ==> d.current == obs.current)
            && (!up && !down ==> d.Hold?)
  {
    hide WantsUp, WantsDown, Signal.DesiredRaw, Stabilized, BandConfig.UpStep, BandConfig.DownStep, AtLeast, AtMost,
      StepUp, StepDown, BandConfig.TopologyFloor, QuorumCeiling, BandConfig.EffectiveFloor;
  }

  // ---- the velocity ------------------------------------------------------------

  /** One tick adds at most the pods, the percentage or one, whichever is most. */
  lemma VelocityUp(cfg: BandConfig, obs: Observation, floor: u32)
    requires DecideCore(cfg, obs, floor).ScaleUp?
    ensures var step := DecideCore(cfg, obs, floor).to - obs.current;
            step <= cfg.maxUpPods || step <= obs.current * cfg.maxUpPct / 100 || step <= 1
  {
    hide Signal.DesiredRaw, WantsUp, WantsDown, Stabilized;
    StepsAre(cfg, obs.current);
    hide BandConfig.UpStep, BandConfig.DownStep;
  }

  lemma VelocityDown(cfg: BandConfig, obs: Observation, floor: u32)
    requires DecideCore(cfg, obs, floor).ScaleDown?
    ensures var step := obs.current - DecideCore(cfg, obs, floor).to;
            step <= cfg.maxDownPods || step <= obs.current * cfg.maxDownPct / 100 || step <= 1
  {
    hide Signal.DesiredRaw, WantsUp, WantsDown, Stabilized;
    StepsAre(cfg, obs.current);
    hide BandConfig.UpStep, BandConfig.DownStep;
  }

  /** The steps are exactly the most of the three, short of the saturation of the
      percentage's product. */
  lemma StepsAre(cfg: BandConfig, n: u32)
    ensures var up, part := cfg.UpStep(n), n * cfg.maxUpPct;
            && up >= cfg.maxUpPods && up >= 1 && (part <= U32_MAX ==> up >= part / 100)
            && (up == cfg.maxUpPods || up == 1 || up <= part / 100)
    ensures var down, part := cfg.DownStep(n), n * cfg.maxDownPct;
            && down >= cfg.maxDownPods && down >= 1 && (part <= U32_MAX ==> down >= part / 100)
            && (down == cfg.maxDownPods || down == 1 || down <= part / 100)
  {
  }

  // ---- the floor and the gate ----------------------------------------------------

  /** The replicas a topology cannot do without. */
  function Needs(t: Topology): (n: u32) {
    match t
    case NonPersistent => 0
    case Persistent(replicas) => replicas
    case MasterSlave(primaries) => primaries
    case FullyDistributed => 3
  }

  /** A count is at or above the topology's floor exactly when it is at or above the
      configured floor, the availability floor and what the topology needs; for a
      quorum, of the odd counts. */
  lemma AboveFloorIff(cfg: BandConfig, n: u32)
    requires cfg.topology.FullyDistributed? ==> n % 2 == 1
    ensures n >= cfg.TopologyFloor()
       <==> n >= cfg.floor && (cfg.haFloor.Some? ==> n >= cfg.haFloor.value) && n >= Needs(cfg.topology)
  {
  }

  /** Exactly which configurations are valid. */
  lemma ValidIff(cfg: BandConfig)
    ensures cfg.Validate().Ok?
       <==> && cfg.ceiling > 0 && cfg.target > 0.0 && Needs(cfg.topology) <= cfg.ceiling
            && cfg.floor <= cfg.ceiling && (cfg.haFloor.Some? ==> cfg.haFloor.value <= cfg.ceiling)
            && (cfg.topology.Persistent? || cfg.topology.MasterSlave? ==> Needs(cfg.topology) > 0)
    ensures var r := cfg.Validate();
            r.Err? ==>
              && (r.error == ZeroCeiling <==> cfg.ceiling == 0)
              && (r.error == EmptyRange <==>
                    0 < cfg.ceiling < cfg.floor || (cfg.haFloor.Some? && 0 < cfg.ceiling < cfg.haFloor.value))
              && r.error in [ZeroCeiling, EmptyRange, NoDenominator, TopologyUnsatisfiable]
              && (r.error == TopologyUnsatisfiable ==> cfg.target > 0.0)
                  && (r.error == NoDenominator ==> cfg.target <= 0.0)
  {
  }

  /** Exactly when a tick is planned: a valid configuration, a readable count, and a
      forced count or a readable, finite, non-negative metric. */
  lemma PlannedIff(cfg: BandConfig, env: Environment, gate: Gate)
    ensures PlanTick(cfg, env, gate).Ok?
       <==> && cfg.Validate().Ok? && env.current.Some?
            && (gate.force.Some? || (env.value.Some? && env.value.value.Finite? && env.value.value.v >= 0.0))
    ensures PlanTick(cfg, env, gate).Err? ==>
      PlanTick(cfg, env, gate).error
      == if cfg.Validate().Err? then cfg.Validate().error
         else if env.current.None? || env.value.None? then Unreadable else BadSignal
  {
    hide BandConfig.Validate, DecideReplicas;
  }

  /** A live forced tick lands on the forced count, brought inside the envelope; for a
      quorum, when it is one of its counts. */
  lemma ForcedLands(cfg: BandConfig, n: u32, t: Tick)
    requires cfg.Validate().Ok? && IsLive(t) && t.gate.force.Some? && t.readable && t.gate.scaleInPermitted
    ensures var v, after := t.gate.force.value, AfterTick(cfg, n, t);
            !cfg.topology.FullyDistributed? ==>
              && (cfg.TopologyFloor() <= v <= cfg.ceiling ==> after == v)
              && (v < cfg.TopologyFloor() ==> after == cfg.TopologyFloor())
              && (v > cfg.ceiling ==> after == cfg.ceiling)
    ensures var v, after := t.gate.force.value, AfterTick(cfg, n, t);
            cfg.topology.FullyDistributed? && IsQuorum(v) && cfg.TopologyFloor() <= v <= cfg.ceiling ==> after == v
  {
  }
}
