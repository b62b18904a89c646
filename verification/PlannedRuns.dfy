/** Runs of planned ticks under a constant load, whatever the topology: what the laws of
    `ReplicaRuns` and `QuorumRuns` come to once the planner has gated and written them. */
module PlannedRuns {
  import opened Machine
  import opened RealSums
  import opened Replica
  import opened ReplicaRuns
  import opened ReplicaFields
  import QuorumRuns

  /** A live, unforced tick that may scale in, with nothing to reclaim, reading the load;
      the window holds no recommendation above what the load needs. */
  ghost predicate PlainTick(cfg: BandConfig, load: real, t: Tick) {
    && !t.gate.dryRun && !t.gate.inCooldown && t.gate.scaleInPermitted && t.gate.force.None?
    && t.readable && t.value == Some(Finite(load)) && t.reclaimPending == 0 && Settled(cfg, load, t.windowMax)
  }

  ghost predicate PlainRun(cfg: BandConfig, load: real, ticks: seq<Tick>) {
    && cfg.Validate().Ok? && cfg.signal.IsAbsolute() && load >= 0.0
    && forall i :: 0 <= i < |ticks| ==> PlainTick(cfg, load, ticks[i])
  }

  function Windows(ticks: seq<Tick>): (w: seq<Option<u32>>)
    ensures |w| == |ticks| && forall i :: 0 <= i < |w| ==> w[i] == ticks[i].windowMax
  {
    seq(|ticks|, i requires 0 <= i < |ticks| => ticks[i].windowMax)
  }

  // ---- one planned tick --------------------------------------------------------

  /** For a stateless workload or a primary with replicas the planned tick is the core
      law's; a persistent one takes its climbs and leaves its falls. */
  lemma TickIsCore(cfg: BandConfig, load: real, n: u32, t: Tick)
    requires PlainRun(cfg, load, [t]) && !cfg.topology.FullyDistributed?
    ensures var core := CoreTick(cfg, load, cfg.TopologyFloor(), t.windowMax, n).Target();
            AfterTick(cfg, n, t) == if cfg.topology.Persistent? && core < n then n else core
  {
    assert PlainTick(cfg, load, [t][0]);
    var obs := Observation(n, Finite(load), t.windowMax, 0);
    assert EnvironmentAt(n, t) == Environment(Some(n), Some(Finite(load)), t.windowMax, 0);
    MovesAsItSays(cfg, obs, cfg.TopologyFloor());
    hide DecideCore, BandConfig.Validate;
  }

  lemma MovesAsItSays(cfg: BandConfig, obs: Observation, floor: u32)
    requires obs.reclaimPending == 0
    ensures var d := DecideCore(cfg, obs, floor);
            && !d.SpotScaleOut? && !d.HeldForRebalance?
            && (d.ScaleUp? ==> d.from == obs.current < d.to) && (d.ScaleDown? ==> d.from == obs.current > d.to)
            && (!d.ScaleUp? && !d.ScaleDown? ==> d.Target() == obs.current)
  {
    hide Signal.DesiredRaw, WantsUp, WantsDown, Stabilized;
  }

  /** For a quorum it is the quorum law's. */
  lemma TickIsQuorum(cfg: BandConfig, load: real, n: u32, t: Tick)
    requires PlainRun(cfg, load, [t]) && cfg.topology.FullyDistributed?
    ensures AfterTick(cfg, n, t) == QuorumRuns.QuorumTick(cfg, load, t.windowMax, n).Target()
  {
    assert PlainTick(cfg, load, [t][0]);
    var obs := Observation(n, Finite(load), t.windowMax, 0);
    assert EnvironmentAt(n, t) == Environment(Some(n), Some(Finite(load)), t.windowMax, 0);
    DecisionsStandFrom(cfg, obs);
    hide DecideQuorum, BandConfig.Validate;
  }

  lemma FrontIsPlain(cfg: BandConfig, load: real, ticks: seq<Tick>)
    requires PlainRun(cfg, load, ticks) && ticks != []
    ensures PlainRun(cfg, load, ticks[..|ticks| - 1]) && PlainRun(cfg, load, [ticks[|ticks| - 1]])
    ensures Windows(ticks)[..|ticks| - 1] == Windows(ticks[..|ticks| - 1])
  {
    hide PlainTick, BandConfig.Validate;
  }

  lemma {:induction false} RunIsCore(cfg: BandConfig, load: real, ticks: seq<Tick>, start: u32)
    requires PlainRun(cfg, load, ticks) && (cfg.topology.NonPersistent? || cfg.topology.MasterSlave?)
    ensures AfterTicks(cfg, start, ticks) == CoreRun(cfg, load, cfg.TopologyFloor(), Windows(ticks), start)
  {
    hide PlainRun, AfterTick, CoreTick, BandConfig.TopologyFloor;
    if ticks != [] {
      var front := ticks[..|ticks| - 1];
      FrontIsPlain(cfg, load, ticks);
      RunIsCore(cfg, load, front, start);
      TickIsCore(cfg, load, AfterTicks(cfg, start, front), ticks[|ticks| - 1]);
    }
  }

  lemma {:induction false} RunIsQuorum(cfg: BandConfig, load: real, ticks: seq<Tick>, start: u32)
    requires PlainRun(cfg, load, ticks) && cfg.topology.FullyDistributed?
    ensures AfterTicks(cfg, start, ticks) == QuorumRuns.QuorumRun(cfg, load, Windows(ticks), start)
  {
    hide PlainRun, AfterTick, QuorumRuns.QuorumTick;
    if ticks != [] {
      var front := ticks[..|ticks| - 1];
      FrontIsPlain(cfg, load, ticks);
      RunIsQuorum(cfg, load, front, start);
      TickIsQuorum(cfg, load, AfterTicks(cfg, start, front), ticks[|ticks| - 1]);
    }
  }

  // ---- where the load wants the count ----------------------------------------------

  /** At or above every floor there is. */
  predicate AboveFloors(cfg: BandConfig, n: int) {
    n >= cfg.floor && (cfg.haFloor.Some? ==> n >= cfg.haFloor.value) && n >= Needs(cfg.topology)
  }

  /** The least count within the floors that carries the load at the target, as far as
      the ceiling and the limit on replicas allow. */
  ghost predicate CarriesLoad(cfg: BandConfig, load: real, g: u32) {
    && AboveFloors(cfg, g) && g <= cfg.ceiling
    && (g > 0 && AboveFloors(cfg, g - 1) ==> Times((g - 1) as real, cfg.target) < load)
    && (g < cfg.ceiling && g < MAX_REPLICAS ==> Times(g as real, cfg.target) >= load)
  }

  /** The load of `n` replicas is within both tolerances of the target. */
  ghost predicate InDeadBand(cfg: BandConfig, load: real, n: u32) {
    Times(Times(n as real, cfg.target), 1.0 - cfg.toleranceDown) <= load
    <= Times(Times(n as real, cfg.target), 1.0 + cfg.toleranceUp)
  }

  lemma GoalCarries(cfg: BandConfig, load: real)
    requires cfg.Validate().Ok? && cfg.signal.IsAbsolute() && load >= 0.0 && !cfg.topology.FullyDistributed?
    requires cfg.TopologyFloor() <= MAX_REPLICAS
    ensures cfg.TopologyFloor() <= cfg.ceiling && CarriesLoad(cfg, load, Goal(cfg, load, cfg.TopologyFloor()))
  {
    FloorAboveCeilingIff(cfg);
    ValidIff(cfg);
    var g := Goal(cfg, load, cfg.TopologyFloor());
    AboveFloorIff(cfg, g);
    RawBelowLimit(cfg, load);
    if g > 0 {
      AboveFloorIff(cfg, g - 1);
      RawIsLeast(cfg, load, g - 1);
    }
    if g < MAX_REPLICAS {
      RawIsLeast(cfg, load, g);
    }
    hide Times, Signal.DesiredRaw, BandConfig.Validate, BandConfig.TopologyFloor;
  }

  lemma RawBelowLimit(cfg: BandConfig, load: real)
    requires cfg.signal.IsAbsolute() && load >= 0.0 && cfg.target > 0.0
    ensures cfg.signal.DesiredRaw(0, Finite(load), cfg.target) <= MAX_REPLICAS
  {
  }

  lemma RestIsInBand(cfg: BandConfig, load: real, n: u32)
    requires cfg.signal.IsAbsolute() && load >= 0.0 && cfg.target > 0.0
    requires cfg.toleranceUp >= 0.0 && cfg.toleranceDown >= 0.0
    requires !WantsUp(cfg, n, Finite(load)) && !WantsDown(cfg, n, Finite(load))
    ensures InDeadBand(cfg, load, n)
  {
    WantsUpIff(cfg, load, n);
    WantsDownIff(cfg, load, n);
    hide WantsUp, WantsDown, Times;
    if n == 0 {
      TimesSign(0.0, cfg.target);
      TimesSign(0.0, 1.0 + cfg.toleranceUp);
      TimesSign(0.0, 1.0 - cfg.toleranceDown);
    }
  }

  ghost predicate AtRest(cfg: BandConfig, load: real, n: u32) {
    forall t :: PlainTick(cfg, load, t) ==> AfterTick(cfg, n, t) == n
  }

  lemma PlainOne(cfg: BandConfig, load: real, t: Tick)
    requires cfg.Validate().Ok? && cfg.signal.IsAbsolute() && load >= 0.0 && PlainTick(cfg, load, t)
    ensures PlainRun(cfg, load, [t]) && ConstantLoad(cfg, load, [t.windowMax])
  {
    ValidIff(cfg);
  }

  lemma WindowsAreSettled(cfg: BandConfig, load: real, ticks: seq<Tick>)
    requires PlainRun(cfg, load, ticks)
    ensures ConstantLoad(cfg, load, Windows(ticks))
  {
    ValidIff(cfg);
    forall i | 0 <= i < |ticks| ensures Settled(cfg, load, Windows(ticks)[i]) {
      assert PlainTick(cfg, load, ticks[i]);
    }
  }

  lemma SettledNoneRests(cfg: BandConfig, load: real, ticks: seq<Tick>, start: u32)
    requires PlainRun(cfg, load, ticks) && (cfg.topology.NonPersistent? || cfg.topology.MasterSlave?)
    requires |ticks| >= Dist(start, Goal(cfg, load, cfg.TopologyFloor()))
    ensures AtRest(cfg, load, AfterTicks(cfg, start, ticks))
  {
    hide AfterTick, CoreTick, BandConfig.TopologyFloor, Goal, CoreRun, AfterTicks, ConstantLoad, BandConfig.Validate;
    RunIsCore(cfg, load, ticks, start);
    WindowsAreSettled(cfg, load, ticks);
    var now := AfterTicks(cfg, start, ticks);
    forall t | PlainTick(cfg, load, t) ensures AfterTick(cfg, now, t) == now {
      PlainOne(cfg, load, t);
      RestsWithinDistance(cfg, load, cfg.TopologyFloor(), Windows(ticks), start, t.windowMax);
      TickIsCore(cfg, load, now, t);
      RestIsStill(cfg, load, cfg.TopologyFloor(), t.windowMax, now);
    }
  }

  lemma RestIsStill(cfg: BandConfig, load: real, floor: u32, window: Option<u32>, n: u32)
    requires cfg.signal.IsAbsolute() && load >= 0.0 && cfg.target > 0.0 && Settled(cfg, load, window)
    requires !CoreTick(cfg, load, floor, window, n).IsCarve()
    ensures CoreTick(cfg, load, floor, window, n).Target() == n
  {
    RestStays(cfg, load, floor, window, window, n);
  }

  /** Planned runs of a stateless workload, or of a primary with replicas, under a
      constant load: the count moves toward the least that carries the load and never
      past it, and after as many ticks as the distance it rests, there or with its load
      within both tolerances of the target. */
  lemma PlannedRunSettles(cfg: BandConfig, load: real, ticks: seq<Tick>, start: u32) returns (goal: u32)
    requires PlainRun(cfg, load, ticks) && (cfg.topology.NonPersistent? || cfg.topology.MasterSlave?)
    requires cfg.toleranceUp >= 0.0 && cfg.toleranceDown >= 0.0
    requires AboveFloors(cfg, start) && start <= cfg.ceiling && start <= MAX_REPLICAS
    ensures CarriesLoad(cfg, load, goal)
    ensures var now := AfterTicks(cfg, start, ticks);
            && (start <= goal ==> start <= now <= goal) && (start >= goal ==> goal <= now <= start)
            && (|ticks| >= Dist(start, goal) ==> AtRest(cfg, load, now) && (now == goal || InDeadBand(cfg, load, now)))
  {
    ValidIff(cfg);
    AboveFloorIff(cfg, start);
    hide CoreTick, CoreRun, AfterTicks, AfterTick, Goal, PlainRun, BandConfig.Validate, BandConfig.TopologyFloor,
      CarriesLoad, InDeadBand, AtRest, WantsUp, WantsDown, ConstantLoad, AboveFloors;
    PlainMeans(cfg, load, ticks);
    GoalCarries(cfg, load);
    goal := Goal(cfg, load, cfg.TopologyFloor());
    WindowsAreSettled(cfg, load, ticks);
    RunIsCore(cfg, load, ticks, start);
    RunConverges(cfg, load, cfg.TopologyFloor(), Windows(ticks), start);
    var now := AfterTicks(cfg, start, ticks);
    GoalWithin(cfg, load);
    if |ticks| >= Dist(start, goal) {
      SettledNoneRests(cfg, load, ticks, start);
      RestsWithinDistance(cfg, load, cfg.TopologyFloor(), Windows(ticks), start, None);
      RestsAtGoalOrInBand(cfg, load, cfg.TopologyFloor(), None, now);
      if now != goal {
        RestIsInBand(cfg, load, now);
      }
    }
  }

  lemma PlainMeans(cfg: BandConfig, load: real, ticks: seq<Tick>)
    requires PlainRun(cfg, load, ticks)
    ensures cfg.Validate().Ok? && cfg.signal.IsAbsolute() && load >= 0.0
  {
  }

  lemma GoalWithin(cfg: BandConfig, load: real)
    requires cfg.Validate().Ok? && cfg.TopologyFloor() <= cfg.ceiling
    ensures cfg.TopologyFloor() <= Goal(cfg, load, cfg.TopologyFloor()) <= cfg.ceiling
    ensures cfg.signal.IsAbsolute() && load >= 0.0 && cfg.target > 0.0 && cfg.TopologyFloor() <= MAX_REPLICAS ==>
      Goal(cfg, load, cfg.TopologyFloor()) <= MAX_REPLICAS
  {
    if cfg.signal.IsAbsolute() && load >= 0.0 && cfg.target > 0.0 {
      RawBelowLimit(cfg, load);
    }
    hide Signal.DesiredRaw, BandConfig.TopologyFloor;
  }

  /** A persistent workload climbs as the core law does, and never comes down. */
  lemma {:induction false} PersistentRunIs(cfg: BandConfig, load: real, ticks: seq<Tick>, start: u32)
    requires PlainRun(cfg, load, ticks) && cfg.topology.Persistent?
    ensures var goal := Goal(cfg, load, cfg.TopologyFloor());
            AfterTicks(cfg, start, ticks)
            == if start <= goal then CoreRun(cfg, load, cfg.TopologyFloor(), Windows(ticks), start) else start
  {
    hide PlainRun, AfterTick, CoreTick, BandConfig.TopologyFloor, Goal, ConstantLoad;
    if ticks != [] {
      var front, last := ticks[..|ticks| - 1], ticks[|ticks| - 1];
      FrontIsPlain(cfg, load, ticks);
      PersistentRunIs(cfg, load, front, start);
      WindowsAreSettled(cfg, load, front);
      RunConverges(cfg, load, cfg.TopologyFloor(), Windows(front), start);
      TickIsCore(cfg, load, AfterTicks(cfg, start, front), last);
      OneWindow(cfg, load, last);
      TickTowardsGoal(cfg, load, cfg.TopologyFloor(), last.windowMax, AfterTicks(cfg, start, front));
    }
  }

  lemma OneWindow(cfg: BandConfig, load: real, t: Tick)
    requires PlainRun(cfg, load, [t])
    ensures cfg.signal.IsAbsolute() && load >= 0.0 && cfg.target > 0.0 && Settled(cfg, load, t.windowMax)
  {
    ValidIff(cfg);
    assert PlainTick(cfg, load, [t][0]);
  }

  /** A utilization reading of the same total load plans the same tick. */
  lemma UtilizationPlansAlike(cfg: BandConfig, load: real, n: u32, t: Tick)
    requires cfg.signal.Utilization? && !cfg.topology.FullyDistributed? && cfg.Validate().Ok? && n > 0 && load >= 0.0
    requires t.readable && t.value == Some(Finite(Over(load, n as real)))
    ensures AfterTick(cfg, n, t) == AfterTick(cfg.(signal := RequestRate), n, t.(value := Some(Finite(load))))
  {
    ValidIff(cfg);
    OverSign(load, n as real);
    UtilizationIsRate(cfg, load, cfg.TopologyFloor(), t.windowMax, t.reclaimPending, n);
    SameBounds(cfg);
    hide DecideCore, BandConfig.Validate, BandConfig.TopologyFloor, BandConfig.EffectiveFloor;
  }

  lemma SameBounds(cfg: BandConfig)
    ensures var rate := cfg.(signal := RequestRate);
            && rate.TopologyFloor() == cfg.TopologyFloor() && rate.EffectiveFloor() == cfg.EffectiveFloor()
            && rate.Validate() == cfg.Validate()
    ensures cfg.topology.NonPersistent? ==> cfg.TopologyFloor() == cfg.EffectiveFloor()
  {
  }
}
