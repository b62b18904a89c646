/** The lifecycle on the reading's and the configuration's own fields: what each phase
    does on a tick, the sizes it computes, and what a Steady workload comes to. */
module LifecycleFields {
  import opened Machine
  import opened RealSums
  import opened Lifecycle
  import opened LifecycleRuns

  // ---- readings ----------------------------------------------------------------

  /** Requests or a queue. */
  predicate Busy(sig: Signals) {
    sig.load.Some? && (sig.load.value.rps > 0.0 || sig.load.value.queueDepth > 0)
  }

  /** A use above nothing of a capacity above nothing, observed for the warm-up, and no
      restart, kill, failed probe or unready report. */
  predicate Sound(cfg: LifecycleConfig, sig: Signals) {
    && sig.metrics.used.Some? && sig.metrics.used.value > 0 && sig.metrics.capacity > 0
    && sig.metrics.observedForSecs >= cfg.steady.warmupSeconds
    && sig.health.restarts == 0 && !sig.health.oom && sig.health.probeFailures == 0 && sig.readiness != Some(false)
  }

  lemma SoundIff(cfg: LifecycleConfig, sig: Signals)
    ensures Healthy(cfg, sig) <==> Sound(cfg, sig)
    ensures sig.LoadActive() <==> Busy(sig)
    ensures Sound(cfg, sig) ==>
      var proof := Parse(sig.metrics, cfg.steady.warmupSeconds).value;
      && proof.used == sig.metrics.used.value && proof.capacity == sig.metrics.capacity
      && proof.peak >= proof.used && proof.peak >= sig.metrics.peakUsed
      && (proof.peak == proof.used || proof.peak == sig.metrics.peakUsed)
  {
  }

  /** Less than that part of the capacity is used. */
  predicate UsesBelow(sig: Signals, part: real)
    requires sig.metrics.used.Some?
  {
    sig.metrics.used.value as real < Times(part, sig.metrics.capacity as real)
  }

  lemma UtilBelowIff(cfg: LifecycleConfig, sig: Signals, part: real)
    requires Sound(cfg, sig)
    ensures Parse(sig.metrics, cfg.steady.warmupSeconds).value.Util() < part <==> UsesBelow(sig, part)
  {
    SoundIff(cfg, sig);
    OverAtMost(sig.metrics.used.value as real, sig.metrics.capacity as real, part);
    hide Times;
  }

  // ---- one tick ------------------------------------------------------------------

  predicate GoesIdle(cfg: LifecycleConfig, sig: Signals)
    requires sig.metrics.used.Some?
  {
    (UsesBelow(sig, cfg.idleBelow) && !Busy(sig)) || sig.costOverBudget
    || (sig.scheduleActive == Some(false) && !Busy(sig))
  }

  /** Exactly what takes a workload out of Steady: an unsound reading wakes it; a sound
      one idles it when too little is used without load, over budget, or off schedule
      without load. */
  lemma SteadyTickIs(cfg: LifecycleConfig, sig: Signals, gate: Gate, carry: Carry)
    requires PlanTick(Steady, cfg, sig, gate, carry).Ok?
    ensures var next := PlanTick(Steady, cfg, sig, gate, carry).value.nextPhase;
            && (next == Wake <==> !Sound(cfg, sig))
            && (next == Idle <==> Sound(cfg, sig) && GoesIdle(cfg, sig))
            && next in [Wake, Idle, Steady]
  {
    SoundIff(cfg, sig);
    if Sound(cfg, sig) {
      UtilBelowIff(cfg, sig, cfg.idleBelow);
    }
    hide Multiply, AtSetpoint, GrowHeadroom, Parse, Times, Healthy, Sound, Busy, UsesBelow, Signals.LoadActive,
      LifecycleConfig.Validate;
  }

  /** Exactly what becomes of an Idle workload: load or schedule reloads it; without
      either the drain timer or an exceeded budget scales it to zero. */
  lemma IdleTickIs(cfg: LifecycleConfig, sig: Signals, gate: Gate, carry: Carry)
    requires PlanTick(Idle, cfg, sig, gate, carry).Ok?
    ensures var plan := PlanTick(Idle, cfg, sig, gate, carry).value;
            var wanted := Busy(sig) || sig.scheduleActive == Some(true);
            && (plan.nextPhase == Steady <==> Sound(cfg, sig) && wanted)
            && (plan.nextPhase == Zero <==>
                  Sound(cfg, sig) && !wanted
                  && (sig.costOverBudget || Elapsed(sig.now, carry.enteredAt, cfg.idleToZeroSecs)))
            && (plan.scaleToZero <==> plan.nextPhase == Zero) && plan.nextPhase in [Idle, Steady, Zero]
  {
    SoundIff(cfg, sig);
    hide Multiply, AtSetpoint, GrowHeadroom, Parse, Healthy, Sound, Busy, Signals.LoadActive, Elapsed,
      LifecycleConfig.Validate;
  }

  /** Exactly what becomes of a settling one: an unsound reading wakes it again; a sound
      one rests it when the limit is at the bottom, or time is up. */
  lemma SettleTickIs(cfg: LifecycleConfig, sig: Signals, gate: Gate, carry: Carry)
    requires PlanTick(Settle, cfg, sig, gate, carry).Ok?
    ensures var next := PlanTick(Settle, cfg, sig, gate, carry).value.nextPhase;
            && (next == Wake <==> !Sound(cfg, sig))
            && (next == Steady <==>
                  Sound(cfg, sig)
                  && (carry.limit <= Bottom(cfg, Parse(sig.metrics, cfg.steady.warmupSeconds).value, carry.startupMin)
                      || Elapsed(sig.now, carry.enteredAt, cfg.settleMaxSecs)))
            && next in [Wake, Steady, Settle]
  {
    SoundIff(cfg, sig);
    hide Multiply, AtSetpoint, GrowHeadroom, Parse, Healthy, Sound, Elapsed, LifecycleConfig.Validate;
  }

  /** Exactly when a waking one is ready to settle: less than the setpoint is used, or
      time is up. */
  lemma WakeLeavesIff(cfg: LifecycleConfig, s: State, t: Tick)
    requires cfg.Validate().None? && s.phase == Wake
    ensures Next(cfg, s, t).phase != Wake
       <==> Sound(cfg, t.sig)
            && (UsesBelow(t.sig, cfg.steady.setpoint) || Elapsed(t.sig.now, s.carry.enteredAt, cfg.expansionMaxSecs))
  {
    LeavesIff(cfg, s, t);
    SoundIff(cfg, t.sig);
    if Sound(cfg, t.sig) {
      UtilBelowIff(cfg, t.sig, cfg.steady.setpoint);
    }
    hide Next, Sound, Healthy, Elapsed, LifecycleConfig.Validate, Parse, UsesBelow;
  }

  /** What a tick says it acts on: the first of load, schedule, readiness and dependency
      wakes, the first of a kill, a restart and a failed probe expands, and a workload
      going idle is told the drain timer. */
  lemma ReportsAre(phase: Phase, cfg: LifecycleConfig, sig: Signals, gate: Gate, carry: Carry)
    requires PlanTick(phase, cfg, sig, gate, carry).Ok?
    ensures var d, scheduled := PlanTick(phase, cfg, sig, gate, carry).value.decision, sig.scheduleActive == Some(true);
            d.WakeUp? ==>
              && (d.wakeReason == ByLoad <==> Busy(sig))
              && (d.wakeReason == BySchedule <==> !Busy(sig) && scheduled)
              && (d.wakeReason == ByReadiness <==> !Busy(sig) && !scheduled && sig.readiness == Some(true))
    ensures var d, h := PlanTick(phase, cfg, sig, gate, carry).value.decision, sig.health;
            d.Expand? || d.ReExpand? ==>
              && (d.reason == Oom <==> h.oom) && (d.reason == Restart <==> !h.oom && h.restarts > 0)
              && (d.reason == ProbeFail <==>
                    !h.oom && h.restarts == 0 && (h.probeFailures > 0 || sig.readiness == Some(false)))
    ensures var d := PlanTick(phase, cfg, sig, gate, carry).value.decision;
            d.GoIdle? ==> d.timeToZeroSecs == cfg.idleToZeroSecs
  {
    hide GrowHeadroom, ExpansionLimit, TightenFloor, SteadyTarget, PlanStep, Parse, Elapsed, LifecycleConfig.Validate,
      Confirmed.Util;
  }

  // ---- sizes -----------------------------------------------------------------------

  /** Exactly which configurations are valid. */
  lemma ValidIff(cfg: LifecycleConfig)
    ensures cfg.Validate().None?
       <==> && (cfg.steady.shrinkBelow == 0.0 || 0.0 < cfg.steady.shrinkBelow <= 1.0)
            && 0.0 < cfg.steady.setpoint <= 1.0 && 0.0 < cfg.steady.growAbove <= 1.0
            && cfg.steady.shrinkBelow <= cfg.steady.setpoint <= cfg.steady.growAbove
            && cfg.steady.growFactor > 1.0 && 0.0 < cfg.steady.shrinkFactor < 1.0
            && cfg.steady.floorBytes <= cfg.steady.ceilingBytes
            && cfg.expansionFactor >= 1.0 && 0.0 < cfg.settleStepFactor < 1.0 && 0.0 < cfg.idleBelow <= 1.0
            && cfg.idleToZeroSecs > 0 && cfg.expansionMaxSecs > 0 && cfg.settleMaxSecs > 0
    ensures var r := cfg.Validate();
            && (r == Some(BadExpansionFactor) ==> cfg.expansionFactor < 1.0)
            && (r == Some(BadStepFactor) ==> !(0.0 < cfg.settleStepFactor < 1.0) && cfg.expansionFactor >= 1.0)
            && (r == Some(BadIdleThreshold) ==> !(0.0 < cfg.idleBelow <= 1.0) && 0.0 < cfg.settleStepFactor < 1.0)
            && (r == Some(ZeroDuration) ==> 0.0 < cfg.idleBelow <= 1.0)
  {
  }

  /** The bytes that seat a use at the setpoint are the least whose setpoint covers it. */
  lemma SeatsAtSetpointIff(cfg: BandConfig, used: u64, n: u64)
    requires cfg.setpoint > 0.0 && n < U64_MAX
    ensures AtSetpoint(used, cfg) <= n <==> used as real <= Times(n as real, cfg.setpoint)
  {
    var x := used as real / cfg.Denominator();
    assert x == Over(used as real, cfg.setpoint);
    hide Times;
    OverAtMost(used as real, cfg.setpoint, n as real);
    OverSign(used as real, cfg.setpoint);
    CeilWithin(x, n);
  }

  lemma CeilWithin(x: real, n: u64)
    requires x >= 0.0 && n < U64_MAX
    ensures Ceil(x) >= 0
    ensures Sat64(Ceil(x)) <= n <==> x <= n as real
  {
  }

  /** The descent may reach a limit exactly when its setpoint covers the use and the
      peak, and it is at or above the requested floor, the band's floor, and the
      workload's own minimum. */
  lemma AtBottomIff(cfg: LifecycleConfig, sig: Signals, startupMin: u64, n: u64)
    requires Sound(cfg, sig) && cfg.steady.setpoint > 0.0 && n < U64_MAX
    ensures Bottom(cfg, Parse(sig.metrics, cfg.steady.warmupSeconds).value, startupMin) <= n
       <==> && sig.metrics.used.value as real <= Times(n as real, cfg.steady.setpoint)
            && sig.metrics.peakUsed as real <= Times(n as real, cfg.steady.setpoint)
            && n >= cfg.steady.requestFloorBytes && n >= cfg.steady.floorBytes && n >= startupMin
  {
    SoundIff(cfg, sig);
    var proof := Parse(sig.metrics, cfg.steady.warmupSeconds).value;
    SeatsAtSetpointIff(cfg.steady, proof.used, n);
    SeatsAtSetpointIff(cfg.steady, Max(proof.peak, proof.used), n);
    hide AtSetpoint, Times, Parse, Sound;
  }

  /** A waking or settling workload that comes to rest is left seated: at the limit it
      had, or, where that is less, at the least that covers its reading and its floors. */
  lemma RestsSeated(phase: Phase, cfg: LifecycleConfig, sig: Signals, gate: Gate, carry: Carry, n: u64)
    requires (phase == Wake || phase == Settle) && Sound(cfg, sig) && n < U64_MAX
    requires PlanTick(phase, cfg, sig, gate, carry).Ok?
    requires PlanTick(phase, cfg, sig, gate, carry).value.nextPhase == Steady
    ensures var seated := PlanTick(phase, cfg, sig, gate, carry).value.actuate;
            && seated.Some?
            && (seated.value <= n
                <==> && carry.limit <= n && sig.metrics.used.value as real <= Times(n as real, cfg.steady.setpoint)
                     && sig.metrics.peakUsed as real <= Times(n as real, cfg.steady.setpoint)
                     && n >= cfg.steady.requestFloorBytes && n >= cfg.steady.floorBytes && n >= carry.startupMin)
  {
    SoundIff(cfg, sig);
    ValidIff(cfg);
    var proof := Parse(sig.metrics, cfg.steady.warmupSeconds).value;
    RestIs(phase, cfg, sig, gate, carry);
    SeatsAtSetpointIff(cfg.steady, Max(proof.peak, proof.used), n);
    hide AtSetpoint, Times, Parse, Sound, PlanTick, LifecycleConfig.Validate, Healthy;
    TimesAtMost(proof.used, proof.peak, n, cfg.steady.setpoint);
  }

  lemma TimesAtMost(used: u64, peak: u64, n: u64, setpoint: real)
    ensures Max(peak, used) as real <= Times(n as real, setpoint)
       <==> used as real <= Times(n as real, setpoint) && peak as real <= Times(n as real, setpoint)
  {
    hide Times;
  }

  lemma RestIs(phase: Phase, cfg: LifecycleConfig, sig: Signals, gate: Gate, carry: Carry)
    requires (phase == Wake || phase == Settle) && Healthy(cfg, sig)
    requires PlanTick(phase, cfg, sig, gate, carry).Ok?
    requires PlanTick(phase, cfg, sig, gate, carry).value.nextPhase == Steady
    ensures cfg.Validate().None?
    ensures PlanTick(phase, cfg, sig, gate, carry).value.actuate
         == Some(Max(carry.limit,
                     TightenFloor(cfg, Parse(sig.metrics, cfg.steady.warmupSeconds).value, carry.startupMin)))
  {
    hide AtSetpoint, Parse, Healthy, LifecycleConfig.Validate, TightenFloor, SteadyTarget, Elapsed, GrowHeadroom;
  }

  /** Waking seats at least the expansion factor over the setpoint of what is used and
      floored, as far as the ceiling allows, and no more than a byte beyond it unless
      a floor asks for that. */
  lemma WakingSeats(cfg: LifecycleConfig, sig: Signals, gate: Gate, carry: Carry)
    requires cfg.Validate().None? && PlanTick(Zero, cfg, sig, gate, carry).Ok?
    requires PlanTick(Zero, cfg, sig, gate, carry).value.decision.WakeUp?
    ensures var limit := PlanTick(Zero, cfg, sig, gate, carry).value.decision.expansionLimit;
            var used := if sig.metrics.used.Some? then sig.metrics.used.value else 0;
            && limit >= cfg.steady.floorBytes && limit >= 1
            && (limit < cfg.steady.ceilingBytes && limit < U64_MAX ==>
                  && Times(limit as real, cfg.steady.setpoint) >= Times(cfg.expansionFactor, used as real)
                  && Times(limit as real, cfg.steady.setpoint) >= Times(cfg.expansionFactor,
                      cfg.steady.requestFloorBytes as real))
            && (limit > cfg.steady.floorBytes && limit > 1 ==>
                  Times((limit - 1) as real, cfg.steady.setpoint)
                  < Times(cfg.expansionFactor,
                      Max(Max(used, cfg.steady.requestFloorBytes), cfg.steady.floorBytes) as real))
  {
    var used := if sig.metrics.used.Some? then sig.metrics.used.value else 0;
    ValidIff(cfg);
    ExpansionSeats(cfg, used);
    hide ExpansionLimit, Times, LifecycleConfig.Validate, GrowHeadroom, Parse;
  }

  lemma ExpansionSeats(cfg: LifecycleConfig, used: u64)
    requires cfg.steady.setpoint > 0.0 && cfg.expansionFactor >= 1.0 && ExpansionLimit(cfg, used).Some?
    ensures var limit := ExpansionLimit(cfg, used).value;
            && limit >= cfg.steady.floorBytes && limit >= 1
            && (limit < cfg.steady.ceilingBytes && limit < U64_MAX ==>
                  && Times(limit as real, cfg.steady.setpoint) >= Times(cfg.expansionFactor, used as real)
                  && Times(limit as real, cfg.steady.setpoint) >= Times(cfg.expansionFactor,
                      cfg.steady.requestFloorBytes as real))
            && (limit > cfg.steady.floorBytes && limit > 1 ==>
                  Times((limit - 1) as real, cfg.steady.setpoint)
                  < Times(cfg.expansionFactor,
                      Max(Max(used, cfg.steady.requestFloorBytes), cfg.steady.floorBytes) as real))
  {
    var seed := Max(Max(used, cfg.steady.requestFloorBytes), cfg.steady.floorBytes);
    TimesSign(cfg.expansionFactor, seed as real);
    TimesLe(cfg.expansionFactor, used as real, seed as real);
    TimesLe(cfg.expansionFactor, cfg.steady.requestFloorBytes as real, seed as real);
    hide Times;
    var need := Times(cfg.expansionFactor, seed as real);
    var limit := ExpansionIs(cfg, used, seed, need);
    hide *;
    SeatedBy(need, cfg.steady.setpoint, cfg.steady.floorBytes, cfg.steady.ceilingBytes, limit);
  }

  lemma ExpansionIs(cfg: LifecycleConfig, used: u64, seed: u64, need: real) returns (limit: u64)
    requires cfg.steady.setpoint > 0.0 && ExpansionLimit(cfg, used).Some?
    requires seed == Max(Max(used, cfg.steady.requestFloorBytes), cfg.steady.floorBytes)
    requires need == Times(cfg.expansionFactor, seed as real)
    ensures limit == ExpansionLimit(cfg, used).value
    ensures cfg.steady.floorBytes <= cfg.steady.ceilingBytes
    ensures limit
         == Max(Clamp(Sat64(Max(0, Ceil(Over(need, cfg.steady.setpoint)))), cfg.steady.floorBytes,
             cfg.steady.ceilingBytes), 1)
  {
    limit := ExpansionLimit(cfg, used).value;
    assert Multiply(seed, cfg.expansionFactor) == need;
  }

  lemma SeatedBy(need: real, setpoint: real, floor: u64, ceiling: u64, limit: u64)
    requires need >= 0.0 && setpoint > 0.0 && floor <= ceiling
    requires limit == Max(Clamp(Sat64(Max(0, Ceil(Over(need, setpoint)))), floor, ceiling), 1)
    ensures limit >= floor && limit >= 1
    ensures limit < ceiling && limit < U64_MAX ==> need <= Times(limit as real, setpoint)
    ensures limit > floor && limit > 1 ==> Times((limit - 1) as real, setpoint) < need
  {
    var x := Over(need, setpoint);
    hide Ceil, Times, Over;
    OverSign(need, setpoint);
    OverAtMost(need, setpoint, limit as real);
    OverAtMost(need, setpoint, (limit - 1) as real);
    CeilIs(x);
  }

  /** An unsound reading outside Zero seats the expansion factor times the limit or the
      floor, as far as the ceiling allows, and no more than a byte beyond it. */
  lemma UnsoundSeats(phase: Phase, cfg: LifecycleConfig, sig: Signals, gate: Gate, carry: Carry)
    requires phase != Zero && !Sound(cfg, sig) && PlanTick(phase, cfg, sig, gate, carry).Ok?
    ensures var w, base := PlanTick(phase, cfg, sig, gate, carry).value.actuate,
        Max(carry.limit, cfg.steady.floorBytes);
            && w.Some? && base <= w.value <= cfg.steady.ceilingBytes
            && (w.value < cfg.steady.ceilingBytes ==> w.value as real >= Times(cfg.expansionFactor, base as real))
            && (w.value > base ==> (w.value - 1) as real < Times(cfg.expansionFactor, base as real))
  {
    SoundIff(cfg, sig);
    UnsoundGrows(phase, cfg, sig, gate, carry);
    HeadroomIs(carry.limit, cfg);
    hide *;
    HeadroomSeats(Max(carry.limit, cfg.steady.floorBytes), carry.limit, cfg.steady.ceilingBytes,
                  Times(cfg.expansionFactor, Max(carry.limit, cfg.steady.floorBytes) as real));
  }

  lemma UnsoundGrows(phase: Phase, cfg: LifecycleConfig, sig: Signals, gate: Gate, carry: Carry)
    requires phase != Zero && !Healthy(cfg, sig) && PlanTick(phase, cfg, sig, gate, carry).Ok?
    ensures cfg.expansionFactor >= 1.0 && GrowHeadroom(carry.limit, cfg).Some?
    ensures PlanTick(phase, cfg, sig, gate, carry).value.actuate == GrowHeadroom(carry.limit, cfg)
  {
    hide GrowHeadroom, Healthy, Parse;
  }

  lemma HeadroomIs(limit: u64, cfg: LifecycleConfig)
    requires cfg.expansionFactor >= 1.0 && GrowHeadroom(limit, cfg).Some?
    ensures var base := Max(limit, cfg.steady.floorBytes);
            && base <= cfg.steady.ceilingBytes
            && GrowHeadroom(limit, cfg).value
               == Max(Clamp(Sat64(Max(0, Ceil(Times(cfg.expansionFactor, base as real)))), base,
                   cfg.steady.ceilingBytes),
                      limit)
  {
    var base := Max(limit, cfg.steady.floorBytes);
    assert Multiply(base, cfg.expansionFactor) == Times(cfg.expansionFactor, base as real);
    hide Multiply, Times, Ceil;
  }

  lemma HeadroomSeats(base: u64, limit: u64, ceiling: u64, need: real)
    requires limit <= base <= ceiling
    ensures var g := Max(Clamp(Sat64(Max(0, Ceil(need))), base, ceiling), limit);
            && base <= g <= ceiling && (g < ceiling ==> g as real >= need) && (g > base ==> (g - 1) as real < need)
  {
    CeilIs(need);
    hide Ceil;
  }

  lemma CeilIs(x: real)
    ensures Ceil(x) as real - 1.0 < x <= Ceil(x) as real
  {
  }

  /** A step of the descent goes no further than the factor, to the byte. */
  lemma StepsNoFurther(from: u64, steadyTarget: u64, floor: u64, factor: real)
    requires 0.0 < factor < 1.0 && PlanStep(from, steadyTarget, floor, factor).Some?
    ensures var to := PlanStep(from, steadyTarget, floor, factor).value.to;
            && to as real + 1.0 > Times(factor, from as real)
            && (to > steadyTarget && to > floor ==> to as real <= Times(factor, from as real))
  {
    assert Multiply(from, factor) == Times(factor, from as real);
    TimesSign(factor, from as real);
    TimesLe(from as real, factor, 1.0);
    TimesOne(from as real);
    TimesCancel(factor, 1.0, from as real);
    hide Times, Multiply;
  }

  // ---- a Steady workload -------------------------------------------------------------

  /** Sound, used at or above the idle threshold, in budget and not off schedule. */
  ghost predicate InUse(cfg: LifecycleConfig, sig: Signals) {
    Sound(cfg, sig) && !UsesBelow(sig, cfg.idleBelow) && !sig.costOverBudget && sig.scheduleActive != Some(false)
  }

  lemma InUseStays(cfg: LifecycleConfig, s: State, t: Tick)
    requires cfg.Validate().None? && s.phase == Steady && InUse(cfg, t.sig)
    ensures Next(cfg, s, t) == s
  {
    SoundIff(cfg, t.sig);
    PanicsIff(Steady, cfg, t.sig, t.gate, s.carry);
    SteadyTickIs(cfg, t.sig, t.gate, s.carry);
    HoldsSteady(cfg, t.sig, t.gate, s.carry);
    hide Sound, UsesBelow, Healthy, PlanTick, LifecycleConfig.Validate;
  }

  lemma HoldsSteady(cfg: LifecycleConfig, sig: Signals, gate: Gate, carry: Carry)
    requires PlanTick(Steady, cfg, sig, gate, carry).Ok?
    ensures PlanTick(Steady, cfg, sig, gate, carry).value.nextPhase == Steady ==>
      PlanTick(Steady, cfg, sig, gate, carry).value.decision == Hold
  {
    hide Multiply, AtSetpoint, GrowHeadroom, Parse, Healthy, LifecycleConfig.Validate;
  }

  /** However long a workload in use runs, it stays Steady, at the limit it has. */
  lemma {:induction false} InUseStaysSteady(cfg: LifecycleConfig, s: State, ticks: seq<Tick>)
    requires cfg.Validate().None? && s.phase == Steady
    requires forall i :: 0 <= i < |ticks| ==> InUse(cfg, ticks[i].sig)
    ensures After(cfg, s, ticks) == s
  {
    hide InUse, Next, LifecycleConfig.Validate;
    if ticks != [] {
      var n := |ticks| - 1;
      InUseStaysSteady(cfg, s, ticks[..n]);
      InUseStays(cfg, s, ticks[n]);
    }
  }

  /** Sound, used below the idle threshold, without load and not on schedule. */
  ghost predicate Unused(cfg: LifecycleConfig, sig: Signals) {
    Sound(cfg, sig) && UsesBelow(sig, cfg.idleBelow) && !Busy(sig) && sig.scheduleActive != Some(true)
  }

  /** Unused: Steady goes Idle at once, and Idle drains until its timer. */
  lemma UnusedDrains(cfg: LifecycleConfig, s: State, t: Tick)
    requires cfg.Validate().None? && Unused(cfg, t.sig) && (s.phase == Steady || s.phase == Idle)
    ensures s.phase == Steady ==>
      Next(cfg, s, t).phase == Idle && Next(cfg, s, t).carry.enteredAt == t.sig.now
    ensures s.phase == Idle ==>
      || Next(cfg, s, t).phase == Zero
      || (Next(cfg, s, t) == s && !Elapsed(t.sig.now, s.carry.enteredAt, cfg.idleToZeroSecs))
  {
    SoundIff(cfg, t.sig);
    PanicsIff(s.phase, cfg, t.sig, t.gate, s.carry);
    var plan := PlanTick(s.phase, cfg, t.sig, t.gate, s.carry);
    NotBadConfig(s.phase, cfg, t.sig, t.gate, s.carry);
    if s.phase == Steady {
      SteadyTickIs(cfg, t.sig, t.gate, s.carry);
    } else {
      IdleTickIs(cfg, t.sig, t.gate, s.carry);
    }
    DecisionOf(s.phase, cfg, t.sig, t.gate, s.carry);
    hide Sound, UsesBelow, Healthy, PlanTick, Elapsed, LifecycleConfig.Validate, Busy;
  }

  lemma NotBadConfig(phase: Phase, cfg: LifecycleConfig, sig: Signals, gate: Gate, carry: Carry)
    requires cfg.Validate().None?
    ensures PlanTick(phase, cfg, sig, gate, carry).Ok? || PlanTick(phase, cfg, sig, gate, carry) == Err(Panicked)
  {
    hide LifecycleConfig.Validate, Fuse;
  }

  lemma DecisionOf(phase: Phase, cfg: LifecycleConfig, sig: Signals, gate: Gate, carry: Carry)
    requires PlanTick(phase, cfg, sig, gate, carry).Ok? && Healthy(cfg, sig) && (phase == Steady || phase == Idle)
    ensures var plan := PlanTick(phase, cfg, sig, gate, carry).value;
            && (plan.nextPhase == phase ==> plan.decision == Hold)
            && (phase == Steady && plan.nextPhase == Idle ==> plan.decision.GoIdle?)
            && (plan.nextPhase == Zero ==> plan.decision.ScaleToZero?)
  {
    hide Multiply, AtSetpoint, GrowHeadroom, Parse, Healthy, LifecycleConfig.Validate, Elapsed;
  }

  ghost predicate UnusedRun(cfg: LifecycleConfig, ticks: seq<Tick>, gap: nat) {
    && (forall i :: 0 <= i < |ticks| ==> Unused(cfg, ticks[i].sig))
    && (forall i :: 0 <= i < |ticks| - 1 ==> ticks[i].sig.now < ticks[i + 1].sig.now <= ticks[i].sig.now + gap)
  }

  lemma TailIsUnused(cfg: LifecycleConfig, ticks: seq<Tick>, gap: nat)
    requires UnusedRun(cfg, ticks, gap) && |ticks| > 1
    ensures UnusedRun(cfg, ticks[1..], gap) && ticks[0].sig.now < ticks[1].sig.now <= ticks[0].sig.now + gap
  {
    hide Unused;
    var rest := ticks[1..];
    forall i | 0 <= i < |rest| - 1 ensures rest[i].sig.now < rest[i + 1].sig.now <= rest[i].sig.now + gap {
      assert ticks[i + 1].sig.now < ticks[i + 2].sig.now <= ticks[i + 1].sig.now + gap;
    }
  }

  lemma {:induction false} DrainsByTimer(cfg: LifecycleConfig, s: State, ticks: seq<Tick>, gap: nat) returns (k: nat)
    requires cfg.Validate().None? && UnusedRun(cfg, ticks, gap) && ticks != [] && s.phase == Idle
    requires TimersReachable(cfg, s.carry.enteredAt) && s.carry.enteredAt <= ticks[0].sig.now
    requires ticks[0].sig.now <= s.carry.enteredAt + cfg.idleToZeroSecs + gap <= ticks[|ticks| - 1].sig.now
    ensures 0 < k <= |ticks| && After(cfg, s, ticks[..k]).phase == Zero
    ensures ticks[k - 1].sig.now <= s.carry.enteredAt + cfg.idleToZeroSecs + gap
    decreases |ticks|
  {
    hide Unused, Next, Elapsed, LifecycleConfig.Validate;
    assert Unused(cfg, ticks[0].sig);
    UnusedDrains(cfg, s, ticks[0]);
    ElapsedIs(ticks[0].sig.now, s.carry.enteredAt, cfg.idleToZeroSecs);
    AfterOne(cfg, s, ticks[0]);
    assert ticks[..1] == [ticks[0]];
    if Next(cfg, s, ticks[0]).phase == Zero {
      return 1;
    }
    TailIsUnused(cfg, ticks, gap);
    var k' := DrainsByTimer(cfg, s, ticks[1..], gap);
    k := k' + 1;
    assert ticks[..k] == [ticks[0]] + ticks[1..][..k'];
    AfterFirst(cfg, s, ticks[0], ticks[1..][..k']);
  }

  /** A Steady workload that stays unused reaches Zero within the drain timer and one
      gap between ticks. */
  lemma UnusedReachesZero(cfg: LifecycleConfig, s: State, ticks: seq<Tick>, gap: nat) returns (k: nat)
    requires cfg.Validate().None? && UnusedRun(cfg, ticks, gap) && |ticks| > 1 && s.phase == Steady
    requires TimersReachable(cfg, ticks[0].sig.now)
    requires ticks[|ticks| - 1].sig.now >= ticks[0].sig.now + cfg.idleToZeroSecs + gap
    ensures 0 < k <= |ticks| && After(cfg, s, ticks[..k]).phase == Zero
    ensures ticks[k - 1].sig.now <= ticks[0].sig.now + cfg.idleToZeroSecs + gap
  {
    hide Unused, Next, Elapsed, LifecycleConfig.Validate;
    assert Unused(cfg, ticks[0].sig);
    UnusedDrains(cfg, s, ticks[0]);
    TailIsUnused(cfg, ticks, gap);
    var s' := Next(cfg, s, ticks[0]);
    var k' := DrainsByTimer(cfg, s', ticks[1..], gap);
    k := k' + 1;
    assert ticks[..k] == [ticks[0]] + ticks[1..][..k'];
    AfterFirst(cfg, s, ticks[0], ticks[1..][..k']);
  }
}
