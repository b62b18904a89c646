/** Lifecycle safety and progress, per tick and over whole runs of the driver that
    seats what the planner writes. */
module LifecycleRuns {
  import opened Machine
  import opened RealSums
  import opened Lifecycle

  // ---- one tick ----------------------------------------------------------

  /** Exactly when a tick panics: a doubtful or struggling reading outside Zero
      while the seated limit is above the ceiling. */
  lemma PanicsIff(phase: Phase, cfg: LifecycleConfig, sig: Signals, gate: Gate, carry: Carry)
    ensures PlanTick(phase, cfg, sig, gate, carry) == Err(Panicked)
       <==> cfg.Validate().None? && phase != Zero && !Healthy(cfg, sig) && carry.limit > cfg.steady.ceilingBytes
  {
    hide Multiply, PlanStep, AtSetpoint;
  }

  /** The guard of an effective tightening. */
  predicate MayTighten(phase: Phase, cfg: LifecycleConfig, sig: Signals, gate: Gate, carry: Carry) {
    && phase == Settle && Healthy(cfg, sig)
    && !gate.dryRun && !gate.inCooldown
    && carry.shadowConfirmedFor == Some(carry.limit)
    && !Elapsed(sig.now, carry.enteredAt, cfg.settleMaxSecs)
    && carry.limit > Bottom(cfg, Parse(sig.metrics, cfg.steady.warmupSeconds).value, carry.startupMin)
  }

  lemma GrowNeverLowers(current: u64, cfg: LifecycleConfig)
    ensures GrowHeadroom(current, cfg).Some? ==> GrowHeadroom(current, cfg).value >= current
  {
    hide Multiply;
  }

  /** A tick writes below the seated limit exactly in Settle, on a confirmed healthy
      reading, live and out of cooldown, not timed out, from a limit already
      shadow-confirmed, and with room above the bottom; Zero seats nothing. */
  lemma WritesBelowIff(phase: Phase, cfg: LifecycleConfig, sig: Signals, gate: Gate, carry: Carry)
    requires phase == Zero ==> carry.limit == 0
    requires PlanTick(phase, cfg, sig, gate, carry).Ok?
    ensures var w := PlanTick(phase, cfg, sig, gate, carry).value.actuate;
            w.Some? && w.value < carry.limit <==> MayTighten(phase, cfg, sig, gate, carry)
  {
    GrowNeverLowers(carry.limit, cfg);
    hide Multiply, AtSetpoint, GrowHeadroom, Parse, Elapsed;
  }

  /** And when it does, it stays at or above both the steady target and the proven
      floor, on a band that is confirmed this very tick. */
  lemma WritesAboveBottom(phase: Phase, cfg: LifecycleConfig, sig: Signals, gate: Gate, carry: Carry)
    requires phase == Zero ==> carry.limit == 0
    requires PlanTick(phase, cfg, sig, gate, carry).Ok?
    ensures var plan := PlanTick(phase, cfg, sig, gate, carry).value;
            plan.actuate.Some? && plan.actuate.value < carry.limit ==>
              && plan.decision.Tighten? && plan.decision.step.from == carry.limit
              && plan.actuate.value >= Bottom(cfg, Parse(sig.metrics, cfg.steady.warmupSeconds).value, carry.startupMin)
  {
    WritesBelowIff(phase, cfg, sig, gate, carry);
    hide Multiply, AtSetpoint, GrowHeadroom, Parse, Elapsed, ExpansionLimit;
  }

  /** Zero wakes exactly on load, schedule, readiness or a ready dependency, and then
      seats a limit inside the band's range, at least one byte. */
  lemma ZeroWakesIff(cfg: LifecycleConfig, sig: Signals, gate: Gate, carry: Carry)
    requires cfg.Validate().None?
    ensures PlanTick(Zero, cfg, sig, gate, carry).Ok?
    ensures var plan := PlanTick(Zero, cfg, sig, gate, carry).value;
            && (plan.nextPhase == Wake <==> sig.LoadActive() || sig.scheduleActive == Some(true)
                                            || sig.readiness == Some(true) || sig.dependencyReady == Some(true))
            && (plan.nextPhase == Wake <==> plan.actuate.Some?)
            && (plan.actuate.Some? ==>
                  Max(cfg.steady.floorBytes, 1) <= plan.actuate.value <= Max(cfg.steady.ceilingBytes, 1))
  {
    hide Multiply;
  }

  /** Doubt or struggle buys headroom: outside Zero the tick seats at least the
      expansion factor times what is seated, as far as the ceiling allows. */
  lemma DoubtExpands(phase: Phase, cfg: LifecycleConfig, sig: Signals, gate: Gate, carry: Carry)
    requires phase != Zero && !Healthy(cfg, sig) && PlanTick(phase, cfg, sig, gate, carry).Ok?
    ensures var w := PlanTick(phase, cfg, sig, gate, carry).value.actuate;
            && w.Some? && Max(carry.limit, cfg.steady.floorBytes) <= w.value <= cfg.steady.ceilingBytes
            && (w.value < cfg.steady.ceilingBytes ==> w.value as real >= Multiply(carry.limit, cfg.expansionFactor))
  {
    MultiplyMonotone(carry.limit, Max(carry.limit, cfg.steady.floorBytes), cfg.expansionFactor);
    hide Multiply, Healthy;
  }

  lemma MultiplyMonotone(a: u64, b: u64, f: real)
    requires a <= b
    ensures f >= 0.0 ==> 0.0 <= Multiply(a, f) <= Multiply(b, f)
  {
    if f >= 0.0 {
      assert (b - a) as real * f >= 0.0;
    }
  }

  /** Active load protects: Steady leaves for Idle only over budget, and Idle reloads
      instead of draining to Zero. */
  lemma ActiveLoadProtects(phase: Phase, cfg: LifecycleConfig, sig: Signals, gate: Gate, carry: Carry)
    requires sig.LoadActive() && PlanTick(phase, cfg, sig, gate, carry).Ok?
    ensures var plan := PlanTick(phase, cfg, sig, gate, carry).value;
            && !plan.scaleToZero
            && (plan.decision.GoIdle? ==> sig.costOverBudget)
            && (phase == Idle && Healthy(cfg, sig) ==> plan.nextPhase == Steady)
  {
    hide Multiply, PlanStep, AtSetpoint, GrowHeadroom, Parse;
  }

  /** A healthy Wake that is ready to settle but has nothing to tighten. */
  predicate NothingToSettle(phase: Phase, cfg: LifecycleConfig, sig: Signals, carry: Carry) {
    && phase == Wake && Healthy(cfg, sig)
    && var proof := Parse(sig.metrics, cfg.steady.warmupSeconds).value;
       && (proof.Util() < cfg.steady.setpoint || Elapsed(sig.now, carry.enteredAt, cfg.expansionMaxSecs))
       && carry.limit <= Bottom(cfg, proof, carry.startupMin)
  }

  /** The planner's phase changes are the declared edges, exactly except from a
      Wake that has nothing to tighten: it goes straight to Steady. */
  lemma LegalTransitionIff(phase: Phase, cfg: LifecycleConfig, sig: Signals, gate: Gate, carry: Carry)
    requires PlanTick(phase, cfg, sig, gate, carry).Ok?
    ensures var plan := PlanTick(phase, cfg, sig, gate, carry).value;
            plan.nextPhase == phase || plan.nextPhase in phase.Exits()
            <==> !NothingToSettle(phase, cfg, sig, carry)
  {
    hide Multiply, AtSetpoint, GrowHeadroom, Parse, Elapsed, ExpansionLimit;
  }

  /** A band of at most 100 bytes at a setpoint of four fifths. */
  function SmallBand(): (r: LifecycleConfig) {
    LifecycleConfig(BandConfig(0.9, 0.5, 0.8, 1.5, 0.9, 0, 100, 0, 0), 1.5, 0.9, 0.1, 600, 600, 900)
  }

  /** Confirmed, healthy and quiet: 40 of 100 bytes used, with the given peak. */
  function QuietReading(peak: u64, now: i64): (r: Signals) {
    Signals(Metrics(Some(40), 100, 0, peak), None, None, Health(0, false, 0), None, None, false, now)
  }

  /** A Wake seated at 50 bytes, where 40 used need 50, leaves for Steady although
      its only declared exit is Settle. */
  lemma WakeSkipsSettle()
    ensures var plan := PlanTick(Wake, SmallBand(), QuietReading(40, 0), Gate(false, false), Carry(0, 50, 0, None));
            plan.Ok? && plan.value.nextPhase == Steady && Steady !in Wake.Exits()
  {
    SetpointOf(40);
  }

  /** Seating a use at that setpoint takes a quarter more, rounded up. */
  lemma SetpointOf(used: u64)
    requires used <= 1000
    ensures AtSetpoint(used, SmallBand().steady) == Ceil(used as real * 1.25)
  {
    var x := used as real / SmallBand().steady.Denominator();
    assert x == used as real * 1.25;
  }

  // ---- the driver --------------------------------------------------------

  datatype State = State(phase: Phase, carry: Carry)

  /** One tick's inputs; `clean` says the shadow window after it closed cleanly. */
  datatype Tick = Tick(sig: Signals, gate: Gate, clean: bool)

  /** What the controller does with a plan: seat the write, move the phase, and
      record a clean shadow window.  A Wake that decides to tighten settles. */
  function Drive(s: State, plan: TickPlan, t: Tick): (r: State) {
    var c, now := s.carry, t.sig.now;
    match plan.decision
    case Hold => s
    case WakeUp(e, _) => State(Wake, Carry(now, e, 0, None))
    case Expand(l, _) => s.(carry := c.(limit := l))
    case ReExpand(e, _) => State(Wake, c.(enteredAt := now, limit := Max(e, c.limit), shadowConfirmedFor := None))
    case ReachedSetpoint(l) => State(Steady, c.(enteredAt := now, limit := l, shadowConfirmedFor := None))
    case GoIdle(_) => State(Idle, c.(enteredAt := now))
    case Reload => State(Steady, c.(enteredAt := now))
    case ScaleToZero => State(Zero, c.(enteredAt := now, limit := 0))
    case Tighten(step, shadowOnly) =>
      if s.phase == Wake then State(Settle, c.(enteredAt := now))
      else if plan.actuate.Some? then s.(carry := c.(limit := plan.actuate.value, shadowConfirmedFor := None))
      else if shadowOnly && t.clean then s.(carry := c.(shadowConfirmedFor := Some(step.from)))
      else s
  }

  function Plan(cfg: LifecycleConfig, s: State, t: Tick): (r: Result<TickPlan, Failure>) {
    PlanTick(s.phase, cfg, t.sig, t.gate, s.carry)
  }

  /** A failed tick changes nothing. */
  function Next(cfg: LifecycleConfig, s: State, t: Tick): (r: State) {
    var plan := Plan(cfg, s, t);
    if plan.Err? then s else Drive(s, plan.value, t)
  }

  function After(cfg: LifecycleConfig, s: State, ticks: seq<Tick>): (r: State) {
    if ticks == [] then s else Next(cfg, After(cfg, s, ticks[..|ticks| - 1]), ticks[|ticks| - 1])
  }

  // ---- safety over runs --------------------------------------------------

  /** What every driven state keeps: Zero seats nothing, and only Settle remembers a
      confirmed shadow. */
  predicate Seated(s: State) {
    && (s.phase == Zero ==> s.carry.limit == 0)
    && (s.phase != Settle ==> s.carry.shadowConfirmedFor.None?)
  }

  lemma SeatedStep(cfg: LifecycleConfig, s: State, t: Tick)
    requires Seated(s)
    ensures Seated(Next(cfg, s, t))
  {
    hide Multiply, AtSetpoint, GrowHeadroom, Parse, Elapsed, ExpansionLimit, PlanStep;
  }

  lemma {:induction false} SeatedRun(cfg: LifecycleConfig, s: State, ticks: seq<Tick>)
    requires Seated(s)
    ensures Seated(After(cfg, s, ticks))
  {
    if ticks != [] {
      SeatedRun(cfg, s, ticks[..|ticks| - 1]);
      SeatedStep(cfg, After(cfg, s, ticks[..|ticks| - 1]), ticks[|ticks| - 1]);
    }
  }

  /** Over any run the limit only ever falls by a guarded tightening, to no less
      than the bottom, or by the scale to zero. */
  lemma OnlyGuardedDescents(cfg: LifecycleConfig, start: State, ticks: seq<Tick>, t: Tick)
    requires Seated(start)
    ensures var s := After(cfg, start, ticks);
            var s' := Next(cfg, s, t);
            s'.carry.limit < s.carry.limit ==>
              || (s.phase == Idle && s' == State(Zero, s.carry.(enteredAt := t.sig.now, limit := 0)))
              || (&& MayTighten(s.phase, cfg, t.sig, t.gate, s.carry) && s'.phase == Settle
                  && s'.carry.limit >= Bottom(cfg, Parse(t.sig.metrics, cfg.steady.warmupSeconds).value,
                      s.carry.startupMin))
  {
    SeatedRun(cfg, start, ticks);
    var s := After(cfg, start, ticks);
    if Next(cfg, s, t).carry.limit < s.carry.limit {
      DescentIsWrittenOrZero(cfg, s, t);
      WritesBelowIff(s.phase, cfg, t.sig, t.gate, s.carry);
      WritesAboveBottom(s.phase, cfg, t.sig, t.gate, s.carry);
      hide Healthy, Bottom, Next, Plan, PlanTick, After, Elapsed;
    }
  }

  lemma DescentIsWrittenOrZero(cfg: LifecycleConfig, s: State, t: Tick)
    requires Next(cfg, s, t).carry.limit < s.carry.limit
    ensures Plan(cfg, s, t).Ok? && Plan(cfg, s, t) == PlanTick(s.phase, cfg, t.sig, t.gate, s.carry)
    ensures var plan := Plan(cfg, s, t).value;
            || (s.phase == Idle && Next(cfg, s, t) == State(Zero, s.carry.(enteredAt := t.sig.now, limit := 0)))
            || (plan.actuate == Some(Next(cfg, s, t).carry.limit)
                && (plan.decision.Tighten? ==> Next(cfg, s, t).phase == s.phase))
  {
    hide Multiply, AtSetpoint, GrowHeadroom, Parse, Elapsed, ExpansionLimit, PlanStep;
  }

  /** Tick `i` of the run observed a step from `from` in shadow, cleanly. */
  ghost predicate ShadowedAt(cfg: LifecycleConfig, start: State, ticks: seq<Tick>, i: nat, from: u64)
    requires i < |ticks|
  {
    var s, t := After(cfg, start, ticks[..i]), ticks[i];
    && s.phase == Settle && Healthy(cfg, t.sig) && t.clean
    && Plan(cfg, s, t).Ok? && Plan(cfg, s, t).value.decision.Tighten?
    && Plan(cfg, s, t).value.decision.shadowOnly && Plan(cfg, s, t).value.decision.step.from == from
  }

  lemma NewConfirmation(cfg: LifecycleConfig, s: State, t: Tick)
    requires Seated(s)
    requires Next(cfg, s, t).carry.shadowConfirmedFor.Some?
    requires Next(cfg, s, t).carry.shadowConfirmedFor != s.carry.shadowConfirmedFor
    ensures s.phase == Settle && Healthy(cfg, t.sig) && t.clean && Plan(cfg, s, t).Ok?
    ensures var d := Plan(cfg, s, t).value.decision;
            d.Tighten? && d.shadowOnly && Next(cfg, s, t).carry.shadowConfirmedFor == Some(d.step.from)
  {
    hide Multiply, AtSetpoint, GrowHeadroom, Parse, Elapsed, ExpansionLimit, PlanStep;
  }

  /** A confirmation in the carry was put there by an earlier clean shadow. */
  lemma {:induction false} ConfirmedByShadow(cfg: LifecycleConfig, start: State, ticks: seq<Tick>) returns (i: nat)
    requires Seated(start) && start.carry.shadowConfirmedFor.None?
    requires After(cfg, start, ticks).carry.shadowConfirmedFor.Some?
    ensures i < |ticks| && ShadowedAt(cfg, start, ticks, i, After(cfg, start, ticks).carry.shadowConfirmedFor.value)
  {
    hide Seated, Healthy, Plan, Next;
    var n := |ticks| - 1;
    var front := ticks[..n];
    var s := After(cfg, start, front);
    SeatedRun(cfg, start, front);
    if s.carry.shadowConfirmedFor == After(cfg, start, ticks).carry.shadowConfirmedFor {
      i := ConfirmedByShadow(cfg, start, front);
      assert front[..i] == ticks[..i];
    } else {
      NewConfirmation(cfg, s, ticks[n]);
      i := n;
    }
  }

  /** Shadow, confirm, effect: every tightening that takes effect was observed in
      shadow, from the very same limit, at an earlier tick of the run. */
  lemma EffectsWereShadowed(cfg: LifecycleConfig, start: State, ticks: seq<Tick>, t: Tick) returns (i: nat)
    requires Seated(start) && start.carry.shadowConfirmedFor.None?
    requires MayTighten(After(cfg, start, ticks).phase, cfg, t.sig, t.gate, After(cfg, start, ticks).carry)
    ensures i < |ticks| && ShadowedAt(cfg, start, ticks, i, After(cfg, start, ticks).carry.limit)
  {
    i := ConfirmedByShadow(cfg, start, ticks);
  }

  /** A reading that does not ask for more than the ceiling. */
  predicate FitsCeiling(cfg: LifecycleConfig, sig: Signals, startupMin: u64) {
    Healthy(cfg, sig) ==>
      TightenFloor(cfg, Parse(sig.metrics, cfg.steady.warmupSeconds).value, startupMin) <= cfg.steady.ceilingBytes
  }

  lemma CeilingStep(cfg: LifecycleConfig, s: State, t: Tick)
    requires cfg.Validate().None? && cfg.steady.ceilingBytes >= 1
    requires s.carry.limit <= cfg.steady.ceilingBytes && FitsCeiling(cfg, t.sig, s.carry.startupMin)
    ensures Plan(cfg, s, t).Ok?
    ensures Next(cfg, s, t).carry.limit <= cfg.steady.ceilingBytes
    ensures Next(cfg, s, t).carry.startupMin <= s.carry.startupMin
  {
    PanicsIff(s.phase, cfg, t.sig, t.gate, s.carry);
    hide Multiply, AtSetpoint, Parse, Elapsed;
  }

  /** While every reading fits under the ceiling, no run exceeds it and no tick of
      it panics. */
  lemma {:induction false} RunStaysUnderCeiling(cfg: LifecycleConfig, start: State, ticks: seq<Tick>, t: Tick)
    requires cfg.Validate().None? && cfg.steady.ceilingBytes >= 1 && start.carry.limit <= cfg.steady.ceilingBytes
    requires forall i :: 0 <= i < |ticks| ==> FitsCeiling(cfg, ticks[i].sig, start.carry.startupMin)
    ensures After(cfg, start, ticks).carry.limit <= cfg.steady.ceilingBytes
    ensures After(cfg, start, ticks).carry.startupMin <= start.carry.startupMin
    ensures FitsCeiling(cfg, t.sig, start.carry.startupMin) ==> Plan(cfg, After(cfg, start, ticks), t).Ok?
  {
    hide Plan, Next, TightenFloor, Healthy, Parse;
    var s := After(cfg, start, ticks);
    if ticks != [] {
      var n := |ticks| - 1;
      RunStaysUnderCeiling(cfg, start, ticks[..n], ticks[n]);
      LowerMinFits(cfg, ticks[n].sig, After(cfg, start, ticks[..n]).carry.startupMin, start.carry.startupMin);
      CeilingStep(cfg, After(cfg, start, ticks[..n]), ticks[n]);
    }
    if FitsCeiling(cfg, t.sig, start.carry.startupMin) {
      LowerMinFits(cfg, t.sig, s.carry.startupMin, start.carry.startupMin);
      CeilingStep(cfg, s, t);
    }
  }

  /** Exactly when a tick takes the limit above the ceiling (from where a later
      doubtful reading panics): a healthy reading whose floor does not fit, in Settle
      or in a Wake that is ready to settle. */
  lemma OvershootsCeilingIff(cfg: LifecycleConfig, s: State, t: Tick)
    requires cfg.Validate().None? && cfg.steady.ceilingBytes >= 1 && s.carry.limit <= cfg.steady.ceilingBytes
    ensures Next(cfg, s, t).carry.limit > cfg.steady.ceilingBytes
       <==> && Healthy(cfg, t.sig)
            && var proof := Parse(t.sig.metrics, cfg.steady.warmupSeconds).value;
               && TightenFloor(cfg, proof, s.carry.startupMin) > cfg.steady.ceilingBytes
               && (s.phase == Settle
                   || (s.phase == Wake && (proof.Util() < cfg.steady.setpoint
                                           || Elapsed(t.sig.now, s.carry.enteredAt, cfg.expansionMaxSecs))))
  {
    hide Multiply, AtSetpoint, Elapsed;
  }

  /** Woken by load, at 75 bytes; then a peak of 1000 among a use of 40; then a
      restart. */
  function PeakThenRestart(): (r: seq<Tick>) {
    var live := Gate(false, false);
    [Tick(QuietReading(40, 0).(load := Some(Load(1.0, 0))), live, false), Tick(QuietReading(1000, 1), live, false)]
  }

  /** A run from Zero on valid inputs that takes the limit to 1250 bytes over a
      ceiling of 100, and panics on the next restart. */
  lemma OvershootThenPanic()
    ensures var s := After(SmallBand(), State(Zero, Carry(0, 0, 0, None)), PeakThenRestart());
            && s.carry.limit == 1250 > SmallBand().steady.ceilingBytes
            && var restart := QuietReading(40, 2).(health := Health(1, false, 0));
               Plan(SmallBand(), s, Tick(restart, Gate(false, false), false)) == Err(Panicked)
  {
    var cfg, ticks := SmallBand(), PeakThenRestart();
    var zero := State(Zero, Carry(0, 0, 0, None));
    var woken := State(Wake, Carry(0, 75, 0, None));
    assert After(cfg, zero, ticks[..0]) == zero;
    assert ticks[..1][..0] == [];
    WakesAt75();
    assert After(cfg, zero, ticks[..1]) == woken;
    PeakOvershoots();
    assert ticks[..1] == ticks[..|ticks| - 1];
    hide Next;
  }

  lemma WakesAt75()
    ensures Next(SmallBand(), State(Zero, Carry(0, 0, 0, None)), PeakThenRestart()[0])
        == State(Wake, Carry(0, 75, 0, None))
  {
    assert Multiply(40, 1.5) == 60.0;
    assert 60.0 / 0.8 == 75.0;
  }

  lemma PeakOvershoots()
    ensures Next(SmallBand(), State(Wake, Carry(0, 75, 0, None)), PeakThenRestart()[1])
        == State(Steady, Carry(1, 1250, 0, None))
  {
    SetpointOf(40);
    SetpointOf(1000);
  }

  lemma LowerMinFits(cfg: LifecycleConfig, sig: Signals, low: u64, high: u64)
    requires low <= high && FitsCeiling(cfg, sig, high)
    ensures FitsCeiling(cfg, sig, low)
  {
    hide SafeMin, Parse;
  }

  // ---- progress ----------------------------------------------------------

  /** Seconds left on the phase's timer at `now`. */
  function Left(now: i64, enteredAt: i64, secs: u64): (r: nat) {
    Max(0, enteredAt + secs - now)
  }

  /** The ticks a healthy run may still take before it rests. */
  function Budget(cfg: LifecycleConfig, s: State, now: i64): (r: nat) {
    match s.phase
    case Zero => 0
    case Steady => 0
    case Settle => Left(now, s.carry.enteredAt, cfg.settleMaxSecs) + 1
    case Idle => Left(now, s.carry.enteredAt, cfg.idleToZeroSecs) + 1
    case Wake => Left(now, s.carry.enteredAt, cfg.expansionMaxSecs) + cfg.settleMaxSecs + 1
  }

  /** A saturating age can reach every timer: the clock is past the epoch, or the
      timers fit in a signed age. */
  predicate TimersReachable(cfg: LifecycleConfig, enteredAt: i64) {
    enteredAt >= 0
    || (cfg.expansionMaxSecs <= I64_MAX && cfg.settleMaxSecs <= I64_MAX && cfg.idleToZeroSecs <= I64_MAX)
  }

  lemma ElapsedIs(now: i64, enteredAt: i64, secs: u64)
    requires enteredAt <= now && (enteredAt >= 0 || secs <= I64_MAX)
    ensures Elapsed(now, enteredAt, secs) <==> Left(now, enteredAt, secs) == 0
  {
  }

  /** What a healthy tick outside the resting phases can do: rest, settle, or wait
      on a timer that has not run out. */
  lemma HealthyNext(cfg: LifecycleConfig, s: State, t: Tick)
    requires cfg.Validate().None? && Healthy(cfg, t.sig) && !s.phase.IsResting()
    ensures var s', now := Next(cfg, s, t), t.sig.now;
            || s'.phase.IsResting()
            || (s.phase == Wake && s'.phase == Settle && s'.carry.enteredAt == now)
            || (s'.phase == s.phase && s'.carry.enteredAt == s.carry.enteredAt
                && !Elapsed(now, s.carry.enteredAt, TimerOf(cfg, s.phase)))
    ensures Next(cfg, s, t).carry.enteredAt == s.carry.enteredAt || Next(cfg, s, t).carry.enteredAt == t.sig.now
  {
    hide Multiply, AtSetpoint, GrowHeadroom, Parse, Elapsed, ExpansionLimit, PlanStep;
  }

  /** The timer a phase outside rest waits on. */
  function TimerOf(cfg: LifecycleConfig, phase: Phase): (secs: u64) {
    match phase
    case Wake => cfg.expansionMaxSecs
    case Settle => cfg.settleMaxSecs
    case _ => cfg.idleToZeroSecs
  }

  /** A healthy tick outside the resting phases rests, or spends budget as soon as
      the clock moves. */
  lemma HealthyTickSpends(cfg: LifecycleConfig, s: State, t: Tick, later: i64)
    requires cfg.Validate().None? && Healthy(cfg, t.sig) && !s.phase.IsResting()
    requires TimersReachable(cfg, s.carry.enteredAt) && s.carry.enteredAt <= t.sig.now < later
    ensures var s' := Next(cfg, s, t);
            && TimersReachable(cfg, s'.carry.enteredAt) && s'.carry.enteredAt <= t.sig.now
            && (s'.phase.IsResting() || Budget(cfg, s', later) < Budget(cfg, s, t.sig.now))
  {
    HealthyNext(cfg, s, t);
    ElapsedIs(t.sig.now, s.carry.enteredAt, TimerOf(cfg, s.phase));
    hide Next, Elapsed, LifecycleConfig.Validate, Healthy;
  }

  /** When rest is due: each timer still to run may be overshot by one gap between
      ticks. */
  function Due(cfg: LifecycleConfig, s: State, now: i64, gap: nat): (clock: int)
    ensures clock >= now
  {
    var left := Max(now, s.carry.enteredAt + TimerOf(cfg, s.phase) + gap);
    match s.phase
    case Zero => now
    case Steady => now
    case Wake => left + cfg.settleMaxSecs + gap
    case _ => left
  }

  /** A healthy tick outside the resting phases rests, or leaves the due time where
      it was. */
  lemma HealthyTickKeepsDue(cfg: LifecycleConfig, s: State, t: Tick, later: i64, gap: nat)
    requires cfg.Validate().None? && Healthy(cfg, t.sig) && !s.phase.IsResting()
    requires TimersReachable(cfg, s.carry.enteredAt) && s.carry.enteredAt <= t.sig.now <= later <= t.sig.now + gap
    ensures var s' := Next(cfg, s, t);
            s'.phase.IsResting() || Due(cfg, s', later, gap) <= Due(cfg, s, t.sig.now, gap)
  {
    HealthyNext(cfg, s, t);
    ElapsedIs(t.sig.now, s.carry.enteredAt, TimerOf(cfg, s.phase));
    hide Next, Elapsed, LifecycleConfig.Validate, Healthy;
  }

  /** Once rest is due the tick rests. */
  lemma DueTickRests(cfg: LifecycleConfig, s: State, t: Tick, gap: nat)
    requires cfg.Validate().None? && Healthy(cfg, t.sig) && !s.phase.IsResting()
    requires TimersReachable(cfg, s.carry.enteredAt) && s.carry.enteredAt <= t.sig.now
    requires Due(cfg, s, t.sig.now, gap) <= t.sig.now
    ensures Next(cfg, s, t).phase.IsResting()
  {
    HealthyNext(cfg, s, t);
    ElapsedIs(t.sig.now, s.carry.enteredAt, TimerOf(cfg, s.phase));
    hide Next, Elapsed, Healthy;
  }

  ghost predicate HealthyRun(cfg: LifecycleConfig, ticks: seq<Tick>) {
    && (forall i :: 0 <= i < |ticks| ==> Healthy(cfg, ticks[i].sig))
    && (forall i, j :: 0 <= i < j < |ticks| ==> ticks[i].sig.now < ticks[j].sig.now)
  }

  lemma {:induction false} RestsWithinBudget(cfg: LifecycleConfig, s: State, ticks: seq<Tick>) returns (k: nat)
    requires cfg.Validate().None? && HealthyRun(cfg, ticks) && ticks != []
    requires TimersReachable(cfg, s.carry.enteredAt) && s.carry.enteredAt <= ticks[0].sig.now
    requires |ticks| >= Budget(cfg, s, ticks[0].sig.now)
    ensures k <= Budget(cfg, s, ticks[0].sig.now) && k <= |ticks| && After(cfg, s, ticks[..k]).phase.IsResting()
    decreases |ticks|
  {
    hide Healthy, Plan, Next;
    if s.phase.IsResting() {
      k := 0;
    } else {
      var s' := Next(cfg, s, ticks[0]);
      AfterOne(cfg, s, ticks[0]);
      assert ticks[..1] == [ticks[0]];
      if |ticks| == 1 {
        LastTickRests(cfg, s, ticks[0]);
        k := 1;
      } else {
        HealthyTickSpends(cfg, s, ticks[0], ticks[1].sig.now);
        if s'.phase.IsResting() {
          k := 1;
        } else {
          var k' := RestsWithinBudget(cfg, s', ticks[1..]);
          k := k' + 1;
          assert ticks[..k] == [ticks[0]] + ticks[1..][..k'];
          AfterFirst(cfg, s, ticks[0], ticks[1..][..k']);
        }
      }
    }
  }

  lemma AfterOne(cfg: LifecycleConfig, s: State, t: Tick)
    ensures After(cfg, s, [t]) == Next(cfg, s, t)
  {
    assert [t][..0] == [];
  }

  lemma {:induction false} AfterFirst(cfg: LifecycleConfig, s: State, t: Tick, rest: seq<Tick>)
    ensures After(cfg, s, [t] + rest) == After(cfg, Next(cfg, s, t), rest)
  {
    if rest == [] {
      assert [t] + rest == [t];
      AfterOne(cfg, s, t);
    } else {
      var n := |rest| - 1;
      assert ([t] + rest)[..|rest|] == [t] + rest[..n];
      AfterFirst(cfg, s, t, rest[..n]);
    }
  }

  /** With a budget of one tick, that tick rests. */
  lemma LastTickRests(cfg: LifecycleConfig, s: State, t: Tick)
    requires cfg.Validate().None? && Healthy(cfg, t.sig) && !s.phase.IsResting()
    requires TimersReachable(cfg, s.carry.enteredAt) && s.carry.enteredAt <= t.sig.now
    requires Budget(cfg, s, t.sig.now) <= 1
    ensures Next(cfg, s, t).phase.IsResting()
  {
    ElapsedIs(t.sig.now, s.carry.enteredAt, cfg.settleMaxSecs);
    ElapsedIs(t.sig.now, s.carry.enteredAt, cfg.idleToZeroSecs);
    hide Multiply, AtSetpoint, GrowHeadroom, Parse, Elapsed, ExpansionLimit, PlanStep;
  }

  ghost predicate NoGapAbove(ticks: seq<Tick>, gap: nat) {
    forall i :: 0 <= i < |ticks| - 1 ==> ticks[i + 1].sig.now <= ticks[i].sig.now + gap
  }

  lemma TailOfRun(cfg: LifecycleConfig, ticks: seq<Tick>, gap: nat)
    requires HealthyRun(cfg, ticks) && ticks != [] && NoGapAbove(ticks, gap)
    ensures Healthy(cfg, ticks[0].sig) && HealthyRun(cfg, ticks[1..]) && NoGapAbove(ticks[1..], gap)
    ensures |ticks| > 1 ==> ticks[0].sig.now < ticks[1].sig.now <= ticks[0].sig.now + gap
  {
    hide Healthy;
    var rest := ticks[1..];
    forall i | 0 <= i < |rest| - 1 ensures rest[i + 1].sig.now <= rest[i].sig.now + gap {
      assert ticks[i + 2].sig.now <= ticks[i + 1].sig.now + gap;
    }
  }

  lemma {:induction false} RestsByDue(cfg: LifecycleConfig, s: State, ticks: seq<Tick>, gap: nat) returns (k: nat)
    requires cfg.Validate().None? && HealthyRun(cfg, ticks) && ticks != [] && NoGapAbove(ticks, gap)
    requires TimersReachable(cfg, s.carry.enteredAt) && s.carry.enteredAt <= ticks[0].sig.now
    requires ticks[|ticks| - 1].sig.now >= Due(cfg, s, ticks[0].sig.now, gap)
    ensures k <= |ticks| && After(cfg, s, ticks[..k]).phase.IsResting()
    ensures k > 0 ==> ticks[k - 1].sig.now <= Due(cfg, s, ticks[0].sig.now, gap)
    decreases |ticks|
  {
    hide Healthy, Plan, Next, Due, HealthyRun, NoGapAbove, TimersReachable, LifecycleConfig.Validate;
    if s.phase.IsResting() {
      return 0;
    }
    TailOfRun(cfg, ticks, gap);
    var s', rest := Next(cfg, s, ticks[0]), ticks[1..];
    AfterOne(cfg, s, ticks[0]);
    assert ticks[..1] == [ticks[0]];
    if |ticks| == 1 {
      DueTickRests(cfg, s, ticks[0], gap);
    }
    if s'.phase.IsResting() {
      return 1;
    }
    HealthyTickSpends(cfg, s, ticks[0], ticks[1].sig.now);
    HealthyTickKeepsDue(cfg, s, ticks[0], ticks[1].sig.now, gap);
    var k' := RestsByDue(cfg, s', rest, gap);
    k := k' + 1;
    assert ticks[..k] == [ticks[0]] + rest[..k'];
    AfterFirst(cfg, s, ticks[0], rest[..k']);
    assert After(cfg, s', rest[..0]) == s';
    assert ticks[k - 1] == rest[k' - 1];
  }

  /** The longest a healthy workload is under way: waking and settling, or draining. */
  function LongestWay(cfg: LifecycleConfig): (secs: nat) {
    Max(cfg.expansionMaxSecs + cfg.settleMaxSecs, cfg.idleToZeroSecs)
  }

  /** Bounded progress in seconds: with ticks at most `gap` apart, a healthy run that
      lasts long enough rests within its timers and two gaps. */
  lemma RestsInTime(cfg: LifecycleConfig, s: State, ticks: seq<Tick>, gap: nat) returns (k: nat)
    requires cfg.Validate().None? && HealthyRun(cfg, ticks) && ticks != [] && NoGapAbove(ticks, gap)
    requires TimersReachable(cfg, s.carry.enteredAt) && s.carry.enteredAt <= ticks[0].sig.now
    requires ticks[|ticks| - 1].sig.now >= ticks[0].sig.now + LongestWay(cfg) + 2 * gap
    ensures k <= |ticks| && After(cfg, s, ticks[..k]).phase.IsResting()
    ensures k > 0 ==> ticks[k - 1].sig.now <= ticks[0].sig.now + LongestWay(cfg) + 2 * gap
  {
    hide Healthy;
    assert Due(cfg, s, ticks[0].sig.now, gap) <= ticks[0].sig.now + LongestWay(cfg) + 2 * gap;
    k := RestsByDue(cfg, s, ticks, gap);
  }

  /** Bounded progress in ticks: from any phase, healthy readings on an advancing
      clock reach Steady or Zero in no more ticks than a second-by-second clock would
      need, however far apart the ticks are. */
  lemma ReachesRest(cfg: LifecycleConfig, s: State, ticks: seq<Tick>) returns (k: nat)
    requires cfg.Validate().None? && HealthyRun(cfg, ticks) && ticks != []
    requires TimersReachable(cfg, s.carry.enteredAt) && s.carry.enteredAt <= ticks[0].sig.now
    requires |ticks| >= LongestWay(cfg) + 1
    ensures k <= LongestWay(cfg) + 1
    ensures k <= |ticks| && After(cfg, s, ticks[..k]).phase.IsResting()
  {
    hide Healthy;
    assert Budget(cfg, s, ticks[0].sig.now) <= LongestWay(cfg) + 1;
    k := RestsWithinBudget(cfg, s, ticks);
  }

  // ---- where a phase can trap ----------------------------------------------

  /** What takes a workload out of Wake, or out of Idle. */
  predicate Leaves(cfg: LifecycleConfig, s: State, sig: Signals)
    requires s.phase == Wake || s.phase == Idle
  {
    && Healthy(cfg, sig)
    && var proof := Parse(sig.metrics, cfg.steady.warmupSeconds).value;
       if s.phase == Wake
       then proof.Util() < cfg.steady.setpoint || Elapsed(sig.now, s.carry.enteredAt, cfg.expansionMaxSecs)
       else sig.LoadActive() || sig.scheduleActive == Some(true) || sig.costOverBudget
            || Elapsed(sig.now, s.carry.enteredAt, cfg.idleToZeroSecs)
  }

  /** Exactly when Wake or Idle is left: never on a doubtful or struggling reading,
      however long ago the timer ran out. */
  lemma LeavesIff(cfg: LifecycleConfig, s: State, t: Tick)
    requires cfg.Validate().None? && (s.phase == Wake || s.phase == Idle)
    ensures Next(cfg, s, t).phase != s.phase <==> Leaves(cfg, s, t.sig)
    ensures !Healthy(cfg, t.sig) ==> Next(cfg, s, t).carry.enteredAt == s.carry.enteredAt
  {
    hide Multiply, AtSetpoint, GrowHeadroom, Parse, Elapsed, ExpansionLimit, PlanStep;
  }

  /** However long a run of doubtful readings, Wake and Idle stay what they are. */
  lemma {:induction false} DoubtTraps(cfg: LifecycleConfig, s: State, ticks: seq<Tick>)
    requires cfg.Validate().None? && (s.phase == Wake || s.phase == Idle)
    requires forall i :: 0 <= i < |ticks| ==> !Healthy(cfg, ticks[i].sig)
    ensures After(cfg, s, ticks).phase == s.phase
  {
    hide Healthy, Next, LifecycleConfig.Validate;
    if ticks != [] {
      var n := |ticks| - 1;
      DoubtTraps(cfg, s, ticks[..n]);
      LeavesIff(cfg, After(cfg, s, ticks[..n]), ticks[n]);
    }
  }

  /** A reading of nothing used is doubtful, whatever else it says: a workload that
      idles at nothing is never scaled to Zero. */
  lemma UnusedNeverSleeps(cfg: LifecycleConfig, s: State, ticks: seq<Tick>)
    requires cfg.Validate().None? && s.phase == Idle
    requires forall i :: 0 <= i < |ticks| ==> ticks[i].sig.metrics.used == Some(0)
    ensures After(cfg, s, ticks).phase == Idle
  {
    hide Next, LifecycleConfig.Validate;
    DoubtTraps(cfg, s, ticks);
  }

  // ---- the descent -------------------------------------------------------

  /** The limit after `k` effected steps on a fixed reading. */
  function Descend(start: u64, steadyTarget: u64, floor: u64, factor: real, k: nat): (r: u64) {
    if k == 0 then start
    else
      var limit := Descend(start, steadyTarget, floor, factor, k - 1);
      var step := PlanStep(limit, steadyTarget, floor, factor);
      if step.None? then limit else step.value.to
  }

  function Power(f: real, k: nat): (r: real) {
    if k == 0 then 1.0 else Times(f, Power(f, k - 1))
  }

  lemma StepShrinks(from: u64, steadyTarget: u64, floor: u64, factor: real)
    requires 0.0 < factor < 1.0 && PlanStep(from, steadyTarget, floor, factor).Some?
    ensures PlanStep(from, steadyTarget, floor, factor).value.to as real
         <= MaxR(Max(steadyTarget, floor) as real, Times(factor, from as real))
  {
    assert Multiply(from, factor) == Times(factor, from as real);
    TimesSign(factor, from as real);
    hide Times, Multiply;
  }

  lemma {:induction false} PowerPositive(f: real, k: nat)
    requires f > 0.0
    ensures Power(f, k) > 0.0
  {
    if k > 0 {
      PowerPositive(f, k - 1);
      TimesSign(f, Power(f, k - 1));
    }
  }

  /** Geometric descent: after `k` steps the limit is at most the larger of the
      bottom and `factor^k` of the start, and never below the bottom. */
  lemma {:induction false} DescentBound(start: u64, steadyTarget: u64, floor: u64, factor: real, k: nat)
    requires 0.0 < factor < 1.0 && start >= Max(steadyTarget, floor)
    ensures var bottom, limit := Max(steadyTarget, floor), Descend(start, steadyTarget, floor, factor, k);
            && bottom <= limit <= start
            && limit as real <= MaxR(bottom as real, Times(Power(factor, k), start as real))
  {
    hide Times, PlanStep;
    TimesOne(start as real);
    if k > 0 {
      var limit := Descend(start, steadyTarget, floor, factor, k - 1);
      DescentBound(start, steadyTarget, floor, factor, k - 1);
      PowerPositive(factor, k - 1);
      if PlanStep(limit, steadyTarget, floor, factor).Some? {
        StepShrinks(limit, steadyTarget, floor, factor);
        TimesLe(factor, limit as real, Times(Power(factor, k - 1), start as real));
        TimesSwap(factor, Power(factor, k - 1), start as real);
      }
    }
  }

  /** Every step before the bottom is strict, and the descent stops exactly there,
      within one step per byte. */
  lemma {:induction false} DescentStopsAtBottom(start: u64, steadyTarget: u64, floor: u64, factor: real, k: nat)
    requires start >= Max(steadyTarget, floor)
    ensures var bottom := Max(steadyTarget, floor);
            var limit, next := Descend(start, steadyTarget, floor, factor, k),
                Descend(start, steadyTarget, floor, factor, k + 1);
            && bottom <= limit <= Max(bottom, start - k)
            && (limit > bottom ==> bottom <= next < limit)
            && (limit == bottom ==> next == bottom)
  {
    hide Multiply, PlanStep;
    if k > 0 {
      DescentStopsAtBottom(start, steadyTarget, floor, factor, k - 1);
    }
  }
}
