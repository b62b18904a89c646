/** The quorum law under a constant load, over whole runs: it reverses exactly when it
    visits the one rung where stepping up and stepping down answer each other. */
module QuorumRuns {
  import opened Machine
  import opened RealSums
  import opened Replica
  import opened ReplicaRuns

  /** A quorum inside the law's own envelope. */
  predicate OnRung(cfg: BandConfig, n: u32) {
    IsQuorum(n) && cfg.TopologyFloor() <= n <= QuorumCeiling(cfg)
  }

  ghost predicate SteadyLoad(cfg: BandConfig, load: real, windows: seq<Option<u32>>) {
    cfg.topology.FullyDistributed? && ConstantLoad(cfg, load, windows)
  }

  function QuorumTick(cfg: BandConfig, load: real, window: Option<u32>, n: u32): (d: Decision) {
    DecideQuorum(cfg, Observation(n, Finite(load), window, 0))
  }

  /** The count after a run of ticks under the same load. */
  function QuorumRun(cfg: BandConfig, load: real, windows: seq<Option<u32>>, start: u32): (n: u32) {
    if windows == [] then start
    else QuorumTick(cfg, load, windows[|windows| - 1], QuorumRun(cfg, load, windows[..|windows| - 1], start)).Target()
  }

  function Before(cfg: BandConfig, load: real, windows: seq<Option<u32>>, start: u32, i: nat): (n: u32)
    requires i <= |windows|
  {
    QuorumRun(cfg, load, windows[..i], start)
  }

  function TickAt(cfg: BandConfig, load: real, windows: seq<Option<u32>>, start: u32, i: nat): (d: Decision)
    requires i < |windows|
  {
    QuorumTick(cfg, load, windows[i], Before(cfg, load, windows, start, i))
  }

  /** Both a step up and a step down happen in the run. */
  ghost predicate Reverses(cfg: BandConfig, load: real, windows: seq<Option<u32>>, start: u32) {
    exists i, j :: 0 <= i < |windows| && 0 <= j < |windows|
      && TickAt(cfg, load, windows, start, i).ScaleUp? && TickAt(cfg, load, windows, start, j).ScaleDown?
  }

  /** The load asks for one replica more than the rung has, leaves the dead-band
      upwards on it, and downwards on the rung above. */
  predicate FlapRung(cfg: BandConfig, load: real, k: u32) {
    && IsQuorum(k) && cfg.TopologyFloor() <= k && k + 2 <= QuorumCeiling(cfg)
    && WantsUp(cfg, k, Finite(load)) && !WantsUp(cfg, k + 2, Finite(load)) && WantsDown(cfg, k + 2, Finite(load))
    && cfg.signal.DesiredRaw(0, Finite(load), cfg.target) == k + 1
  }

  /** The run stands on such a rung, or on the one above it, with at least two ticks
      to go. */
  ghost predicate VisitsFlapRung(cfg: BandConfig, load: real, windows: seq<Option<u32>>, start: u32) {
    exists i: nat, k: u32 :: i + 1 < |windows| && FlapRung(cfg, load, k)
      && Before(cfg, load, windows, start, i) in [k, k + 2]
  }

  // ---- one tick ----------------------------------------------------------

  /** `AtLeast` is the least quorum covering a count: it is within a quorum exactly
      when the count is. */
  lemma AtLeastWithin(v: u32, q: u32)
    requires IsQuorum(q)
    ensures AtLeast(v) <= q <==> v <= q
    ensures AtLeast(v) > q ==> AtLeast(v) >= q + 2
  {
  }

  /** And `AtMost` the greatest within a ceiling. */
  lemma AtMostCovers(v: u32, q: u32)
    requires IsQuorum(q) && q > 3
    ensures AtMost(v) >= q <==> v >= q
    ensures AtMost(v) < q ==> AtMost(v) <= q - 2
  {
  }

  lemma StepsAreRungs(n: u32)
    requires IsQuorum(n)
    ensures n + 2 <= U32_MAX ==> StepUp(n) == n + 2
    ensures StepDown(n) == Max(n - 2, 3)
  {
  }

  lemma RungsApart(a: u32, b: u32)
    requires IsQuorum(a) && IsQuorum(b) && a < b
    ensures a + 2 <= b
  {
  }

  /** Where a step up goes, inside odd bounds. */
  lemma UpTarget(f: u32, c: u32, n: u32, raw: u32)
    requires IsQuorum(f) && IsQuorum(c) && IsQuorum(n) && f <= n <= c
    ensures var desired := Min(AtLeast(Clamp(raw, f, c)), c);
            var to := Min(Max(Min(desired, StepUp(n)), f), c);
            if n + 2 <= c && raw >= n + 1 then to == n + 2 else to <= n
  {
    StepsAreRungs(n);
    AtLeastWithin(Clamp(raw, f, c), n);
    if n < c {
      RungsApart(n, c);
    }
    hide AtLeast, StepUp, IsQuorum;
  }

  /** Where a step down goes, inside odd bounds. */
  lemma DownTarget(f: u32, c: u32, n: u32, v: u32)
    requires IsQuorum(f) && IsQuorum(c) && IsQuorum(n) && f <= n <= c
    ensures var desired := Max(AtMost(Clamp(v, f, c)), f);
            var to := Clamp(Max(desired, StepDown(n)), f, c);
            if f <= n - 2 && v <= n - 1 then to == n - 2 else to >= n
  {
    StepsAreRungs(n);
    if f < n {
      RungsApart(f, n);
      AtMostCovers(Clamp(v, f, c), n);
    }
    hide AtMost, StepDown, IsQuorum;
  }

  lemma BoundsAreQuorums(cfg: BandConfig)
    requires cfg.topology.FullyDistributed?
    ensures IsQuorum(cfg.TopologyFloor()) && IsQuorum(QuorumCeiling(cfg))
  {
  }

  /** What one tick does from a rung: one rung up, one down, or nothing. */
  lemma OneRung(cfg: BandConfig, load: real, window: Option<u32>, n: u32)
    requires cfg.topology.FullyDistributed? && OnRung(cfg, n)
    ensures var d, raw := QuorumTick(cfg, load, window, n), cfg.signal.DesiredRaw(n, Finite(load), cfg.target);
            && (d.ScaleUp? <==> WantsUp(cfg, n, Finite(load)) && n + 2 <= QuorumCeiling(cfg) && raw >= n + 1)
            && (d.ScaleDown? <==> !WantsUp(cfg, n, Finite(load)) && WantsDown(cfg, n, Finite(load))
                                  && cfg.TopologyFloor() <= n - 2 && Stabilized(window, raw) <= n - 1)
            && d.Target() == (if d.ScaleUp? then n + 2 else if d.ScaleDown? then n - 2 else n)
  {
    var raw := cfg.signal.DesiredRaw(n, Finite(load), cfg.target);
    BoundsAreQuorums(cfg);
    UpTarget(cfg.TopologyFloor(), QuorumCeiling(cfg), n, raw);
    DownTarget(cfg.TopologyFloor(), QuorumCeiling(cfg), n, Stabilized(window, raw));
    hide Signal.DesiredRaw, WantsUp, WantsDown, Stabilized, BandConfig.TopologyFloor, QuorumCeiling, IsQuorum,
      AtLeast, AtMost, StepUp, StepDown, Clamp, Min, Max;
  }

  // ---- runs --------------------------------------------------------------

  lemma BeforeNext(cfg: BandConfig, load: real, windows: seq<Option<u32>>, start: u32, i: nat)
    requires i < |windows|
    ensures Before(cfg, load, windows, start, i + 1) == TickAt(cfg, load, windows, start, i).Target()
  {
    assert windows[..i + 1][..i] == windows[..i];
  }

  lemma {:induction false} StaysOnRungs(cfg: BandConfig, load: real, windows: seq<Option<u32>>, start: u32, i: nat)
    requires SteadyLoad(cfg, load, windows) && OnRung(cfg, start) && i <= |windows|
    ensures OnRung(cfg, Before(cfg, load, windows, start, i))
  {
    hide QuorumTick, BandConfig.TopologyFloor, QuorumCeiling, WantsUp, WantsDown, Stabilized, Signal.DesiredRaw;
    if i > 0 {
      StaysOnRungs(cfg, load, windows, start, i - 1);
      BeforeNext(cfg, load, windows, start, i - 1);
      OneRung(cfg, load, windows[i - 1], Before(cfg, load, windows, start, i - 1));
      BoundsAreQuorums(cfg);
    }
  }

  /** What one tick of a run does, on the inputs. */
  lemma TickFacts(cfg: BandConfig, load: real, windows: seq<Option<u32>>, start: u32, i: nat)
    requires SteadyLoad(cfg, load, windows) && OnRung(cfg, start) && i < |windows|
    ensures var n, d := Before(cfg, load, windows, start, i), TickAt(cfg, load, windows, start, i);
            var raw := cfg.signal.DesiredRaw(0, Finite(load), cfg.target);
            && OnRung(cfg, n) && Before(cfg, load, windows, start, i + 1) == d.Target()
            && (d.ScaleUp? <==> WantsUp(cfg, n, Finite(load)) && n + 2 <= QuorumCeiling(cfg) && raw >= n + 1)
            && (d.ScaleDown? <==> !WantsUp(cfg, n, Finite(load)) && WantsDown(cfg, n, Finite(load))
                                  && cfg.TopologyFloor() <= n - 2 && raw <= n - 1)
            && d.Target() == (if d.ScaleUp? then n + 2 else if d.ScaleDown? then n - 2 else n)
  {
    hide *;
    StaysOnRungs(cfg, load, windows, start, i);
    BeforeNext(cfg, load, windows, start, i);
    TickIs(cfg, load, windows, start, i);
    var n := Before(cfg, load, windows, start, i);
    SettledAt(cfg, load, windows, i, n);
    OneRung(cfg, load, windows[i], n);
  }

  lemma TickIs(cfg: BandConfig, load: real, windows: seq<Option<u32>>, start: u32, i: nat)
    requires i < |windows|
    ensures TickAt(cfg, load, windows, start, i)
        == QuorumTick(cfg, load, windows[i], Before(cfg, load, windows, start, i))
  {
  }

  lemma SettledAt(cfg: BandConfig, load: real, windows: seq<Option<u32>>, i: nat, n: u32)
    requires SteadyLoad(cfg, load, windows) && i < |windows|
    ensures cfg.topology.FullyDistributed?
    ensures var raw := cfg.signal.DesiredRaw(0, Finite(load), cfg.target);
            cfg.signal.DesiredRaw(n, Finite(load), cfg.target) == raw && Stabilized(windows[i], raw) == raw
  {
    RawIgnoresCount(cfg, load, n, 0);
    assert Settled(cfg, load, windows[i]);
    hide Signal.DesiredRaw;
  }

  /** Two moves in opposite directions have two such moves next to each other: between
      them the run cannot rest, since a rest is for good. */
  lemma {:induction false} TurnsSomewhere(cfg: BandConfig, load: real, windows: seq<Option<u32>>, start: u32, i: nat,
      j: nat)
    returns (k: nat)
    requires SteadyLoad(cfg, load, windows) && OnRung(cfg, start) && i < j < |windows|
    requires var d, e := TickAt(cfg, load, windows, start, i), TickAt(cfg, load, windows, start, j);
             (d.ScaleUp? && e.ScaleDown?) || (d.ScaleDown? && e.ScaleUp?)
    ensures k + 1 < |windows|
    ensures var d, e := TickAt(cfg, load, windows, start, k), TickAt(cfg, load, windows, start, k + 1);
            (d.ScaleUp? && e.ScaleDown?) || (d.ScaleDown? && e.ScaleUp?)
    decreases j - i
  {
    hide *;
    TickFacts(cfg, load, windows, start, i);
    TickFacts(cfg, load, windows, start, i + 1);
    var d, e := TickAt(cfg, load, windows, start, i), TickAt(cfg, load, windows, start, i + 1);
    if (d.ScaleUp? && e.ScaleDown?) || (d.ScaleDown? && e.ScaleUp?) {
      k := i;
    } else {
      if !e.ScaleUp? && !e.ScaleDown? {
        RestsOn(cfg, load, windows, start, i + 1, j);
      }
      k := TurnsSomewhere(cfg, load, windows, start, i + 1, j);
    }
  }

  lemma {:induction false} RestsOn(cfg: BandConfig, load: real, windows: seq<Option<u32>>, start: u32, i: nat, j: nat)
    requires SteadyLoad(cfg, load, windows) && OnRung(cfg, start) && i <= j < |windows|
    requires !TickAt(cfg, load, windows, start, i).ScaleUp? && !TickAt(cfg, load, windows, start, i).ScaleDown?
    ensures !TickAt(cfg, load, windows, start, j).ScaleUp? && !TickAt(cfg, load, windows, start, j).ScaleDown?
    decreases j - i
  {
    hide *;
    if i < j {
      TickFacts(cfg, load, windows, start, i);
      TickFacts(cfg, load, windows, start, i + 1);
      RestsOn(cfg, load, windows, start, i + 1, j);
    }
  }

  lemma TurnIsFlapRung(cfg: BandConfig, load: real, windows: seq<Option<u32>>, start: u32, i: nat)
    requires SteadyLoad(cfg, load, windows) && OnRung(cfg, start) && i + 1 < |windows|
    requires var d, e := TickAt(cfg, load, windows, start, i), TickAt(cfg, load, windows, start, i + 1);
             (d.ScaleUp? && e.ScaleDown?) || (d.ScaleDown? && e.ScaleUp?)
    ensures VisitsFlapRung(cfg, load, windows, start)
  {
    hide TickAt, Before, WantsUp, WantsDown, Signal.DesiredRaw, QuorumCeiling, BandConfig.TopologyFloor,
        Decision.Target;
    TickFacts(cfg, load, windows, start, i);
    TickFacts(cfg, load, windows, start, i + 1);
    var n := Before(cfg, load, windows, start, i);
    if TickAt(cfg, load, windows, start, i).ScaleUp? {
      assert FlapRung(cfg, load, n);
    } else {
      assert FlapRung(cfg, load, n - 2);
    }
  }

  lemma FlapRungTurns(cfg: BandConfig, load: real, windows: seq<Option<u32>>, start: u32, i: nat, k: u32)
    requires SteadyLoad(cfg, load, windows) && OnRung(cfg, start) && i + 1 < |windows|
    requires FlapRung(cfg, load, k) && Before(cfg, load, windows, start, i) in [k, k + 2]
    ensures var d, e := TickAt(cfg, load, windows, start, i), TickAt(cfg, load, windows, start, i + 1);
            (d.ScaleUp? && e.ScaleDown?) || (d.ScaleDown? && e.ScaleUp?)
  {
    hide TickAt, Before, WantsUp, WantsDown, Signal.DesiredRaw, QuorumCeiling, BandConfig.TopologyFloor,
      OnRung, SteadyLoad, IsQuorum, Decision.Target;
    TickFacts(cfg, load, windows, start, i);
    TickFacts(cfg, load, windows, start, i + 1);
  }

  /** Exactly when a quorum run under a constant load reverses: when it visits the
      flapping rung, or the one above, before its last tick. */
  lemma ReversesIff(cfg: BandConfig, load: real, windows: seq<Option<u32>>, start: u32)
    requires SteadyLoad(cfg, load, windows) && OnRung(cfg, start)
    ensures Reverses(cfg, load, windows, start) <==> VisitsFlapRung(cfg, load, windows, start)
  {
    hide SteadyLoad, OnRung, TickAt, Before, FlapRung;
    if Reverses(cfg, load, windows, start) {
      var i, j :| 0 <= i < |windows| && 0 <= j < |windows|
        && TickAt(cfg, load, windows, start, i).ScaleUp? && TickAt(cfg, load, windows, start, j).ScaleDown?;
      var k := TurnsSomewhere(cfg, load, windows, start, Min(i, j), Max(i, j));
      TurnIsFlapRung(cfg, load, windows, start, k);
    }
    if VisitsFlapRung(cfg, load, windows, start) {
      var i: nat, k: u32 :| i + 1 < |windows| && FlapRung(cfg, load, k)
          && Before(cfg, load, windows, start, i) in [k, k + 2];
      FlapRungTurns(cfg, load, windows, start, i, k);
    }
  }

  // ---- on the inputs -------------------------------------------------------

  /** How many ticks a run needs to reach the rung `k`, or the one above it. */
  function TicksTo(start: u32, k: u32): (n: nat) {
    if start <= k then (k - start) / 2 else if start >= k + 2 then (start - k - 2) / 2 else 0
  }

  /** More members bring the load of each down: what is wanted up at a count is wanted
      at every smaller one, and down at every larger. */
  lemma WantsAreMonotone(cfg: BandConfig, load: real, a: u32, b: u32)
    requires cfg.signal.IsAbsolute() && load >= 0.0 && cfg.target > 0.0 && 0 < a <= b
    ensures WantsUp(cfg, b, Finite(load)) ==> WantsUp(cfg, a, Finite(load))
    ensures WantsDown(cfg, a, Finite(load)) ==> WantsDown(cfg, b, Finite(load))
  {
    PerMember(load, a as real, b as real, cfg.target);
  }

  lemma PerMember(load: real, a: real, b: real, target: real)
    requires load >= 0.0 && 0.0 < a <= b && target > 0.0
    ensures load / b / target <= load / a / target
  {
    hide Times;
    var x, y := Over(load, a), Over(load, b);
    OverTimes(load, a);
    OverSign(load, a);
    TimesLe(x, a, b);
    OverAtMost(load, b, x);
    OverTimes(x, target);
    OverAtMost(y, target, Over(x, target));
  }

  lemma ConstantMeans(cfg: BandConfig, load: real, windows: seq<Option<u32>>)
    requires SteadyLoad(cfg, load, windows)
    ensures cfg.topology.FullyDistributed? && cfg.signal.IsAbsolute() && load >= 0.0 && cfg.target > 0.0
  {
  }

  /** Below the flapping rung every tick steps up to it, above it down. */
  lemma TowardsFlapRung(cfg: BandConfig, load: real, windows: seq<Option<u32>>, start: u32, i: nat, k: u32)
    requires SteadyLoad(cfg, load, windows) && OnRung(cfg, start) && i < |windows| && FlapRung(cfg, load, k)
    ensures var n, d := Before(cfg, load, windows, start, i), TickAt(cfg, load, windows, start, i);
            && OnRung(cfg, n) && Before(cfg, load, windows, start, i + 1) == d.Target()
            && (n <= k ==> d.ScaleUp? && d.Target() == n + 2)
            && (n >= k + 2 ==> d.ScaleDown? && d.Target() == n - 2)
  {
    hide *;
    TickFacts(cfg, load, windows, start, i);
    ConstantMeans(cfg, load, windows);
    FlapRungMeans(cfg, load, k);
    var n := Before(cfg, load, windows, start, i);
    assert n >= 3 by {
      assert OnRung(cfg, n);
      RungsAreThree(cfg, n);
    }
    if n <= k {
      WantsAreMonotone(cfg, load, n, k);
    }
    if n >= k + 2 {
      WantsAreMonotone(cfg, load, k + 2, n);
    }
  }

  lemma FlapRungMeans(cfg: BandConfig, load: real, k: u32)
    requires FlapRung(cfg, load, k)
    ensures cfg.TopologyFloor() <= k && k + 2 <= QuorumCeiling(cfg)
    ensures WantsUp(cfg, k, Finite(load)) && !WantsUp(cfg, k + 2, Finite(load)) && WantsDown(cfg, k + 2, Finite(load))
    ensures cfg.signal.DesiredRaw(0, Finite(load), cfg.target) == k + 1
  {
    hide WantsUp, WantsDown, Signal.DesiredRaw, QuorumCeiling, BandConfig.TopologyFloor;
  }

  lemma RungsAreThree(cfg: BandConfig, n: u32)
    requires OnRung(cfg, n)
    ensures n >= 3
  {
  }

  lemma {:induction false} WayToFlapRung(cfg: BandConfig, load: real, windows: seq<Option<u32>>, start: u32, i: nat,
      k: u32)
    requires SteadyLoad(cfg, load, windows) && OnRung(cfg, start) && FlapRung(cfg, load, k)
    requires i <= TicksTo(start, k) && i <= |windows|
    ensures Before(cfg, load, windows, start, i) == if start <= k then start + 2 * i else start - 2 * i
  {
    hide TickAt, Decision.Target, WantsUp, WantsDown, Signal.DesiredRaw, QuorumCeiling, BandConfig.TopologyFloor;
    if i == 0 {
      StartsThere(cfg, load, windows, start);
    } else {
      WayToFlapRung(cfg, load, windows, start, i - 1, k);
      hide Before, QuorumRun;
      TowardsFlapRung(cfg, load, windows, start, i - 1, k);
    }
  }

  lemma StartsThere(cfg: BandConfig, load: real, windows: seq<Option<u32>>, start: u32)
    ensures Before(cfg, load, windows, start, 0) == start
  {
  }

  /** Exactly when a quorum run under a constant load reverses, on the inputs: when
      there is a flapping rung, and the run is long enough to reach it and turn. */
  lemma ReversesOnInputsIff(cfg: BandConfig, load: real, windows: seq<Option<u32>>, start: u32)
    requires SteadyLoad(cfg, load, windows) && OnRung(cfg, start)
    ensures Reverses(cfg, load, windows, start)
       <==> exists k: u32 :: FlapRung(cfg, load, k) && |windows| >= TicksTo(start, k) + 2
  {
    hide Reverses, SteadyLoad, FlapRung, Before, OnRung;
    ReversesIff(cfg, load, windows, start);
    if k: u32 :| FlapRung(cfg, load, k) && |windows| >= TicksTo(start, k) + 2 {
      WayToFlapRung(cfg, load, windows, start, TicksTo(start, k), k);
      ArrivesAt(cfg, load, start, k);
    }
    if i: nat, k: u32 :|
      i + 1 < |windows| && FlapRung(cfg, load, k) && Before(cfg, load, windows, start, i) in [k, k + 2]
    {
      if i < TicksTo(start, k) {
        WayToFlapRung(cfg, load, windows, start, i, k);
        ArrivesAt(cfg, load, start, k);
      }
    }
  }

  lemma ArrivesAt(cfg: BandConfig, load: real, start: u32, k: u32)
    requires OnRung(cfg, start) && FlapRung(cfg, load, k)
    ensures start <= k ==> start + 2 * TicksTo(start, k) == k
    ensures start > k ==> start >= k + 2 && start - 2 * TicksTo(start, k) == k + 2
  {
    hide WantsUp, WantsDown, Signal.DesiredRaw, QuorumCeiling, BandConfig.TopologyFloor;
  }
}
