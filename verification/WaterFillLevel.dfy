/** The water level: one rational level for the whole list, from which every grant is
    within one unit per pass, and how far that leaves a grant from the exact fill. */
module WaterFillLevel {
  import opened Machine
  import opened RealSums
  import opened Sums
  import opened WaterFill
  import opened WaterFillLaws
  import opened WaterFillPasses

  /** What the passes hand out per unit of weight, unrounded. */
  ghost function Level(claims: seq<Demand>, st: Fill): (l: real)
    requires Valid(claims, st)
    decreases ActiveCount(st.frozen)
  {
    if Finished(claims, st) then 0.0
    else
      RunUnfolds(claims, st);
      Over(st.remaining as real, ActiveWeight(claims, st.frozen) as real)
      + if Pass(claims, st).frozen != st.frozen then Level(claims, Pass(claims, st)) else 0.0
  }

  lemma LevelUnfolds(claims: seq<Demand>, st: Fill)
    requires Valid(claims, st) && !Finished(claims, st)
    ensures ActiveWeight(claims, st.frozen) > 0 && Valid(claims, Pass(claims, st)) && |st.frozen| == |claims|
    ensures Level(claims, st)
         == Over(st.remaining as real, ActiveWeight(claims, st.frozen) as real)
            + if Pass(claims, st).frozen != st.frozen then Level(claims, Pass(claims, st)) else 0.0
  {
    hide Pass, Valid, Over;
    RunUnfolds(claims, st);
    RunStops(claims, st);
  }

  /** `v` filled to the level: `w` units per unit of level, up to `cap`. */
  function Filled(v: real, w: real, cap: real, level: real): (x: real) {
    MinR(v + Times(level, w), cap)
  }

  ghost predicate Near(x: real, y: real, d: real) {
    x - d <= y <= x + d
  }

  lemma {:induction false} LevelPositive(claims: seq<Demand>, st: Fill)
    requires Valid(claims, st)
    ensures Level(claims, st) >= 0.0
    decreases ActiveCount(st.frozen)
  {
    hide Pass, Valid, Over, ActiveWeight, ActiveCount;
    RunStops(claims, st);
    if !Finished(claims, st) {
      RunUnfolds(claims, st);
      LevelUnfolds(claims, st);
      OverSign(st.remaining as real, ActiveWeight(claims, st.frozen) as real);
      if Pass(claims, st).frozen != st.frozen {
        LevelPositive(claims, Pass(claims, st));
      }
    }
  }

  // ---- one pass ----------------------------------------------------------

  /** An add is within one unit of its exact share. */
  lemma AddNearShare(w: nat, r: nat, aw: nat, add: nat)
    requires aw > 0 && Share(w, r, aw) <= add <= Share(w, r, aw) + 1
    ensures Near(Times(Over(r as real, aw as real), w as real), add as real, 1.0)
  {
    var q, x := Share(w, r, aw), Times(Over(r as real, aw as real), w as real);
    ShareBounds(w, r, aw);
    hide Times, Over, Share;
    OverTimes(r as real, aw as real);
    TimesSwap(aw as real, Over(r as real, aw as real), w as real);
    TimesSwap(Over(r as real, aw as real), aw as real, 0.0);
    TimesSwap(x, aw as real, 0.0);
    assert Times(x, aw as real) == Times(r as real, w as real);
    ProductsAsReals(q, aw, r, w);
    TimesCancel(q as real, x, aw as real);
    TimesCancel(x, (q + 1) as real, aw as real);
  }

  lemma ProductsAsReals(q: nat, aw: nat, r: nat, w: nat)
    requires q * aw <= r * w < (q + 1) * aw
    ensures Times(q as real, aw as real) <= Times(r as real, w as real) < Times((q + 1) as real, aw as real)
  {
    WholeProduct(q, aw);
    WholeProduct(r, w);
    WholeProduct(q + 1, aw);
    hide Times;
  }

  lemma WholeProduct(a: nat, b: nat)
    ensures Times(a as real, b as real) == (a * b) as real
  {
  }

  lemma PassAddsNear(claims: seq<Demand>, st: Fill, i: nat)
    requires Valid(claims, st) && i < |claims| && |st.frozen| == |claims| && !st.frozen[i]
        && ActiveWeight(claims, st.frozen) > 0
    ensures var st', add := Pass(claims, st), Adds(claims, st.frozen, st.remaining)[i];
            && |st'.grant| == |claims| == |st'.frozen| && |st.grant| == |claims|
            && Near(Times(Over(st.remaining as real, ActiveWeight(claims, st.frozen) as real),
                claims[i].weight as real), add as real, 1.0)
            && st'.grant[i] == Min(st.grant[i] + add, claims[i].EffectiveCap())
            && (st'.frozen[i] <==> st.grant[i] + add >= claims[i].EffectiveCap())
            && st.grant[i] < claims[i].EffectiveCap()
  {
    AddBounds(claims, st.frozen, st.remaining, i);
    hide Adds, Share, ActiveWeight, Over, Times, Near;
    AddNearShare(claims[i].weight, st.remaining, ActiveWeight(claims, st.frozen),
        Adds(claims, st.frozen, st.remaining)[i]);
  }

  /** One step of the estimate, in reals: `x` the exact share and `y` what comes later,
      `a` the add, `z` where the claim ends. */
  lemma StepNear(g: real, a: real, x: real, y: real, cap: real, z: real, p: real)
    requires Near(x, a, 1.0) && y >= 0.0 && p >= 1.0
    requires if g + a >= cap then z == cap else Near(MinR(g + a + y, cap), z, p - 1.0)
    ensures Near(MinR(g + (x + y), cap), z, p)
  {
  }

  // ---- the whole fill ----------------------------------------------------

  /** The claim ends within one unit per pass of its fill to the level. */
  ghost predicate EndsNear(claims: seq<Demand>, st: Fill, i: nat)
    requires Valid(claims, st) && i < |claims|
  {
    |st.grant| == |claims| == |Run(claims, st).grant|
    && Near(Filled(st.grant[i] as real, claims[i].weight as real, claims[i].EffectiveCap() as real, Level(claims, st)),
            Run(claims, st).grant[i] as real, Passes(claims, st) as real)
  }

  lemma EndsNearStep(claims: seq<Demand>, st: Fill, i: nat)
    requires Valid(claims, st) && !Finished(claims, st) && i < |claims| && |st.frozen| == |claims| && !st.frozen[i]
    requires Valid(claims, Pass(claims, st)) && |Pass(claims, st).frozen| == |claims|
    requires Pass(claims, st).frozen != st.frozen && !Pass(claims, st).frozen[i]
        ==> EndsNear(claims, Pass(claims, st), i)
    ensures EndsNear(claims, st, i)
  {
    hide Pass, Adds, ActiveWeight, ActiveCount, Run, Passes, Level, Over, Times, Near, Share, Filled, Valid, Finished;
    RunIsWhole(claims, st);
    RunUnfolds(claims, st);
    LevelUnfolds(claims, st);
    PassAddsNear(claims, st, i);
    var st' := Pass(claims, st);
    var add := Adds(claims, st.frozen, st.remaining)[i];
    var step := Over(st.remaining as real, ActiveWeight(claims, st.frozen) as real);
    if st'.frozen != st.frozen {
      RunStops(claims, st');
      LevelPositive(claims, st');
      if st'.frozen[i] {
        KeepsGrant(claims, st', i);
      }
    } else {
      StaysPut(st'.grant[i], claims[i]);
    }
    Combine(claims[i], st.grant[i], add, step, if st'.frozen != st.frozen then Level(claims, st') else 0.0,
            Run(claims, st).grant[i], Passes(claims, st));
  }

  lemma {:induction false} RunNearLevel(claims: seq<Demand>, st: Fill, i: nat)
    requires Valid(claims, st) && i < |claims| && |st.frozen| == |claims| && !st.frozen[i]
    ensures EndsNear(claims, st, i)
    decreases ActiveCount(st.frozen)
  {
    hide Pass, ActiveWeight, ActiveCount, Run, Passes, Level, EndsNear, Valid;
    RunStops(claims, st);
    if Finished(claims, st) {
      FinishedNear(claims, st, i);
    } else {
      RunUnfolds(claims, st);
      RunStops(claims, Pass(claims, st));
      if Pass(claims, st).frozen != st.frozen && !Pass(claims, st).frozen[i] {
        RunNearLevel(claims, Pass(claims, st), i);
      }
      EndsNearStep(claims, st, i);
    }
  }

  lemma RunIsWhole(claims: seq<Demand>, st: Fill)
    requires Valid(claims, st)
    ensures |Run(claims, st).grant| == |claims|
  {
    hide Pass;
  }

  lemma FinishedNear(claims: seq<Demand>, st: Fill, i: nat)
    requires Valid(claims, st) && |st.frozen| == |claims| && Finished(claims, st) && i < |claims| && !st.frozen[i]
    ensures EndsNear(claims, st, i)
  {
    hide Pass;
    TimesSign(0.0, claims[i].weight as real);
  }

  lemma StaysPut(grant: nat, c: Demand)
    requires grant < c.EffectiveCap()
    ensures Near(Filled(grant as real, c.weight as real, c.EffectiveCap() as real, 0.0), grant as real, 0.0)
  {
    TimesSign(0.0, c.weight as real);
  }

  lemma {:induction false} KeepsGrant(claims: seq<Demand>, st: Fill, i: nat)
    requires Valid(claims, st) && i < |claims| && |st.frozen| == |claims| == |st.grant| && st.frozen[i]
    ensures |Run(claims, st).grant| == |claims| && Run(claims, st).grant[i] == st.grant[i]
  {
    RunKeepsFrozen(claims, st, i);
    RunIsWhole(claims, st);
    hide Pass, ActiveWeight;
  }

  lemma Combine(c: Demand, grant: nat, add: nat, step: real, later: real, end: nat, p: nat)
    requires Near(Times(step, c.weight as real), add as real, 1.0) && later >= 0.0 && p >= 1
    requires if grant + add >= c.EffectiveCap() then end == c.EffectiveCap()
             else Near(Filled((grant + add) as real, c.weight as real, c.EffectiveCap() as real, later), end as real,
                 (p - 1) as real)
    ensures Near(Filled(grant as real, c.weight as real, c.EffectiveCap() as real, step + later), end as real,
        p as real)
  {
    hide Times;
    TimesSign(later, c.weight as real);
    TimesSum(step, later, c.weight as real);
    StepNear(grant as real, add as real, Times(step, c.weight as real), Times(later, c.weight as real),
             c.EffectiveCap() as real, end as real, p as real);
  }

  /** A claim's exact fill to a level: its floor if it starts frozen. */
  function ExactFill(c: Demand, level: real): (x: real) {
    if c.StartsFrozen() then c.min as real
    else Filled(c.min as real, c.weight as real, c.EffectiveCap() as real, level)
  }

  /** One level for all: every grant is within one unit per pass of its claim's exact
      fill to it. */
  lemma OneLevelForAll(claims: seq<Demand>, band: nat) returns (level: real)
    requires FloorsFit(claims, band)
    ensures level >= 0.0
    ensures forall i :: 0 <= i < |claims| ==>
      Near(ExactFill(claims[i], level), Allocate(claims, band)[i] as real, PassesOf(claims, band) as real)
  {
    var st := Initial(claims, band);
    level := Level(claims, st);
    LevelPositive(claims, st);
    forall i | 0 <= i < |claims|
      ensures Near(ExactFill(claims[i], level), Allocate(claims, band)[i] as real, PassesOf(claims, band) as real)
    {
      LevelOf(claims, band, i);
    }
  }

  lemma LevelOf(claims: seq<Demand>, band: nat, i: nat)
    requires FloorsFit(claims, band) && i < |claims|
    ensures Near(ExactFill(claims[i], Level(claims, Initial(claims, band))),
                 Allocate(claims, band)[i] as real, PassesOf(claims, band) as real)
  {
    hide Level, Times, Filled, Run, Passes, ActiveWeight, Sum;
    var st := Initial(claims, band);
    if claims[i].StartsFrozen() {
      GrantsInRange(claims, band, i);
    } else {
      RunNearLevel(claims, st, i);
    }
  }

  // ---- the exact level -----------------------------------------------------

  function ExactFills(claims: seq<Demand>, level: real): (x: seq<real>)
    ensures |x| == |claims| && forall i :: 0 <= i < |x| ==> x[i] == ExactFill(claims[i], level)
  {
    seq(|claims|, i requires 0 <= i < |claims| => ExactFill(claims[i], level))
  }

  lemma FillRises(c: Demand, a: real, b: real)
    requires a <= b
    ensures ExactFill(c, a) <= ExactFill(c, b)
  {
    TimesLe(c.weight as real, a, b);
    hide Times;
  }

  /** Sums that agree, and differences that all lie to one side by at most `p`: no
      difference to the other side exceeds what the others can make up. */
  lemma {:induction false} MadeUp(x: seq<real>, y: seq<real>, p: real)
    requires |x| == |y| && p >= 0.0 && forall i :: 0 <= i < |x| ==> x[i] - p <= y[i]
    ensures RSum(x) - Times(|x| as real, p) <= RSum(y)
  {
    hide Times;
    TimesSign(0.0, p);
    if x != [] {
      var k := |x| - 1;
      MadeUp(x[..k], y[..k], p);
      TimesSucc(k, p);
    }
  }

  lemma OthersMakeUp(x: seq<real>, y: seq<real>, p: real, i: nat)
    requires |x| == |y| && i < |x| && p >= 0.0 && RSum(x) == RSum(y)
    requires forall j :: 0 <= j < |x| ==> x[j] - p <= y[j]
    ensures y[i] <= x[i] + Times((|x| - 1) as real, p)
  {
    hide Times, RSum;
    var y' := y[i := x[i] - p];
    RSumUpdate(y, i, x[i] - p);
    MadeUp(x, y', p);
    TimesSucc(|x| - 1, p);
  }

  /** The grants as reals. */
  function Reals(g: seq<nat>): (x: seq<real>)
    ensures |x| == |g| && forall i :: 0 <= i < |x| ==> x[i] == g[i] as real
  {
    seq(|g|, i requires 0 <= i < |g| => g[i] as real)
  }

  lemma {:induction false} RealsSum(g: seq<nat>)
    ensures RSum(Reals(g)) == Sum(g) as real
  {
    if g != [] {
      RealsSum(g[..|g| - 1]);
      assert Reals(g)[..|g| - 1] == Reals(g[..|g| - 1]);
    }
  }

  lemma Spread(p: nat, n: nat)
    requires n > 1
    ensures p as real <= Times((n - 1) as real, p as real)
  {
    TimesLe(p as real, 1.0, (n - 1) as real);
    TimesOne(p as real);
  }

  /** Against any exact level that hands out the same total, no grant is off by more
      than one unit per pass and other claim. */
  lemma NearExactLevel(claims: seq<Demand>, band: nat, exact: real, i: nat)
    requires FloorsFit(claims, band) && i < |claims| && |claims| > 1
    requires RSum(ExactFills(claims, exact)) == Sum(Allocate(claims, band)) as real
    ensures Near(ExactFill(claims[i], exact), Allocate(claims, band)[i] as real,
                 Times((|claims| - 1) as real, PassesOf(claims, band) as real))
  {
    hide Allocate, ExactFill, PassesOf, Times, RSum, Near;
    var p := PassesOf(claims, band);
    var x, y := ExactFills(claims, exact), Reals(Allocate(claims, band));
    RealsSum(Allocate(claims, band));
    var level := OneLevelForAll(claims, band);
    Spread(p, |claims|);
    forall j | 0 <= j < |claims|
      ensures (exact <= level ==> x[j] - p as real <= y[j]) && (level <= exact ==> y[j] - p as real <= x[j])
    {
      OnOneSide(claims[j], exact, level, y[j], p as real);
    }
    if exact <= level {
      OthersMakeUp(x, y, p as real, i);
      Between(x[i], y[i], p as real, Times((|claims| - 1) as real, p as real));
    } else {
      OthersMakeUp(y, x, p as real, i);
      Between(y[i], x[i], p as real, Times((|claims| - 1) as real, p as real));
    }
  }

  lemma OnOneSide(c: Demand, exact: real, level: real, y: real, p: real)
    requires Near(ExactFill(c, level), y, p)
    ensures exact <= level ==> ExactFill(c, exact) - p <= y
    ensures level <= exact ==> y - p <= ExactFill(c, exact)
  {
    if exact <= level {
      FillRises(c, exact, level);
    } else {
      FillRises(c, level, exact);
    }
  }

  lemma Between(x: real, y: real, p: real, d: real)
    requires x - p <= y <= x + d && p <= d
    ensures Near(x, y, d) && Near(y, x, d)
  {
  }
}
