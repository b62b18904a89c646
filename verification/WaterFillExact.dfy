/** The exact fill: for every band between the floors and saturation some level's fills
    sum to it, and they are the only ones that do.  Every grant is near that fill. */
module WaterFillExact {
  import opened Machine
  import opened RealSums
  import opened Sums
  import opened WaterFill
  import opened WaterFillLaws
  import opened WaterFillPasses
  import opened WaterFillLevel

  // ---- claims with room at a level -----------------------------------------

  predicate HasRoom(c: Demand, level: real) {
    !c.StartsFrozen() && c.min as real + Times(level, c.weight as real) < c.EffectiveCap() as real
  }

  /** The level at which a claim reaches its cap; at once if it starts frozen. */
  function CapLevel(c: Demand): (l: real) {
    if c.StartsFrozen() then 0.0 else Over((c.EffectiveCap() - c.min) as real, c.weight as real)
  }

  lemma RoomIff(c: Demand, level: real)
    requires !c.StartsFrozen()
    ensures HasRoom(c, level) <==> level < CapLevel(c)
    ensures c.min as real + Times(CapLevel(c), c.weight as real) == c.EffectiveCap() as real
  {
    hide Times, Over;
    var d, w := (c.EffectiveCap() - c.min) as real, c.weight as real;
    OverTimes(d, w);
    TimesCancel(level, CapLevel(c), w);
  }

  function Roomy(claims: seq<Demand>, level: real): (r: set<nat>) {
    set i | 0 <= i < |claims| && HasRoom(claims[i], level)
  }

  lemma FullIsSaturated(c: Demand, level: real)
    requires !HasRoom(c, level)
    ensures ExactFill(c, level) == c.Saturation() as real
  {
    hide Times;
  }

  lemma FullSum(claims: seq<Demand>, level: real)
    requires Roomy(claims, level) == {}
    ensures RSum(ExactFills(claims, level)) == Sum(Saturations(claims)) as real
  {
    hide Times, HasRoom, ExactFill, Demand.Saturation;
    RealsSum(Saturations(claims));
    forall i: nat | i < |claims| ensures ExactFills(claims, level)[i] == Reals(Saturations(claims))[i] {
      assert i !in Roomy(claims, level);
      FullIsSaturated(claims[i], level);
    }
    assert ExactFills(claims, level) == Reals(Saturations(claims));
  }

  lemma FloorSum(claims: seq<Demand>)
    ensures RSum(ExactFills(claims, 0.0)) == Sum(Mins(claims)) as real
  {
    hide Times;
    RealsSum(Mins(claims));
    forall i | 0 <= i < |claims| ensures ExactFills(claims, 0.0)[i] == Reals(Mins(claims))[i] {
      TimesSign(0.0, claims[i].weight as real);
    }
    assert ExactFills(claims, 0.0) == Reals(Mins(claims));
  }

  // ---- between two levels with nobody filling up in between -----------------

  function Mix(a: real, b: real, theta: real): (m: real) {
    a + Times(theta, b - a)
  }

  lemma {:induction false} MixSum(x: seq<real>, y: seq<real>, z: seq<real>, theta: real)
    requires |x| == |y| == |z| && forall i :: 0 <= i < |x| ==> z[i] == Mix(x[i], y[i], theta)
    ensures RSum(z) == Mix(RSum(x), RSum(y), theta)
  {
    hide Times;
    TimesSign(theta, 0.0);
    if x != [] {
      var k := |x| - 1;
      MixSum(x[..k], y[..k], z[..k], theta);
      TimesSum(RSum(y[..k]) - RSum(x[..k]), y[k] - x[k], theta);
    }
  }

  lemma MixedLevel(a: real, b: real, theta: real, w: real)
    ensures Times(Mix(a, b, theta), w) == Mix(Times(a, w), Times(b, w), theta)
  {
    hide Times;
    TimesSum(a, Times(theta, b - a), w);
    TimesSwap(theta, b - a, w);
    TimesSum(a, b - a, w);
  }

  lemma MixWithin(a: real, b: real, theta: real)
    requires a <= b && 0.0 <= theta <= 1.0
    ensures a <= Mix(a, b, theta) <= b
  {
    hide Times;
    TimesSign(theta, b - a);
    TimesLe(b - a, theta, 1.0);
    TimesOne(b - a);
  }

  lemma MixShift(m: real, x: real, y: real, theta: real)
    ensures Mix(m + x, m + y, theta) == m + Mix(x, y, theta)
  {
  }

  /** A claim that does not fill up strictly between two levels fills linearly. */
  lemma MixFill(c: Demand, a: real, b: real, theta: real)
    requires 0.0 <= a <= b && 0.0 <= theta <= 1.0
    requires HasRoom(c, a) ==> b <= CapLevel(c)
    ensures ExactFill(c, Mix(a, b, theta)) == Mix(ExactFill(c, a), ExactFill(c, b), theta)
  {
    hide Times, Over, Mix;
    MixWithin(a, b, theta);
    var w, level := c.weight as real, Mix(a, b, theta);
    if HasRoom(c, a) {
      RoomIff(c, a);
      RoomIff(c, b);
      RoomIff(c, level);
      MixedLevel(a, b, theta, w);
      MixShift(c.min as real, Times(a, w), Times(b, w), theta);
    } else {
      if !c.StartsFrozen() {
        TimesLe(w, a, b);
        TimesLe(w, a, level);
      }
      FullIsSaturated(c, a);
      FullIsSaturated(c, b);
      FullIsSaturated(c, level);
      StillMix(c.Saturation() as real, theta);
    }
  }

  lemma StillMix(x: real, theta: real)
    ensures Mix(x, x, theta) == x
  {
    TimesSign(theta, 0.0);
  }

  // ---- the exact level ------------------------------------------------------

  /** Of the claims with room, one that fills up first. */
  lemma FirstToFill(claims: seq<Demand>, level: real, some: set<nat>) returns (i: nat)
    requires some != {} && some <= Roomy(claims, level)
    ensures i in some && forall j :: j in some ==> CapLevel(claims[i]) <= CapLevel(claims[j])
  {
    hide CapLevel, HasRoom;
    var k :| k in some;
    if some == {k} {
      i := k;
    } else {
      var j := FirstToFill(claims, level, some - {k});
      i := if CapLevel(claims[j]) <= CapLevel(claims[k]) then j else k;
    }
  }

  lemma FewerHaveRoom(claims: seq<Demand>, a: real, b: real, i: nat)
    requires a <= b && i in Roomy(claims, a) && !HasRoom(claims[i], b)
    ensures |Roomy(claims, b)| < |Roomy(claims, a)|
  {
    forall j | j in Roomy(claims, b) ensures j in Roomy(claims, a) {
      RoomIff(claims[j], a);
      RoomIff(claims[j], b);
    }
    hide HasRoom;
    SmallerSet(Roomy(claims, b), Roomy(claims, a) - {i});
  }

  lemma {:induction false} SmallerSet(a: set<nat>, b: set<nat>)
    requires a <= b
    ensures |a| <= |b|
  {
    if x :| x in a {
      SmallerSet(a - {x}, b - {x});
    }
  }

  /** Reaching `total` between two levels that fill linearly. */
  lemma Interpolate(claims: seq<Demand>, total: real, a: real, b: real) returns (level: real)
    requires 0.0 <= a <= b && RSum(ExactFills(claims, a)) <= total < RSum(ExactFills(claims, b))
    requires forall i :: 0 <= i < |claims| && HasRoom(claims[i], a) ==> b <= CapLevel(claims[i])
    ensures level >= 0.0 && RSum(ExactFills(claims, level)) == total
  {
    hide Times, Over, HasRoom, CapLevel, ExactFill, RSum;
    var x, y := RSum(ExactFills(claims, a)), RSum(ExactFills(claims, b));
    var theta := Over(total - x, y - x);
    OverSign(total - x, y - x);
    OverAtMost(total - x, y - x, 1.0);
    TimesOne(y - x);
    OverTimes(total - x, y - x);
    MixWithin(a, b, theta);
    level := Mix(a, b, theta);
    hide Mix;
    forall i | 0 <= i < |claims|
      ensures ExactFills(claims, level)[i] == Mix(ExactFills(claims, a)[i], ExactFills(claims, b)[i], theta)
    {
      MixFill(claims[i], a, b, theta);
    }
    MixSum(ExactFills(claims, a), ExactFills(claims, b), ExactFills(claims, level), theta);
    MixIs(x, y, theta);
  }

  lemma MixIs(x: real, y: real, theta: real)
    ensures Mix(x, y, theta) == x + Times(theta, y - x)
  {
  }

  lemma {:induction false} ExactLevelFrom(claims: seq<Demand>, total: real, start: real) returns (level: real)
    requires start >= 0.0 && RSum(ExactFills(claims, start)) <= total <= Sum(Saturations(claims)) as real
    ensures level >= 0.0 && RSum(ExactFills(claims, level)) == total
    decreases |Roomy(claims, start)|
  {
    hide Times, Over, HasRoom, CapLevel, ExactFill, RSum, Sum;
    if Roomy(claims, start) == {} {
      FullSum(claims, start);
      return start;
    }
    var i := FirstToFill(claims, start, Roomy(claims, start));
    RoomNotFrozen(claims[i], start);
    RoomIff(claims[i], start);
    var next := CapLevel(claims[i]);
    RoomIff(claims[i], next);
    FewerHaveRoom(claims, start, next, i);
    if RSum(ExactFills(claims, next)) <= total {
      level := ExactLevelFrom(claims, total, next);
    } else {
      forall j: nat | j < |claims| && HasRoom(claims[j], start) ensures next <= CapLevel(claims[j]) {
        assert j in Roomy(claims, start);
      }
      level := Interpolate(claims, total, start, next);
    }
  }

  lemma RoomNotFrozen(c: Demand, level: real)
    requires HasRoom(c, level)
    ensures !c.StartsFrozen()
  {
  }

  /** Every total between the floors and saturation is the sum of some level's fills. */
  lemma ExactLevelExists(claims: seq<Demand>, total: real) returns (level: real)
    requires Sum(Mins(claims)) as real <= total <= Sum(Saturations(claims)) as real
    ensures level >= 0.0 && RSum(ExactFills(claims, level)) == total
  {
    FloorSum(claims);
    level := ExactLevelFrom(claims, total, 0.0);
  }

  /** And of no other fills: the exact fill of a total is one. */
  lemma ExactFillIsUnique(claims: seq<Demand>, a: real, b: real)
    requires RSum(ExactFills(claims, a)) == RSum(ExactFills(claims, b))
    ensures ExactFills(claims, a) == ExactFills(claims, b)
  {
    hide ExactFill, RSum;
    var low, high := MinR(a, b), MaxR(a, b);
    forall i | 0 <= i < |claims| ensures ExactFills(claims, low)[i] <= ExactFills(claims, high)[i] {
      FillRises(claims[i], low, high);
    }
    RSumLe(ExactFills(claims, low), ExactFills(claims, high));
  }

  /** Every grant is near the exact fill of its list: off by no more than one unit per
      pass and other claim, and for a claim alone by nothing. */
  lemma NearExactFill(claims: seq<Demand>, band: nat) returns (level: real)
    requires FloorsFit(claims, band)
    ensures level >= 0.0
    ensures RSum(ExactFills(claims, level)) == Min(band, Sum(Saturations(claims))) as real
    ensures forall i :: 0 <= i < |claims| ==>
      Near(ExactFill(claims[i], level), Allocate(claims, band)[i] as real,
           Times((|claims| - 1) as real, PassesOf(claims, band) as real))
  {
    hide Allocate, ExactFill, PassesOf, Times, RSum, Near, Sum, FloorsFit;
    SumMonotone(Mins(claims), Saturations(claims));
    FloorsBelow(claims, band);
    Conservation(claims, band);
    level := ExactLevelExists(claims, Min(band, Sum(Saturations(claims))) as real);
    forall i | 0 <= i < |claims|
      ensures Near(ExactFill(claims[i], level), Allocate(claims, band)[i] as real,
                   Times((|claims| - 1) as real, PassesOf(claims, band) as real))
    {
      if |claims| > 1 {
        NearExactLevel(claims, band, level, i);
      } else {
        AloneIsExact(claims, band, level);
      }
    }
  }

  lemma FloorsBelow(claims: seq<Demand>, band: nat)
    requires FloorsFit(claims, band)
    ensures Sum(Mins(claims)) < band
  {
  }

  lemma AloneIsExact(claims: seq<Demand>, band: nat, level: real)
    requires FloorsFit(claims, band) && |claims| == 1
    requires RSum(ExactFills(claims, level)) == Sum(Allocate(claims, band)) as real
    ensures Near(ExactFill(claims[0], level), Allocate(claims, band)[0] as real,
        Times(0.0, PassesOf(claims, band) as real))
  {
    hide Allocate, ExactFill, PassesOf;
    TimesSign(0.0, PassesOf(claims, band) as real);
    hide Times;
    var x, g := ExactFills(claims, level), Allocate(claims, band);
    assert x[..0] == [] && g[..0] == [];
    assert RSum(x) == RSum(x[..0]) + x[0];
    assert Sum(g) == Sum(g[..0]) + g[0];
  }
}
