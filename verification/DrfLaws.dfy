/** What the dominant-resource kernel promises: one shared dominant share between
    1/m and 1, no envy, nobody worse off than with an m-th of everything, and axes
    that stay within their band after flooring exactly when they have one. */
module DrfLaws {
  import opened Machine
  import opened Sums
  import opened RealSums
  import WaterFill
  import opened Claimants
  import opened Drf

  // ---- the share itself --------------------------------------------------

  function Participants(claims: seq<DemandVector>, band: Bands): (r: nat) {
    if claims == [] then 0
    else Participants(claims[..|claims| - 1], band) + if Participates(claims[|claims| - 1], band) then 1 else 0
  }

  lemma {:induction false} PullAtMost(claims: seq<DemandVector>, band: Bands, dim: Dim)
    requires band.Get(dim) > 0.0
    ensures RSum(PerShares(claims, band, dim)) <= Times(Participants(claims, band) as real, band.Get(dim))
  {
    hide PerShare, Participates, RSum, Times;
    var pulls := PerShares(claims, band, dim);
    TimesSign(0.0, band.Get(dim));
    if claims == [] {
      RSumEmpty(pulls);
    } else {
      var front, last := claims[..|claims| - 1], claims[|claims| - 1];
      PullAtMost(front, band, dim);
      PerShareBounds(last, band, dim);
      RSumSnoc(pulls, |claims| - 1);
      assert pulls[..|claims| - 1] == PerShares(front, band, dim);
      assert pulls[..|claims|] == pulls;
      TimesSucc(Participants(front, band), band.Get(dim));
    }
  }

  lemma ShareAtMostOne(claims: seq<DemandVector>, band: Bands, s: real)
    requires EqualShare(claims, band) == Some(s)
    ensures 0.0 < s <= 1.0
  {
    FirstSaturation(claims, band, s);
    SomeoneShares(claims, band);
    hide EqualShare, RSum, PerShare, DominantRatio, ExactTotal, Participates, Times;
    var i :| 0 <= i < |claims| && Participates(claims[i], band);
    var dim := DominantDim(claims[i], band);
    PerShareBounds(claims[i], band, dim);
    PerSharesPositive(claims, band, dim);
    RSumElement(PerShares(claims, band, dim), i);
    TimesLe(s, band.Get(dim), RSum(PerShares(claims, band, dim)));
    TimesCancel(s, 1.0, band.Get(dim));
    TimesOne(band.Get(dim));
  }

  /** With `m` participants the shared dominant share is between 1/m and 1. */
  lemma ShareBetween(claims: seq<DemandVector>, band: Bands, s: real)
    requires EqualShare(claims, band) == Some(s)
    ensures 0.0 < s <= 1.0
    ensures Times(s, Participants(claims, band) as real) >= 1.0
  {
    ShareAtMostOne(claims, band, s);
    FirstSaturation(claims, band, s);
    hide EqualShare, RSum, PerShare, DominantRatio, ExactTotal, Participants, PerShares, Times;
    var full :| band.Get(full) > 0.0 && ExactTotal(claims, band, s, full) == band.Get(full);
    var m, b := Participants(claims, band) as real, band.Get(full);
    PullAtMost(claims, band, full);
    TimesLe(s, RSum(PerShares(claims, band, full)), Times(m, b));
    TimesSwap(s, m, b);
    TimesCancel(1.0, Times(s, m), b);
    TimesOne(b);
  }

  // ---- everyone's dominant share is the same ------------------------------

  function Bundle(c: DemandVector, band: Bands, s: real): (r: Bands) {
    Bands(Exact(c, band, s, Storage), Exact(c, band, s, Cpu), Exact(c, band, s, Bandwidth),
        Exact(c, band, s, RequestRate))
  }

  function ShareOn(x: Bands, band: Bands, dim: Dim): (r: real) {
    if band.Get(dim) <= 0.0 then 0.0 else Over(x.Get(dim), band.Get(dim))
  }

  /** The largest fraction of any axis that `x` holds. */
  function DominantShare(x: Bands, band: Bands): (r: real) {
    MaxR(MaxR(ShareOn(x, band, Storage), ShareOn(x, band, Cpu)),
         MaxR(ShareOn(x, band, Bandwidth), ShareOn(x, band, RequestRate)))
  }

  lemma BundleGet(c: DemandVector, band: Bands, s: real, dim: Dim)
    ensures Bundle(c, band, s).Get(dim) == Exact(c, band, s, dim)
  {
  }

  lemma ShareOnAxis(c: DemandVector, band: Bands, s: real, dim: Dim)
    requires s > 0.0
    ensures 0.0 <= ShareOn(Bundle(c, band, s), band, dim) <= s
    ensures Participates(c, band) && dim == DominantDim(c, band) ==> ShareOn(Bundle(c, band, s), band, dim) == s
    ensures !Participates(c, band) ==> ShareOn(Bundle(c, band, s), band, dim) == 0.0
  {
    hide PerShare, DominantRatio, Times, Over;
    var b, per := band.Get(dim), PerShare(c, band, dim);
    BundleGet(c, band, s, dim);
    PerShareBounds(c, band, dim);
    TimesSign(s, per);
    if b > 0.0 {
      TimesLe(s, per, b);
      OverAtMost(Times(s, per), b, s);
      OverSign(Times(s, per), b);
    }
  }

  /** Before flooring, every participant ends at the same dominant share, and
      everyone else holds nothing. */
  lemma EqualDominantShares(claims: seq<DemandVector>, band: Bands, s: real, i: nat)
    requires EqualShare(claims, band) == Some(s) && i < |claims|
    ensures DominantShare(Bundle(claims[i], band, s), band) == if Participates(claims[i], band) then s else 0.0
  {
    hide EqualShare, ShareOn, Bundle, Participates;
    FirstSaturation(claims, band, s);
    var c := claims[i];
    ShareOnAxis(c, band, s, Storage);
    ShareOnAxis(c, band, s, Cpu);
    ShareOnAxis(c, band, s, Bandwidth);
    ShareOnAxis(c, band, s, RequestRate);
    if Participates(c, band) {
      var dim := DominantDim(c, band);
      assert ShareOn(Bundle(c, band, s), band, dim) == s;
    }
  }

  /** The bundle is the claimant's own demand, scaled: on every axis it contends
      on, the same number of tasks. */
  lemma Proportional(c: DemandVector, band: Bands, s: real, dim: Dim, other: Dim)
    requires Participates(c, band) && Contends(c, dim) && Contends(c, other)
    ensures Times(Exact(c, band, s, dim), c.Get(other).demand as real)
         == Times(Exact(c, band, s, other), c.Get(dim).demand as real)
  {
    var dr, d, e := DominantRatio(c, band), c.Get(dim).demand as real, c.Get(other).demand as real;
    hide DominantRatio, Times, Over;
    var x, y := Over(d, dr), Over(e, dr);
    OverTimes(d, dr);
    OverTimes(e, dr);
    TimesSwap(s, x, e);
    TimesSwap(s, y, d);
    TimesSwap(x, y, dr);
    TimesSwap(y, x, dr);
  }

  /** The same amount, as the code computes it: the claimant's number of tasks at
      the share, times its demand. */
  lemma ExactIsTasks(c: DemandVector, band: Bands, s: real, dim: Dim)
    requires Participates(c, band) && Contends(c, dim)
    ensures Exact(c, band, s, dim) == Times(Over(s, DominantRatio(c, band)), c.Get(dim).demand as real)
  {
    var dr, d := DominantRatio(c, band), c.Get(dim).demand as real;
    ExactIs(c, band, s, dim);
    hide DominantRatio, Times, Over, Exact;
    OverTimes(d, dr);
    OverTimes(s, dr);
    TimesSwap(s, Over(d, dr), dr);
    TimesSwap(Over(s, dr), d, dr);
    TimesSwap(d, Over(s, dr), dr);
    TimesSwap(d, s, 1.0);
    TimesCancel(Times(s, Over(d, dr)), Times(Over(s, dr), d), dr);
  }

  // ---- fairness ----------------------------------------------------------

  /** `x` is enough for `t` of the claimant's tasks. */
  ghost predicate Supports(c: DemandVector, x: Bands, t: real) {
    forall dim :: Contends(c, dim) ==> Times(t, c.Get(dim).demand as real) <= x.Get(dim)
  }

  lemma ExactIs(c: DemandVector, band: Bands, s: real, dim: Dim)
    requires Participates(c, band) && Contends(c, dim)
    ensures Exact(c, band, s, dim) == Times(s, Over(c.Get(dim).demand as real, DominantRatio(c, band)))
  {
  }

  lemma DominantDemand(c: DemandVector, band: Bands)
    requires Participates(c, band)
    ensures var r := DominantDim(c, band);
            band.Get(r) > 0.0 && Contends(c, r)
            && c.Get(r).demand as real == Times(DominantRatio(c, band), band.Get(r))
  {
    var r := DominantDim(c, band);
    hide DominantDim, DominantRatio, Times, Over;
    OverAtMost(c.Get(r).demand as real, band.Get(r), DominantRatio(c, band));
  }

  /** A claimant can run any number of tasks its dominant axis has room for. */
  lemma DominantAxisDecides(c: DemandVector, band: Bands, s: real, t: real)
    requires Participates(c, band) && s > 0.0
    requires Times(t, c.Get(DominantDim(c, band)).demand as real) <= Times(s, band.Get(DominantDim(c, band)))
    ensures Supports(c, Bundle(c, band, s), t)
  {
    hide DominantDim, Bundle, PerShare, Times, Over, DominantRatio;
    var dr, r := DominantRatio(c, band), DominantDim(c, band);
    DominantDemand(c, band);
    TimesSwap(t, dr, band.Get(r));
    TimesCancel(Times(t, dr), s, band.Get(r));
    forall dim | Contends(c, dim) ensures Times(t, c.Get(dim).demand as real) <= Bundle(c, band, s).Get(dim) {
      BundleGet(c, band, s, dim);
      ExactIs(c, band, s, dim);
      TaskFits(t, c.Get(dim).demand as real, s, dr);
    }
  }

  lemma TaskFits(t: real, e: real, s: real, dr: real)
    requires dr > 0.0 && e > 0.0 && Times(t, dr) <= s
    ensures Times(t, e) <= Times(s, Over(e, dr))
  {
    hide Times, Over;
    var q := Over(e, dr);
    OverSign(e, dr);
    OverTimes(e, dr);
    TimesLe(q, Times(t, dr), s);
    TimesSwap(t, q, dr);
    TimesSwap(q, t, dr);
    TimesSwap(q, Times(t, dr), 0.0);
  }

  /** No envy: whatever number of its tasks a claimant could run on another's
      bundle, it can run on its own. */
  lemma EnvyFree(claims: seq<DemandVector>, band: Bands, s: real, i: nat, j: nat, t: real)
    requires EqualShare(claims, band) == Some(s) && i < |claims| && j < |claims|
    requires Participates(claims[i], band)
    requires Supports(claims[i], Bundle(claims[j], band, s), t)
    ensures Supports(claims[i], Bundle(claims[i], band, s), t)
  {
    hide *;
    FirstSaturation(claims, band, s);
    var dim := DominantDim(claims[i], band);
    SupportsOn(claims[i], Bundle(claims[j], band, s), t, dim);
    HoldsAtMost(claims[j], band, s, dim);
    DominantAxisDecides(claims[i], band, s, t);
  }

  lemma SupportsOn(c: DemandVector, x: Bands, t: real, dim: Dim)
    requires Supports(c, x, t) && Contends(c, dim)
    ensures Times(t, c.Get(dim).demand as real) <= x.Get(dim)
  {
  }

  lemma HoldsAtMost(c: DemandVector, band: Bands, s: real, dim: Dim)
    requires s > 0.0 && band.Get(dim) > 0.0
    ensures Bundle(c, band, s).Get(dim) <= Times(s, band.Get(dim))
  {
    hide PerShare, Times;
    BundleGet(c, band, s, dim);
    PerShareBounds(c, band, dim);
    TimesLe(s, PerShare(c, band, dim), band.Get(dim));
  }

  /** Sharing incentive: whatever a claimant could run on an m-th of every band, it
      can run on its bundle. */
  lemma SharingIncentive(claims: seq<DemandVector>, band: Bands, s: real, i: nat, t: real)
    requires EqualShare(claims, band) == Some(s) && i < |claims| && Participates(claims[i], band)
    requires forall dim :: Contends(claims[i], dim) ==>
      Times(Times(t, claims[i].Get(dim).demand as real), Participants(claims, band) as real) <= band.Get(dim)
    ensures Supports(claims[i], Bundle(claims[i], band, s), t)
  {
    hide EqualShare, PerShare, DominantRatio, Bundle, Participants, Participates, Times;
    ShareBetween(claims, band, s);
    var dim := DominantDim(claims[i], band);
    PartFits(Times(t, claims[i].Get(dim).demand as real), Participants(claims, band) as real, band.Get(dim), s);
    DominantAxisDecides(claims[i], band, s, t);
  }

  lemma PartFits(x: real, m: real, b: real, s: real)
    requires s > 0.0 && b > 0.0 && Times(s, m) >= 1.0 && Times(x, m) <= b
    ensures x <= Times(s, b)
  {
    hide Times;
    TimesSign(s, b);
    if x > 0.0 {
      TimesLe(s, Times(x, m), b);
      TimesLe(x, 1.0, Times(s, m));
      TimesSwap(s, x, m);
      TimesOne(x);
    }
  }

  // ---- after flooring ----------------------------------------------------

  function GrantsOn(claims: seq<DemandVector>, band: Bands, dim: Dim): (r: seq<nat>)
    ensures |r| == |claims|
    ensures forall i :: 0 <= i < |r| ==> r[i] == AllocateDrf(band, claims)[i].Get(dim)
  {
    var g := AllocateDrf(band, claims);
    seq(|claims|, i requires 0 <= i < |claims| => g[i].Get(dim))
  }

  lemma {:induction false} FloorsBelow(g: seq<nat>, x: seq<real>)
    requires |g| == |x| && forall i :: 0 <= i < |g| ==> g[i] as real <= x[i]
    ensures Sum(g) as real <= RSum(x)
  {
    if g != [] {
      FloorsBelow(g[..|g| - 1], x[..|x| - 1]);
    }
  }

  lemma GrantedIs(claims: seq<DemandVector>, band: Bands, dim: Dim, i: nat)
    requires i < |claims|
    ensures GrantsOn(claims, band, dim)[i]
         == if EqualShare(claims, band).None? then 0 else Granted(claims[i], band, EqualShare(claims, band).value, dim)
  {
    hide EqualShare, Granted;
  }

  lemma GrantedBelowExact(c: DemandVector, band: Bands, s: real, dim: Dim)
    requires s > 0.0
    ensures 0.0 <= Exact(c, band, s, dim)
    ensures Granted(c, band, s, dim) as real <= Exact(c, band, s, dim)
    ensures Granted(c, band, s, dim) > 0 <==> Exact(c, band, s, dim) >= 1.0
  {
    hide PerShare, Times;
    PerShareBounds(c, band, dim);
    TimesSign(s, PerShare(c, band, dim));
  }

  /** An axis with a band is never over-allocated. */
  lemma AxisBounded(claims: seq<DemandVector>, band: Bands, dim: Dim)
    requires band.Get(dim) > 0.0
    ensures Sum(GrantsOn(claims, band, dim)) as real <= band.Get(dim)
  {
    hide EqualShare, Granted, Exact, RSum, Sum, PerShares;
    var s := EqualShare(claims, band);
    var g := GrantsOn(claims, band, dim);
    forall i | 0 <= i < |claims| ensures g[i] == if s.None? then 0 else Granted(claims[i], band, s.value, dim) {
      GrantedIs(claims, band, dim, i);
    }
    if s.None? {
      SumZero(g);
    } else {
      FirstSaturation(claims, band, s.value);
      var x := Exacts(claims, band, s.value, dim);
      forall i | 0 <= i < |claims| ensures g[i] as real <= x[i] {
        GrantedBelowExact(claims[i], band, s.value, dim);
      }
      FloorsBelow(g, x);
    }
  }

  /** Flooring takes less than one unit of an axis from each claimant. */
  lemma FlooringLosesLessThanOne(claims: seq<DemandVector>, band: Bands, s: real, dim: Dim, i: nat)
    requires EqualShare(claims, band) == Some(s) && i < |claims|
    requires 0.0 < band.Get(dim) <= U64_MAX as real
    ensures var g := AllocateDrf(band, claims)[i].Get(dim) as real;
            g <= Exact(claims[i], band, s, dim) < g + 1.0
  {
    hide EqualShare, PerShare, Times, Granted;
    var c := claims[i];
    GrantedIs(claims, band, dim, i);
    ShareAtMostOne(claims, band, s);
    PerShareBounds(c, band, dim);
    TimesSign(s, PerShare(c, band, dim));
    TimesLe(PerShare(c, band, dim), s, 1.0);
    TimesOne(PerShare(c, band, dim));
    TimesSwap(s, PerShare(c, band, dim), 0.0);
    FloorOf(c, band, s, dim);
  }

  lemma FloorOf(c: DemandVector, band: Bands, s: real, dim: Dim)
    requires 0.0 <= Exact(c, band, s, dim) <= U64_MAX as real
    ensures Granted(c, band, s, dim) as real <= Exact(c, band, s, dim) < Granted(c, band, s, dim) as real + 1.0
  {
    hide Exact;
  }

  /** A dominant axis of which the claimant's share is a whole number of units. */
  ghost predicate WholeAt(c: DemandVector, band: Bands, s: real, dim: Dim) {
    && Contends(c, dim) && band.Get(dim) > 0.0 && RatioOn(c, band, dim) == DominantRatio(c, band)
    && Times(s, band.Get(dim)).Floor as real == Times(s, band.Get(dim))
  }

  lemma ExactMeetsBandIff(c: DemandVector, band: Bands, s: real, dim: Dim)
    requires Participates(c, band) && band.Get(dim) > 0.0 && s > 0.0
    ensures Exact(c, band, s, dim) <= Times(s, band.Get(dim))
    ensures Exact(c, band, s, dim) == Times(s, band.Get(dim))
       <==> Contends(c, dim) && RatioOn(c, band, dim) == DominantRatio(c, band)
  {
    hide DominantRatio, Times, Over;
    var b, per, dr, d := band.Get(dim), PerShare(c, band, dim), DominantRatio(c, band), c.Get(dim).demand as real;
    PerShareBounds(c, band, dim);
    TimesLe(s, per, b);
    TimesSwap(s, per, 0.0);
    TimesSwap(s, b, 0.0);
    TimesCancel(per, b, s);
    OverAtMost(d, dr, b);
    OverAtMost(d, b, dr);
    TimesSwap(b, dr, 0.0);
  }

  lemma FlooredShareOn(claims: seq<DemandVector>, band: Bands, s: real, i: nat, dim: Dim)
    requires EqualShare(claims, band) == Some(s) && i < |claims| && Participates(claims[i], band)
    requires band.Get(dim) <= U64_MAX as real
    ensures ShareOn(AsBands(AllocateDrf(band, claims)[i]), band, dim) <= s
    ensures ShareOn(AsBands(AllocateDrf(band, claims)[i]), band, dim) == s <==> WholeAt(claims[i], band, s, dim)
  {
    hide *;
    FirstSaturation(claims, band, s);
    var b, g := band.Get(dim), AllocateDrf(band, claims)[i];
    ShareOnIs(g, band, dim, s);
    WholeAtIs(claims[i], band, s, dim);
    if b > 0.0 {
      FlooringLosesLessThanOne(claims, band, s, dim, i);
      ExactMeetsBandIff(claims[i], band, s, dim);
      FloorMeets(g.Get(dim), Exact(claims[i], band, s, dim), Times(s, b));
    }
  }

  lemma ShareOnIs(g: GrantVector, band: Bands, dim: Dim, s: real)
    requires s > 0.0
    ensures ShareOn(AsBands(g), band, dim) <= s
       <==> band.Get(dim) <= 0.0 || g.Get(dim) as real <= Times(s, band.Get(dim))
    ensures ShareOn(AsBands(g), band, dim) == s
       <==> band.Get(dim) > 0.0 && g.Get(dim) as real == Times(s, band.Get(dim))
  {
    hide Times, Over;
    if band.Get(dim) > 0.0 {
      OverAtMost(g.Get(dim) as real, band.Get(dim), s);
    }
  }

  lemma WholeAtIs(c: DemandVector, band: Bands, s: real, dim: Dim)
    ensures WholeAt(c, band, s, dim)
       <==> && band.Get(dim) > 0.0 && (Contends(c, dim) && RatioOn(c, band, dim) == DominantRatio(c, band))
            && Times(s, band.Get(dim)).Floor as real == Times(s, band.Get(dim))
  {
  }

  lemma FloorMeets(g: nat, x: real, y: real)
    requires g as real <= x < g as real + 1.0 && x <= y
    ensures g as real <= y
    ensures g as real == y <==> x == y && y.Floor as real == y
  {
    if g as real == y {
      FloorOfInt(g, y);
    }
    if x == y && y.Floor as real == y {
      Between(g, y.Floor);
    }
  }

  lemma FloorOfInt(g: nat, y: real)
    requires y == g as real
    ensures y.Floor == g
  {
  }

  lemma Between(g: int, f: int)
    requires g as real <= f as real < g as real + 1.0
    ensures f == g
  {
    assert f as real < (g + 1) as real;
  }

  /** After flooring a participant's dominant share is at most the shared one, and
      meets it exactly when that is a whole number of units of a dominant axis. */
  lemma FlooredShareIff(claims: seq<DemandVector>, band: Bands, s: real, i: nat)
    requires EqualShare(claims, band) == Some(s) && i < |claims| && Participates(claims[i], band)
    requires forall dim: Dim :: band.Get(dim) <= U64_MAX as real
    ensures DominantShare(AsBands(AllocateDrf(band, claims)[i]), band) <= s
    ensures DominantShare(AsBands(AllocateDrf(band, claims)[i]), band) == s
        <==> exists dim :: WholeAt(claims[i], band, s, dim)
  {
    hide EqualShare, ShareOn, WholeAt, AllocateDrf, Participates, AsBands;
    FlooredShareOn(claims, band, s, i, Storage);
    FlooredShareOn(claims, band, s, i, Cpu);
    FlooredShareOn(claims, band, s, i, Bandwidth);
    FlooredShareOn(claims, band, s, i, RequestRate);
    if dim :| WholeAt(claims[i], band, s, dim) {
      FlooredShareOn(claims, band, s, i, dim);
    }
  }

  /** Less than one whole unit of `dim` at the equalized share. */
  predicate BelowOneUnit(c: DemandVector, band: Bands, s: real, dim: Dim) {
    !Participates(c, band) || !Contends(c, dim) || Times(s, c.Get(dim).demand as real) < DominantRatio(c, band)
  }

  lemma BelowOneUnitIs(c: DemandVector, band: Bands, s: real, dim: Dim)
    requires s > 0.0
    ensures Exact(c, band, s, dim) < 1.0 <==> BelowOneUnit(c, band, s, dim)
  {
    hide DominantRatio, Times, Over;
    var dr, d := DominantRatio(c, band), c.Get(dim).demand as real;
    TimesSign(s, 0.0);
    if Participates(c, band) && Contends(c, dim) {
      ExactIs(c, band, s, dim);
      OverTimes(d, dr);
      TimesSwap(s, Over(d, dr), dr);
      TimesCancel(Times(s, Over(d, dr)), 1.0, dr);
      TimesOne(dr);
    }
  }

  /** Exactly when an axis stays within its band: it has one, or nobody is due a
      whole unit of it. */
  lemma AxisBoundedIff(claims: seq<DemandVector>, band: Bands, dim: Dim)
    requires band.Get(dim) >= 0.0
    ensures Sum(GrantsOn(claims, band, dim)) as real <= band.Get(dim)
       <==> band.Get(dim) > 0.0 || EqualShare(claims, band).None?
            || forall i :: 0 <= i < |claims| ==> BelowOneUnit(claims[i], band, EqualShare(claims, band).value, dim)
  {
    hide EqualShare, Granted, Exact, Sum, BelowOneUnit, AllocateDrf;
    if band.Get(dim) > 0.0 {
      AxisBounded(claims, band, dim);
    } else {
      var s := EqualShare(claims, band);
      var g := GrantsOn(claims, band, dim);
      SumZero(g);
      if s.Some? {
        FirstSaturation(claims, band, s.value);
      }
      forall i | 0 <= i < |claims|
        ensures g[i] == 0 <==> s.None? || BelowOneUnit(claims[i], band, s.value, dim)
      {
        GrantedIs(claims, band, dim, i);
        if s.Some? {
          GrantedBelowExact(claims[i], band, s.value, dim);
          BelowOneUnitIs(claims[i], band, s.value, dim);
        }
      }
    }
  }

  /** One claim contending for storage and cpu where only storage has a band. */
  function CpuWithoutBand(): (r: DemandVector) {
    var none := WaterFill.Demand(0, 0, 0, 0);
    DemandVector(WaterFill.Demand(1, 0, U64_MAX, 10), WaterFill.Demand(1, 0, U64_MAX, 5), none, none)
  }

  /** On an axis without a band something can still be granted. */
  lemma OvershootsWithoutBand()
    ensures var band := Bands(100.0, 0.0, 0.0, 0.0);
            Sum(GrantsOn([CpuWithoutBand()], band, Cpu)) as real > band.Get(Cpu)
  {
    var band, c := Bands(100.0, 0.0, 0.0, 0.0), CpuWithoutBand();
    var claims := [c];
    assert Contends(c, Storage) && band.Get(Storage) > 0.0;
    ParticipatesIff(c, band);
    OverAtMost(10.0, 100.0, 0.1);
    assert DominantRatio(c, band) == 0.1;
    hide EqualShare, DominantRatio, Participants, GrantsOn, Sum;
    SomeoneShares(claims, band);
    assert Participates(claims[0], band);
    var s := EqualShare(claims, band).value;
    AxisBoundedIff(claims, band, Cpu);
    OneParticipant(claims, band);
    ShareBetween(claims, band, s);
    assert !BelowOneUnit(claims[0], band, s, Cpu);
  }

  lemma SoleShare(c: DemandVector, band: Bands)
    requires Participates(c, band)
    ensures EqualShare([c], band) == Some(1.0)
  {
    hide EqualShare, Participants, Participates;
    SomeoneShares([c], band);
    assert Participates([c][0], band);
    var s := EqualShare([c], band).value;
    ShareBetween([c], band, s);
    OneParticipant([c], band);
    TimesOne(s);
  }

  lemma OneParticipant(claims: seq<DemandVector>, band: Bands)
    requires |claims| == 1 && Participates(claims[0], band)
    ensures Participants(claims, band) == 1
  {
  }
}
