/** Floored dominant shares: exactly the pools on which all participants of every list
    still agree. */
module DrfAgreement {
  import opened Machine
  import opened RealSums
  import WaterFill
  import opened Claimants
  import opened Drf
  import opened DrfLaws
  import opened DrfRounding

  ghost predicate InRange(band: Bands) {
    forall dim: Dim :: 0.0 <= band.Get(dim) <= U64_MAX as real
  }

  /** All axes that have a band have the same. */
  ghost predicate OneBand(band: Bands) {
    forall a: Dim, b: Dim :: band.Get(a) > 0.0 && band.Get(b) > 0.0 ==> band.Get(a) == band.Get(b)
  }

  /** No axis has a whole unit. */
  ghost predicate NoUnit(band: Bands) {
    forall dim: Dim :: band.Get(dim) < 1.0
  }

  /** The dominant share of a claimant's floored grant. */
  function FlooredShare(c: DemandVector, band: Bands, s: real): (r: real) {
    DominantShare(AsBands(GrantTo(c, band, s)), band)
  }

  /** The grants of all participants of every list have the same dominant share. */
  ghost predicate AlwaysAgree(band: Bands) {
    forall claims, s, i: nat, j: nat ::
      EqualShare(claims, band) == Some(s) && i < |claims| && j < |claims|
      && Participates(claims[i], band) && Participates(claims[j], band) ==>
        DominantShare(AsBands(AllocateDrf(band, claims)[i]), band)
        == DominantShare(AsBands(AllocateDrf(band, claims)[j]), band)
  }

  // ---- where they agree ----------------------------------------------------

  lemma FloorsInOrder(c: DemandVector, band: Bands, s: real, a: Dim, b: Dim)
    requires Exact(c, band, s, a) <= Exact(c, band, s, b)
    ensures Granted(c, band, s, a) <= Granted(c, band, s, b)
  {
    hide Exact;
  }

  lemma WholeUnits(c: DemandVector, band: Bands, s: real, dim: Dim)
    requires 0.0 <= Exact(c, band, s, dim) <= U64_MAX as real
    ensures Granted(c, band, s, dim) == Exact(c, band, s, dim).Floor
  {
    hide Exact;
  }

  lemma SharesInOrder(g: GrantVector, band: Bands, a: Dim, b: Dim)
    requires band.Get(a) == band.Get(b) > 0.0 && g.Get(a) <= g.Get(b)
    ensures ShareOn(AsBands(g), band, a) <= ShareOn(AsBands(g), band, b)
  {
    hide Over, Times;
    OverTimes(g.Get(b) as real, band.Get(b));
    OverAtMost(g.Get(a) as real, band.Get(a), Over(g.Get(b) as real, band.Get(b)));
  }

  lemma GrantIs(c: DemandVector, band: Bands, s: real, dim: Dim)
    ensures GrantTo(c, band, s).Get(dim) == Granted(c, band, s, dim)
  {
    hide Granted;
  }

  lemma ShareIs(g: GrantVector, band: Bands, dim: Dim)
    requires band.Get(dim) > 0.0
    ensures ShareOn(AsBands(g), band, dim) == Over(g.Get(dim) as real, band.Get(dim))
  {
    hide Over;
  }

  /** On one band everyone ends at the whole units of the shared share of it. */
  lemma OneBandShare(c: DemandVector, band: Bands, s: real)
    requires OneBand(band) && InRange(band) && Participates(c, band) && 0.0 < s <= 1.0
    ensures var b := band.Get(DominantDim(c, band));
            b > 0.0 && FlooredShare(c, band, s) == Over(Times(s, b).Floor as real, b)
  {
    hide DominantRatio, Times, Over, Exact, GrantTo, Granted, ShareOn, DominantShare, AsBands, Participates, Contends,
        Bands.Get;
    var g, dim := GrantTo(c, band, s), DominantDim(c, band);
    DominantDemand(c, band);
    ExactMeetsBandIff(c, band, s, dim);
    ShareInRange(s, band.Get(dim));
    WholeUnits(c, band, s, dim);
    GrantIs(c, band, s, dim);
    ShareIs(g, band, dim);
    var best := BestBanded(g, band);
    ExactMeetsBandIff(c, band, s, best);
    FloorsInOrder(c, band, s, best, dim);
    GrantIs(c, band, s, best);
    SharesInOrder(g, band, best, dim);
    ShareOnBelowDominant(AsBands(g), band, dim);
  }

  lemma ShareInRange(s: real, b: real)
    requires 0.0 < s <= 1.0 && 0.0 < b <= U64_MAX as real
    ensures 0.0 <= Times(s, b) <= b
  {
    TimesSign(s, b);
    TimesLe(b, s, 1.0);
    TimesOne(b);
    hide Times;
  }

  /** Below one unit nobody is granted anything of an axis with a band. */
  lemma NoUnitShare(c: DemandVector, band: Bands, s: real)
    requires NoUnit(band) && InRange(band) && Participates(c, band) && 0.0 < s <= 1.0
    ensures FlooredShare(c, band, s) == 0.0
  {
    hide DominantRatio, Times, Over, Exact, GrantTo, Granted, ShareOn, DominantShare, AsBands, Participates, Contends,
        Bands.Get;
    var g := GrantTo(c, band, s);
    DominantDemand(c, band);
    var best := BestBanded(g, band);
    ExactMeetsBandIff(c, band, s, best);
    ShareInRange(s, band.Get(best));
    GrantedBelowExact(c, band, s, best);
    GrantIs(c, band, s, best);
    ShareIs(g, band, best);
    OverSign(g.Get(best) as real, band.Get(best));
  }

  lemma AgreeWhenEven(band: Bands)
    requires InRange(band) && (OneBand(band) || NoUnit(band))
    ensures AlwaysAgree(band)
  {
    hide EqualShare, Participates, FlooredShare, DominantDim, OneBand, NoUnit, InRange, ExactTotal, AllocateDrf,
      DominantShare, AsBands;
    forall claims, s, i: nat, j: nat |
      EqualShare(claims, band) == Some(s) && i < |claims| && j < |claims|
      && Participates(claims[i], band) && Participates(claims[j], band)
      ensures DominantShare(AsBands(AllocateDrf(band, claims)[i]), band)
           == DominantShare(AsBands(AllocateDrf(band, claims)[j]), band)
    {
      FlooredShareIsGranted(claims, band, s, i);
      FlooredShareIsGranted(claims, band, s, j);
      ShareAtMostOne(claims, band, s);
      if OneBand(band) {
        OneBandShare(claims[i], band, s);
        OneBandShare(claims[j], band, s);
        OneBandIs(band, DominantDim(claims[i], band), DominantDim(claims[j], band));
      } else {
        NoUnitShare(claims[i], band, s);
        NoUnitShare(claims[j], band, s);
      }
    }
  }

  lemma OneBandIs(band: Bands, a: Dim, b: Dim)
    requires OneBand(band) && band.Get(a) > 0.0 && band.Get(b) > 0.0
    ensures band.Get(a) == band.Get(b)
  {
  }

  // ---- where some do not ---------------------------------------------------

  /** One unit of one axis and nothing else. */
  function OnlyOn(dim: Dim): (c: DemandVector)
    ensures forall d: Dim :: Contends(c, d) <==> d == dim
  {
    var none, one := WaterFill.Demand(0, 0, 0, 0), WaterFill.Demand(1, 0, U64_MAX, 1);
    DemandVector(if dim == Storage then one else none, if dim == Cpu then one else none,
                 if dim == Bandwidth then one else none, if dim == RequestRate then one else none)
  }

  lemma PullsOnOne(dim: Dim, band: Bands, d: Dim)
    requires band.Get(dim) > 0.0
    ensures Participates(OnlyOn(dim), band)
    ensures PerShare(OnlyOn(dim), band, d) == if d == dim then band.Get(dim) else 0.0
  {
    hide DominantRatio, PerShare, Over, Times, OnlyOn, Contends, Participates;
    ParticipatesIff(OnlyOn(dim), band);
    PerShareBounds(OnlyOn(dim), band, d);
  }

  /** As many claimants on the larger band as it has whole units, and one on the
      smaller. */
  function Crowd(hi: Dim, lo: Dim, n: nat): (claims: seq<DemandVector>)
    ensures |claims| == n + 1
    ensures forall i :: 0 <= i < n ==> claims[i] == OnlyOn(hi)
    ensures claims[n] == OnlyOn(lo)
  {
    seq(n, _ => OnlyOn(hi)) + [OnlyOn(lo)]
  }

  lemma {:induction false} RSumConstant(s: seq<real>, v: real)
    requires forall i :: 0 <= i < |s| ==> s[i] == v
    ensures RSum(s) == Times(|s| as real, v)
  {
    hide Times;
    TimesSign(0.0, v);
    if s != [] {
      RSumConstant(s[..|s| - 1], v);
      TimesSucc(|s| - 1, v);
    }
  }

  lemma CrowdPulls(hi: Dim, lo: Dim, n: nat, band: Bands, d: Dim)
    requires hi != lo && band.Get(hi) > 0.0 && band.Get(lo) > 0.0
    ensures RSum(PerShares(Crowd(hi, lo, n), band, d))
         == if d == hi then Times(n as real, band.Get(hi)) else if d == lo then band.Get(lo) else 0.0
  {
    hide PerShare, Times, RSum, OnlyOn, Crowd;
    var r := PerShares(Crowd(hi, lo, n), band, d);
    PullsOnOne(hi, band, d);
    PullsOnOne(lo, band, d);
    RSumConstant(r[..n], if d == hi then band.Get(hi) else 0.0);
    RSumSnoc(r, n);
    TimesSign(n as real, 0.0);
    assert r[..n + 1] == r;
  }

  lemma CrowdSaturates(hi: Dim, lo: Dim, n: nat, band: Bands, d: Dim)
    requires hi != lo && band.Get(hi) > 0.0 && band.Get(lo) > 0.0 && n > 0
    ensures SaturatesAt(Crowd(hi, lo, n), band, d)
         == if d == hi then Some(Over(1.0, n as real)) else if d == lo then Some(1.0) else None
  {
    hide PerShares, Times, Over, RSum, Crowd;
    CrowdPulls(hi, lo, n, band, d);
    TimesSign(n as real, band.Get(hi));
    ShareOfCrowd(n as real, band.Get(hi));
    OverAtMost(band.Get(lo), band.Get(lo), 1.0);
    TimesOne(band.Get(lo));
  }

  lemma ShareOfCrowd(n: real, b: real)
    requires n > 0.0 && b > 0.0 && Times(n, b) > 0.0
    ensures Over(b, Times(n, b)) == Over(1.0, n)
  {
    hide Times, Over;
    OverTimes(1.0, n);
    TimesSwap(Over(1.0, n), n, b);
    TimesOne(b);
    OverAtMost(b, Times(n, b), Over(1.0, n));
  }

  lemma CrowdShare(hi: Dim, lo: Dim, n: nat, band: Bands)
    requires hi != lo && band.Get(hi) > 0.0 && band.Get(lo) > 0.0 && n > 0
    ensures 0.0 < Over(1.0, n as real) <= 1.0
    ensures EqualShare(Crowd(hi, lo, n), band) == Some(Over(1.0, n as real))
  {
    hide EqualShare, SaturatesAt, Over, Times, Crowd;
    EqualShareIsLeast(Crowd(hi, lo, n), band);
    CrowdSaturates(hi, lo, n, band, hi);
    OverSign(1.0, n as real);
    OverAtMost(1.0, n as real, 1.0);
    TimesOne(n as real);
    forall d: Dim ensures SaturatesAt(Crowd(hi, lo, n), band, d)
      == if d == hi then Some(Over(1.0, n as real)) else if d == lo then Some(1.0) else None
    {
      CrowdSaturates(hi, lo, n, band, d);
    }
  }

  lemma OnlyShare(dim: Dim, band: Bands, s: real)
    requires InRange(band) && band.Get(dim) > 0.0 && 0.0 < s <= 1.0
    ensures FlooredShare(OnlyOn(dim), band, s) == Over(Times(s, band.Get(dim)).Floor as real, band.Get(dim))
  {
    hide DominantRatio, Times, Over, Exact, GrantTo, Granted, ShareOn, DominantShare, AsBands, Participates, Contends,
      Bands.Get, OnlyOn;
    var c := OnlyOn(dim);
    var g := GrantTo(c, band, s);
    PullsOnOne(dim, band, dim);
    DominantDemand(c, band);
    ExactMeetsBandIff(c, band, s, dim);
    ShareInRange(s, band.Get(dim));
    WholeUnits(c, band, s, dim);
    GrantIs(c, band, s, dim);
    ShareIs(g, band, dim);
    var best := BestBanded(g, band);
    ShareOnBelowDominant(AsBands(g), band, dim);
    if best != dim {
      NothingElse(dim, band, s, best);
      ShareIs(g, band, best);
      OverSign(0.0, band.Get(best));
      OverSign(g.Get(dim) as real, band.Get(dim));
    }
  }

  lemma NothingElse(dim: Dim, band: Bands, s: real, d: Dim)
    requires d != dim
    ensures GrantTo(OnlyOn(dim), band, s).Get(d) == 0
  {
    hide DominantRatio, Over;
    GrantIs(OnlyOn(dim), band, s, d);
    TimesSign(s, 0.0);
  }

  /** An n-th of a band with n whole units is one whole unit; of a smaller band, one or
      none. */
  lemma NthFloors(n: nat, b: real)
    requires n > 0 && b >= 0.0 && b < (n + 1) as real
    ensures 0 <= Times(Over(1.0, n as real), b).Floor <= 1
    ensures b >= n as real ==> Times(Over(1.0, n as real), b).Floor == 1
  {
    hide Times, Over;
    var y := Times(Over(1.0, n as real), b);
    OverTimes(1.0, n as real);
    TimesSwap(n as real, Over(1.0, n as real), b);
    TimesSwap(Over(1.0, n as real), n as real, 0.0);
    TimesOne(b);
    assert Times(n as real, y) == b;
    TimesSwap(n as real, y, 0.0);
    TimesCancel(0.0, y, n as real);
    TimesCancel(1.0, y, n as real);
    TimesCancel(y, 2.0, n as real);
    TimesSign(0.0, n as real);
    TimesOne(n as real);
    TimesSum(1.0, 1.0, n as real);
  }

  lemma SmallerShares(a: real, b: real)
    requires 0.0 < a < b
    ensures Over(1.0, b) != Over(1.0, a) && Over(1.0, b) != Over(0.0, a)
  {
    hide Times, Over;
    OverSign(1.0, b);
    OverSign(0.0, a);
    OverTimes(1.0, a);
    OverTimes(1.0, b);
    TimesSwap(Over(1.0, b), a, 0.0);
    TimesSwap(Over(1.0, b), b, 0.0);
    TimesCancel(a, b, Over(1.0, b));
  }

  lemma Apart(band: Bands, claims: seq<DemandVector>, s: real, i: nat, j: nat)
    requires EqualShare(claims, band) == Some(s) && i < |claims| && j < |claims|
    requires Participates(claims[i], band) && Participates(claims[j], band)
    requires FlooredShare(claims[i], band, s) != FlooredShare(claims[j], band, s)
    ensures !AlwaysAgree(band)
  {
    hide EqualShare, FlooredShare, Participates, AllocateDrf, DominantShare, AsBands;
    FlooredShareIsGranted(claims, band, s, i);
    FlooredShareIsGranted(claims, band, s, j);
  }

  lemma NthShares(band: Bands, hi: Dim, lo: Dim, n: nat)
    requires InRange(band) && 0.0 < band.Get(lo) < band.Get(hi) && 1 <= n == band.Get(hi).Floor
    requires 0.0 < Over(1.0, n as real) <= 1.0
    ensures FlooredShare(OnlyOn(hi), band, Over(1.0, n as real)) != FlooredShare(OnlyOn(lo), band, Over(1.0, n as real))
  {
    hide FlooredShare, Times, Over, OnlyOn, InRange;
    OnlyShare(hi, band, Over(1.0, n as real));
    OnlyShare(lo, band, Over(1.0, n as real));
    NthFloors(n, band.Get(hi));
    NthFloors(n, band.Get(lo));
    SmallerShares(band.Get(lo), band.Get(hi));
  }

  /** With two different bands, the larger of a unit or more, a crowd on it and one
      claimant on the smaller end apart. */
  lemma CrowdDisagrees(band: Bands, hi: Dim, lo: Dim)
    requires InRange(band) && band.Get(hi) >= 1.0 && 0.0 < band.Get(lo) < band.Get(hi)
    ensures !AlwaysAgree(band)
  {
    var n: nat := band.Get(hi).Floor;
    hide EqualShare, FlooredShare, Participates, Times, Over, Crowd, OnlyOn, AlwaysAgree, InRange;
    CrowdShare(hi, lo, n, band);
    PullsOnOne(hi, band, hi);
    PullsOnOne(lo, band, lo);
    NthShares(band, hi, lo, n);
    Apart(band, Crowd(hi, lo, n), Over(1.0, n as real), 0, n);
  }

  /** Exactly the pools on which the floored dominant shares of all participants agree,
      whatever the list: every axis with a band has the same, or none has a unit. */
  lemma AlwaysAgreeIff(band: Bands)
    requires InRange(band)
    ensures AlwaysAgree(band) <==> OneBand(band) || NoUnit(band)
  {
    hide AlwaysAgree, InRange;
    if OneBand(band) || NoUnit(band) {
      AgreeWhenEven(band);
    } else {
      var d: Dim :| band.Get(d) >= 1.0;
      var e := OtherBand(band, d);
      if band.Get(e) < band.Get(d) {
        CrowdDisagrees(band, d, e);
      } else {
        CrowdDisagrees(band, e, d);
      }
    }
  }

  lemma OtherBand(band: Bands, d: Dim) returns (e: Dim)
    requires !OneBand(band) && band.Get(d) > 0.0
    ensures band.Get(e) > 0.0 && band.Get(e) != band.Get(d)
  {
    var a: Dim, b: Dim :| band.Get(a) > 0.0 && band.Get(b) > 0.0 && band.Get(a) != band.Get(b);
    e := if band.Get(a) != band.Get(d) then a else b;
  }

  /** What `FlooredShare` speaks of is what the kernel returns. */
  lemma FlooredShareIsGranted(claims: seq<DemandVector>, band: Bands, s: real, i: nat)
    requires EqualShare(claims, band) == Some(s) && i < |claims|
    ensures FlooredShare(claims[i], band, s) == DominantShare(AsBands(AllocateDrf(band, claims)[i]), band)
  {
    hide EqualShare, GrantTo, DominantShare, AsBands;
  }
}
