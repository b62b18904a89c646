/** What flooring does to the promises of the dominant-resource kernel: how far a
    floored dominant share is from the shared one, an input on which two differ, and
    exactly when a grant is still a multiple of the demand. */
module DrfRounding {
  import opened Machine
  import opened RealSums
  import WaterFill
  import opened Proportion
  import opened Claimants
  import opened Drf
  import opened DrfLaws

  // ---- dominant shares ---------------------------------------------------

  lemma ShareOnBelowDominant(x: Bands, band: Bands, dim: Dim)
    ensures ShareOn(x, band, dim) <= DominantShare(x, band)
    ensures exists d: Dim :: ShareOn(x, band, d) == DominantShare(x, band)
  {
    hide ShareOn;
    var m := DominantShare(x, band);
    assert ShareOn(x, band, Storage) == m || ShareOn(x, band, Cpu) == m
        || ShareOn(x, band, Bandwidth) == m || ShareOn(x, band, RequestRate) == m;
  }

  /** A floored dominant share falls short of the shared one by less than a unit of
      the claimant's dominant axis. */
  lemma FlooredShareWithin(claims: seq<DemandVector>, band: Bands, s: real, i: nat)
    requires EqualShare(claims, band) == Some(s) && i < |claims| && Participates(claims[i], band)
    requires band.Get(DominantDim(claims[i], band)) <= U64_MAX as real
    ensures DominantShare(AsBands(AllocateDrf(band, claims)[i]), band)
          > s - Over(1.0, band.Get(DominantDim(claims[i], band)))
  {
    hide EqualShare, Exact, Times, Over, DominantRatio, AllocateDrf, Participates, DominantShare;
    var c, g := claims[i], AllocateDrf(band, claims)[i];
    var dim := DominantDim(c, band);
    FirstSaturation(claims, band, s);
    FlooringLosesLessThanOne(claims, band, s, dim, i);
    ExactMeetsBandIff(c, band, s, dim);
    ShareAbove(g.Get(dim) as real, s, band.Get(dim));
    ShareOnBelowDominant(AsBands(g), band, dim);
  }

  lemma ShareAbove(g: real, s: real, b: real)
    requires b > 0.0 && Times(s, b) < g + 1.0
    ensures Over(g, b) > s - Over(1.0, b)
  {
    hide Times, Over;
    OverTimes(g, b);
    OverTimes(1.0, b);
    TimesSum(Over(g, b), Over(1.0, b), b);
    TimesCancel(s, Over(g, b) + Over(1.0, b), b);
  }

  lemma ShareSigns(g: GrantVector, band: Bands, dim: Dim)
    ensures ShareOn(AsBands(g), band, dim) >= 0.0
    ensures band.Get(dim) <= 0.0 ==> ShareOn(AsBands(g), band, dim) == 0.0
  {
    hide Over;
    if band.Get(dim) > 0.0 {
      OverSign(g.Get(dim) as real, band.Get(dim));
    }
  }

  /** Some axis with a band attains the dominant share. */
  lemma BestBanded(g: GrantVector, band: Bands) returns (d: Dim)
    requires exists dim: Dim :: band.Get(dim) > 0.0
    ensures band.Get(d) > 0.0 && ShareOn(AsBands(g), band, d) == DominantShare(AsBands(g), band)
  {
    hide DominantShare, ShareOn, AsBands;
    var x := AsBands(g);
    ShareOnBelowDominant(x, band, Storage);
    d :| ShareOn(x, band, d) == DominantShare(x, band);
    ShareSigns(g, band, d);
    if band.Get(d) <= 0.0 {
      d :| band.Get(d) > 0.0;
      ShareSigns(g, band, d);
      ShareOnBelowDominant(x, band, d);
    }
  }

  function Asking(storage: u64, cpu: u64): (c: DemandVector) {
    var none := WaterFill.Demand(0, 0, 0, 0);
    DemandVector(WaterFill.Demand(1, 0, U64_MAX, storage), WaterFill.Demand(1, 0, U64_MAX, cpu), none, none)
  }

  /** Three of storage and ten of cpu. */
  const THREE_AND_TEN := Bands(3.0, 10.0, 1.0, 1.0)

  /** Two claimants want storage, one cpu. */
  function TwoAgainstOne(): (claims: seq<DemandVector>) {
    [Asking(1, 0), Asking(1, 0), Asking(0, 1)]
  }

  lemma AskingRatios()
    ensures DominantRatio(Asking(1, 0), THREE_AND_TEN) == Over(1.0, 3.0)
    ensures DominantRatio(Asking(0, 1), THREE_AND_TEN) == Over(1.0, 10.0)
    ensures Over(1.0, Over(1.0, 3.0)) == 3.0 && Over(1.0, Over(1.0, 10.0)) == 10.0
  {
  }

  lemma PullsOfThree(dim: Dim)
    ensures var c := TwoAgainstOne();
            RSum(PerShares(c, THREE_AND_TEN, dim))
            == PerShare(c[0], THREE_AND_TEN, dim) + PerShare(c[1], THREE_AND_TEN, dim)
               + PerShare(c[2], THREE_AND_TEN, dim)
  {
    hide PerShare;
    var r := PerShares(TwoAgainstOne(), THREE_AND_TEN, dim);
    RSumSnoc(r, 0);
    RSumSnoc(r, 1);
    RSumSnoc(r, 2);
    assert r[..3] == r && r[..0] == [];
  }

  lemma HalfShare()
    ensures EqualShare(TwoAgainstOne(), THREE_AND_TEN) == Some(0.5)
  {
    AskingRatios();
    hide DominantRatio, RSum;
    PullsOfThree(Storage);
    PullsOfThree(Cpu);
    PullsOfThree(Bandwidth);
    PullsOfThree(RequestRate);
    hide PerShares;
    assert SaturatesAt(TwoAgainstOne(), THREE_AND_TEN, Storage) == Some(0.5);
    assert SaturatesAt(TwoAgainstOne(), THREE_AND_TEN, Cpu) == Some(1.0);
    assert SaturatesAt(TwoAgainstOne(), THREE_AND_TEN, Bandwidth) == None;
    assert SaturatesAt(TwoAgainstOne(), THREE_AND_TEN, RequestRate) == None;
  }

  lemma HalfGrants()
    ensures GrantTo(Asking(1, 0), THREE_AND_TEN, 0.5) == GrantVector(1, 0, 0, 0)
    ensures GrantTo(Asking(0, 1), THREE_AND_TEN, 0.5) == GrantVector(0, 5, 0, 0)
  {
    AskingRatios();
    hide DominantRatio;
  }

  lemma HalfGrantShares()
    ensures DominantShare(AsBands(GrantVector(1, 0, 0, 0)), THREE_AND_TEN) == Over(1.0, 3.0)
    ensures DominantShare(AsBands(GrantVector(0, 5, 0, 0)), THREE_AND_TEN) == 0.5
  {
  }

  /** All are due half; after flooring the storage claimants have a third and the cpu
      claimant half. */
  lemma FlooredSharesDiffer()
    ensures var g := AllocateDrf(THREE_AND_TEN, TwoAgainstOne());
            && g == [GrantVector(1, 0, 0, 0), GrantVector(1, 0, 0, 0), GrantVector(0, 5, 0, 0)]
            && DominantShare(AsBands(g[0]), THREE_AND_TEN) == Over(1.0, 3.0)
            && DominantShare(AsBands(g[2]), THREE_AND_TEN) == 0.5
  {
    hide EqualShare, GrantTo, DominantShare, Over;
    HalfShare();
    HalfGrants();
    HalfGrantShares();
  }

  // ---- multiples of the demand -------------------------------------------

  /** The axes of the first `n` that the claimant contends on. */
  function ContendedDims(c: DemandVector, n: nat): (dims: seq<Dim>)
    requires n <= |ALL_DIMS|
    ensures forall d :: d in dims <==> Contends(c, d) && d in ALL_DIMS[..n]
  {
    if n == 0 then []
    else ContendedDims(c, n - 1) + if Contends(c, ALL_DIMS[n - 1]) then [ALL_DIMS[n - 1]] else []
  }

  function ContendedDemands(c: DemandVector): (d: seq<nat>)
    ensures |d| == |ContendedDims(c, |ALL_DIMS|)|
    ensures forall k :: 0 <= k < |d| ==> d[k] == c.Get(ContendedDims(c, |ALL_DIMS|)[k]).demand
  {
    var dims := ContendedDims(c, |ALL_DIMS|);
    seq(|dims|, k requires 0 <= k < |dims| => c.Get(dims[k]).demand)
  }

  /** The grant is a multiple of what the claimant contends for. */
  ghost predicate IsMultiple(c: DemandVector, g: GrantVector) {
    forall a, b :: Contends(c, a) && Contends(c, b) ==>
      g.Get(a) * c.Get(b).demand == g.Get(b) * c.Get(a).demand
  }

  lemma AllDimsListed(dim: Dim)
    ensures dim in ALL_DIMS
  {
    var k := match dim case Storage => 0 case Cpu => 1 case Bandwidth => 2 case RequestRate => 3;
    assert ALL_DIMS[k] == dim;
  }

  lemma ContendedAre(c: DemandVector)
    ensures forall d :: d in ContendedDims(c, |ALL_DIMS|) <==> Contends(c, d)
    ensures Positive(ContendedDemands(c))
    ensures (exists d :: Contends(c, d)) ==> ContendedDemands(c) != []
  {
    var dims := ContendedDims(c, |ALL_DIMS|);
    hide ContendedDims;
    assert ALL_DIMS[..|ALL_DIMS|] == ALL_DIMS;
    forall d: Dim ensures d in dims <==> Contends(c, d) {
      AllDimsListed(d);
    }
    forall k | 0 <= k < |dims| ensures ContendedDemands(c)[k] > 0 {
      assert dims[k] in dims;
    }
    if d :| Contends(c, d) {
      assert d in dims;
    }
  }

  /** The claimant's number of tasks at the shared dominant share. */
  function Tasks(c: DemandVector, band: Bands, s: real): (k: real)
    requires Participates(c, band)
  {
    Over(s, DominantRatio(c, band))
  }

  lemma GrantedIsFloor(c: DemandVector, band: Bands, s: real, dim: Dim)
    requires Participates(c, band) && Contends(c, dim) && s > 0.0 && Exact(c, band, s, dim) <= U64_MAX as real
    ensures GrantTo(c, band, s).Get(dim) == Times(Tasks(c, band, s), c.Get(dim).demand as real).Floor
  {
    GrantedBelowExact(c, band, s, dim);
    ExactIsTasks(c, band, s, dim);
    hide DominantRatio, Times, Over, PerShare;
  }

  lemma MultipleIff(c: DemandVector, g: GrantVector, z: seq<int>)
    requires |z| == |ContendedDemands(c)|
    requires forall k :: 0 <= k < |z| ==> z[k] == g.Get(ContendedDims(c, |ALL_DIMS|)[k])
    ensures IsMultiple(c, g) <==> InRatioInt(z, ContendedDemands(c))
  {
    var dims, d := ContendedDims(c, |ALL_DIMS|), ContendedDemands(c);
    ContendedAre(c);
    hide ContendedDims, ContendedDemands, Contends;
    if IsMultiple(c, g) {
      forall i, j | 0 <= i < |d| && 0 <= j < |d| ensures z[i] * d[j] == z[j] * d[i] {
        assert dims[i] in dims && dims[j] in dims;
      }
    }
    if InRatioInt(z, d) {
      forall a, b | Contends(c, a) && Contends(c, b) ensures g.Get(a) * c.Get(b).demand == g.Get(b) * c.Get(a).demand {
        var i :| 0 <= i < |dims| && dims[i] == a;
        var j :| 0 <= j < |dims| && dims[j] == b;
        assert z[i] * d[j] == z[j] * d[i];
      }
    }
  }

  /** Exactly when a floored grant is still a multiple of the demand, short of the cast
      to 64 bits: with `g` the greatest common divisor of the contended demands and `m`
      the largest, what the tasks leave of `g` buys no unit of `m`. */
  lemma GrantIsMultipleIff(claims: seq<DemandVector>, band: Bands, s: real, i: nat, g: nat, e: seq<nat>, m: nat)
    requires EqualShare(claims, band) == Some(s) && i < |claims| && Participates(claims[i], band)
    requires forall dim :: Contends(claims[i], dim) ==> Exact(claims[i], band, s, dim) <= U64_MAX as real
    requires IsGcd(ContendedDemands(claims[i]), g, e) && IsMax(ContendedDemands(claims[i]), m)
    ensures IsMultiple(claims[i], AllocateDrf(band, claims)[i])
       <==> Times(LeftOver(Tasks(claims[i], band, s), g), m as real) < g as real
  {
    var c := claims[i];
    FirstSaturation(claims, band, s);
    ParticipatesIff(c, band);
    ContendedAre(c);
    hide EqualShare, GrantTo, Tasks, Exact, ExactTotal, Participates, Contends, ContendedDemands, ContendedDims,
      IsMultiple, InRatioInt, IsGcd, IsMax, Times, LeftOver;
    var k, d, dims := Tasks(c, band, s), ContendedDemands(c), ContendedDims(c, |ALL_DIMS|);
    forall j | 0 <= j < |d| ensures Floors(k, d)[j] == GrantTo(c, band, s).Get(dims[j]) {
      assert dims[j] in dims;
      GrantedIsFloor(c, band, s, dims[j]);
    }
    MultipleIff(c, GrantTo(c, band, s), Floors(k, d));
    FloorsInRatioIff(d, g, e, k, m);
  }

  /** The greatest common divisor and the largest of the contended demands. */
  ghost function CommonDemand(c: DemandVector): (g: nat)
    requires exists d :: Contends(c, d)
    ensures exists e :: IsGcd(ContendedDemands(c), g, e)
  {
    ContendedAre(c);
    GcdExists(ContendedDemands(c));
    var g: nat :| exists e :: IsGcd(ContendedDemands(c), g, e);
    g
  }

  ghost function LargestDemand(c: DemandVector): (m: nat)
    requires exists d :: Contends(c, d)
    ensures IsMax(ContendedDemands(c), m)
  {
    ContendedAre(c);
    Largest(ContendedDemands(c))
  }

  /** The same on the claimant alone: what the tasks leave of its common demand buys no
      unit of its largest. */
  lemma GrantStaysMultipleIff(claims: seq<DemandVector>, band: Bands, s: real, i: nat)
    requires EqualShare(claims, band) == Some(s) && i < |claims| && Participates(claims[i], band)
    requires forall dim :: Contends(claims[i], dim) ==> Exact(claims[i], band, s, dim) <= U64_MAX as real
    ensures exists d :: Contends(claims[i], d)
    ensures var g, m := CommonDemand(claims[i]), LargestDemand(claims[i]);
            IsMultiple(claims[i], AllocateDrf(band, claims)[i])
            <==> Times(LeftOver(Tasks(claims[i], band, s), g), m as real) < g as real
  {
    hide EqualShare, Exact, IsMultiple, AllocateDrf, Times, LeftOver, Tasks, Participates, CommonDemand, LargestDemand,
      Contends, IsGcd, IsMax;
    ParticipatesIff(claims[i], band);
    var g, m := CommonDemand(claims[i]), LargestDemand(claims[i]);
    var e :| IsGcd(ContendedDemands(claims[i]), g, e);
    GrantIsMultipleIff(claims, band, s, i, g, e, m);
  }

  /** One claimant of ten storage and three cpu on bands of five and a hundred. */
  lemma GrantIsNoMultiple()
    ensures var g := AllocateDrf(Bands(5.0, 100.0, 1.0, 1.0), [Asking(10, 3)]);
            g == [GrantVector(5, 1, 0, 0)] && !IsMultiple(Asking(10, 3), g[0])
  {
    var c, band := Asking(10, 3), Bands(5.0, 100.0, 1.0, 1.0);
    assert DominantRatio(c, band) == 2.0;
    assert Contends(c, Storage) && Contends(c, Cpu);
    SoleShare(c, band);
    hide EqualShare;
    assert Over(10.0, 2.0) == 5.0 && Over(3.0, 2.0) == 1.5;
    assert GrantTo(c, band, 1.0) == GrantVector(5, 1, 0, 0);
  }
}
