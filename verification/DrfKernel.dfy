/** `allocate_drf_band` itself: one loop over the axes keeps the earliest saturation
    point, then every claimant's vector is cut at that share. */
module DrfKernel {
  import opened Machine
  import opened RealSums
  import opened Claimants
  import opened Drf

  /** The earliest saturation among the first `k` axes. */
  ghost function SoonestOf(claims: seq<DemandVector>, band: Bands, k: nat): (r: Option<real>)
    requires k <= |ALL_DIMS|
  {
    if k == 0 then None
    else Sooner(SoonestOf(claims, band, k - 1), SaturatesAt(claims, band, ALL_DIMS[k - 1]))
  }

  lemma SoonestIsEqualShare(claims: seq<DemandVector>, band: Bands)
    ensures SoonestOf(claims, band, |ALL_DIMS|) == EqualShare(claims, band)
  {
    hide SaturatesAt, Sooner;
    assert SoonestOf(claims, band, 0) == None;
    assert SoonestOf(claims, band, 1) == Sooner(None, SaturatesAt(claims, band, Storage));
    assert SoonestOf(claims, band, 2) == Sooner(SoonestOf(claims, band, 1), SaturatesAt(claims, band, Cpu));
    assert SoonestOf(claims, band, 3) == Sooner(SoonestOf(claims, band, 2), SaturatesAt(claims, band, Bandwidth));
  }

  method AllocateDrfBand(band: Bands, claims: seq<DemandVector>) returns (grants: seq<GrantVector>)
    ensures grants == AllocateDrf(band, claims)
  {
    var sStar := FirstSaturationPoint(band, claims);
    if sStar.None? {
      return seq(|claims|, _ => NO_GRANT);
    }
    grants := [];
    for i := 0 to |claims|
      invariant |grants| == i
      invariant forall k :: 0 <= k < i ==> grants[k] == GrantTo(claims[k], band, sStar.value)
    {
      grants := grants + [GrantTo(claims[i], band, sStar.value)];
    }
  }

  /** `None` is the infinite share of a list nobody contends in. */
  method FirstSaturationPoint(band: Bands, claims: seq<DemandVector>) returns (sStar: Option<real>)
    ensures sStar == EqualShare(claims, band)
  {
    hide EqualShare, PerShares, RSum, Over;
    sStar := None;
    for i := 0 to |ALL_DIMS|
      invariant sStar == SoonestOf(claims, band, i)
    {
      var dim := ALL_DIMS[i];
      if band.Get(dim) <= 0.0 {
        continue;
      }
      var sumWeighted := RSum(PerShares(claims, band, dim));
      if sumWeighted > 0.0 {
        var at := Over(band.Get(dim), sumWeighted);
        if sStar.None? || at < sStar.value {
          sStar := Some(at);
        }
      }
    }
    SoonestIsEqualShare(claims, band);
  }
}
