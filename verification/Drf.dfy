/** Dominant Resource Fairness, one level: every claimant's dominant share grows at
    a shared rate until some axis saturates.  The exact bundles are reals; what is
    granted is their floor. */
module Drf {
  import opened Machine
  import opened RealSums
  import opened Claimants

  /** The band on each axis. */
  datatype Bands = Bands(storage: real, cpu: real, bandwidth: real, requestRate: real) {
    function Get(dim: Dim): (r: real) {
      match dim
      case Storage => storage
      case Cpu => cpu
      case Bandwidth => bandwidth
      case RequestRate => requestRate
    }
  }

  /** A grant as the bands of the next level. */
  function AsBands(g: GrantVector): (b: Bands)
    ensures forall dim: Dim :: b.Get(dim) == g.Get(dim) as real
  {
    Bands(g.storage as real, g.cpu as real, g.bandwidth as real, g.requestRate as real)
  }

  /** Absent (0) and unbounded demands are not contended for. */
  predicate Contends(c: DemandVector, dim: Dim) {
    c.Get(dim).demand != 0 && c.Get(dim).demand != U64_MAX
  }

  /** The fraction of one axis that a unit of the claimant's demand takes. */
  function RatioOn(c: DemandVector, band: Bands, dim: Dim): (r: real) {
    if !Contends(c, dim) || band.Get(dim) <= 0.0 then 0.0
    else Over(c.Get(dim).demand as real, band.Get(dim))
  }

  function DominantRatio(c: DemandVector, band: Bands): (r: real) {
    MaxR(MaxR(MaxR(MaxR(0.0, RatioOn(c, band, Storage)), RatioOn(c, band, Cpu)), RatioOn(c, band, Bandwidth)),
         RatioOn(c, band, RequestRate))
  }

  /** The claimant contends on some axis that has a band. */
  predicate Participates(c: DemandVector, band: Bands) {
    DominantRatio(c, band) > 0.0
  }

  /** The demand on `dim` per unit of dominant share. */
  function PerShare(c: DemandVector, band: Bands, dim: Dim): (r: real) {
    var dr := DominantRatio(c, band);
    if dr <= 0.0 || !Contends(c, dim) then 0.0 else Over(c.Get(dim).demand as real, dr)
  }

  function PerShares(claims: seq<DemandVector>, band: Bands, dim: Dim): (r: seq<real>)
    ensures |r| == |claims|
    ensures forall i :: 0 <= i < |r| ==> r[i] == PerShare(claims[i], band, dim)
  {
    seq(|claims|, i requires 0 <= i < |claims| => PerShare(claims[i], band, dim))
  }

  /** The share at which `dim` saturates, if anyone pulls on it. */
  function SaturatesAt(claims: seq<DemandVector>, band: Bands, dim: Dim): (r: Option<real>) {
    var total := RSum(PerShares(claims, band, dim));
    if band.Get(dim) <= 0.0 || total <= 0.0 then None else Some(Over(band.Get(dim), total))
  }

  function Sooner(a: Option<real>, b: Option<real>): (r: Option<real>) {
    if b.None? then a else if a.None? || b.value < a.value then b else a
  }

  /** The equalized dominant share: where the first axis saturates. */
  function EqualShare(claims: seq<DemandVector>, band: Bands): (r: Option<real>) {
    Sooner(Sooner(Sooner(Sooner(None, SaturatesAt(claims, band, Storage)), SaturatesAt(claims, band, Cpu)),
                  SaturatesAt(claims, band, Bandwidth)),
           SaturatesAt(claims, band, RequestRate))
  }

  /** The exact amount of `dim` at dominant share `s`. */
  function Exact(c: DemandVector, band: Bands, s: real, dim: Dim): (r: real) {
    Times(s, PerShare(c, band, dim))
  }

  function Granted(c: DemandVector, band: Bands, s: real, dim: Dim): (r: u64) {
    if Exact(c, band, s, dim) <= 0.0 then 0 else Sat64(Exact(c, band, s, dim).Floor)
  }

  function GrantTo(c: DemandVector, band: Bands, s: real): (r: GrantVector) {
    GrantVector(Granted(c, band, s, Storage), Granted(c, band, s, Cpu),
                Granted(c, band, s, Bandwidth), Granted(c, band, s, RequestRate))
  }

  function AllocateDrf(band: Bands, claims: seq<DemandVector>): (r: seq<GrantVector>)
    ensures |r| == |claims|
  {
    var s := EqualShare(claims, band);
    seq(|claims|, i requires 0 <= i < |claims| =>
      if s.None? then NO_GRANT else GrantTo(claims[i], band, s.value))
  }

  // ---- the dominant axis -------------------------------------------------

  /** An axis attaining the dominant ratio. */
  function DominantDim(c: DemandVector, band: Bands): (dim: Dim)
    requires Participates(c, band)
    ensures Contends(c, dim) && band.Get(dim) > 0.0 && RatioOn(c, band, dim) == DominantRatio(c, band)
  {
    var dr := DominantRatio(c, band);
    if RatioOn(c, band, Storage) == dr then Storage
    else if RatioOn(c, band, Cpu) == dr then Cpu
    else if RatioOn(c, band, Bandwidth) == dr then Bandwidth
    else RequestRate
  }

  lemma RatioAtMostDominant(c: DemandVector, band: Bands, dim: Dim)
    ensures RatioOn(c, band, dim) <= DominantRatio(c, band)
    ensures 0.0 <= DominantRatio(c, band)
  {
  }

  /** Participating is contending where there is something to contend for. */
  lemma ParticipatesIff(c: DemandVector, band: Bands)
    ensures Participates(c, band) <==> exists dim :: Contends(c, dim) && band.Get(dim) > 0.0
  {
    if Participates(c, band) {
      assert Contends(c, DominantDim(c, band));
    }
    if dim :| Contends(c, dim) && band.Get(dim) > 0.0 {
      RatioAtMostDominant(c, band, dim);
      OverSign(c.Get(dim).demand as real, band.Get(dim));
    }
  }

  /** Per unit of dominant share no axis is taken beyond its band, and the dominant
      one is taken exactly. */
  lemma PerShareBounds(c: DemandVector, band: Bands, dim: Dim)
    ensures 0.0 <= PerShare(c, band, dim)
    ensures band.Get(dim) > 0.0 ==> PerShare(c, band, dim) <= band.Get(dim)
    ensures Participates(c, band) && dim == DominantDim(c, band) ==> PerShare(c, band, dim) == band.Get(dim)
    ensures PerShare(c, band, dim) > 0.0 <==> Participates(c, band) && Contends(c, dim)
  {
    hide Times, Over;
    var dr, d, b := DominantRatio(c, band), c.Get(dim).demand as real, band.Get(dim);
    RatioAtMostDominant(c, band, dim);
    if dr > 0.0 && Contends(c, dim) {
      OverSign(d, dr);
      if b > 0.0 {
        OverAtMost(d, b, dr);
        OverAtMost(d, dr, b);
        TimesSwap(b, dr, 0.0);
      }
    }
  }

  // ---- the equalized share -----------------------------------------------

  lemma PerSharesPositive(claims: seq<DemandVector>, band: Bands, dim: Dim)
    ensures forall i :: 0 <= i < |claims| ==> PerShares(claims, band, dim)[i] >= 0.0
    ensures RSum(PerShares(claims, band, dim)) >= 0.0
    ensures RSum(PerShares(claims, band, dim)) > 0.0
       <==> exists i :: 0 <= i < |claims| && Participates(claims[i], band) && Contends(claims[i], dim)
  {
    forall i | 0 <= i < |claims|
      ensures PerShares(claims, band, dim)[i] >= 0.0
      ensures PerShares(claims, band, dim)[i] > 0.0 <==> Participates(claims[i], band) && Contends(claims[i], dim)
    {
      PerShareBounds(claims[i], band, dim);
    }
    hide *;
    RSumNonNegative(PerShares(claims, band, dim));
  }

  lemma EqualShareIsLeast(claims: seq<DemandVector>, band: Bands)
    ensures var s := EqualShare(claims, band);
            && (s.Some? <==> exists dim :: SaturatesAt(claims, band, dim).Some?)
            && (s.Some? ==> exists dim :: SaturatesAt(claims, band, dim) == s)
            && (s.Some? ==> forall dim :: SaturatesAt(claims, band, dim).Some? ==>
                  s.value <= SaturatesAt(claims, band, dim).value)
  {
    hide SaturatesAt;
    var s := EqualShare(claims, band);
    forall dim | SaturatesAt(claims, band, dim).Some?
      ensures s.Some? && s.value <= SaturatesAt(claims, band, dim).value
    {
      match dim
      case Storage =>
      case Cpu =>
      case Bandwidth =>
      case RequestRate =>
    }
    if s.Some? {
      assert s == SaturatesAt(claims, band, Storage) || s == SaturatesAt(claims, band, Cpu)
          || s == SaturatesAt(claims, band, Bandwidth) || s == SaturatesAt(claims, band, RequestRate);
    }
  }

  /** There is a share to hand out exactly when someone participates. */
  lemma SomeoneShares(claims: seq<DemandVector>, band: Bands)
    ensures EqualShare(claims, band).Some? <==> exists i :: 0 <= i < |claims| && Participates(claims[i], band)
  {
    EqualShareIsLeast(claims, band);
    hide EqualShare, DominantRatio, PerShare, RSum;
    if i :| 0 <= i < |claims| && Participates(claims[i], band) {
      var dim := DominantDim(claims[i], band);
      PerSharesPositive(claims, band, dim);
      assert SaturatesAt(claims, band, dim).Some?;
    }
    if dim :| SaturatesAt(claims, band, dim).Some? {
      PerSharesPositive(claims, band, dim);
    }
  }

  /** What all claimants hold of an axis, exactly. */
  function Exacts(claims: seq<DemandVector>, band: Bands, s: real, dim: Dim): (r: seq<real>)
    ensures |r| == |claims|
    ensures forall i :: 0 <= i < |r| ==> r[i] == Exact(claims[i], band, s, dim)
  {
    seq(|claims|, i requires 0 <= i < |claims| => Exact(claims[i], band, s, dim))
  }

  ghost function ExactTotal(claims: seq<DemandVector>, band: Bands, s: real, dim: Dim): (t: real)
    ensures t == Times(s, RSum(PerShares(claims, band, dim)))
  {
    RSumScale(PerShares(claims, band, dim), Exacts(claims, band, s, dim), s);
    RSum(Exacts(claims, band, s, dim))
  }

  lemma FitsUntilSaturated(claims: seq<DemandVector>, band: Bands, dim: Dim, s: real)
    requires band.Get(dim) > 0.0
    requires SaturatesAt(claims, band, dim).Some? ==> s <= SaturatesAt(claims, band, dim).value
    ensures ExactTotal(claims, band, s, dim) <= band.Get(dim)
    ensures SaturatesAt(claims, band, dim) == Some(s) ==> s > 0.0 && ExactTotal(claims, band, s, dim) == band.Get(dim)
  {
    PerSharesPositive(claims, band, dim);
    hide RSum, PerShares, ExactTotal, Times, Over;
    var total, b := RSum(PerShares(claims, band, dim)), band.Get(dim);
    TimesSign(s, total);
    if total > 0.0 {
      OverSign(b, total);
      OverTimes(b, total);
      if s <= Over(b, total) {
        TimesLe(total, s, Over(b, total));
      }
    }
  }

  /** Progressive filling: before flooring no axis with a band is over-allocated,
      and some axis is handed out to the last unit. */
  lemma FirstSaturation(claims: seq<DemandVector>, band: Bands, s: real)
    requires EqualShare(claims, band) == Some(s)
    ensures s > 0.0
    ensures forall dim :: band.Get(dim) > 0.0 ==> ExactTotal(claims, band, s, dim) <= band.Get(dim)
    ensures exists dim :: band.Get(dim) > 0.0 && ExactTotal(claims, band, s, dim) == band.Get(dim)
  {
    EqualShareIsLeast(claims, band);
    hide EqualShare, ExactTotal, PerShares, RSum;
    forall dim | band.Get(dim) > 0.0 ensures ExactTotal(claims, band, s, dim) <= band.Get(dim) {
      FitsUntilSaturated(claims, band, dim, s);
    }
    var dim :| SaturatesAt(claims, band, dim) == Some(s);
    FitsUntilSaturated(claims, band, dim, s);
    assert band.Get(dim) > 0.0 && ExactTotal(claims, band, s, dim) == band.Get(dim);
  }
}
