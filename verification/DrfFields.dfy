/** Which demands the dominant-resource kernel contends for, on the claimants' own
    fields, and where each claimant's vector lands. */
module DrfFields {
  import opened Machine
  import opened RealSums
  import WaterFill
  import opened Claimants
  import opened Drf
  import opened DrfLaws

  /** The demand on an axis, and the grant. */
  function DemandOn(c: DemandVector, dim: Dim): (d: u64) {
    match dim
    case Storage => c.storage.demand
    case Cpu => c.cpu.demand
    case Bandwidth => c.bandwidth.demand
    case RequestRate => c.requestRate.demand
  }

  function GrantOn(g: GrantVector, dim: Dim): (v: u64) {
    match dim
    case Storage => g.storage
    case Cpu => g.cpu
    case Bandwidth => g.bandwidth
    case RequestRate => g.requestRate
  }

  function BandOn(b: Bands, dim: Dim): (v: real) {
    match dim
    case Storage => b.storage
    case Cpu => b.cpu
    case Bandwidth => b.bandwidth
    case RequestRate => b.requestRate
  }

  lemma FieldsByAxis(c: DemandVector, g: GrantVector, b: Bands, dim: Dim)
    ensures c.Get(dim).demand == DemandOn(c, dim) && g.Get(dim) == GrantOn(g, dim) && b.Get(dim) == BandOn(b, dim)
    ensures BandOn(AsBands(g), dim) == GrantOn(g, dim) as real
  {
  }

  /** A finite demand for something. */
  predicate Asks(c: DemandVector, dim: Dim) {
    0 < DemandOn(c, dim) < U64_MAX
  }

  lemma AsksIsContends(c: DemandVector, dim: Dim)
    ensures Asks(c, dim) <==> Contends(c, dim)
  {
  }

  /** A claimant takes part exactly when it asks, finitely, for an axis that has a band. */
  lemma TakesPartIff(c: DemandVector, band: Bands)
    ensures Participates(c, band) <==> exists dim :: Asks(c, dim) && BandOn(band, dim) > 0.0
  {
    hide Participates;
    ParticipatesIff(c, band);
    if Participates(c, band) {
      var dim :| Contends(c, dim) && band.Get(dim) > 0.0;
      AsksIsContends(c, dim);
      FieldsByAxis(c, NO_GRANT, band, dim);
    }
    if dim :| Asks(c, dim) && BandOn(band, dim) > 0.0 {
      AsksIsContends(c, dim);
      FieldsByAxis(c, NO_GRANT, band, dim);
    }
  }

  /** An axis asked for without bound or not at all is granted nothing. */
  lemma UnaskedGetsNothing(claims: seq<DemandVector>, band: Bands, i: nat, dim: Dim)
    requires i < |claims| && (DemandOn(claims[i], dim) == 0 || DemandOn(claims[i], dim) == U64_MAX)
    ensures GrantOn(AllocateDrf(band, claims)[i], dim) == 0
  {
    hide EqualShare, DominantRatio, Over;
    AsksIsContends(claims[i], dim);
    GrantedIs(claims, band, dim, i);
    FieldsByAxis(claims[i], AllocateDrf(band, claims)[i], band, dim);
    if EqualShare(claims, band).Some? {
      TimesSign(EqualShare(claims, band).value, 0.0);
    }
  }

  /** A finite demand on an axis with a band is given a positive amount of it, before
      flooring. */
  lemma AskedGetsSome(claims: seq<DemandVector>, band: Bands, i: nat, dim: Dim)
    requires i < |claims| && Asks(claims[i], dim) && BandOn(band, dim) > 0.0
    ensures EqualShare(claims, band).Some? && Exact(claims[i], band, EqualShare(claims, band).value, dim) > 0.0
  {
    hide EqualShare, DominantRatio, PerShare, Times, Over, Participates;
    AsksIsContends(claims[i], dim);
    FieldsByAxis(claims[i], NO_GRANT, band, dim);
    TakesPartIff(claims[i], band);
    SomeoneShares(claims, band);
    FirstSaturation(claims, band, EqualShare(claims, band).value);
    PerShareBounds(claims[i], band, dim);
    TimesSign(EqualShare(claims, band).value, PerShare(claims[i], band, dim));
  }

  // ---- a claimant that asks for nothing -------------------------------------

  ghost predicate AsksNothing(c: DemandVector) {
    forall dim: Dim :: DemandOn(c, dim) == 0 || DemandOn(c, dim) == U64_MAX
  }

  /** It is granted nothing at all. */
  lemma NothingAskedNothingGranted(claims: seq<DemandVector>, band: Bands, i: nat)
    requires i < |claims| && AsksNothing(claims[i])
    ensures AllocateDrf(band, claims)[i] == GrantVector(0, 0, 0, 0)
  {
    hide AllocateDrf;
    UnaskedGetsNothing(claims, band, i, Storage);
    UnaskedGetsNothing(claims, band, i, Cpu);
    UnaskedGetsNothing(claims, band, i, Bandwidth);
    UnaskedGetsNothing(claims, band, i, RequestRate);
  }

  lemma PullsNothing(c: DemandVector, band: Bands, dim: Dim)
    requires AsksNothing(c)
    ensures PerShare(c, band, dim) == 0.0
  {
    hide DominantRatio, Over;
    assert DemandOn(c, dim) == 0 || DemandOn(c, dim) == U64_MAX;
    AsksIsContends(c, dim);
  }

  lemma {:induction false} RSumConcat(a: seq<real>, b: seq<real>)
    ensures RSum(a + b) == RSum(a) + RSum(b)
  {
    if b == [] {
      assert a + b == a;
    } else {
      var k := |b| - 1;
      RSumConcat(a, b[..k]);
      assert (a + b)[..|a| + k] == a + b[..k];
    }
  }

  function Without<T>(s: seq<T>, i: nat): (r: seq<T>)
    requires i < |s|
  {
    s[..i] + s[i + 1..]
  }

  lemma SamePulls(claims: seq<DemandVector>, band: Bands, i: nat, dim: Dim)
    requires i < |claims| && AsksNothing(claims[i])
    ensures RSum(PerShares(Without(claims, i), band, dim)) == RSum(PerShares(claims, band, dim))
  {
    hide PerShare, RSum;
    var a, b := PerShares(claims, band, dim), PerShares(Without(claims, i), band, dim);
    PullsNothing(claims[i], band, dim);
    assert a == a[..i] + a[i..] && b == a[..i] + a[i + 1..];
    RSumConcat(a[..i], a[i..]);
    RSumConcat(a[..i], a[i + 1..]);
    assert a[i..] == [0.0] + a[i + 1..];
    RSumConcat([0.0], a[i + 1..]);
    OneZero();
  }

  lemma OneZero()
    ensures RSum([0.0]) == 0.0
  {
    assert [0.0][..0] == [];
  }

  /** Leaving it out changes nobody else's vector. */
  lemma NothingAskedNothingChanged(claims: seq<DemandVector>, band: Bands, i: nat)
    requires i < |claims| && AsksNothing(claims[i])
    ensures AllocateDrf(band, Without(claims, i)) == Without(AllocateDrf(band, claims), i)
  {
    hide PerShares, RSum, GrantTo, Over;
    forall dim: Dim ensures SaturatesAt(Without(claims, i), band, dim) == SaturatesAt(claims, band, dim) {
      SamePulls(claims, band, i, dim);
    }
    hide SaturatesAt;
    assert EqualShare(Without(claims, i), band) == EqualShare(claims, band);
    hide EqualShare;
    var all, fewer := AllocateDrf(band, claims), AllocateDrf(band, Without(claims, i));
    forall k | 0 <= k < |fewer| ensures fewer[k] == Without(all, i)[k] {
    }
  }

  /** The one claimant asking for storage takes it all, next to any that asks without
      bound. */
  lemma UnboundedTakesNothing(c: DemandVector, band: Bands)
    requires AsksNothing(c) && 0.0 < band.storage <= U64_MAX as real
    ensures AllocateDrf(band, [c, StorageOnly(50)])[0] == GrantVector(0, 0, 0, 0)
    ensures AllocateDrf(band, [c, StorageOnly(50)])[1].storage == band.storage.Floor
  {
    hide EqualShare, AllocateDrf, Participates;
    var d := StorageOnly(50);
    NothingAskedNothingGranted([c, d], band, 0);
    NothingAskedNothingChanged([c, d], band, 0);
    assert Without([c, d], 0) == [d];
    TakesPartIff(d, band);
    assert Asks(d, Storage);
    SoleShare(d, band);
    SoleTakesAll(d, band);
  }

  function StorageOnly(n: u64): (c: DemandVector) {
    var none := Absent();
    DemandVector(none.(weight := 1, demand := n), none, none, none)
  }

  function Absent(): (d: WaterFill.Demand) {
    WaterFill.Demand(0, 0, 0, 0)
  }

  lemma SoleTakesAll(d: DemandVector, band: Bands)
    requires Participates(d, band) && EqualShare([d], band) == Some(1.0) && d == StorageOnly(50)
    requires 0.0 < band.storage <= U64_MAX as real
    ensures AllocateDrf(band, [d])[0].storage == band.storage.Floor
  {
    hide EqualShare, DominantRatio;
    forall dim ensures Asks(d, dim) <==> dim == Storage {
    }
    FieldsByAxis(d, AllocateDrf(band, [d])[0], band, Storage);
    AsksIsContends(d, DominantDim(d, band));
    PerShareBounds(d, band, Storage);
    hide PerShare;
    TimesOne(band.storage);
    GrantedIs([d], band, Storage, 0);
  }
}
