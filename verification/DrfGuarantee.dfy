/** What the hierarchical dominant-resource allocator guarantees from the pool and
    the demands alone: an m-th of everything, level by level.  Where that guarantee
    reaches every demanded axis the tree bound holds; where a parent does not ask for
    an axis its child asks for, it need not, whatever the pool. */
module DrfGuarantee {
  import opened Machine
  import opened Sums
  import opened RealSums
  import WaterFill
  import opened Claimants
  import opened Forest
  import opened Hierarchy
  import Fabric
  import opened Drf
  import opened DrfLaws
  import opened DrfFabric

  // ---- one level ---------------------------------------------------------

  /** The claimant finds a band on every axis it contends on. */
  ghost predicate Banded(c: DemandVector, band: Bands) {
    forall dim :: Contends(c, dim) ==> band.Get(dim) > 0.0
  }

  ghost predicate BandsAtMost(low: Bands, high: Bands) {
    forall dim: Dim :: low.Get(dim) <= high.Get(dim)
  }

  lemma MoreBandLessRatio(c: DemandVector, low: Bands, high: Bands)
    requires Banded(c, low) && BandsAtMost(low, high)
    ensures DominantRatio(c, high) <= DominantRatio(c, low)
  {
    if DominantRatio(c, high) > 0.0 {
      var dim := DominantDim(c, high);
      RatioFalls(c.Get(dim).demand as real, low.Get(dim), high.Get(dim));
      RatioAtMostDominant(c, low, dim);
    } else {
      RatioAtMostDominant(c, low, Storage);
    }
  }

  lemma RatioFalls(d: real, low: real, high: real)
    requires d >= 0.0 && 0.0 < low <= high
    ensures Over(d, high) <= Over(d, low)
  {
    OverTimes(d, low);
    OverSign(d, low);
    TimesLe(Over(d, low), low, high);
    OverAtMost(d, high, Over(d, low));
  }

  lemma MoreBandMoreExact(c: DemandVector, low: Bands, high: Bands, t: real, s: real, dim: Dim)
    requires Banded(c, low) && BandsAtMost(low, high) && 0.0 < t <= s
    ensures Exact(c, low, t, dim) <= Exact(c, high, s, dim)
  {
    hide DominantRatio, Times, Over;
    PerShareBounds(c, low, dim);
    PerShareBounds(c, high, dim);
    if Contends(c, dim) {
      ParticipatesIff(c, low);
      ParticipatesIff(c, high);
      MoreBandLessRatio(c, low, high);
      RatioFalls(c.Get(dim).demand as real, DominantRatio(c, high), DominantRatio(c, low));
    }
    hide PerShare;
    TimesLe(t, PerShare(c, low, dim), PerShare(c, high, dim));
    TimesLe(PerShare(c, high, dim), t, s);
  }

  lemma MoreExactMoreGranted(c: DemandVector, low: Bands, high: Bands, t: real, s: real, dim: Dim)
    requires Exact(c, low, t, dim) <= Exact(c, high, s, dim)
    ensures Granted(c, low, t, dim) <= Granted(c, high, s, dim)
  {
    hide Exact;
  }

  /** An m-th of the bands, cut in the claimant's own shape; nothing where an axis it
      contends on has no band. */
  ghost function GuaranteedTo(c: DemandVector, band: Bands, m: nat): (g: GrantVector) {
    if m > 0 && Banded(c, band) then GrantTo(c, band, Over(1.0, m as real)) else NO_GRANT
  }

  lemma {:induction false} ParticipantsAtMost(claims: seq<DemandVector>, band: Bands)
    ensures Participants(claims, band) <= |claims|
  {
    hide Participates;
    if claims != [] {
      ParticipantsAtMost(claims[..|claims| - 1], band);
    }
  }

  lemma ShareAtLeast(claims: seq<DemandVector>, band: Bands, s: real)
    requires EqualShare(claims, band) == Some(s)
    ensures |claims| > 0 && 0.0 < Over(1.0, |claims| as real) <= s
  {
    ShareBetween(claims, band, s);
    ParticipantsAtMost(claims, band);
    hide EqualShare, Participants, Times, Over;
    TimesSign(s, 0.0);
    TimesLe(s, Participants(claims, band) as real, |claims| as real);
    OverSign(1.0, |claims| as real);
    OverAtMost(1.0, |claims| as real, s);
  }

  lemma NothingContended(c: DemandVector, band: Bands, s: real, dim: Dim)
    requires !Contends(c, dim)
    ensures Granted(c, band, s, dim) == 0
  {
  }

  lemma GuaranteeOn(c: DemandVector, band: Bands, m: nat, dim: Dim)
    ensures GuaranteedTo(c, band, m).Get(dim)
         == if m > 0 && Banded(c, band) then Granted(c, band, Over(1.0, m as real), dim) else 0
  {
    hide Granted, Banded, Over;
  }

  lemma GrantOn(claims: seq<DemandVector>, band: Bands, i: nat, dim: Dim)
    requires i < |claims|
    ensures AllocateDrf(band, claims)[i].Get(dim)
         == if EqualShare(claims, band).None? then 0 else Granted(claims[i], band, EqualShare(claims, band).value, dim)
  {
    hide AllocateDrf, EqualShare, Granted;
    GrantedIs(claims, band, dim, i);
  }

  lemma GuaranteeShares(claims: seq<DemandVector>, low: Bands, high: Bands, i: nat, dim: Dim)
    requires i < |claims| && BandsAtMost(low, high) && Banded(claims[i], low) && Contends(claims[i], dim)
    ensures EqualShare(claims, high).Some?
    ensures Granted(claims[i], low, Over(1.0, |claims| as real), dim)
         <= Granted(claims[i], high, EqualShare(claims, high).value, dim)
  {
    hide EqualShare, Granted, DominantRatio, Over, Exact, Participates, Contends;
    ParticipatesIff(claims[i], high);
    assert high.Get(dim) > 0.0;
    SomeoneShares(claims, high);
    var s := EqualShare(claims, high).value;
    ShareAtLeast(claims, high, s);
    MoreBandMoreExact(claims[i], low, high, Over(1.0, |claims| as real), s, dim);
    MoreExactMoreGranted(claims[i], low, high, Over(1.0, |claims| as real), s, dim);
  }

  /** On any larger bands the kernel grants at least the guarantee on the smaller. */
  lemma LevelGuarantee(claims: seq<DemandVector>, low: Bands, high: Bands, i: nat, dim: Dim)
    requires i < |claims| && BandsAtMost(low, high)
    ensures GuaranteedTo(claims[i], low, |claims|).Get(dim) <= AllocateDrf(high, claims)[i].Get(dim)
  {
    hide *;
    GuaranteeOn(claims[i], low, |claims|, dim);
    GrantOn(claims, high, i, dim);
    if !Contends(claims[i], dim) {
      NothingContended(claims[i], low, Over(1.0, |claims| as real), dim);
    } else if Banded(claims[i], low) {
      GuaranteeShares(claims, low, high, i, dim);
    }
  }

  // ---- down the tree -----------------------------------------------------

  /** The guarantee of a claimant: an m-th of its parent's guarantee, for m siblings. */
  ghost function Guaranteed(cs: seq<Quinhao>, pool: Bands, id: string): (g: GrantVector)
    requires WellFormed(cs) && id in ById(cs)
    decreases (ResolvedIsClosed(cs); Depth(ById(cs), id))
  {
    ResolvedIsClosed(cs);
    ChildDepth(ById(cs), id);
    var p := ById(cs)[id].parent;
    GuaranteedTo(ById(cs)[id].demand, if p.None? then pool else AsBands(Guaranteed(cs, pool, p.value)), |Kids(cs, p)|)
  }

  ghost function GuaranteedBands(cs: seq<Quinhao>, pool: Bands, p: Option<string>): (b: Bands)
    requires WellFormed(cs) && (p.Some? ==> p.value in ById(cs))
  {
    if p.None? then pool else AsBands(Guaranteed(cs, pool, p.value))
  }

  lemma GuaranteedIs(cs: seq<Quinhao>, pool: Bands, id: string)
    requires WellFormed(cs) && id in ById(cs)
    ensures var p := ById(cs)[id].parent;
            && (p.Some? ==> p.value in ById(cs)) && Closed(ById(cs))
            && (p.Some? ==> Depth(ById(cs), p.value) < Depth(ById(cs), id))
            && Guaranteed(cs, pool, id)
                == GuaranteedTo(ById(cs)[id].demand, GuaranteedBands(cs, pool, p), |Kids(cs, p)|)
  {
    hide GuaranteedTo;
    ResolvedIsClosed(cs);
    ChildDepth(ById(cs), id);
  }

  lemma AsBandsAtMost(a: GrantVector, b: GrantVector)
    requires forall dim: Dim :: a.Get(dim) <= b.Get(dim)
    ensures BandsAtMost(AsBands(a), AsBands(b))
  {
    forall dim: Dim ensures AsBands(a).Get(dim) <= AsBands(b).Get(dim) {
      assert a.Get(dim) <= b.Get(dim);
    }
  }

  /** Sharing incentive down the tree: every claimant is granted its guarantee, on
      every axis, at any depth. */
  lemma {:induction false} GuaranteeHolds(cs: seq<Quinhao>, pool: Bands, id: string)
    requires WellFormed(cs) && id in ById(cs)
    ensures forall dim :: Guaranteed(cs, pool, id).Get(dim) <= DrfGrantOf(cs, pool, id).Get(dim)
    decreases (ResolvedIsClosed(cs); Depth(ById(cs), id))
  {
    hide *;
    GuaranteedIs(cs, pool, id);
    var p := ById(cs)[id].parent;
    if p.Some? {
      GuaranteeHolds(cs, pool, p.value);
    }
    LevelBandsAtLeast(cs, pool, p);
    GrantIs(cs, pool, id);
    forall dim ensures Guaranteed(cs, pool, id).Get(dim) <= DrfGrantOf(cs, pool, id).Get(dim) {
      LevelGuarantee(KidVectors(cs, p), GuaranteedBands(cs, pool, p), LevelBands(cs, pool, p),
          Fabric.IndexIn(Kids(cs, p), id), dim);
    }
  }

  lemma LevelBandsAtLeast(cs: seq<Quinhao>, pool: Bands, p: Option<string>)
    requires WellFormed(cs) && (p.Some? ==> p.value in ById(cs))
    requires p.Some? ==> forall dim :: Guaranteed(cs, pool, p.value).Get(dim) <= DrfGrantOf(cs, pool, p.value).Get(dim)
    ensures BandsAtMost(GuaranteedBands(cs, pool, p), LevelBands(cs, pool, p))
  {
    hide Guaranteed, DrfGrantOf, AsBands, WellFormed, ById, Bands.Get;
    if p.Some? {
      AsBandsAtMost(Guaranteed(cs, pool, p.value), DrfGrantOf(cs, pool, p.value));
    } else {
      SameBands(pool);
    }
  }

  lemma SameBands(b: Bands)
    ensures BandsAtMost(b, b)
  {
  }

  lemma GrantIs(cs: seq<Quinhao>, pool: Bands, id: string)
    requires WellFormed(cs) && id in ById(cs)
    ensures var p := ById(cs)[id].parent;
            && (p.Some? ==> p.value in ById(cs)) && id in Kids(cs, p)
            && |KidVectors(cs, p)| == |Kids(cs, p)| && Fabric.IndexIn(Kids(cs, p), id) < |Kids(cs, p)|
            && KidVectors(cs, p)[Fabric.IndexIn(Kids(cs, p), id)] == ById(cs)[id].demand
            && DrfGrantOf(cs, pool, id)
                == AllocateDrf(LevelBands(cs, pool, p), KidVectors(cs, p))[Fabric.IndexIn(Kids(cs, p), id)]
  {
    hide AllocateDrf, DrfGrantOf, LevelBands;
    DrfGrantUnfolds(cs, pool, id);
    ChildIds(cs, ById(cs)[id].parent);
  }

  /** On the pool and the demands alone: every axis a claimant contends on is
      guaranteed at least a unit to its parent (or has a pool). */
  ghost predicate GuaranteeCovers(cs: seq<Quinhao>, pool: Bands)
    requires WellFormed(cs)
  {
    forall id, dim :: id in ById(cs) && Contends(ById(cs)[id].demand, dim) ==>
      (ById(cs)[id].parent.Some? ==> ById(cs)[id].parent.value in ById(cs))
      && GuaranteedBands(cs, pool, ById(cs)[id].parent).Get(dim) > 0.0
  }

  /** Then the tree bound holds on every axis. */
  lemma GuaranteeBoundsTree(cs: seq<Quinhao>, pool: Bands, dim: Dim)
    requires WellFormed(cs) && pool.Get(dim) >= 0.0 && GuaranteeCovers(cs, pool)
    ensures DemandedAxesHaveBands(cs, pool)
    ensures TreeRespecting(cs, AxisLedger(cs, pool, dim), pool.Get(dim).Floor)
  {
    hide Guaranteed, DrfGrantOf, ById, WellFormed, Contends, LevelFits, LevelBands, GuaranteedBands, TreeRespecting;
    forall id, d | id in ById(cs) && Contends(ById(cs)[id].demand, d)
      ensures (ById(cs)[id].parent.Some? ==> ById(cs)[id].parent.value in ById(cs))
      ensures LevelBands(cs, pool, ById(cs)[id].parent).Get(d) > 0.0
    {
      var p := ById(cs)[id].parent;
      if p.Some? {
        GuaranteeHolds(cs, pool, p.value);
      }
      LevelBandsAtLeast(cs, pool, p);
    }
    DrfTreeRespectingIff(cs, pool, dim);
    forall p: Option<string> | p.Some? ==> p.value in ById(cs) ensures LevelFits(cs, pool, p, dim) {
      DemandedMeansFits(cs, pool, p, dim);
    }
  }

  /** And claimants that are not each other's ancestors share the pool. */
  lemma GuaranteeBoundsAntichains(cs: seq<Quinhao>, pool: Bands, dim: Dim, s: set<string>)
    requires WellFormed(cs) && Closed(ById(cs)) && s <= ById(cs).Keys && Antichain(ById(cs), s)
    requires pool.Get(dim) >= 0.0 && GuaranteeCovers(cs, pool)
    ensures Total(s, AxisLedger(cs, pool, dim)) as real <= pool.Get(dim)
  {
    GuaranteeBoundsTree(cs, pool, dim);
    DrfAntichainBounded(cs, pool, dim, s);
  }

  // ---- and where a parent does not ask -----------------------------------

  /** Fifty units of storage and no cpu. */
  function StorageOnly(): (r: DemandVector) {
    var none := WaterFill.Demand(0, 0, 0, 0);
    DemandVector(WaterFill.Demand(1, 0, U64_MAX, 50), none, none, none)
  }

  /** A child asking for cpu under a parent that does not. */
  function CpuUnderStorage(): (r: seq<Quinhao>) {
    [Quinhao("root", None, StorageOnly()), Quinhao("leaf", Some("root"), CpuWithoutBand())]
  }

  function Hundreds(): (r: Bands) {
    Bands(100.0, 100.0, 100.0, 100.0)
  }

  lemma TwoLevels()
    ensures var cs := CpuUnderStorage();
            && WellFormed(cs) && "root" in ById(cs) && "leaf" in ById(cs)
            && Kids(cs, None) == ["root"] && Kids(cs, Some("root")) == ["leaf"]
            && ById(cs)["root"] == cs[0] && ById(cs)["leaf"] == cs[1]
  {
    var cs := CpuUnderStorage();
    assert cs[..1] == [cs[0]] && cs[..1][..0] == [];
    var byId := ById(cs);
    assert ById(cs[..1]) == ById([])["root" := cs[0]];
    assert byId == map["root" := cs[0], "leaf" := cs[1]];
    assert Ancestor(byId, "root", 0) == Some("root") && Ancestor(byId, "leaf", 0) == Some("leaf");
    assert Ancestor(byId, "root", 1).None?;
    assert Ancestor(byId, "leaf", 1) == Some("root");
    assert Ancestor(byId, "leaf", 2).None?;
    forall id, k: nat | id in byId && k > 0 ensures Ancestor(byId, id, k) != Some(id) {
      if id == "root" {
        ChainEnds(byId, id, 1, k);
      } else if k > 1 {
        ChainEnds(byId, id, 2, k);
      }
    }
  }

  lemma RootGetsStorageOnly()
    ensures AllocateDrf(Hundreds(), [StorageOnly()]) == [GrantVector(100, 0, 0, 0)]
  {
    var c, band := StorageOnly(), Hundreds();
    assert Contends(c, Storage) && band.Get(Storage) > 0.0;
    ParticipatesIff(c, band);
    OverAtMost(50.0, 100.0, 0.5);
    assert DominantRatio(c, band) == 0.5;
    OverAtMost(50.0, 0.5, 100.0);
    SoleShare(c, band);
    hide EqualShare, DominantRatio;
    TimesOne(100.0);
    assert Granted(c, band, 1.0, Storage) == 100;
    NothingContended(c, band, 1.0, Cpu);
    NothingContended(c, band, 1.0, Bandwidth);
    NothingContended(c, band, 1.0, RequestRate);
  }

  /** With a hundred units of everything in the pool, a child is granted cpu under a
      parent that was granted none. */
  lemma ChildOvershootsParent()
    ensures WellFormed(CpuUnderStorage()) && "root" in ById(CpuUnderStorage()) && "leaf" in ById(CpuUnderStorage())
    ensures DrfGrantOf(CpuUnderStorage(), Hundreds(), "root") == GrantVector(100, 0, 0, 0)
    ensures DrfGrantOf(CpuUnderStorage(), Hundreds(), "leaf").cpu > 0
  {
    var cs := CpuUnderStorage();
    TwoLevels();
    hide ById, WellFormed, Kids, DrfGrantOf, AllocateDrf, GrantsOn;
    GrantIs(cs, Hundreds(), "root");
    GrantIs(cs, Hundreds(), "leaf");
    RootGetsStorageOnly();
    assert KidVectors(cs, None) == [StorageOnly()];
    assert LevelBands(cs, Hundreds(), Some("root")) == Bands(100.0, 0.0, 0.0, 0.0);
    assert KidVectors(cs, Some("root")) == [CpuWithoutBand()];
    OvershootsWithoutBand();
    LeafCpu();
  }

  lemma LeafCpu()
    requires Sum(GrantsOn([CpuWithoutBand()], Bands(100.0, 0.0, 0.0, 0.0), Cpu)) > 0
    ensures AllocateDrf(Bands(100.0, 0.0, 0.0, 0.0), [CpuWithoutBand()])[0].cpu > 0
  {
    hide AllocateDrf;
    var g := GrantsOn([CpuWithoutBand()], Bands(100.0, 0.0, 0.0, 0.0), Cpu);
    SumZero(g);
  }
}
