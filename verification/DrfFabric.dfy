/** The hierarchical dominant-resource allocator: one joint call per level, each
    claimant's grant vector the bands its children split. */
module DrfFabric {
  import opened Machine
  import opened Sums
  import opened Claimants
  import opened Forest
  import opened Hierarchy
  import Fabric
  import opened Drf
  import opened DrfLaws

  function VectorsOf(byId: map<string, Quinhao>, kids: seq<string>): (r: seq<DemandVector>)
    requires forall id :: id in kids ==> id in byId
    ensures |r| == |kids|
    ensures forall i :: 0 <= i < |r| ==> r[i] == byId[kids[i]].demand
  {
    seq(|kids|, i requires 0 <= i < |kids| && kids[i] in byId => byId[kids[i]].demand)
  }

  ghost function KidVectors(cs: seq<Quinhao>, p: Option<string>): (r: seq<DemandVector>)
    requires WellFormed(cs)
    ensures |r| == |Kids(cs, p)|
  {
    ChildIds(cs, p);
    VectorsOf(ById(cs), Kids(cs, p))
  }

  ghost function DrfGrantOf(cs: seq<Quinhao>, pool: Bands, id: string): (r: GrantVector)
    requires WellFormed(cs) && id in ById(cs)
    decreases (ResolvedIsClosed(cs); Depth(ById(cs), id))
  {
    ResolvedIsClosed(cs);
    ChildDepth(ById(cs), id);
    var p := ById(cs)[id].parent;
    ChildIds(cs, p);
    var band := if p.None? then pool else AsBands(DrfGrantOf(cs, pool, p.value));
    AllocateDrf(band, KidVectors(cs, p))[Fabric.IndexIn(Kids(cs, p), id)]
  }

  ghost function DrfLedger(cs: seq<Quinhao>, pool: Bands): (g: map<string, GrantVector>)
    requires WellFormed(cs)
    ensures g.Keys == ById(cs).Keys
    ensures forall id :: id in g ==> g[id] == DrfGrantOf(cs, pool, id)
  {
    map id | id in ById(cs) :: DrfGrantOf(cs, pool, id)
  }

  /** What `p` has to split on every axis. */
  ghost function LevelBands(cs: seq<Quinhao>, pool: Bands, p: Option<string>): (r: Bands)
    requires WellFormed(cs) && (p.Some? ==> p.value in ById(cs))
  {
    if p.None? then pool else AsBands(DrfGrantOf(cs, pool, p.value))
  }

  ghost function AxisLedger(cs: seq<Quinhao>, pool: Bands, dim: Dim): (g: map<string, nat>)
    requires WellFormed(cs)
    ensures IsLedger(cs, g)
    ensures forall id :: id in g ==> g[id] == DrfGrantOf(cs, pool, id).Get(dim)
  {
    var g := DrfLedger(cs, pool);
    map id | id in g.Keys :: g[id].Get(dim)
  }

  lemma DrfGrantUnfolds(cs: seq<Quinhao>, pool: Bands, id: string)
    requires WellFormed(cs) && id in ById(cs)
    ensures var p := ById(cs)[id].parent;
            && (p.Some? ==> p.value in ById(cs)) && id in Kids(cs, p)
            && DrfGrantOf(cs, pool, id)
               == AllocateDrf(LevelBands(cs, pool, p), KidVectors(cs, p))[Fabric.IndexIn(Kids(cs, p), id)]
  {
    hide AllocateDrf;
    ResolvedIsClosed(cs);
    ChildDepth(ById(cs), id);
    ChildIds(cs, ById(cs)[id].parent);
  }

  /** Siblings hold exactly the flat kernel's answer on their parent's vector; the
      top level is the flat kernel on the pool. */
  lemma SiblingsSplitJointly(cs: seq<Quinhao>, pool: Bands, p: Option<string>)
    requires WellFormed(cs) && (p.Some? ==> p.value in ById(cs))
    ensures forall i :: 0 <= i < |Kids(cs, p)| ==>
      Kids(cs, p)[i] in ById(cs)
      && DrfGrantOf(cs, pool, Kids(cs, p)[i]) == AllocateDrf(LevelBands(cs, pool, p), KidVectors(cs, p))[i]
  {
    hide Kids, ById, WellFormed, DrfGrantOf, AllocateDrf, KidVectors, LevelBands;
    Fabric.ChildIdsOf(cs, p);
    Fabric.KidsDistinct(cs, p);
    var kids := Kids(cs, p);
    forall i | 0 <= i < |kids|
      ensures kids[i] in ById(cs)
      ensures DrfGrantOf(cs, pool, kids[i]) == AllocateDrf(LevelBands(cs, pool, p), KidVectors(cs, p))[i]
    {
      assert kids[i] in kids;
      assert Fabric.IndexIn(kids, kids[i]) == i;
      DrfGrantUnfolds(cs, pool, kids[i]);
    }
  }

  // ---- the tree bound ----------------------------------------------------

  /** On `dim`, `p`'s children have a band to split, or are due less than one unit
      each. */
  ghost predicate LevelFits(cs: seq<Quinhao>, pool: Bands, p: Option<string>, dim: Dim)
    requires WellFormed(cs) && (p.Some? ==> p.value in ById(cs))
  {
    var band, claims := LevelBands(cs, pool, p), KidVectors(cs, p);
    band.Get(dim) > 0.0 || EqualShare(claims, band).None?
    || forall i :: 0 <= i < |claims| ==> BelowOneUnit(claims[i], band, EqualShare(claims, band).value, dim)
  }

  lemma LevelBandIs(cs: seq<Quinhao>, pool: Bands, p: Option<string>, dim: Dim)
    requires WellFormed(cs) && (p.Some? ==> p.value in ById(cs)) && pool.Get(dim) >= 0.0
    ensures LevelBands(cs, pool, p).Get(dim) >= 0.0
    ensures BandOf(AxisLedger(cs, pool, dim), pool.Get(dim).Floor, p) == LevelBands(cs, pool, p).Get(dim).Floor
  {
    hide DrfGrantOf, ById, WellFormed;
  }

  lemma KidGrantsAre(cs: seq<Quinhao>, pool: Bands, p: Option<string>, dim: Dim)
    requires WellFormed(cs) && (p.Some? ==> p.value in ById(cs))
    ensures forall id :: id in Kids(cs, p) ==> id in AxisLedger(cs, pool, dim)
    ensures KidGrants(cs, p, AxisLedger(cs, pool, dim)) == GrantsOn(KidVectors(cs, p), LevelBands(cs, pool, p), dim)
  {
    hide Kids, ById, WellFormed, DrfGrantOf, AllocateDrf, KidVectors, LevelBands;
    Fabric.ChildIdsOf(cs, p);
    SiblingsSplitJointly(cs, pool, p);
  }

  lemma LevelFitsIff(cs: seq<Quinhao>, pool: Bands, p: Option<string>, dim: Dim)
    requires WellFormed(cs) && (p.Some? ==> p.value in ById(cs)) && pool.Get(dim) >= 0.0
    requires forall id :: id in Kids(cs, p) ==> id in AxisLedger(cs, pool, dim)
    ensures Sum(KidGrants(cs, p, AxisLedger(cs, pool, dim)))
          <= BandOf(AxisLedger(cs, pool, dim), pool.Get(dim).Floor, p)
       <==> LevelFits(cs, pool, p, dim)
  {
    KidGrantsAre(cs, pool, p, dim);
    LevelBandIs(cs, pool, p, dim);
    hide Kids, ById, WellFormed, DrfGrantOf, AllocateDrf, KidVectors, LevelBands, EqualShare, BelowOneUnit, Sum;
    AxisBoundedIff(KidVectors(cs, p), LevelBands(cs, pool, p), dim);
    FloorBound(Sum(GrantsOn(KidVectors(cs, p), LevelBands(cs, pool, p), dim)), LevelBands(cs, pool, p).Get(dim));
  }

  lemma FloorBound(n: nat, b: real)
    requires b >= 0.0
    ensures n as real <= b <==> n <= b.Floor
  {
  }

  /** The tree bound holds on an axis exactly when every level fits on it. */
  lemma DrfTreeRespectingIff(cs: seq<Quinhao>, pool: Bands, dim: Dim)
    requires WellFormed(cs) && pool.Get(dim) >= 0.0
    ensures TreeRespecting(cs, AxisLedger(cs, pool, dim), pool.Get(dim).Floor)
       <==> forall p: Option<string> :: (p.Some? ==> p.value in ById(cs)) ==> LevelFits(cs, pool, p, dim)
  {
    hide LevelFits, Kids, ById, WellFormed, DrfGrantOf, Sum;
    var g := AxisLedger(cs, pool, dim);
    forall p: Option<string> | p.Some? ==> p.value in ById(cs)
      ensures forall id :: id in Kids(cs, p) ==> id in g
      ensures Sum(KidGrants(cs, p, g)) <= BandOf(g, pool.Get(dim).Floor, p) <==> LevelFits(cs, pool, p, dim)
    {
      KidGrantsAre(cs, pool, p, dim);
      LevelFitsIff(cs, pool, p, dim);
    }
  }

  /** Every axis some claimant contends on has a band at that claimant's level. */
  ghost predicate DemandedAxesHaveBands(cs: seq<Quinhao>, pool: Bands)
    requires WellFormed(cs)
  {
    forall id, dim :: id in ById(cs) && Contends(ById(cs)[id].demand, dim) ==>
      (ById(cs)[id].parent.Some? ==> ById(cs)[id].parent.value in ById(cs))
      && LevelBands(cs, pool, ById(cs)[id].parent).Get(dim) > 0.0
  }

  lemma DemandedMeansFits(cs: seq<Quinhao>, pool: Bands, p: Option<string>, dim: Dim)
    requires WellFormed(cs) && DemandedAxesHaveBands(cs, pool) && (p.Some? ==> p.value in ById(cs))
    ensures LevelFits(cs, pool, p, dim)
  {
    hide LevelBands, EqualShare, DominantRatio, Contends, DrfGrantOf, Participates;
    ChildIds(cs, p);
    var kids, claims := Kids(cs, p), KidVectors(cs, p);
    forall i | 0 <= i < |claims| ensures LevelBands(cs, pool, p).Get(dim) > 0.0 || !Contends(claims[i], dim) {
      assert kids[i] in kids;
    }
  }

  /** When every demanded axis has a band at its level, claimants that are not each
      other's ancestors are together granted at most the pool on every axis. */
  lemma DrfAntichainBounded(cs: seq<Quinhao>, pool: Bands, dim: Dim, s: set<string>)
    requires WellFormed(cs) && Closed(ById(cs)) && s <= ById(cs).Keys && Antichain(ById(cs), s)
    requires pool.Get(dim) >= 0.0 && DemandedAxesHaveBands(cs, pool)
    ensures Total(s, AxisLedger(cs, pool, dim)) as real <= pool.Get(dim)
  {
    DrfTreeRespectingIff(cs, pool, dim);
    forall p: Option<string> | p.Some? ==> p.value in ById(cs) ensures LevelFits(cs, pool, p, dim) {
      DemandedMeansFits(cs, pool, p, dim);
    }
    AntichainBounded(cs, AxisLedger(cs, pool, dim), pool.Get(dim).Floor, s);
  }
}
