/** What the per-axis fabric grants, on the claimants' own fields: each axis of each
    vector is the split of the parent's whole grant on that axis by the children's
    demands on it. */
module FabricFields {
  import opened Machine
  import opened Sums
  import opened WaterFill
  import opened WaterFillLaws
  import opened WaterFillFields
  import opened Claimants
  import opened Forest
  import opened Hierarchy
  import opened Fabric
  import opened FabricKernel
  import Drf
  import DrfFabric

  /** The claimant's demand on an axis. */
  function Asked(q: Quinhao, dim: Dim): (d: Demand) {
    match dim
    case Storage => q.demand.storage
    case Cpu => q.demand.cpu
    case Bandwidth => q.demand.bandwidth
    case RequestRate => q.demand.requestRate
  }

  /** The children of `p`, in claimant order, with what each asks for on an axis. */
  ghost predicate ChildrenAsk(cs: seq<Quinhao>, p: Option<string>, dim: Dim, ids: seq<string>, demands: seq<Demand>)
    requires WellFormed(cs)
  {
    && |ids| == |demands| && ids == Kids(cs, p)
    && forall i :: 0 <= i < |ids| ==> ids[i] in ById(cs) && demands[i] == Asked(ById(cs)[ids[i]], dim)
  }

  /** What `p` has to divide on an axis: all it was granted, or the pool. */
  ghost function Whole(cs: seq<Quinhao>, dim: Dim, pool: nat, p: Option<string>): (band: nat)
    requires WellFormed(cs) && (p.Some? ==> p.value in ById(cs))
  {
    match p
    case None => pool
    case Some(id) => GrantOf(cs, dim, pool, id)
  }

  lemma DemandsAreAsked(cs: seq<Quinhao>, dim: Dim, p: Option<string>, ids: seq<string>, demands: seq<Demand>)
    requires WellFormed(cs) && ChildrenAsk(cs, p, dim, ids, demands)
    ensures forall band: nat :: LevelShares(cs, dim, p, band) == Allocate(demands, band)
  {
    hide Allocate, Kids, ById, WellFormed;
    ChildIdsOf(cs, p);
    assert DemandsOf(ById(cs), Kids(cs, p), dim) == demands;
  }

  lemma BandIsWhole(cs: seq<Quinhao>, dim: Dim, pool: nat, p: Option<string>)
    requires WellFormed(cs) && (p.Some? ==> p.value in ById(cs))
    ensures BandOf(Ledger(cs, dim, pool), pool, p) == Whole(cs, dim, pool, p)
  {
    hide GrantOf, ById, WellFormed;
  }

  /** Siblings are granted exactly the single-level split of the whole of their parent's
      grant by their own demands. */
  lemma SiblingsSplitTheWhole(cs: seq<Quinhao>, dim: Dim, pool: nat, p: Option<string>, ids: seq<string>,
      demands: seq<Demand>)
    requires WellFormed(cs) && (p.Some? ==> p.value in ById(cs)) && ChildrenAsk(cs, p, dim, ids, demands)
    ensures forall i :: 0 <= i < |ids| ==>
      GrantOf(cs, dim, pool, ids[i]) == Allocate(demands, Whole(cs, dim, pool, p))[i]
    ensures KidGrants(cs, p, Ledger(cs, dim, pool)) == Allocate(demands, Whole(cs, dim, pool, p))
  {
    hide Allocate, GrantOf, Kids, ById, WellFormed, LevelShares, Whole, BandOf, IsLedger;
    DemandsAreAsked(cs, dim, p, ids, demands);
    BandIsWhole(cs, dim, pool, p);
    SiblingsSplitTheBand(cs, dim, pool, p);
    forall i | 0 <= i < |ids|
      ensures GrantOf(cs, dim, pool, ids[i]) == Allocate(demands, Whole(cs, dim, pool, p))[i]
    {
      assert ids[i] in Kids(cs, p);
      assert KidGrants(cs, p, Ledger(cs, dim, pool))[i] == Ledger(cs, dim, pool)[ids[i]];
    }
  }

  /** Where their floors fit, siblings together hold exactly their parent's whole grant,
      or all that is due to them. */
  lemma SiblingsHoldTheWhole(cs: seq<Quinhao>, dim: Dim, pool: nat, p: Option<string>, ids: seq<string>,
      demands: seq<Demand>)
    requires WellFormed(cs) && (p.Some? ==> p.value in ById(cs)) && ChildrenAsk(cs, p, dim, ids, demands)
    requires Sum(Mins(demands)) < Whole(cs, dim, pool, p)
    ensures forall id :: id in Kids(cs, p) ==> id in Ledger(cs, dim, pool)
    ensures var band := Whole(cs, dim, pool, p);
            Sum(KidGrants(cs, p, Ledger(cs, dim, pool)))
                == if band <= Sum(Dues(demands)) then band else Sum(Dues(demands))
  {
    hide Allocate, GrantOf, Kids, ById, WellFormed, Whole, Sum, Due, IsLedger;
    SiblingsSplitTheBand(cs, dim, pool, p);
    SiblingsSplitTheWhole(cs, dim, pool, p, ids, demands);
    ConservationOfDues(demands, Whole(cs, dim, pool, p));
  }

  /** An only child that takes anything is granted all its parent was. */
  lemma OnlyChildInherits(cs: seq<Quinhao>, dim: Dim, pool: u64, p: Option<string>, id: string)
    requires WellFormed(cs) && (p.Some? ==> p.value in ById(cs)) && Kids(cs, p) == [id] && id in ById(cs)
    requires var d := Asked(ById(cs)[id], dim); d.weight > 0 && d.min == 0 && d.max == U64_MAX && d.demand == U64_MAX
    requires Whole(cs, dim, pool, p) <= U64_MAX
    ensures GrantOf(cs, dim, pool, id) == Whole(cs, dim, pool, p)
  {
    var d, band := Asked(ById(cs)[id], dim), Whole(cs, dim, pool, p);
    hide GrantOf, Kids, ById, WellFormed, Whole, Allocate;
    SiblingsSplitTheWhole(cs, dim, pool, p, [id], [d]);
    TakesAnything(d, band);
  }

  lemma TakesAnything(d: Demand, band: u64)
    requires d.weight > 0 && d.min == 0 && d.max == U64_MAX && d.demand == U64_MAX
    ensures Allocate([d], band) == [band]
  {
    hide Allocate;
    if band > 0 {
      AloneGetsAll(d, band);
    } else {
      BandBounded([d], band);
      One(Allocate([d], band));
    }
  }

  /** The ledger the allocator returns, field by field. */
  lemma DeliveredOnFields(cs: seq<Quinhao>, m: map<string, GrantVector>, storage: u64, cpu: u64, bandwidth: u64,
      rate: u64, id: string)
    requires WellFormed(cs) && id in ById(cs)
    requires OwedOn(cs, m, Storage, storage) && OwedOn(cs, m, Cpu, cpu)
    requires OwedOn(cs, m, Bandwidth, bandwidth) && OwedOn(cs, m, RequestRate, rate)
    ensures id in m
    ensures m[id].storage == GrantOf(cs, Storage, storage, id) && m[id].cpu == GrantOf(cs, Cpu, cpu, id)
    ensures m[id].bandwidth == GrantOf(cs, Bandwidth, bandwidth, id) && m[id].requestRate
        == GrantOf(cs, RequestRate, rate, id)
  {
    hide GrantOf, ById, WellFormed;
  }

  // ---- the joint fabric ------------------------------------------------------

  /** The bands a granted vector is, axis by axis. */
  function BandsOf(g: GrantVector): (b: Drf.Bands) {
    Drf.Bands(g.storage as real, g.cpu as real, g.bandwidth as real, g.requestRate as real)
  }

  /** Siblings are granted exactly the flat kernel's answer to their own demands on all
      of their parent's vector, or on the pool. */
  lemma SiblingsSplitTheVector(cs: seq<Quinhao>, pool: Drf.Bands, p: Option<string>, claims: seq<DemandVector>)
    requires WellFormed(cs) && (p.Some? ==> p.value in ById(cs)) && |claims| == |Kids(cs, p)|
    requires forall i :: 0 <= i < |claims| ==>
      Kids(cs, p)[i] in ById(cs) && claims[i] == ById(cs)[Kids(cs, p)[i]].demand
    ensures var band := if p.None? then pool else BandsOf(DrfFabric.DrfGrantOf(cs, pool, p.value));
            forall i :: 0 <= i < |claims| ==>
              DrfFabric.DrfGrantOf(cs, pool, Kids(cs, p)[i]) == Drf.AllocateDrf(band, claims)[i]
  {
    hide Kids, ById, WellFormed, DrfFabric.DrfGrantOf, Drf.AllocateDrf;
    ChildIdsOf(cs, p);
    assert DrfFabric.KidVectors(cs, p) == claims;
    DrfFabric.SiblingsSplitJointly(cs, pool, p);
  }
}
