/** The hierarchical allocator: each dimension on its own, each claimant's grant the
    band its children split.  `GrantOf` says bottom-up what a claimant is owed; the
    recursion, which works top-down and writes a shared ledger, is proved to write
    exactly that. */
module Fabric {
  import opened Machine
  import opened Sums
  import opened WaterFill
  import WaterFillLaws
  import opened Claimants
  import opened Forest
  import opened Hierarchy

  // ---- what each claimant is owed ----------------------------------------

  function IndexIn(s: seq<string>, x: string): (i: nat)
    requires x in s
    ensures i < |s| && s[i] == x
  {
    if s[0] == x then 0 else 1 + IndexIn(s[1..], x)
  }

  function DemandsOf(byId: map<string, Quinhao>, kids: seq<string>, dim: Dim): (r: seq<Demand>)
    requires forall id :: id in kids ==> id in byId
    ensures |r| == |kids|
    ensures forall i :: 0 <= i < |r| ==> r[i] == byId[kids[i]].demand.Get(dim)
  {
    seq(|kids|, i requires 0 <= i < |kids| && kids[i] in byId => byId[kids[i]].demand.Get(dim))
  }

  /** How `band` splits among `p`'s children on one dimension. */
  ghost function LevelShares(cs: seq<Quinhao>, dim: Dim, p: Option<string>, band: nat): (r: seq<nat>)
    requires WellFormed(cs)
    ensures |r| == |Kids(cs, p)|
  {
    ChildIds(cs, p);
    Allocate(DemandsOf(ById(cs), Kids(cs, p), dim), band)
  }

  ghost function GrantOf(cs: seq<Quinhao>, dim: Dim, pool: nat, id: string): (r: nat)
    requires WellFormed(cs) && id in ById(cs)
    decreases (ResolvedIsClosed(cs); Depth(ById(cs), id))
  {
    ResolvedIsClosed(cs);
    ChildDepth(ById(cs), id);
    var p := ById(cs)[id].parent;
    ChildIds(cs, p);
    var band := if p.None? then pool else GrantOf(cs, dim, pool, p.value);
    LevelShares(cs, dim, p, band)[IndexIn(Kids(cs, p), id)]
  }

  ghost function Ledger(cs: seq<Quinhao>, dim: Dim, pool: nat): (g: map<string, nat>)
    requires WellFormed(cs)
    ensures IsLedger(cs, g)
    ensures forall id :: id in g ==> g[id] == GrantOf(cs, dim, pool, id)
  {
    map id | id in ById(cs) :: GrantOf(cs, dim, pool, id)
  }

  /** Siblings hold exactly their level's split of what their parent holds. */
  lemma SiblingsSplitTheBand(cs: seq<Quinhao>, dim: Dim, pool: nat, p: Option<string>)
    requires WellFormed(cs) && (p.Some? ==> p.value in ById(cs))
    ensures forall id :: id in Kids(cs, p) ==> id in Ledger(cs, dim, pool)
    ensures KidGrants(cs, p, Ledger(cs, dim, pool))
         == LevelShares(cs, dim, p, BandOf(Ledger(cs, dim, pool), pool, p))
  {
    hide LevelShares, Kids, ById, WellFormed, IsLedger;
    var g := Ledger(cs, dim, pool);
    LedgerFacts(cs, g, p);
    KidsDistinct(cs, p);
    var kids := Kids(cs, p);
    forall i | 0 <= i < |kids|
      ensures KidGrants(cs, p, g)[i] == LevelShares(cs, dim, p, BandOf(g, pool, p))[i]
    {
      assert kids[i] in kids;
      assert IndexIn(kids, kids[i]) == i;
      GrantUnfolds(cs, dim, pool, kids[i]);
    }
  }

  lemma KidsDistinct(cs: seq<Quinhao>, p: Option<string>)
    requires WellFormed(cs)
    ensures forall a, b :: 0 <= a < b < |Kids(cs, p)| ==> Kids(cs, p)[a] != Kids(cs, p)[b]
  {
    KidsAre(cs, p);
  }

  lemma GrantUnfolds(cs: seq<Quinhao>, dim: Dim, pool: nat, id: string)
    requires WellFormed(cs) && id in ById(cs)
    ensures var p := ById(cs)[id].parent;
            && (p.Some? ==> p.value in ById(cs)) && id in Kids(cs, p)
            && GrantOf(cs, dim, pool, id)
               == LevelShares(cs, dim, p, BandOf(Ledger(cs, dim, pool), pool, p))[IndexIn(Kids(cs, p), id)]
  {
    ResolvedIsClosed(cs);
    ChildDepth(ById(cs), id);
    ChildIds(cs, ById(cs)[id].parent);
  }

  /** No level hands out more than its parent holds, at any depth. */
  lemma FabricRespectsTree(cs: seq<Quinhao>, dim: Dim, pool: nat)
    requires WellFormed(cs)
    ensures TreeRespecting(cs, Ledger(cs, dim, pool), pool)
  {
    hide Kids, ById, WellFormed, Allocate;
    var g := Ledger(cs, dim, pool);
    forall p: Option<string> | (p.Some? ==> p.value in g) && (forall id :: id in Kids(cs, p) ==> id in g)
      ensures Sum(KidGrants(cs, p, g)) <= BandOf(g, pool, p)
    {
      SiblingsSplitTheBand(cs, dim, pool, p);
      ChildIdsOf(cs, p);
      WaterFillLaws.BandBounded(DemandsOf(ById(cs), Kids(cs, p), dim), BandOf(g, pool, p));
    }
  }

  lemma ChildIdsOf(cs: seq<Quinhao>, p: Option<string>)
    requires WellFormed(cs)
    ensures forall id :: id in Kids(cs, p) <==> id in ById(cs) && ById(cs)[id].parent == p
  {
    ChildIds(cs, p);
  }

  /** Hierarchical safety: on every dimension, claimants that are not each other's
      ancestors are together granted at most the pool's band. */
  lemma FabricAntichainBounded(cs: seq<Quinhao>, dim: Dim, pool: nat, s: set<string>)
    requires WellFormed(cs) && Closed(ById(cs)) && s <= ById(cs).Keys && Antichain(ById(cs), s)
    ensures Total(s, Ledger(cs, dim, pool)) <= pool
  {
    FabricRespectsTree(cs, dim, pool);
    AntichainBounded(cs, Ledger(cs, dim, pool), pool, s);
  }

  // ---- one axis never drags another --------------------------------------

  /** The same forest, asking the same on `dim`. */
  ghost predicate SameOn(cs: seq<Quinhao>, ds: seq<Quinhao>, dim: Dim) {
    && |cs| == |ds|
    && forall i :: 0 <= i < |cs| ==>
         cs[i].id == ds[i].id && cs[i].parent == ds[i].parent && cs[i].demand.Get(dim) == ds[i].demand.Get(dim)
  }

  lemma {:induction false} SameShape(cs: seq<Quinhao>, ds: seq<Quinhao>, dim: Dim)
    requires SameOn(cs, ds, dim)
    ensures ById(cs).Keys == ById(ds).Keys
    ensures forall id :: id in ById(cs) ==>
      ById(cs)[id].parent == ById(ds)[id].parent && ById(cs)[id].demand.Get(dim) == ById(ds)[id].demand.Get(dim)
    ensures forall p :: Kids(cs, p) == Kids(ds, p)
  {
    if cs != [] {
      SameShape(cs[..|cs| - 1], ds[..|ds| - 1], dim);
    }
  }

  lemma {:induction false} SameAncestors(b: map<string, Quinhao>, c: map<string, Quinhao>, id: string, k: nat)
    requires b.Keys == c.Keys && forall x :: x in b ==> b[x].parent == c[x].parent
    ensures Ancestor(b, id, k) == Ancestor(c, id, k)
  {
    if k > 0 {
      SameAncestors(b, c, id, k - 1);
    }
  }

  lemma SameWellFormed(cs: seq<Quinhao>, ds: seq<Quinhao>, dim: Dim)
    requires WellFormed(cs) && SameOn(cs, ds, dim)
    ensures WellFormed(ds)
  {
    SameShape(cs, ds, dim);
    forall i, j | 0 <= i < j < |ds| ensures ds[i].id != ds[j].id {
      assert cs[i].id != cs[j].id;
    }
    forall id, k: nat | id in ById(ds) && k > 0 ensures Ancestor(ById(ds), id, k) != Some(id) {
      SameAncestors(ById(cs), ById(ds), id, k);
    }
    forall i | 0 <= i < |ds| && ds[i].parent.Some? ensures ds[i].parent.value in ById(ds) {
      assert cs[i].parent.value in ById(cs);
    }
  }

  lemma SameLevel(cs: seq<Quinhao>, ds: seq<Quinhao>, dim: Dim, p: Option<string>, band: nat)
    requires WellFormed(cs) && WellFormed(ds) && SameOn(cs, ds, dim)
    ensures Kids(cs, p) == Kids(ds, p)
    ensures LevelShares(cs, dim, p, band) == LevelShares(ds, dim, p, band)
  {
    hide ById, Kids, Allocate;
    SameShape(cs, ds, dim);
    ChildIdsOf(cs, p);
    ChildIdsOf(ds, p);
    assert DemandsOf(ById(cs), Kids(cs, p), dim) == DemandsOf(ById(ds), Kids(ds, p), dim);
  }

  lemma SameParents(cs: seq<Quinhao>, ds: seq<Quinhao>, dim: Dim, id: string)
    requires SameOn(cs, ds, dim) && id in ById(cs)
    ensures id in ById(ds) && ById(cs)[id].parent == ById(ds)[id].parent
  {
    SameShape(cs, ds, dim);
  }

  lemma ParentIsHigher(cs: seq<Quinhao>, id: string)
    requires WellFormed(cs) && id in ById(cs)
    ensures Closed(ById(cs))
    ensures ById(cs)[id].parent.Some? ==>
      ById(cs)[id].parent.value in ById(cs) && Depth(ById(cs), ById(cs)[id].parent.value) < Depth(ById(cs), id)
  {
    ResolvedIsClosed(cs);
    ChildDepth(ById(cs), id);
  }

  lemma {:induction false} SameGrants(cs: seq<Quinhao>, ds: seq<Quinhao>, dim: Dim, pool: nat, id: string)
    requires WellFormed(cs) && WellFormed(ds) && SameOn(cs, ds, dim) && id in ById(cs)
    ensures id in ById(ds) && GrantOf(cs, dim, pool, id) == GrantOf(ds, dim, pool, id)
    decreases (ResolvedIsClosed(cs); Depth(ById(cs), id))
  {
    hide ById, Kids, LevelShares, GrantOf, SameOn, Depth, Closed;
    var p := ById(cs)[id].parent;
    SameParents(cs, ds, dim, id);
    ParentIsHigher(cs, id);
    if p.Some? {
      SameGrants(cs, ds, dim, pool, p.value);
    }
    GrantUnfolds(cs, dim, pool, id);
    GrantUnfolds(ds, dim, pool, id);
    SameLevel(cs, ds, dim, p, BandOf(Ledger(cs, dim, pool), pool, p));
  }

  /** A dimension's grants depend on that dimension's demands only: the same forest
      asking the same on `dim` is accepted too, and granted the same there. */
  lemma AxisIndependence(cs: seq<Quinhao>, ds: seq<Quinhao>, dim: Dim, pool: nat, id: string)
    requires WellFormed(cs) && SameOn(cs, ds, dim) && id in ById(cs)
    ensures WellFormed(ds) && id in ById(ds)
    ensures GrantOf(ds, dim, pool, id) == GrantOf(cs, dim, pool, id)
  {
    SameWellFormed(cs, ds, dim);
    SameGrants(cs, ds, dim, pool, id);
  }
}
