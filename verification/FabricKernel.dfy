/** `allocate_fabric`: parse the forest, then walk it once per dimension, writing
    every claimant's share into the ledger object and recursing with that share as
    the children's band. */
module FabricKernel {
  import opened Machine
  import opened WaterFill
  import WaterFillKernel
  import opened Claimants
  import opened Forest
  import opened Hierarchy
  import opened Fabric

  /** A claimant's vector in the ledger; all-zero if it has none. */
  function Lookup(m: map<string, GrantVector>, id: string): (r: GrantVector) {
    if id in m then m[id] else NO_GRANT
  }

  class FabricGrants {
    var grants: map<string, GrantVector>

    constructor ()
      ensures grants == map[]
    {
      grants := map[];
    }

    method SetDim(id: string, dim: Dim, v: u64)
      modifies this
      ensures grants == old(grants)[id := Lookup(old(grants), id).Set(dim, v)]
    {
      grants := grants[id := Lookup(grants, id).Set(dim, v)];
    }

    method Insert(id: string, v: GrantVector)
      modifies this
      ensures grants == old(grants)[id := v]
    {
      grants := grants[id := v];
    }
  }

  /** `after` is `before` with `dim` of every claimant in `ids` set from `g`, and
      nothing else touched. */
  ghost predicate Written(before: map<string, GrantVector>, after: map<string, GrantVector>,
                          ids: set<string>, dim: Dim, g: map<string, nat>) {
    && ids <= g.Keys && after.Keys == before.Keys + ids
    && (forall id :: id in ids ==> g[id] <= U64_MAX && after[id] == Lookup(before, id).Set(dim, g[id]))
    && (forall id :: id in before && id !in ids ==> after[id] == before[id])
  }

  lemma SetTwice(v: GrantVector, dim: Dim, a: u64)
    ensures v.Set(dim, a).Set(dim, a) == v.Set(dim, a)
  {
  }

  lemma WrittenInTurn(m0: map<string, GrantVector>, m1: map<string, GrantVector>, m2: map<string, GrantVector>,
                      s: set<string>, t: set<string>, dim: Dim, g: map<string, nat>)
    requires Written(m0, m1, s, dim, g) && Written(m1, m2, t, dim, g)
    ensures Written(m0, m2, s + t, dim, g)
  {
    forall id | id in s + t ensures g[id] <= U64_MAX && m2[id] == Lookup(m0, id).Set(dim, g[id]) {
      if id in t && id in s {
        SetTwice(Lookup(m0, id), dim, g[id]);
      }
    }
  }

  ghost predicate IsParsed(cs: seq<Quinhao>, forest: ParsedForest) {
    WellFormed(cs) && forest.byId == ById(cs) && IsChildIndex(cs, forest.children)
  }

  /** `p`'s descendants among the trees of its first `n` children. */
  ghost function WrittenSoFar(cs: seq<Quinhao>, p: Option<string>, n: nat): (r: set<string>)
    requires WellFormed(cs) && n <= |Kids(cs, p)|
  {
    ResolvedIsClosed(cs);
    Within(cs, ById(cs).Keys, p, n)
  }

  ghost function AllBelow(cs: seq<Quinhao>, p: Option<string>): (r: set<string>)
    requires WellFormed(cs)
  {
    ResolvedIsClosed(cs);
    Descendants(ById(cs), p)
  }

  lemma SoFarStart(cs: seq<Quinhao>, p: Option<string>)
    requires WellFormed(cs)
    ensures WrittenSoFar(cs, p, 0) == {}
  {
  }

  lemma SoFarStep(cs: seq<Quinhao>, p: Option<string>, n: nat)
    requires WellFormed(cs) && n < |Kids(cs, p)|
    ensures Kids(cs, p)[n] in ById(cs)
    ensures WrittenSoFar(cs, p, n + 1)
        == WrittenSoFar(cs, p, n) + ({Kids(cs, p)[n]} + AllBelow(cs, Some(Kids(cs, p)[n])))
  {
    ResolvedIsClosed(cs);
    WithinSnoc(cs, ById(cs).Keys, p, n);
    ChildIds(cs, p);
    assert Kids(cs, p)[n] in Kids(cs, p);
    assert TreeOf(ById(cs), ById(cs).Keys, Kids(cs, p)[n]) == {Kids(cs, p)[n]} + AllBelow(cs, Some(Kids(cs, p)[n]));
  }

  lemma SoFarEnd(cs: seq<Quinhao>, p: Option<string>)
    requires WellFormed(cs)
    ensures WrittenSoFar(cs, p, |Kids(cs, p)|) == AllBelow(cs, p)
  {
    ResolvedIsClosed(cs);
    var byId, kids := ById(cs), Kids(cs, p);
    ChildIds(cs, p);
    forall id | id in AllBelow(cs, p) ensures id in WrittenSoFar(cs, p, |kids|) {
      var kid := BelowThroughChild(byId, id, p);
      assert kid in kids;
      var i :| 0 <= i < |kids| && kids[i] == kid;
    }
    forall id | id in WrittenSoFar(cs, p, |kids|) ensures id in AllBelow(cs, p) {
      var i :| 0 <= i < |kids| && (id == kids[i] || Below(byId, id, Some(kids[i])));
      assert kids[i] in kids;
      if id != kids[i] {
        BelowChild(byId, id, kids[i], p);
      }
    }
  }

  ghost function Remaining(cs: seq<Quinhao>, p: Option<string>): (r: nat)
    requires WellFormed(cs) && (p.Some? ==> p.value in ById(cs))
  {
    ResolvedIsClosed(cs);
    |ById(cs)| - Level(ById(cs), p)
  }

  lemma KidIsLower(cs: seq<Quinhao>, p: Option<string>, n: nat)
    requires WellFormed(cs) && n < |Kids(cs, p)| && (p.Some? ==> p.value in ById(cs))
    ensures Kids(cs, p)[n] in ById(cs) && Remaining(cs, Some(Kids(cs, p)[n])) < Remaining(cs, p)
  {
    ResolvedIsClosed(cs);
    ChildIds(cs, p);
    assert Kids(cs, p)[n] in Kids(cs, p);
    ChildDepth(ById(cs), Kids(cs, p)[n]);
  }

  /** What the recursion needs to know about one level. */
  lemma LevelFacts(cs: seq<Quinhao>, dim: Dim, pool: u64, p: Option<string>, shares: seq<u64>)
    requires WellFormed(cs) && (p.Some? ==> p.value in ById(cs))
    requires shares == LevelShares(cs, dim, p, BandOf(Ledger(cs, dim, pool), pool, p))
    ensures |Kids(cs, p)| == |shares|
    ensures forall i :: 0 <= i < |shares| ==>
      Kids(cs, p)[i] in ById(cs) && Ledger(cs, dim, pool)[Kids(cs, p)[i]] == shares[i]
  {
    hide Kids, ById, WellFormed, LevelShares;
    var kids := Kids(cs, p);
    SiblingsSplitTheBand(cs, dim, pool, p);
    ChildIdsOf(cs, p);
    forall i | 0 <= i < |shares|
      ensures kids[i] in ById(cs) && Ledger(cs, dim, pool)[kids[i]] == shares[i]
    {
      assert kids[i] in kids;
      assert KidGrants(cs, p, Ledger(cs, dim, pool))[i] == shares[i];
    }
  }

  method SplitLevel(dim: Dim, band: u64, kids: seq<string>, byId: map<string, Quinhao>, ghost cs: seq<Quinhao>,
      ghost p: Option<string>)
    returns (shares: seq<u64>)
    requires WellFormed(cs) && |cs| <= MAX_LEN && byId == ById(cs) && kids == Kids(cs, p)
    ensures shares == LevelShares(cs, dim, p, band)
  {
    hide Kids, ById, Allocate, WellFormed;
    ChildIdsOf(cs, p);
    KidsAre(cs, p);
    var demands := DemandsOf(byId, kids, dim);
    shares := WaterFillKernel.AllocateEven(band, demands);
  }

  method AllocateSubtree(dim: Dim, band: u64, parent: Option<string>, forest: ParsedForest, grants: FabricGrants,
                         ghost cs: seq<Quinhao>, ghost pool: u64)
    requires IsParsed(cs, forest) && |cs| <= MAX_LEN && (parent.Some? ==> parent.value in ById(cs))
    requires band == BandOf(Ledger(cs, dim, pool), pool, parent)
    modifies grants
    ensures Written(old(grants.grants), grants.grants, AllBelow(cs, parent), dim, Ledger(cs, dim, pool))
    decreases Remaining(cs, parent)
  {
    hide Kids, ById, WellFormed, LevelShares, AllBelow, WrittenSoFar, Remaining, Lookup;
    SoFarStart(cs, parent);
    SoFarEnd(cs, parent);
    if parent !in forest.children {
      return;
    }
    var kids := forest.children[parent];
    if |kids| == 0 {
      return;
    }
    var shares := SplitLevel(dim, band, kids, forest.byId, cs, parent);
    LevelFacts(cs, dim, pool, parent, shares);
    ghost var g := Ledger(cs, dim, pool);
    for i := 0 to |kids|
      invariant Written(old(grants.grants), grants.grants, WrittenSoFar(cs, parent, i), dim, g)
    {
      ghost var before := grants.grants;
      AllocateChild(dim, kids[i], shares[i], forest, grants, cs, pool, parent, i);
      SoFarStep(cs, parent, i);
      WrittenInTurn(old(grants.grants), before, grants.grants,
                    WrittenSoFar(cs, parent, i), {kids[i]} + AllBelow(cs, Some(kids[i])), dim, g);
    }
  }

  /** One child: its own share, then everything below it. */
  method AllocateChild(dim: Dim, id: string, share: u64, forest: ParsedForest, grants: FabricGrants,
                       ghost cs: seq<Quinhao>, ghost pool: u64, ghost parent: Option<string>, ghost i: nat)
    requires IsParsed(cs, forest) && |cs| <= MAX_LEN && (parent.Some? ==> parent.value in ById(cs))
    requires i < |Kids(cs, parent)| && id == Kids(cs, parent)[i] && id in ById(cs)
    requires Ledger(cs, dim, pool)[id] == share
    modifies grants
    ensures Written(old(grants.grants), grants.grants, {id} + AllBelow(cs, Some(id)), dim, Ledger(cs, dim, pool))
    decreases Remaining(cs, parent), 0
  {
    hide Kids, ById, WellFormed, Written, AllBelow, Remaining, Lookup, BandOf, GrantOf, IsChildIndex;
    ghost var before, g := grants.grants, Ledger(cs, dim, pool);
    WrittenOne(before, id, dim, share, g);
    KidIsLower(cs, parent, i);
    BandOfKid(g, pool, id);
    grants.SetDim(id, dim, share);
    ghost var written := grants.grants;
    AllocateSubtree(dim, share, Some(id), forest, grants, cs, pool);
    WrittenInTurn(before, written, grants.grants, {id}, AllBelow(cs, Some(id)), dim, g);
  }

  lemma WrittenOne(before: map<string, GrantVector>, id: string, dim: Dim, share: u64, g: map<string, nat>)
    requires id in g && g[id] == share
    ensures Written(before, before[id := Lookup(before, id).Set(dim, share)], {id}, dim, g)
  {
  }

  lemma BandOfKid(g: map<string, nat>, pool: nat, id: string)
    requires id in g
    ensures BandOf(g, pool, Some(id)) == g[id]
  {
  }

  /** The pool's band on one dimension: the capacity at the setpoint, truncated. */
  function PoolBand(capacity: u64, setpoint: real): (band: u64)
    requires 0.0 < setpoint <= 1.0
    ensures band <= capacity
    ensures band as real <= capacity as real * setpoint < band as real + 1.0
  {
    PartOf(capacity, setpoint);
    (capacity as real * setpoint).Floor
  }

  lemma PartOf(capacity: u64, setpoint: real)
    requires 0.0 < setpoint <= 1.0
    ensures 0 <= (capacity as real * setpoint).Floor <= capacity
    ensures var part := capacity as real * setpoint;
            part.Floor as real <= part < part.Floor as real + 1.0
  {
    var part := capacity as real * setpoint;
    NotMore(capacity as real, setpoint, part);
    FloorWithin(part, capacity);
  }

  lemma NotMore(whole: real, setpoint: real, part: real)
    requires whole >= 0.0 && 0.0 < setpoint <= 1.0 && part == whole * setpoint
    ensures 0.0 <= part <= whole
  {
    assert whole * (1.0 - setpoint) >= 0.0;
  }

  lemma FloorWithin(part: real, whole: u64)
    requires 0.0 <= part <= whole as real
    ensures 0 <= part.Floor <= whole && part.Floor as real <= part < part.Floor as real + 1.0
  {
  }

  /** A setpoint outside `(0, 1]` divides the whole capacity. */
  function Setpoint(s: real): (r: real)
    ensures 0.0 < r <= 1.0
    ensures r == s <==> 0.0 < s <= 1.0
    ensures r != s ==> r == 1.0
  {
    if 0.0 < s <= 1.0 then s else 1.0
  }

  ghost predicate OwedOn(cs: seq<Quinhao>, m: map<string, GrantVector>, dim: Dim, pool: u64)
    requires WellFormed(cs)
  {
    forall id :: id in ById(cs) ==> id in m && m[id].Get(dim) == GrantOf(cs, dim, pool, id)
  }

  lemma WholeForest(cs: seq<Quinhao>)
    requires WellFormed(cs)
    ensures AllBelow(cs, None) == ById(cs).Keys
  {
    ResolvedIsClosed(cs);
    forall id | id in ById(cs) ensures Below(ById(cs), id, None) {
      BelowThePool(ById(cs), id);
    }
  }

  /** Writing one dimension delivers it and leaves what was owed on the others. */
  lemma WrittenDelivers(cs: seq<Quinhao>, m0: map<string, GrantVector>, m1: map<string, GrantVector>, dim: Dim,
      pool: u64)
    requires WellFormed(cs) && Written(m0, m1, ById(cs).Keys, dim, Ledger(cs, dim, pool))
    ensures OwedOn(cs, m1, dim, pool)
    ensures forall other, q :: other != dim && OwedOn(cs, m0, other, q) ==> OwedOn(cs, m1, other, q)
    ensures m0.Keys <= ById(cs).Keys ==> m1.Keys == ById(cs).Keys
  {
    hide ById, WellFormed, GrantOf;
  }

  method AllocateAxis(dim: Dim, band: u64, forest: ParsedForest, grants: FabricGrants, ghost cs: seq<Quinhao>)
    requires IsParsed(cs, forest) && |cs| <= MAX_LEN && grants.grants.Keys <= ById(cs).Keys
    modifies grants
    ensures grants.grants.Keys == ById(cs).Keys && OwedOn(cs, grants.grants, dim, band)
    ensures forall other, q :: other != dim && OwedOn(cs, old(grants.grants), other, q) ==>
              OwedOn(cs, grants.grants, other, q)
  {
    hide Kids, ById, WellFormed, Written, AllBelow, GrantOf, IsChildIndex, OwedOn;
    ghost var before := grants.grants;
    WholeForest(cs);
    AllocateSubtree(dim, band, None, forest, grants, cs, band);
    WrittenDelivers(cs, before, grants.grants, dim, band);
  }

  lemma DimsAreAll(dim: Dim)
    ensures exists k :: 0 <= k < |ALL_DIMS| && ALL_DIMS[k] == dim
    ensures forall a, b :: 0 <= a < b < |ALL_DIMS| ==> ALL_DIMS[a] != ALL_DIMS[b]
  {
    var k := match dim case Storage => 0 case Cpu => 1 case Bandwidth => 2 case RequestRate => 3;
    assert ALL_DIMS[k] == dim;
  }

  /** The fabric allocator refuses exactly the malformed forests, and otherwise
      returns one vector per claimant holding what `GrantOf` owes it on every
      dimension. */
  method AllocateFabric(capacity: GrantVector, setpoint: real, cs: seq<Quinhao>)
      returns (r: Result<FabricGrants, FabricError>)
    requires |cs| <= MAX_LEN
    ensures r.Ok? <==> WellFormed(cs)
    ensures r.Ok? ==> fresh(r.value) && r.value.grants.Keys == ById(cs).Keys
    ensures r.Ok? ==> forall dim :: OwedOn(cs, r.value.grants, dim, PoolBand(capacity.Get(dim), Setpoint(setpoint)))
  {
    hide Kids, ById, WellFormed, OwedOn, PoolBand, Setpoint, IsChildIndex;
    var parsed := ParseForest(cs);
    if parsed.Err? {
      return Err(parsed.error);
    }
    var sp := Setpoint(setpoint);
    var grants := new FabricGrants();
    DimsAreAll(Storage);
    for i := 0 to |ALL_DIMS|
      invariant fresh(grants)
      invariant grants.grants.Keys <= ById(cs).Keys && (i > 0 ==> grants.grants.Keys == ById(cs).Keys)
      invariant forall k :: 0 <= k < i ==>
        OwedOn(cs, grants.grants, ALL_DIMS[k], PoolBand(capacity.Get(ALL_DIMS[k]), sp))
    {
      var dim := ALL_DIMS[i];
      AllocateAxis(dim, PoolBand(capacity.Get(dim), sp), parsed.value, grants, cs);
    }
    forall dim ensures OwedOn(cs, grants.grants, dim, PoolBand(capacity.Get(dim), sp)) {
      DimsAreAll(dim);
    }
    return Ok(grants);
  }
}
