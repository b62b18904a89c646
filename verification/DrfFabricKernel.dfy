/** `allocate_drf_fabric`: the same gate and the same walk as the per-axis fabric,
    with one joint kernel call per level, inserting whole vectors. */
module DrfFabricKernel {
  import opened Machine
  import opened Claimants
  import opened Forest
  import Fabric
  import opened FabricKernel
  import opened Drf
  import DrfKernel
  import opened DrfFabric

  /** `after` is `before` with the vectors of `ids` taken from `g`. */
  ghost predicate Inserted(before: map<string, GrantVector>, after: map<string, GrantVector>,
                           ids: set<string>, g: map<string, GrantVector>) {
    && ids <= g.Keys && after.Keys == before.Keys + ids
    && (forall id :: id in ids ==> after[id] == g[id])
    && (forall id :: id in before && id !in ids ==> after[id] == before[id])
  }

  lemma InsertedInTurn(m0: map<string, GrantVector>, m1: map<string, GrantVector>, m2: map<string, GrantVector>,
                       s: set<string>, t: set<string>, g: map<string, GrantVector>)
    requires Inserted(m0, m1, s, g) && Inserted(m1, m2, t, g)
    ensures Inserted(m0, m2, s + t, g)
  {
  }

  lemma InsertedOne(before: map<string, GrantVector>, id: string, g: map<string, GrantVector>)
    requires id in g
    ensures Inserted(before, before[id := g[id]], {id}, g)
  {
  }

  method AllocateDrfSubtree(band: Bands, parent: Option<string>, forest: ParsedForest, grants: FabricGrants,
                            ghost cs: seq<Quinhao>, ghost pool: Bands)
    requires IsParsed(cs, forest) && (parent.Some? ==> parent.value in ById(cs))
    requires band == LevelBands(cs, pool, parent)
    modifies grants
    ensures Inserted(old(grants.grants), grants.grants, AllBelow(cs, parent), DrfLedger(cs, pool))
    decreases Remaining(cs, parent)
  {
    hide Kids, ById, WellFormed, AllBelow, WrittenSoFar, Remaining, DrfGrantOf, LevelBands, KidVectors;
    SoFarStart(cs, parent);
    SoFarEnd(cs, parent);
    if parent !in forest.children {
      return;
    }
    var kids := forest.children[parent];
    if |kids| == 0 {
      return;
    }
    var shares := SplitJointly(band, kids, forest.byId, cs, parent);
    SiblingsSplitJointly(cs, pool, parent);
    ghost var g := DrfLedger(cs, pool);
    for i := 0 to |kids|
      invariant Inserted(old(grants.grants), grants.grants, WrittenSoFar(cs, parent, i), g)
    {
      ghost var before := grants.grants;
      AllocateDrfChild(kids[i], shares[i], forest, grants, cs, pool, parent, i);
      SoFarStep(cs, parent, i);
      InsertedInTurn(old(grants.grants), before, grants.grants,
                     WrittenSoFar(cs, parent, i), {kids[i]} + AllBelow(cs, Some(kids[i])), g);
    }
  }

  method SplitJointly(band: Bands, kids: seq<string>, byId: map<string, Quinhao>, ghost cs: seq<Quinhao>,
      ghost p: Option<string>)
    returns (shares: seq<GrantVector>)
    requires WellFormed(cs) && byId == ById(cs) && kids == Kids(cs, p)
    ensures |shares| == |kids| && shares == AllocateDrf(band, KidVectors(cs, p))
  {
    hide Kids, ById, AllocateDrf, WellFormed;
    Fabric.ChildIdsOf(cs, p);
    shares := DrfKernel.AllocateDrfBand(band, VectorsOf(byId, kids));
  }

  lemma BandsOfKid(cs: seq<Quinhao>, pool: Bands, id: string)
    requires WellFormed(cs) && id in ById(cs)
    ensures LevelBands(cs, pool, Some(id)) == AsBands(DrfLedger(cs, pool)[id])
  {
    hide ById, WellFormed, DrfGrantOf;
  }

  method AllocateDrfChild(id: string, share: GrantVector, forest: ParsedForest, grants: FabricGrants,
                          ghost cs: seq<Quinhao>, ghost pool: Bands, ghost parent: Option<string>, ghost i: nat)
    requires IsParsed(cs, forest) && (parent.Some? ==> parent.value in ById(cs))
    requires i < |Kids(cs, parent)| && id == Kids(cs, parent)[i] && id in ById(cs)
    requires DrfLedger(cs, pool)[id] == share
    modifies grants
    ensures Inserted(old(grants.grants), grants.grants, {id} + AllBelow(cs, Some(id)), DrfLedger(cs, pool))
    decreases Remaining(cs, parent), 0
  {
    hide Kids, ById, WellFormed, Inserted, AllBelow, Remaining, LevelBands, DrfGrantOf, IsChildIndex;
    ghost var before, g := grants.grants, DrfLedger(cs, pool);
    InsertedOne(before, id, g);
    KidIsLower(cs, parent, i);
    BandsOfKid(cs, pool, id);
    grants.Insert(id, share);
    ghost var written := grants.grants;
    AllocateDrfSubtree(AsBands(share), Some(id), forest, grants, cs, pool);
    InsertedInTurn(before, written, grants.grants, {id}, AllBelow(cs, Some(id)), g);
  }

  /** Each axis at the setpoint, unrounded: within one unit of the per-axis band. */
  function PoolBands(capacity: GrantVector, setpoint: real): (r: Bands)
    ensures 0.0 < setpoint <= 1.0 ==>
      && PoolBand(capacity.storage, setpoint) == r.storage.Floor && PoolBand(capacity.cpu, setpoint) == r.cpu.Floor
      && PoolBand(capacity.bandwidth, setpoint) == r.bandwidth.Floor
      && PoolBand(capacity.requestRate, setpoint) == r.requestRate.Floor
    ensures setpoint == 1.0 ==> r == AsBands(capacity)
  {
    Bands(capacity.storage as real * setpoint, capacity.cpu as real * setpoint,
          capacity.bandwidth as real * setpoint, capacity.requestRate as real * setpoint)
  }

  /** The joint fabric allocator refuses exactly the malformed forests, and otherwise
      returns exactly the vectors `DrfGrantOf` owes, one per claimant. */
  method AllocateDrfFabric(capacity: GrantVector, setpoint: real, cs: seq<Quinhao>)
      returns (r: Result<FabricGrants, FabricError>)
    ensures r.Ok? <==> WellFormed(cs)
    ensures r.Ok? ==> fresh(r.value) && r.value.grants == DrfLedger(cs, PoolBands(capacity, Setpoint(setpoint)))
  {
    hide Kids, ById, WellFormed, PoolBands, Setpoint, IsChildIndex, DrfGrantOf, AllBelow, LevelBands;
    var parsed := ParseForest(cs);
    if parsed.Err? {
      return Err(parsed.error);
    }
    var pool := PoolBands(capacity, Setpoint(setpoint));
    var grants := new FabricGrants();
    WholeForest(cs);
    PoolIsTop(cs, pool);
    AllocateDrfSubtree(pool, None, parsed.value, grants, cs, pool);
    return Ok(grants);
  }

  lemma PoolIsTop(cs: seq<Quinhao>, pool: Bands)
    requires WellFormed(cs)
    ensures LevelBands(cs, pool, None) == pool
  {
  }
}
