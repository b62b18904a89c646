/** The zone's tick graph: dimension jobs ordered by the catalog's dependencies,
    restricted to the zone, and forma jobs gating some of them.  The external graph
    crate is modelled as node and edge sets, its sort as the verified cycle search. */
module Zone {
  import opened Machine
  import opened Acyclic

  datatype Job = DimJob(scope: string, dim: Node) | FormaJob(scope: string, forma: nat)

  datatype Dag = Dag(nodes: set<Job>, edges: set<(Job, Job)>) {
    function EnsureNode(j: Job): (r: Dag) {
      this.(nodes := nodes + {j})
    }

    function AddEdge(a: Job, b: Job): (r: Dag) {
      Dag(nodes + {a, b}, edges + {(a, b)})
    }
  }

  ghost predicate IsWalk(dag: Dag, w: seq<Job>) {
    |w| > 1 && forall i :: 0 <= i < |w| - 1 ==> (w[i], w[i + 1]) in dag.edges
  }

  ghost predicate IsAcyclic(dag: Dag) {
    forall w :: IsWalk(dag, w) ==> w[0] != w[|w| - 1]
  }

  // ---- dimension jobs ----------------------------------------------------

  /** The restricted graph: an edge for each dependency the zone also carries. */
  ghost function DimensionDag(scope: string, dims: seq<Node>, g: map<Node, seq<Node>>): (r: Dag) {
    Dag(set d | d in dims :: DimJob(scope, d),
        set d, dep | d in dims && dep in Deps(g, d) && dep in dims :: (DimJob(scope, dep), DimJob(scope, d)))
  }

  method DimensionTickDag(scope: string, dims: seq<Node>, g: map<Node, seq<Node>>) returns (dag: Dag)
    ensures dag == DimensionDag(scope, dims, g)
  {
    dag := Dag({}, {});
    for i := 0 to |dims|
      invariant dag.nodes <= DimensionDag(scope, dims, g).nodes && dag.edges <= DimensionDag(scope, dims, g).edges
      invariant forall k :: 0 <= k < i ==> DimJob(scope, dims[k]) in dag.nodes
      invariant forall k, dep :: 0 <= k < i && dep in Deps(g, dims[k]) && dep in dims ==>
        (DimJob(scope, dep), DimJob(scope, dims[k])) in dag.edges
    {
      var dim := dims[i];
      var deps := Deps(g, dim);
      dag := dag.EnsureNode(DimJob(scope, dim));
      dag := AddDependencies(scope, dims, dim, deps, dag);
    }
  }

  method AddDependencies(scope: string, dims: seq<Node>, dim: Node, deps: seq<Node>, dag0: Dag) returns (dag: Dag)
    requires dim in dims
    ensures dag.nodes == dag0.nodes + (set dep | dep in deps && dep in dims :: DimJob(scope, dep))
                       + (set dep | dep in deps && dep in dims :: DimJob(scope, dim))
    ensures dag.edges == dag0.edges + (set dep | dep in deps && dep in dims :: (DimJob(scope, dep), DimJob(scope, dim)))
  {
    dag := dag0;
    for j := 0 to |deps|
      invariant dag.nodes == dag0.nodes + (set dep | dep in deps[..j] && dep in dims :: DimJob(scope, dep))
                           + (set dep | dep in deps[..j] && dep in dims :: DimJob(scope, dim))
      invariant dag.edges == dag0.edges
        + (set dep | dep in deps[..j] && dep in dims :: (DimJob(scope, dep), DimJob(scope, dim)))
    {
      assert deps[..j + 1] == deps[..j] + [deps[j]];
      if deps[j] in dims {
        dag := dag.AddEdge(DimJob(scope, deps[j]), DimJob(scope, dim));
      }
    }
    assert deps[..|deps|] == deps;
  }

  // ---- the zone ----------------------------------------------------------

  datatype BreatheZone = BreatheZone(scope: string, formas: seq<nat>, dims: seq<Node>, gatedDims: seq<Node>)

  datatype ZoneError = GatedDimNotEnrolled(dim: Node) | DimensionCycle

  ghost predicate GatesEnrolled(zone: BreatheZone) {
    forall d :: d in zone.gatedDims ==> d in zone.dims
  }

  /** The zone's own dependencies: both ends carried by it. */
  function Kept(deps: seq<Node>, dims: seq<Node>): (r: seq<Node>)
    ensures forall d :: d in r <==> d in deps && d in dims
  {
    if deps == [] then []
    else (if deps[0] in dims then [deps[0]] else []) + Kept(deps[1..], dims)
  }

  function Restrict(g: map<Node, seq<Node>>, dims: seq<Node>): (r: map<Node, seq<Node>>)
    ensures forall x :: x in dims ==> forall d :: d in Deps(r, x) <==> d in Deps(g, x) && d in dims
    ensures forall x, d :: d in Deps(r, x) ==> x in dims && d in dims
  {
    map x | x in g && x in dims :: Kept(g[x], dims)
  }

  /** The graph crate's sort is the search for a cycle in the restricted graph. */
  method Validate(zone: BreatheZone, g: map<Node, seq<Node>>) returns (r: Option<ZoneError>)
    ensures r.None? <==> GatesEnrolled(zone) && IsAcyclic(DimensionDag(zone.scope, zone.dims, g))
    ensures r.Some? && r.value.GatedDimNotEnrolled? ==> r.value.dim in zone.gatedDims && r.value.dim !in zone.dims
    ensures r.Some? && r.value.DimensionCycle? ==> GatesEnrolled(zone)
  {
    for i := 0 to |zone.gatedDims|
      invariant forall k :: 0 <= k < i ==> zone.gatedDims[k] in zone.dims
    {
      if zone.gatedDims[i] !in zone.dims {
        return Some(GatedDimNotEnrolled(zone.gatedDims[i]));
      }
    }
    hide Restrict, AcyclicFrom, IsAcyclic, DimensionDag;
    var sortable := DependencyGraphIsAcyclic(Restrict(g, zone.dims), zone.dims);
    SortableIff(zone.scope, zone.dims, g);
    return if sortable then None else Some(DimensionCycle);
  }

  /** The full graph: the dimension graph, and every forma gating every gated dim. */
  ghost function ZoneDag(zone: BreatheZone, g: map<Node, seq<Node>>): (r: Dag) {
    var d := DimensionDag(zone.scope, zone.dims, g);
    Dag(d.nodes + (set f | f in zone.formas :: FormaJob(zone.scope, f)),
        d.edges + (set f, dim | f in zone.formas && dim in zone.gatedDims ::
                     (FormaJob(zone.scope, f), DimJob(zone.scope, dim))))
  }

  predicate IsJob(zone: BreatheZone, j: Job) {
    j.scope == zone.scope && if j.DimJob? then j.dim in zone.dims else j.forma in zone.formas
  }

  /** A dimension the other depends on, or a forma before a gated dimension. */
  predicate Before(zone: BreatheZone, g: map<Node, seq<Node>>, a: Job, b: Job) {
    && b.DimJob? && b.dim in zone.dims
    && match a
       case DimJob(_, dep) => b.dim in g && dep in g[b.dim]
       case FormaJob(_, _) => b.dim in zone.gatedDims
  }

  /** Exactly the zone's own jobs, and between them exactly those edges. */
  lemma ZoneDagIs(zone: BreatheZone, g: map<Node, seq<Node>>)
    requires GatesEnrolled(zone)
    ensures forall j :: j in ZoneDag(zone, g).nodes <==> IsJob(zone, j)
    ensures forall a, b :: (a, b) in ZoneDag(zone, g).edges
                           <==> IsJob(zone, a) && IsJob(zone, b) && Before(zone, g, a, b)
  {
    var dag := ZoneDag(zone, g);
    forall a, b ensures (a, b) in dag.edges <==> IsJob(zone, a) && IsJob(zone, b) && Before(zone, g, a, b) {
      if IsJob(zone, a) && IsJob(zone, b) && Before(zone, g, a, b) {
        if a.DimJob? {
          assert a.dim in Deps(g, b.dim);
          assert a == DimJob(zone.scope, a.dim) && b == DimJob(zone.scope, b.dim);
        } else {
          assert a == FormaJob(zone.scope, a.forma) && b == DimJob(zone.scope, b.dim);
        }
      }
    }
    forall j ensures j in dag.nodes <==> IsJob(zone, j) {
      if IsJob(zone, j) {
        assert j == if j.DimJob? then DimJob(zone.scope, j.dim) else FormaJob(zone.scope, j.forma);
      }
    }
  }

  method ZoneTickDag(zone: BreatheZone, g: map<Node, seq<Node>>) returns (r: Result<Dag, ZoneError>)
    ensures r.Ok? <==> GatesEnrolled(zone) && IsAcyclic(DimensionDag(zone.scope, zone.dims, g))
    ensures r.Ok? ==> r.value == ZoneDag(zone, g) && IsAcyclic(r.value)
    ensures r.Ok? ==>
      && (forall j :: j in r.value.nodes <==> IsJob(zone, j))
      && forall a, b :: (a, b) in r.value.edges <==> IsJob(zone, a) && IsJob(zone, b) && Before(zone, g, a, b)
  {
    var refused := Validate(zone, g);
    if refused.Some? {
      return Err(refused.value);
    }
    var dag := DimensionTickDag(zone.scope, zone.dims, g);
    var gated := zone.gatedDims;
    ghost var base := dag;
    for i := 0 to |zone.formas|
      invariant dag.nodes == base.nodes + (set f | f in zone.formas[..i] :: FormaJob(zone.scope, f))
      invariant dag.edges == base.edges
        + (set f, dim | f in zone.formas[..i] && dim in gated :: (FormaJob(zone.scope, f), DimJob(zone.scope, dim)))
    {
      var f := zone.formas[i];
      assert zone.formas[..i + 1] == zone.formas[..i] + [f];
      dag := dag.EnsureNode(FormaJob(zone.scope, f));
      dag := AddGates(zone, f, dag, base.nodes);
    }
    assert zone.formas[..|zone.formas|] == zone.formas;
    SourcesKeepAcyclic(zone, g);
    ZoneDagIs(zone, g);
    return Ok(dag);
  }

  method AddGates(zone: BreatheZone, f: nat, dag0: Dag, ghost known: set<Job>) returns (dag: Dag)
    requires GatesEnrolled(zone) && FormaJob(zone.scope, f) in dag0.nodes
    requires known <= dag0.nodes && forall d :: d in zone.dims ==> DimJob(zone.scope, d) in known
    ensures dag.nodes == dag0.nodes
    ensures dag.edges == dag0.edges
        + (set dim | dim in zone.gatedDims :: (FormaJob(zone.scope, f), DimJob(zone.scope, dim)))
  {
    dag := dag0;
    var gated := zone.gatedDims;
    for j := 0 to |gated|
      invariant dag.nodes == dag0.nodes
      invariant dag.edges == dag0.edges
        + (set dim | dim in gated[..j] :: (FormaJob(zone.scope, f), DimJob(zone.scope, dim)))
    {
      assert gated[..j + 1] == gated[..j] + [gated[j]];
      dag := dag.AddEdge(FormaJob(zone.scope, f), DimJob(zone.scope, gated[j]));
    }
    assert gated[..|gated|] == gated;
  }

  // ---- no cycle through a forma ------------------------------------------

  /** Formas only have outgoing edges, so a closed walk never meets one. */
  lemma ClosedWalkIsDims(zone: BreatheZone, g: map<Node, seq<Node>>, w: seq<Job>)
    requires IsWalk(ZoneDag(zone, g), w) && w[0] == w[|w| - 1]
    ensures IsWalk(DimensionDag(zone.scope, zone.dims, g), w)
  {
    forall i | 0 <= i < |w| ensures w[i].DimJob? {
      var before := if i > 0 then i - 1 else |w| - 2;
      assert (w[before], w[before + 1]) in ZoneDag(zone, g).edges;
    }
    forall i | 0 <= i < |w| - 1 ensures (w[i], w[i + 1]) in DimensionDag(zone.scope, zone.dims, g).edges {
      assert (w[i], w[i + 1]) in ZoneDag(zone, g).edges;
    }
  }

  /** Adding the formas to an acyclic dimension graph leaves it acyclic. */
  lemma SourcesKeepAcyclic(zone: BreatheZone, g: map<Node, seq<Node>>)
    requires IsAcyclic(DimensionDag(zone.scope, zone.dims, g))
    ensures IsAcyclic(ZoneDag(zone, g))
  {
    forall w | IsWalk(ZoneDag(zone, g), w) ensures w[0] != w[|w| - 1] {
      if w[0] == w[|w| - 1] {
        ClosedWalkIsDims(zone, g, w);
      }
    }
  }

  // ---- the catalog's check covers every zone ------------------------------

  function Backwards(w: seq<Job>): (p: seq<Node>)
    ensures |p| == |w|
    ensures forall i :: 0 <= i < |w| && w[|w| - 1 - i].DimJob? ==> p[i] == w[|w| - 1 - i].dim
  {
    seq(|w|, i requires 0 <= i < |w| => var j := w[|w| - 1 - i]; if j.DimJob? then j.dim else 0)
  }

  /** Read backwards, a walk of dimension jobs is a dependency path. */
  lemma BackwardsIsPath(scope: string, dims: seq<Node>, g: map<Node, seq<Node>>, w: seq<Job>)
    requires IsWalk(DimensionDag(scope, dims, g), w)
    ensures IsPath(g, Backwards(w)) && Backwards(w)[0] in dims
    ensures forall i :: 0 <= i < |w| ==> w[i].DimJob?
  {
    forall i | 0 <= i < |w| ensures w[i].DimJob? && w[i].dim in dims {
      var e := if i > 0 then i - 1 else 0;
      assert (w[e], w[e + 1]) in DimensionDag(scope, dims, g).edges;
    }
    var p := Backwards(w);
    forall i | 0 <= i < |p| - 1 ensures p[i + 1] in Deps(g, p[i]) {
      var k := |w| - 2 - i;
      assert (w[k], w[k + 1]) in DimensionDag(scope, dims, g).edges;
    }
  }

  /** Where the whole catalog is acyclic, no zone drawn from it is refused for a
      cycle. */
  lemma CatalogCoversZones(scope: string, dims: seq<Node>, g: map<Node, seq<Node>>, catalog: seq<Node>)
    requires AcyclicFrom(g, catalog) && forall d :: d in dims ==> d in catalog
    ensures IsAcyclic(DimensionDag(scope, dims, g))
  {
    forall w | IsWalk(DimensionDag(scope, dims, g), w) ensures w[0] != w[|w| - 1] {
      BackwardsIsPath(scope, dims, g, w);
      var p := Backwards(w);
      assert Safe(g, p[0]) && !Repeats(p);
      assert p[0] != p[|p| - 1];
    }
  }

  // ---- the restricted graph and the job graph -----------------------------

  lemma {:induction false} PathWithin(g: map<Node, seq<Node>>, dims: seq<Node>, p: seq<Node>, k: nat)
    requires IsPath(Restrict(g, dims), p) && p[0] in dims && k < |p|
    ensures p[k] in dims
  {
    hide Restrict;
    if k > 0 {
      PathWithin(g, dims, p, k - 1);
      assert p[(k - 1) + 1] in Deps(Restrict(g, dims), p[k - 1]);
    }
  }

  /** The stretch of a dependency path from `j` back to `i`, as jobs. */
  function AsWalk(scope: string, p: seq<Node>, i: nat, j: nat): (w: seq<Job>)
    requires i <= j < |p|
    ensures |w| == j - i + 1 && forall k :: 0 <= k < |w| ==> w[k] == DimJob(scope, p[j - k])
  {
    seq(j - i + 1, k requires 0 <= k <= j - i => DimJob(scope, p[j - k]))
  }

  lemma PathIsWalk(scope: string, dims: seq<Node>, g: map<Node, seq<Node>>, p: seq<Node>, i: nat, j: nat)
    requires IsPath(Restrict(g, dims), p) && p[0] in dims && i < j < |p|
    ensures IsWalk(DimensionDag(scope, dims, g), AsWalk(scope, p, i, j))
  {
    hide Restrict;
    var w := AsWalk(scope, p, i, j);
    forall k | 0 <= k < |w| - 1 ensures (w[k], w[k + 1]) in DimensionDag(scope, dims, g).edges {
      var at := j - k - 1;
      PathWithin(g, dims, p, at);
      PathWithin(g, dims, p, at + 1);
      assert p[at + 1] in Deps(Restrict(g, dims), p[at]);
    }
  }

  /** The search on the restricted dependencies answers for the job graph. */
  lemma SortableIff(scope: string, dims: seq<Node>, g: map<Node, seq<Node>>)
    ensures AcyclicFrom(Restrict(g, dims), dims) <==> IsAcyclic(DimensionDag(scope, dims, g))
  {
    hide Restrict;
    var r := Restrict(g, dims);
    if AcyclicFrom(r, dims) {
      assert DimensionDag(scope, dims, r) == DimensionDag(scope, dims, g);
      CatalogCoversZones(scope, dims, r, dims);
    }
    if IsAcyclic(DimensionDag(scope, dims, g)) {
      forall x, p | x in dims && IsPath(r, p) && p[0] == x ensures !Repeats(p) {
        forall i, j | 0 <= i < j < |p| ensures p[i] != p[j] {
          PathIsWalk(scope, dims, g, p, i, j);
        }
      }
    }
  }
}
