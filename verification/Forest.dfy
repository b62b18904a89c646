/** The forest gate: claimants are accepted exactly when their ids are unique,
    their parents resolve, and no claimant is its own ancestor. */
module Forest {
  import opened Machine
  import opened Claimants

  ghost predicate UniqueIds(cs: seq<Quinhao>) {
    forall i, j :: 0 <= i < j < |cs| ==> cs[i].id != cs[j].id
  }

  function ById(cs: seq<Quinhao>): (r: map<string, Quinhao>) {
    if cs == [] then map[] else ById(cs[..|cs| - 1])[cs[|cs| - 1].id := cs[|cs| - 1]]
  }

  ghost predicate ParentsResolve(cs: seq<Quinhao>) {
    forall i :: 0 <= i < |cs| && cs[i].parent.Some? ==> cs[i].parent.value in ById(cs)
  }

  /** The `k`-th ancestor of `id`; the zeroth is `id` itself. */
  function Ancestor(byId: map<string, Quinhao>, id: string, k: nat): (r: Option<string>) {
    if k == 0 then Some(id)
    else
      match Ancestor(byId, id, k - 1)
      case None => None
      case Some(x) => if x in byId then byId[x].parent else None
  }

  ghost predicate Acyclic(byId: map<string, Quinhao>) {
    forall id, k: nat :: id in byId && k > 0 ==> Ancestor(byId, id, k) != Some(id)
  }

  ghost predicate WellFormed(cs: seq<Quinhao>) {
    UniqueIds(cs) && ParentsResolve(cs) && Acyclic(ById(cs))
  }

  /** `id`'s parent chain visits some node twice. */
  ghost predicate ChainRepeats(byId: map<string, Quinhao>, id: string) {
    exists i: nat, j: nat :: i < j && Ancestor(byId, id, i).Some? && Ancestor(byId, id, i) == Ancestor(byId, id, j)
  }

  /** The ids whose parent is `p`, in claimant order; `None` is the pool. */
  function Kids(cs: seq<Quinhao>, p: Option<string>): (r: seq<string>) {
    if cs == [] then []
    else
      var q := cs[|cs| - 1];
      Kids(cs[..|cs| - 1], p) + if q.parent == p then [q.id] else []
  }

  ghost predicate IsChildIndex(cs: seq<Quinhao>, children: map<Option<string>, seq<string>>) {
    forall p :: (p in children <==> Kids(cs, p) != []) && (p in children ==> children[p] == Kids(cs, p))
  }

  datatype ParsedForest = ParsedForest(byId: map<string, Quinhao>, children: map<Option<string>, seq<string>>)

  // ---- ids ---------------------------------------------------------------

  lemma {:induction false} ByIdKeys(cs: seq<Quinhao>)
    ensures forall i :: 0 <= i < |cs| ==> cs[i].id in ById(cs)
    ensures forall id :: id in ById(cs) ==> ById(cs)[id].id == id && ById(cs)[id] in cs
    ensures UniqueIds(cs) ==> |ById(cs)| == |cs| && forall i :: 0 <= i < |cs| ==> ById(cs)[cs[i].id] == cs[i]
  {
    if cs != [] {
      var front, q := cs[..|cs| - 1], cs[|cs| - 1];
      assert cs == front + [q];
      ByIdKeys(front);
      if UniqueIds(cs) {
        forall id | id in ById(front) ensures id != q.id {
          assert ById(front)[id] in front;
        }
      }
    }
  }

  // ---- parent chains -----------------------------------------------------

  lemma {:induction false} AncestorsOfAncestor(byId: map<string, Quinhao>, id: string, i: nat, m: nat)
    requires Ancestor(byId, id, i).Some?
    ensures Ancestor(byId, id, i + m) == Ancestor(byId, Ancestor(byId, id, i).value, m)
  {
    if m > 0 {
      AncestorsOfAncestor(byId, id, i, m - 1);
    }
  }

  lemma {:induction false} ChainEnds(byId: map<string, Quinhao>, id: string, k: nat, m: nat)
    requires k <= m && Ancestor(byId, id, k).None?
    ensures Ancestor(byId, id, m).None?
  {
    if k < m {
      ChainEnds(byId, id, k, m - 1);
    }
  }

  ghost predicate Closed(byId: map<string, Quinhao>) {
    forall id :: id in byId && byId[id].parent.Some? ==> byId[id].parent.value in byId
  }

  lemma {:induction false} AncestorsKnown(byId: map<string, Quinhao>, id: string, k: nat)
    requires Closed(byId) && id in byId && Ancestor(byId, id, k).Some?
    ensures Ancestor(byId, id, k).value in byId
  {
    if k > 0 {
      AncestorsKnown(byId, id, k - 1);
    }
  }

  lemma {:induction false} Pigeonhole(s: seq<string>, holes: set<string>) returns (i: nat, j: nat)
    requires forall k :: 0 <= k < |s| ==> s[k] in holes
    requires |s| > |holes|
    ensures i < j < |s| && s[i] == s[j]
  {
    var last := |s| - 1;
    if k :| 0 <= k < last && s[k] == s[last] {
      return k, last;
    }
    i, j := Pigeonhole(s[..last], holes - {s[last]});
  }

  /** A chain longer than there are claimants repeats a node. */
  lemma LongChainRepeats(byId: map<string, Quinhao>, id: string, k: nat)
    requires Closed(byId) && id in byId && k >= |byId| && Ancestor(byId, id, k).Some?
    ensures ChainRepeats(byId, id)
  {
    forall m: nat | m <= k ensures Ancestor(byId, id, m).Some? && Ancestor(byId, id, m).value in byId {
      if Ancestor(byId, id, m).None? {
        ChainEnds(byId, id, m, k);
      }
      AncestorsKnown(byId, id, m);
    }
    var chain := seq(k + 1, m requires 0 <= m <= k => Ancestor(byId, id, m).value);
    assert |byId.Keys| == |byId|;
    var i, j := Pigeonhole(chain, byId.Keys);
    assert Ancestor(byId, id, i) == Some(chain[i]) && Ancestor(byId, id, j) == Some(chain[j]);
  }

  /** A repeated node is its own ancestor, whether or not the start is. */
  lemma RepeatIsCycle(byId: map<string, Quinhao>, id: string)
    requires Closed(byId) && id in byId && ChainRepeats(byId, id)
    ensures !Acyclic(byId)
  {
    var i: nat, j: nat :| i < j && Ancestor(byId, id, i).Some? && Ancestor(byId, id, i) == Ancestor(byId, id, j);
    var x := Ancestor(byId, id, i).value;
    AncestorsKnown(byId, id, i);
    AncestorsOfAncestor(byId, id, i, j - i);
    assert Ancestor(byId, x, j - i) == Some(x);
  }

  /** The first claimant whose chain never ends: the one a refusal reports. */
  ghost predicate FirstTrapped(cs: seq<Quinhao>, i: nat) {
    && i < |cs| && ChainRepeats(ById(cs), cs[i].id)
    && forall k :: 0 <= k < i ==> !ChainRepeats(ById(cs), cs[k].id)
  }

  /** The claimant is its own ancestor. */
  ghost predicate OnCycle(byId: map<string, Quinhao>, id: string) {
    exists k: nat :: k > 0 && Ancestor(byId, id, k) == Some(id)
  }

  lemma {:induction false} OccursOnce(cs: seq<Quinhao>, q: Quinhao)
    requires UniqueIds(cs)
    ensures multiset(cs)[q] <= 1
  {
    if cs != [] {
      var front, last := cs[..|cs| - 1], cs[|cs| - 1];
      assert cs == front + [last];
      OccursOnce(front, q);
      forall i | 0 <= i < |front| ensures front[i] != last {
        assert cs[i].id != cs[|cs| - 1].id;
      }
      assert last !in multiset(front);
    }
  }

  lemma OccursTwice(ds: seq<Quinhao>, i: nat, j: nat)
    requires i < j < |ds| && ds[i] == ds[j]
    ensures multiset(ds)[ds[i]] >= 2
  {
    assert ds == ds[..j] + [ds[j]] + ds[j + 1..];
    assert ds[..j][i] == ds[i];
    assert ds[i] in multiset(ds[..j]);
  }

  /** Another ordering of the list has the same ids and the same forest. */
  lemma SameInAnyOrder(cs: seq<Quinhao>, ds: seq<Quinhao>)
    requires UniqueIds(cs) && multiset(ds) == multiset(cs)
    ensures UniqueIds(ds) && ById(ds) == ById(cs)
    ensures forall q :: q in ds <==> q in cs
  {
    hide ById;
    forall q ensures q in ds <==> q in cs {
      assert q in ds <==> q in multiset(ds);
      assert q in cs <==> q in multiset(cs);
    }
    forall i, j | 0 <= i < j < |ds| ensures ds[i].id != ds[j].id {
      if ds[i] == ds[j] {
        OccursTwice(ds, i, j);
        OccursOnce(cs, ds[i]);
      } else {
        assert ds[i] in cs && ds[j] in cs;
        var a :| 0 <= a < |cs| && cs[a] == ds[i];
        var b :| 0 <= b < |cs| && cs[b] == ds[j];
        assert cs[Min(a, b)].id != cs[Max(a, b)].id;
      }
    }
    ByIdKeys(cs);
    ByIdKeys(ds);
    SameById(cs, ds);
  }

  lemma SameById(cs: seq<Quinhao>, ds: seq<Quinhao>)
    requires UniqueIds(cs) && UniqueIds(ds) && forall q :: q in ds <==> q in cs
    ensures ById(ds) == ById(cs)
  {
    ByIdKeys(cs);
    ByIdKeys(ds);
    hide ById;
    forall id | id in ById(cs) ensures id in ById(ds) && ById(ds)[id] == ById(cs)[id] {
      var i :| 0 <= i < |ds| && ds[i] == ById(cs)[id];
    }
    forall id | id in ById(ds) ensures id in ById(cs) {
      var i :| 0 <= i < |cs| && cs[i] == ById(ds)[id];
    }
  }

  /** In every ordering of the list the reported claimant is part of a cycle exactly when
      every claimant whose chain never ends is. */
  lemma ReportedOnCycleIff(cs: seq<Quinhao>)
    requires UniqueIds(cs)
    ensures (forall ds: seq<Quinhao>, i: nat ::
               multiset(ds) == multiset(cs) && FirstTrapped(ds, i) ==> OnCycle(ById(ds), ds[i].id))
       <==> forall q :: q in cs && ChainRepeats(ById(cs), q.id) ==> OnCycle(ById(cs), q.id)
  {
    hide ById, ChainRepeats, OnCycle;
    if forall q :: q in cs && ChainRepeats(ById(cs), q.id) ==> OnCycle(ById(cs), q.id) {
      forall ds: seq<Quinhao>, i: nat | multiset(ds) == multiset(cs) && FirstTrapped(ds, i)
        ensures OnCycle(ById(ds), ds[i].id)
      {
        TrappedIs(cs, ds, i);
      }
    } else {
      var q :| q in cs && ChainRepeats(ById(cs), q.id) && !OnCycle(ById(cs), q.id);
      var ds := ListedFirst(cs, q);
    }
  }

  lemma TrappedIs(cs: seq<Quinhao>, ds: seq<Quinhao>, i: nat)
    requires UniqueIds(cs) && multiset(ds) == multiset(cs) && FirstTrapped(ds, i)
    ensures i < |ds| && ds[i] in cs && ById(ds) == ById(cs) && ChainRepeats(ById(cs), ds[i].id)
  {
    hide ById, ChainRepeats;
    SameInAnyOrder(cs, ds);
  }

  /** A trapped claimant moved to the front is the one reported. */
  lemma ListedFirst(cs: seq<Quinhao>, q: Quinhao) returns (ds: seq<Quinhao>)
    requires UniqueIds(cs) && q in cs && ChainRepeats(ById(cs), q.id)
    ensures multiset(ds) == multiset(cs) && ById(ds) == ById(cs) && ds != [] && ds[0] == q && FirstTrapped(ds, 0)
  {
    hide ById, ChainRepeats;
    var k :| 0 <= k < |cs| && cs[k] == q;
    ds := [q] + (cs[..k] + cs[k + 1..]);
    assert cs == cs[..k] + [q] + cs[k + 1..];
    assert multiset(ds) == multiset(cs);
    SameInAnyOrder(cs, ds);
  }

  /** A claimant under one that is its own parent. */
  function LedIntoCycle(d: DemandVector): (cs: seq<Quinhao>) {
    [Quinhao("leaf", Some("loop"), d), Quinhao("loop", Some("loop"), d)]
  }

  /** It is reported as part of a cycle that it only leads into. */
  lemma ReportsOutsideCycle(d: DemandVector)
    ensures FirstTrapped(LedIntoCycle(d), 0) && !OnCycle(ById(LedIntoCycle(d)), "leaf")
  {
    var cs := LedIntoCycle(d);
    var byId := ById(cs);
    assert cs[..1] == [cs[0]] && cs[..1][..0] == [];
    assert ById(cs[..1]) == ById([])["leaf" := cs[0]];
    assert byId == map["leaf" := cs[0], "loop" := cs[1]];
    assert Ancestor(byId, "leaf", 0) == Some("leaf");
    assert Ancestor(byId, "leaf", 1) == Some("loop");
    assert Ancestor(byId, "leaf", 2) == Ancestor(byId, "leaf", 1);
    forall k: nat | k > 0 ensures Ancestor(byId, "leaf", k) == Some("loop") {
      StaysInLoop(byId, "leaf", k);
    }
  }

  lemma {:induction false} StaysInLoop(byId: map<string, Quinhao>, id: string, k: nat)
    requires k > 0 && "loop" in byId && byId["loop"].parent == Some("loop") && Ancestor(byId, id, 1) == Some("loop")
    ensures Ancestor(byId, id, k) == Some("loop")
  {
    if k > 1 {
      StaysInLoop(byId, id, k - 1);
    }
  }

  /** Acyclic means every parent chain ends, within as many steps as there are ids. */
  lemma ChainsEnd(byId: map<string, Quinhao>, id: string)
    requires Closed(byId) && Acyclic(byId) && id in byId
    ensures Ancestor(byId, id, |byId|).None?
  {
    if Ancestor(byId, id, |byId|).Some? {
      LongChainRepeats(byId, id, |byId|);
      RepeatIsCycle(byId, id);
    }
  }

  lemma ResolvedIsClosed(cs: seq<Quinhao>)
    requires UniqueIds(cs)
    ensures ParentsResolve(cs) <==> Closed(ById(cs))
  {
    ByIdKeys(cs);
    if ParentsResolve(cs) {
      forall id | id in ById(cs) && ById(cs)[id].parent.Some? ensures ById(cs)[id].parent.value in ById(cs) {
        var i :| 0 <= i < |cs| && cs[i] == ById(cs)[id];
      }
    }
  }

  // ---- the gate ----------------------------------------------------------

  lemma ByIdSnoc(cs: seq<Quinhao>, n: nat)
    requires n < |cs|
    ensures ById(cs[..n + 1]) == ById(cs[..n])[cs[n].id := cs[n]]
  {
    assert cs[..n + 1][..n] == cs[..n];
  }

  lemma FreshId(cs: seq<Quinhao>, n: nat)
    requires n < |cs| && UniqueIds(cs[..n]) && cs[n].id !in ById(cs[..n])
    ensures UniqueIds(cs[..n + 1])
  {
    hide ById;
    ByIdKeys(cs[..n]);
    forall i | 0 <= i < n ensures cs[i].id != cs[n].id {
      assert cs[..n][i].id in ById(cs[..n]);
    }
  }

  lemma SeenId(cs: seq<Quinhao>, n: nat)
    requires n < |cs| && cs[n].id in ById(cs[..n])
    ensures exists i :: 0 <= i < n && cs[i].id == cs[n].id
  {
    hide ById;
    ByIdKeys(cs[..n]);
    var i :| 0 <= i < n && cs[..n][i] == ById(cs[..n])[cs[n].id];
    assert cs[i].id == cs[n].id;
  }

  method CollectIds(cs: seq<Quinhao>) returns (byId: map<string, Quinhao>, duplicate: Option<string>)
    ensures duplicate.None? <==> UniqueIds(cs)
    ensures duplicate.None? ==> byId == ById(cs)
    ensures duplicate.Some? ==> exists i, j :: 0 <= i < j < |cs| && cs[i].id == cs[j].id == duplicate.value
  {
    byId, duplicate := map[], None;
    for n := 0 to |cs|
      invariant UniqueIds(cs[..n]) && byId == ById(cs[..n])
    {
      ByIdSnoc(cs, n);
      var q := cs[n];
      if q.id in byId {
        SeenId(cs, n);
        return byId, Some(q.id);
      }
      FreshId(cs, n);
      byId := byId[q.id := q];
    }
    assert cs[..|cs|] == cs;
  }

  /** A chain that repeats never ends. */
  lemma {:induction false} RepeatNeverEnds(byId: map<string, Quinhao>, id: string, i: nat, j: nat, k: nat)
    requires i < j && Ancestor(byId, id, i).Some? && Ancestor(byId, id, i) == Ancestor(byId, id, j)
    ensures Ancestor(byId, id, k).Some?
    decreases k
  {
    if k <= j {
      if Ancestor(byId, id, k).None? {
        ChainEnds(byId, id, k, j);
      }
    } else {
      RepeatNeverEnds(byId, id, i, j, k - (j - i));
      AncestorsOfAncestor(byId, id, j, k - j);
      AncestorsOfAncestor(byId, id, i, k - j);
    }
  }

  lemma EndedChainIsClean(byId: map<string, Quinhao>, id: string, n: nat)
    requires Ancestor(byId, id, n).None?
    ensures !ChainRepeats(byId, id)
    ensures forall k: nat :: k > 0 ==> Ancestor(byId, id, k) != Some(id)
  {
    if i: nat, j: nat :| i < j && Ancestor(byId, id, i).Some? && Ancestor(byId, id, i) == Ancestor(byId, id, j) {
      RepeatNeverEnds(byId, id, i, j, n);
    }
    assert Ancestor(byId, id, 0) == Some(id);
  }

  /** One claimant's walk up its parents, bounded by the number of claimants. */
  method WalkIsCyclic(q: Quinhao, byId: map<string, Quinhao>, bound: nat) returns (cyclic: bool)
    requires Closed(byId) && q.id in byId && byId[q.id] == q && bound == |byId|
    ensures cyclic <==> ChainRepeats(byId, q.id)
    ensures !cyclic ==> forall k: nat :: k > 0 ==> Ancestor(byId, q.id, k) != Some(q.id)
  {
    var cur, steps := q.parent, 0;
    assert Ancestor(byId, q.id, 0) == Some(q.id);
    while cur.Some?
      invariant steps <= bound && cur == Ancestor(byId, q.id, steps + 1)
      decreases bound - steps
    {
      var p := cur.value;
      if p == q.id {
        assert Ancestor(byId, q.id, 0) == Ancestor(byId, q.id, steps + 1);
        return true;
      }
      steps := steps + 1;
      if steps > bound {
        LongChainRepeats(byId, q.id, steps);
        return true;
      }
      cur := if p in byId then byId[p].parent else None;
    }
    EndedChainIsClean(byId, q.id, steps + 1);
    return false;
  }

  method IndexChildren(cs: seq<Quinhao>) returns (children: map<Option<string>, seq<string>>)
    ensures IsChildIndex(cs, children)
  {
    children := map[];
    for n := 0 to |cs|
      invariant IsChildIndex(cs[..n], children)
    {
      var q := cs[n];
      assert cs[..n + 1][..n] == cs[..n];
      var bucket := if q.parent in children then children[q.parent] else [];
      children := children[q.parent := bucket + [q.id]];
    }
    assert cs[..|cs|] == cs;
  }

  method FindDangling(cs: seq<Quinhao>, byId: map<string, Quinhao>) returns (r: Option<FabricError>)
    requires byId == ById(cs)
    ensures r.None? <==> ParentsResolve(cs)
    ensures r.Some? ==> r.value.UnknownParent? && r.value.parent !in byId
    ensures r.Some? ==> exists i :: 0 <= i < |cs| && cs[i].id == r.value.id && cs[i].parent == Some(r.value.parent)
  {
    hide ById;
    for i := 0 to |cs|
      invariant forall k :: 0 <= k < i && cs[k].parent.Some? ==> cs[k].parent.value in byId
    {
      if cs[i].parent.Some? && cs[i].parent.value !in byId {
        return Some(UnknownParent(cs[i].id, cs[i].parent.value));
      }
    }
    return None;
  }

  method FindCycle(cs: seq<Quinhao>, byId: map<string, Quinhao>) returns (r: Option<FabricError>)
    requires UniqueIds(cs) && byId == ById(cs) && Closed(byId)
    ensures r.None? <==> Acyclic(byId)
    ensures r.Some? ==> r.value.Cycle? && r.value.id in byId && ChainRepeats(byId, r.value.id)
    ensures r.Some? ==> exists i: nat :: FirstTrapped(cs, i) && cs[i].id == r.value.id
  {
    hide ById, ChainRepeats, Acyclic;
    ByIdKeys(cs);
    for i := 0 to |cs|
      invariant forall k :: 0 <= k < i ==> !ChainRepeats(byId, cs[k].id)
      invariant forall k, m: nat :: 0 <= k < i && m > 0 ==> Ancestor(byId, cs[k].id, m) != Some(cs[k].id)
    {
      var cyclic := WalkIsCyclic(cs[i], byId, |cs|);
      if cyclic {
        RepeatIsCycle(byId, cs[i].id);
        assert FirstTrapped(cs, i);
        return Some(Cycle(cs[i].id));
      }
    }
    EveryWalkClean(cs);
    return None;
  }

  /** The gate accepts exactly the well-formed forests, and each refusal names its
      cause: first duplicates, then dangling parents, then cycles. */
  method ParseForest(cs: seq<Quinhao>) returns (r: Result<ParsedForest, FabricError>)
    ensures r.Ok? <==> WellFormed(cs)
    ensures r.Ok? ==> r.value.byId == ById(cs) && IsChildIndex(cs, r.value.children)
    ensures r.Err? && r.error.DuplicateId? <==> !UniqueIds(cs)
    ensures r.Err? && r.error.UnknownParent? <==> UniqueIds(cs) && !ParentsResolve(cs)
    ensures r.Err? && r.error.Cycle? <==> UniqueIds(cs) && ParentsResolve(cs) && !Acyclic(ById(cs))
    ensures r.Err? && r.error.DuplicateId? ==>
      exists i, j :: 0 <= i < j < |cs| && cs[i].id == cs[j].id == r.error.id
    ensures r.Err? && r.error.UnknownParent? ==>
      r.error.parent !in ById(cs)
      && exists i :: 0 <= i < |cs| && cs[i].id == r.error.id && cs[i].parent == Some(r.error.parent)
    ensures r.Err? && r.error.Cycle? ==> r.error.id in ById(cs) && ChainRepeats(ById(cs), r.error.id)
    ensures r.Err? && r.error.Cycle? ==> exists i: nat :: FirstTrapped(cs, i) && cs[i].id == r.error.id
  {
    hide UniqueIds, ParentsResolve, Acyclic, ChainRepeats, IsChildIndex, ById, FirstTrapped;
    var byId, duplicate := CollectIds(cs);
    if duplicate.Some? {
      return Err(DuplicateId(duplicate.value));
    }
    var dangling := FindDangling(cs, byId);
    if dangling.Some? {
      return Err(dangling.value);
    }
    ResolvedIsClosed(cs);
    var cycle := FindCycle(cs, byId);
    if cycle.Some? {
      return Err(cycle.value);
    }
    var children := IndexChildren(cs);
    return Ok(ParsedForest(byId, children));
  }

  lemma EveryWalkClean(cs: seq<Quinhao>)
    requires UniqueIds(cs)
    requires forall k, m: nat :: 0 <= k < |cs| && m > 0 ==> Ancestor(ById(cs), cs[k].id, m) != Some(cs[k].id)
    ensures Acyclic(ById(cs))
  {
    ByIdKeys(cs);
    forall id, m: nat | id in ById(cs) && m > 0 ensures Ancestor(ById(cs), id, m) != Some(id) {
      var k :| 0 <= k < |cs| && cs[k] == ById(cs)[id];
      assert cs[k].id == id;
    }
  }
}
