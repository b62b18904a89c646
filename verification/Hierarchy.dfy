/** The shape of an accepted forest: depth, descent, children, and the bound every
    tree-respecting ledger satisfies on claimants that are not each other's
    ancestors.  Nothing here depends on which kernel splits a level. */
module Hierarchy {
  import opened Machine
  import opened Sums
  import opened Claimants
  import opened Forest

  // ---- depth -------------------------------------------------------------

  ghost function DepthFrom(byId: map<string, Quinhao>, id: string, k: nat): (d: nat)
    requires Closed(byId) && Acyclic(byId) && id in byId && k <= |byId|
    requires Ancestor(byId, id, k).Some?
    ensures Ancestor(byId, id, d).Some? && Ancestor(byId, id, d + 1).None? && d < |byId|
    decreases |byId| - k
  {
    ChainsEnd(byId, id);
    if Ancestor(byId, id, k + 1).None? then k else DepthFrom(byId, id, k + 1)
  }

  /** How many ancestors `id` has. */
  ghost function Depth(byId: map<string, Quinhao>, id: string): (d: nat)
    requires Closed(byId) && Acyclic(byId) && id in byId
    ensures Ancestor(byId, id, d).Some? && Ancestor(byId, id, d + 1).None? && d < |byId|
  {
    DepthFrom(byId, id, 0)
  }

  lemma DepthIs(byId: map<string, Quinhao>, id: string, d: nat)
    requires Closed(byId) && Acyclic(byId) && id in byId
    requires Ancestor(byId, id, d).Some? && Ancestor(byId, id, d + 1).None?
    ensures Depth(byId, id) == d
  {
    if Depth(byId, id) < d {
      ChainEnds(byId, id, Depth(byId, id) + 1, d);
    } else if d < Depth(byId, id) {
      ChainEnds(byId, id, d + 1, Depth(byId, id));
    }
  }

  lemma ChildDepth(byId: map<string, Quinhao>, id: string)
    requires Closed(byId) && Acyclic(byId) && id in byId
    ensures byId[id].parent.None? ==> Depth(byId, id) == 0
    ensures byId[id].parent.Some? ==>
      byId[id].parent.value in byId && Depth(byId, id) == Depth(byId, byId[id].parent.value) + 1
  {
    assert Ancestor(byId, id, 0) == Some(id);
    assert Ancestor(byId, id, 1) == byId[id].parent;
    if byId[id].parent.None? {
      DepthIs(byId, id, 0);
    } else {
      var p := byId[id].parent.value;
      var d := Depth(byId, p);
      AncestorsOfAncestor(byId, id, 1, d);
      AncestorsOfAncestor(byId, id, 1, d + 1);
      DepthIs(byId, id, d + 1);
    }
  }

  /** The level that `p`'s children sit on; the pool's are at zero. */
  ghost function Level(byId: map<string, Quinhao>, p: Option<string>): (d: nat)
    requires Closed(byId) && Acyclic(byId) && (p.Some? ==> p.value in byId)
    ensures d <= |byId|
  {
    if p.None? then 0 else Depth(byId, p.value) + 1
  }

  // ---- descent -----------------------------------------------------------

  /** `id` sits strictly below `p`; everything sits below the pool. */
  ghost predicate Below(byId: map<string, Quinhao>, id: string, p: Option<string>)
    requires Closed(byId) && Acyclic(byId) && id in byId
    decreases Depth(byId, id)
  {
    ChildDepth(byId, id);
    byId[id].parent == p || (byId[id].parent.Some? && Below(byId, byId[id].parent.value, p))
  }

  lemma {:induction false} BelowThePool(byId: map<string, Quinhao>, id: string)
    requires Closed(byId) && Acyclic(byId) && id in byId
    ensures Below(byId, id, None)
    decreases Depth(byId, id)
  {
    ChildDepth(byId, id);
    if byId[id].parent.Some? {
      BelowThePool(byId, byId[id].parent.value);
    }
  }

  /** `Below(id, Some(a))` says exactly that `a` is a proper ancestor of `id`. */
  lemma {:induction false} BelowIsAncestor(byId: map<string, Quinhao>, id: string, a: string)
    requires Closed(byId) && Acyclic(byId) && id in byId
    ensures Below(byId, id, Some(a)) <==> exists k: nat :: k > 0 && Ancestor(byId, id, k) == Some(a)
    decreases Depth(byId, id)
  {
    ChildDepth(byId, id);
    var p := byId[id].parent;
    assert Ancestor(byId, id, 0) == Some(id);
    assert Ancestor(byId, id, 1) == p;
    if p.Some? {
      BelowIsAncestor(byId, p.value, a);
      if k: nat :| k > 0 && Ancestor(byId, p.value, k) == Some(a) {
        AncestorsOfAncestor(byId, id, 1, k);
        assert Ancestor(byId, id, k + 1) == Some(a);
      }
      if k: nat :| k > 0 && Ancestor(byId, id, k) == Some(a) {
        AncestorsOfAncestor(byId, id, 1, k - 1);
        if k > 1 {
          assert Ancestor(byId, p.value, k - 1) == Some(a);
        }
      }
    } else if k: nat :| k > 0 && Ancestor(byId, id, k) == Some(a) {
      ChainEnds(byId, id, 1, k);
    }
  }

  ghost function Descendants(byId: map<string, Quinhao>, p: Option<string>): (r: set<string>)
    requires Closed(byId) && Acyclic(byId)
  {
    set id | id in byId && Below(byId, id, p)
  }

  /** Descending from `p` means being, or descending from, one of its children. */
  lemma {:induction false} BelowThroughChild(byId: map<string, Quinhao>, id: string, p: Option<string>)
    returns (kid: string)
    requires Closed(byId) && Acyclic(byId) && id in byId && Below(byId, id, p)
    ensures kid in byId && byId[kid].parent == p && (id == kid || Below(byId, id, Some(kid)))
    decreases Depth(byId, id)
  {
    ChildDepth(byId, id);
    if byId[id].parent == p {
      kid := id;
    } else {
      kid := BelowThroughChild(byId, byId[id].parent.value, p);
    }
  }

  lemma {:induction false} BelowChild(byId: map<string, Quinhao>, id: string, kid: string, p: Option<string>)
    requires Closed(byId) && Acyclic(byId) && id in byId && kid in byId && byId[kid].parent == p
    requires Below(byId, id, Some(kid))
    ensures Below(byId, id, p)
    decreases Depth(byId, id)
  {
    ChildDepth(byId, id);
    if byId[id].parent != Some(kid) {
      BelowChild(byId, byId[id].parent.value, kid, p);
    }
  }

  // ---- children ----------------------------------------------------------

  lemma {:induction false} KidsAre(cs: seq<Quinhao>, p: Option<string>)
    ensures |Kids(cs, p)| <= |cs|
    ensures forall id :: id in Kids(cs, p) ==> exists i :: 0 <= i < |cs| && cs[i].id == id && cs[i].parent == p
    ensures forall i :: 0 <= i < |cs| && cs[i].parent == p ==> cs[i].id in Kids(cs, p)
    ensures UniqueIds(cs) ==> forall a, b :: 0 <= a < b < |Kids(cs, p)| ==> Kids(cs, p)[a] != Kids(cs, p)[b]
  {
    if cs != [] {
      var front, q := cs[..|cs| - 1], cs[|cs| - 1];
      KidsAre(front, p);
      forall id | id in Kids(cs, p) ensures exists i :: 0 <= i < |cs| && cs[i].id == id && cs[i].parent == p {
        if id in Kids(front, p) {
          var i :| 0 <= i < |front| && front[i].id == id && front[i].parent == p;
          assert cs[i].id == id && cs[i].parent == p;
        } else {
          assert q.id == id && q.parent == p;
        }
      }
      forall i | 0 <= i < |cs| && cs[i].parent == p ensures cs[i].id in Kids(cs, p) {
        if i < |front| {
          assert front[i].id in Kids(front, p);
        }
      }
      if UniqueIds(cs) {
        forall a | 0 <= a < |Kids(front, p)| ensures Kids(front, p)[a] != q.id {
          assert Kids(front, p)[a] in Kids(front, p);
        }
      }
    }
  }

  /** They are listed in claimant order: at increasing places, and at every place whose
      claimant names that parent. */
  lemma {:induction false} KidsInOrder(cs: seq<Quinhao>, p: Option<string>) returns (at: seq<nat>)
    ensures |at| == |Kids(cs, p)|
    ensures forall k :: 0 <= k < |at| ==> at[k] < |cs| && cs[at[k]].parent == p && Kids(cs, p)[k] == cs[at[k]].id
    ensures forall j, k :: 0 <= j < k < |at| ==> at[j] < at[k]
    ensures forall i: nat :: i < |cs| && cs[i].parent == p ==> i in at
  {
    if cs == [] {
      at := [];
    } else {
      var n := |cs| - 1;
      at := KidsInOrder(cs[..n], p);
      if cs[n].parent == p {
        at := at + [n];
      }
    }
  }

  lemma ChildIds(cs: seq<Quinhao>, p: Option<string>)
    requires UniqueIds(cs)
    ensures forall id :: id in Kids(cs, p) <==> id in ById(cs) && ById(cs)[id].parent == p
  {
    hide Kids, ById;
    ByIdKeys(cs);
    KidsAre(cs, p);
    forall id | id in ById(cs) && ById(cs)[id].parent == p ensures id in Kids(cs, p) {
      var i :| 0 <= i < |cs| && cs[i] == ById(cs)[id];
      assert cs[i].id in Kids(cs, p);
    }
  }

  // ---- ledgers -----------------------------------------------------------

  /** The total a ledger grants to a set of claimants. */
  ghost function Total(s: set<string>, g: map<string, nat>): (r: nat)
    requires s <= g.Keys
  {
    if s == {} then 0 else var x :| x in s; g[x] + Total(s - {x}, g)
  }

  lemma {:induction false} TotalWithout(s: set<string>, g: map<string, nat>, x: string)
    requires s <= g.Keys && x in s
    ensures Total(s, g) == g[x] + Total(s - {x}, g)
  {
    var y :| y in s && Total(s, g) == g[y] + Total(s - {y}, g);
    if x != y {
      TotalWithout(s - {y}, g, x);
      TotalWithout(s - {x}, g, y);
      assert s - {y} - {x} == s - {x} - {y};
    }
  }

  lemma {:induction false} TotalOfUnion(a: set<string>, b: set<string>, g: map<string, nat>)
    requires a <= g.Keys && b <= g.Keys
    ensures Total(a + b, g) <= Total(a, g) + Total(b, g)
  {
    if a == {} {
      assert a + b == b;
    } else {
      var x :| x in a;
      TotalWithout(a, g, x);
      TotalWithout(a + b, g, x);
      TotalOfUnion(a - {x}, b - {x}, g);
      assert a + b - {x} == (a - {x}) + (b - {x});
      if x in b {
        TotalWithout(b, g, x);
      } else {
        assert b - {x} == b;
      }
    }
  }

  ghost function KidGrants(cs: seq<Quinhao>, p: Option<string>, g: map<string, nat>): (r: seq<nat>)
    requires forall id :: id in Kids(cs, p) ==> id in g
    ensures |r| == |Kids(cs, p)|
    ensures forall i :: 0 <= i < |r| ==> r[i] == g[Kids(cs, p)[i]]
  {
    var kids := Kids(cs, p);
    seq(|kids|, i requires 0 <= i < |kids| && kids[i] in g => g[kids[i]])
  }

  ghost predicate IsLedger(cs: seq<Quinhao>, g: map<string, nat>) {
    WellFormed(cs) && g.Keys == ById(cs).Keys
  }

  /** What `p` has to split: its own grant, or the pool. */
  ghost function BandOf(g: map<string, nat>, pool: nat, p: Option<string>): (r: nat)
    requires p.Some? ==> p.value in g
  {
    if p.None? then pool else g[p.value]
  }

  /** Every level stays within what its parent was granted. */
  ghost predicate TreeRespecting(cs: seq<Quinhao>, g: map<string, nat>, pool: nat)
    requires IsLedger(cs, g)
  {
    forall p: Option<string> :: (p.Some? ==> p.value in g) && (forall id :: id in Kids(cs, p) ==> id in g) ==>
      Sum(KidGrants(cs, p, g)) <= BandOf(g, pool, p)
  }

  /** No member of `s` is an ancestor of another. */
  ghost predicate Antichain(byId: map<string, Quinhao>, s: set<string>)
    requires Closed(byId) && Acyclic(byId)
  {
    forall a, b :: a in s && b in s && a in byId ==> !Below(byId, a, Some(b))
  }

  lemma LedgerFacts(cs: seq<Quinhao>, g: map<string, nat>, p: Option<string>)
    requires IsLedger(cs, g)
    ensures Closed(ById(cs)) && Acyclic(ById(cs))
    ensures forall id :: id in Kids(cs, p) <==> id in g && ById(cs)[id].parent == p
  {
    hide Kids, ById;
    ResolvedIsClosed(cs);
    ChildIds(cs, p);
  }

  /** The part of `s` inside the trees of `p`'s first `n` children. */
  ghost function Within(cs: seq<Quinhao>, s: set<string>, p: Option<string>, n: nat): (r: set<string>)
    requires Closed(ById(cs)) && Acyclic(ById(cs)) && n <= |Kids(cs, p)|
  {
    set id | id in s && id in ById(cs) &&
             exists i :: 0 <= i < n && (id == Kids(cs, p)[i] || Below(ById(cs), id, Some(Kids(cs, p)[i])))
  }

  ghost function TreeOf(byId: map<string, Quinhao>, s: set<string>, kid: string): (r: set<string>)
    requires Closed(byId) && Acyclic(byId)
  {
    set id | id in s && id in byId && (id == kid || Below(byId, id, Some(kid)))
  }

  lemma WithinSnoc(cs: seq<Quinhao>, s: set<string>, p: Option<string>, n: nat)
    requires Closed(ById(cs)) && Acyclic(ById(cs)) && n < |Kids(cs, p)|
    ensures Within(cs, s, p, n + 1) == Within(cs, s, p, n) + TreeOf(ById(cs), s, Kids(cs, p)[n])
  {
    hide Kids, ById, Below;
  }

  lemma {:induction false} WithinTrees(cs: seq<Quinhao>, g: map<string, nat>, pool: nat, s: set<string>,
      p: Option<string>, n: nat)
    requires IsLedger(cs, g) && TreeRespecting(cs, g, pool) && (p.Some? ==> p.value in g)
    requires s <= g.Keys && Closed(ById(cs)) && Acyclic(ById(cs)) && Antichain(ById(cs), s)
    requires n <= |Kids(cs, p)| && forall id :: id in Kids(cs, p) ==> id in g
    ensures Total(Within(cs, s, p, n), g) <= Sum(KidGrants(cs, p, g)[..n])
    decreases |ById(cs)| - Level(ById(cs), p), n
  {
    if n == 0 {
      assert Within(cs, s, p, 0) == {};
    } else {
      var kid := Kids(cs, p)[n - 1];
      var tree := TreeOf(ById(cs), s, kid);
      assert kid in Kids(cs, p);
      WithinSnoc(cs, s, p, n - 1);
      hide *;
      WithinTrees(cs, g, pool, s, p, n - 1);
      OneTree(cs, g, pool, s, p, kid);
      TotalOfUnion(Within(cs, s, p, n - 1), tree, g);
      SumSnoc(KidGrants(cs, p, g), n - 1);
    }
  }

  /** Below one child: either the child itself is in `s`, alone, or all of `s` there
      sits strictly below it. */
  lemma {:induction false} OneTree(cs: seq<Quinhao>, g: map<string, nat>, pool: nat, s: set<string>, p: Option<string>,
      kid: string)
    requires IsLedger(cs, g) && TreeRespecting(cs, g, pool) && (p.Some? ==> p.value in g)
    requires s <= g.Keys && Closed(ById(cs)) && Acyclic(ById(cs)) && Antichain(ById(cs), s)
    requires kid in Kids(cs, p) && kid in g
    ensures Total(TreeOf(ById(cs), s, kid), g) <= g[kid]
    decreases |ById(cs)| - Level(ById(cs), p), 0
  {
    var tree := TreeOf(ById(cs), s, kid);
    LedgerFacts(cs, g, p);
    ChildDepth(ById(cs), kid);
    if kid in s {
      assert tree == {kid};
      TotalWithout(tree, g, kid);
      assert tree - {kid} == {};
    } else {
      SubtreeBound(cs, g, pool, tree, Some(kid));
    }
  }

  lemma {:induction false} SubtreeBound(cs: seq<Quinhao>, g: map<string, nat>, pool: nat, s: set<string>,
      p: Option<string>)
    requires IsLedger(cs, g) && TreeRespecting(cs, g, pool) && (p.Some? ==> p.value in g)
    requires s <= g.Keys && Closed(ById(cs)) && Acyclic(ById(cs)) && Antichain(ById(cs), s)
    requires forall id :: id in s ==> Below(ById(cs), id, p)
    ensures Total(s, g) <= BandOf(g, pool, p)
    decreases |ById(cs)| - Level(ById(cs), p), |cs| + 1
  {
    LedgerFacts(cs, g, p);
    KidsAre(cs, p);
    var n := |Kids(cs, p)|;
    WithinTrees(cs, g, pool, s, p, n);
    forall id | id in s ensures id in Within(cs, s, p, n) {
      var kid := BelowThroughChild(ById(cs), id, p);
      assert kid in Kids(cs, p);
      var i :| 0 <= i < n && Kids(cs, p)[i] == kid;
    }
    assert Within(cs, s, p, n) == s;
    assert KidGrants(cs, p, g)[..n] == KidGrants(cs, p, g);
  }

  /** Claimants none of which is an ancestor of another share the pool: their
      grants sum to at most the band. */
  lemma AntichainBounded(cs: seq<Quinhao>, g: map<string, nat>, pool: nat, s: set<string>)
    requires IsLedger(cs, g) && TreeRespecting(cs, g, pool)
    requires s <= g.Keys && Closed(ById(cs)) && Antichain(ById(cs), s)
    ensures Total(s, g) <= pool
  {
    forall id | id in s ensures Below(ById(cs), id, None) {
      BelowThePool(ById(cs), id);
    }
    SubtreeBound(cs, g, pool, s, None);
  }
}
