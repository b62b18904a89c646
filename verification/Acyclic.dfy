/** Depth-first cycle detection over an arbitrary finite dependency map, in the two
    variants the catalogs run: `done` checked before `stack`, and the other way
    round.  Both answer exactly whether a cycle is reachable from the roots. */
module Acyclic {
  type Node = nat

  function Deps(g: map<Node, seq<Node>>, x: Node): (r: seq<Node>) {
    if x in g then g[x] else []
  }

  ghost predicate IsPath(g: map<Node, seq<Node>>, p: seq<Node>) {
    p != [] && forall i :: 0 <= i < |p| - 1 ==> p[i + 1] in Deps(g, p[i])
  }

  ghost predicate Repeats(p: seq<Node>) {
    exists i, j :: 0 <= i < j < |p| && p[i] == p[j]
  }

  /** No dependency path from `x` comes back to a node it has passed. */
  ghost predicate Safe(g: map<Node, seq<Node>>, x: Node) {
    forall p :: IsPath(g, p) && p[0] == x ==> !Repeats(p)
  }

  ghost predicate AcyclicFrom(g: map<Node, seq<Node>>, roots: seq<Node>) {
    forall r :: r in roots ==> Safe(g, r)
  }

  ghost predicate AllSafe(g: map<Node, seq<Node>>, s: seq<Node>) {
    forall x :: x in s ==> Safe(g, x)
  }

  /** Everything the search can meet: closed under dependencies. */
  ghost predicate ClosedUnder(g: map<Node, seq<Node>>, all: set<Node>) {
    forall x, d :: x in all && d in Deps(g, x) ==> d in all
  }

  /** The search's stack is a path of distinct nodes leading to `id`. */
  ghost predicate LeadsTo(g: map<Node, seq<Node>>, all: set<Node>, stack: seq<Node>, id: Node) {
    && ClosedUnder(g, all) && id in all && (forall x :: x in stack ==> x in all)
    && !Repeats(stack) && IsPath(g, stack + [id])
  }

  // ---- paths -------------------------------------------------------------

  lemma PathTail(g: map<Node, seq<Node>>, p: seq<Node>)
    requires IsPath(g, p) && |p| > 1
    ensures IsPath(g, p[1..]) && p[1] in Deps(g, p[0])
  {
    forall i | 0 <= i < |p[1..]| - 1 ensures p[1..][i + 1] in Deps(g, p[1..][i]) {
      assert p[i + 2] in Deps(g, p[i + 1]);
    }
  }

  lemma PathTo(g: map<Node, seq<Node>>, p: seq<Node>, k: nat, x: Node)
    requires IsPath(g, p) && k < |p| && x in Deps(g, p[k])
    ensures IsPath(g, p[..k + 1] + [x])
  {
    var q := p[..k + 1] + [x];
    forall i | 0 <= i < |q| - 1 ensures q[i + 1] in Deps(g, q[i]) {
      if i < k {
        assert p[i + 1] in Deps(g, p[i]);
      }
    }
  }

  /** A path that reaches something depending on its start is not safe to start. */
  lemma ComesBack(g: map<Node, seq<Node>>, p: seq<Node>, k: nat)
    requires IsPath(g, p) && k < |p| && p[0] in Deps(g, p[k])
    ensures !Safe(g, p[0])
  {
    PathTo(g, p, k, p[0]);
    var loop := p[..k + 1] + [p[0]];
    assert loop[0] == loop[k + 1];
    assert Repeats(loop);
  }

  /** A node whose dependencies are all safe is safe. */
  lemma SafeFromDeps(g: map<Node, seq<Node>>, x: Node)
    requires forall d :: d in Deps(g, x) ==> Safe(g, d)
    ensures Safe(g, x)
  {
    forall p | IsPath(g, p) && p[0] == x ensures !Repeats(p) {
      if |p| > 1 {
        var tail := p[1..];
        PathTail(g, p);
        assert !Repeats(tail);
        forall k | 0 <= k < |tail| ensures tail[k] != x {
          if tail[k] == x {
            ComesBack(g, tail, k);
          }
        }
        forall i, j | 0 <= i < j < |p| ensures p[i] != p[j] {
          if i > 0 {
            assert tail[i - 1] != tail[j - 1];
          } else {
            assert p[j] == tail[j - 1];
          }
        }
      }
    }
  }

  lemma {:induction false} DistinctWithin(s: seq<Node>, all: set<Node>)
    requires !Repeats(s) && forall x :: x in s ==> x in all
    ensures |s| <= |all|
  {
    if s != [] {
      var last, front := s[|s| - 1], s[..|s| - 1];
      forall i | 0 <= i < |front| ensures front[i] != last {
        assert s[i] != s[|s| - 1];
      }
      forall i, j | 0 <= i < j < |front| ensures front[i] != front[j] {
        assert s[i] != s[j];
      }
      DistinctWithin(front, all - {last});
    }
  }

  /** Meeting a node already on the stack closes a cycle reachable from the first. */
  lemma BackEdge(g: map<Node, seq<Node>>, all: set<Node>, stack: seq<Node>, id: Node)
    requires LeadsTo(g, all, stack, id) && id in stack
    ensures !Safe(g, (stack + [id])[0])
  {
    var p := stack + [id];
    var i :| 0 <= i < |stack| && stack[i] == id;
    assert p[i] == p[|stack|];
    assert Repeats(p) && IsPath(g, p);
  }

  /** Pushing `id` and descending to one of its dependencies keeps the invariant. */
  lemma Descend(g: map<Node, seq<Node>>, all: set<Node>, stack: seq<Node>, id: Node, dep: Node)
    requires LeadsTo(g, all, stack, id) && id !in stack && dep in Deps(g, id)
    ensures LeadsTo(g, all, stack + [id], dep)
    ensures |stack| < |all|
  {
    var pushed := stack + [id];
    PathTo(g, pushed, |stack|, dep);
    assert pushed[..|stack| + 1] == pushed;
    forall i, j | 0 <= i < j < |pushed| ensures pushed[i] != pushed[j] {
      if j < |stack| {
        assert stack[i] != stack[j];
      }
    }
    DistinctWithin(pushed, all);
  }

  // ---- the search --------------------------------------------------------

  class Search {
    var stack: seq<Node>
    var done: seq<Node>

    constructor ()
      ensures stack == [] && done == []
    {
      stack, done := [], [];
    }

    method ResetStack()
      modifies this`stack
      ensures stack == []
    {
      stack := [];
    }

    /** The catalog's variant: `done` first; a refusal leaves the stack as it is. */
    method VisitDoneFirst(g: map<Node, seq<Node>>, id: Node, ghost all: set<Node>) returns (ok: bool)
      requires LeadsTo(g, all, stack, id) && AllSafe(g, done)
      modifies this
      ensures ok ==> stack == old(stack) && AllSafe(g, done) && Safe(g, id)
      ensures !ok ==> !Safe(g, (old(stack) + [id])[0])
      decreases |all| - |stack|
    {
      hide LeadsTo, Safe;
      if id in done {
        return true;
      }
      if id in stack {
        BackEdge(g, all, stack, id);
        return false;
      }
      ghost var path := stack;
      stack := stack + [id];
      var deps := Deps(g, id);
      for i := 0 to |deps|
        invariant stack == path + [id] && AllSafe(g, done)
        invariant forall k :: 0 <= k < i ==> Safe(g, deps[k])
      {
        Descend(g, all, path, id, deps[i]);
        var fine := VisitDoneFirst(g, deps[i], all);
        if !fine {
          return false;
        }
      }
      SafeFromDeps(g, id);
      stack := stack[..|stack| - 1];
      done := done + [id];
      return true;
    }

    /** The fallback graph's variant: `stack` first; it always pops and records. */
    method VisitStackFirst(g: map<Node, seq<Node>>, id: Node, ghost all: set<Node>) returns (ok: bool)
      requires LeadsTo(g, all, stack, id) && AllSafe(g, done)
      modifies this
      ensures stack == old(stack)
      ensures ok ==> AllSafe(g, done) && Safe(g, id)
      ensures !ok ==> !Safe(g, (old(stack) + [id])[0])
      decreases |all| - |stack|
    {
      hide LeadsTo, Safe;
      if id in stack {
        BackEdge(g, all, stack, id);
        return false;
      }
      if id in done {
        return true;
      }
      ghost var path := stack;
      stack := stack + [id];
      var deps := Deps(g, id);
      var i := 0;
      ok := true;
      while i < |deps| && ok
        invariant i <= |deps| && stack == path + [id]
        invariant ok ==> AllSafe(g, done) && forall k :: 0 <= k < i ==> Safe(g, deps[k])
        invariant !ok ==> !Safe(g, (path + [id])[0])
      {
        Descend(g, all, path, id, deps[i]);
        ok := VisitStackFirst(g, deps[i], all);
        i := i + 1;
      }
      if ok {
        SafeFromDeps(g, id);
      }
      stack := stack[..|stack| - 1];
      done := done + [id];
    }
  }

  ghost function Everything(g: map<Node, seq<Node>>, roots: seq<Node>): (r: set<Node>) {
    (set r | r in roots) + g.Keys + (set x, d | x in g && d in g[x] :: d)
  }

  lemma RootLeads(g: map<Node, seq<Node>>, roots: seq<Node>, r: Node)
    requires r in roots
    ensures LeadsTo(g, Everything(g, roots), [], r)
  {
  }

  /** `dependency_graph_is_acyclic`: a fresh stack per root, one shared `done`. */
  method DependencyGraphIsAcyclic(g: map<Node, seq<Node>>, roots: seq<Node>) returns (ok: bool)
    ensures ok <==> AcyclicFrom(g, roots)
  {
    hide LeadsTo, Safe;
    var search := new Search();
    for i := 0 to |roots|
      invariant AllSafe(g, search.done)
      invariant forall k :: 0 <= k < i ==> Safe(g, roots[k])
    {
      search.ResetStack();
      RootLeads(g, roots, roots[i]);
      var fine := search.VisitDoneFirst(g, roots[i], Everything(g, roots));
      if !fine {
        assert [] + [roots[i]] == [roots[i]];
        return false;
      }
    }
    return true;
  }

  /** `cascata_is_acyclic`: one shared stack and one shared `done`. */
  method CascataIsAcyclic(g: map<Node, seq<Node>>, roots: seq<Node>) returns (ok: bool)
    ensures ok <==> AcyclicFrom(g, roots)
  {
    hide LeadsTo, Safe;
    var search := new Search();
    var i := 0;
    ok := true;
    while i < |roots| && ok
      invariant i <= |roots| && search.stack == []
      invariant ok ==> AllSafe(g, search.done) && forall k :: 0 <= k < i ==> Safe(g, roots[k])
      invariant !ok ==> !AcyclicFrom(g, roots)
    {
      RootLeads(g, roots, roots[i]);
      ok := search.VisitStackFirst(g, roots[i], Everything(g, roots));
      assert [] + [roots[i]] == [roots[i]];
      i := i + 1;
    }
  }
}
