/** Two identical claims in any list: exactly when they are granted the same, and for
    a list that one pass settles, exactly when on the inputs. */
module WaterFillTwins {
  import opened Sums
  import opened WaterFill
  import opened WaterFillLaws
  import opened WaterFillUniform

  // ---- any list ----------------------------------------------------------

  /** In some pass of the fill the two are added different amounts: the crumbs ran out
      between them, or one of them had already frozen. */
  ghost predicate Separated(claims: seq<Demand>, st: Fill, i: nat, j: nat)
    requires Valid(claims, st) && i < |claims| && j < |claims|
    decreases ActiveCount(st.frozen)
  {
    if Finished(claims, st) then false
    else
      RunUnfolds(claims, st);
      Adds(claims, st.frozen, st.remaining)[i] != Adds(claims, st.frozen, st.remaining)[j]
      || (Pass(claims, st).frozen != st.frozen && Separated(claims, Pass(claims, st), i, j))
  }

  lemma SeparatedUnfolds(claims: seq<Demand>, st: Fill, i: nat, j: nat)
    requires Valid(claims, st) && !Finished(claims, st) && i < |claims| && j < |claims|
    ensures ActiveWeight(claims, st.frozen) > 0 && Valid(claims, Pass(claims, st)) && |st.frozen| == |claims|
    ensures Separated(claims, st, i, j)
       <==> Adds(claims, st.frozen, st.remaining)[i] != Adds(claims, st.frozen, st.remaining)[j]
            || (Pass(claims, st).frozen != st.frozen && Separated(claims, Pass(claims, st), i, j))
  {
    hide Pass, Adds, Valid;
    RunUnfolds(claims, st);
    RunStops(claims, st);
  }

  /** While the higher twin has room, the lower one leads after a pass exactly when it
      led before it or was added more in it. */
  lemma PassLeadsIff(claims: seq<Demand>, st: Fill, i: nat, j: nat, lead: nat)
    requires Valid(claims, st) && ActiveWeight(claims, st.frozen) > 0 && Twins(claims, st, i, j, lead)
    requires |Pass(claims, st).frozen| == |claims| == |Pass(claims, st).grant| && !Pass(claims, st).frozen[j]
    ensures Pass(claims, st).grant[i] > Pass(claims, st).grant[j]
       <==> st.grant[i] > st.grant[j]
            || Adds(claims, st.frozen, st.remaining)[i] != Adds(claims, st.frozen, st.remaining)[j]
  {
    if !st.frozen[i] && !st.frozen[j] {
      TwinCrumbs(claims, st.frozen, st.remaining, i, j);
    }
    hide Adds, ActiveWeight, Sum;
  }

  lemma {:induction false} RunLeadsIff(claims: seq<Demand>, st: Fill, i: nat, j: nat, lead: nat)
    requires Valid(claims, st) && Twins(claims, st, i, j, lead)
    requires |Run(claims, st).frozen| == |claims| == |Run(claims, st).grant| && !Run(claims, st).frozen[j]
    ensures Run(claims, st).grant[i] > Run(claims, st).grant[j]
       <==> st.grant[i] > st.grant[j] || Separated(claims, st, i, j)
    decreases ActiveCount(st.frozen)
  {
    hide Pass, Adds, ActiveWeight, ActiveCount, Run, Valid;
    RunStops(claims, st);
    if !Finished(claims, st) {
      RunUnfolds(claims, st);
      SeparatedUnfolds(claims, st, i, j);
      var st' := Pass(claims, st);
      RunStops(claims, st');
      if st'.frozen[j] {
        RunKeepsFrozen(claims, st', j);
      } else {
        PassLeadsIff(claims, st, i, j, lead);
        PassTwins(claims, st, i, j, lead);
        if st'.frozen != st.frozen {
          RunLeadsIff(claims, st', i, j, lead + 1);
        }
      }
    }
  }

  lemma FrozenTwins(claims: seq<Demand>, st: Fill, i: nat, j: nat, lead: nat)
    requires Valid(claims, st) && Twins(claims, st, i, j, lead) && st.frozen[j]
    ensures st.grant[i] == st.grant[j]
  {
  }

  lemma RunIsValid(claims: seq<Demand>, st: Fill)
    requires Valid(claims, st)
    ensures Valid(claims, Run(claims, st)) && |Run(claims, st).frozen| == |claims| == |Run(claims, st).grant|
  {
    hide Pass;
  }

  /** From where twins agree, they end up granted the same exactly when the higher one
      reaches its cap or no pass separates them. */
  lemma TwinsAgreeIff(claims: seq<Demand>, st: Fill, i: nat, j: nat)
    requires Valid(claims, st) && Twins(claims, st, i, j, 0)
    ensures |Run(claims, st).frozen| == |claims| == |Run(claims, st).grant|
    ensures Run(claims, st).grant[i] == Run(claims, st).grant[j]
       <==> Run(claims, st).frozen[j] || !Separated(claims, st, i, j)
  {
    hide Run, Valid, Separated;
    RunIsValid(claims, st);
    RunTwins(claims, st, i, j, 0);
    if Run(claims, st).frozen[j] {
      FrozenTwins(claims, Run(claims, st), i, j, Passes(claims, st));
    } else {
      RunLeadsIff(claims, st, i, j, 0);
    }
  }

  /** The higher twin is left with room under its cap, and some pass separated them. */
  ghost predicate TornApart(claims: seq<Demand>, band: nat, i: nat, j: nat)
    requires FloorsFit(claims, band) && i < |claims| && j < |claims|
  {
    !claims[j].StartsFrozen() && Allocate(claims, band)[j] < claims[j].EffectiveCap()
    && Separated(claims, Initial(claims, band), i, j)
  }

  /** Exactly when equal claims get equal grants. */
  lemma EqualGrantsIff(claims: seq<Demand>, band: nat, i: nat, j: nat)
    requires i < j < |claims| && claims[i] == claims[j]
    ensures Allocate(claims, band)[i] == Allocate(claims, band)[j]
       <==> !FloorsFit(claims, band) || !TornApart(claims, band, i, j)
  {
    if FloorsFit(claims, band) {
      var st := Initial(claims, band);
      TwinsAgreeIff(claims, st, i, j);
      RunIsValid(claims, st);
      hide Pass, Adds, Separated, ActiveWeight, Initial;
      AllocateIsRun(claims, band);
      StartsFrozenStays(claims, band, j);
    }
  }

  lemma StartsFrozenStays(claims: seq<Demand>, band: nat, j: nat)
    requires FloorsFit(claims, band) && j < |claims|
    ensures var r := Run(claims, Initial(claims, band));
            Valid(claims, r) && |r.frozen| == |claims| == |r.grant|
            && (r.frozen[j] <==> claims[j].StartsFrozen() || r.grant[j] >= claims[j].EffectiveCap())
  {
    var st := Initial(claims, band);
    RunIsValid(claims, st);
    if st.frozen[j] {
      RunKeepsFrozen(claims, st, j);
    }
    hide Pass, Run, ActiveWeight;
  }

  // ---- lists that one pass settles ---------------------------------------

  function MarksBefore(claims: seq<Demand>, frozen: seq<bool>, i: nat): (r: seq<nat>)
    requires |frozen| == |claims|
    ensures |r| == |claims|
    ensures forall k :: 0 <= k < |r| ==> r[k] == if !frozen[k] && Before(claims, k, i) then 1 else 0
  {
    seq(|claims|, k requires 0 <= k < |claims| => if !frozen[k] && Before(claims, k, i) then 1 else 0)
  }

  /** How many active claims come before `i` for a crumb: heavier ones, and equally
      heavy ones of lower index. */
  function Rank(claims: seq<Demand>, frozen: seq<bool>, i: nat): (p: nat)
    requires |frozen| == |claims|
  {
    Sum(MarksBefore(claims, frozen, i))
  }

  lemma EarlierIff(claims: seq<Demand>, frozen: seq<bool>, p: nat, k: nat)
    requires |frozen| == |claims| && k < |claims| && p < |Order(claims, frozen, |claims|)|
    ensures var order := Order(claims, frozen, |claims|);
            k in order[..p] <==> !frozen[k] && Before(claims, k, order[p])
  {
    var order := Order(claims, frozen, |claims|);
    assert k in order <==> !frozen[k];
    hide Order;
    forall a | p <= a < |order| ensures !Before(claims, order[a], order[p]) {
      if a > p {
        assert Before(claims, order[p], order[a]);
      }
    }
    forall a | 0 <= a < p ensures Before(claims, order[a], order[p]) && order[a] == order[..p][a] {
    }
  }

  /** A claim's place in the crumb order is its rank. */
  lemma PlaceIsRank(claims: seq<Demand>, frozen: seq<bool>, p: nat)
    requires |frozen| == |claims| && p < |Order(claims, frozen, |claims|)|
    ensures Rank(claims, frozen, Order(claims, frozen, |claims|)[p]) == p
  {
    var order := Order(claims, frozen, |claims|);
    hide Order, Sum, Before;
    var bits, marks := CrumbBits(|claims|, order, p), MarksBefore(claims, frozen, order[p]);
    forall k: nat | k < |claims| ensures bits[k] == marks[k] {
      EarlierIff(claims, frozen, p, k);
    }
    assert bits == marks;
    CrumbBitsSum(claims, order, p);
  }

  /** An active claim gets one of the first `crumb` crumbs exactly when its rank is
      below that number. */
  lemma CrumbByRank(claims: seq<Demand>, frozen: seq<bool>, crumb: nat, i: nat)
    requires |frozen| == |claims| && i < |claims| && !frozen[i] && crumb <= |Order(claims, frozen, |claims|)|
    ensures i in Order(claims, frozen, |claims|)[..crumb] <==> Rank(claims, frozen, i) < crumb
  {
    var order := Order(claims, frozen, |claims|);
    assert i in order;
    var p :| 0 <= p < |order| && order[p] == i;
    PlaceIsRank(claims, frozen, p);
    hide Order, Rank;
    if p < crumb {
      assert order[..crumb][p] == i;
    } else {
      forall a | 0 <= a < crumb ensures order[a] != i {
        assert Before(claims, order[a], order[p]);
      }
    }
  }

  /** What the first pass adds to an active claim, on the inputs. */
  function FirstAdd(claims: seq<Demand>, band: nat, i: nat): (add: nat)
    requires FloorsFit(claims, band) && i < |claims| && ActiveWeight(claims, Initial(claims, band).frozen) > 0
  {
    var frozen := Initial(claims, band).frozen;
    Share(claims[i].weight, Surplus(claims, band), ActiveWeight(claims, frozen))
    + if Rank(claims, frozen, i) < Crumb(claims, frozen, Surplus(claims, band)) then 1 else 0
  }

  lemma FirstAddIs(claims: seq<Demand>, band: nat, i: nat)
    requires FloorsFit(claims, band) && i < |claims| && !claims[i].StartsFrozen()
    requires ActiveWeight(claims, Initial(claims, band).frozen) > 0
    ensures Adds(claims, Initial(claims, band).frozen, Surplus(claims, band))[i] == FirstAdd(claims, band, i)
  {
    hide Share, Order, Sum, ActiveWeight;
    var frozen := Initial(claims, band).frozen;
    CrumbByRank(claims, frozen, Crumb(claims, frozen, Surplus(claims, band)), i);
  }

  /** Nobody reaches its cap in the first pass. */
  predicate OnePassSettles(claims: seq<Demand>, band: nat)
    requires FloorsFit(claims, band)
  {
    && ActiveWeight(claims, Initial(claims, band).frozen) > 0
    && forall k :: 0 <= k < |claims| && !claims[k].StartsFrozen() ==>
         claims[k].min + FirstAdd(claims, band, k) < claims[k].EffectiveCap()
  }

  lemma NobodyFreezes(claims: seq<Demand>, st: Fill)
    requires Valid(claims, st) && !Finished(claims, st)
    requires |st.frozen| == |claims| == |st.grant| && ActiveWeight(claims, st.frozen) > 0
    requires forall k :: 0 <= k < |claims| && !st.frozen[k] ==>
      st.grant[k] + Adds(claims, st.frozen, st.remaining)[k] < claims[k].EffectiveCap()
    ensures |Run(claims, st).grant| == |claims|
    ensures forall k :: 0 <= k < |claims| && !st.frozen[k] ==>
      Run(claims, st).grant[k] == st.grant[k] + Adds(claims, st.frozen, st.remaining)[k]
  {
    hide Share, Adds, ActiveWeight, Run, Finished, Sum;
    RunUnfolds(claims, st);
    assert Pass(claims, st).frozen == st.frozen;
  }

  lemma InitialIs(claims: seq<Demand>, band: nat)
    requires FloorsFit(claims, band)
    ensures var st := Initial(claims, band);
            && |st.frozen| == |claims| == |st.grant| && st.remaining == Surplus(claims, band) > 0
            && forall k :: 0 <= k < |claims| ==>
                 st.frozen[k] == claims[k].StartsFrozen() && st.grant[k] == claims[k].min
  {
  }

  lemma SettledGrant(claims: seq<Demand>, band: nat, i: nat)
    requires FloorsFit(claims, band) && OnePassSettles(claims, band) && i < |claims| && !claims[i].StartsFrozen()
    ensures Allocate(claims, band)[i] == claims[i].min + FirstAdd(claims, band, i)
  {
    hide Adds, FirstAdd, Initial, ActiveWeight, Run, FloorsFit, Surplus, Demand.StartsFrozen, Allocate, Valid;
    var st := Initial(claims, band);
    InitialIs(claims, band);
    AllocateIsRun(claims, band);
    forall k | 0 <= k < |claims| && !claims[k].StartsFrozen()
      ensures Adds(claims, st.frozen, st.remaining)[k] == FirstAdd(claims, band, k)
    {
      FirstAddIs(claims, band, k);
    }
    NobodyFreezes(claims, st);
  }

  /** On a list that one pass settles, equal claims get equal grants exactly when the
      crumbs do not run out between them. */
  lemma SettledTwinsIff(claims: seq<Demand>, band: nat, i: nat, j: nat)
    requires FloorsFit(claims, band) && OnePassSettles(claims, band)
    requires i < j < |claims| && claims[i] == claims[j] && !claims[i].StartsFrozen()
    ensures var frozen := Initial(claims, band).frozen;
            var crumb := Crumb(claims, frozen, Surplus(claims, band));
            Allocate(claims, band)[i] == Allocate(claims, band)[j]
            <==> crumb <= Rank(claims, frozen, i) || Rank(claims, frozen, j) < crumb
  {
    hide Allocate, Initial, Surplus, Crumb, Rank, Share, ActiveWeight, FloorsFit;
    SettledGrant(claims, band, i);
    SettledGrant(claims, band, j);
    RanksOfTwins(claims, Initial(claims, band).frozen, i, j);
  }

  lemma RanksOfTwins(claims: seq<Demand>, frozen: seq<bool>, i: nat, j: nat)
    requires |frozen| == |claims| && i < j < |claims| && claims[i].weight == claims[j].weight
    ensures Rank(claims, frozen, i) <= Rank(claims, frozen, j)
  {
    hide Sum;
    SumMonotone(MarksBefore(claims, frozen, i), MarksBefore(claims, frozen, j));
  }
}
