/** What the water-fill promises, on every band and every list of claims. */
module WaterFillLaws {
  import opened Arith
  import opened Machine
  import opened Sums
  import opened WaterFill

  // ---- range, conservation, termination ---------------------------------

  /** When the floors fit, every grant is between the floor and saturation. */
  lemma GrantsInRange(claims: seq<Demand>, band: nat, i: nat)
    requires FloorsFit(claims, band) && i < |claims|
    ensures claims[i].min <= Allocate(claims, band)[i] <= claims[i].Saturation()
  {
    assert Valid(claims, Run(claims, Initial(claims, band)));
  }

  lemma NoneActive(claims: seq<Demand>, st: Fill)
    requires Valid(claims, st) && ActiveWeight(claims, st.frozen) == 0
    ensures st.grant == Saturations(claims)
  {
    SumZero(ActiveWeights(claims, st.frozen));
    forall i | 0 <= i < |claims| ensures st.grant[i] == Saturations(claims)[i] {
      assert ActiveWeights(claims, st.frozen)[i] == 0;
    }
  }

  /** Exact conservation: the whole band is handed out, or every claim is full. */
  lemma Conservation(claims: seq<Demand>, band: nat)
    requires FloorsFit(claims, band)
    ensures Sum(Allocate(claims, band)) == Min(band, Sum(Saturations(claims)))
  {
    var st := Run(claims, Initial(claims, band));
    SumMonotone(st.grant, Saturations(claims));
    if ActiveWeight(claims, st.frozen) == 0 {
      NoneActive(claims, st);
    }
  }

  /** The fill ends within one pass per claim. */
  lemma AtMostOnePassPerClaim(claims: seq<Demand>, band: nat)
    requires FloorsFit(claims, band)
    ensures Passes(claims, Initial(claims, band)) <= |claims|
  {
    var marks := ActiveMarks(Initial(claims, band).frozen);
    var ones := seq(|claims|, i => 1);
    SumMonotone(marks, ones);
    SumConstant(ones, 1);
  }

  /** Floors that do not fit are scaled: nobody above its floor, the sum within
      the band, and less than one unit per claim lost to rounding. */
  lemma ScaledFloorsBounds(claims: seq<Demand>, band: nat)
    requires !FloorsFit(claims, band)
    ensures Sum(Allocate(claims, band)) <= band
    ensures band < Sum(Allocate(claims, band)) + Max(1, |claims|)
    ensures forall i :: 0 <= i < |claims| ==> Allocate(claims, band)[i] <= claims[i].min
  {
    var mins := Mins(claims);
    var total := Sum(mins);
    var r := ScaledFloors(claims, band);
    if total == 0 {
      SumZero(r);
    } else {
      var ones: seq<nat> := seq(|claims|, i => 1);
      forall i | 0 <= i < |claims|
        ensures r[i] * total <= band * mins[i] && band * mins[i] + ones[i] <= (r[i] + ones[i]) * total
        ensures r[i] <= mins[i]
      {
        ScaledFloorBounds(mins[i], band, total);
      }
      FlooredSums(r, mins, ones, band, total);
      SumConstant(ones, 1);
      CancelLe(Sum(r), band, total);
      CancelLt(band, Sum(r) + |claims|, total);
    }
  }

  lemma ScaledFloorBounds(min: nat, band: nat, total: nat)
    requires total > 0 && band <= total
    ensures var q := ScaledFloor(min, band, total);
            q * total <= band * min && band * min + 1 <= (q + 1) * total && q <= min
  {
    DivBounds(min * band, total);
    MulLe(band, total, min);
    CancelLe(ScaledFloor(min, band, total), min, total);
  }

  lemma WholeFloors(claims: seq<Demand>, band: nat)
    requires Sum(Mins(claims)) == band
    ensures forall i :: 0 <= i < |claims| ==> Allocate(claims, band)[i] == claims[i].min
  {
    SumZero(Mins(claims));
    forall i | 0 <= i < |claims| ensures Allocate(claims, band)[i] == claims[i].min {
      assert Mins(claims)[i] == claims[i].min;
      if band > 0 {
        WholeFloor(claims[i].min, band);
      }
    }
  }

  lemma WholeFloor(min: nat, band: nat)
    requires band > 0
    ensures ScaledFloor(min, band, band) == min
  {
    DivBounds(min * band, band);
    CancelLe(ScaledFloor(min, band, band), min, band);
    CancelLt(min, ScaledFloor(min, band, band) + 1, band);
  }

  /** Everybody gets its floor exactly when the floors sum to at most the band. */
  lemma FloorsMetIff(claims: seq<Demand>, band: nat)
    ensures (forall i :: 0 <= i < |claims| ==> claims[i].min <= Allocate(claims, band)[i])
        <==> Sum(Mins(claims)) <= band
  {
    hide Allocate;
    if Sum(Mins(claims)) < band {
      forall i | 0 <= i < |claims| ensures claims[i].min <= Allocate(claims, band)[i] {
        GrantsInRange(claims, band, i);
      }
    } else if Sum(Mins(claims)) == band {
      WholeFloors(claims, band);
    } else {
      BandBounded(claims, band);
      if forall i :: 0 <= i < |claims| ==> claims[i].min <= Allocate(claims, band)[i] {
        SumMonotone(Mins(claims), Allocate(claims, band));
      }
    }
  }

  /** The band is never over-allocated, whatever the claims. */
  lemma BandBounded(claims: seq<Demand>, band: nat)
    ensures Sum(Allocate(claims, band)) <= band
  {
    if FloorsFit(claims, band) {
      Conservation(claims, band);
    } else {
      ScaledFloorsBounds(claims, band);
    }
  }

  /** Exactly when a grant respects `min(max, demand)`: with floors that fit,
      when the floor itself does; otherwise when the scaled floor does. */
  lemma ClampRespectedIff(claims: seq<Demand>, band: nat, i: nat)
    requires i < |claims|
    ensures Allocate(claims, band)[i] <= claims[i].EffectiveCap()
       <==> if FloorsFit(claims, band) then claims[i].min <= claims[i].EffectiveCap()
            else claims[i].min * band <= claims[i].EffectiveCap() * Sum(Mins(claims)) + Max(0, Sum(Mins(claims)) - 1)
  {
    var total := Sum(Mins(claims));
    if FloorsFit(claims, band) {
      GrantsInRange(claims, band, i);
    } else if total == 0 {
      assert band == 0;
    } else {
      QuotientAtMost(claims[i].min * band, claims[i].EffectiveCap(), total);
    }
  }

  /** A floor of ten on a claim that may hold five: it is granted its floor. */
  lemma FloorBeyondCap()
    ensures var c := Demand(1, 10, 5, 5); Allocate([c], 20) == [10] && 10 > c.EffectiveCap()
  {
    var claims := [Demand(1, 10, 5, 5)];
    SumConstant(Mins(claims), 10);
    hide Allocate;
    GrantsInRange(claims, 20, 0);
  }

  lemma QuotientAtMost(p: nat, cap: nat, d: nat)
    requires d > 0
    ensures p / d <= cap <==> p <= cap * d + d - 1
  {
    DivBounds(p, d);
    Spread(cap, 1, d);
    if p / d <= cap {
      MulLe(p / d + 1, cap + 1, d);
    } else {
      MulLe(cap + 1, p / d, d);
    }
  }

  // ---- weighted max-min fairness ----------------------------------------

  /** `j` is no further above its floor than `i`, weight for weight, up to
      `slack` roundings. */
  ghost predicate FairTo(claims: seq<Demand>, g: seq<nat>, i: nat, j: nat, slack: nat)
    requires |g| == |claims| && i < |claims| && j < |claims|
  {
    (g[j] - claims[j].min) * claims[i].weight
      <= (g[i] - claims[i].min) * claims[j].weight + slack * (claims[i].weight + claims[j].weight)
  }

  lemma CrossShares(qi: nat, qj: nat, wi: nat, wj: nat, r: nat, aw: nat)
    requires aw > 0
    requires qj * aw <= r * wj
    requires r * wi <= (qi + 1) * aw
    ensures qj * wi <= (qi + 1) * wj
  {
    MulLe(qj * aw, r * wj, wi);
    MulLe(r * wi, (qi + 1) * aw, wj);
    Swap(qj, aw, wi);
    Swap(r, wj, wi);
    Swap(qi + 1, aw, wj);
    CancelLe(qj * wi, (qi + 1) * wj, aw);
  }

  /** Two active claims' adds in one pass, weight for weight. */
  lemma FairAdds(ai: nat, aj: nat, wi: nat, wj: nat, r: nat, aw: nat)
    requires aw > 0
    requires Share(wi, r, aw) <= ai && aj <= Share(wj, r, aw) + 1
    ensures aj * wi <= ai * wj + wi + wj
  {
    var qi, qj := Share(wi, r, aw), Share(wj, r, aw);
    ShareBounds(wi, r, aw);
    ShareBounds(wj, r, aw);
    CrossShares(qi, qj, wi, wj, r, aw);
    MulLe(aj, qj + 1, wi);
    MulLe(qi + 1, ai + 1, wj);
    Spread(qj, 1, wi);
    Spread(ai, 1, wj);
  }

  lemma FairStep(gi: int, gj: int, di: nat, dj: nat, wi: nat, wj: nat, slack: nat)
    requires gj * wi <= gi * wj + slack * (wi + wj)
    requires dj * wi <= di * wj + wi + wj
    ensures (gj + dj) * wi <= (gi + di) * wj + (slack + 1) * (wi + wj)
  {
    Spread(gj, dj, wi);
    Spread(gi, di, wj);
    Spread(slack, 1, wi + wj);
  }

  lemma PassIsApply(claims: seq<Demand>, st: Fill)
    requires Valid(claims, st) && ActiveWeight(claims, st.frozen) > 0
    ensures Pass(claims, st) == Apply(claims, st, Adds(claims, st.frozen, st.remaining))
    ensures |Pass(claims, st).frozen| == |claims|
  {
  }

  /** What a pass adds, against the floored shares: at least the share to a claim
      still active afterwards, at most one unit above it to any claim. */
  lemma PassRaises(claims: seq<Demand>, st: Fill, i: nat)
    requires Valid(claims, st) && ActiveWeight(claims, st.frozen) > 0 && i < |claims|
    ensures var st' := Pass(claims, st);
            var d := st'.grant[i] - st.grant[i];
            var q := Share(claims[i].weight, st.remaining, ActiveWeight(claims, st.frozen));
            0 <= d <= q + 1 && (!st'.frozen[i] ==> q <= d)
  {
    hide Share;
    AddBounds(claims, st.frozen, st.remaining, i);
    ShareNonNegative(claims[i].weight, st.remaining, ActiveWeight(claims, st.frozen));
  }

  lemma ShareNonNegative(weight: nat, remaining: nat, activeWeight: nat)
    requires activeWeight > 0
    ensures 0 <= Share(weight, remaining, activeWeight)
  {
  }

  lemma PassKeepsFair(claims: seq<Demand>, st: Fill, i: nat, j: nat, slack: nat)
    requires Valid(claims, st) && ActiveWeight(claims, st.frozen) > 0
    requires i < |claims| && j < |claims|
    requires !Pass(claims, st).frozen[i]
    requires FairTo(claims, st.grant, i, j, slack)
    ensures FairTo(claims, Pass(claims, st).grant, i, j, slack + 1)
  {
    hide Share, Pass, ActiveWeight;
    var st' := Pass(claims, st);
    PassConserves(claims, st);
    PassRaises(claims, st, i);
    PassRaises(claims, st, j);
    var di, dj := st'.grant[i] - st.grant[i], st'.grant[j] - st.grant[j];
    var wi, wj := claims[i].weight, claims[j].weight;
    FairAdds(di, dj, wi, wj, st.remaining, ActiveWeight(claims, st.frozen));
    FairStep(st.grant[i] - claims[i].min, st.grant[j] - claims[j].min, di, dj, wi, wj, slack);
  }

  /** One turn of the loop: the pass is valid, and the fill either stops there or
      goes on with fewer active claims. */
  lemma RunUnfolds(claims: seq<Demand>, st: Fill)
    requires Valid(claims, st) && !Finished(claims, st)
    ensures ActiveWeight(claims, st.frozen) > 0 && Valid(claims, Pass(claims, st))
    ensures Pass(claims, st).frozen == st.frozen ==>
      Run(claims, st) == Pass(claims, st) && Passes(claims, st) == 1
    ensures Pass(claims, st).frozen != st.frozen ==>
      && ActiveCount(Pass(claims, st).frozen) < ActiveCount(st.frozen)
      && Run(claims, st) == Run(claims, Pass(claims, st))
      && Passes(claims, st) == 1 + Passes(claims, Pass(claims, st))
  {
    hide Share;
    PassConserves(claims, st);
    PassProgress(claims, st);
  }

  lemma RunStops(claims: seq<Demand>, st: Fill)
    requires Valid(claims, st)
    ensures |st.grant| == |st.frozen| == |claims|
    ensures Finished(claims, st) ==> Run(claims, st) == st && Passes(claims, st) == 0
  {
  }

  lemma {:induction false} RunKeepsFrozen(claims: seq<Demand>, st: Fill, i: nat)
    requires Valid(claims, st) && i < |claims| && st.frozen[i]
    ensures Run(claims, st).frozen[i]
    decreases ActiveCount(st.frozen)
  {
    if !Finished(claims, st) {
      RunUnfolds(claims, st);
      if Pass(claims, st).frozen != st.frozen {
        RunKeepsFrozen(claims, Pass(claims, st), i);
      }
    }
  }

  lemma {:induction false} RunFair(claims: seq<Demand>, st: Fill, i: nat, j: nat, slack: nat)
    requires Valid(claims, st) && i < |claims| && j < |claims|
    requires !Run(claims, st).frozen[i]
    requires FairTo(claims, st.grant, i, j, slack)
    ensures FairTo(claims, Run(claims, st).grant, i, j, slack + Passes(claims, st))
    decreases ActiveCount(st.frozen)
  {
    hide *;
    RunStops(claims, st);
    if !Finished(claims, st) {
      RunUnfolds(claims, st);
      var st' := Pass(claims, st);
      RunStops(claims, st');
      if st'.frozen == st.frozen {
        PassKeepsFair(claims, st, i, j, slack);
      } else {
        if st'.frozen[i] {
          RunKeepsFrozen(claims, st', i);
        }
        PassKeepsFair(claims, st, i, j, slack);
        RunFair(claims, st', i, j, slack + 1);
      }
    }
  }

  /** Weighted max-min fairness up to rounding: a claim left below its cap is
      outdone, weight for weight above the floors, by no positive-weight claim, up to
      one rounding per pass. */
  lemma WeightedFairness(claims: seq<Demand>, band: nat, i: nat, j: nat)
    requires FloorsFit(claims, band) && i < |claims| && j < |claims|
    requires claims[i].weight > 0
    requires Allocate(claims, band)[i] < claims[i].EffectiveCap()
    ensures Valid(claims, Initial(claims, band))
    ensures FairTo(claims, Allocate(claims, band), i, j, Passes(claims, Initial(claims, band)))
    ensures FairTo(claims, Allocate(claims, band), i, j, |claims|)
  {
    hide *;
    var st := Initial(claims, band);
    AllocateIsRun(claims, band);
    AtMostOnePassPerClaim(claims, band);
    NoneAbove(claims, i, j);
    RunFair(claims, st, i, j, 0);
    MoreSlack(claims, Allocate(claims, band), i, j, Passes(claims, st), |claims|);
  }

  lemma AllocateIsRun(claims: seq<Demand>, band: nat)
    requires FloorsFit(claims, band)
    ensures var st, r := Initial(claims, band), Run(claims, Initial(claims, band));
            && Valid(claims, st) && st.grant == Mins(claims)
            && Allocate(claims, band) == r.grant && |r.frozen| == |claims|
            && forall i :: 0 <= i < |claims| && r.grant[i] < claims[i].EffectiveCap() && claims[i].weight > 0
                ==> !r.frozen[i]
  {
    hide Share;
  }

  lemma NoneAbove(claims: seq<Demand>, i: nat, j: nat)
    requires i < |claims| && j < |claims|
    ensures FairTo(claims, Mins(claims), i, j, 0)
  {
  }

  lemma MoreSlack(claims: seq<Demand>, g: seq<nat>, i: nat, j: nat, slack: nat, more: nat)
    requires |g| == |claims| && i < |claims| && j < |claims|
    requires FairTo(claims, g, i, j, slack) && slack <= more
    ensures FairTo(claims, g, i, j, more)
  {
    MulLe(slack, more, claims[i].weight + claims[j].weight);
  }

  // ---- identical claims --------------------------------------------------

  /** Twins between passes: the lower index leads by at most `lead`, and has
      frozen whenever the higher one has. */
  ghost predicate Twins(claims: seq<Demand>, st: Fill, i: nat, j: nat, lead: nat) {
    && i < j < |claims| && claims[i] == claims[j]
    && |st.grant| == |st.frozen| == |claims|
    && (st.frozen[j] ==> st.frozen[i])
    && st.grant[j] <= st.grant[i] <= st.grant[j] + lead
  }

  /** Crumbs go by the order: never to a later claim and not to an earlier one, so
      heavier claims come first and equal ones by index. */
  lemma CrumbsInOrder(claims: seq<Demand>, frozen: seq<bool>, remaining: nat, i: nat, j: nat)
    requires |frozen| == |claims| && ActiveWeight(claims, frozen) > 0
    requires i < |claims| && j < |claims| && !frozen[i] && !frozen[j]
    requires claims[i].weight > claims[j].weight || (claims[i].weight == claims[j].weight && i < j)
    ensures Adds(claims, frozen, remaining)[j] - Shares(claims, frozen, remaining)[j]
         <= Adds(claims, frozen, remaining)[i] - Shares(claims, frozen, remaining)[i]
  {
    hide Share;
    var order := Order(claims, frozen, |claims|);
    var crumb := Crumb(claims, frozen, remaining);
    hide Order, Crumb;
    if j in order[..crumb] {
      var b :| 0 <= b < crumb && order[b] == j;
      assert i in order;
      var a :| 0 <= a < |order| && order[a] == i;
      assert a < b by {
        assert !Before(claims, j, i);
      }
      assert order[..crumb][a] == i;
    }
  }

  /** A crumb never goes to the higher twin alone. */
  lemma TwinCrumbs(claims: seq<Demand>, frozen: seq<bool>, remaining: nat, i: nat, j: nat)
    requires |frozen| == |claims| && ActiveWeight(claims, frozen) > 0
    requires i < j < |claims| && claims[i].weight == claims[j].weight && !frozen[i] && !frozen[j]
    ensures Adds(claims, frozen, remaining)[j] <= Adds(claims, frozen, remaining)[i]
    ensures Adds(claims, frozen, remaining)[i] <= Adds(claims, frozen, remaining)[j] + 1
  {
    CrumbsInOrder(claims, frozen, remaining, i, j);
    AddBounds(claims, frozen, remaining, i);
    AddBounds(claims, frozen, remaining, j);
    hide Share, Adds;
  }

  lemma PassTwins(claims: seq<Demand>, st: Fill, i: nat, j: nat, lead: nat)
    requires Valid(claims, st) && ActiveWeight(claims, st.frozen) > 0
    requires Twins(claims, st, i, j, lead)
    ensures Twins(claims, Pass(claims, st), i, j, lead + 1)
  {
    AddBounds(claims, st.frozen, st.remaining, i);
    AddBounds(claims, st.frozen, st.remaining, j);
    if !st.frozen[i] && !st.frozen[j] {
      TwinCrumbs(claims, st.frozen, st.remaining, i, j);
    }
  }

  lemma {:induction false} RunTwins(claims: seq<Demand>, st: Fill, i: nat, j: nat, lead: nat)
    requires Valid(claims, st) && Twins(claims, st, i, j, lead)
    ensures Twins(claims, Run(claims, st), i, j, lead + Passes(claims, st))
    decreases ActiveCount(st.frozen)
  {
    if !Finished(claims, st) {
      PassConserves(claims, st);
      PassProgress(claims, st);
      PassTwins(claims, st, i, j, lead);
      if Pass(claims, st).frozen != st.frozen {
        RunTwins(claims, Pass(claims, st), i, j, lead + 1);
      }
    }
  }

  /** Identical claims: the lower index never gets less, and leads by at most
      one unit per pass (by nothing when the floors are scaled). */
  lemma IdenticalClaims(claims: seq<Demand>, band: nat, i: nat, j: nat)
    requires i < j < |claims| && claims[i] == claims[j]
    ensures var g := Allocate(claims, band);
            g[j] <= g[i] <= g[j] + if FloorsFit(claims, band) then Passes(claims, Initial(claims, band)) else 0
  {
    if FloorsFit(claims, band) {
      RunTwins(claims, Initial(claims, band), i, j, 0);
    }
  }
}
