/** `allocate_even` itself: the nested loops over `grant`, `frozen`, `adds` and
    `remaining`, proved to compute `WaterFill.Allocate`.  Every intermediate the
    code keeps in a `u128` is declared `u128` here, so the proof also shows that
    none of them overflows and that no narrowing back to `u64` loses anything. */
module WaterFillKernel {
  import opened Arith
  import opened Machine
  import opened Sums
  import opened WaterFill
  import opened WaterFillLaws
  import opened WaterFillFields

  type Claims = s: seq<Demand> | |s| <= MAX_LEN

  method AllocateEven(band: u64, claims: Claims) returns (grants: seq<u64>)
    ensures grants == Allocate(claims, band)
    ensures Sum(grants) <= band
    ensures Sum(Mins(claims)) < band ==> Sum(grants) == if band <= Sum(Dues(claims)) then band else Sum(Dues(claims))
    ensures forall i :: 0 <= i < |claims| && claims[i].min <= claims[i].max && claims[i].min <= claims[i].demand ==>
      grants[i] <= claims[i].max && grants[i] <= claims[i].demand
  {
    KeepsToFields(claims, band);
    hide Run, Share, Dues, Due;
    var n := |claims|;
    if n == 0 {
      return [];
    }
    SumBelow(Mins(claims), U64_MAX);
    var sumMin: u128 := Sum(Mins(claims));
    if sumMin >= band {
      if sumMin == 0 {
        return seq(n, _ => 0);
      }
      grants := ScaleFloors(band, claims, sumMin);
    } else {
      var st := Initial(claims, band);
      grants := FillToFixpoint(claims, st.grant, st.frozen, st.remaining, band);
    }
  }

  lemma KeepsToFields(claims: seq<Demand>, band: nat)
    ensures var g := Allocate(claims, band);
            && Sum(g) <= band
            && (Sum(Mins(claims)) < band ==> Sum(g) == if band <= Sum(Dues(claims)) then band else Sum(Dues(claims)))
            && forall i :: 0 <= i < |claims| && claims[i].min <= claims[i].max && claims[i].min <= claims[i].demand ==>
                 g[i] <= claims[i].max && g[i] <= claims[i].demand
  {
    hide Allocate, Sum, Due;
    BandBounded(claims, band);
    if Sum(Mins(claims)) < band {
      ConservationOfDues(claims, band);
    }
    forall i | 0 <= i < |claims| && claims[i].min <= claims[i].max && claims[i].min <= claims[i].demand
      ensures Allocate(claims, band)[i] <= claims[i].max && Allocate(claims, band)[i] <= claims[i].demand
    {
      WithinMaxAndDemand(claims, band, i);
    }
  }

  /** The pass loop, from the floors to the fixpoint. */
  method FillToFixpoint(claims: Claims, grant0: seq<u64>, frozen0: seq<bool>, remaining0: u128, ghost band: u64)
    returns (grant: seq<u64>)
    requires Valid(claims, Fill(grant0, frozen0, remaining0)) && Sum(grant0) + remaining0 == band
    ensures grant == Run(claims, Fill(grant0, frozen0, remaining0)).grant
  {
    hide *;
    grant := grant0;
    var frozen, remaining := frozen0, remaining0;
    ghost var st := Fill(grant, frozen, remaining);
    RunStops(claims, st);
    while true
      invariant st == Fill(grant, frozen, remaining) && Valid(claims, st)
      invariant |grant| == |frozen| == |claims|
      invariant Sum(grant) + remaining == band
      invariant Run(claims, st) == Run(claims, Fill(grant0, frozen0, remaining0))
      decreases ActiveCount(frozen)
    {
      RunStops(claims, st);
      ActiveWeightFits(claims, frozen);
      var activeWeight: u128 := Sum(ActiveWeights(claims, frozen));
      FinishedIs(claims, st);
      if activeWeight == 0 || remaining == 0 {
        break;
      }
      RunUnfolds(claims, st);
      PassConserves(claims, st);
      var anyFrozenThisPass;
      grant, frozen, remaining, anyFrozenThisPass := OnePass(claims, grant, frozen, remaining, activeWeight);
      PassProgress(claims, st);
      st := Pass(claims, st);
      RunStops(claims, st);
      if !anyFrozenThisPass && remaining == 0 {
        break;
      }
    }
  }

  lemma ActiveWeightFits(claims: Claims, frozen: seq<bool>)
    requires |frozen| == |claims|
    ensures ActiveWeight(claims, frozen) == Sum(ActiveWeights(claims, frozen)) <= U128_MAX
  {
    SumBelow(ActiveWeights(claims, frozen), U32_MAX);
  }

  lemma FinishedIs(claims: seq<Demand>, st: Fill)
    requires |st.frozen| == |claims|
    ensures Finished(claims, st) <==> ActiveWeight(claims, st.frozen) == 0 || st.remaining == 0
  {
  }

  method OnePass(claims: Claims, grant0: seq<u64>, frozen0: seq<bool>, remaining0: u128, activeWeight: u128)
    returns (grant: seq<u64>, frozen: seq<bool>, freed: u128, anyFrozen: bool)
    requires Valid(claims, Fill(grant0, frozen0, remaining0)) && remaining0 <= U64_MAX
    requires |frozen0| == |claims| && activeWeight == ActiveWeight(claims, frozen0) > 0
    ensures Fill(grant, frozen, freed) == Pass(claims, Fill(grant0, frozen0, remaining0))
    ensures anyFrozen <==> frozen != frozen0
  {
    hide *;
    RunStops(claims, Fill(grant0, frozen0, remaining0));
    AddsSum(claims, frozen0, remaining0);
    PassIsApply(claims, Fill(grant0, frozen0, remaining0));
    var adds := FloorShares(claims, frozen0, remaining0, activeWeight);
    adds := HandCrumbs(claims, frozen0, remaining0, adds);
    grant, frozen, freed, anyFrozen := ApplyAdds(claims, grant0, frozen0, remaining0, adds);
  }

  lemma {:induction false} SumBelow(s: seq<nat>, most: nat)
    requires |s| <= MAX_LEN && most <= U64_MAX
    requires forall i :: 0 <= i < |s| ==> s[i] <= most
    ensures Sum(s) <= U128_MAX
  {
    var top := seq(|s|, _ => most);
    SumMonotone(s, top);
    SumConstant(top, most);
    MulLe(|s|, MAX_LEN, most);
    MulLe(most, U64_MAX, MAX_LEN);
  }

  lemma ProductFits(a: nat, b: nat)
    requires a <= U64_MAX && b <= U64_MAX
    ensures a * b <= U128_MAX
  {
    MulLe(a, U64_MAX, b);
    MulLe(b, U64_MAX, U64_MAX);
  }

  method ScaleFloors(band: u64, claims: Claims, sumMin: u128) returns (r: seq<u64>)
    requires sumMin == Sum(Mins(claims)) && sumMin > 0 && sumMin >= band
    ensures r == ScaledFloors(claims, band)
  {
    r := [];
    for i := 0 to |claims|
      invariant |r| == i
      invariant forall k :: 0 <= k < i ==> r[k] == ScaledFloor(claims[k].min, band, sumMin)
    {
      ProductFits(claims[i].min, band);
      ScaledFloorBounds(claims[i].min, band, sumMin);
      var product: u128 := claims[i].min * band;
      r := r + [product / sumMin];
    }
  }

  /** Each active claim's floored share. */
  method FloorShares(claims: Claims, frozen: seq<bool>, remaining: u128, activeWeight: u128)
    returns (adds: seq<u128>)
    requires |frozen| == |claims| && activeWeight == ActiveWeight(claims, frozen) > 0
    requires remaining <= U64_MAX
    ensures adds == Shares(claims, frozen, remaining)
  {
    hide ActiveWeight;
    var n := |claims|;
    adds := seq(n, _ => 0);
    for i := 0 to n
      invariant |adds| == n
      invariant forall k :: 0 <= k < n ==>
        adds[k] == if k < i && !frozen[k] then Share(claims[k].weight, remaining, activeWeight) else 0
    {
      if frozen[i] {
        continue;
      }
      ProductFits(remaining, claims[i].weight);
      ShareBounds(claims[i].weight, remaining, activeWeight);
      var product: u128 := remaining * claims[i].weight;
      adds := adds[i := product / activeWeight];
    }
  }

  /** The division's crumbs, one each in weight order. */
  method HandCrumbs(claims: Claims, frozen: seq<bool>, remaining: u128, shares: seq<u128>)
    returns (adds: seq<u128>)
    requires |frozen| == |claims| && ActiveWeight(claims, frozen) > 0 && remaining <= U64_MAX
    requires shares == Shares(claims, frozen, remaining)
    ensures adds == Adds(claims, frozen, remaining)
  {
    hide Share, ActiveWeight, ActiveCount, Order, Shares;
    SharesSum(claims, frozen, remaining);
    var n := |claims|;
    var distributed: u128 := Sum(shares);
    var crumb: u128 := remaining - distributed;
    ghost var crumbs := Crumb(claims, frozen, remaining);
    adds := shares;
    var order := Order(claims, frozen, n);
    var next := 0;
    while next < |order| && crumb > 0
      invariant next <= |order| && crumb + next == crumbs
      invariant |adds| == n
      invariant forall k :: 0 <= k < n ==> adds[k] == shares[k] + CrumbBits(n, order, next)[k]
      decreases |order| - next
    {
      var i := order[next];
      NextCrumb(claims, order, next);
      SumElement(shares, i);
      adds := adds[i := adds[i] + 1];
      crumb := crumb - 1;
      next := next + 1;
    }
  }

  lemma NextCrumb(claims: seq<Demand>, order: seq<nat>, next: nat)
    requires IsOrder(claims, order) && next < |order|
    ensures order[next] < |claims|
    ensures CrumbBits(|claims|, order, next)[order[next]] == 0
    ensures CrumbBits(|claims|, order, next + 1) == CrumbBits(|claims|, order, next)[order[next] := 1]
  {
    forall k | 0 <= k < next ensures order[k] != order[next] {
      assert Before(claims, order[k], order[next]);
    }
    assert order[..next + 1] == order[..next] + [order[next]];
  }

  lemma {:induction false} SumPrefix(s: seq<nat>, k: nat)
    requires k <= |s|
    ensures Sum(s[..k]) <= Sum(s)
  {
    assert s == s[..k] + s[k..];
    SumConcat(s[..k], s[k..]);
  }

  /** `Apply` has been carried out on the first `i` claims. */
  ghost predicate AppliedTo(claims: seq<Demand>, st: Fill, adds: seq<nat>, i: nat,
                            grant: seq<nat>, frozen: seq<bool>, freed: nat) {
    && Valid(claims, st) && |adds| == |claims| && i <= |claims|
    && grant == Apply(claims, st, adds).grant[..i] + st.grant[i..]
    && frozen == Apply(claims, st, adds).frozen[..i] + st.frozen[i..]
    && freed == Sum(Overflow(claims, st, adds)[..i])
  }

  lemma AppliedStart(claims: seq<Demand>, st: Fill, adds: seq<nat>)
    requires Valid(claims, st) && |adds| == |claims|
    ensures AppliedTo(claims, st, adds, 0, st.grant, st.frozen, 0)
  {
  }

  lemma AppliedStep(claims: seq<Demand>, st: Fill, adds: seq<nat>, i: nat,
                    grant: seq<nat>, frozen: seq<bool>, freed: nat)
    requires AppliedTo(claims, st, adds, i, grant, frozen, freed) && i < |claims|
    ensures |grant| == |frozen| == |claims| && grant[i] == st.grant[i] && frozen[i] == st.frozen[i]
    ensures var st', over := Apply(claims, st, adds), Overflow(claims, st, adds);
            && AppliedTo(claims, st, adds, i + 1, grant[i := st'.grant[i]], frozen[i := st'.frozen[i]], freed + over[i])
            && freed + over[i] <= Sum(adds)
            && (frozen[i := st'.frozen[i]] != st.frozen <==> frozen != st.frozen || st'.frozen[i] != st.frozen[i])
  {
    var st', over := Apply(claims, st, adds), Overflow(claims, st, adds);
    SumSnoc(over, i);
    SumPrefix(over, i + 1);
    OverflowBelow(claims, st, adds);
    Splice(st'.grant, st.grant, grant, i);
    Splice(st'.frozen, st.frozen, frozen, i);
    SpliceChanges(st'.frozen, st.frozen, i);
  }

  lemma AppliedEnd(claims: seq<Demand>, st: Fill, adds: seq<nat>,
                   grant: seq<nat>, frozen: seq<bool>, freed: nat)
    requires AppliedTo(claims, st, adds, |claims|, grant, frozen, freed)
    ensures Fill(grant, frozen, freed) == Apply(claims, st, adds)
  {
    assert Overflow(claims, st, adds)[..|claims|] == Overflow(claims, st, adds);
  }

  /** The second half of a pass: apply, clamp, freeze, and total what was freed. */
  method ApplyAdds(claims: Claims, grant0: seq<u64>, frozen0: seq<bool>, remaining: u128, adds: seq<u128>)
    returns (grant: seq<u64>, frozen: seq<bool>, freed: u128, anyFrozen: bool)
    requires Valid(claims, Fill(grant0, frozen0, remaining))
    requires |adds| == |claims| && Sum(adds) == remaining && remaining <= U64_MAX
    ensures Fill(grant, frozen, freed) == Apply(claims, Fill(grant0, frozen0, remaining), adds)
    ensures anyFrozen <==> frozen != frozen0
  {
    hide *;
    ghost var st := Fill(grant0, frozen0, remaining);
    AppliedStart(claims, st, adds);
    grant, frozen, freed, anyFrozen := grant0, frozen0, 0, false;
    for i := 0 to |claims|
      invariant AppliedTo(claims, st, adds, i, grant, frozen, freed)
      invariant anyFrozen <==> frozen != st.frozen
    {
      var froze;
      grant, frozen, freed, froze := ApplyNext(claims, st, adds, i, grant, frozen, freed);
      anyFrozen := anyFrozen || froze;
    }
    AppliedEnd(claims, st, adds, grant, frozen, freed);
  }

  method ApplyNext(claims: Claims, ghost st: Fill, adds: seq<u128>, i: nat, grant0: seq<u64>, frozen0: seq<bool>,
      freed0: u128)
    returns (grant: seq<u64>, frozen: seq<bool>, freed: u128, froze: bool)
    requires i < |claims| && Sum(adds) <= U64_MAX && Sum(adds) <= U128_MAX
    requires AppliedTo(claims, st, adds, i, grant0, frozen0, freed0)
    ensures AppliedTo(claims, st, adds, i + 1, grant, frozen, freed)
    ensures frozen != st.frozen <==> frozen0 != st.frozen || froze
  {
    hide *;
    AppliedStep(claims, st, adds, i, grant0, frozen0, freed0);
    var g, f, back := ApplyOne(claims, st, adds, i, grant0[i], frozen0[i]);
    froze := f != frozen0[i];
    grant, frozen, freed := grant0[i := g], frozen0[i := f], freed0 + back;
  }

  method ApplyOne(claims: Claims, ghost st: Fill, adds: seq<u128>, i: nat, cur: u64, frozen: bool)
    returns (grant': u64, frozen': bool, freed: u128)
    requires Valid(claims, st) && |adds| == |claims| && i < |claims|
    requires cur == st.grant[i] && frozen == st.frozen[i] && Sum(adds) <= U64_MAX
    ensures grant' == Apply(claims, st, adds).grant[i]
    ensures frozen' == Apply(claims, st, adds).frozen[i]
    ensures freed == Overflow(claims, st, adds)[i]
  {
    ApplyAt(claims, st, adds, i);
    grant', frozen', freed := cur, frozen, 0;
    if frozen || adds[i] == 0 {
      return;
    }
    var cap := claims[i].EffectiveCap();
    var want: u128 := cur + adds[i];
    if want >= cap {
      freed := want - cap;
      grant', frozen' := cap, true;
    } else {
      grant' := want;
    }
  }

  lemma SpliceChanges<T>(a: seq<T>, b: seq<T>, i: nat)
    requires |a| == |b| && i < |a|
    ensures a[..i + 1] + b[i + 1..] != b <==> a[..i] + b[i..] != b || a[i] != b[i]
  {
    var s, t := a[..i] + b[i..], a[..i + 1] + b[i + 1..];
    assert t == s[i := a[i]];
    assert s == t[i := b[i]];
    if s != b {
      var k :| 0 <= k < |b| && s[k] != b[k];
      assert t[k] == s[k];
    } else if a[i] != b[i] {
      assert t[i] == a[i];
    }
  }

  lemma Splice<T>(a: seq<T>, b: seq<T>, s: seq<T>, i: nat)
    requires |a| == |b| && i < |a| && s == a[..i] + b[i..]
    ensures s[i] == b[i] && s[i := a[i]] == a[..i + 1] + b[i + 1..]
  {
    assert a[..i + 1] == a[..i] + [a[i]];
  }

  lemma OverflowBelow(claims: seq<Demand>, st: Fill, adds: seq<nat>)
    requires Valid(claims, st) && |adds| == |claims|
    ensures |st.grant| == |st.frozen| == |claims|
    ensures Sum(Overflow(claims, st, adds)) <= Sum(adds)
  {
    hide Sum, Overflow, Demand.Saturation;
    SumMonotone(Overflow(claims, st, adds), adds);
  }

  /** One claim's part of `Apply`, for a claim not yet at its cap. */
  lemma ApplyAt(claims: seq<Demand>, st: Fill, adds: seq<nat>, i: nat)
    requires Valid(claims, st) && |adds| == |claims| && i < |claims|
    ensures var st', cap, want := Apply(claims, st, adds), claims[i].EffectiveCap(), st.grant[i] + adds[i];
            && adds[i] <= Sum(adds)
            && st'.grant[i] == (if st.frozen[i] then st.grant[i] else if want >= cap then cap else want)
            && st'.frozen[i] == (st.frozen[i] || want >= cap)
            && Overflow(claims, st, adds)[i] == (if st.frozen[i] || want < cap then 0 else want - cap)
            && (!st.frozen[i] ==> st.grant[i] < cap)
  {
    SumElement(adds, i);
  }
}
