/** The single-level fair-share kernel: weighted max-min water-filling with
    floors, caps, freezing and crumb distribution, on values.

    `Allocate` is the specification of the kernel; `AllocateEven` in
    WaterFillKernel.dfy is the imperative algorithm proved equal to it. */
module WaterFill {
  import opened Arith
  import opened Machine
  import opened Sums

  datatype Demand = Demand(weight: u32, min: u64, max: u64, demand: u64) {
    /** `min(max, demand)`: what a weighted share is trimmed to. */
    function EffectiveCap(): (r: u64) {
      Min(max, demand)
    }

    /** The most this claim can end up with once its floor has been granted. */
    function Saturation(): (r: u64) {
      if weight == 0 then min else Max(min, EffectiveCap())
    }

    /** Frozen from the start: no weight, or the floor already covers the cap. */
    predicate StartsFrozen() {
      weight == 0 || min >= EffectiveCap()
    }
  }

  function Mins(claims: seq<Demand>): (r: seq<nat>)
    ensures |r| == |claims|
    ensures forall i :: 0 <= i < |r| ==> r[i] == claims[i].min
  {
    seq(|claims|, i requires 0 <= i < |claims| => claims[i].min)
  }

  function Saturations(claims: seq<Demand>): (r: seq<nat>)
    ensures |r| == |claims|
    ensures forall i :: 0 <= i < |r| ==> r[i] == claims[i].Saturation()
  {
    seq(|claims|, i requires 0 <= i < |claims| => claims[i].Saturation())
  }

  /** Where the water-fill stands between two passes. */
  datatype Fill = Fill(grant: seq<nat>, frozen: seq<bool>, remaining: nat)

  ghost predicate Valid(claims: seq<Demand>, st: Fill) {
    && |st.grant| == |st.frozen| == |claims|
    && (forall i :: 0 <= i < |claims| && st.frozen[i] ==> st.grant[i] == claims[i].Saturation())
    && (forall i :: 0 <= i < |claims| && !st.frozen[i] ==>
          claims[i].weight > 0 && claims[i].min <= st.grant[i] < claims[i].EffectiveCap())
  }

  predicate FloorsFit(claims: seq<Demand>, band: nat) {
    Sum(Mins(claims)) < band
  }

  function Initial(claims: seq<Demand>, band: nat): (st: Fill)
    requires FloorsFit(claims, band)
    ensures Valid(claims, st)
    ensures Sum(st.grant) + st.remaining == band
  {
    Fill(Mins(claims),
         seq(|claims|, i requires 0 <= i < |claims| => claims[i].StartsFrozen()),
         band - Sum(Mins(claims)))
  }

  // ---- one pass ---------------------------------------------------------

  function ActiveWeights(claims: seq<Demand>, frozen: seq<bool>): (r: seq<nat>)
    requires |frozen| == |claims|
    ensures |r| == |claims|
    ensures forall i :: 0 <= i < |r| ==> r[i] == if frozen[i] then 0 else claims[i].weight
  {
    seq(|claims|, i requires 0 <= i < |claims| => if frozen[i] then 0 else claims[i].weight)
  }

  function ActiveWeight(claims: seq<Demand>, frozen: seq<bool>): (r: nat)
    requires |frozen| == |claims|
  {
    Sum(ActiveWeights(claims, frozen))
  }

  function ActiveMarks(frozen: seq<bool>): (r: seq<nat>)
    ensures |r| == |frozen|
    ensures forall i :: 0 <= i < |r| ==> r[i] == if frozen[i] then 0 else 1
  {
    seq(|frozen|, i requires 0 <= i < |frozen| => if frozen[i] then 0 else 1)
  }

  function ActiveCount(frozen: seq<bool>): (r: nat) {
    Sum(ActiveMarks(frozen))
  }

  function Share(weight: nat, remaining: nat, activeWeight: nat): (r: nat)
    requires activeWeight > 0
  {
    remaining * weight / activeWeight
  }

  /** Each active claim's floor of its exact weighted share. */
  function Shares(claims: seq<Demand>, frozen: seq<bool>, remaining: nat): (r: seq<nat>)
    requires |frozen| == |claims| && ActiveWeight(claims, frozen) > 0
    ensures |r| == |claims|
    ensures forall i :: 0 <= i < |r| ==>
      r[i] == if frozen[i] then 0 else Share(claims[i].weight, remaining, ActiveWeight(claims, frozen))
  {
    var aw := ActiveWeight(claims, frozen);
    seq(|claims|, i requires 0 <= i < |claims| =>
      if frozen[i] then 0 else Share(claims[i].weight, remaining, aw))
  }

  /** The crumb order: heavier first, then lower index. */
  predicate Before(claims: seq<Demand>, a: nat, b: nat) {
    && a < |claims| && b < |claims|
    && (claims[a].weight > claims[b].weight || (claims[a].weight == claims[b].weight && a < b))
  }

  function InsertByWeight(claims: seq<Demand>, x: nat, order: seq<nat>): (r: seq<nat>) {
    if order == [] || Before(claims, x, order[0]) then [x] + order
    else [order[0]] + InsertByWeight(claims, x, order[1..])
  }

  ghost predicate IsOrder(claims: seq<Demand>, order: seq<nat>) {
    && (forall k :: 0 <= k < |order| ==> order[k] < |claims|)
    && (forall a, b :: 0 <= a < b < |order| ==> Before(claims, order[a], order[b]))
  }

  lemma HeadKeepsOrder(claims: seq<Demand>, head: nat, rest: seq<nat>)
    requires head < |claims| && IsOrder(claims, rest)
    requires forall y: nat :: y in rest ==> Before(claims, head, y)
    ensures IsOrder(claims, [head] + rest)
    ensures forall y: nat :: y in [head] + rest <==> y == head || y in rest
  {
    hide Before;
    var r := [head] + rest;
    forall a, b | 0 <= a < b < |r| ensures Before(claims, r[a], r[b]) {
      if a == 0 {
        assert r[b] == rest[b - 1];
      }
    }
  }

  lemma HeadIsBefore(claims: seq<Demand>, order: seq<nat>)
    requires order != [] && IsOrder(claims, order)
    ensures IsOrder(claims, order[1..])
    ensures forall y: nat :: y in order[1..] ==> Before(claims, order[0], y)
    ensures forall y: nat :: y in order <==> y == order[0] || y in order[1..]
  {
    hide Before;
    var tail := order[1..];
    forall k | 0 <= k < |tail| ensures Before(claims, order[0], tail[k]) {
      assert Before(claims, order[0], order[k + 1]);
    }
    assert order == [order[0]] + tail;
  }

  lemma {:induction false} InsertKeepsOrder(claims: seq<Demand>, x: nat, order: seq<nat>)
    requires x < |claims| && IsOrder(claims, order) && x !in order
    ensures IsOrder(claims, InsertByWeight(claims, x, order))
    ensures forall y: nat :: y in InsertByWeight(claims, x, order) <==> y == x || y in order
    ensures |InsertByWeight(claims, x, order)| == |order| + 1
  {
    if order != [] {
      HeadIsBefore(claims, order);
    }
    if order == [] || Before(claims, x, order[0]) {
      HeadKeepsOrder(claims, x, order);
    } else {
      InsertKeepsOrder(claims, x, order[1..]);
      hide IsOrder;
      HeadKeepsOrder(claims, order[0], InsertByWeight(claims, x, order[1..]));
    }
  }

  /** The active claims among the first `k`, in crumb order. */
  function Order(claims: seq<Demand>, frozen: seq<bool>, k: nat): (r: seq<nat>)
    requires |frozen| == |claims| && k <= |claims|
    ensures IsOrder(claims, r)
    ensures forall y: nat :: y in r <==> y < |frozen| && y < k && !frozen[y]
    ensures |r| == Sum(ActiveMarks(frozen)[..k])
  {
    if k == 0 then []
    else
      SumSnoc(ActiveMarks(frozen), k - 1);
      if frozen[k - 1] then Order(claims, frozen, k - 1)
      else
        InsertKeepsOrder(claims, k - 1, Order(claims, frozen, k - 1));
        InsertByWeight(claims, k - 1, Order(claims, frozen, k - 1))
  }

  /** Which claims receive one of the first `crumb` crumbs. */
  function CrumbBits(n: nat, order: seq<nat>, crumb: nat): (r: seq<nat>)
    requires crumb <= |order|
    ensures |r| == n
    ensures forall i :: 0 <= i < n ==> r[i] == if i in order[..crumb] then 1 else 0
  {
    seq(n, i requires 0 <= i < n => if i in order[..crumb] then 1 else 0)
  }

  lemma {:induction false} CrumbBitsSum(claims: seq<Demand>, order: seq<nat>, crumb: nat)
    requires IsOrder(claims, order) && crumb <= |order|
    ensures Sum(CrumbBits(|claims|, order, crumb)) == crumb
  {
    var bits := CrumbBits(|claims|, order, crumb);
    if crumb == 0 {
      SumZero(bits);
    } else {
      var before := CrumbBits(|claims|, order, crumb - 1);
      var x := order[crumb - 1];
      forall k | 0 <= k < crumb - 1 ensures order[k] != x {
        assert Before(claims, order[k], order[crumb - 1]);
      }
      assert order[..crumb] == order[..crumb - 1] + [x];
      assert bits == before[x := 1];
      SumUpdate(before, x, 1);
      CrumbBitsSum(claims, order, crumb - 1);
    }
  }

  lemma ShareBounds(weight: nat, remaining: nat, activeWeight: nat)
    requires activeWeight > 0
    ensures var q := Share(weight, remaining, activeWeight);
            q * activeWeight <= remaining * weight < (q + 1) * activeWeight
  {
    DivBounds(remaining * weight, activeWeight);
  }

  lemma FlooredStep(q: nat, w: nat, m: nat, s: nat, v: nat, e: nat, remaining: nat, divisor: nat)
    requires q * divisor <= remaining * w && remaining * w + m <= (q + m) * divisor
    requires s * divisor <= remaining * v && remaining * v + e <= (s + e) * divisor
    ensures (q + s) * divisor <= remaining * (w + v)
    ensures remaining * (w + v) + (m + e) <= ((q + s) + (m + e)) * divisor
  {
    Spread(q, s, divisor);
    Spread(w, v, remaining);
    Spread(q + m, s + e, divisor);
  }

  /** Summing floored shares: no more than `remaining * w` over the divisor, and
      less than one unit lost per marked entry. */
  lemma {:induction false} FlooredSums(q: seq<nat>, w: seq<nat>, m: seq<nat>, remaining: nat, divisor: nat)
    requires |q| == |w| == |m|
    requires forall i :: 0 <= i < |q| ==> q[i] * divisor <= remaining * w[i]
    requires forall i :: 0 <= i < |q| ==> remaining * w[i] + m[i] <= (q[i] + m[i]) * divisor
    ensures Sum(q) * divisor <= remaining * Sum(w)
    ensures remaining * Sum(w) + Sum(m) <= (Sum(q) + Sum(m)) * divisor
  {
    if q != [] {
      var k := |q| - 1;
      FlooredSums(q[..k], w[..k], m[..k], remaining, divisor);
      FlooredStep(Sum(q[..k]), Sum(w[..k]), Sum(m[..k]), q[k], w[k], m[k], remaining, divisor);
    }
  }

  lemma SharesSum(claims: seq<Demand>, frozen: seq<bool>, remaining: nat)
    requires |frozen| == |claims| && ActiveWeight(claims, frozen) > 0
    ensures Sum(Shares(claims, frozen, remaining)) <= remaining
    ensures remaining - Sum(Shares(claims, frozen, remaining)) < ActiveCount(frozen)
  {
    var aw := ActiveWeight(claims, frozen);
    var shares, weights, marks := Shares(claims, frozen, remaining), ActiveWeights(claims, frozen), ActiveMarks(frozen);
    forall i | 0 <= i < |claims|
      ensures shares[i] * aw <= remaining * weights[i]
      ensures remaining * weights[i] + marks[i] <= (shares[i] + marks[i]) * aw
    {
      ShareBounds(weights[i], remaining, aw);
    }
    FlooredSums(shares, weights, marks, remaining, aw);
    assert Sum(marks) > 0 by {
      SumZero(marks);
      SumZero(weights);
    }
    CancelLe(Sum(shares), remaining, aw);
    CancelLt(remaining, Sum(shares) + Sum(marks), aw);
  }

  function Crumb(claims: seq<Demand>, frozen: seq<bool>, remaining: nat): (c: nat)
    requires |frozen| == |claims| && ActiveWeight(claims, frozen) > 0
    ensures c < ActiveCount(frozen)
    ensures c <= |Order(claims, frozen, |claims|)|
  {
    SharesSum(claims, frozen, remaining);
    assert ActiveMarks(frozen)[..|claims|] == ActiveMarks(frozen);
    remaining - Sum(Shares(claims, frozen, remaining))
  }

  /** What one pass tentatively adds to each claim: its share and its crumb. */
  function Adds(claims: seq<Demand>, frozen: seq<bool>, remaining: nat): (r: seq<nat>)
    requires |frozen| == |claims| && ActiveWeight(claims, frozen) > 0
    ensures |r| == |claims|
    ensures forall i :: 0 <= i < |r| ==>
      r[i] == Shares(claims, frozen, remaining)[i]
              + CrumbBits(|claims|, Order(claims, frozen, |claims|), Crumb(claims, frozen, remaining))[i]
  {
    var shares := Shares(claims, frozen, remaining);
    var bits := CrumbBits(|claims|, Order(claims, frozen, |claims|), Crumb(claims, frozen, remaining));
    seq(|claims|, i requires 0 <= i < |claims| => shares[i] + bits[i])
  }

  /** A pass hands out everything that remained. */
  lemma AddsSum(claims: seq<Demand>, frozen: seq<bool>, remaining: nat)
    requires |frozen| == |claims| && ActiveWeight(claims, frozen) > 0
    ensures Sum(Adds(claims, frozen, remaining)) == remaining
  {
    var order := Order(claims, frozen, |claims|);
    var crumb := Crumb(claims, frozen, remaining);
    SharesSum(claims, frozen, remaining);
    CrumbBitsSum(claims, order, crumb);
    SumAdd(Shares(claims, frozen, remaining), CrumbBits(|claims|, order, crumb), Adds(claims, frozen, remaining));
  }

  /** An active claim's add is its exact share, off by less than one unit. */
  lemma AddBounds(claims: seq<Demand>, frozen: seq<bool>, remaining: nat, i: nat)
    requires |frozen| == |claims| && ActiveWeight(claims, frozen) > 0 && i < |claims|
    ensures frozen[i] ==> Adds(claims, frozen, remaining)[i] == 0
    ensures !frozen[i] ==>
      var q := Share(claims[i].weight, remaining, ActiveWeight(claims, frozen));
      q <= Adds(claims, frozen, remaining)[i] <= q + 1
  {
    var order := Order(claims, frozen, |claims|);
    var crumb := Crumb(claims, frozen, remaining);
    if i in order[..crumb] {
      assert i in order;
    }
  }

  /** What the caps send back when `adds` is applied. */
  function Overflow(claims: seq<Demand>, st: Fill, adds: seq<nat>): (r: seq<nat>)
    requires |st.grant| == |st.frozen| == |adds| == |claims|
    ensures |r| == |claims|
    ensures forall i :: 0 <= i < |r| ==>
      r[i] == if st.frozen[i] then 0 else Max(0, st.grant[i] + adds[i] - claims[i].EffectiveCap())
  {
    seq(|claims|, i requires 0 <= i < |claims| =>
      if st.frozen[i] then 0 else Max(0, st.grant[i] + adds[i] - claims[i].EffectiveCap()))
  }

  /** Add, clamp to the cap, freeze what hit it, free the rest. */
  function Apply(claims: seq<Demand>, st: Fill, adds: seq<nat>): (r: Fill)
    requires |st.grant| == |st.frozen| == |adds| == |claims|
    ensures |r.grant| == |r.frozen| == |claims|
    ensures forall i :: 0 <= i < |claims| ==>
      r.grant[i] == if st.frozen[i] then st.grant[i] else Min(st.grant[i] + adds[i], claims[i].EffectiveCap())
    ensures forall i :: 0 <= i < |claims| ==>
      r.frozen[i] == (st.frozen[i] || st.grant[i] + adds[i] >= claims[i].EffectiveCap())
    ensures r.remaining == Sum(Overflow(claims, st, adds))
  {
    Fill(
      seq(|claims|, i requires 0 <= i < |claims| =>
        if st.frozen[i] then st.grant[i] else Min(st.grant[i] + adds[i], claims[i].EffectiveCap())),
      seq(|claims|, i requires 0 <= i < |claims| =>
        st.frozen[i] || st.grant[i] + adds[i] >= claims[i].EffectiveCap()),
      Sum(Overflow(claims, st, adds)))
  }

  function Pass(claims: seq<Demand>, st: Fill): (r: Fill)
    requires Valid(claims, st) && ActiveWeight(claims, st.frozen) > 0
  {
    Apply(claims, st, Adds(claims, st.frozen, st.remaining))
  }

  /** A pass conserves the band exactly and keeps the state valid. */
  lemma PassConserves(claims: seq<Demand>, st: Fill)
    requires Valid(claims, st) && ActiveWeight(claims, st.frozen) > 0
    ensures Valid(claims, Pass(claims, st))
    ensures Sum(Pass(claims, st).grant) + Pass(claims, st).remaining == Sum(st.grant) + st.remaining
  {
    var adds := Adds(claims, st.frozen, st.remaining);
    var st' := Apply(claims, st, adds);
    var want := seq(|claims|, i requires 0 <= i < |claims| => st.grant[i] + adds[i]);
    forall i | 0 <= i < |claims| ensures st'.grant[i] + Overflow(claims, st, adds)[i] == want[i] {
      AddBounds(claims, st.frozen, st.remaining, i);
    }
    SumAdd(st.grant, adds, want);
    SumAdd(st'.grant, Overflow(claims, st, adds), want);
    AddsSum(claims, st.frozen, st.remaining);
  }

  lemma {:induction false} MarksOrdered(before: seq<bool>, after: seq<bool>)
    requires |before| == |after|
    requires forall i :: 0 <= i < |before| && before[i] ==> after[i]
    ensures ActiveCount(after) <= ActiveCount(before)
    ensures after != before ==> ActiveCount(after) < ActiveCount(before)
  {
    var a, b := ActiveMarks(after), ActiveMarks(before);
    SumMonotone(a, b);
    if after != before {
      var i :| 0 <= i < |before| && after[i] != before[i];
      SumUpdate(a, i, 1);
      SumMonotone(a[i := 1], b);
    }
  }

  /** Only a freeze frees anything, and every freeze leaves one claim fewer. */
  lemma PassProgress(claims: seq<Demand>, st: Fill)
    requires Valid(claims, st) && ActiveWeight(claims, st.frozen) > 0
    ensures Pass(claims, st).frozen == st.frozen ==> Pass(claims, st).remaining == 0
    ensures Pass(claims, st).frozen != st.frozen ==> ActiveCount(Pass(claims, st).frozen) < ActiveCount(st.frozen)
  {
    var st' := Pass(claims, st);
    MarksOrdered(st.frozen, st'.frozen);
    if st'.frozen == st.frozen {
      var over := Overflow(claims, st, Adds(claims, st.frozen, st.remaining));
      forall i | 0 <= i < |claims| ensures over[i] == 0 {
        assert st'.frozen[i] == st.frozen[i];
      }
      SumZero(over);
    }
  }

  // ---- the whole fill ---------------------------------------------------

  predicate Finished(claims: seq<Demand>, st: Fill)
    requires |st.frozen| == |claims|
  {
    ActiveWeight(claims, st.frozen) == 0 || st.remaining == 0
  }

  function Run(claims: seq<Demand>, st: Fill): (r: Fill)
    requires Valid(claims, st)
    ensures Valid(claims, r)
    ensures Sum(r.grant) + r.remaining == Sum(st.grant) + st.remaining
    ensures Finished(claims, r)
    decreases ActiveCount(st.frozen)
  {
    if Finished(claims, st) then st
    else
      PassConserves(claims, st);
      PassProgress(claims, st);
      var st' := Pass(claims, st);
      if st'.frozen == st.frozen then st' else Run(claims, st')
  }

  /** How many passes `Run` makes. */
  function Passes(claims: seq<Demand>, st: Fill): (p: nat)
    requires Valid(claims, st)
    ensures p <= ActiveCount(st.frozen)
    decreases ActiveCount(st.frozen)
  {
    if Finished(claims, st) then 0
    else
      PassConserves(claims, st);
      PassProgress(claims, st);
      var st' := Pass(claims, st);
      if st'.frozen == st.frozen then
        SharesSum(claims, st.frozen, st.remaining);
        1
      else 1 + Passes(claims, st')
  }

  /** Floors that do not fit the band are scaled down proportionally. */
  function ScaledFloor(min: nat, band: nat, sumMin: nat): (r: nat)
    requires sumMin > 0
  {
    min * band / sumMin
  }

  function ScaledFloors(claims: seq<Demand>, band: nat): (r: seq<nat>)
    ensures |r| == |claims|
    ensures forall i :: 0 <= i < |r| ==>
      r[i] == if Sum(Mins(claims)) == 0 then 0 else ScaledFloor(claims[i].min, band, Sum(Mins(claims)))
  {
    var sumMin := Sum(Mins(claims));
    seq(|claims|, i requires 0 <= i < |claims| =>
      if sumMin == 0 then 0 else ScaledFloor(claims[i].min, band, sumMin))
  }

  function Allocate(claims: seq<Demand>, band: nat): (r: seq<nat>)
    ensures |r| == |claims|
  {
    if FloorsFit(claims, band) then Run(claims, Initial(claims, band)).grant
    else ScaledFloors(claims, band)
  }
}
