/** How many passes the water-fill makes: each pass divides the product of what
    remains and the active weight by at least four, so the passes are logarithmic in
    the band and the weights, whatever the number of claims. */
module WaterFillPasses {
  import opened Arith
  import opened Machine
  import opened Sums
  import opened WaterFill
  import opened WaterFillLaws

  function Power4(p: nat): (r: nat) {
    if p == 0 then 1 else 4 * Power4(p - 1)
  }

  // ---- one pass ----------------------------------------------------------

  lemma ScaledStep(q: nat, s: nat, w: nat, v: nat, r: nat, d: nat)
    requires q * d <= r * w && s * d <= r * v
    ensures (q + s) * d <= r * (w + v)
  {
    Spread(q, s, d);
    Spread(w, v, r);
  }

  lemma {:induction false} ScaledSum(q: seq<nat>, w: seq<nat>, r: nat, d: nat)
    requires |q| == |w| && forall i :: 0 <= i < |q| ==> q[i] * d <= r * w[i]
    ensures Sum(q) * d <= r * Sum(w)
  {
    if q != [] {
      var k := |q| - 1;
      ScaledSum(q[..k], w[..k], r, d);
      ScaledStep(Sum(q[..k]), q[k], Sum(w[..k]), w[k], r, d);
    }
  }

  /** The weights that a change of the frozen marks takes out of the running. */
  function LostWeights(claims: seq<Demand>, before: seq<bool>, after: seq<bool>): (r: seq<nat>)
    requires |before| == |after| == |claims|
    ensures |r| == |claims|
    ensures forall i :: 0 <= i < |r| ==> r[i] == if !before[i] && after[i] then claims[i].weight else 0
  {
    seq(|claims|, i requires 0 <= i < |claims| => if !before[i] && after[i] then claims[i].weight else 0)
  }

  lemma ShareCovers(over: nat, w: nat, r: nat, aw: nat, lost: nat)
    requires aw > 0 && (over > 0 ==> over <= Share(w, r, aw) && lost == w)
    ensures over * aw <= r * lost
  {
    ShareBounds(w, r, aw);
    hide Share;
    if over > 0 {
      MulLe(over, Share(w, r, aw), aw);
    } else {
      MulLe(0, lost, r);
    }
  }

  /** Only a claim that freezes sends anything back, and it keeps at least one unit
      of what the pass gave it. */
  lemma FreezersSendBack(claims: seq<Demand>, st: Fill, i: nat)
    requires Valid(claims, st) && ActiveWeight(claims, st.frozen) > 0 && i < |claims|
    ensures |Pass(claims, st).frozen| == |claims|
    ensures var over := Overflow(claims, st, Adds(claims, st.frozen, st.remaining))[i];
            over > 0 ==>
              && LostWeights(claims, st.frozen, Pass(claims, st).frozen)[i] == claims[i].weight
              && over <= Share(claims[i].weight, st.remaining, ActiveWeight(claims, st.frozen))
  {
    AddBounds(claims, st.frozen, st.remaining, i);
    hide Share, ActiveWeight, Sum, Adds;
  }

  /** What one claim sends back is covered by its floored share. */
  lemma OverflowCovered(claims: seq<Demand>, st: Fill, i: nat)
    requires Valid(claims, st) && ActiveWeight(claims, st.frozen) > 0 && i < |claims|
    ensures |Pass(claims, st).frozen| == |claims|
    ensures Overflow(claims, st, Adds(claims, st.frozen, st.remaining))[i] * ActiveWeight(claims, st.frozen)
         <= st.remaining * LostWeights(claims, st.frozen, Pass(claims, st).frozen)[i]
  {
    hide *;
    RunStops(claims, st);
    FreezersSendBack(claims, st, i);
    var aw := ActiveWeight(claims, st.frozen);
    var over := Overflow(claims, st, Adds(claims, st.frozen, st.remaining))[i];
    ShareCovers(over, claims[i].weight, st.remaining, aw,
                LostWeights(claims, st.frozen, Pass(claims, st).frozen)[i]);
  }

  /** What a pass frees is at most the frozen claims' part of what it handed out. */
  lemma PassFrees(claims: seq<Demand>, st: Fill)
    requires Valid(claims, st) && ActiveWeight(claims, st.frozen) > 0
    ensures |Pass(claims, st).frozen| == |claims|
    ensures var aw, aw' := ActiveWeight(claims, st.frozen), ActiveWeight(claims, Pass(claims, st).frozen);
            aw' <= aw && Pass(claims, st).remaining * aw <= st.remaining * (aw - aw')
  {
    var st' := Pass(claims, st);
    var over := Overflow(claims, st, Adds(claims, st.frozen, st.remaining));
    var lost := LostWeights(claims, st.frozen, st'.frozen);
    SumAdd(ActiveWeights(claims, st'.frozen), lost, ActiveWeights(claims, st.frozen));
    hide Pass, Adds, Share;
    forall i | 0 <= i < |claims| ensures over[i] * ActiveWeight(claims, st.frozen) <= st.remaining * lost[i] {
      OverflowCovered(claims, st, i);
    }
    PassIsApply(claims, st);
    ScaledSum(over, lost, st.remaining, ActiveWeight(claims, st.frozen));
  }

  lemma Quarter(r: nat, r': nat, aw: nat, aw': nat)
    requires 0 < aw && aw' <= aw && r' * aw <= r * (aw - aw')
    ensures 4 * (r' * aw') <= r * aw
  {
    Product4(aw, aw');
    var lost := aw - aw';
    MulLe(r' * aw, r * lost, 4 * aw');
    MulLe(4 * (lost * aw'), aw * aw, r);
    Regroup(r', aw, aw');
    Regroup(lost, r, aw');
    Swap(aw, aw, r);
    CancelLe(4 * (r' * aw'), r * aw, aw);
  }

  lemma Regroup(a: nat, b: nat, c: nat)
    ensures (a * b) * (4 * c) == (4 * (a * c)) * b
  {
    Swap(a, b, 4 * c);
  }

  lemma Product4(a: nat, b: nat)
    requires b <= a
    ensures 4 * ((a - b) * b) <= a * a
  {
    Square(a - 2 * b);
    assert (a - 2 * b) * (a - 2 * b) == a * a - 4 * ((a - b) * b);
  }

  lemma Square(x: int)
    ensures x * x >= 0
  {
  }

  // ---- the whole fill ----------------------------------------------------

  lemma UnfinishedProduct(claims: seq<Demand>, st: Fill)
    requires Valid(claims, st) && !Finished(claims, st)
    ensures st.remaining * ActiveWeight(claims, st.frozen) >= 1
  {
    hide ActiveWeight;
    MulLe(1, st.remaining, ActiveWeight(claims, st.frozen));
  }

  lemma {:induction false} PassesLogarithmic(claims: seq<Demand>, st: Fill)
    requires Valid(claims, st) && !Finished(claims, st)
    ensures Passes(claims, st) > 0
    ensures Power4(Passes(claims, st) - 1) <= st.remaining * ActiveWeight(claims, st.frozen)
    decreases ActiveCount(st.frozen)
  {
    hide Pass, Run, Valid, Finished, ActiveWeight, ActiveCount, Passes;
    RunStops(claims, st);
    RunUnfolds(claims, st);
    UnfinishedProduct(claims, st);
    var st' := Pass(claims, st);
    if st'.frozen != st.frozen {
      RunStops(claims, st');
      if !Finished(claims, st') {
        PassesLogarithmic(claims, st');
        PassFrees(claims, st);
        Quarter(st.remaining, st'.remaining, ActiveWeight(claims, st.frozen), ActiveWeight(claims, st'.frozen));
      }
    }
  }

  /** The passes a list of claims needs; none when the floors are scaled. */
  function PassesOf(claims: seq<Demand>, band: nat): (p: nat) {
    if FloorsFit(claims, band) then Passes(claims, Initial(claims, band)) else 0
  }

  function Weights(claims: seq<Demand>): (r: seq<nat>)
    ensures |r| == |claims| && forall i :: 0 <= i < |r| ==> r[i] == claims[i].weight
  {
    seq(|claims|, i requires 0 <= i < |claims| => claims[i].weight)
  }

  /** Four to the passes, less one, is at most the band times the total weight. */
  lemma PassesAreLogarithmic(claims: seq<Demand>, band: nat)
    ensures PassesOf(claims, band) > 0 ==> Power4(PassesOf(claims, band) - 1) <= band * Sum(Weights(claims))
  {
    hide Passes, Initial, Sum, ActiveWeight, Finished, Valid, Power4, FloorsFit;
    if FloorsFit(claims, band) {
      var st := Initial(claims, band);
      RunStops(claims, st);
      if !Finished(claims, st) {
        PassesLogarithmic(claims, st);
        ActiveBelow(claims, st.frozen);
        MulLe(st.remaining, band, ActiveWeight(claims, st.frozen));
        MulLe(ActiveWeight(claims, st.frozen), Sum(Weights(claims)), band);
      }
    }
  }

  lemma ActiveBelow(claims: seq<Demand>, frozen: seq<bool>)
    requires |frozen| == |claims|
    ensures ActiveWeight(claims, frozen) <= Sum(Weights(claims))
  {
    SumMonotone(ActiveWeights(claims, frozen), Weights(claims));
  }

  lemma {:induction false} Power4Add(a: nat, b: nat)
    ensures Power4(a + b) == Power4(a) * Power4(b)
  {
    if a > 0 {
      Power4Add(a - 1, b);
      assert Power4(a + b) == 4 * Power4(a - 1 + b);
      assert (4 * Power4(a - 1)) * Power4(b) == 4 * (Power4(a - 1) * Power4(b));
    }
  }

  lemma {:induction false} Power4Monotone(a: nat, b: nat)
    requires a <= b
    ensures 1 <= Power4(a) <= Power4(b)
  {
    if b > 0 {
      if a < b {
        Power4Monotone(a, b - 1);
      } else {
        Power4Monotone(a - 1, b - 1);
      }
    }
  }

  const MAX_PASSES: nat := 80

  lemma TwoTo160()
    ensures Power4(80) == 0x1_0000_0000_0000_0000_0000_0000_0000_0000_0000_0000
  {
    assert Power4(5) == 1024;
    Power4Add(5, 5);
    Power4Add(10, 10);
    Power4Add(20, 20);
    Power4Add(40, 40);
  }

  /** No slice of claims on any 64-bit band takes more than eighty passes. */
  lemma AtMostEightyPasses(claims: seq<Demand>, band: u64)
    requires |claims| <= MAX_LEN
    ensures PassesOf(claims, band) <= MAX_PASSES
  {
    hide PassesOf, Power4;
    PassesAreLogarithmic(claims, band);
    WeightsBelow(claims);
    MulLe(band, 0x1_0000_0000_0000_0000, Sum(Weights(claims)));
    TwoTo160();
    if PassesOf(claims, band) > MAX_PASSES {
      Power4Monotone(80, PassesOf(claims, band) - 1);
    }
  }

  lemma WeightsBelow(claims: seq<Demand>)
    requires |claims| <= MAX_LEN
    ensures Sum(Weights(claims)) < 0x8000_0000_0000_0000_0000_0000
  {
    var top: seq<nat> := seq(|claims|, _ => U32_MAX);
    SumMonotone(Weights(claims), top);
    SumConstant(top, U32_MAX);
  }
}
