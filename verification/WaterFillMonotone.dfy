/** What adding or removing a claim does to the others.  Exact monotonicity fails
    by rounding (`MonotoneAddFails`); what holds on every input is monotonicity up
    to a bound that does not depend on the band (`NearlyMonotoneAdd`). */
module WaterFillMonotone {
  import opened Arith
  import opened Machine
  import opened Sums
  import opened WaterFill
  import opened WaterFillLaws
  import opened WaterFillPasses

  function Insert<T>(s: seq<T>, k: nat, x: T): (r: seq<T>)
    requires k <= |s|
  {
    s[..k] + [x] + s[k..]
  }

  /** Where index `i` of the old list sits in the new one. */
  function Shifted(k: nat, i: nat): (r: nat) {
    if i < k then i else i + 1
  }

  /** The grants of the old claims within the new list's allocation. */
  function Kept(g: seq<nat>, k: nat): (r: seq<nat>)
    requires k < |g|
    ensures |r| == |g| - 1
    ensures forall i :: 0 <= i < |r| ==> r[i] == g[Shifted(k, i)]
  {
    g[..k] + g[k + 1..]
  }

  lemma KeptSum(g: seq<nat>, k: nat)
    requires k < |g|
    ensures Sum(Kept(g, k)) + g[k] == Sum(g)
  {
    hide Sum;
    SumConcat(g[..k], g[k + 1..]);
    SumSnoc(g, k);
    SumConcat(g[..k + 1], g[k + 1..]);
    assert g == g[..k + 1] + g[k + 1..];
  }

  lemma InsertedMins(claims: seq<Demand>, k: nat, c: Demand)
    requires k <= |claims|
    ensures Sum(Mins(Insert(claims, k, c))) == Sum(Mins(claims)) + c.min
  {
    var mins := Mins(Insert(claims, k, c));
    KeptSum(mins, k);
    assert Kept(mins, k) == Mins(claims);
  }

  /** A claim that gained while another lost bounds what the other lost: `p` and `q`
      are the roundings either list's fairness allows. */
  lemma LossBound(ai: int, bi: int, aj: int, bj: int, mi: int, mj: int, wi: nat, wj: nat, p: nat, q: nat)
    requires wi > 0
    requires (aj - mj) * wi <= (ai - mi) * wj + p * (wi + wj)
    requires (bi - mi) * wj <= (bj - mj) * wi + q * (wj + wi)
    requires bi - ai >= p + q
    ensures aj <= bj + p + q
  {
    var s := p + q;
    assert (aj - bj) * wi <= s * wi by {
      Spread(aj - mj, mj - bj, wi);
      Spread(bi - mi, mi - ai, wj);
      assert (mj - bj) * wi == -((bj - mj) * wi);
      assert (mi - ai) * wj == -((ai - mi) * wj);
      Spread(p, q, wi + wj);
      Spread(wi, wj, s);
      MulLe(s, bi - ai, wj);
    }
    CancelLe(aj - bj, s, wi);
  }

  /** The roundings of both lists' passes, the old one's and the new one's. */
  function Roundings(claims: seq<Demand>, more: seq<Demand>, band: nat): (s: nat) {
    PassesOf(claims, band) + PassesOf(more, band)
  }

  lemma FairLoss(claims: seq<Demand>, more: seq<Demand>, a: seq<nat>, b: seq<nat>,
                 i: nat, j: nat, i': nat, j': nat, p: nat, q: nat)
    requires |a| == |claims| && |b| == |more|
    requires i < |claims| && j < |claims| && i' < |more| && j' < |more|
    requires more[i'] == claims[i] && more[j'] == claims[j] && claims[i].weight > 0
    requires FairTo(claims, a, i, j, p) && FairTo(more, b, j', i', q)
    requires b[i'] >= a[i] + p + q
    ensures a[j] <= b[j'] + p + q
  {
    LossBound(a[i], b[i'], a[j], b[j'], claims[i].min, claims[j].min,
              claims[i].weight, claims[j].weight, p, q);
  }

  /** A claim between its floor and its saturation, and not at the latter, has
      weight and room under its cap. */
  lemma RoomUnderCap(c: Demand, grant: nat)
    requires c.min <= grant < c.Saturation()
    ensures c.weight > 0 && grant < c.EffectiveCap()
  {
  }

  lemma FairByPasses(claims: seq<Demand>, band: nat, i: nat, j: nat)
    requires FloorsFit(claims, band) && i < |claims| && j < |claims|
    requires claims[i].weight > 0 && Allocate(claims, band)[i] < claims[i].EffectiveCap()
    ensures FairTo(claims, Allocate(claims, band), i, j, PassesOf(claims, band))
  {
    hide Allocate, FairTo, FloorsFit;
    WeightedFairness(claims, band, i, j);
  }

  lemma OneLoses(claims: seq<Demand>, band: nat, more: seq<Demand>, i: nat, j: nat, i': nat, j': nat)
    requires i < |claims| && j < |claims| && i' < |more| && j' < |more|
    requires more[i'] == claims[i] && more[j'] == claims[j]
    requires FloorsFit(claims, band) && FloorsFit(more, band)
    requires Allocate(more, band)[i'] > Allocate(claims, band)[i]
    requires Allocate(more, band)[i'] >= Allocate(claims, band)[i] + PassesOf(claims, band) + PassesOf(more, band)
    ensures Allocate(claims, band)[j] <= Allocate(more, band)[j'] + PassesOf(claims, band) + PassesOf(more, band)
  {
    hide *;
    var a, b := Allocate(claims, band), Allocate(more, band);
    var p, q := PassesOf(claims, band), PassesOf(more, band);
    if a[j] > b[j'] {
      GrantsInRange(claims, band, i);
      GrantsInRange(claims, band, j);
      GrantsInRange(more, band, i');
      GrantsInRange(more, band, j');
      RoomUnderCap(claims[i], a[i]);
      RoomUnderCap(more[j'], b[j']);
      FairByPasses(claims, band, i, j);
      FairByPasses(more, band, j', i');
      FairLoss(claims, more, a, b, i, j, i', j', p, q);
    }
  }

  lemma NearlyMonotoneWhenFloorsFit(claims: seq<Demand>, band: nat, k: nat, c: Demand, i: nat)
    requires k <= |claims| && i < |claims|
    requires FloorsFit(claims, band) && FloorsFit(Insert(claims, k, c), band)
    ensures Allocate(Insert(claims, k, c), band)[Shifted(k, i)]
         <= Allocate(claims, band)[i] + (|claims| - 1) * Roundings(claims, Insert(claims, k, c), band)
  {
    hide Allocate, FloorsFit, PassesOf;
    var n := |claims|;
    var more := Insert(claims, k, c);
    var a := Allocate(claims, band);
    var b := Kept(Allocate(more, band), k);
    var s := Roundings(claims, more, band);
    OldClaimsHoldNoMore(claims, band, k, c, i);
    if b[i] > a[i] && b[i] >= a[i] + s {
      forall j | 0 <= j < n ensures a[j] <= b[j] + s {
        OneLoses(claims, band, more, i, j, Shifted(k, i), Shifted(k, j));
      }
      SumShift(a, b, i, s);
      Spread(n - 1, 1, s);
    } else if b[i] > a[i] {
      SmallGain(a, b, i, s);
    } else {
      MulLe(0, n - 1, s);
    }
  }

  lemma SmallGain(a: seq<nat>, b: seq<nat>, i: nat, s: nat)
    requires |a| == |b| && i < |a| && a[i] < b[i] < a[i] + s && Sum(b) <= Sum(a)
    ensures b[i] <= a[i] + (|a| - 1) * s
  {
    if |a| > 1 {
      MulLe(1, |a| - 1, s);
    }
  }

  /** If a claim gained, the old list had handed out its whole band. */
  lemma OldClaimsHoldNoMore(claims: seq<Demand>, band: nat, k: nat, c: Demand, i: nat)
    requires k <= |claims| && i < |claims|
    requires FloorsFit(claims, band) && FloorsFit(Insert(claims, k, c), band)
    ensures var a, b := Allocate(claims, band), Kept(Allocate(Insert(claims, k, c), band), k);
            a[i] < b[i] ==> Sum(b) <= Sum(a)
  {
    hide Allocate, FloorsFit;
    var a, all := Allocate(claims, band), Allocate(Insert(claims, k, c), band);
    KeptSum(all, k);
    BandBounded(Insert(claims, k, c), band);
    GrantsInRange(Insert(claims, k, c), band, Shifted(k, i));
    if a[i] < claims[i].Saturation() {
      RoomMeansWholeBand(claims, band, i);
    }
  }

  lemma RoomMeansWholeBand(claims: seq<Demand>, band: nat, i: nat)
    requires FloorsFit(claims, band) && i < |claims| && Allocate(claims, band)[i] < claims[i].Saturation()
    ensures Sum(Allocate(claims, band)) == band
  {
    hide Allocate, FloorsFit;
    var a := Allocate(claims, band);
    Conservation(claims, band);
    forall j | 0 <= j < |claims| ensures a[j] <= Saturations(claims)[j] {
      GrantsInRange(claims, band, j);
    }
    SumUpdate(a, i, a[i] + 1);
    SumMonotone(a[i := a[i] + 1], Saturations(claims));
  }

  /** If nobody fell by more than `s` and the total did not rise, nobody rose by
      more than `s` times the others. */
  lemma SumShift(a: seq<nat>, b: seq<nat>, i: nat, s: nat)
    requires |a| == |b| && i < |a| && a[i] <= b[i]
    requires forall j :: 0 <= j < |a| ==> a[j] <= b[j] + s
    requires Sum(b) <= Sum(a)
    ensures b[i] + s <= a[i] + |a| * s
  {
    hide Sum;
    var lifts: seq<nat> := seq(|a|, j => s);
    var lifted: seq<nat> := seq(|a|, j requires 0 <= j < |a| => b[j] + s);
    SumAdd(b, lifts, lifted);
    SumConstant(lifts, s);
    SumUpdate(a, i, b[i] + s);
    SumMonotone(a[i := b[i] + s], lifted);
  }

  lemma ScaledFloorShrinks(min: nat, band: nat, total: nat, more: nat)
    requires 0 < total <= more
    ensures ScaledFloor(min, band, more) <= ScaledFloor(min, band, total)
  {
    var p, q := min * band, ScaledFloor(min, band, more);
    DivBounds(p, more);
    DivBounds(p, total);
    MulLe(total, more, q);
    CancelLt(q, ScaledFloor(min, band, total) + 1, total);
  }

  lemma ScaledMonotone(claims: seq<Demand>, band: nat, more: seq<Demand>, i: nat, i': nat)
    requires i < |claims| && i' < |more| && more[i'] == claims[i]
    requires Sum(Mins(claims)) <= Sum(Mins(more)) && !FloorsFit(claims, band) && !FloorsFit(more, band)
    ensures Allocate(more, band)[i'] <= Allocate(claims, band)[i]
  {
    var total := Sum(Mins(claims));
    if total > 0 {
      ScaledFloorShrinks(claims[i].min, band, total, Sum(Mins(more)));
    } else {
      BandBounded(more, band);
      SumElement(Allocate(more, band), i');
    }
  }

  /** Monotone add on every input, up to rounding: a new claim, wherever it is
      inserted, raises another's grant by at most one rounding per other old claim
      and pass.  Read from right to left: removing a claim lowers no other grant by
      more than that. */
  lemma NearlyMonotoneAdd(claims: seq<Demand>, band: nat, k: nat, c: Demand, i: nat)
    requires k <= |claims| && i < |claims|
    ensures Allocate(Insert(claims, k, c), band)[Shifted(k, i)]
         <= Allocate(claims, band)[i] + (|claims| - 1) * Roundings(claims, Insert(claims, k, c), band)
  {
    hide Allocate, PassesOf;
    var more := Insert(claims, k, c);
    MulLe(0, |claims| - 1, Roundings(claims, more, band));
    InsertedMins(claims, k, c);
    if FloorsFit(more, band) {
      NearlyMonotoneWhenFloorsFit(claims, band, k, c, i);
    } else {
      ScaledFloorsBounds(more, band);
      if FloorsFit(claims, band) {
        GrantsInRange(claims, band, i);
      } else {
        ScaledMonotone(claims, band, more, i, Shifted(k, i));
      }
    }
  }

  /** On a 64-bit band the bound is linear in the number of claims: at most 160 units
      per other claim. */
  lemma MonotoneAddIsLinear(claims: seq<Demand>, band: u64, k: nat, c: Demand, i: nat)
    requires k <= |claims| < MAX_LEN && i < |claims|
    ensures Allocate(Insert(claims, k, c), band)[Shifted(k, i)]
         <= Allocate(claims, band)[i] + 2 * MAX_PASSES * (|claims| - 1)
  {
    hide Allocate, PassesOf;
    var more := Insert(claims, k, c);
    NearlyMonotoneAdd(claims, band, k, c, i);
    AtMostEightyPasses(claims, band);
    AtMostEightyPasses(more, band);
    MulLe(Roundings(claims, more, band), 2 * MAX_PASSES, |claims| - 1);
  }
}
