/** Lists of identical claims: the closed form of the split, exactly when it is
    even, and exact monotonicity when a member joins.  Then the inputs on which the
    general forms of "equal claims, equal grants" and "monotone add" fail. */
module WaterFillUniform {
  import opened Arith
  import opened Machine
  import opened Sums
  import opened WaterFill
  import opened WaterFillLaws
  import opened WaterFillMonotone

  ghost predicate Uniform(claims: seq<Demand>, c: Demand) {
    forall i :: 0 <= i < |claims| ==> claims[i] == c
  }

  function UniformShare(surplus: nat, n: nat, k: nat): (r: nat)
    requires n > 0
  {
    surplus / n + if k < surplus % n then 1 else 0
  }

  /** What is left to share once every floor is granted. */
  function Surplus(claims: seq<Demand>, band: nat): (r: nat)
    requires FloorsFit(claims, band)
  {
    band - Sum(Mins(claims))
  }

  // ---- the closed form ---------------------------------------------------

  lemma {:induction false} InsertLast(claims: seq<Demand>, x: nat, order: seq<nat>)
    requires forall k :: 0 <= k < |order| ==> !Before(claims, x, order[k])
    ensures InsertByWeight(claims, x, order) == order + [x]
  {
    if order != [] {
      InsertLast(claims, x, order[1..]);
      assert order == [order[0]] + order[1..];
    }
  }

  lemma {:induction false} UniformOrder(claims: seq<Demand>, c: Demand, frozen: seq<bool>, k: nat)
    requires Uniform(claims, c) && |frozen| == |claims| && k <= |claims|
    requires forall i :: 0 <= i < |claims| ==> !frozen[i]
    ensures |Order(claims, frozen, k)| == k
    ensures forall i :: 0 <= i < k ==> Order(claims, frozen, k)[i] == i
  {
    if k > 0 {
      UniformOrder(claims, c, frozen, k - 1);
      var order := Order(claims, frozen, k - 1);
      forall j | 0 <= j < |order| ensures !Before(claims, k - 1, order[j]) {
      }
      InsertLast(claims, k - 1, order);
      hide *;
      OrderStep(claims, frozen, k);
    }
  }

  lemma OrderStep(claims: seq<Demand>, frozen: seq<bool>, k: nat)
    requires |frozen| == |claims| && 0 < k <= |claims| && !frozen[k - 1]
    ensures Order(claims, frozen, k) == InsertByWeight(claims, k - 1, Order(claims, frozen, k - 1))
  {
  }

  lemma UniformQuotient(surplus: nat, w: nat, n: nat)
    requires w > 0 && n > 0
    ensures n * w > 0 && surplus * w / (n * w) == surplus / n
  {
    var q := surplus / n;
    DivBounds(surplus, n);
    MulLe(1, n, w);
    MulLe(q * n, surplus, w);
    Swap(q, n, w);
    assert q * (n * w) == (q * n) * w;
    assert (q + 1) * (n * w) == ((q + 1) * n) * w;
    MulLe(surplus + 1, (q + 1) * n, w);
    Spread(surplus, 1, w);
    QuotientIs(surplus * w, n * w, q);
  }

  lemma QuotientIs(p: nat, d: nat, q: nat)
    requires d > 0 && q * d <= p < (q + 1) * d
    ensures p / d == q
  {
    DivBounds(p, d);
    CancelLt(q, p / d + 1, d);
    CancelLt(p / d, q + 1, d);
  }

  lemma UniformActiveWeight(claims: seq<Demand>, c: Demand, frozen: seq<bool>)
    requires Uniform(claims, c) && |frozen| == |claims|
    requires forall i :: 0 <= i < |claims| ==> !frozen[i]
    ensures ActiveWeight(claims, frozen) == |claims| * c.weight
  {
    SumConstant(ActiveWeights(claims, frozen), c.weight);
  }

  lemma UniformShares(claims: seq<Demand>, c: Demand, frozen: seq<bool>, surplus: nat)
    requires Uniform(claims, c) && c.weight > 0 && |frozen| == |claims| > 0
    requires forall i :: 0 <= i < |claims| ==> !frozen[i]
    ensures ActiveWeight(claims, frozen) > 0
    ensures forall i :: 0 <= i < |claims| ==> Shares(claims, frozen, surplus)[i] == surplus / |claims|
    ensures Crumb(claims, frozen, surplus) == surplus % |claims|
  {
    hide Order, ActiveWeight;
    var n := |claims|;
    UniformActiveWeight(claims, c, frozen);
    UniformQuotient(surplus, c.weight, n);
    SumConstant(Shares(claims, frozen, surplus), surplus / n);
    assert surplus == n * (surplus / n) + surplus % n;
  }

  lemma UniformAdds(claims: seq<Demand>, c: Demand, frozen: seq<bool>, surplus: nat)
    requires Uniform(claims, c) && c.weight > 0 && |frozen| == |claims| > 0
    requires forall i :: 0 <= i < |claims| ==> !frozen[i]
    ensures ActiveWeight(claims, frozen) > 0
    ensures forall i :: 0 <= i < |claims| ==> Adds(claims, frozen, surplus)[i] == UniformShare(surplus, |claims|, i)
  {
    hide Share, Crumb;
    UniformShares(claims, c, frozen, surplus);
    UniformOrder(claims, c, frozen, |claims|);
    var order, r := Order(claims, frozen, |claims|), surplus % |claims|;
    forall i | 0 <= i < |claims| ensures i in order[..r] <==> i < r {
      if i < r {
        assert order[..r][i] == i;
      }
    }
  }

  /** A list of identical claims before its first pass. */
  ghost predicate UniformStart(claims: seq<Demand>, c: Demand, st: Fill) {
    && Uniform(claims, c) && Valid(claims, st) && claims != [] && c.weight > 0
    && forall i :: 0 <= i < |claims| ==> !st.frozen[i] && st.grant[i] == c.min
  }

  lemma UniformPassEnds(claims: seq<Demand>, c: Demand, st: Fill)
    requires UniformStart(claims, c, st) && ActiveWeight(claims, st.frozen) > 0
    ensures Finished(claims, Pass(claims, st))
  {
    UniformAdds(claims, c, st.frozen, st.remaining);
    hide Share, Order, Adds, Shares, Crumb, ActiveWeight;
    var adds := Adds(claims, st.frozen, st.remaining);
    var share := st.remaining / |claims|;
    if c.min + share >= c.EffectiveCap() {
      AllFreeze(claims, c, st, adds, share);
    } else {
      NothingComesBack(claims, c, st, adds, share);
    }
    hide *;
    PassIsApply(claims, st);
  }

  lemma AllFreeze(claims: seq<Demand>, c: Demand, st: Fill, adds: seq<nat>, share: nat)
    requires UniformStart(claims, c, st) && |adds| == |claims| && c.min + share >= c.EffectiveCap()
    requires forall i :: 0 <= i < |adds| ==> adds[i] >= share
    ensures Finished(claims, Apply(claims, st, adds))
  {
    SumZero(ActiveWeights(claims, Apply(claims, st, adds).frozen));
  }

  lemma NothingComesBack(claims: seq<Demand>, c: Demand, st: Fill, adds: seq<nat>, share: nat)
    requires UniformStart(claims, c, st) && |adds| == |claims| && c.min + share < c.EffectiveCap()
    requires forall i :: 0 <= i < |adds| ==> adds[i] <= share + 1
    ensures Finished(claims, Apply(claims, st, adds))
  {
    SumZero(Overflow(claims, st, adds));
  }

  lemma UniformPassGrants(claims: seq<Demand>, c: Demand, st: Fill, k: nat)
    requires UniformStart(claims, c, st) && ActiveWeight(claims, st.frozen) > 0 && k < |claims|
    ensures |Pass(claims, st).grant| == |claims|
    ensures Pass(claims, st).grant[k] == Min(c.EffectiveCap(), c.min + UniformShare(st.remaining, |claims|, k))
  {
    hide Share, UniformShare, Order, Adds, ActiveWeight;
    UniformAdds(claims, c, st.frozen, st.remaining);
  }

  lemma UniformInitial(claims: seq<Demand>, c: Demand, band: nat)
    requires Uniform(claims, c) && claims != [] && !c.StartsFrozen() && FloorsFit(claims, band)
    ensures UniformStart(claims, c, Initial(claims, band))
    ensures Initial(claims, band).remaining == Surplus(claims, band) > 0
    ensures ActiveWeight(claims, Initial(claims, band).frozen) > 0
    ensures !Finished(claims, Initial(claims, band))
  {
    hide Share, Order;
    var st := Initial(claims, band);
    UniformActiveWeight(claims, c, st.frozen);
    MulLe(1, |claims|, c.weight);
  }

  /** Identical claims split in one pass: everyone the floored share, the first
      `surplus mod n` of them one unit more, nobody above the cap. */
  lemma UniformSplit(claims: seq<Demand>, c: Demand, band: nat, k: nat)
    requires Uniform(claims, c) && !c.StartsFrozen() && FloorsFit(claims, band) && k < |claims|
    ensures Allocate(claims, band)[k]
         == Min(c.EffectiveCap(), c.min + UniformShare(Surplus(claims, band), |claims|, k))
  {
    hide Allocate, Initial, Run, Pass, Finished, Uniform, UniformShare, Surplus, ActiveWeight, Share, Valid, FloorsFit,
        Demand.EffectiveCap, Min;
    var st := Initial(claims, band);
    UniformInitial(claims, c, band);
    AllocateIsRun(claims, band);
    RunUnfolds(claims, st);
    UniformPassGrants(claims, c, st, k);
    if Pass(claims, st).frozen != st.frozen {
      UniformPassEnds(claims, c, st);
      RunStops(claims, Pass(claims, st));
    }
  }

  lemma UniformShareEnds(surplus: nat, n: nat)
    requires n > 0
    ensures forall k :: 0 <= k < n ==> surplus / n <= UniformShare(surplus, n, k) <= surplus / n + 1
    ensures surplus % n == 0 ==> forall k :: 0 <= k < n ==> UniformShare(surplus, n, k) == surplus / n
    ensures surplus % n != 0 ==> UniformShare(surplus, n, 0) == surplus / n + 1
    ensures UniformShare(surplus, n, n - 1) == surplus / n
  {
  }

  /** Identical claims get identical grants exactly when the surplus divides
      evenly or the whole list reaches its cap (a list that starts frozen, or whose
      floors do not fit, is always even). */
  lemma UniformIsEvenIff(claims: seq<Demand>, c: Demand, band: nat)
    requires Uniform(claims, c) && claims != []
    ensures (forall i :: 0 <= i < |claims| ==> Allocate(claims, band)[i] == Allocate(claims, band)[0])
       <==> c.StartsFrozen() || !FloorsFit(claims, band)
            || Surplus(claims, band) % |claims| == 0
            || c.min + Surplus(claims, band) / |claims| >= c.EffectiveCap()
  {
    hide Allocate, FloorsFit, UniformShare, Surplus;
    if FloorsFit(claims, band) {
      if c.StartsFrozen() {
        forall i | 0 <= i < |claims| ensures Allocate(claims, band)[i] == c.min {
          GrantsInRange(claims, band, i);
        }
      } else {
        forall i | 0 <= i < |claims|
          ensures Allocate(claims, band)[i]
               == Min(c.EffectiveCap(), c.min + UniformShare(Surplus(claims, band), |claims|, i))
        {
          UniformSplit(claims, c, band, i);
        }
        UniformShareEnds(Surplus(claims, band), |claims|);
      }
    } else {
      UnfitIsEven(claims, c, band);
    }
  }

  lemma UnfitIsEven(claims: seq<Demand>, c: Demand, band: nat)
    requires Uniform(claims, c) && claims != [] && !FloorsFit(claims, band)
    ensures forall i :: 0 <= i < |claims| ==> Allocate(claims, band)[i] == Allocate(claims, band)[0]
  {
    hide ScaledFloor;
  }

  // ---- a member joins ----------------------------------------------------

  lemma UniformShareAtLeast(surplus: nat, n: nat, k: nat, t: nat)
    requires k < n && t > 0
    ensures UniformShare(surplus, n, k) >= t <==> surplus >= (t - 1) * n + k + 1
  {
    var q, r := surplus / n, surplus % n;
    assert surplus == q * n + r;
    if q >= t {
      MulLe(t, q, n);
      Spread(t - 1, 1, n);
    } else if q < t - 1 {
      MulLe(q + 1, t - 1, n);
      Spread(q, 1, n);
    }
  }

  lemma UniformShareFalls(surplus: nat, n: nat, less: nat, k: nat)
    requires k < n && less <= surplus
    ensures UniformShare(less, n + 1, k) <= UniformShare(surplus, n, k)
  {
    var t := UniformShare(less, n + 1, k);
    if t > 0 {
      UniformShareAtLeast(less, n + 1, k, t);
      UniformShareAtLeast(surplus, n, k, t);
      Spread(n, 1, t - 1);
    }
  }

  /** A further identical member never raises anybody's grant, exactly; read from
      right to left, its leaving never lowers one. */
  lemma UniformMonotoneAdd(claims: seq<Demand>, c: Demand, band: nat, k: nat)
    requires Uniform(claims, c) && k < |claims|
    ensures Allocate(claims + [c], band)[k] <= Allocate(claims, band)[k]
  {
    hide Allocate, UniformShare;
    var more := claims + [c];
    InsertedMins(claims, |claims|, c);
    assert Insert(claims, |claims|, c) == more;
    if FloorsFit(more, band) {
      GrantsInRange(claims, band, k);
      GrantsInRange(more, band, k);
      if !c.StartsFrozen() {
        UniformSplit(claims, c, band, k);
        UniformSplit(more, c, band, k);
        UniformShareFalls(Surplus(claims, band), |claims|, Surplus(more, band), k);
      }
    } else if FloorsFit(claims, band) {
      GrantsInRange(claims, band, k);
      ScaledFloorsBounds(more, band);
    } else {
      ScaledMonotone(claims, band, more, k, k);
    }
  }

  // ---- where the general promises fail -----------------------------------

  /** The even, uncapped claim of the given weight. */
  function Uncapped(weight: u32): (r: Demand) {
    Demand(weight, 0, U64_MAX, U64_MAX)
  }

  lemma ThirdsOfTen()
    ensures UniformShare(10, 3, 0) == 4 && UniformShare(10, 3, 1) == 3 && UniformShare(10, 3, 2) == 3
  {
  }

  /** Three equal claims over a band of 10 do not get equal grants. */
  lemma EqualClaimsUnequalGrants()
    ensures var c := Uncapped(1); Allocate([c, c, c], 10) == [4, 3, 3]
  {
    var c := Uncapped(1);
    var claims := [c, c, c];
    SumConstant(Mins(claims), 0);
    ThirdsOfTen();
    assert FloorsFit(claims, 10) && Surplus(claims, 10) == 10;
    hide *;
    ThreeWays(claims, c);
  }

  lemma ThreeWays(claims: seq<Demand>, c: Demand)
    requires claims == [c, c, c] && c == Uncapped(1)
    requires FloorsFit(claims, 10) && Surplus(claims, 10) == 10
    requires UniformShare(10, 3, 0) == 4 && UniformShare(10, 3, 1) == 3 && UniformShare(10, 3, 2) == 3
    ensures Allocate(claims, 10) == [4, 3, 3]
  {
    hide Allocate, UniformShare, Surplus, FloorsFit;
    UniformSplit(claims, c, 10, 0);
    UniformSplit(claims, c, 10, 1);
    UniformSplit(claims, c, 10, 2);
  }

  /** When nobody reaches a cap the first pass is the whole fill. */
  lemma OnePassWhenUncapped(claims: seq<Demand>, st: Fill)
    requires Valid(claims, st) && !Finished(claims, st)
    requires forall i :: 0 <= i < |claims| ==>
      !st.frozen[i] && st.grant[i] + Adds(claims, st.frozen, st.remaining)[i] < claims[i].EffectiveCap()
    ensures |Run(claims, st).grant| == |claims|
    ensures forall i :: 0 <= i < |claims| ==>
      Run(claims, st).grant[i] == st.grant[i] + Adds(claims, st.frozen, st.remaining)[i]
  {
    hide Share;
    RunUnfolds(claims, st);
    assert Pass(claims, st).frozen == st.frozen;
  }

  ghost predicate AllUncapped(claims: seq<Demand>) {
    forall i :: 0 <= i < |claims| ==> claims[i].weight > 0 && claims[i] == Uncapped(claims[i].weight)
  }

  function NoneFrozen(claims: seq<Demand>): (r: seq<bool>)
    ensures |r| == |claims| && forall i :: 0 <= i < |r| ==> !r[i]
  {
    seq(|claims|, i => false)
  }

  lemma UncappedStart(claims: seq<Demand>, band: nat)
    requires AllUncapped(claims) && 0 < band
    ensures FloorsFit(claims, band)
    ensures var st := Initial(claims, band);
            && st.frozen == NoneFrozen(claims) && st.remaining == band
            && forall i :: 0 <= i < |claims| ==> st.grant[i] == 0
  {
    SumZero(Mins(claims));
  }

  lemma AddsWithinBand(claims: seq<Demand>, frozen: seq<bool>, band: nat)
    requires |frozen| == |claims| && ActiveWeight(claims, frozen) > 0
    ensures forall i :: 0 <= i < |claims| ==> Adds(claims, frozen, band)[i] <= band
  {
    hide *;
    AddsSum(claims, frozen, band);
    forall i | 0 <= i < |claims| ensures Adds(claims, frozen, band)[i] <= band {
      SumElement(Adds(claims, frozen, band), i);
    }
  }

  /** Uncapped claims get what the first pass adds. */
  lemma UncappedSplit(claims: seq<Demand>, band: nat)
    requires AllUncapped(claims) && 0 < band < U64_MAX
    requires ActiveWeight(claims, NoneFrozen(claims)) > 0
    ensures Allocate(claims, band) == Adds(claims, NoneFrozen(claims), band)
  {
    hide Adds, ActiveWeight, Initial, Run;
    UncappedStart(claims, band);
    AddsWithinBand(claims, NoneFrozen(claims), band);
    OnePassWhenUncapped(claims, Initial(claims, band));
  }

  lemma SumOfTwo(s: seq<nat>)
    requires |s| == 2
    ensures Sum(s) == s[0] + s[1]
  {
    SumSnoc(s, 0);
    SumSnoc(s, 1);
    assert s[..2] == s;
  }

  lemma SumOfThree(s: seq<nat>)
    requires |s| == 3
    ensures Sum(s) == s[0] + s[1] + s[2]
  {
    SumOfTwo(s[..2]);
  }

  /** One crumb per claim named in the first `crumb` places of the order. */
  lemma AddsFrom(claims: seq<Demand>, frozen: seq<bool>, band: nat, shares: seq<nat>, order: seq<nat>, crumb: nat)
    requires |frozen| == |claims| && ActiveWeight(claims, frozen) > 0
    requires shares == Shares(claims, frozen, band) && crumb == Crumb(claims, frozen, band)
    requires order == Order(claims, frozen, |claims|)
    ensures forall i :: 0 <= i < |claims| ==>
      Adds(claims, frozen, band)[i] == shares[i] + if i in order[..crumb] then 1 else 0
  {
  }

  /** Two uncapped claims of weights 10 and 11 over a band of 2. */
  lemma TwoHeavyClaims()
    ensures Allocate([Uncapped(10), Uncapped(11)], 2) == [0, 2]
  {
    hide Allocate, Adds, ActiveWeight, Crumb, Sum, CrumbBits;
    var claims := [Uncapped(10), Uncapped(11)];
    var frozen := NoneFrozen(claims);
    SumOfTwo(ActiveWeights(claims, frozen));
    UncappedWeight(claims, 21);
    UncappedSplit(claims, 2);
    var shares := Shares(claims, frozen, 2);
    assert shares == [0, 1];
    SumOfTwo(shares);
    CrumbIs(claims, frozen, 2);
    var order := Order(claims, frozen, 2);
    assert Order(claims, frozen, 1) == [0];
    assert order == [1, 0];
    AddsFrom(claims, frozen, 2, shares, order, 1);
    assert order[..1] == [1];
  }

  lemma UncappedWeight(claims: seq<Demand>, total: nat)
    requires Sum(ActiveWeights(claims, NoneFrozen(claims))) == total
    ensures ActiveWeight(claims, NoneFrozen(claims)) == total
  {
  }

  lemma CrumbIs(claims: seq<Demand>, frozen: seq<bool>, band: nat)
    requires |frozen| == |claims| && ActiveWeight(claims, frozen) > 0
    ensures Crumb(claims, frozen, band) == band - Sum(Shares(claims, frozen, band))
  {
  }

  lemma ThreeWeightsOrder(claims: seq<Demand>)
    requires claims == [Uncapped(10), Uncapped(11), Uncapped(9)]
    ensures Order(claims, NoneFrozen(claims), 3) == [1, 0, 2]
  {
    hide Sum;
    assert Order(claims, NoneFrozen(claims), 1) == [0];
    assert Order(claims, NoneFrozen(claims), 2) == [1, 0];
    InsertLast(claims, 2, [1, 0]);
  }

  /** With a third of weight 9, the band of 2 goes one, one and nothing. */
  lemma ThirdClaimJoins()
    ensures Allocate([Uncapped(10), Uncapped(11), Uncapped(9)], 2) == [1, 1, 0]
  {
    hide Allocate, Adds, ActiveWeight, Crumb, Sum, CrumbBits, Order, InsertByWeight;
    var claims := [Uncapped(10), Uncapped(11), Uncapped(9)];
    var frozen := NoneFrozen(claims);
    SumOfThree(ActiveWeights(claims, frozen));
    UncappedWeight(claims, 30);
    UncappedSplit(claims, 2);
    var shares := Shares(claims, frozen, 2);
    assert shares == [0, 0, 0];
    SumOfThree(shares);
    CrumbIs(claims, frozen, 2);
    ThreeWeightsOrder(claims);
    AddsFrom(claims, frozen, 2, shares, [1, 0, 2], 2);
    assert [1, 0, 2][..2] == [1, 0];
  }

  /** Adding a claim can raise another's grant: the claim of weight 10 goes from
      nothing to one unit. */
  lemma MonotoneAddFails()
    ensures Allocate([Uncapped(10), Uncapped(11)] + [Uncapped(9)], 2)[0] > Allocate([Uncapped(10), Uncapped(11)], 2)[0]
  {
    hide Allocate;
    TwoHeavyClaims();
    ThirdClaimJoins();
    assert [Uncapped(10), Uncapped(11)] + [Uncapped(9)] == [Uncapped(10), Uncapped(11), Uncapped(9)];
  }
}
