/** Incentives of the dominant-resource kernel before flooring: nobody gains by
    reporting another demand, and exactly when nobody can be given more without taking
    from somebody else. */
module DrfIncentives {
  import opened Machine
  import opened RealSums
  import opened Claimants
  import opened Drf
  import opened DrfLaws
  import opened DrfRounding

  // ---- strategy-proofness ------------------------------------------------

  lemma SumAfterReport(claims: seq<DemandVector>, band: Bands, i: nat, lie: DemandVector, dim: Dim)
      returns (others: real)
    requires i < |claims|
    ensures others >= 0.0
    ensures RSum(PerShares(claims, band, dim)) == others + PerShare(claims[i], band, dim)
    ensures RSum(PerShares(claims[i := lie], band, dim)) == others + PerShare(lie, band, dim)
  {
    hide PerShare, RSum;
    var a, b := PerShares(claims, band, dim), PerShares(claims[i := lie], band, dim);
    assert b == a[i := PerShare(lie, band, dim)];
    RSumUpdate(a, i, PerShare(lie, band, dim));
    RSumUpdate(a, i, 0.0);
    others := RSum(a) - PerShare(claims[i], band, dim);
    var rest := a[i := 0.0];
    forall k | 0 <= k < |a| ensures rest[k] >= 0.0 {
      if k != i {
        PerShareBounds(claims[k], band, dim);
      }
    }
    RSumNonNegative(rest);
  }

  /** More at a higher share to one, and no less to the others, does not fit. */
  lemma CannotBothGrow(s: real, s': real, others: real, mine: real, lied: real, b: real)
    requires 0.0 < s < s' && others >= 0.0 && b > 0.0
    requires Times(s, others + mine) == b
    requires mine >= 0.0 && lied >= 0.0 && (mine > 0.0 ==> Times(s', lied) > Times(s, mine))
    ensures Times(s', others + lied) > b
  {
    hide Times;
    TimesSum(others, mine, s);
    TimesSum(others, lied, s');
    TimesLe(others, s, s');
    TimesSign(s', lied);
    if mine == 0.0 {
      TimesSign(s, mine);
      TimesSign(s, others);
      if others > 0.0 {
        TimesCancel(s, s', others);
      }
    }
  }

  /** A bundle that runs more tasks than the claimant's own holds more of every axis it
      contends on, and was cut at a higher share. */
  lemma MoreTasksMoreShare(c: DemandVector, lie: DemandVector, band: Bands, s: real, s': real, t: real)
    requires Participates(c, band) && s > 0.0 && s' > 0.0
    requires Supports(c, Bundle(lie, band, s'), t) && !Supports(c, Bundle(c, band, s), t)
    ensures s < s'
    ensures forall dim :: Contends(c, dim) ==> Exact(c, band, s, dim) < Exact(lie, band, s', dim)
  {
    hide DominantDim, Bundle, PerShare, Times, Over, DominantRatio, Exact, Participates, Contends;
    var r, dr := DominantDim(c, band), DominantRatio(c, band);
    DominantDemand(c, band);
    var need := Times(t, c.Get(r).demand as real);
    if need <= Times(s, band.Get(r)) {
      DominantAxisDecides(c, band, s, t);
    }
    assert need > Times(s, band.Get(r));
    SupportsOn(c, Bundle(lie, band, s'), t, r);
    HoldsAtMost(lie, band, s', r);
    TimesCancel(s, s', band.Get(r));
    TimesSwap(t, dr, band.Get(r));
    TimesCancel(s, Times(t, dr), band.Get(r));
    forall dim | Contends(c, dim) ensures Exact(c, band, s, dim) < Exact(lie, band, s', dim) {
      SupportsOn(c, Bundle(lie, band, s'), t, dim);
      BundleGet(lie, band, s', dim);
      ExactIs(c, band, s, dim);
      RatioPositive(c, band, dim);
      TaskExceeds(t, c.Get(dim).demand as real, s, dr);
    }
  }

  lemma RatioPositive(c: DemandVector, band: Bands, dim: Dim)
    requires Participates(c, band) && Contends(c, dim)
    ensures DominantRatio(c, band) > 0.0 && c.Get(dim).demand as real > 0.0
  {
  }

  lemma TaskExceeds(t: real, e: real, s: real, dr: real)
    requires dr > 0.0 && e > 0.0 && s < Times(t, dr)
    ensures Times(s, Over(e, dr)) < Times(t, e)
  {
    hide Times, Over;
    var q := Over(e, dr);
    OverSign(e, dr);
    OverTimes(e, dr);
    TimesCancel(s, Times(t, dr), q);
    TimesSwap(t, dr, q);
    TimesSwap(dr, q, 0.0);
  }

  /** Strategy-proofness: whatever demand a participant reports instead of its own, it
      cannot run more of its own tasks on what it then gets. */
  lemma StrategyProof(claims: seq<DemandVector>, band: Bands, i: nat, lie: DemandVector, s: real, s': real, t: real)
    requires i < |claims| && Participates(claims[i], band)
    requires EqualShare(claims, band) == Some(s) && EqualShare(claims[i := lie], band) == Some(s')
    requires Supports(claims[i], Bundle(lie, band, s'), t)
    ensures Supports(claims[i], Bundle(claims[i], band, s), t)
  {
    hide *;
    var c := claims[i];
    FirstSaturation(claims, band, s);
    FirstSaturation(claims[i := lie], band, s');
    if !Supports(c, Bundle(c, band, s), t) {
      MoreTasksMoreShare(c, lie, band, s, s', t);
      var q :| band.Get(q) > 0.0 && ExactTotal(claims, band, s, q) == band.Get(q);
      assert ExactTotal(claims[i := lie], band, s', q) <= band.Get(q);
      var others := SumAfterReport(claims, band, i, lie, q);
      PerShareBounds(c, band, q);
      PerShareBounds(lie, band, q);
      ExactTotalIs(claims, band, s, q);
      ExactTotalIs(claims[i := lie], band, s', q);
      ExactAre(c, band, s, q);
      ExactAre(lie, band, s', q);
      CannotBothGrow(s, s', others, PerShare(c, band, q), PerShare(lie, band, q), band.Get(q));
    }
  }

  lemma ExactTotalIs(claims: seq<DemandVector>, band: Bands, s: real, dim: Dim)
    ensures ExactTotal(claims, band, s, dim) == Times(s, RSum(PerShares(claims, band, dim)))
  {
  }

  lemma ExactAre(c: DemandVector, band: Bands, s: real, dim: Dim)
    ensures Exact(c, band, s, dim) == Times(s, PerShare(c, band, dim))
  {
  }

  // ---- what flooring can cost ----------------------------------------------

  lemma SupportsLess(c: DemandVector, x: Bands, y: Bands, t: real)
    requires Supports(c, x, t) && forall dim :: Contends(c, dim) ==> x.Get(dim) <= y.Get(dim)
    ensures Supports(c, y, t)
  {
    hide Times, Contends;
  }

  lemma FlooredBelow(c: DemandVector, band: Bands, s: real)
    requires s > 0.0
    ensures forall dim: Dim :: AsBands(GrantTo(c, band, s)).Get(dim) <= Bundle(c, band, s).Get(dim)
  {
    hide Exact, Granted, Bundle;
    forall dim: Dim ensures AsBands(GrantTo(c, band, s)).Get(dim) <= Bundle(c, band, s).Get(dim) {
      GrantedBelowExact(c, band, s, dim);
      BundleGet(c, band, s, dim);
    }
  }

  /** One task is lost at most: the fraction of one that a unit of the smallest
      contended demand is worth. */
  lemma FloorKeepsTasks(c: DemandVector, band: Bands, s: real, t: real, m: nat)
    requires s > 0.0 && m > 0 && forall dim :: Contends(c, dim) ==> m <= c.Get(dim).demand
    requires forall dim :: Contends(c, dim) ==> Exact(c, band, s, dim) <= U64_MAX as real
    requires Supports(c, Bundle(c, band, s), t)
    ensures Supports(c, AsBands(GrantTo(c, band, s)), t - Over(1.0, m as real))
  {
    hide Exact, Granted, Bundle, Times, Over, Contends;
    var less := Over(1.0, m as real);
    forall dim | Contends(c, dim)
      ensures Times(t - less, c.Get(dim).demand as real) <= AsBands(GrantTo(c, band, s)).Get(dim)
    {
      var d := c.Get(dim).demand as real;
      GrantedBelowExact(c, band, s, dim);
      FloorOf(c, band, s, dim);
      SupportsOn(c, Bundle(c, band, s), t, dim);
      BundleGet(c, band, s, dim);
      OverTimes(1.0, m as real);
      OverSign(1.0, m as real);
      TimesLe(less, m as real, d);
      TimesSum(t - less, less, d);
    }
  }

  /** No envy of grants, up to a task: what a claimant could run on another's grant it
      can run on its own, less at most one part in `m` of a task. */
  lemma FlooredEnvy(claims: seq<DemandVector>, band: Bands, s: real, i: nat, j: nat, t: real, m: nat)
    requires EqualShare(claims, band) == Some(s) && i < |claims| && j < |claims| && Participates(claims[i], band)
    requires m > 0 && forall dim :: Contends(claims[i], dim) ==> m <= claims[i].Get(dim).demand
    requires forall dim :: Contends(claims[i], dim) ==> Exact(claims[i], band, s, dim) <= U64_MAX as real
    requires Supports(claims[i], AsBands(AllocateDrf(band, claims)[j]), t)
    ensures Supports(claims[i], AsBands(AllocateDrf(band, claims)[i]), t - Over(1.0, m as real))
  {
    hide EqualShare, Exact, GrantTo, Bundle, Times, Over, Contends, Participates, Supports, ExactTotal;
    FirstSaturation(claims, band, s);
    FlooredBelow(claims[j], band, s);
    SupportsLess(claims[i], AsBands(GrantTo(claims[j], band, s)), Bundle(claims[j], band, s), t);
    EnvyFree(claims, band, s, i, j, t);
    FloorKeepsTasks(claims[i], band, s, t, m);
  }

  /** Nor of any report, up to a task: what a participant could run on the grant it gets
      for another demand it can run on its own grant, less at most one part in `m`. */
  lemma FlooredReport(claims: seq<DemandVector>, band: Bands, i: nat, lie: DemandVector, s: real, s': real, t: real,
      m: nat)
    requires i < |claims| && Participates(claims[i], band)
    requires EqualShare(claims, band) == Some(s) && EqualShare(claims[i := lie], band) == Some(s')
    requires m > 0 && forall dim :: Contends(claims[i], dim) ==> m <= claims[i].Get(dim).demand
    requires forall dim :: Contends(claims[i], dim) ==> Exact(claims[i], band, s, dim) <= U64_MAX as real
    requires Supports(claims[i], AsBands(AllocateDrf(band, claims[i := lie])[i]), t)
    ensures Supports(claims[i], AsBands(AllocateDrf(band, claims)[i]), t - Over(1.0, m as real))
  {
    hide EqualShare, Exact, GrantTo, Bundle, Times, Over, Contends, Participates, Supports, ExactTotal;
    FirstSaturation(claims, band, s);
    FirstSaturation(claims[i := lie], band, s');
    FlooredBelow(lie, band, s');
    SupportsLess(claims[i], AsBands(GrantTo(lie, band, s')), Bundle(lie, band, s'), t);
    StrategyProof(claims, band, i, lie, s, s', t);
    FloorKeepsTasks(claims[i], band, s, t, m);
  }

  // ---- Pareto efficiency --------------------------------------------------

  /** How many of its tasks each claimant runs; none if it does not participate. */
  function TasksAt(claims: seq<DemandVector>, band: Bands, s: real): (t: seq<real>)
    ensures |t| == |claims|
    ensures forall i :: 0 <= i < |t| ==>
      t[i] == if Participates(claims[i], band) then Over(s, DominantRatio(claims[i], band)) else 0.0
  {
    seq(|claims|, i requires 0 <= i < |claims| =>
      if Participates(claims[i], band) then Over(s, DominantRatio(claims[i], band)) else 0.0)
  }

  /** What the tasks take of an axis. */
  function Taken(claims: seq<DemandVector>, t: seq<real>, dim: Dim): (r: seq<real>)
    requires |t| == |claims|
    ensures |r| == |claims|
    ensures forall i :: 0 <= i < |r| ==>
      r[i] == if Contends(claims[i], dim) then Times(t[i], claims[i].Get(dim).demand as real) else 0.0
  {
    seq(|claims|, i requires 0 <= i < |claims| =>
      if Contends(claims[i], dim) then Times(t[i], claims[i].Get(dim).demand as real) else 0.0)
  }

  /** The tasks fit every axis that has a band. */
  ghost predicate Feasible(claims: seq<DemandVector>, band: Bands, t: seq<real>)
    requires |t| == |claims|
  {
    forall dim: Dim :: band.Get(dim) > 0.0 ==> RSum(Taken(claims, t, dim)) <= band.Get(dim)
  }

  /** Nobody participating runs fewer tasks under `t'`, and somebody more. */
  ghost predicate Improves(claims: seq<DemandVector>, band: Bands, t: seq<real>, t': seq<real>)
    requires |t| == |t'| == |claims|
  {
    && (forall i :: 0 <= i < |claims| ==> t'[i] >= t[i])
    && exists i :: 0 <= i < |claims| && Participates(claims[i], band) && t'[i] > t[i]
  }

  ghost predicate Saturated(claims: seq<DemandVector>, band: Bands, s: real, dim: Dim) {
    band.Get(dim) > 0.0 && ExactTotal(claims, band, s, dim) == band.Get(dim)
  }

  lemma TakenIsExact(claims: seq<DemandVector>, band: Bands, s: real, dim: Dim)
    ensures Taken(claims, TasksAt(claims, band, s), dim) == Exacts(claims, band, s, dim)
  {
    hide DominantRatio, Times, Over, Contends;
    var t, x := Taken(claims, TasksAt(claims, band, s), dim), Exacts(claims, band, s, dim);
    forall i | 0 <= i < |claims| ensures t[i] == x[i] {
      TakenOne(claims[i], band, s, dim);
    }
  }

  lemma TakenOne(c: DemandVector, band: Bands, s: real, dim: Dim)
    ensures Exact(c, band, s, dim)
         == if Contends(c, dim)
            then Times(if Participates(c, band) then Over(s, DominantRatio(c, band)) else 0.0,
                c.Get(dim).demand as real)
            else 0.0
  {
    if Participates(c, band) && Contends(c, dim) {
      ExactIsTasks(c, band, s, dim);
    } else {
      PerShareBounds(c, band, dim);
      hide DominantRatio, Over, PerShare;
      TimesSign(s, c.Get(dim).demand as real);
      TimesSign(0.0, c.Get(dim).demand as real);
    }
  }

  lemma ExactsSum(claims: seq<DemandVector>, band: Bands, s: real, dim: Dim)
    ensures ExactTotal(claims, band, s, dim) == RSum(Taken(claims, TasksAt(claims, band, s), dim))
  {
    TakenIsExact(claims, band, s, dim);
    RSumScale(PerShares(claims, band, dim), Exacts(claims, band, s, dim), s);
    hide Taken, TasksAt;
  }

  lemma TakenMore(claims: seq<DemandVector>, t: seq<real>, t': seq<real>, i: nat, dim: Dim)
    requires |t| == |t'| == |claims| && i < |claims| && Contends(claims[i], dim)
    requires (forall k :: 0 <= k < |claims| ==> t'[k] >= t[k]) && t'[i] > t[i]
    ensures RSum(Taken(claims, t, dim)) < RSum(Taken(claims, t', dim))
  {
    hide Times, RSum;
    var a, b := Taken(claims, t, dim), Taken(claims, t', dim);
    forall k | 0 <= k < |claims| ensures a[k] <= b[k] && (k == i ==> a[k] < b[k]) {
      if Contends(claims[k], dim) {
        var d := claims[k].Get(dim).demand as real;
        TimesLe(d, t[k], t'[k]);
        TimesCancel(t[k], t'[k], d);
      }
    }
    RSumLe(a, b);
  }

  /** A participant contending on a saturated axis cannot be given more. */
  lemma SaturatedBlocks(claims: seq<DemandVector>, band: Bands, s: real, t': seq<real>, i: nat, dim: Dim)
    requires |t'| == |claims| && i < |claims| && Saturated(claims, band, s, dim) && Contends(claims[i], dim)
    requires forall k :: 0 <= k < |claims| ==> t'[k] >= TasksAt(claims, band, s)[k]
    requires t'[i] > TasksAt(claims, band, s)[i]
    ensures !Feasible(claims, band, t')
  {
    hide Taken, TasksAt, RSum, ExactTotal;
    ExactsSum(claims, band, s, dim);
    TakenMore(claims, TasksAt(claims, band, s), t', i, dim);
  }

  // ---- a claimant with room ------------------------------------------------

  /** Room for that many more tasks of `c` on `dim`. */
  function RoomOn(claims: seq<DemandVector>, band: Bands, s: real, c: DemandVector, dim: Dim): (m: real)
  {
    if Contends(c, dim) && band.Get(dim) > 0.0
    then Over(band.Get(dim) - RSum(Exacts(claims, band, s, dim)), c.Get(dim).demand as real)
    else 1.0
  }

  function Room(claims: seq<DemandVector>, band: Bands, s: real, c: DemandVector): (m: real) {
    MinR(MinR(RoomOn(claims, band, s, c, Storage), RoomOn(claims, band, s, c, Cpu)),
         MinR(RoomOn(claims, band, s, c, Bandwidth), RoomOn(claims, band, s, c, RequestRate)))
  }

  lemma TakenPlus(claims: seq<DemandVector>, t: seq<real>, i: nat, m: real, dim: Dim)
    requires |t| == |claims| && i < |claims|
    ensures RSum(Taken(claims, t[i := t[i] + m], dim))
         == RSum(Taken(claims, t, dim))
            + if Contends(claims[i], dim) then Times(m, claims[i].Get(dim).demand as real) else 0.0
  {
    hide Times, RSum;
    var a, b := Taken(claims, t, dim), Taken(claims, t[i := t[i] + m], dim);
    assert b == a[i := b[i]];
    RSumUpdate(a, i, b[i]);
    TimesSum(t[i], m, claims[i].Get(dim).demand as real);
  }

  lemma RoomFits(claims: seq<DemandVector>, band: Bands, s: real, i: nat, m: real, dim: Dim)
    requires i < |claims| && band.Get(dim) > 0.0 && ExactTotal(claims, band, s, dim) <= band.Get(dim)
    requires Contends(claims[i], dim) ==> m <= RoomOn(claims, band, s, claims[i], dim)
    ensures var t := TasksAt(claims, band, s); RSum(Taken(claims, t[i := t[i] + m], dim)) <= band.Get(dim)
  {
    hide Times, Over, RSum, Taken, TasksAt, ExactTotal, Exacts;
    var t := TasksAt(claims, band, s);
    ExactsSum(claims, band, s, dim);
    TakenIsExact(claims, band, s, dim);
    TakenPlus(claims, t, i, m, dim);
    if Contends(claims[i], dim) {
      var d := claims[i].Get(dim).demand as real;
      OverTimes(band.Get(dim) - RSum(Exacts(claims, band, s, dim)), d);
      TimesLe(d, m, RoomOn(claims, band, s, claims[i], dim));
    }
  }

  lemma RoomOnIsPositive(claims: seq<DemandVector>, band: Bands, s: real, c: DemandVector, dim: Dim)
    requires band.Get(dim) > 0.0 ==> ExactTotal(claims, band, s, dim) <= band.Get(dim)
    requires Contends(c, dim) ==> !Saturated(claims, band, s, dim)
    ensures RoomOn(claims, band, s, c, dim) > 0.0
  {
    hide Over, RSum, ExactTotal, Exacts;
    ExactTotalSums(claims, band, s, dim);
    if Contends(c, dim) && band.Get(dim) > 0.0 {
      OverSign(band.Get(dim) - RSum(Exacts(claims, band, s, dim)), c.Get(dim).demand as real);
    }
  }

  lemma RoomIsPositive(claims: seq<DemandVector>, band: Bands, s: real, c: DemandVector)
    requires forall dim :: band.Get(dim) > 0.0 ==> ExactTotal(claims, band, s, dim) <= band.Get(dim)
    requires forall dim :: Contends(c, dim) ==> !Saturated(claims, band, s, dim)
    ensures Room(claims, band, s, c) > 0.0
    ensures forall dim: Dim :: Room(claims, band, s, c) <= RoomOn(claims, band, s, c, dim)
  {
    hide RoomOn, ExactTotal, Saturated, Contends, Bands.Get;
    forall dim: Dim ensures RoomOn(claims, band, s, c, dim) > 0.0
        && Room(claims, band, s, c) <= RoomOn(claims, band, s, c, dim) {
      RoomOnIsPositive(claims, band, s, c, dim);
      match dim
      case Storage =>
      case Cpu =>
      case Bandwidth =>
      case RequestRate =>
    }
    RoomOnIsPositive(claims, band, s, c, Storage);
    RoomOnIsPositive(claims, band, s, c, Cpu);
    RoomOnIsPositive(claims, band, s, c, Bandwidth);
    RoomOnIsPositive(claims, band, s, c, RequestRate);
  }

  lemma ExactTotalSums(claims: seq<DemandVector>, band: Bands, s: real, dim: Dim)
    ensures ExactTotal(claims, band, s, dim) == RSum(Exacts(claims, band, s, dim))
  {
    RSumScale(PerShares(claims, band, dim), Exacts(claims, band, s, dim), s);
  }

  /** Every participant contends on some axis handed out to the last unit. */
  ghost predicate AllBlocked(claims: seq<DemandVector>, band: Bands, s: real) {
    forall i :: 0 <= i < |claims| && Participates(claims[i], band) ==>
      exists dim :: Contends(claims[i], dim) && Saturated(claims, band, s, dim)
  }

  /** The single round is Pareto efficient exactly when every participant contends on
      an axis it saturates: otherwise somebody could run more at nobody's expense. */
  lemma ParetoEfficientIff(claims: seq<DemandVector>, band: Bands, s: real)
    requires EqualShare(claims, band) == Some(s)
    ensures Feasible(claims, band, TasksAt(claims, band, s))
    ensures (exists t' ::
               |t'| == |claims| && Feasible(claims, band, t') && Improves(claims, band, TasksAt(claims, band, s), t'))
       <==> !AllBlocked(claims, band, s)
  {
    hide EqualShare, ExactTotal, Taken, TasksAt, RSum, Participates, Contends, Saturated;
    var t := TasksAt(claims, band, s);
    FirstSaturation(claims, band, s);
    forall dim: Dim | band.Get(dim) > 0.0 ensures RSum(Taken(claims, t, dim)) <= band.Get(dim) {
      ExactsSum(claims, band, s, dim);
    }
    if t' :| |t'| == |claims| && Feasible(claims, band, t') && Improves(claims, band, t, t') {
      var i :| 0 <= i < |claims| && Participates(claims[i], band) && t'[i] > t[i];
      forall dim | Contends(claims[i], dim) ensures !Saturated(claims, band, s, dim) {
        if Saturated(claims, band, s, dim) {
          SaturatedBlocks(claims, band, s, t', i, dim);
        }
      }
    }
    if !AllBlocked(claims, band, s) {
      var i :| 0 <= i < |claims| && Participates(claims[i], band)
        && forall dim :: Contends(claims[i], dim) ==> !Saturated(claims, band, s, dim);
      RoomToImprove(claims, band, s, i);
    }
  }

  lemma RoomToImprove(claims: seq<DemandVector>, band: Bands, s: real, i: nat)
    requires i < |claims| && Participates(claims[i], band)
    requires forall dim :: band.Get(dim) > 0.0 ==> ExactTotal(claims, band, s, dim) <= band.Get(dim)
    requires forall dim :: Contends(claims[i], dim) ==> !Saturated(claims, band, s, dim)
    ensures exists t' ::
              |t'| == |claims| && Feasible(claims, band, t') && Improves(claims, band, TasksAt(claims, band, s), t')
  {
    hide ExactTotal, Taken, TasksAt, RSum, Participates, Contends, Saturated, Room, RoomOn;
    var t, m := TasksAt(claims, band, s), Room(claims, band, s, claims[i]);
    RoomIsPositive(claims, band, s, claims[i]);
    var t' := t[i := t[i] + m];
    forall dim: Dim | band.Get(dim) > 0.0 ensures RSum(Taken(claims, t', dim)) <= band.Get(dim) {
      RoomFits(claims, band, s, i, m, dim);
    }
    assert t'[i] > t[i];
    assert Feasible(claims, band, t') && Improves(claims, band, t, t');
  }

  /** Two storage claimants saturate storage at half, while half of the cpu lies idle
      and its only claimant could run more. */
  lemma RoundLeavesRoom()
    ensures EqualShare(TwoAgainstOne(), THREE_AND_TEN) == Some(0.5) && !AllBlocked(TwoAgainstOne(), THREE_AND_TEN, 0.5)
  {
    HalfShare();
    AskingRatios();
    PullsOfThree(Cpu);
    hide EqualShare, DominantRatio, RSum, PerShares, AllBlocked;
    var claims := TwoAgainstOne();
    assert RSum(PerShares(claims, THREE_AND_TEN, Cpu)) == 10.0;
    ExactTotalIs(claims, THREE_AND_TEN, 0.5, Cpu);
    assert Participates(claims[2], THREE_AND_TEN);
    assert forall dim :: Contends(claims[2], dim) ==> dim == Cpu;
    hide ExactTotal;
    assert !Saturated(claims, THREE_AND_TEN, 0.5, Cpu);
    if AllBlocked(claims, THREE_AND_TEN, 0.5) {
      BlockedIs(claims, THREE_AND_TEN, 0.5, 2);
    }
  }

  lemma BlockedIs(claims: seq<DemandVector>, band: Bands, s: real, i: nat)
    requires AllBlocked(claims, band, s) && i < |claims| && Participates(claims[i], band)
    ensures exists dim :: Contends(claims[i], dim) && Saturated(claims, band, s, dim)
  {
  }
}
