/** What the water-fill promises on a claim's own fields: weight, floor, maximum and
    demand. */
module WaterFillFields {
  import opened Arith
  import opened Machine
  import opened Sums
  import opened WaterFill
  import opened WaterFillLaws

  /** The most a claim is due: its floor, or the lesser of its maximum and its demand
      where that is more and it has weight. */
  function Due(c: Demand): (t: nat) {
    if c.weight == 0 then c.min
    else if c.max <= c.demand then (if c.min <= c.max then c.max else c.min)
    else (if c.min <= c.demand then c.demand else c.min)
  }

  function Dues(claims: seq<Demand>): (t: seq<nat>)
    ensures |t| == |claims| && forall i :: 0 <= i < |t| ==> t[i] == Due(claims[i])
  {
    seq(|claims|, i requires 0 <= i < |claims| => Due(claims[i]))
  }

  lemma DueIsSaturation(c: Demand)
    ensures Due(c) == c.Saturation()
    ensures c.EffectiveCap() <= c.max && c.EffectiveCap() <= c.demand
    ensures c.EffectiveCap() == c.max || c.EffectiveCap() == c.demand
  {
  }

  /** Exact conservation: the grants sum to the whole band or to everybody's due. */
  lemma ConservationOfDues(claims: seq<Demand>, band: nat)
    requires FloorsFit(claims, band)
    ensures Sum(Allocate(claims, band)) == if band <= Sum(Dues(claims)) then band else Sum(Dues(claims))
  {
    hide Allocate, Sum, Due;
    Conservation(claims, band);
    forall i | 0 <= i < |claims| ensures Dues(claims)[i] == Saturations(claims)[i] {
      DueIsSaturation(claims[i]);
    }
    assert Dues(claims) == Saturations(claims);
  }

  /** A claim whose floor is within its maximum and its demand is granted no more than
      either. */
  lemma WithinMaxAndDemand(claims: seq<Demand>, band: nat, i: nat)
    requires i < |claims| && claims[i].min <= claims[i].max && claims[i].min <= claims[i].demand
    ensures Allocate(claims, band)[i] <= claims[i].max && Allocate(claims, band)[i] <= claims[i].demand
  {
    hide Allocate;
    if FloorsFit(claims, band) {
      GrantsInRange(claims, band, i);
    } else {
      ScaledFloorsBounds(claims, band);
    }
  }

  /** Exactly when a grant keeps within both: with floors that fit, when the floor does;
      otherwise when the scaled floor does. */
  lemma ClampOnFieldsIff(claims: seq<Demand>, band: nat, i: nat)
    requires i < |claims|
    ensures var c, floors := claims[i], Sum(Mins(claims));
            Allocate(claims, band)[i] <= c.max && Allocate(claims, band)[i] <= c.demand
            <==> if floors < band then c.min <= c.max && c.min <= c.demand
                 else c.min * band <= c.max * floors + Max(0, floors - 1)
                      && c.min * band <= c.demand * floors + Max(0, floors - 1)
  {
    var c, floors := claims[i], Sum(Mins(claims));
    if floors < band {
      hide Allocate, Sum;
      GrantsInRange(claims, band, i);
    } else {
      ScaledGrant(claims, band, i);
      hide *;
      ScaledWithin(c.min, band, floors, c.max);
      ScaledWithin(c.min, band, floors, c.demand);
    }
  }

  lemma ScaledWithin(min: nat, band: nat, floors: nat, most: nat)
    requires floors == 0 ==> min == 0
    ensures (if floors == 0 then 0 else min * band / floors) <= most
       <==> min * band <= most * floors + Max(0, floors - 1)
  {
    if floors > 0 {
      QuotientAtMost(min * band, most, floors);
    }
  }

  lemma ScaledGrant(claims: seq<Demand>, band: nat, i: nat)
    requires i < |claims| && Sum(Mins(claims)) >= band
    ensures var floors := Sum(Mins(claims));
            && Allocate(claims, band)[i] == (if floors == 0 then 0 else claims[i].min * band / floors)
            && (floors == 0 ==> claims[i].min == 0)
  {
    if Sum(Mins(claims)) == 0 {
      SumZero(Mins(claims));
      assert Mins(claims)[i] == 0;
    }
    hide Sum;
  }

  /** Floors that do not fit are scaled in proportion: each is granted its part of the
      band among the floors, rounded down. */
  lemma FloorsScaleInProportion(claims: seq<Demand>, band: nat, i: nat)
    requires i < |claims| && Sum(Mins(claims)) >= band && Sum(Mins(claims)) > 0
    ensures var g, floors := Allocate(claims, band)[i], Sum(Mins(claims));
            g * floors <= claims[i].min * band < (g + 1) * floors
  {
    hide Sum;
    DivBounds(claims[i].min * band, Sum(Mins(claims)));
  }

  /** A claim alone gets the whole band, or its due. */
  lemma AloneGetsAll(c: Demand, band: nat)
    requires c.min < band
    ensures Allocate([c], band) == [if band <= Due(c) then band else Due(c)]
  {
    One(Mins([c]));
    One(Dues([c]));
    One(Allocate([c], band));
    hide Allocate, Sum, Due;
    ConservationOfDues([c], band);
  }

  lemma One(s: seq<nat>)
    requires |s| == 1
    ensures Sum(s) == s[0]
  {
    assert s[..0] == [];
  }

  /** What a claim leaves goes to the others: with one claim that wants little and one
      that takes anything, the second gets all the first does not. */
  lemma RestGoesToTheOther(c: Demand, d: Demand, band: nat)
    requires c.min + d.min < band <= Due(c) + Due(d)
    ensures Allocate([c, d], band)[0] + Allocate([c, d], band)[1] == band
    ensures c.min <= Allocate([c, d], band)[0] <= Due(c) && d.min <= Allocate([c, d], band)[1] <= Due(d)
  {
    Two(Mins([c, d]));
    Two(Dues([c, d]));
    Two(Allocate([c, d], band));
    hide Allocate, Sum, Due;
    DueIsSaturation(c);
    DueIsSaturation(d);
    ConservationOfDues([c, d], band);
    GrantsInRange([c, d], band, 0);
    GrantsInRange([c, d], band, 1);
  }

  lemma Two(s: seq<nat>)
    requires |s| == 2
    ensures Sum(s) == s[0] + s[1]
  {
    One(s[..1]);
  }

  /** A claimant that wants 5 of a maximum of 100 leaves 15 of a band of 20. */
  lemma IdleFreesItsShare()
    ensures Allocate([Demand(1, 0, 100, 5), Demand(1, 0, 100, 100)], 20)[0] <= 5
    ensures Allocate([Demand(1, 0, 100, 5), Demand(1, 0, 100, 100)], 20)[1] >= 15
  {
    RestGoesToTheOther(Demand(1, 0, 100, 5), Demand(1, 0, 100, 100), 20);
  }
}
