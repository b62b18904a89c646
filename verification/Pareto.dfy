/** The Pareto auction: keep the proposals nobody dominates, then pick one by
    policy.  The candidates are the grow proposals the band law already sized. */
module Pareto {
  import opened Machine
  import opened RealSums

  type Forma = nat

  datatype Proposal = Proposal(forma: Forma, delta: u64, cost: u64, latency: u64)

  predicate Dominates(a: Proposal, b: Proposal) {
    && a.cost <= b.cost && a.latency <= b.latency
    && (a.cost < b.cost || a.latency < b.latency)
  }

  predicate Dominated(all: seq<Proposal>, p: Proposal) {
    exists i :: 0 <= i < |all| && Dominates(all[i], p)
  }

  /** The undominated ones of `some`, against the whole list. */
  function Undominated(all: seq<Proposal>, some: seq<Proposal>): (r: seq<Proposal>)
    ensures forall p :: p in r <==> p in some && !Dominated(all, p)
  {
    if some == [] then []
    else if Dominated(all, some[0]) then Undominated(all, some[1..])
    else [some[0]] + Undominated(all, some[1..])
  }

  function Frontier(all: seq<Proposal>): (r: seq<Proposal>) {
    Undominated(all, all)
  }

  /** Interruptions per million; none known is none. */
  function Risk(ppm: map<Forma, nat>, p: Proposal): (r: nat) {
    if p.forma in ppm then ppm[p.forma] else 0
  }

  /** What a policy minimizes. */
  datatype Key = ByCost | ByLatency | ByScore(weight: real, ppm: map<Forma, nat>) {
    function Of(p: Proposal): (r: real) {
      match this
      case ByCost => p.cost as real
      case ByLatency => p.latency as real
      case ByScore(w, m) => p.cost as real + Times(w, Risk(m, p) as real)
    }
  }

  /** The first minimum, as an iterator's `min_by_key` finds it. */
  function FirstMin(s: seq<Proposal>, key: Key): (r: Option<Proposal>)
    ensures r.None? <==> s == []
    ensures r.Some? ==> r.value in s && forall p :: p in s ==> key.Of(r.value) <= key.Of(p)
  {
    if s == [] then None
    else
      var rest := FirstMin(s[1..], key);
      if rest.None? || key.Of(s[0]) <= key.Of(rest.value) then Some(s[0]) else rest
  }

  /** The proposals no slower than `deadline`, in order. */
  function Within(s: seq<Proposal>, deadline: u64): (r: seq<Proposal>)
    ensures forall p :: p in r <==> p in s && p.latency <= deadline
  {
    if s == [] then []
    else (if s[0].latency <= deadline then [s[0]] else []) + Within(s[1..], deadline)
  }

  /** The proposals of exactly this latency, in order. */
  function Tied(s: seq<Proposal>, latency: u64): (r: seq<Proposal>)
    ensures forall p :: p in r <==> p in s && p.latency == latency
  {
    if s == [] then []
    else (if s[0].latency == latency then [s[0]] else []) + Tied(s[1..], latency)
  }

  datatype PickPolicy =
    | MinCost
    | MinCostUnderDeadline(deadline: u64)
    | MinCostRiskAdjusted(weight: real, ppm: map<Forma, nat>)
    | TopPerformanceThenMinCost

  function Optimize(all: seq<Proposal>, pick: PickPolicy): (r: Option<Proposal>) {
    var frontier := Frontier(all);
    match pick
    case MinCost => FirstMin(frontier, ByCost)
    case MinCostUnderDeadline(d) =>
      var fast := FirstMin(Within(frontier, d), ByCost);
      if fast.Some? then fast else FirstMin(frontier, ByLatency)
    case MinCostRiskAdjusted(w, m) => FirstMin(frontier, ByScore(w, m))
    case TopPerformanceThenMinCost =>
      var fastest := FirstMin(frontier, ByLatency);
      if fastest.None? then None else FirstMin(Tied(frontier, fastest.value.latency), ByCost)
  }

  // ---- filtering is lossless ----------------------------------------------

  /** Every candidate is kept, or beaten on both axes by one that is. */
  lemma {:induction false} DroppedIsBeaten(all: seq<Proposal>, p: Proposal) returns (q: Proposal)
    requires p in all
    ensures q in Frontier(all)
    ensures q == p || (q.cost <= p.cost && q.latency <= p.latency && (q.cost < p.cost || q.latency < p.latency))
    decreases p.cost + p.latency
  {
    if Dominated(all, p) {
      var i :| 0 <= i < |all| && Dominates(all[i], p);
      q := DroppedIsBeaten(all, all[i]);
    } else {
      q := p;
    }
  }

  /** The frontier is exactly the candidates that no candidate beats: none at most as
      dear and as slow is cheaper or faster. */
  lemma KeptIff(all: seq<Proposal>, p: Proposal)
    ensures p in Frontier(all)
       <==> p in all && forall q :: q in all && q.cost <= p.cost && q.latency <= p.latency
                                    ==> q.cost == p.cost && q.latency == p.latency
  {
    if p in all && Dominated(all, p) {
      var i :| 0 <= i < |all| && Dominates(all[i], p);
      assert all[i] in all;
    } else if q :| q in all && Dominates(q, p) {
      var i :| 0 <= i < |all| && all[i] == q;
    }
  }

  lemma FrontierNonEmpty(all: seq<Proposal>)
    requires all != []
    ensures Frontier(all) != []
  {
    var q := DroppedIsBeaten(all, all[0]);
  }

  /** A kept proposal beaten by nobody is a proposal; a kept one dominates no kept one. */
  lemma FrontierIsAntichain(all: seq<Proposal>, p: Proposal, q: Proposal)
    requires p in Frontier(all) && q in Frontier(all)
    ensures p in all && !(p.cost < q.cost && p.latency <= q.latency) && !(p.cost <= q.cost && p.latency < q.latency)
  {
    var i :| 0 <= i < |all| && all[i] == p;
  }

  // ---- the winner is optimal over all candidates --------------------------

  /** The cheapest winner is the cheapest of all, and the fastest of the cheapest. */
  lemma MinCostOptimal(all: seq<Proposal>, p: Proposal)
    requires p in all
    ensures var w := Optimize(all, MinCost);
            w.Some? && w.value in all && w.value.cost <= p.cost
                && (p.cost == w.value.cost ==> w.value.latency <= p.latency)
  {
    var q := DroppedIsBeaten(all, p);
    var w := FirstMin(Frontier(all), ByCost).value;
    assert ByCost.Of(w) <= ByCost.Of(q);
    FrontierIsAntichain(all, q, w);
    var i :| 0 <= i < |all| && all[i] == p;
    assert !Dominates(all[i], w);
  }

  lemma {:induction false} FirstOfKept(all: seq<Proposal>, some: seq<Proposal>) returns (i: nat)
    requires Undominated(all, some) != []
    ensures var w := FirstMin(Undominated(all, some), ByCost).value;
            i < |some| && some[i] == w && forall j :: 0 <= j < i && !Dominated(all, some[j]) ==> some[j].cost > w.cost
  {
    hide Dominated;
    var rest, kept := Undominated(all, some[1..]), Undominated(all, some);
    if !Dominated(all, some[0]) {
      assert kept[0] == some[0] && kept[1..] == rest;
    }
    var w := FirstMin(kept, ByCost).value;
    if !Dominated(all, some[0]) && w == some[0] {
      i := 0;
    } else {
      var i' := FirstOfKept(all, some[1..]);
      i := i' + 1;
      assert w == FirstMin(rest, ByCost).value && (!Dominated(all, some[0]) ==> some[0].cost > w.cost);
      hide Undominated, FirstMin;
      forall j | 0 <= j < i && !Dominated(all, some[j]) ensures some[j].cost > w.cost {
        assert j > 0 ==> some[j] == some[1..][j - 1];
      }
    }
  }

  /** Of candidates equal on both axes the cheapest pick is the first one listed. */
  lemma TiesGoFirst(all: seq<Proposal>) returns (i: nat)
    requires all != []
    ensures i < |all| && Optimize(all, MinCost) == Some(all[i])
    ensures forall j :: 0 <= j < i ==> all[j].cost != all[i].cost || all[j].latency != all[i].latency
  {
    FrontierNonEmpty(all);
    i := FirstOfKept(all, all);
    forall j | 0 <= j < i ensures all[j].cost != all[i].cost || all[j].latency != all[i].latency {
      EqualsKeptAlike(all, all[j], all[i]);
    }
  }

  lemma EqualsKeptAlike(all: seq<Proposal>, p: Proposal, q: Proposal)
    ensures p.cost == q.cost && p.latency == q.latency && Dominated(all, p) ==> Dominated(all, q)
  {
    if p.cost == q.cost && p.latency == q.latency && Dominated(all, p) {
      var i :| 0 <= i < |all| && Dominates(all[i], p);
      assert Dominates(all[i], q);
    }
  }

  /** Under a deadline: the cheapest of all candidates that meet it if any does,
      else the fastest of all. */
  lemma DeadlineOptimal(all: seq<Proposal>, deadline: u64, p: Proposal)
    requires p in all
    ensures var w := Optimize(all, MinCostUnderDeadline(deadline));
            && w.Some? && w.value in all
            && (p.latency <= deadline ==> w.value.latency <= deadline && w.value.cost <= p.cost)
            && (w.value.latency > deadline ==> w.value.latency <= p.latency)
  {
    var q := DroppedIsBeaten(all, p);
    var frontier := Frontier(all);
    var fast := FirstMin(Within(frontier, deadline), ByCost);
    if p.latency <= deadline {
      assert q in Within(frontier, deadline);
      assert ByCost.Of(fast.value) <= ByCost.Of(q);
    }
    if fast.None? {
      assert ByLatency.Of(FirstMin(frontier, ByLatency).value) <= ByLatency.Of(q);
    }
  }

  /** Lexicographic: the fastest of all, and the cheapest of all those as fast. */
  lemma LexicographicOptimal(all: seq<Proposal>, p: Proposal)
    requires p in all
    ensures var w := Optimize(all, TopPerformanceThenMinCost);
            && w.Some? && w.value in all && w.value.latency <= p.latency
            && (p.latency == w.value.latency ==> w.value.cost <= p.cost)
  {
    var q := DroppedIsBeaten(all, p);
    var frontier := Frontier(all);
    var fastest := FirstMin(frontier, ByLatency).value;
    assert ByLatency.Of(fastest) <= ByLatency.Of(q);
    assert fastest in Tied(frontier, fastest.latency);
    var w := FirstMin(Tied(frontier, fastest.latency), ByCost).value;
    if p.latency == fastest.latency {
      assert q in Tied(frontier, fastest.latency);
      assert ByCost.Of(w) <= ByCost.Of(q);
    }
  }

  // ---- risk ----------------------------------------------------------------

  lemma {:induction false} SameKeySameMin(s: seq<Proposal>, a: Key, b: Key)
    requires forall p :: a.Of(p) == b.Of(p)
    ensures FirstMin(s, a) == FirstMin(s, b)
  {
    if s != [] {
      SameKeySameMin(s[1..], a, b);
    }
  }

  /** Without risk data, or at weight zero, the risk-adjusted pick is the cheapest. */
  lemma RiskFreeIsMinCost(all: seq<Proposal>, weight: real, ppm: map<Forma, nat>)
    requires weight == 0.0 || ppm == map[]
    ensures Optimize(all, MinCostRiskAdjusted(weight, ppm)) == Optimize(all, MinCost)
  {
    forall p: Proposal ensures ByScore(weight, ppm).Of(p) == ByCost.Of(p) {
    }
    SameKeySameMin(Frontier(all), ByScore(weight, ppm), ByCost);
  }

  /** Its cost, and the weight times its forma's interruptions per million. */
  function Score(weight: real, ppm: map<Forma, nat>, p: Proposal): (r: real) {
    p.cost as real + Times(weight, (if p.forma in ppm then ppm[p.forma] else 0) as real)
  }

  /** Where being dominated never means being safer, the risk-adjusted winner has
      the best score of all candidates too. */
  lemma RiskOptimalWhenAligned(all: seq<Proposal>, weight: real, ppm: map<Forma, nat>, p: Proposal)
    requires p in all && weight >= 0.0
    requires forall a, b :: a in all && b in all && Dominates(a, b) ==> Risk(ppm, a) <= Risk(ppm, b)
    ensures var w := Optimize(all, MinCostRiskAdjusted(weight, ppm));
            w.Some? && Score(weight, ppm, w.value) <= Score(weight, ppm, p)
  {
    var q := DroppedIsBeaten(all, p);
    hide Times, Risk;
    TimesLe(weight, Risk(ppm, q) as real, Risk(ppm, p) as real);
  }

  /** The risk-adjusted winner scores no worse than `p`. */
  ghost predicate ScoresBest(all: seq<Proposal>, weight: real, ppm: map<Forma, nat>, p: Proposal) {
    var w := Optimize(all, MinCostRiskAdjusted(weight, ppm));
    w.Some? && Score(weight, ppm, w.value) <= Score(weight, ppm, p)
  }

  /** Some kept candidate of `p`'s own forma costs no more. */
  ghost predicate KeptInForma(all: seq<Proposal>, p: Proposal) {
    exists q :: q in Frontier(all) && q.forma == p.forma && q.cost <= p.cost
  }

  /** Exactly when filtering by cost and latency first is safe for every weight and
      all risk data: when every candidate's forma keeps one at most as dear. */
  lemma RiskOptimalIff(all: seq<Proposal>)
    ensures (forall weight, ppm, p :: p in all ==> ScoresBest(all, weight, ppm, p))
       <==> forall p :: p in all ==> KeptInForma(all, p)
  {
    hide *;
    if p :| p in all && !KeptInForma(all, p) {
      RiskAgainst(all, p);
    } else {
      forall weight, ppm, p | p in all ensures ScoresBest(all, weight, ppm, p) {
        KeptMeansBest(all, weight, ppm, p);
      }
    }
  }

  lemma KeptMeansBest(all: seq<Proposal>, weight: real, ppm: map<Forma, nat>, p: Proposal)
    requires KeptInForma(all, p)
    ensures ScoresBest(all, weight, ppm, p)
  {
    hide Times, Frontier;
    var q :| q in Frontier(all) && q.forma == p.forma && q.cost <= p.cost;
    assert ByScore(weight, ppm).Of(q) <= ByScore(weight, ppm).Of(p);
  }

  function Formas(all: seq<Proposal>): (r: set<Forma>) {
    set q | q in all :: q.forma
  }

  /** Only `p`'s forma is free of risk. */
  function OthersRisky(all: seq<Proposal>, p: Proposal): (r: map<Forma, nat>) {
    map f | f in Formas(all) && f != p.forma :: 1
  }

  /** At a weight above `p`'s cost every kept candidate then scores worse than `p`. */
  lemma RiskAgainst(all: seq<Proposal>, p: Proposal)
    requires p in all && !KeptInForma(all, p)
    ensures !ScoresBest(all, (p.cost + 1) as real, OthersRisky(all, p), p)
  {
    hide Times;
    var weight, ppm := (p.cost + 1) as real, OthersRisky(all, p);
    TimesSign(weight, 0.0);
    TimesOne(weight);
    forall q | q in Frontier(all) ensures ByScore(weight, ppm).Of(q) > ByScore(weight, ppm).Of(p) {
      FrontierIsAntichain(all, q, q);
      assert q.forma == p.forma ==> q.cost > p.cost;
    }
  }

  /** In general it has not: a dropped, dearer, safer candidate can score better. */
  lemma RiskIgnoresDropped()
    ensures var dear, cheap := Proposal(0, 1, 20, 5), Proposal(1, 1, 10, 5);
            var pick := MinCostRiskAdjusted(1.0, map[0 := 0, 1 := 100]);
            Optimize([dear, cheap], pick) == Some(cheap)
            && Score(pick.weight, pick.ppm, dear) < Score(pick.weight, pick.ppm, cheap)
  {
    var dear, cheap := Proposal(0, 1, 20, 5), Proposal(1, 1, 10, 5);
    var all := [dear, cheap];
    assert Dominates(all[1], dear);
    assert Frontier(all) == [cheap] by {
      assert !Dominated(all, cheap);
      assert all[1..] == [cheap] && [cheap][1..] == [];
      assert Undominated(all, [cheap]) == [cheap];
    }
  }
}
