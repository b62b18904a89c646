/** Whole multiples of a whole vector: flooring a real multiple of it leaves a multiple
    exactly when the fraction of the greatest common divisor that is lost is too small
    to buy a unit of the largest entry. */
module Proportion {
  import opened Arith
  import opened RealSums

  ghost predicate Positive(d: seq<nat>) {
    forall i :: 0 <= i < |d| ==> d[i] > 0
  }

  /** `z` and `d` in the same ratio on every entry. */
  ghost predicate InRatio(z: seq<nat>, d: seq<nat>)
    requires |z| == |d|
  {
    forall i, j :: 0 <= i < |d| && 0 <= j < |d| ==> z[i] * d[j] == z[j] * d[i]
  }

  ghost predicate Multiple(d: seq<nat>, q: nat, u: seq<nat>) {
    |u| == |d| && forall i :: 0 <= i < |d| ==> d[i] == q * u[i]
  }

  /** The greatest common divisor of the entries, with the quotients. */
  ghost predicate IsGcd(d: seq<nat>, g: nat, e: seq<nat>) {
    && g > 0 && Multiple(d, g, e)
    && forall h: nat, u :: Multiple(d, h, u) ==> h <= g
  }

  lemma EntryBounds(d: seq<nat>, h: nat, u: seq<nat>)
    requires d != [] && d[0] > 0 && Multiple(d, h, u)
    ensures h <= d[0]
  {
    if u[0] > 0 {
      MulLe(1, u[0], h);
    }
  }

  lemma {:induction false} GcdUpTo(d: seq<nat>, h: nat) returns (g: nat, e: seq<nat>)
    requires h > 0 && forall h': nat, u :: Multiple(d, h', u) ==> h' <= h
    ensures IsGcd(d, g, e)
  {
    if u :| Multiple(d, h, u) {
      g, e := h, u;
    } else {
      if h == 1 {
        assert Multiple(d, 1, d);
      }
      g, e := GcdUpTo(d, h - 1);
    }
  }

  /** Every vector of positive numbers has a greatest common divisor. */
  lemma HasGcd(d: seq<nat>) returns (g: nat, e: seq<nat>)
    requires d != [] && Positive(d)
    ensures IsGcd(d, g, e)
  {
    forall h: nat, u | Multiple(d, h, u) ensures h <= d[0] {
      EntryBounds(d, h, u);
    }
    g, e := GcdUpTo(d, d[0]);
  }

  lemma GcdExists(d: seq<nat>)
    requires d != [] && Positive(d)
    ensures exists g: nat, e :: IsGcd(d, g, e)
  {
    var g, e := HasGcd(d);
  }

  // ---- vectors in a ratio below one ---------------------------------------

  lemma QuotientAcross(z: nat, d: nat, w: nat, e: nat, a: nat)
    requires z > 0 && w > 0 && z * e == w * d && a * z <= d < (a + 1) * z
    ensures a * w <= e < (a + 1) * w
  {
    assert (a * w) * z == (a * z) * w;
    MulLe(a * z, d, w);
    assert e * z == d * w;
    CancelLe(a * w, e, z);
    assert ((a + 1) * w) * z == ((a + 1) * z) * w;
    MulLt(d, (a + 1) * z, w);
    CancelLt(e, (a + 1) * w, z);
  }

  lemma MulLt(a: int, b: int, c: int)
    requires a < b && c > 0
    ensures a * c < b * c
  {
    assert (b - a) * c > 0;
  }

  function Minus(d: seq<nat>, a: nat, z: seq<nat>): (r: seq<nat>)
    requires |z| == |d| && forall i :: 0 <= i < |d| ==> a * z[i] <= d[i]
    ensures |r| == |d| && forall i :: 0 <= i < |r| ==> r[i] == d[i] - a * z[i]
  {
    seq(|d|, i requires 0 <= i < |d| => d[i] - a * z[i])
  }

  lemma CrossMinus(zi: nat, zj: nat, di: nat, dj: nat, a: nat)
    requires zi * dj == zj * di
    ensures (di - a * zi) * zj == (dj - a * zj) * zi
  {
    assert (di - a * zi) * zj == di * zj - (a * zi) * zj;
    assert (dj - a * zj) * zi == dj * zi - (a * zj) * zi;
    Swap(a, zi, zj);
  }

  lemma MinusInRatio(d: seq<nat>, z: seq<nat>, a: nat)
    requires |z| == |d| && InRatio(z, d) && forall i :: 0 <= i < |d| ==> a * z[i] <= d[i]
    ensures InRatio(Minus(d, a, z), z)
  {
    var r := Minus(d, a, z);
    forall i, j | 0 <= i < |d| && 0 <= j < |d| ensures r[i] * z[j] == r[j] * z[i] {
      CrossMinus(z[i], z[j], d[i], d[j], a);
    }
  }

  lemma ZeroInRatio(z: seq<nat>, d: seq<nat>)
    requires |z| == |d| && d != [] && Positive(d) && InRatio(z, d)
    ensures z[0] == 0 ==> forall i :: 0 <= i < |z| ==> z[i] == 0
    ensures z[0] > 0 ==> Positive(z)
  {
    forall i | 0 <= i < |z| ensures z[i] == 0 <==> z[0] == 0 {
      assert z[i] * d[0] == z[0] * d[i];
      ProductZero(z[i], d[0]);
      ProductZero(z[0], d[i]);
    }
  }

  lemma ProductZero(a: nat, b: nat)
    requires b > 0
    ensures a * b == 0 <==> a == 0
  {
    if a > 0 {
      MulLe(1, a, b);
    }
  }

  lemma Recombine(p: nat, q: nat, a: nat, u: nat, z: nat, d: nat)
    requires z == q * u && d - a * z == p * u
    ensures d == (a * q + p) * u
  {
    Swap(a, q, u);
    assert (a * q + p) * u == (a * q) * u + p * u;
    assert (a * q) * u == a * (q * u);
  }

  /** Vectors in one ratio are whole multiples of one vector. */
  lemma {:induction false} CommonMeasure(z: seq<nat>, d: seq<nat>) returns (p: nat, q: nat, u: seq<nat>)
    requires |z| == |d| && d != [] && Positive(z) && Positive(d) && InRatio(z, d)
    ensures p > 0 && q > 0 && Multiple(z, p, u) && Multiple(d, q, u)
    decreases z[0]
  {
    var a := d[0] / z[0];
    DivBounds(d[0], z[0]);
    forall i | 0 <= i < |d| ensures a * z[i] <= d[i] < (a + 1) * z[i] {
      assert z[0] * d[i] == z[i] * d[0];
      QuotientAcross(z[0], d[0], z[i], d[i], a);
    }
    var r := Minus(d, a, z);
    MinusInRatio(d, z, a);
    ZeroInRatio(r, z);
    if r[0] == 0 {
      p, q, u := 1, a, z;
      AtLeastOnce(a, z[0], d[0]);
    } else {
      assert r[0] < z[0] by {
        Spread(a, 1, z[0]);
      }
      var p', q', u' := CommonMeasure(r, z);
      p, q, u := q', a * q' + p', u';
      forall i | 0 <= i < |d| ensures d[i] == q * u[i] {
        Recombine(p', q', a, u[i], z[i], d[i]);
      }
      Positives(a, q', p');
    }
  }

  lemma AtLeastOnce(a: nat, z: nat, d: nat)
    requires d > 0 && d == a * z
    ensures a > 0
  {
  }

  lemma Positives(a: nat, q: nat, p: nat)
    requires p > 0
    ensures a * q + p > 0
  {
  }

  lemma QuotientPositive(d: nat, g: nat, e: nat)
    requires d > 0 && d == g * e
    ensures e > 0
  {
  }

  /** The quotients by the greatest common divisor are in no smaller ratio. */
  lemma NoSmallerRatio(d: seq<nat>, g: nat, e: seq<nat>, z: seq<nat>)
    requires d != [] && Positive(d) && IsGcd(d, g, e) && |z| == |d| && InRatio(z, e)
    requires z[0] < e[0]
    ensures forall i :: 0 <= i < |z| ==> z[i] == 0
  {
    forall i | 0 <= i < |d| ensures e[i] > 0 {
      QuotientPositive(d[i], g, e[i]);
    }
    ZeroInRatio(z, e);
    if z[0] > 0 {
      var p, q, u := CommonMeasure(z, e);
      Larger(p, q, u[0], z[0], e[0]);
      forall i | 0 <= i < |d| ensures d[i] == (g * q) * u[i] {
        assert g * (q * u[i]) == (g * q) * u[i];
      }
      assert Multiple(d, g * q, u);
      MulLt(1, q, g);
    }
  }

  lemma Larger(p: nat, q: nat, u: nat, z: nat, e: nat)
    requires z == p * u && e == q * u && z < e && p > 0
    ensures q > 1
  {
    if q <= p {
      MulLe(q, p, u);
    }
  }

  // ---- flooring a multiple -------------------------------------------------

  lemma {:induction false} TimesWhole(n: int, e: nat)
    ensures Times(n as real, e as real) == (n * e) as real
  {
    hide Times;
    TimesSign(0.0, n as real);
    if e > 0 {
      TimesWhole(n, e - 1);
      Spread(e - 1, 1, n);
      TimesSwap(n as real, e as real, 0.0);
      TimesSwap(n as real, (e - 1) as real, 0.0);
      TimesSum((e - 1) as real, 1.0, n as real);
      TimesOne(n as real);
    } else {
      TimesSwap(n as real, 0.0, 0.0);
    }
  }

  lemma FloorSplit(n: int, x: real, f: real)
    requires x == n as real + f
    ensures x.Floor == n + f.Floor
  {
  }

  lemma Fraction(f: real, e: nat)
    requires 0.0 <= f < 1.0
    ensures 0 <= Times(f, e as real).Floor
    ensures e > 0 ==> Times(f, e as real).Floor < e
  {
    hide Times;
    TimesSign(f, e as real);
    if e > 0 {
      TimesCancel(f, 1.0, e as real);
      TimesOne(e as real);
    }
  }

  /** What flooring does to one entry: `n` whole quotients, and the floor of the rest. */
  lemma FloorEntry(x: real, e: nat)
    ensures Times(x, e as real).Floor == x.Floor * e + Times(x - x.Floor as real, e as real).Floor
  {
    hide Times;
    TimesSum(x.Floor as real, x - x.Floor as real, e as real);
    TimesWhole(x.Floor, e);
    FloorSplit(x.Floor * e, Times(x, e as real), Times(x - x.Floor as real, e as real));
  }

  /** Each entry of the vector times `x`, floored. */
  function Floors(x: real, e: seq<nat>): (r: seq<int>)
    ensures |r| == |e| && forall i :: 0 <= i < |r| ==> r[i] == Times(x, e[i] as real).Floor
  {
    seq(|e|, i requires 0 <= i < |e| => Times(x, e[i] as real).Floor)
  }

  ghost predicate InRatioInt(z: seq<int>, d: seq<nat>)
    requires |z| == |d|
  {
    forall i, j :: 0 <= i < |d| && 0 <= j < |d| ==> z[i] * d[j] == z[j] * d[i]
  }

  ghost predicate IsMax(d: seq<nat>, m: nat) {
    (exists i :: 0 <= i < |d| && d[i] == m) && forall i :: 0 <= i < |d| ==> d[i] <= m
  }

  function Largest(d: seq<nat>): (m: nat)
    requires d != []
    ensures IsMax(d, m)
  {
    if |d| == 1 then d[0]
    else
      var m := Largest(d[1..]);
      assert forall i :: 0 < i < |d| ==> d[i] == d[1..][i - 1];
      assert exists i :: 0 <= i < |d[1..]| && d[1..][i] == m;
      if d[0] >= m then d[0] else m
  }

  lemma RestInRatio(n: int, zi: int, zj: int, ei: nat, ej: nat)
    ensures (n * ei + zi) * ej == (n * ej + zj) * ei <==> zi * ej == zj * ei
  {
    assert (n * ei + zi) * ej == (n * ei) * ej + zi * ej;
    assert (n * ej + zj) * ei == (n * ej) * ei + zj * ei;
    Swap(n, ei, ej);
  }

  lemma ScaledRatio(a: int, b: int, di: nat, dj: nat, ei: nat, ej: nat, g: nat)
    requires g > 0 && di == g * ei && dj == g * ej
    ensures a * dj == b * di <==> a * ej == b * ei
  {
    assert a * dj == (a * ej) * g;
    assert b * di == (b * ei) * g;
    if a * dj == b * di {
      CancelLe(a * ej, b * ei, g);
      CancelLe(b * ei, a * ej, g);
    }
  }

  /** The floors of the fractions, as whole numbers. */
  function Rests(f: real, e: seq<nat>): (z: seq<nat>)
    requires 0.0 <= f < 1.0
    ensures |z| == |e| && forall i :: 0 <= i < |z| ==> z[i] == Times(f, e[i] as real).Floor
  {
    seq(|e|, i requires 0 <= i < |e| => (Fraction(f, e[i]); Times(f, e[i] as real).Floor))
  }

  lemma FloorBelowOne(y: real)
    requires y >= 0.0
    ensures y.Floor == 0 <==> y < 1.0
  {
  }

  lemma RatioOfRests(r: seq<int>, z: seq<nat>, e: seq<nat>, n: int)
    requires |r| == |z| == |e| && forall i :: 0 <= i < |e| ==> r[i] == n * e[i] + z[i]
    ensures InRatioInt(r, e) <==> InRatio(z, e)
  {
    forall i, j | 0 <= i < |e| && 0 <= j < |e| ensures r[i] * e[j] == r[j] * e[i] <==> z[i] * e[j] == z[j] * e[i] {
      RestInRatio(n, z[i], z[j], e[i], e[j]);
    }
  }

  lemma FloorsAreRests(x: real, e: seq<nat>)
    ensures var f := x - x.Floor as real;
            InRatioInt(Floors(x, e), e) <==> InRatio(Rests(f, e), e)
  {
    hide Times, InRatioInt, InRatio;
    var f := x - x.Floor as real;
    forall i | 0 <= i < |e| ensures Floors(x, e)[i] == x.Floor * e[i] + Rests(f, e)[i] {
      FloorEntry(x, e[i]);
    }
    RatioOfRests(Floors(x, e), Rests(f, e), e, x.Floor);
  }

  lemma ZeroRestsIff(f: real, e: seq<nat>, m: nat)
    requires 0.0 <= f < 1.0 && IsMax(e, m)
    ensures (forall i :: 0 <= i < |e| ==> Rests(f, e)[i] == 0) <==> Times(f, m as real) < 1.0
  {
    hide Times;
    forall i | 0 <= i < |e| ensures 0.0 <= Times(f, e[i] as real) <= Times(f, m as real)
      && (Rests(f, e)[i] == 0 <==> Times(f, e[i] as real) < 1.0)
    {
      TimesSign(f, e[i] as real);
      TimesLe(f, e[i] as real, m as real);
      FloorBelowOne(Times(f, e[i] as real));
    }
  }

  lemma ZerosInRatio(z: seq<nat>, e: seq<nat>)
    requires |z| == |e| && forall i :: 0 <= i < |z| ==> z[i] == 0
    ensures InRatio(z, e)
  {
  }

  /** Floored multiples of the quotients stay in their ratio exactly when the fraction
      buys no unit of the largest. */
  lemma QuotientFloorsIff(d: seq<nat>, g: nat, e: seq<nat>, x: real, m: nat)
    requires d != [] && Positive(d) && IsGcd(d, g, e) && IsMax(e, m)
    ensures InRatioInt(Floors(x, e), e) <==> Times(x - x.Floor as real, m as real) < 1.0
  {
    hide Times, InRatio, InRatioInt, IsMax;
    var f := x - x.Floor as real;
    FloorsAreRests(x, e);
    ZeroRestsIff(f, e, m);
    QuotientPositive(d[0], g, e[0]);
    Fraction(f, e[0]);
    if InRatio(Rests(f, e), e) {
      NoSmallerRatio(d, g, e, Rests(f, e));
    }
    if Times(f, m as real) < 1.0 {
      ZerosInRatio(Rests(f, e), e);
    }
  }

  lemma EntryOfMultiple(k: real, d: nat, g: nat, e: nat)
    requires d == g * e
    ensures Times(k, d as real) == Times(Times(k, g as real), e as real)
  {
    hide Times;
    TimesWhole(g, e);
    TimesSwap(k, g as real, e as real);
  }

  lemma LargestQuotient(f: real, g: nat, b: nat)
    requires g > 0
    ensures Times(f, b as real) < 1.0 <==> Times(f, (g * b) as real) < g as real
  {
    hide Times;
    TimesWhole(g, b);
    TimesSwap(f, g as real, b as real);
    TimesSwap(g as real, Times(f, b as real), 0.0);
    TimesCancel(Times(f, b as real), 1.0, g as real);
    TimesOne(g as real);
  }

  lemma QuotientIsMax(d: seq<nat>, g: nat, e: seq<nat>, m: nat) returns (b: nat)
    requires g > 0 && Multiple(d, g, e) && IsMax(d, m)
    ensures IsMax(e, b) && m == g * b
  {
    var i :| 0 <= i < |d| && d[i] == m;
    b := e[i];
    forall j | 0 <= j < |e| ensures e[j] <= b {
      assert e[j] * g <= b * g;
      CancelLe(e[j], b, g);
    }
  }

  lemma SameRatio(r: seq<int>, d: seq<nat>, g: nat, e: seq<nat>)
    requires g > 0 && Multiple(d, g, e) && |r| == |d|
    ensures InRatioInt(r, d) <==> InRatioInt(r, e)
  {
    forall i, j | 0 <= i < |d| && 0 <= j < |d| ensures r[i] * d[j] == r[j] * d[i] <==> r[i] * e[j] == r[j] * e[i] {
      ScaledRatio(r[i], r[j], d[i], d[j], e[i], e[j], g);
    }
  }

  /** What `k` leaves of the greatest common divisor after whole units. */
  function LeftOver(k: real, g: nat): (f: real)
    ensures 0.0 <= f < 1.0
  {
    Times(k, g as real) - Times(k, g as real).Floor as real
  }

  /** Floored multiples of a whole vector stay in its ratio exactly when the fraction of
      the greatest common divisor left over buys no unit of the largest entry. */
  lemma FloorsInRatioIff(d: seq<nat>, g: nat, e: seq<nat>, k: real, m: nat)
    requires d != [] && Positive(d) && IsGcd(d, g, e) && IsMax(d, m)
    ensures InRatioInt(Floors(k, d), d) <==> Times(LeftOver(k, g), m as real) < g as real
  {
    hide Times, InRatioInt, Positive, IsMax;
    var x := Times(k, g as real);
    var b := QuotientIsMax(d, g, e, m);
    forall i | 0 <= i < |d| ensures Floors(k, d)[i] == Floors(x, e)[i] {
      EntryOfMultiple(k, d[i], g, e[i]);
    }
    assert Floors(k, d) == Floors(x, e);
    hide Multiple, Floors;
    QuotientFloorsIff(d, g, e, x, b);
    LargestQuotient(LeftOver(k, g), g, b);
    SameRatio(Floors(x, e), d, g, e);
  }
}
