/** Sums, products and quotients of reals.  `Times` and `Over` name the two
    nonlinear operations so that proofs can treat them as atoms and take the
    arithmetic from the small lemmas here. */
module RealSums {
  function Times(a: real, b: real): (r: real) {
    a * b
  }

  function Over(a: real, b: real): (r: real)
    requires b != 0.0
  {
    a / b
  }

  function MinR(a: real, b: real): (m: real) {
    if a <= b then a else b
  }

  function MaxR(a: real, b: real): (m: real) {
    if a >= b then a else b
  }

  function RSum(s: seq<real>): (r: real) {
    if s == [] then 0.0 else RSum(s[..|s| - 1]) + s[|s| - 1]
  }

  lemma RSumSnoc(s: seq<real>, k: nat)
    requires k < |s|
    ensures RSum(s[..k + 1]) == RSum(s[..k]) + s[k]
  {
    assert s[..k + 1][..k] == s[..k];
  }

  lemma RSumEmpty(s: seq<real>)
    requires s == []
    ensures RSum(s) == 0.0
  {
  }

  lemma {:induction false} RSumScale(a: seq<real>, b: seq<real>, k: real)
    requires |a| == |b|
    requires forall i :: 0 <= i < |a| ==> b[i] == Times(k, a[i])
    ensures RSum(b) == Times(k, RSum(a))
  {
    if a != [] {
      RSumScale(a[..|a| - 1], b[..|a| - 1], k);
      var x, y := RSum(a[..|a| - 1]), a[|a| - 1];
      assert k * (x + y) == k * x + k * y;
    }
  }

  lemma {:induction false} RSumElement(s: seq<real>, i: nat)
    requires i < |s|
    requires forall k :: 0 <= k < |s| ==> s[k] >= 0.0
    ensures 0.0 <= s[i] <= RSum(s)
  {
    RSumNonNegative(s[..|s| - 1]);
    if i < |s| - 1 {
      RSumElement(s[..|s| - 1], i);
    }
  }

  lemma {:induction false} RSumNonNegative(s: seq<real>)
    requires forall k :: 0 <= k < |s| ==> s[k] >= 0.0
    ensures RSum(s) >= 0.0
    ensures RSum(s) > 0.0 <==> exists k :: 0 <= k < |s| && s[k] > 0.0
  {
    if s != [] {
      var t := s[..|s| - 1];
      RSumNonNegative(t);
      if k :| 0 <= k < |s| && s[k] > 0.0 {
        if k < |t| {
          assert t[k] > 0.0;
        }
      }
      if k :| 0 <= k < |t| && t[k] > 0.0 {
        assert s[k] > 0.0;
      }
    }
  }

  lemma {:induction false} RSumUpdate(s: seq<real>, i: nat, v: real)
    requires i < |s|
    ensures RSum(s[i := v]) == RSum(s) - s[i] + v
  {
    var k := |s| - 1;
    if i == k {
      assert s[i := v][..k] == s[..k];
    } else {
      RSumUpdate(s[..k], i, v);
      assert s[i := v][..k] == s[..k][i := v];
    }
  }

  lemma {:induction false} RSumLe(a: seq<real>, b: seq<real>)
    requires |a| == |b| && forall i :: 0 <= i < |a| ==> a[i] <= b[i]
    ensures RSum(a) <= RSum(b)
    ensures (exists i :: 0 <= i < |a| && a[i] < b[i]) ==> RSum(a) < RSum(b)
  {
    if a != [] {
      var k := |a| - 1;
      RSumLe(a[..k], b[..k]);
      if i :| 0 <= i < |a| && a[i] < b[i] {
        assert i < k ==> a[..k][i] < b[..k][i];
      }
    }
  }

  // ---- products ----------------------------------------------------------

  lemma TimesLe(k: real, a: real, b: real)
    requires k >= 0.0 && a <= b
    ensures Times(k, a) <= Times(k, b)
    ensures Times(a, k) <= Times(b, k)
  {
    assert k * (b - a) >= 0.0;
  }

  lemma TimesSum(a: real, b: real, k: real)
    ensures Times(a + b, k) == Times(a, k) + Times(b, k)
    ensures Times(k, a + b) == Times(k, a) + Times(k, b)
  {
  }

  lemma TimesSign(a: real, b: real)
    ensures Times(0.0, b) == 0.0 && Times(a, 0.0) == 0.0
    ensures a > 0.0 && b > 0.0 ==> Times(a, b) > 0.0
    ensures a >= 0.0 && b >= 0.0 ==> Times(a, b) >= 0.0
  {
  }

  lemma TimesSwap(a: real, b: real, c: real)
    ensures Times(a, b) == Times(b, a)
    ensures Times(a, Times(b, c)) == Times(Times(a, b), c)
    ensures Times(a, Times(b, c)) == Times(b, Times(a, c))
  {
  }

  lemma TimesCancel(a: real, b: real, k: real)
    requires k > 0.0
    ensures Times(a, k) <= Times(b, k) <==> a <= b
    ensures Times(a, k) < Times(b, k) <==> a < b
    ensures Times(a, k) == Times(b, k) <==> a == b
  {
    if a < b {
      assert (b - a) * k > 0.0;
    } else if b < a {
      assert (a - b) * k > 0.0;
    }
  }

  lemma TimesOne(a: real)
    ensures Times(1.0, a) == a && Times(a, 1.0) == a
  {
  }

  lemma TimesSucc(m: nat, b: real)
    ensures Times((m + 1) as real, b) == Times(m as real, b) + b
  {
  }

  // ---- quotients ---------------------------------------------------------

  lemma OverTimes(x: real, d: real)
    requires d != 0.0
    ensures Times(Over(x, d), d) == x
  {
    var q := x / d;
    assert q * d == x;
  }

  lemma OverAtMost(x: real, d: real, q: real)
    requires d > 0.0
    ensures Over(x, d) <= q <==> x <= Times(q, d)
    ensures Over(x, d) < q <==> x < Times(q, d)
    ensures Over(x, d) == q <==> x == Times(q, d)
  {
    hide Times, Over;
    OverTimes(x, d);
    TimesCancel(Over(x, d), q, d);
  }

  lemma OverSign(x: real, d: real)
    requires d > 0.0
    ensures Over(x, d) > 0.0 <==> x > 0.0
    ensures Over(x, d) >= 0.0 <==> x >= 0.0
  {
    hide Times, Over;
    OverAtMost(x, d, 0.0);
    TimesSign(0.0, d);
  }
}
