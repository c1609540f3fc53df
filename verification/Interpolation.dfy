/** Piecewise linear maps of src/operator_registry.cpp: the quantile transformer and NormContinuous. */
module Interpolation {
  import opened Nums

  const SLACK: real := 0.000000000001

  predicate Sorted(s: seq<real>) {
    forall i, j :: 0 <= i <= j < |s| ==> s[i] <= s[j]
  }

  predicate Increasing(s: seq<real>) {
    forall i, j :: 0 <= i < j < |s| ==> s[i] < s[j]
  }

  predicate InBracket(xs: seq<real>, x: real, k: int) {
    0 <= k && k + 1 < |xs| && xs[k] <= x < xs[k + 1]
  }

  /** The last position from which x is not below the next knot, counted down from hi. */
  function Bracket(xs: seq<real>, x: real, hi: nat): (k: nat)
    requires hi + 1 < |xs| && xs[0] <= x < xs[hi + 1]
    ensures InBracket(xs, x, k)
  {
    if xs[hi] <= x then hi else Bracket(xs, x, hi - 1)
  }

  lemma BracketUnique(xs: seq<real>, x: real, j: int, k: int)
    requires Sorted(xs) && InBracket(xs, x, j) && InBracket(xs, x, k)
    ensures j == k
  {
  }

  function Share(x: real, lo: real, hi: real, slack: real): real
    requires lo < hi + slack
  {
    (x - lo) / (hi - lo + slack)
  }

  function Between(y0: real, y1: real, t: real): real {
    y0 + t * (y1 - y0)
  }

  /** Inside the knots: linear between the ends of the bracket. */
  function Inside(xs: seq<real>, ys: seq<real>, x: real, slack: real): real
    requires |xs| == |ys| >= 2 && xs[0] <= x < xs[|xs| - 1] && slack >= 0.0
  {
    var k := Bracket(xs, x, |xs| - 2);
    Between(ys[k], ys[k + 1], Share(x, xs[k], xs[k + 1], slack))
  }

  /** The end values outside the knots. */
  function Interpolated(xs: seq<real>, ys: seq<real>, x: real, slack: real): real
    requires |xs| == |ys| >= 1 && slack >= 0.0
  {
    if x <= xs[0] then ys[0]
    else if x >= xs[|xs| - 1] then ys[|ys| - 1]
    else Inside(xs, ys, x, slack)
  }

  // ---------------------------------------------------------------- the code

  /** The value at v on the line through two points. */
  method OnLine(x0: real, x1: real, y0: real, y1: real, v: real, slack: real) returns (y: real)
    requires x0 < x1 + slack
    ensures y == Between(y0, y1, Share(v, x0, x1, slack))
  {
    var t := (v - x0) / (x1 - x0 + slack);
    y := y0 + t * (y1 - y0);
  }

  function Clamp01(q: real): real {
    if q < 0.0 then 0.0 else if q > 1.0 then 1.0 else q
  }

  function Quantile(refs: seq<real>, levels: seq<real>, x: Num): Num
    requires |refs| == |levels| >= 1
  {
    if x.NaN? then NaN else R(Clamp01(Interpolated(refs, levels, x.val, SLACK)))
  }

  /** Lines 1368 to 1386, for one element. */
  method QuantileTransform(refs: seq<real>, levels: seq<real>, x: Num) returns (q: Num)
    requires |refs| == |levels| >= 1 && Sorted(refs)
    ensures q == Quantile(refs, levels, x)
  {
    hide Share, Between;
    var n := |refs|;
    if x.NaN? { return NaN; }
    var v := x.val;
    var level;
    if v <= refs[0] {
      level := levels[0];
    } else if v >= refs[n - 1] {
      level := levels[n - 1];
    } else {
      var lo, hi := 0, n - 1;
      while lo + 1 < hi
        invariant 0 <= lo < hi < n && refs[lo] <= v < refs[hi]
      {
        var mid := (lo + hi) / 2;
        if v < refs[mid] { hi := mid; } else { lo := mid; }
      }
      BracketUnique(refs, v, lo, Bracket(refs, v, n - 2));
      level := OnLine(refs[lo], refs[hi], levels[lo], levels[hi], v, 0.000000000001);
    }
    q := R(if level < 0.0 then 0.0 else if level > 1.0 then 1.0 else level);
  }

  function Norm(xs: seq<real>, ys: seq<real>, clampOutliers: bool, x: Num): Num
    requires |xs| == |ys|
  {
    if |xs| == 0 then x
    else if |xs| == 1 then R(ys[0])
    else if x.NaN? then NaN
    else if !clampOutliers && (x.val <= xs[0] || x.val >= xs[|xs| - 1]) then NaN
    else R(Interpolated(xs, ys, x.val, 0.0))
  }

  /** Lines 2396 to 2430, for one element; the points of the feature are a slice of two shared rows. */
  method NormContinuous(orig: seq<real>, norm: seq<real>, bstart: nat, bend: nat, clampOutliers: bool, x: Num) returns (y: Num)
    requires bstart <= bend <= |orig| == |norm| && Sorted(orig[bstart..bend])
    ensures y == Norm(orig[bstart..bend], norm[bstart..bend], clampOutliers, x)
  {
    hide Share, Between;
    var n := bend - bstart;
    if n == 0 { return x; }
    if n == 1 { return R(norm[bstart]); }
    if x.NaN? { return NaN; }
    var v := x.val;
    if v <= orig[bstart] { return if clampOutliers then R(norm[bstart]) else NaN; }
    if v >= orig[bend - 1] { return if clampOutliers then R(norm[bend - 1]) else NaN; }
    var lo, hi := bstart, bend - 1;
    while hi - lo > 1
      invariant bstart <= lo < hi < bend && orig[lo] <= v < orig[hi]
      decreases hi - lo
    {
      var mid := (lo + hi) / 2;
      if orig[mid] <= v { lo := mid; } else { hi := mid; }
    }
    ghost var xs := orig[bstart..bend];
    BracketUnique(xs, v, lo - bstart, Bracket(xs, v, n - 2));
    var level := OnLine(orig[lo], orig[hi], norm[lo], norm[hi], v, 0.0);
    y := R(level);
  }

  // ---------------------------------------------------------------- monotone, and between the end values

  lemma Cancel(s: real, t: real, d: real)
    requires d > 0.0 && s * d <= t * d
    ensures s <= t
  {
    assert (t - s) * d >= 0.0;
  }

  lemma ShareRange(x: real, lo: real, hi: real, slack: real)
    requires lo <= x < hi && slack >= 0.0
    ensures 0.0 <= Share(x, lo, hi, slack) <= 1.0
    ensures slack == 0.0 ==> Share(x, lo, hi, slack) * (hi - lo) == x - lo
  {
    var d := hi - lo + slack;
    var t := (x - lo) / d;
    assert t * d == x - lo;
    Cancel(t, 1.0, d);
    Cancel(0.0, t, d);
  }

  lemma ShareMonotone(x: real, y: real, lo: real, hi: real, slack: real)
    requires lo <= x <= y < hi && slack >= 0.0
    ensures Share(x, lo, hi, slack) <= Share(y, lo, hi, slack)
  {
    var d := hi - lo + slack;
    var (s, t) := ((x - lo) / d, (y - lo) / d);
    assert s * d == x - lo && t * d == y - lo;
    Cancel(s, t, d);
  }

  lemma BetweenRange(y0: real, y1: real, s: real, t: real)
    requires y0 <= y1 && 0.0 <= s <= t <= 1.0
    ensures y0 <= Between(y0, y1, s) <= Between(y0, y1, t) <= y1
  {
    var d := y1 - y0;
    assert 0.0 <= s * d;
    assert (t - s) * d >= 0.0 && t * d == s * d + (t - s) * d;
    assert (1.0 - t) * d >= 0.0 && d == t * d + (1.0 - t) * d;
  }

  lemma InsideRange(xs: seq<real>, ys: seq<real>, x: real, slack: real)
    requires |xs| == |ys| >= 2 && xs[0] <= x < xs[|xs| - 1] && slack >= 0.0 && Sorted(ys)
    ensures var k := Bracket(xs, x, |xs| - 2); ys[k] <= Inside(xs, ys, x, slack) <= ys[k + 1]
  {
    hide Share, Between;
    var k := Bracket(xs, x, |xs| - 2);
    ShareRange(x, xs[k], xs[k + 1], slack);
    BetweenRange(ys[k], ys[k + 1], Share(x, xs[k], xs[k + 1], slack), Share(x, xs[k], xs[k + 1], slack));
  }

  lemma InsideMonotone(xs: seq<real>, ys: seq<real>, x: real, y: real, slack: real)
    requires |xs| == |ys| >= 2 && xs[0] <= x <= y < xs[|xs| - 1] && slack >= 0.0 && Sorted(xs) && Sorted(ys)
    ensures Inside(xs, ys, x, slack) <= Inside(xs, ys, y, slack)
  {
    hide Share, Between, Bracket;
    var j, k := Bracket(xs, x, |xs| - 2), Bracket(xs, y, |xs| - 2);
    if j == k {
      ShareRange(x, xs[k], xs[k + 1], slack);
      ShareRange(y, xs[k], xs[k + 1], slack);
      ShareMonotone(x, y, xs[k], xs[k + 1], slack);
      BetweenRange(ys[k], ys[k + 1], Share(x, xs[k], xs[k + 1], slack), Share(y, xs[k], xs[k + 1], slack));
    } else {
      assert j < k;
      InsideRange(xs, ys, x, slack);
      InsideRange(xs, ys, y, slack);
    }
  }

  /** Nondecreasing over the whole line, across all brackets and both ends, and never beyond the end values. */
  lemma InterpolationMonotone(xs: seq<real>, ys: seq<real>, x: real, y: real, slack: real)
    requires |xs| == |ys| >= 1 && slack >= 0.0 && Sorted(xs) && Sorted(ys) && x <= y
    ensures ys[0] <= Interpolated(xs, ys, x, slack) <= Interpolated(xs, ys, y, slack) <= ys[|ys| - 1]
  {
    hide Inside;
    var n := |xs|;
    if xs[0] < x < xs[n - 1] { InsideRange(xs, ys, x, slack); }
    if xs[0] < y < xs[n - 1] { InsideRange(xs, ys, y, slack); }
    if xs[0] < x && y < xs[n - 1] { InsideMonotone(xs, ys, x, y, slack); }
  }

  lemma QuantileMonotone(refs: seq<real>, levels: seq<real>, x: real, y: real)
    requires |refs| == |levels| >= 1 && Sorted(refs) && Sorted(levels) && x <= y
    ensures Quantile(refs, levels, R(x)).val <= Quantile(refs, levels, R(y)).val
    ensures Clamp01(levels[0]) <= Quantile(refs, levels, R(x)).val <= Clamp01(levels[|levels| - 1])
  {
    hide Interpolated;
    InterpolationMonotone(refs, levels, x, y, SLACK);
  }

  lemma NormMonotone(xs: seq<real>, ys: seq<real>, x: real, y: real)
    requires |xs| == |ys| >= 1 && Sorted(xs) && Sorted(ys) && x <= y
    ensures Norm(xs, ys, true, R(x)).R? && Norm(xs, ys, true, R(y)).R?
    ensures ys[0] <= Norm(xs, ys, true, R(x)).val <= Norm(xs, ys, true, R(y)).val <= ys[|ys| - 1]
  {
    hide Interpolated;
    InterpolationMonotone(xs, ys, x, y, 0.0);
  }

  // ---------------------------------------------------------------- knots

  /** A knot is hit exactly; of equal knots inside, the last one counts. */
  lemma KnotHit(xs: seq<real>, ys: seq<real>, k: nat, slack: real)
    requires |xs| == |ys| && k < |xs| && Sorted(xs) && slack >= 0.0
    requires k == 0 || (xs[0] < xs[k] && (k + 1 < |xs| ==> xs[k] < xs[k + 1]))
    ensures Interpolated(xs, ys, xs[k], slack) == ys[k]
  {
    if 0 < k < |xs| - 1 {
      var j := Bracket(xs, xs[k], |xs| - 2);
      BracketUnique(xs, xs[k], j, k);
      assert Share(xs[k], xs[k], xs[k + 1], slack) == 0.0;
    }
  }

  /** With "as extreme values", strictly increasing points are all mapped to their partners. */
  lemma NormHitsKnots(xs: seq<real>, ys: seq<real>, k: nat)
    requires |xs| == |ys| && k < |xs| && Increasing(xs)
    ensures Norm(xs, ys, true, R(xs[k])) == R(ys[k])
  {
    KnotHit(xs, ys, k, 0.0);
  }

  /** Otherwise the first and the last point themselves count as outliers, and only they among the points. */
  lemma EndPointsAreOutliers(xs: seq<real>, ys: seq<real>, k: nat)
    requires |xs| == |ys| >= 2 && k < |xs| && Increasing(xs)
    ensures Norm(xs, ys, false, R(xs[k])) == if k == 0 || k == |xs| - 1 then NaN else R(ys[k])
  {
    KnotHit(xs, ys, k, 0.0);
  }

  // ---------------------------------------------------------------- the inverse

  lemma BetweenSolved(x0: real, x1: real, y0: real, y1: real, x: real)
    requires x0 <= x < x1 && y0 < y1
    ensures var y := Between(y0, y1, Share(x, x0, x1, 0.0));
      y0 <= y < y1 && Between(x0, x1, Share(y, y0, y1, 0.0)) == x
  {
    var t := Share(x, x0, x1, 0.0);
    ShareRange(x, x0, x1, 0.0);
    assert t != 1.0;
    var d := y1 - y0;
    assert (1.0 - t) * d > 0.0 && d == t * d + (1.0 - t) * d;
    var y := y0 + t * d;
    assert t * d / d == t;
    assert Share(y, y0, y1, 0.0) == t;
  }

  /** Strictly increasing points swapped give the inverse map on their range. */
  lemma NormRoundTrip(xs: seq<real>, ys: seq<real>, x: real)
    requires |xs| == |ys| >= 2 && Increasing(xs) && Increasing(ys) && xs[0] <= x <= xs[|xs| - 1]
    ensures Norm(xs, ys, true, R(x)).R?
    ensures Norm(ys, xs, true, Norm(xs, ys, true, R(x))) == R(x)
  {
    var n := |xs|;
    if x == xs[0] || x == xs[n - 1] {
      KnotHit(xs, ys, if x == xs[0] then 0 else n - 1, 0.0);
      KnotHit(ys, xs, if x == xs[0] then 0 else n - 1, 0.0);
    } else {
      var k := Bracket(xs, x, n - 2);
      BetweenSolved(xs[k], xs[k + 1], ys[k], ys[k + 1], x);
      hide Share, Between;
      var y := Inside(xs, ys, x, 0.0);
      assert InBracket(ys, y, k);
      if y > ys[0] {
        BracketUnique(ys, y, k, Bracket(ys, y, n - 2));
      } else {
        FirstKnot(xs, ys, x, k);
      }
    }
  }

  /** Only the first point is mapped to the first value. */
  lemma FirstKnot(xs: seq<real>, ys: seq<real>, x: real, k: nat)
    requires |xs| == |ys| >= 2 && Increasing(xs) && Increasing(ys) && k + 1 < |xs| && xs[k] <= x < xs[k + 1]
    requires Between(ys[k], ys[k + 1], Share(x, xs[k], xs[k + 1], 0.0)) <= ys[0]
    ensures k == 0 && x == xs[0]
  {
    BetweenSolved(xs[k], xs[k + 1], ys[k], ys[k + 1], x);
    var y := Between(ys[k], ys[k + 1], Share(x, xs[k], xs[k + 1], 0.0));
    assert k == 0 && y == ys[0];
    assert Share(y, ys[0], ys[1], 0.0) == 0.0;
  }
}
