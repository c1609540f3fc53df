/** `bspline_basis` of src/operator_registry.cpp: the Cox-de Boor recurrence, evaluated in one buffer. */
module BSplines {
  import opened Sums

  type Knots = seq<real>

  const TINY: real := 0.0000000001

  predicate Sorted(t: Knots) {
    forall i, j :: 0 <= i <= j < |t| ==> t[i] <= t[j]
  }

  /** Level 0: the half-open knot interval, and the last knot for the last interval. */
  function Start(t: Knots, x: real, i: nat): real
    requires i + 1 < |t|
  {
    if x >= t[i] && (x < t[i + 1] || (x == t[|t| - 1] && i == |t| - 2)) then 1.0 else 0.0
  }

  /** The rising share, dropped when the gap is tiny. */
  function Up(lo: real, hi: real, x: real): real {
    if hi - lo > TINY then (x - lo) / (hi - lo) else 0.0
  }

  /** The falling share. */
  function Down(lo: real, hi: real, x: real): real {
    if hi - lo > TINY then (hi - x) / (hi - lo) else 0.0
  }

  /** Basis function i of degree p, by recursion. */
  function Basis(t: Knots, x: real, p: nat, i: nat): real
    requires i + p + 1 < |t|
    decreases p
  {
    if p == 0 then Start(t, x, i)
    else
      Times(Up(t[i], t[i + p], x), Basis(t, x, p - 1, i)) +
      Times(Down(t[i + 1], t[i + p + 1], x), Basis(t, x, p - 1, i + 1))
  }

  /** One unfolding of the recursion. */
  lemma Recurrence(t: Knots, x: real, p: nat, i: nat)
    requires p > 0 && i + p + 1 < |t|
    ensures Basis(t, x, p, i) ==
      Times(Up(t[i], t[i + p], x), Basis(t, x, p - 1, i)) +
      Times(Down(t[i + 1], t[i + p + 1], x), Basis(t, x, p - 1, i + 1))
  {
    hide Times, Up, Down;
  }

  lemma Bottom(t: Knots, x: real, i: nat)
    requires i + 1 < |t|
    ensures Basis(t, x, 0, i) == Start(t, x, i)
  {
  }

  // ---------------------------------------------------------------- the code

  /** Each level overwrites the one below it from the left. */
  method BsplineBasis(t: array<real>, degree: nat, x: real, outBasis: array<real>)
    requires t.Length >= 1 && outBasis != t && outBasis.Length <= t.Length - 1
    modifies outBasis
    ensures forall i :: 0 <= i < outBasis.Length ==>
      outBasis[i] == if i + degree + 1 < t.Length then Basis(t[..], x, degree, i) else 0.0
  {
    hide Times, Up, Down, Basis;
    ghost var k := t[..];
    var intervals := t.Length - 1;
    var d := new real[intervals](_ => 0.0);
    var i := 0;
    while i < intervals
      invariant 0 <= i <= intervals
      invariant forall j :: 0 <= j < i ==> d[j] == Basis(k, x, 0, j)
    {
      Bottom(k, x, i);
      d[i] := if x >= t[i] && (x < t[i + 1] || (x == t[intervals] && i == intervals - 1)) then 1.0 else 0.0;
      i := i + 1;
    }
    var p := 1;
    while p <= degree
      invariant 1 <= p <= degree + 1
      invariant forall j :: 0 <= j < intervals - (p - 1) ==> d[j] == Basis(k, x, p - 1, j)
    {
      i := 0;
      while i < intervals - p
        invariant t[..] == k && 0 <= i && (i <= intervals - p || i == 0)
        invariant forall j :: 0 <= j < i ==> d[j] == Basis(k, x, p, j)
        invariant forall j :: i <= j < intervals - (p - 1) ==> d[j] == Basis(k, x, p - 1, j)
      {
        Recurrence(k, x, p, i);
        var left := Times(Up(t[i], t[i + p], x), d[i]);
        var right := Times(Down(t[i + 1], t[i + p + 1], x), d[i + 1]);
        d[i] := left + right;
        i := i + 1;
      }
      p := p + 1;
    }
    i := 0;
    while i < outBasis.Length
      invariant t[..] == k && 0 <= i <= outBasis.Length
      invariant forall j :: 0 <= j < intervals - degree ==> d[j] == Basis(k, x, degree, j)
      invariant forall j :: 0 <= j < i ==>
        outBasis[j] == if j + degree + 1 < t.Length then Basis(k, x, degree, j) else 0.0
    {
      outBasis[i] := if i < intervals - degree then d[i] else 0.0;
      i := i + 1;
    }
  }

  // ---------------------------------------------------------------- support and sign

  lemma QuotientFacts(a: real, d: real)
    requires d > 0.0
    ensures a / d * d == a
    ensures a >= 0.0 ==> a / d >= 0.0
    ensures a > 0.0 ==> a / d > 0.0
    ensures a == 0.0 ==> a / d == 0.0
    ensures a == d ==> a / d == 1.0
  {
  }

  lemma QuotientsAdd(a: real, b: real, d: real)
    requires d > 0.0
    ensures a / d + b / d == (a + b) / d
  {
    var (q, r) := (a / d, b / d);
    assert q * d == a && r * d == b;
    assert (q + r) * d == a + b;
    assert (q + r) * d / d == q + r;
  }

  lemma Shares(lo: real, hi: real, x: real)
    ensures hi - lo > TINY ==> Up(lo, hi, x) + Down(lo, hi, x) == 1.0
    ensures lo <= x ==> Up(lo, hi, x) >= 0.0
    ensures x <= hi ==> Down(lo, hi, x) >= 0.0
    ensures lo < x && hi - lo > TINY ==> Up(lo, hi, x) > 0.0
    ensures x < hi && hi - lo > TINY ==> Down(lo, hi, x) > 0.0
    ensures Down(lo, hi, hi) == 0.0
  {
    var d := hi - lo;
    if d > TINY {
      QuotientFacts(x - lo, d);
      QuotientFacts(hi - x, d);
      QuotientFacts(hi - hi, d);
      QuotientFacts(d, d);
      QuotientsAdd(x - lo, hi - x, d);
      assert (x - lo) + (hi - x) == d;
    }
  }

  lemma TimesZero(a: real, b: real)
    ensures a == 0.0 || b == 0.0 ==> Times(a, b) == 0.0
    ensures a >= 0.0 && b >= 0.0 ==> Times(a, b) >= 0.0
    ensures a > 0.0 && b > 0.0 ==> Times(a, b) > 0.0
  {
  }

  /** Local support: outside its knots a basis function is zero, at the last knot too unless the degree is 0. */
  lemma {:induction false} ZeroOutside(t: Knots, x: real, p: nat, i: nat)
    requires Sorted(t) && i + p + 1 < |t|
    requires x < t[i] || x >= t[i + p + 1]
    ensures Basis(t, x, p, i) == if p == 0 && i == |t| - 2 && x == t[|t| - 1] then 1.0 else 0.0
    decreases p
  {
    hide Times, Up, Down;
    if p > 0 {
      ZeroOutside(t, x, p - 1, i);
      ZeroOutside(t, x, p - 1, i + 1);
      Shares(t[i + 1], t[i + p + 1], x);
      TimesZero(Up(t[i], t[i + p], x), Basis(t, x, p - 1, i));
      TimesZero(Down(t[i + 1], t[i + p + 1], x), Basis(t, x, p - 1, i + 1));
    }
  }

  lemma {:induction false} NeverNegative(t: Knots, x: real, p: nat, i: nat)
    requires Sorted(t) && i + p + 1 < |t|
    ensures Basis(t, x, p, i) >= 0.0
    decreases p
  {
    hide Times, Up, Down;
    if p > 0 {
      if x < t[i] || x >= t[i + p + 1] {
        ZeroOutside(t, x, p, i);
      } else {
        NeverNegative(t, x, p - 1, i);
        NeverNegative(t, x, p - 1, i + 1);
        Shares(t[i], t[i + p], x);
        Shares(t[i + 1], t[i + p + 1], x);
        TimesZero(Up(t[i], t[i + p], x), Basis(t, x, p - 1, i));
        TimesZero(Down(t[i + 1], t[i + p + 1], x), Basis(t, x, p - 1, i + 1));
      }
    }
  }

  // ---------------------------------------------------------------- the knot interval that holds x

  /** x lies in the half-open interval between knots k and k + 1. */
  predicate Holds(t: Knots, x: real, k: nat) {
    k + 1 < |t| && t[k] <= x < t[k + 1]
  }

  /** The interval is wide enough for the recurrence to divide by. */
  predicate Seen(t: Knots, k: nat)
    requires k + 1 < |t|
  {
    t[k + 1] - t[k] > 0.0000000001
  }

  /** A span of knots around x contains the interval that holds x. */
  lemma SpanContains(t: Knots, x: real, k: nat, i: nat, j: nat)
    requires Sorted(t) && Holds(t, x, k) && i < j < |t| && t[i] <= x < t[j]
    ensures i <= k < j && t[j] - t[i] >= t[k + 1] - t[k]
  {
  }

  /** Over an interval too small to be seen, every function above degree 0 is zero. */
  lemma {:induction false} BlindInterval(t: Knots, x: real, p: nat, i: nat, k: nat)
    requires Sorted(t) && Holds(t, x, k) && !Seen(t, k) && p > 0 && i + p + 1 < |t|
    ensures Basis(t, x, p, i) == 0.0
    decreases p
  {
    hide Times;
    TimesZero(Up(t[i], t[i + p], x), Basis(t, x, p - 1, i));
    TimesZero(Down(t[i + 1], t[i + p + 1], x), Basis(t, x, p - 1, i + 1));
    if p == 1 {
      OnlyInterval(t, x, i, k);
      OnlyInterval(t, x, i + 1, k);
    } else {
      BlindInterval(t, x, p - 1, i, k);
      BlindInterval(t, x, p - 1, i + 1, k);
    }
  }

  lemma OnlyInterval(t: Knots, x: real, i: nat, k: nat)
    requires Sorted(t) && Holds(t, x, k) && i + 1 < |t|
    ensures Basis(t, x, 0, i) == if i == k then 1.0 else 0.0
  {
  }

  /** At a knot as often repeated as the degree allows, the function that starts there is positive. */
  lemma {:induction false} PositiveAtFullKnot(t: Knots, x: real, p: nat, i: nat, k: nat)
    requires Sorted(t) && Holds(t, x, k) && Seen(t, k) && i + p + 1 < |t|
    requires t[i] == x == t[i + p] && x < t[i + p + 1]
    ensures Basis(t, x, p, i) > 0.0
    decreases p
  {
    hide Times, Up, Down;
    if p > 0 {
      PositiveAtFullKnot(t, x, p - 1, i + 1, k);
      NeverNegative(t, x, p - 1, i);
      SpanContains(t, x, k, i + 1, i + p + 1);
      Shares(t[i], t[i + p], x);
      Shares(t[i + 1], t[i + p + 1], x);
      TimesZero(Up(t[i], t[i + p], x), Basis(t, x, p - 1, i));
      TimesZero(Down(t[i + 1], t[i + p + 1], x), Basis(t, x, p - 1, i + 1));
    }
  }

  lemma {:induction false} PositiveWhereSeen(t: Knots, x: real, p: nat, i: nat, k: nat)
    requires Sorted(t) && Holds(t, x, k) && Seen(t, k) && i + p + 1 < |t|
    requires t[i] < x < t[i + p + 1]
    ensures Basis(t, x, p, i) > 0.0
    decreases p
  {
    hide Times, Up, Down;
    if p > 0 {
      NeverNegative(t, x, p - 1, i);
      NeverNegative(t, x, p - 1, i + 1);
      Shares(t[i], t[i + p], x);
      Shares(t[i + 1], t[i + p + 1], x);
      TimesZero(Up(t[i], t[i + p], x), Basis(t, x, p - 1, i));
      TimesZero(Down(t[i + 1], t[i + p + 1], x), Basis(t, x, p - 1, i + 1));
      if x < t[i + p] {
        SpanContains(t, x, k, i, i + p);
        PositiveWhereSeen(t, x, p - 1, i, k);
      } else {
        SpanContains(t, x, k, i + 1, i + p + 1);
        if t[i + 1] < x {
          PositiveWhereSeen(t, x, p - 1, i + 1, k);
        } else {
          PositiveAtFullKnot(t, x, p - 1, i + 1, k);
        }
      }
    }
  }

  /** Strictly between its first and last knot a function above degree 0 is positive if and only if the knot
      interval that holds x is seen. */
  lemma PositiveInside(t: Knots, x: real, p: nat, i: nat, k: nat)
    requires Sorted(t) && Holds(t, x, k) && p > 0 && i + p + 1 < |t|
    requires t[i] < x < t[i + p + 1]
    ensures Basis(t, x, p, i) > 0.0 <==> Seen(t, k)
  {
    if Seen(t, k) { PositiveWhereSeen(t, x, p, i, k); } else { BlindInterval(t, x, p, i, k); }
  }

  // ---------------------------------------------------------------- partition of unity

  ghost function BasisAt(t: Knots, x: real, p: nat): int -> real {
    i => if 0 <= i && i + p + 1 < |t| then Basis(t, x, p, i) else 0.0
  }

  /** What function i of degree p - 1 gives to function i, and what is left for function i - 1. */
  ghost function Given(t: Knots, x: real, p: nat): int -> real
    requires p > 0
  {
    i => if 0 <= i && i + p < |t| then Times(Up(t[i], t[i + p], x), Basis(t, x, p - 1, i)) else 0.0
  }

  ghost function Kept(t: Knots, x: real, p: nat): int -> real
    requires p > 0
  {
    i => if 0 <= i && i + p < |t| then Times(Down(t[i], t[i + p], x), Basis(t, x, p - 1, i)) else 0.0
  }

  /** The two shares add up: the span is wide enough, or the function is zero at x. */
  lemma SharesAddUp(t: Knots, x: real, p: nat, i: nat, k: nat)
    requires Sorted(t) && Holds(t, x, k) && Seen(t, k) && p > 0 && i + p < |t|
    ensures Given(t, x, p)(i) + Kept(t, x, p)(i) == Basis(t, x, p - 1, i)
  {
    SpanOrZero(t, x, p, i, k);
    hide Times, Up, Down, Sorted, Basis, Holds, Seen;
    Shares(t[i], t[i + p], x);
    WholeOrNothing(Up(t[i], t[i + p], x), Down(t[i], t[i + p], x), Basis(t, x, p - 1, i));
  }

  lemma SpanOrZero(t: Knots, x: real, p: nat, i: nat, k: nat)
    requires Sorted(t) && Holds(t, x, k) && Seen(t, k) && p > 0 && i + p < |t|
    ensures t[i + p] - t[i] > TINY || Basis(t, x, p - 1, i) == 0.0
  {
    hide Basis;
    if t[i] <= x < t[i + p] {
      SpanContains(t, x, k, i, i + p);
    } else {
      ZeroOutside(t, x, p - 1, i);
      BeforeLast(t, x, k);
    }
  }

  lemma BeforeLast(t: Knots, x: real, k: nat)
    requires Sorted(t) && Holds(t, x, k)
    ensures x < t[|t| - 1]
  {
  }

  lemma WholeOrNothing(u: real, d: real, b: real)
    requires u + d == 1.0 || b == 0.0
    ensures Times(u, b) + Times(d, b) == b
  {
    if b != 0.0 { assert (u + d) * b == u * b + d * b; }
  }

  lemma OneFunction(t: Knots, x: real, p: nat, i: nat)
    requires p > 0 && i + p + 1 < |t|
    ensures BasisAt(t, x, p)(i) == Given(t, x, p)(i) + Kept(t, x, p)(i + 1)
  {
    hide Times, Up, Down, Basis;
    Recurrence(t, x, p, i);
  }

  /** Summing shares by receiver or by giver: the first giver keeps, the last one gives, nothing that counts. */
  lemma {:induction false} Regrouped(t: Knots, x: real, p: nat, n: nat, k: nat)
    requires Sorted(t) && Holds(t, x, k) && Seen(t, k) && p > 0 && n + p < |t|
    ensures Sum(n, BasisAt(t, x, p)) + Given(t, x, p)(n) + Kept(t, x, p)(0) == Sum(n + 1, BasisAt(t, x, p - 1))
    decreases n
  {
    hide Times, Up, Down, Sorted, Holds, Seen, Basis;
    SharesAddUp(t, x, p, n, k);
    if n > 0 {
      Regrouped(t, x, p, n - 1, k);
      OneFunction(t, x, p, n - 1);
    }
  }

  lemma NothingToShare(t: Knots, x: real, p: nat, i: nat)
    requires p > 0 && i + p < |t| && Basis(t, x, p - 1, i) == 0.0
    ensures Given(t, x, p)(i) == 0.0 == Kept(t, x, p)(i)
  {
    hide Times, Up, Down, Basis;
    TimesZero(Up(t[i], t[i + p], x), Basis(t, x, p - 1, i));
    TimesZero(Down(t[i], t[i + p], x), Basis(t, x, p - 1, i));
  }

  /** Inside the interior the two functions at the ends contribute nothing. */
  lemma EndsVanish(t: Knots, x: real, p: nat, n: nat)
    requires Sorted(t) && 0 < p < n && n + p + 1 == |t| && t[p] <= x < t[n]
    ensures Given(t, x, p)(n) == 0.0 && Kept(t, x, p)(0) == 0.0
  {
    hide Basis, Given, Kept;
    ZeroOutside(t, x, p - 1, 0);
    ZeroOutside(t, x, p - 1, n);
    NothingToShare(t, x, p, 0);
    NothingToShare(t, x, p, n);
  }

  lemma {:induction false} SeenSumsToOne(t: Knots, x: real, degree: nat, k: nat)
    requires Sorted(t) && Holds(t, x, k) && Seen(t, k) && 2 * degree + 1 < |t|
    requires t[degree] <= x < t[|t| - degree - 1]
    ensures Sum(|t| - degree - 1, BasisAt(t, x, degree)) == 1.0
    decreases degree
  {
    hide Basis, Seen;
    var n := |t| - degree - 1;
    if degree == 0 {
      OneInterval(t, x, n);
    } else {
      SeenSumsToOne(t, x, degree - 1, k);
      hide Sorted;
      Regrouped(t, x, degree, n, k);
      EndsVanish(t, x, degree, n);
    }
  }

  /** Each number at or after the first knot lies in exactly one half-open interval. */
  lemma {:induction false} OneInterval(t: Knots, x: real, n: nat)
    requires Sorted(t) && n < |t| && t[0] <= x < t[|t| - 1]
    ensures Sum(n, BasisAt(t, x, 0)) == if x < t[n] then (if n == 0 then 0.0 else 1.0) else 0.0
  {
    if n > 0 { OneInterval(t, x, n - 1); }
  }

  /** Between knots `degree` and `|t| - degree - 1` the functions above degree 0 sum to exactly 1 where the knot
      interval that holds x is seen, and to 0 where it is not. */
  lemma PartitionOfUnity(t: Knots, x: real, degree: nat, k: nat)
    requires Sorted(t) && degree > 0 && 2 * degree + 1 < |t|
    requires t[degree] <= x < t[|t| - degree - 1] && Holds(t, x, k)
    ensures Sum(|t| - degree - 1, BasisAt(t, x, degree)) == if Seen(t, k) then 1.0 else 0.0
  {
    if Seen(t, k) {
      SeenSumsToOne(t, x, degree, k);
    } else {
      var n := |t| - degree - 1;
      forall i | 0 <= i < n ensures BasisAt(t, x, degree)(i) == 0.0 { BlindInterval(t, x, degree, i, k); }
      SumZero(n, BasisAt(t, x, degree));
    }
  }

  lemma {:induction false} IntervalFound(t: Knots, x: real, lo: nat, hi: nat) returns (k: nat)
    requires lo < hi < |t| && t[lo] <= x < t[hi]
    ensures lo <= k < hi && Holds(t, x, k)
    decreases hi
  {
    if t[hi - 1] <= x { k := hi - 1; } else { k := IntervalFound(t, x, lo, hi - 1); }
  }

  /** All over the interior the basis sums to 1 if and only if every knot interval there is empty or seen. */
  lemma PartitionEverywhereIff(t: Knots, degree: nat)
    requires Sorted(t) && degree > 0 && 2 * degree + 1 < |t|
    ensures (forall x :: t[degree] <= x < t[|t| - degree - 1] ==> Sum(|t| - degree - 1, BasisAt(t, x, degree)) == 1.0)
      <==> (forall k: nat :: degree <= k < |t| - degree - 1 ==> t[k] == t[k + 1] || Seen(t, k))
  {
    hide Seen;
    var n := |t| - degree - 1;
    if forall k: nat :: degree <= k < n ==> t[k] == t[k + 1] || Seen(t, k) {
      forall x | t[degree] <= x < t[n] ensures Sum(n, BasisAt(t, x, degree)) == 1.0 {
        var k := IntervalFound(t, x, degree, n);
        PartitionOfUnity(t, x, degree, k);
      }
    } else {
      var k: nat :| degree <= k < n && t[k] != t[k + 1] && !Seen(t, k);
      PartitionOfUnity(t, t[k], degree, k);
    }
  }

  // ---------------------------------------------------------------- the textbook recurrence

  /** Cox-de Boor as it is usually stated: half-open intervals, and 0/0 read as 0. */
  function CoxDeBoor(t: Knots, x: real, p: nat, i: nat): real
    requires i + p + 1 < |t|
    decreases p
  {
    if p == 0 then if t[i] <= x < t[i + 1] then 1.0 else 0.0
    else
      Times(Rise(t[i], t[i + p], x), CoxDeBoor(t, x, p - 1, i)) +
      Times(Fall(t[i + 1], t[i + p + 1], x), CoxDeBoor(t, x, p - 1, i + 1))
  }

  function Rise(lo: real, hi: real, x: real): real {
    if hi > lo then (x - lo) / (hi - lo) else 0.0
  }

  function Fall(lo: real, hi: real, x: real): real {
    if hi > lo then (hi - x) / (hi - lo) else 0.0
  }

  lemma SameShares(lo: real, hi: real, x: real)
    requires hi - lo > TINY
    ensures Rise(lo, hi, x) == Up(lo, hi, x) && Fall(lo, hi, x) == Down(lo, hi, x)
  {
  }

  lemma RiseAndFall(lo: real, hi: real, x: real)
    ensures lo <= x ==> Rise(lo, hi, x) >= 0.0
    ensures x <= hi ==> Fall(lo, hi, x) >= 0.0
    ensures lo < x && lo < hi ==> Rise(lo, hi, x) > 0.0
    ensures x < hi && lo < hi ==> Fall(lo, hi, x) > 0.0
  {
    if lo < hi {
      QuotientFacts(x - lo, hi - lo);
      QuotientFacts(hi - x, hi - lo);
    }
  }

  lemma {:induction false} TextbookZero(t: Knots, x: real, p: nat, i: nat)
    requires Sorted(t) && i + p + 1 < |t|
    requires x < t[i] || x >= t[i + p + 1]
    ensures CoxDeBoor(t, x, p, i) == 0.0
    decreases p
  {
    hide Times, Rise, Fall;
    if p > 0 {
      TextbookZero(t, x, p - 1, i);
      TimesZero(Rise(t[i], t[i + p], x), CoxDeBoor(t, x, p - 1, i));
      TextbookZero(t, x, p - 1, i + 1);
      TimesZero(Fall(t[i + 1], t[i + p + 1], x), CoxDeBoor(t, x, p - 1, i + 1));
    }
  }

  lemma {:induction false} TextbookNonneg(t: Knots, x: real, p: nat, i: nat)
    requires Sorted(t) && i + p + 1 < |t|
    ensures CoxDeBoor(t, x, p, i) >= 0.0
    decreases p
  {
    hide Times, Rise, Fall;
    if p > 0 {
      if x < t[i] || x >= t[i + p + 1] {
        TextbookZero(t, x, p, i);
      } else {
        TextbookNonneg(t, x, p - 1, i);
        TextbookNonneg(t, x, p - 1, i + 1);
        RiseAndFall(t[i], t[i + p], x);
        RiseAndFall(t[i + 1], t[i + p + 1], x);
        TimesZero(Rise(t[i], t[i + p], x), CoxDeBoor(t, x, p - 1, i));
        TimesZero(Fall(t[i + 1], t[i + p + 1], x), CoxDeBoor(t, x, p - 1, i + 1));
      }
    }
  }

  /** The textbook function is positive inside its knots, and where it starts if that knot is full. */
  lemma {:induction false} TextbookPositive(t: Knots, x: real, p: nat, i: nat)
    requires Sorted(t) && i + p + 1 < |t|
    requires t[i] < x < t[i + p + 1] || (t[i] == x == t[i + p] && x < t[i + p + 1])
    ensures CoxDeBoor(t, x, p, i) > 0.0
    decreases p
  {
    hide Times, Rise, Fall;
    if p > 0 {
      TextbookNonneg(t, x, p - 1, i);
      TextbookNonneg(t, x, p - 1, i + 1);
      RiseAndFall(t[i], t[i + p], x);
      RiseAndFall(t[i + 1], t[i + p + 1], x);
      TimesZero(Rise(t[i], t[i + p], x), CoxDeBoor(t, x, p - 1, i));
      TimesZero(Fall(t[i + 1], t[i + p + 1], x), CoxDeBoor(t, x, p - 1, i + 1));
      if x < t[i + p] { TextbookPositive(t, x, p - 1, i); } else { TextbookPositive(t, x, p - 1, i + 1); }
    }
  }

  /** One product of either recurrence: the shares agree, or both lower functions are zero. */
  lemma SameProducts(t: Knots, x: real, p: nat, i: nat, k: nat)
    requires Sorted(t) && Holds(t, x, k) && Seen(t, k) && p > 0 && i + p < |t|
    requires Basis(t, x, p - 1, i) == CoxDeBoor(t, x, p - 1, i)
    ensures Times(Up(t[i], t[i + p], x), Basis(t, x, p - 1, i)) == Times(Rise(t[i], t[i + p], x), CoxDeBoor(t, x, p - 1, i))
    ensures Times(Down(t[i], t[i + p], x), Basis(t, x, p - 1, i)) == Times(Fall(t[i], t[i + p], x), CoxDeBoor(t, x, p - 1, i))
  {
    SpanOrZero(t, x, p, i, k);
    hide Times, Basis, CoxDeBoor, Up, Down, Rise, Fall;
    if t[i + p] - t[i] > TINY {
      SameShares(t[i], t[i + p], x);
    } else {
      TimesZero(Up(t[i], t[i + p], x), 0.0);
      TimesZero(Down(t[i], t[i + p], x), 0.0);
      TimesZero(Rise(t[i], t[i + p], x), 0.0);
      TimesZero(Fall(t[i], t[i + p], x), 0.0);
    }
  }

  lemma {:induction false} SeenIsCoxDeBoor(t: Knots, x: real, p: nat, i: nat, k: nat)
    requires Sorted(t) && Holds(t, x, k) && Seen(t, k) && i + p + 1 < |t|
    ensures Basis(t, x, p, i) == CoxDeBoor(t, x, p, i)
    decreases p
  {
    if p == 0 {
      OnlyInterval(t, x, i, k);
    } else {
      SeenIsCoxDeBoor(t, x, p - 1, i, k);
      SeenIsCoxDeBoor(t, x, p - 1, i + 1, k);
      hide Times, Up, Down, Rise, Fall;
      SameProducts(t, x, p, i, k);
      SameProducts(t, x, p, i + 1, k);
    }
  }

  /** Above degree 0 the code computes the textbook function wherever x is outside all knots, at the last knot, or
      in an interval that is seen; inside the knots of the function, only there. */
  lemma IsCoxDeBoor(t: Knots, x: real, p: nat, i: nat)
    requires Sorted(t) && p > 0 && i + p + 1 < |t|
    ensures (forall k: nat :: Holds(t, x, k) ==> Seen(t, k)) ==> Basis(t, x, p, i) == CoxDeBoor(t, x, p, i)
    ensures t[i] < x < t[i + p + 1] ==>
      (Basis(t, x, p, i) == CoxDeBoor(t, x, p, i) <==> forall k: nat :: Holds(t, x, k) ==> Seen(t, k))
  {
    hide Basis, CoxDeBoor;
    if x < t[i] || x >= t[i + p + 1] {
      ZeroOutside(t, x, p, i);
      TextbookZero(t, x, p, i);
    } else {
      var k := IntervalFound(t, x, i, i + p + 1);
      forall j: nat | Holds(t, x, j) ensures j == k { SpanContains(t, x, j, k, k + 1); }
      if Seen(t, k) {
        SeenIsCoxDeBoor(t, x, p, i, k);
      } else if t[i] < x {
        BlindInterval(t, x, p, i, k);
        TextbookPositive(t, x, p, i);
      }
    }
  }

  // ---------------------------------------------------------------- where the conditions matter

  /** The last knot: above degree 0 every basis function is zero there, however often the knot is repeated. */
  lemma LastKnotVanishes(t: Knots, degree: nat, i: nat)
    requires Sorted(t) && degree > 0 && i + degree + 1 < |t|
    ensures Basis(t, t[|t| - 1], degree, i) == 0.0
  {
    ZeroOutside(t, t[|t| - 1], degree, i);
  }

  /** A gap below the threshold swallows the mass of the interval. */
  lemma TinyGapLosesMass()
    ensures var t := [0.0, 1.0, 1.00000000005, 2.0];
      Sorted(t) && t[1] <= 1.0 < t[2] && Sum(2, BasisAt(t, 1.0, 1)) == 0.0
  {
    var t := [0.0, 1.0, 1.00000000005, 2.0];
    PartitionOfUnity(t, 1.0, 1, 1);
  }
}
