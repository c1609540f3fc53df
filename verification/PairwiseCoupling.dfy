/** Class probabilities from pairwise probabilities: `multiclass_probability` of
    src/nodes/svm_node.cpp (Method 2 of Wu, Lin and Weng, 2004), over exact reals.

    The specification tracks two vectors.  `q` is the vector that the incrementally updated
    `Qp` and `pQp` of the code really describe; `p` is the vector the code returns.  They part
    company when the 1e-7 clamp fires, and meet again at the start of each iteration. */
module PairwiseCoupling {
  import opened Sums

  // ---------------------------------------------------------------- the matrix Q

  /** Row i, column j of `w`: the probability of class i against class j. */
  ghost predicate PairsPositive(w: Mat) {
    IsMat(w, |w|, |w|) && forall i, j :: 0 <= i < |w| && 0 <= j < |w| && i != j ==> Entry(w, i, j) > 0.0
  }

  ghost function SquareTerm(w: Mat, t: int, k: int): real {
    if k == t then 0.0 else Times(Entry(w, k, t), Entry(w, k, t))
  }

  ghost function QEntry(w: Mat, t: int, j: int): real {
    if t == j then Sum(|w|, k => SquareTerm(w, t, k)) else -Times(Entry(w, j, t), Entry(w, t, j))
  }

  ghost function QMatrix(w: Mat): (a: Mat)
    ensures IsMat(a, |w|, |w|)
    ensures forall t, j :: 0 <= t < |w| && 0 <= j < |w| ==> Entry(a, t, j) == QEntry(w, t, j)
  {
    seq(|w|, t => seq(|w|, j => QEntry(w, t, j)))
  }

  ghost function Miss(w: Mat, x: Vec, i: int, j: int): real {
    if i == j then 0.0
    else
      var d := Entry(w, j, i) * At(x, i) - Entry(w, i, j) * At(x, j);
      d * d
  }

  ghost function MissRow(w: Mat, x: Vec, i: int): real {
    Sum(|w|, j => Miss(w, x, i, j))
  }

  /** What Wu, Lin and Weng minimise (twice): how far `x` is from explaining each pair. */
  ghost function Disagreement(w: Mat, x: Vec): real {
    Sum(|w|, i => MissRow(w, x, i))
  }

  /** The terms of row i other than the diagonal one. */
  ghost function OffDiagonal(w: Mat, x: Vec, i: int, j: int): real {
    if j == i then 0.0 else Times(QEntry(w, i, j), At(x, j))
  }

  /** The (i, j) share of row i of x'Qx. */
  ghost function Half(w: Mat, x: Vec, i: int, j: int): real {
    Times(Times(At(x, i), At(x, i)), SquareTerm(w, i, j)) + Times(At(x, i), OffDiagonal(w, x, i, j))
  }

  lemma QRow(w: Mat, x: Vec, i: nat)
    requires |x| == |w| && i < |w|
    ensures Times(At(x, i), RowTimes(QMatrix(w), i, x)) == Sum(|w|, j => Half(w, x, i, j))
  {
    hide Times, SquareTerm, QMatrix;
    var n, xi, a := |w|, At(x, i), QMatrix(w);
    var diagonal := Sum(n, j => SquareTerm(w, i, j));
    SumChangeOne(n, j => OffDiagonal(w, x, i, j), j => Times(Entry(a, i, j), At(x, j)), i, Times(diagonal, xi));
    SumLinear(n, Times(xi, xi), j => SquareTerm(w, i, j), xi, j => OffDiagonal(w, x, i, j), j => Half(w, x, i, j));
    TimesAdds(xi, Sum(n, j => OffDiagonal(w, x, i, j)), Times(diagonal, xi));
    TimesCommutes(diagonal, xi);
    TimesAssociates(xi, xi, diagonal);
  }

  lemma HalfPair(w: Mat, x: Vec, i: int, j: int)
    ensures Half(w, x, i, j) + Half(w, x, j, i) == Miss(w, x, i, j)
  {
    if i != j {
      MissAlgebra(Entry(w, j, i), Entry(w, i, j), At(x, i), At(x, j));
    }
  }

  lemma MissAlgebra(u: real, v: real, x: real, y: real)
    ensures x * x * (u * u) + x * ((-(u * v)) * y) + (y * y * (v * v) + y * ((-(v * u)) * x))
         == (u * x - v * y) * (u * x - v * y)
  {
  }

  lemma MissRowSplits(w: Mat, x: Vec, i: int)
    ensures MissRow(w, x, i) == Sum(|w|, j => Half(w, x, i, j)) + Sum(|w|, j => Half(w, x, j, i))
  {
    hide Half, Miss;
    forall j ensures Miss(w, x, i, j) == Half(w, x, i, j) + Half(w, x, j, i) {
      HalfPair(w, x, i, j);
    }
    SumPlus(|w|, j => Half(w, x, i, j), j => Half(w, x, j, i), j => Miss(w, x, i, j));
  }

  lemma HalfSwap(w: Mat, x: Vec)
    ensures Sum(|w|, i => Sum(|w|, j => Half(w, x, i, j))) == Sum(|w|, i => Sum(|w|, j => Half(w, x, j, i)))
  {
    hide Half;
    var n, h := |w|, (i: int, j: int) => Half(w, x, i, j);
    SumSwap(n, n, h);
    var rows, cols := i => Sum(n, j => h(i, j)), i => Sum(n, j => h(j, i));
    var across, down := i => Sum(n, j => Half(w, x, i, j)), i => Sum(n, j => Half(w, x, j, i));
    forall i ensures rows(i) == across(i) && cols(i) == down(i) {
      SumSame(n, j => h(i, j), j => Half(w, x, i, j));
      SumSame(n, j => h(j, i), j => Half(w, x, j, i));
    }
    SumSame(n, rows, across);
    SumSame(n, cols, down);
  }

  /** The quadratic form the code tracks is half the published objective. */
  lemma QuadIsDisagreement(w: Mat, x: Vec)
    requires |x| == |w|
    ensures 2.0 * Quad(QMatrix(w), x) == Disagreement(w, x)
  {
    hide Half, MissRow, Times, RowTimes;
    var n := |w|;
    var rows, cols := i => Sum(n, j => Half(w, x, i, j)), i => Sum(n, j => Half(w, x, j, i));
    forall i | 0 <= i < n ensures Times(At(x, i), RowTimes(QMatrix(w), i, x)) == rows(i) {
      QRow(w, x, i);
    }
    SumSame(n, i => Times(At(x, i), RowTimes(QMatrix(w), i, x)), rows);
    forall i | 0 <= i < n ensures MissRow(w, x, i) == rows(i) + cols(i) {
      MissRowSplits(w, x, i);
    }
    SumPlus(n, rows, cols, i => MissRow(w, x, i));
    HalfSwap(w, x);
  }

  /** Symmetric, positive on the diagonal, positive semidefinite, and at most zero elsewhere. */
  ghost predicate Coupling(a: Mat) {
    && IsMat(a, |a|, |a|) && Symmetric(a)
    && (forall t :: 0 <= t < |a| ==> Entry(a, t, t) > 0.0)
    && (forall t, j :: 0 <= t < |a| && 0 <= j < |a| && t != j ==> Entry(a, t, j) <= 0.0)
    && (forall x: Vec :: |x| == |a| ==> Quad(a, x) >= 0.0)
  }

  lemma QEntrySigns(w: Mat, t: nat, j: nat)
    requires |w| >= 2 && PairsPositive(w) && t < |w| && j < |w|
    ensures if t == j then QEntry(w, t, j) > 0.0 else QEntry(w, t, j) <= 0.0
    ensures QEntry(w, t, j) == QEntry(w, j, t)
  {
    hide Times;
    if t == j {
      var f := k => SquareTerm(w, t, k);
      forall k | 0 <= k < |w| ensures f(k) >= 0.0 && (k != t ==> f(k) > 0.0) {
        if k != t { TimesPositive(Entry(w, k, t), Entry(w, k, t)); }
      }
      assert f(if t == 0 then 1 else 0) > 0.0;
      SumNonneg(|w|, f);
    } else {
      TimesPositive(Entry(w, j, t), Entry(w, t, j));
      TimesCommutes(Entry(w, j, t), Entry(w, t, j));
    }
  }

  lemma DisagreementNonneg(w: Mat, x: Vec)
    ensures Disagreement(w, x) >= 0.0
  {
    forall i ensures MissRow(w, x, i) >= 0.0 {
      SumNonneg(|w|, j => Miss(w, x, i, j));
    }
    SumNonneg(|w|, i => MissRow(w, x, i));
  }

  /** `Q` built from positive pairwise probabilities is a Gram matrix of the kind above. */
  lemma QIsCoupling(w: Mat)
    requires |w| >= 2 && PairsPositive(w)
    ensures Coupling(QMatrix(w))
  {
    hide Quad, QEntry;
    var a := QMatrix(w);
    forall t, j | 0 <= t < |w| && 0 <= j < |w|
      ensures Entry(a, t, j) == Entry(a, j, t)
      ensures if t == j then Entry(a, t, j) > 0.0 else Entry(a, t, j) <= 0.0
    {
      QEntrySigns(w, t, j);
    }
    forall x: Vec | |x| == |w| ensures Quad(a, x) >= 0.0 {
      QuadIsDisagreement(w, x);
      DisagreementNonneg(w, x);
    }
  }

  // ---------------------------------------------------------------- one coordinate update

  /** How far coordinate `t` moves before renormalising. */
  ghost function Nudge(a: Mat, q: Vec, t: nat): real
    requires Coupling(a) && |q| == |a| && t < |a|
  {
    (Quad(a, q) - RowTimes(a, t, q)) / Entry(a, t, t)
  }

  /** Cauchy-Schwarz for the form: what keeps the update away from a zero division. */
  lemma RowBelowQuad(a: Mat, q: Vec, t: nat)
    requires Coupling(a) && |q| == |a| && t < |a|
    ensures RowTimes(a, t, q) * RowTimes(a, t, q) <= Quad(a, q) * Entry(a, t, t)
  {
    hide Form, RowTimes;
    var g, c, e := RowTimes(a, t, q), Entry(a, t, t), Unit(|a|, t);
    FormUnit(a, |a|, t, q);
    FormUnit(a, |a|, t, e);
    RowTimesUnit(a, t, |a|, t);
    QuadAlong(a, q, c, -g, e);
    CauchySchwarz(Quad(a, q), g, c, Quad(a, Combine(c, q, -g, e)));
  }

  lemma CauchySchwarz(P: real, g: real, c: real, along: real)
    requires c > 0.0 && along >= 0.0
    requires along == c * c * P + 2.0 * c * (-g) * g + (-g) * (-g) * c
    ensures g * g <= P * c
  {
    assert along == c * (P * c - g * g);
    if P * c - g * g < 0.0 {
      NegativeProduct(c, P * c - g * g);
    }
  }

  lemma NegativeProduct(c: real, x: real)
    requires c > 0.0 && x < 0.0
    ensures c * x < 0.0
  {
  }

  /** No update divides by anything below 3/4, whatever vector is being updated. */
  lemma NudgeBounded(a: Mat, q: Vec, t: nat)
    requires Coupling(a) && |q| == |a| && t < |a|
    ensures 1.0 + Nudge(a, q, t) >= 0.75
  {
    hide Quad, RowTimes;
    RowBelowQuad(a, q, t);
    NudgeAlgebra(Quad(a, q), RowTimes(a, t, q), Entry(a, t, t), Nudge(a, q, t));
  }

  lemma NudgeAlgebra(P: real, g: real, c: real, d: real)
    requires c > 0.0 && d == (P - g) / c && g * g <= P * c
    ensures d >= -0.25
  {
    var y := g / c;
    assert P / c >= y * y by {
      assert y * c == g && (P / c) * c == P;
      assert (y * y) * (c * c) == g * g;
      assert (P / c) * (c * c) == P * c;
      if P / c < y * y {
        TimesPositive(c, c);
        ScaleStrict(P / c, y * y, c * c);
      }
    }
    assert d == P / c - y;
    assert y * y - y + 0.25 == (y - 0.5) * (y - 0.5);
  }

  lemma ScaleStrict(u: real, v: real, k: real)
    requires u < v && k > 0.0
    ensures u * k < v * k
  {
  }

  /** Add `d` to coordinate `t`, then divide everything by `1 + d`. */
  ghost function Moved(x: Vec, t: int, d: real): (y: Vec)
    requires 1.0 + d > 0.0
    ensures |y| == |x|
  {
    seq(|x|, i => (At(x, i) + if i == t then d else 0.0) / (1.0 + d))
  }

  lemma MovedIsCombination(x: Vec, t: nat, d: real)
    requires 1.0 + d > 0.0 && t < |x|
    ensures Moved(x, t, d) == Combine(1.0 / (1.0 + d), x, d / (1.0 + d), Unit(|x|, t))
  {
    var y := Combine(1.0 / (1.0 + d), x, d / (1.0 + d), Unit(|x|, t));
    forall i | 0 <= i < |x| ensures Moved(x, t, d)[i] == y[i] {
      assert At(y, i) == Times(1.0 / (1.0 + d), At(x, i)) + Times(d / (1.0 + d), At(Unit(|x|, t), i));
      QuotientSplits(At(x, i), d, At(Unit(|x|, t), i));
    }
  }

  lemma QuotientSplits(u: real, d: real, e: real)
    requires 1.0 + d > 0.0
    ensures (u + d * e) / (1.0 + d) == Times(1.0 / (1.0 + d), u) + Times(d / (1.0 + d), e)
  {
  }

  /** The update of `Qp[j]` in the code. */
  lemma MovedRow(a: Mat, i: nat, q: Vec, t: nat, d: real, row: real, share: real)
    requires Coupling(a) && |q| == |a| && t < |a| && i < |a| && 1.0 + d > 0.0
    requires row == RowTimes(a, i, q) && share == Entry(a, t, i)
    ensures RowTimes(a, i, Moved(q, t, d)) == (row + d * share) / (1.0 + d)
  {
    hide RowTimes;
    MovedIsCombination(q, t, d);
    RowTimesLinear(a, i, 1.0 / (1.0 + d), q, d / (1.0 + d), Unit(|q|, t));
    RowTimesUnit(a, i, |q|, t);
    assert Entry(a, i, t) == Entry(a, t, i);
    QuotientSplits(row, d, share);
  }

  /** The update of `pQp` in the code. */
  lemma MovedQuad(a: Mat, q: Vec, t: nat, d: real, pQp: real, row: real, diagonal: real)
    requires Coupling(a) && |q| == |a| && t < |a| && 1.0 + d > 0.0
    requires pQp == Quad(a, q) && row == RowTimes(a, t, q) && diagonal == Entry(a, t, t)
    ensures Quad(a, Moved(q, t, d)) == (pQp + d * (d * diagonal + 2.0 * row)) / (1.0 + d) / (1.0 + d)
  {
    hide RowTimes, Form;
    var e, s := Unit(|q|, t), 1.0 + d;
    MovedIsCombination(q, t, d);
    QuadAlong(a, q, 1.0 / s, d / s, e);
    FormUnit(a, |a|, t, q);
    FormUnit(a, |a|, t, e);
    RowTimesUnit(a, t, |a|, t);
    QuadAlgebra(Quad(a, q), RowTimes(a, t, q), Entry(a, t, t), d, s);
  }

  lemma QuadAlgebra(P: real, g: real, c: real, d: real, s: real)
    requires s > 0.0
    ensures (1.0 / s) * (1.0 / s) * P + 2.0 * (1.0 / s) * (d / s) * g + (d / s) * (d / s) * c
         == (P + d * (d * c + 2.0 * g)) / s / s
  {
    var k := 1.0 / s;
    assert d / s == k * d;
    assert (P + d * (d * c + 2.0 * g)) / s == k * (P + d * (d * c + 2.0 * g));
    assert k * (P + d * (d * c + 2.0 * g)) / s == k * (k * (P + d * (d * c + 2.0 * g)));
  }

  lemma MovedTotal(x: Vec, t: nat, d: real)
    requires 1.0 + d > 0.0 && t < |x|
    ensures Total(Moved(x, t, d)) == (Total(x) + d) / (1.0 + d)
  {
    hide Times;
    var e, k := Unit(|x|, t), 1.0 / (1.0 + d);
    MovedIsCombination(x, t, d);
    var zero := (i: int) => 0.0;
    SumZero(|x|, zero);
    SumChangeOne(|x|, zero, i => At(e, i), t, 1.0);
    SumLinear(|x|, k, i => At(x, i), d / (1.0 + d), i => At(e, i), i => At(Moved(x, t, d), i));
    QuotientSplits(Total(x), d, 1.0);
  }

  /** Every coordinate update lowers the objective, by exactly this much. */
  lemma NudgeDescends(a: Mat, q: Vec, t: nat)
    requires Coupling(a) && |q| == |a| && t < |a| && 1.0 + Nudge(a, q, t) > 0.0
    ensures var d := Nudge(a, q, t);
      Quad(a, Moved(q, t, d)) == Quad(a, q) - (Quad(a, q) + Entry(a, t, t)) * (d / (1.0 + d)) * (d / (1.0 + d))
    ensures Quad(a, Moved(q, t, Nudge(a, q, t))) <= Quad(a, q)
  {
    hide RowTimes, Quad;
    var d, P, g, c := Nudge(a, q, t), Quad(a, q), RowTimes(a, t, q), Entry(a, t, t);
    MovedQuad(a, q, t, d, P, g, c);
    DescentAlgebra(P, g, c, d, 1.0 + d);
  }

  lemma DescentAlgebra(P: real, g: real, c: real, d: real, s: real)
    requires s == 1.0 + d && s > 0.0 && c > 0.0 && P >= 0.0 && d == (P - g) / c
    ensures (P + d * (d * c + 2.0 * g)) / s / s == P - (P + c) * (d / s) * (d / s)
    ensures (P + c) * (d / s) * (d / s) >= 0.0
  {
    assert d * c == P - g;
    assert g == P - d * c;
    var k := d / s;
    assert k * s == d;
    assert (P + d * (d * c + 2.0 * g)) == P * s * s - (P + c) * d * d;
    assert (P * s * s - (P + c) * d * d) / s == P * s - (P + c) * d * k;
    assert (P * s - (P + c) * d * k) / s == P - (P + c) * k * k;
    assert k * k >= 0.0;
  }

  // ---------------------------------------------------------------- the iteration

  const MIN_PROB := 0.0000001

  datatype State = State(q: Vec, p: Vec)

  ghost predicate Matches(a: Mat, s: State) {
    Coupling(a) && |s.q| == |s.p| == |a|
  }

  ghost function Clamped(x: Vec, t: nat): (y: Vec)
    requires t < |x|
    ensures |y| == |x|
  {
    if x[t] < MIN_PROB then x[t := MIN_PROB] else x
  }

  /** The clamp of line 187 raises coordinate `t`. */
  ghost predicate ClampFires(a: Mat, s: State, t: nat)
    requires Matches(a, s) && t < |a|
  {
    NudgeBounded(a, s.q, t);
    Moved(s.p, t, Nudge(a, s.q, t))[t] < MIN_PROB
  }

  ghost function Update(a: Mat, s: State, t: nat): (s': State)
    requires Matches(a, s) && t < |a|
    ensures Matches(a, s')
  {
    NudgeBounded(a, s.q, t);
    var d := Nudge(a, s.q, t);
    State(Moved(s.q, t, d), Clamped(Moved(s.p, t, d), t))
  }

  /** Coordinates `t` and up, in order. */
  ghost function Sweep(a: Mat, s: State, t: nat): (s': State)
    requires Matches(a, s) && t <= |a|
    ensures Matches(a, s')
    decreases |a| - t
  {
    if t == |a| then s else Sweep(a, Update(a, s, t), t + 1)
  }

  ghost predicate SweepClamps(a: Mat, s: State, t: nat)
    requires Matches(a, s) && t <= |a|
    decreases |a| - t
  {
    t < |a| && (ClampFires(a, s, t) || SweepClamps(a, Update(a, s, t), t + 1))
  }

  /** The stopping test: every row is within `eps` of the objective. */
  ghost predicate Converged(a: Mat, p: Vec, eps: real) {
    forall t :: 0 <= t < |a| ==> -eps < RowTimes(a, t, p) - Quad(a, p) < eps
  }

  ghost function Iterate(a: Mat, p: Vec, eps: real, left: nat): (p': Vec)
    requires Coupling(a) && |p| == |a|
    ensures |p'| == |p|
    decreases left
  {
    hide Coupling, Converged, Times;
    if left == 0 || Converged(a, p, eps) then p
    else Iterate(a, Sweep(a, State(p, p), 0).p, eps, left - 1)
  }

  ghost predicate EverClamps(a: Mat, p: Vec, eps: real, left: nat)
    requires Coupling(a) && |p| == |a|
    decreases left
  {
    hide Coupling, Converged, Times;
    left > 0 && !Converged(a, p, eps) &&
    (SweepClamps(a, State(p, p), 0) || EverClamps(a, Sweep(a, State(p, p), 0).p, eps, left - 1))
  }

  ghost predicate Nonneg(x: Vec) {
    forall i :: 0 <= i < |x| ==> x[i] >= 0.0
  }

  /** `p` dominates the tracked `q`, strictly somewhere exactly when `above`. */
  ghost predicate Sound(s: State, above: bool) {
    && |s.q| == |s.p| && Nonneg(s.q) && Total(s.q) >= 1.0
    && (forall i :: 0 <= i < |s.q| ==> s.q[i] <= s.p[i])
    && (if above then Total(s.p) > 1.0 else s.p == s.q && Total(s.q) == 1.0)
  }

  /** Moving a nonnegative vector keeps it nonnegative. */
  lemma MovedStaysNonneg(a: Mat, q: Vec, t: nat)
    requires Coupling(a) && |q| == |a| && t < |a| && Nonneg(q)
    requires 1.0 + Nudge(a, q, t) > 0.0
    ensures q[t] + Nudge(a, q, t) >= 0.0
    ensures Nonneg(Moved(q, t, Nudge(a, q, t)))
  {
    hide Times, RowTimes, Quad;
    var c, g, P, d := Entry(a, t, t), RowTimes(a, t, q), Quad(a, q), Nudge(a, q, t);
    assert g <= Times(c, q[t]) by { RowBelowDiagonal(a, q, t); }
    ShareNonneg(P, g, c, d, q[t]);
    forall i | 0 <= i < |q| ensures Moved(q, t, d)[i] >= 0.0 {
      QuotientNonneg(At(q, i) + if i == t then d else 0.0, 1.0 + d);
    }
  }

  lemma RowBelowDiagonal(a: Mat, q: Vec, t: nat)
    requires Coupling(a) && |q| == |a| && t < |a| && Nonneg(q)
    ensures RowTimes(a, t, q) <= Times(Entry(a, t, t), q[t])
  {
    var zero, diagonal := (j: int) => 0.0, Times(Entry(a, t, t), q[t]);
    var only := j => if j == t then diagonal else 0.0;
    SumZero(|q|, zero);
    SumChangeOne(|q|, zero, only, t, diagonal);
    forall j | 0 <= j < |q| ensures Times(Entry(a, t, j), At(q, j)) <= only(j) {
      if j != t { SignedProduct(Entry(a, t, j), At(q, j)); }
    }
    hide Times;
    SumMonotone(|q|, j => Times(Entry(a, t, j), At(q, j)), only);
  }

  lemma SignedProduct(u: real, v: real)
    requires u <= 0.0 && v >= 0.0
    ensures Times(u, v) <= 0.0
  {
  }

  lemma ShareNonneg(P: real, g: real, c: real, d: real, x: real)
    requires c > 0.0 && P >= 0.0 && g <= Times(c, x) && d == (P - g) / c
    ensures x + d >= 0.0
  {
    assert d * c == P - g;
    assert (x + d) * c >= 0.0;
    if x + d < 0.0 { NegativeProduct(c, x + d); }
  }

  lemma QuotientNonneg(u: real, s: real)
    requires u >= 0.0 && s > 0.0
    ensures u / s >= 0.0
  {
  }

  lemma ClampLift(x: Vec, t: nat)
    requires t < |x|
    ensures forall i :: 0 <= i < |x| ==> Clamped(x, t)[i] >= x[i]
    ensures Total(Clamped(x, t)) >= Total(x)
    ensures if x[t] < MIN_PROB then Total(Clamped(x, t)) > Total(x) else Clamped(x, t) == x
  {
    var y := Clamped(x, t);
    if x[t] < MIN_PROB {
      SumChangeOne(|x|, i => At(x, i), i => At(y, i), t, MIN_PROB - x[t]);
    }
  }

  lemma MovedMonotone(x: Vec, y: Vec, t: nat, d: real)
    requires |x| == |y| && t < |x| && 1.0 + d > 0.0
    requires forall i :: 0 <= i < |x| ==> x[i] <= y[i]
    ensures forall i :: 0 <= i < |x| ==> Moved(x, t, d)[i] <= Moved(y, t, d)[i]
  {
    forall i | 0 <= i < |x| ensures Moved(x, t, d)[i] <= Moved(y, t, d)[i] {
      QuotientMonotone(At(x, i) + if i == t then d else 0.0, At(y, i) + if i == t then d else 0.0, 1.0 + d);
    }
  }

  lemma QuotientMonotone(u: real, v: real, s: real)
    requires s > 0.0
    ensures u <= v ==> u / s <= v / s
    ensures u > s ==> u / s > 1.0
    ensures u == s ==> u / s == 1.0
    ensures u >= s ==> u / s >= 1.0
  {
    var x, y := u / s, v / s;
    assert x * s == u && y * s == v;
    assert s * (x - 1.0) == u - s && s * (y - x) == v - u;
    if x < 1.0 { NegativeProduct(s, x - 1.0); }
    if y < x { NegativeProduct(s, y - x); }
  }

  /** One update keeps the pair sound; it separates the two vectors exactly when the clamp fires. */
  lemma UpdateSound(a: Mat, s: State, t: nat, above: bool)
    requires Matches(a, s) && t < |a| && Sound(s, above)
    ensures Sound(Update(a, s, t), above || ClampFires(a, s, t))
  {
    hide Quad, RowTimes, Nudge;
    NudgeBounded(a, s.q, t);
    var d := Nudge(a, s.q, t);
    MovedStaysNonneg(a, s.q, t);
    MovedMonotone(s.q, s.p, t, d);
    MovedTotal(s.q, t, d);
    MovedTotal(s.p, t, d);
    QuotientMonotone(Total(s.q) + d, 0.0, 1.0 + d);
    QuotientMonotone(Total(s.p) + d, 0.0, 1.0 + d);
    ClampLift(Moved(s.p, t, d), t);
  }

  lemma {:induction false} SweepSound(a: Mat, s: State, t: nat, above: bool)
    requires Matches(a, s) && t <= |a| && Sound(s, above)
    ensures Sound(Sweep(a, s, t), above || SweepClamps(a, s, t))
    decreases |a| - t
  {
    hide Coupling, Sound, Update, ClampFires;
    if t < |a| {
      UpdateSound(a, s, t, above);
      SweepSound(a, Update(a, s, t), t + 1, above || ClampFires(a, s, t));
    }
  }

  lemma {:induction false} SweepDescends(a: Mat, s: State, t: nat)
    requires Matches(a, s) && t <= |a|
    ensures Quad(a, Sweep(a, s, t).q) <= Quad(a, s.q)
    decreases |a| - t
  {
    hide Coupling, Quad, Nudge;
    if t < |a| {
      NudgeBounded(a, s.q, t);
      NudgeDescends(a, s.q, t);
      SweepDescends(a, Update(a, s, t), t + 1);
    }
  }

  lemma {:induction false} IterateSound(a: Mat, p: Vec, eps: real, left: nat)
    requires Coupling(a) && |p| == |a| && Nonneg(p) && Total(p) >= 1.0
    ensures var r := Iterate(a, p, eps, left);
      && Nonneg(r) && Total(r) >= 1.0
      && (Total(r) == 1.0 <==> Total(p) == 1.0 && !EverClamps(a, p, eps, left))
      && (Total(r) == 1.0 ==> Quad(a, r) <= Quad(a, p))
    decreases left
  {
    hide Coupling, Converged, Quad, SweepClamps, Sweep;
    if left > 0 && !Converged(a, p, eps) {
      var s := State(p, p);
      SweepSound(a, s, 0, Total(p) > 1.0);
      SweepDescends(a, s, 0);
      IterateSound(a, Sweep(a, s, 0).p, eps, left - 1);
    }
  }

  // ---------------------------------------------------------------- near-optimality

  /** The objective is convex: it lies above its tangent at `p`. */
  lemma Tangent(a: Mat, p: Vec, x: Vec)
    requires Coupling(a) && |p| == |x| == |a|
    ensures Quad(a, x) >= Quad(a, p) + 2.0 * Form(a, Combine(1.0, x, -1.0, p), p)
  {
    hide Form, Combine;
    var w := Combine(1.0, x, -1.0, p);
    QuadAlong(a, p, 1.0, 1.0, w);
    var back := Combine(1.0, p, 1.0, w);
    assert back == x by {
      forall i | 0 <= i < |x| ensures back[i] == x[i] {
        assert At(back, i) == Times(1.0, At(p, i)) + Times(1.0, At(w, i));
        assert At(w, i) == Times(1.0, At(x, i)) + Times(-1.0, At(p, i));
      }
    }
    assert Form(a, w, w) == Quad(a, w);
  }

  /** Where every row is within `eps` of the objective, the tangent is nearly flat on distributions. */
  lemma TangentNearlyFlat(a: Mat, p: Vec, x: Vec, eps: real)
    requires Coupling(a) && |p| == |x| == |a| && Converged(a, p, eps) && eps > 0.0
    requires Nonneg(p) && Nonneg(x) && Total(p) == 1.0 && Total(x) == 1.0
    ensures Form(a, Combine(1.0, x, -1.0, p), p) >= -2.0 * eps
  {
    hide Quad, RowTimes, Combine, Times;
    var n, w, level := |a|, Combine(1.0, x, -1.0, p), Quad(a, p);
    var left, right := i => Times(At(w, i), level) + Times(-eps, At(x, i) + At(p, i)), i => Times(At(w, i), RowTimes(a, i, p));
    forall i | 0 <= i < n ensures left(i) <= right(i) {
      assert At(w, i) == Times(1.0, At(x, i)) + Times(-1.0, At(p, i));
      assert At(x, i) == x[i] && At(p, i) == p[i];
      FlatTerm(At(x, i), At(p, i), At(w, i), RowTimes(a, i, p), level, eps);
    }
    SumMonotone(n, left, right);
    FlatSum(a, p, x, w, level, eps);
  }

  lemma FlatTerm(x: real, p: real, w: real, row: real, level: real, eps: real)
    requires x >= 0.0 && p >= 0.0 && w == Times(1.0, x) + Times(-1.0, p) && -eps < row - level < eps
    ensures Times(w, level) + Times(-eps, x + p) <= Times(w, row)
  {
    var e := row - level;
    assert w * row == w * level + w * e;
    assert w * e == x * e - p * e;
    SandwichProduct(x, e, eps);
    SandwichProduct(p, e, eps);
  }

  lemma SandwichProduct(x: real, e: real, eps: real)
    requires x >= 0.0 && -eps < e < eps
    ensures -eps * x <= x * e <= eps * x
  {
  }

  lemma FlatSum(a: Mat, p: Vec, x: Vec, w: Vec, level: real, eps: real)
    requires |p| == |x| == |w| == |a| && Total(p) == 1.0 && Total(x) == 1.0
    requires w == Combine(1.0, x, -1.0, p)
    ensures Sum(|a|, i => Times(At(w, i), level) + Times(-eps, At(x, i) + At(p, i))) == -2.0 * eps
  {
    hide Times, Combine;
    var n := |a|;
    SumLinear(n, 1.0, i => At(x, i), -1.0, i => At(p, i), i => At(w, i));
    SumPlus(n, i => At(x, i), i => At(p, i), i => At(x, i) + At(p, i));
    forall i ensures Times(At(w, i), level) == Times(level, At(w, i)) {
      TimesCommutes(At(w, i), level);
    }
    SumLinear(n, level, i => At(w, i), -eps, i => At(x, i) + At(p, i),
              i => Times(At(w, i), level) + Times(-eps, At(x, i) + At(p, i)));
    FlatProducts(level, eps);
  }

  lemma FlatProducts(level: real, eps: real)
    ensures Times(1.0, 1.0) + Times(-1.0, 1.0) == 0.0
    ensures Times(level, 0.0) + Times(-eps, 2.0) == -2.0 * eps
  {
  }

  // ---------------------------------------------------------------- the results

  ghost function Uniform(K: nat): (p: Vec)
    requires K > 0
    ensures |p| == K
  {
    seq(K, i => 1.0 / (K as real))
  }

  function Tolerance(K: nat): real
    requires K > 0
  {
    0.005 / (K as real)
  }

  function MaxIterations(K: nat): nat {
    if K > 100 then K else 100
  }

  /** The vector `multiclass_probability` must return. */
  ghost function Coupled(w: Mat): (p: Vec)
    requires |w| >= 2 && PairsPositive(w)
    ensures |p| == |w|
  {
    QIsCoupling(w);
    Iterate(QMatrix(w), Uniform(|w|), Tolerance(|w|), MaxIterations(|w|))
  }

  /** The clamp raises some entry during the run on `w`. */
  ghost predicate RunClamps(w: Mat)
    requires |w| >= 2 && PairsPositive(w)
  {
    QIsCoupling(w);
    EverClamps(QMatrix(w), Uniform(|w|), Tolerance(|w|), MaxIterations(|w|))
  }

  lemma UniformIsDistribution(K: nat)
    requires K > 0
    ensures Nonneg(Uniform(K)) && Total(Uniform(K)) == 1.0
  {
    var one, k := (i: int) => 1.0, K as real;
    SumOnes(K, one);
    SumScaled(K, 1.0 / k, one, i => At(Uniform(K), i));
    assert 1.0 / k * k == 1.0;
    QuotientNonneg(1.0, k);
  }

  /** The result is never negative and never sums to less than 1; it is a probability
      distribution if and only if the clamp never raised an entry. */
  lemma DistributionIffNoClamp(w: Mat)
    requires |w| >= 2 && PairsPositive(w)
    ensures Nonneg(Coupled(w)) && Total(Coupled(w)) >= 1.0
    ensures Total(Coupled(w)) == 1.0 <==> !RunClamps(w)
  {
    hide Coupling, Iterate, EverClamps, Nonneg;
    QIsCoupling(w);
    UniformIsDistribution(|w|);
    IterateSound(QMatrix(w), Uniform(|w|), Tolerance(|w|), MaxIterations(|w|));
  }

  /** Without a clamp the result explains the pairs at least as well as the uniform start; once the
      stopping test holds, no distribution explains them better by more than 0.04/K. */
  lemma NearlyOptimal(w: Mat, x: Vec)
    requires |w| >= 2 && PairsPositive(w) && !RunClamps(w)
    requires |x| == |w| && Nonneg(x) && Total(x) == 1.0
    ensures Disagreement(w, Coupled(w)) <= Disagreement(w, Uniform(|w|))
    ensures Converged(QMatrix(w), Coupled(w), Tolerance(|w|)) ==>
              Disagreement(w, Coupled(w)) <= Disagreement(w, x) + 0.04 / (|w| as real)
  {
    hide Coupling, Iterate, EverClamps, Nonneg, Converged, Disagreement, Quad, Total, QMatrix;
    var a, p, eps := QMatrix(w), Coupled(w), Tolerance(|w|);
    QIsCoupling(w);
    UniformIsDistribution(|w|);
    IterateSound(a, Uniform(|w|), eps, MaxIterations(|w|));
    QuadIsDisagreement(w, p);
    QuadIsDisagreement(w, Uniform(|w|));
    QuadIsDisagreement(w, x);
    if Converged(a, p, eps) {
      Tangent(a, p, x);
      ToleranceScaled(|w|);
      TangentNearlyFlat(a, p, x, eps);
    }
  }

  lemma ToleranceScaled(K: nat)
    requires K > 0
    ensures Tolerance(K) > 0.0 && 8.0 * Tolerance(K) == 0.04 / (K as real)
  {
  }

  /** `w` says of classes i and j what the class probabilities `x` say. */
  ghost predicate Explains(w: Mat, x: Vec, i: int, j: int) {
    Entry(w, i, j) * (At(x, i) + At(x, j)) == At(x, i) && Entry(w, i, j) + Entry(w, j, i) == 1.0
  }

  lemma NoMiss(w: Mat, x: Vec, i: int, j: int)
    requires i != j ==> Explains(w, x, i, j) && Explains(w, x, j, i)
    ensures Miss(w, x, i, j) == 0.0
  {
    if i != j { ConsistentPair(Entry(w, i, j), Entry(w, j, i), At(x, i), At(x, j)); }
  }

  /** When the pairs come from one distribution `x`, they are explained without any miss, so a
      converged run without a clamp explains them to within 0.04/K. */
  lemma ConsistentPairsRecovered(w: Mat, x: Vec)
    requires |w| >= 2 && PairsPositive(w) && !RunClamps(w)
    requires |x| == |w| && Nonneg(x) && Total(x) == 1.0
    requires forall i, j :: 0 <= i < |w| && 0 <= j < |w| && i != j ==> Explains(w, x, i, j)
    requires Converged(QMatrix(w), Coupled(w), Tolerance(|w|))
    ensures Disagreement(w, Coupled(w)) <= 0.04 / (|w| as real)
  {
    hide Explains, Miss, Converged, Coupled, RunClamps, PairsPositive, Nonneg, Total;
    forall i | 0 <= i < |w| ensures MissRow(w, x, i) == 0.0 {
      forall j | 0 <= j < |w| ensures Miss(w, x, i, j) == 0.0 {
        NoMiss(w, x, i, j);
      }
      SumZero(|w|, j => Miss(w, x, i, j));
    }
    SumZero(|w|, i => MissRow(w, x, i));
    NearlyOptimal(w, x);
  }

  lemma ConsistentPair(u: real, v: real, x: real, y: real)
    requires u * (x + y) == x && v * (y + x) == y && u + v == 1.0
    ensures v * x - u * y == 0.0
  {
    assert v * x == x - u * x && u * x + u * y == x;
  }

  // ---------------------------------------------------------------- a run that clamps

  /** Three classes: 1 beats 0 and 2, 0 beats 2, each as surely as the code allows. */
  function SurePairs(): (w: Mat)
    ensures |w| == 3 && IsMat(w, 3, 3)
  {
    [[0.0, 0.0000001, 0.9999999],
     [0.9999999, 0.0, 0.9999999],
     [0.0000001, 0.0000001, 0.0]]
  }

  lemma Sum3(f: int -> real)
    ensures Sum(3, f) == f(0) + f(1) + f(2)
  {
    assert Sum(1, f) == f(0);
    assert Sum(2, f) == f(0) + f(1);
  }

  lemma Row3(a: Mat, i: int, x: Vec)
    requires |x| == 3
    ensures RowTimes(a, i, x) == Entry(a, i, 0) * x[0] + Entry(a, i, 1) * x[1] + Entry(a, i, 2) * x[2]
  {
    Sum3(j => Times(Entry(a, i, j), At(x, j)));
  }

  lemma Quad3(a: Mat, x: Vec)
    requires |x| == 3
    ensures Quad(a, x) == x[0] * RowTimes(a, 0, x) + x[1] * RowTimes(a, 1, x) + x[2] * RowTimes(a, 2, x)
  {
    hide RowTimes;
    Sum3(i => Times(At(x, i), RowTimes(a, i, x)));
  }

  const SURE := 0.9999999

  lemma SureEntries(a: Mat)
    requires a == QMatrix(SurePairs())
    ensures Entry(a, 0, 0) == SURE * SURE + MIN_PROB * MIN_PROB
    ensures Entry(a, 1, 1) == 2.0 * MIN_PROB * MIN_PROB && Entry(a, 2, 2) == 2.0 * SURE * SURE
    ensures Entry(a, 0, 1) == Entry(a, 1, 0) == Entry(a, 0, 2) == Entry(a, 2, 0) == -SURE * MIN_PROB
    ensures Entry(a, 1, 2) == Entry(a, 2, 1) == -SURE * MIN_PROB
  {
    var w := SurePairs();
    Sum3(k => SquareTerm(w, 0, k));
    Sum3(k => SquareTerm(w, 1, k));
    Sum3(k => SquareTerm(w, 2, k));
  }

  lemma SureRows(a: Mat, x: Vec)
    requires a == QMatrix(SurePairs()) && |x| == 3 && x[0] == x[2]
    ensures RowTimes(a, 0, x) == (SURE * SURE + MIN_PROB * MIN_PROB - SURE * MIN_PROB) * x[0] - SURE * MIN_PROB * x[1]
    ensures RowTimes(a, 1, x) == -2.0 * SURE * MIN_PROB * x[0] + 2.0 * MIN_PROB * MIN_PROB * x[1]
    ensures RowTimes(a, 2, x) == (2.0 * SURE * SURE - SURE * MIN_PROB) * x[0] - SURE * MIN_PROB * x[1]
    ensures Quad(a, x) == x[0] * (RowTimes(a, 0, x) + RowTimes(a, 2, x)) + x[1] * RowTimes(a, 1, x)
  {
    hide RowTimes, Quad, QMatrix, Entry;
    SureEntries(a);
    Row3(a, 0, x);
    Row3(a, 1, x);
    Row3(a, 2, x);
    Quad3(a, x);
  }

  const THIRD := 1.0 / 3.0
  const SMALL := 0.00000000000002 / 0.99999980000006

  /** The first sweep leaves coordinate 0 alone, throws nearly all mass to class 1, and then wants
      to put about 5e-8 on class 2. */
  lemma SureFirst(a: Mat, u: Vec)
    requires a == QMatrix(SurePairs()) && Coupling(a) && u == [THIRD, THIRD, THIRD]
    ensures Nudge(a, u, 0) == 0.0 && Nudge(a, u, 1) > 0.0
    ensures Moved(u, 0, 0.0) == u
    ensures Moved(u, 1, Nudge(a, u, 1)) == [SMALL, 1.0 - 2.0 * SMALL, SMALL]
    ensures !Converged(a, u, Tolerance(3))
  {
    hide Quad, RowTimes, Coupling;
    SureRows(a, u);
    SureEntries(a);
    var d := Nudge(a, u, 1);
    assert RowTimes(a, 1, u) - Quad(a, u) < -0.3;
    assert Moved(u, 1, d)[0] == SMALL;
  }

  lemma SureSecond(a: Mat, x: Vec)
    requires a == QMatrix(SurePairs()) && Coupling(a) && x == [SMALL, 1.0 - 2.0 * SMALL, SMALL]
    requires 1.0 + Nudge(a, x, 2) > 0.0
    ensures Moved(x, 2, Nudge(a, x, 2))[2] < MIN_PROB
  {
    hide Quad, RowTimes, Coupling;
    SureRows(a, x);
    SureEntries(a);
  }

  /** The clamp does fire on inputs the caller can produce: with these pairwise probabilities, all
      in [1e-7, 1 - 1e-7], the returned vector sums to more than 1. */
  lemma SurePairsClamp()
    ensures PairsPositive(SurePairs()) && RunClamps(SurePairs()) && Total(Coupled(SurePairs())) > 1.0
    ensures forall i, j :: 0 <= i < 3 && 0 <= j < 3 && i != j ==>
      MIN_PROB <= Entry(SurePairs(), i, j) <= 1.0 - MIN_PROB && Entry(SurePairs(), i, j) + Entry(SurePairs(), j, i) == 1.0
  {
    hide Coupling, Nudge, Moved, Converged;
    var w := SurePairs();
    var a, u := QMatrix(w), [THIRD, THIRD, THIRD];
    QIsCoupling(w);
    assert u == Uniform(3);
    SureFirst(a, u);
    var s0 := State(u, u);
    var s1 := Update(a, s0, 0);
    assert s1 == s0;
    var s2 := Update(a, s1, 1);
    NudgeBounded(a, s2.q, 2);
    SureSecond(a, s2.q);
    assert ClampFires(a, s2, 2);
    assert SweepClamps(a, s2, 2);
    assert SweepClamps(a, s1, 1);
    assert SweepClamps(a, s0, 0);
    DistributionIffNoClamp(w);
  }

  // ---------------------------------------------------------------- the code

  /** `r_flat[i*K+j]`. */
  function Cell(K: int, r: seq<real>, i: int, j: int): real {
    if 0 <= i * K + j < |r| then r[i * K + j] else 0.0
  }

  function PairMatrix(K: nat, r: seq<real>): (w: Mat)
    ensures |w| == K && forall i :: 0 <= i < K ==> |w[i]| == K
  {
    seq(K, i => seq(K, j => Cell(K, r, i, j)))
  }

  lemma CellInRange(K: nat, i: int, j: int)
    requires 0 <= i < K && 0 <= j < K
    ensures 0 <= i * K + j < K * K
  {
    assert i * K <= (K - 1) * K;
  }

  method ReadPair(K: nat, rFlat: array<real>, ghost w: Mat, i: int, j: int) returns (v: real)
    requires rFlat.Length == K * K && w == PairMatrix(K, rFlat[..]) && 0 <= i < K && 0 <= j < K
    ensures v == Entry(w, i, j)
  {
    CellInRange(K, i, j);
    v := rFlat[i * K + j];
    assert w[i][j] == Cell(K, rFlat[..], i, j);
  }

  /** The first `rows` rows of the array are those of `a`. */
  ghost predicate HoldsRows(q: array2<real>, a: Mat, rows: int)
    reads q
  {
    q.Length0 == q.Length1 == |a| && 0 <= rows <= |a| &&
    forall i, j :: 0 <= i < rows && 0 <= j < |a| ==> q[i, j] == Entry(a, i, j)
  }

  /** Lines 150-158. */
  method BuildQ(K: nat, rFlat: array<real>) returns (q: array2<real>)
    requires rFlat.Length == K * K
    ensures fresh(q) && HoldsRows(q, QMatrix(PairMatrix(K, rFlat[..])), K)
  {
    ghost var w := PairMatrix(K, rFlat[..]);
    ghost var a := QMatrix(w);
    q := new real[K, K]((i, j) => 0.0);
    var t := 0;
    while t < K
      invariant 0 <= t <= K && HoldsRows(q, a, t)
      invariant t < K ==> q[t, t] == 0.0
      invariant forall i :: t <= i < K ==> q[i, i] == 0.0
    {
      BuildRow(K, rFlat, q, t, w);
      t := t + 1;
    }
  }

  method BuildRow(K: nat, rFlat: array<real>, q: array2<real>, t: nat, ghost w: Mat)
    requires rFlat.Length == K * K && w == PairMatrix(K, rFlat[..]) && t < K
    requires HoldsRows(q, QMatrix(w), t) && q[t, t] == 0.0
    modifies q
    ensures HoldsRows(q, QMatrix(w), t + 1)
    ensures forall i :: t < i < K ==> q[i, i] == old(q[i, i])
  {
    hide Times, QMatrix, PairMatrix;
    ghost var a := QMatrix(w);
    ghost var f := k => SquareTerm(w, t, k);
    var j := 0;
    while j < t
      invariant 0 <= j <= t && HoldsRows(q, a, t)
      invariant q[t, t] == Sum(j, f)
      invariant forall i :: 0 <= i < j ==> q[t, i] == Entry(a, t, i)
      invariant forall i :: t < i < K ==> q[i, i] == old(q[i, i])
    {
      var v := ReadPair(K, rFlat, w, j, t);
      TimesCommutes(Entry(w, j, t), Entry(w, t, j));
      q[t, t] := q[t, t] + Times(v, v);
      q[t, j] := q[j, t];
      j := j + 1;
    }
    j := t + 1;
    while j < K
      invariant t < j <= K && HoldsRows(q, a, t)
      invariant q[t, t] == Sum(j, f)
      invariant forall i :: 0 <= i < j && i != t ==> q[t, i] == Entry(a, t, i)
      invariant forall i :: t < i < K ==> q[i, i] == old(q[i, i])
    {
      var v := ReadPair(K, rFlat, w, j, t);
      var u := ReadPair(K, rFlat, w, t, j);
      q[t, t] := q[t, t] + Times(v, v);
      q[t, j] := -Times(v, u);
      j := j + 1;
    }
  }

  /** `Qp` and `pQp` describe `x`. */
  ghost predicate Tracks(qp: array<real>, pQp: real, a: Mat, x: Vec)
    reads qp
  {
    qp.Length == |a| && pQp == Quad(a, x) && forall i :: 0 <= i < |a| ==> qp[i] == RowTimes(a, i, x)
  }

  /** Lines 167-168: one row of `Qp`. */
  method RefreshRow(q: array2<real>, p: array<real>, qp: array<real>, t: nat, ghost a: Mat)
    requires HoldsRows(q, a, |a|) && p.Length == qp.Length == |a| && p != qp && t < |a|
    modifies qp
    ensures qp[t] == RowTimes(a, t, p[..])
    ensures forall i :: 0 <= i < |a| && i != t ==> qp[i] == old(qp[i])
  {
    hide Times;
    ghost var x := p[..];
    ghost var inner := k => Times(Entry(a, t, k), At(x, k));
    qp[t] := 0.0;
    var j := 0;
    while j < p.Length
      invariant 0 <= j <= p.Length && p[..] == x
      invariant qp[t] == Sum(j, inner)
      invariant forall i :: 0 <= i < |a| && i != t ==> qp[i] == old(qp[i])
    {
      qp[t] := qp[t] + Times(q[t, j], p[j]);
      j := j + 1;
    }
  }

  /** Lines 165-170: `Qp` and `pQp` from scratch. */
  method Refresh(q: array2<real>, p: array<real>, qp: array<real>, ghost a: Mat) returns (pQp: real)
    requires HoldsRows(q, a, |a|) && p.Length == qp.Length == |a| && p != qp
    modifies qp
    ensures Tracks(qp, pQp, a, p[..])
  {
    hide Times, RowTimes, HoldsRows;
    ghost var x := p[..];
    ghost var outer := i => Times(At(x, i), RowTimes(a, i, x));
    pQp := 0.0;
    var t := 0;
    while t < p.Length
      invariant 0 <= t <= p.Length && p[..] == x
      invariant pQp == Sum(t, outer)
      invariant forall i :: 0 <= i < t ==> qp[i] == RowTimes(a, i, x)
    {
      RefreshRow(q, p, qp, t, a);
      pQp := pQp + Times(p[t], qp[t]);
      t := t + 1;
    }
  }

  /** Lines 171-176: the stopping test. */
  method WithinTolerance(qp: array<real>, pQp: real, eps: real, ghost a: Mat, ghost x: Vec) returns (stop: bool)
    requires Tracks(qp, pQp, a, x) && eps > 0.0
    ensures stop <==> Converged(a, x, eps)
  {
    hide RowTimes, Quad;
    var maxErr := 0.0;
    var t := 0;
    while t < qp.Length
      invariant 0 <= t <= qp.Length
      invariant maxErr < eps <==> forall i :: 0 <= i < t ==> -eps < RowTimes(a, i, x) - pQp < eps
    {
      var e := if qp[t] - pQp >= 0.0 then qp[t] - pQp else -(qp[t] - pQp);
      assert e < eps <==> -eps < RowTimes(a, t, x) - pQp < eps;
      if e > maxErr { maxErr := e; }
      t := t + 1;
    }
    stop := maxErr < eps;
  }

  /** Lines 183-186: renormalise `Qp` and `p` after coordinate `t` moved by `diff`. */
  method Rescale(q: array2<real>, p: array<real>, qp: array<real>, t: nat, diff: real, ghost a: Mat, ghost s: State)
    requires Matches(a, s) && t < |a| && HoldsRows(q, a, |a|) && 1.0 + diff > 0.0
    requires p.Length == |a| && p != qp && p[..] == s.p[t := s.p[t] + diff]
    requires qp.Length == |a| && forall i :: 0 <= i < |a| ==> qp[i] == RowTimes(a, i, s.q)
    modifies p, qp
    ensures p[..] == Moved(s.p, t, diff)
    ensures forall i :: 0 <= i < |a| ==> qp[i] == RowTimes(a, i, Moved(s.q, t, diff))
  {
    hide RowTimes, Coupling, Moved;
    var j := 0;
    while j < p.Length
      invariant 0 <= j <= p.Length
      invariant forall i :: 0 <= i < j ==> p[i] == Moved(s.p, t, diff)[i]
      invariant forall i :: j <= i < |a| ==> p[i] == s.p[t := s.p[t] + diff][i]
      invariant forall i :: 0 <= i < j ==> qp[i] == RowTimes(a, i, Moved(s.q, t, diff))
      invariant forall i :: j <= i < |a| ==> qp[i] == RowTimes(a, i, s.q)
    {
      MovedEntry(s.p, t, diff, j);
      var row, share := qp[j], q[t, j];
      MovedRow(a, j, s.q, t, diff, row, share);
      qp[j] := (row + diff * share) / (1.0 + diff);
      p[j] := p[j] / (1.0 + diff);
      j := j + 1;
    }
  }

  lemma MovedEntry(x: Vec, t: nat, d: real, i: nat)
    requires 1.0 + d > 0.0 && t < |x| && i < |x|
    ensures Moved(x, t, d)[i] == x[t := x[t] + d][i] / (1.0 + d)
  {
  }

  /** Lines 179-187: one coordinate, with `Qp` and `pQp` updated incrementally. */
  method UpdateCoordinate(q: array2<real>, p: array<real>, qp: array<real>, pQp: real, t: nat,
                          ghost a: Mat, ghost s: State) returns (pQp': real)
    requires Matches(a, s) && t < |a| && HoldsRows(q, a, |a|)
    requires p.Length == |a| && p[..] == s.p && Tracks(qp, pQp, a, s.q) && p != qp
    modifies p, qp
    ensures p[..] == Update(a, s, t).p && Tracks(qp, pQp', a, Update(a, s, t).q)
  {
    hide RowTimes, Quad, Coupling, Moved;
    DiagonalPositive(a, t);
    var row, diagonal := qp[t], q[t, t];
    assert row == RowTimes(a, t, s.q) && diagonal == Entry(a, t, t);
    var diff := (-row + pQp) / diagonal;
    NudgeBounded(a, s.q, t);
    assert diff == Nudge(a, s.q, t);
    p[t] := p[t] + diff;
    pQp' := (pQp + diff * (diff * diagonal + 2.0 * row)) / (1.0 + diff) / (1.0 + diff);
    MovedQuad(a, s.q, t, diff, pQp, row, diagonal);
    Rescale(q, p, qp, t, diff, a, s);
    if p[t] < 0.0000001 { p[t] := 0.0000001; }
    assert p[..] == Clamped(Moved(s.p, t, diff), t);
  }

  lemma DiagonalPositive(a: Mat, t: nat)
    requires Coupling(a) && t < |a|
    ensures Entry(a, t, t) > 0.0
  {
  }

  /** `multiclass_probability`. */
  method MulticlassProbability(K: nat, rFlat: array<real>, p: array<real>)
    requires K >= 2 && rFlat.Length == K * K && p.Length == K && rFlat != p
    requires PairsPositive(PairMatrix(K, rFlat[..]))
    modifies p
    ensures p[..] == Coupled(PairMatrix(K, old(rFlat[..])))
  {
    hide Coupling, Converged, Quad, RowTimes, PairsPositive, Update, HoldsRows, QMatrix, PairMatrix;
    var maxIter := if K > 100 then K else 100;
    var eps := 0.005 / (K as real);
    ToleranceScaled(K);
    ghost var w := PairMatrix(K, rFlat[..]);
    ghost var a := QMatrix(w);
    QIsCoupling(w);
    var q := BuildQ(K, rFlat);
    StartUniform(K, p);
    var qp := new real[K];
    var iter := 0;
    while iter < maxIter
      invariant 0 <= iter <= maxIter && HoldsRows(q, a, K)
      invariant Iterate(a, p[..], eps, maxIter - iter) == Coupled(w)
    {
      var pQp := Refresh(q, p, qp, a);
      var stop := WithinTolerance(qp, pQp, eps, a, p[..]);
      if stop { break; }
      ghost var s := State(p[..], p[..]);
      ghost var s0 := s;
      var t := 0;
      while t < K
        invariant 0 <= t <= K && HoldsRows(q, a, K) && Matches(a, s)
        invariant p[..] == s.p && Tracks(qp, pQp, a, s.q)
        invariant Sweep(a, s, t) == Sweep(a, s0, 0)
      {
        pQp := UpdateCoordinate(q, p, qp, pQp, t, a, s);
        s := Update(a, s, t);
        t := t + 1;
      }
      iter := iter + 1;
    }
  }

  /** Line 160. */
  method StartUniform(K: nat, p: array<real>)
    requires K > 0 && p.Length == K
    modifies p
    ensures p[..] == Uniform(K)
  {
    var t := 0;
    while t < K
      invariant 0 <= t <= K
      invariant forall i :: 0 <= i < t ==> p[i] == 1.0 / (K as real)
    {
      p[t] := 1.0 / (K as real);
      t := t + 1;
    }
  }

  // ---------------------------------------------------------------- the pairs of one sample

  /** An estimate that the clamp of line 234 lets through. */
  predicate InRange(v: real) {
    0.0000001 <= v <= 0.9999999
  }

  /** The estimate for a pair, kept off 0 and 1: itself where it is in range, and the nearer end where it is not. */
  function ClampPair(v: real): (r: real)
    ensures 0.0 < r < 1.0
    ensures InRange(v) ==> r == v
    ensures v < 0.0000001 ==> r == 0.0000001
    ensures v > 0.9999999 ==> r == 0.9999999
  {
    var low := if v > 0.0000001 then v else 0.0000001;
    if low < 0.9999999 then low else 0.9999999
  }

  /** Class i against class j: the estimate of the pair, or what it leaves. */
  function Paired(raw: (nat, nat) -> real, i: nat, j: nat): real {
    if i < j then ClampPair(raw(i, j)) else 1.0 - ClampPair(raw(j, i))
  }

  lemma RowsApart(K: nat, i: nat, j: nat, a: nat)
    requires i < a && j < K
    ensures i * K + j < a * K
  {
    assert (a - i - 1) * K >= 0 && a * K == i * K + K + (a - i - 1) * K;
  }

  /** Flat positions of different cells differ. */
  lemma CellsApart(K: nat, i: nat, j: nat, a: nat, b: nat)
    requires i < K && j < K && a < K && b < K && i * K + j == a * K + b
    ensures i == a && j == b
  {
    if i < a { RowsApart(K, i, j, a); }
    if a < i { RowsApart(K, a, b, i); }
  }

  method WritePair(K: nat, rFlat: array<real>, a: nat, b: nat, v: real)
    requires rFlat.Length == K * K && a < K && b < K
    modifies rFlat
    ensures forall i: nat, j: nat :: i < K && j < K ==>
      Cell(K, rFlat[..], i, j) == if i == a && j == b then v else old(Cell(K, rFlat[..], i, j))
  {
    CellInRange(K, a, b);
    rFlat[a * K + b] := v;
    forall i: nat, j: nat | i < K && j < K
      ensures Cell(K, rFlat[..], i, j) == if i == a && j == b then v else old(Cell(K, rFlat[..], i, j))
    {
      CellInRange(K, i, j);
      if i * K + j == a * K + b { CellsApart(K, i, j, a, b); }
    }
  }

  /** Pair (i, j) and its mirror image have been written. */
  predicate Written(i: nat, j: nat, ci: nat, cj: nat) {
    var (lo, hi) := if i < j then (i, j) else (j, i);
    lo < hi && (lo < ci || (lo == ci && hi < cj))
  }

  /** Lines 214 to 238 for one sample. */
  method FillPairs(K: nat, raw: (nat, nat) -> real, rFlat: array<real>)
    requires rFlat.Length == K * K
    modifies rFlat
    ensures forall i: nat, j: nat :: i < K && j < K && i != j ==> Cell(K, rFlat[..], i, j) == Paired(raw, i, j)
    ensures forall i: nat, j: nat :: i < j < K && InRange(raw(i, j)) ==>
      Cell(K, rFlat[..], i, j) == raw(i, j) && Cell(K, rFlat[..], j, i) == 1.0 - raw(i, j)
  {
    hide Cell, Paired;
    var ci := 0;
    while ci < K
      invariant 0 <= ci <= K
      invariant forall i: nat, j: nat :: i < K && j < K && Written(i, j, ci, ci + 1) ==> Cell(K, rFlat[..], i, j) == Paired(raw, i, j)
    {
      var cj := ci + 1;
      while cj < K
        invariant ci < cj <= K
        invariant forall i: nat, j: nat :: i < K && j < K && Written(i, j, ci, cj) ==> Cell(K, rFlat[..], i, j) == Paired(raw, i, j)
      {
        var rij := ClampPair(raw(ci, cj));
        PairOf(raw, ci, cj);
        WritePair(K, rFlat, ci, cj, rij);
        WritePair(K, rFlat, cj, ci, 1.0 - rij);
        cj := cj + 1;
      }
      ci := ci + 1;
    }
    forall i: nat, j: nat | i < j < K && InRange(raw(i, j))
      ensures Cell(K, rFlat[..], i, j) == raw(i, j) && Cell(K, rFlat[..], j, i) == 1.0 - raw(i, j)
    {
      PairOf(raw, i, j);
    }
  }

  lemma PairOf(raw: (nat, nat) -> real, i: nat, j: nat)
    requires i < j
    ensures Paired(raw, i, j) == ClampPair(raw(i, j)) && Paired(raw, j, i) == 1.0 - ClampPair(raw(i, j))
  {
  }

  lemma FilledPositive(K: nat, raw: (nat, nat) -> real, r: seq<real>)
    requires forall i: nat, j: nat :: i < K && j < K && i != j ==> Cell(K, r, i, j) == Paired(raw, i, j)
    ensures PairsPositive(PairMatrix(K, r))
  {
    var w := PairMatrix(K, r);
    forall i, j | 0 <= i < K && 0 <= j < K && i != j ensures Entry(w, i, j) > 0.0 {
      assert w[i][j] == Cell(K, r, i, j);
    }
  }

  /** The estimates are in range and say of each pair what the one distribution x says. */
  ghost predicate DrawnFrom(K: nat, raw: (nat, nat) -> real, x: Vec) {
    && |x| == K && Nonneg(x) && Total(x) == 1.0
    && forall i: nat, j: nat :: i < j < K ==> InRange(raw(i, j)) && raw(i, j) * (x[i] + x[j]) == x[i]
  }

  lemma PairExplained(u: real, v: real, x: real, y: real)
    requires u * (x + y) == x && v == 1.0 - u
    ensures v * (y + x) == y && u + v == 1.0
  {
    assert v * (y + x) == (x + y) - u * (x + y);
  }

  /** Estimates drawn from one distribution are recovered: a converged run without a clamp explains them to within
      0.04/K. */
  lemma EstimatesRecovered(K: nat, raw: (nat, nat) -> real, r: seq<real>, x: Vec)
    requires K >= 2 && |r| == K * K && DrawnFrom(K, raw, x)
    requires forall i: nat, j: nat :: i < K && j < K && i != j ==> Cell(K, r, i, j) == Paired(raw, i, j)
    requires PairsPositive(PairMatrix(K, r)) && !RunClamps(PairMatrix(K, r))
    requires Converged(QMatrix(PairMatrix(K, r)), Coupled(PairMatrix(K, r)), Tolerance(K))
    ensures Disagreement(PairMatrix(K, r), Coupled(PairMatrix(K, r))) <= 0.04 / (K as real)
  {
    hide Converged, RunClamps, Coupled, Disagreement, PairsPositive, QMatrix, Cell, Nonneg, Total;
    var w := PairMatrix(K, r);
    forall i, j | 0 <= i < K && 0 <= j < K && i != j ensures Explains(w, x, i, j) {
      assert Entry(w, i, j) == Cell(K, r, i, j) && Entry(w, j, i) == Cell(K, r, j, i);
      if i < j {
        PairOf(raw, i, j);
        PairExplained(raw(i, j), 1.0 - raw(i, j), x[i], x[j]);
      } else {
        PairOf(raw, j, i);
        PairExplained(raw(j, i), 1.0 - raw(j, i), x[j], x[i]);
      }
    }
    ConsistentPairsRecovered(w, x);
  }

  /** One sample with two or more classes: whatever the pairwise estimates, the result is the coupled vector,
      never negative, and sums to 1 unless the clamp of the iteration raised it. */
  method ClassProbabilities(K: nat, raw: (nat, nat) -> real, rFlat: array<real>, p: array<real>)
    requires K >= 2 && rFlat.Length == K * K && p.Length == K && rFlat != p
    modifies rFlat, p
    ensures PairsPositive(PairMatrix(K, rFlat[..])) && p[..] == Coupled(PairMatrix(K, rFlat[..]))
    ensures Nonneg(p[..]) && Total(p[..]) >= 1.0
    ensures Total(p[..]) == 1.0 <==> !RunClamps(PairMatrix(K, rFlat[..]))
    ensures forall i: nat, j: nat :: i < j < K && InRange(raw(i, j)) ==>
      Cell(K, rFlat[..], i, j) == raw(i, j) && Cell(K, rFlat[..], j, i) == 1.0 - raw(i, j)
    ensures Total(p[..]) == 1.0 && Converged(QMatrix(PairMatrix(K, rFlat[..])), p[..], 0.005 / (K as real)) ==>
      forall x :: DrawnFrom(K, raw, x) ==> Disagreement(PairMatrix(K, rFlat[..]), p[..]) <= 0.04 / (K as real)
  {
    hide Coupled, RunClamps, PairsPositive, Nonneg, Total, PairMatrix, Cell, Paired, DrawnFrom, Disagreement, Converged, QMatrix;
    FillPairs(K, raw, rFlat);
    FilledPositive(K, raw, rFlat[..]);
    ghost var r := rFlat[..];
    MulticlassProbability(K, rFlat, p);
    assert rFlat[..] == r;
    DistributionIffNoClamp(PairMatrix(K, r));
    forall x | DrawnFrom(K, raw, x) && Total(p[..]) == 1.0 && Converged(QMatrix(PairMatrix(K, r)), p[..], 0.005 / (K as real))
      ensures Disagreement(PairMatrix(K, r), p[..]) <= 0.04 / (K as real)
    {
      EstimatesRecovered(K, raw, r, x);
    }
  }
}
