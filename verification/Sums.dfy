/** Finite sums over the reals, the vectors and matrices built from them, and the few laws
    the numeric kernels need.  Products inside sums are written `Times`, so that proofs about
    sums can hide multiplication and use its laws one at a time. */
module Sums {

  type Vec = seq<real>
  type Mat = seq<seq<real>>

  function Times(a: real, b: real): real {
    a * b
  }

  lemma TimesCommutes(a: real, b: real)
    ensures Times(a, b) == Times(b, a)
  {
  }

  lemma TimesAssociates(a: real, b: real, c: real)
    ensures Times(a, Times(b, c)) == Times(Times(a, b), c)
  {
  }

  lemma TimesAdds(a: real, b: real, c: real)
    ensures Times(a, b + c) == Times(a, b) + Times(a, c)
  {
  }

  lemma TimesPositive(a: real, b: real)
    requires a > 0.0 && b > 0.0
    ensures Times(a, b) > 0.0
  {
  }

  /** `a * (c u + d v)` by parts. */
  lemma TimesCombination(a: real, c: real, u: real, d: real, v: real)
    ensures Times(a, Times(c, u) + Times(d, v)) == Times(c, Times(a, u)) + Times(d, Times(a, v))
  {
    TimesAdds(a, Times(c, u), Times(d, v));
    TimesAssociates(a, c, u);
    TimesCommutes(a, c);
    TimesAssociates(c, a, u);
    TimesAssociates(a, d, v);
    TimesCommutes(a, d);
    TimesAssociates(d, a, v);
  }

  // ---------------------------------------------------------------- sums

  ghost function Sum(n: nat, f: int -> real): real {
    if n == 0 then 0.0 else Sum(n - 1, f) + f(n - 1)
  }

  lemma {:induction false} SumLinear(n: nat, c: real, f: int -> real, d: real, g: int -> real, h: int -> real)
    requires forall i :: 0 <= i < n ==> h(i) == Times(c, f(i)) + Times(d, g(i))
    ensures Sum(n, h) == Times(c, Sum(n, f)) + Times(d, Sum(n, g))
  {
    if n > 0 {
      SumLinear(n - 1, c, f, d, g, h);
      TimesAdds(c, Sum(n - 1, f), f(n - 1));
      TimesAdds(d, Sum(n - 1, g), g(n - 1));
    }
  }

  lemma {:induction false} SumScaled(n: nat, c: real, f: int -> real, h: int -> real)
    requires forall i :: 0 <= i < n ==> h(i) == Times(c, f(i))
    ensures Sum(n, h) == Times(c, Sum(n, f))
  {
    if n > 0 {
      SumScaled(n - 1, c, f, h);
      TimesAdds(c, Sum(n - 1, f), f(n - 1));
    }
  }

  lemma {:induction false} SumPlus(n: nat, f: int -> real, g: int -> real, h: int -> real)
    requires forall i :: 0 <= i < n ==> h(i) == f(i) + g(i)
    ensures Sum(n, h) == Sum(n, f) + Sum(n, g)
  {
    if n > 0 {
      SumPlus(n - 1, f, g, h);
    }
  }

  lemma {:induction false} SumSame(n: nat, f: int -> real, g: int -> real)
    requires forall i :: 0 <= i < n ==> f(i) == g(i)
    ensures Sum(n, f) == Sum(n, g)
  {
    if n > 0 {
      SumSame(n - 1, f, g);
    }
  }

  lemma {:induction false} SumMonotone(n: nat, f: int -> real, g: int -> real)
    requires forall i :: 0 <= i < n ==> f(i) <= g(i)
    ensures Sum(n, f) <= Sum(n, g)
    ensures (exists i :: 0 <= i < n && f(i) < g(i)) ==> Sum(n, f) < Sum(n, g)
  {
    if n > 0 {
      SumMonotone(n - 1, f, g);
    }
  }

  lemma {:induction false} SumZero(n: nat, f: int -> real)
    requires forall i :: 0 <= i < n ==> f(i) == 0.0
    ensures Sum(n, f) == 0.0
  {
    if n > 0 {
      SumZero(n - 1, f);
    }
  }

  lemma {:induction false} SumOnes(n: nat, one: int -> real)
    requires forall i :: 0 <= i < n ==> one(i) == 1.0
    ensures Sum(n, one) == n as real
  {
    if n > 0 { SumOnes(n - 1, one); }
  }

  lemma SumNonneg(n: nat, f: int -> real)
    requires forall i :: 0 <= i < n ==> f(i) >= 0.0
    ensures Sum(n, f) >= 0.0
    ensures (exists i :: 0 <= i < n && f(i) > 0.0) ==> Sum(n, f) > 0.0
  {
    var zero := (i: int) => 0.0;
    SumZero(n, zero);
    SumMonotone(n, zero, f);
    if i :| 0 <= i < n && f(i) > 0.0 {
      assert zero(i) < f(i);
    }
  }

  /** Changing one term by `d` changes the sum by `d`. */
  lemma {:induction false} SumChangeOne(n: nat, f: int -> real, g: int -> real, t: nat, d: real)
    requires t < n
    requires forall i :: 0 <= i < n ==> g(i) == if i == t then f(i) + d else f(i)
    ensures Sum(n, g) == Sum(n, f) + d
  {
    if t == n - 1 {
      SumSame(n - 1, f, g);
    } else {
      SumChangeOne(n - 1, f, g, t, d);
    }
  }

  /** Summing by rows or by columns is the same. */
  lemma {:induction false} SumSwap(n: nat, m: nat, f: (int, int) -> real)
    ensures Sum(n, i => Sum(m, j => f(i, j))) == Sum(m, j => Sum(n, i => f(i, j)))
  {
    if n == 0 {
      SumZero(m, j => Sum(n, i => f(i, j)));
    } else {
      SumSwap(n - 1, m, f);
      SumPlus(m, j => Sum(n - 1, i => f(i, j)), j => f(n - 1, j), j => Sum(n, i => f(i, j)));
    }
  }

  // ---------------------------------------------------------------- vectors and matrices

  /** Entry `i`, zero outside. */
  ghost function At(x: Vec, i: int): real {
    if 0 <= i < |x| then x[i] else 0.0
  }

  ghost function Entry(a: Mat, i: int, j: int): real {
    if 0 <= i < |a| then At(a[i], j) else 0.0
  }

  ghost predicate IsMat(a: Mat, rows: nat, cols: nat) {
    |a| == rows && forall i :: 0 <= i < rows ==> |a[i]| == cols
  }

  ghost predicate Symmetric(a: Mat) {
    forall i, j :: Entry(a, i, j) == Entry(a, j, i)
  }

  ghost function Total(x: Vec): real {
    Sum(|x|, i => At(x, i))
  }

  /** Row `i` of `a` times `x`. */
  ghost function RowTimes(a: Mat, i: int, x: Vec): real {
    Sum(|x|, j => Times(Entry(a, i, j), At(x, j)))
  }

  /** The bilinear form `x' a y`. */
  ghost function Form(a: Mat, x: Vec, y: Vec): real {
    Sum(|x|, i => Times(At(x, i), RowTimes(a, i, y)))
  }

  ghost function Quad(a: Mat, x: Vec): real {
    Form(a, x, x)
  }

  /** `c * x + d * y`. */
  ghost function Combine(c: real, x: Vec, d: real, y: Vec): (z: Vec)
    requires |x| == |y|
    ensures |z| == |x| && forall i :: 0 <= i < |x| ==> At(z, i) == Times(c, At(x, i)) + Times(d, At(y, i))
  {
    seq(|x|, i => Times(c, At(x, i)) + Times(d, At(y, i)))
  }

  ghost function Unit(n: nat, t: int): (e: Vec)
    ensures |e| == n && forall i :: 0 <= i < n ==> At(e, i) == if i == t then 1.0 else 0.0
  {
    seq(n, i => if i == t then 1.0 else 0.0)
  }

  lemma RowTimesLinear(a: Mat, i: int, c: real, x: Vec, d: real, y: Vec)
    requires |x| == |y|
    ensures RowTimes(a, i, Combine(c, x, d, y)) == Times(c, RowTimes(a, i, x)) + Times(d, RowTimes(a, i, y))
  {
    hide Times, Combine;
    var z := Combine(c, x, d, y);
    forall j | 0 <= j < |x|
      ensures Times(Entry(a, i, j), At(z, j))
           == Times(c, Times(Entry(a, i, j), At(x, j))) + Times(d, Times(Entry(a, i, j), At(y, j)))
    {
      TimesCombination(Entry(a, i, j), c, At(x, j), d, At(y, j));
    }
    SumLinear(|x|, c, j => Times(Entry(a, i, j), At(x, j)), d, j => Times(Entry(a, i, j), At(y, j)),
              j => Times(Entry(a, i, j), At(z, j)));
  }

  lemma RowTimesUnit(a: Mat, i: int, n: nat, t: nat)
    requires t < n
    ensures RowTimes(a, i, Unit(n, t)) == Entry(a, i, t)
  {
    var zero := (j: int) => 0.0;
    SumZero(n, zero);
    SumChangeOne(n, zero, j => Times(Entry(a, i, j), At(Unit(n, t), j)), t, Entry(a, i, t));
  }

  lemma FormUnit(a: Mat, n: nat, t: nat, y: Vec)
    requires t < n
    ensures Form(a, Unit(n, t), y) == RowTimes(a, t, y)
  {
    hide RowTimes;
    var zero := (j: int) => 0.0;
    SumZero(n, zero);
    SumChangeOne(n, zero, i => Times(At(Unit(n, t), i), RowTimes(a, i, y)), t, RowTimes(a, t, y));
  }

  lemma FormLinear(a: Mat, x: Vec, c: real, y: Vec, d: real, z: Vec)
    requires |x| == |y| == |z|
    ensures Form(a, x, Combine(c, y, d, z)) == Times(c, Form(a, x, y)) + Times(d, Form(a, x, z))
  {
    hide Times, Combine, RowTimes;
    var w := Combine(c, y, d, z);
    forall i | 0 <= i < |x|
      ensures Times(At(x, i), RowTimes(a, i, w))
           == Times(c, Times(At(x, i), RowTimes(a, i, y))) + Times(d, Times(At(x, i), RowTimes(a, i, z)))
    {
      RowTimesLinear(a, i, c, y, d, z);
      TimesCombination(At(x, i), c, RowTimes(a, i, y), d, RowTimes(a, i, z));
    }
    SumLinear(|x|, c, i => Times(At(x, i), RowTimes(a, i, y)), d, i => Times(At(x, i), RowTimes(a, i, z)),
              i => Times(At(x, i), RowTimes(a, i, w)));
  }

  ghost function FormTerm(a: Mat, x: Vec, y: Vec, i: int, j: int): real {
    Times(At(x, i), Times(Entry(a, i, j), At(y, j)))
  }

  lemma FormByTerms(a: Mat, x: Vec, y: Vec)
    ensures Form(a, x, y) == Sum(|x|, i => Sum(|y|, j => FormTerm(a, x, y, i, j)))
  {
    hide Times;
    forall i | 0 <= i < |x|
      ensures Times(At(x, i), RowTimes(a, i, y)) == Sum(|y|, j => FormTerm(a, x, y, i, j))
    {
      SumScaled(|y|, At(x, i), j => Times(Entry(a, i, j), At(y, j)), j => FormTerm(a, x, y, i, j));
    }
    SumSame(|x|, i => Times(At(x, i), RowTimes(a, i, y)), i => Sum(|y|, j => FormTerm(a, x, y, i, j)));
  }

  lemma FormSymmetric(a: Mat, x: Vec, y: Vec)
    requires Symmetric(a) && |x| == |y|
    ensures Form(a, x, y) == Form(a, y, x)
  {
    hide FormTerm, Form;
    var n := |x|;
    FormByTerms(a, x, y);
    FormByTerms(a, y, x);
    var f := (i: int, j: int) => FormTerm(a, x, y, i, j);
    SumSwap(n, n, f);
    var rows, cols := k => Sum(n, j => f(k, j)), k => Sum(n, j => f(j, k));
    var forward, backward := k => Sum(n, j => FormTerm(a, x, y, k, j)), k => Sum(n, j => FormTerm(a, y, x, k, j));
    forall i
      ensures rows(i) == forward(i) && cols(i) == backward(i)
    {
      SumSame(n, j => f(i, j), j => FormTerm(a, x, y, i, j));
      forall j ensures f(j, i) == FormTerm(a, y, x, i, j) {
        FormTermSwaps(a, x, y, j, i);
      }
      SumSame(n, j => f(j, i), j => FormTerm(a, y, x, i, j));
    }
    SumSame(n, rows, forward);
    SumSame(n, cols, backward);
  }

  lemma FormTermSwaps(a: Mat, x: Vec, y: Vec, i: int, j: int)
    requires Symmetric(a)
    ensures FormTerm(a, x, y, i, j) == FormTerm(a, y, x, j, i)
  {
    assert Entry(a, i, j) == Entry(a, j, i);
  }

  /** The quadratic form along a line. */
  lemma QuadAlong(a: Mat, x: Vec, c: real, d: real, y: Vec)
    requires Symmetric(a) && |x| == |y|
    ensures Quad(a, Combine(c, x, d, y)) == c * c * Quad(a, x) + 2.0 * c * d * Form(a, y, x) + d * d * Quad(a, y)
  {
    hide Form, Combine;
    var z := Combine(c, x, d, y);
    FormLinear(a, z, c, x, d, y);
    FormSymmetric(a, z, x);
    FormSymmetric(a, z, y);
    FormLinear(a, x, c, x, d, y);
    FormLinear(a, y, c, x, d, y);
    FormSymmetric(a, x, y);
    LineAlgebra(c, d, Form(a, x, x), Form(a, y, x), Form(a, y, y), Form(a, x, z), Form(a, y, z));
  }

  lemma LineAlgebra(c: real, d: real, xx: real, yx: real, yy: real, xz: real, yz: real)
    requires xz == Times(c, xx) + Times(d, yx) && yz == Times(c, yx) + Times(d, yy)
    ensures Times(c, xz) + Times(d, yz) == c * c * xx + 2.0 * c * d * yx + d * d * yy
  {
    assert c * xz == c * (c * xx) + c * (d * yx);
    assert d * yz == d * (c * yx) + d * (d * yy);
  }
}
