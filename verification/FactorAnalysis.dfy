/** `op_factor_analysis` of src/operator_registry.cpp over exact reals: Gauss-Jordan inversion with
    partial pivoting, and the projection built from the inverse. */
module FactorAnalysis {
  import opened Sums
  import opened Wrappers

  // ---------------------------------------------------------------- matrix products

  ghost function Delta(i: int, j: int): real {
    if i == j then 1.0 else 0.0
  }

  ghost function Identity(k: nat): (a: Mat)
    ensures IsMat(a, k, k)
    ensures forall i, j :: 0 <= i < k && 0 <= j < k ==> Entry(a, i, j) == Delta(i, j)
  {
    seq(k, i => seq(k, j => Delta(i, j)))
  }

  /** Entry (i, j) of `a b`. */
  ghost function Mul(k: nat, a: Mat, b: Mat, i: int, j: int): real {
    Sum(k, l => Times(Entry(a, i, l), Entry(b, l, j)))
  }

  /** `c == a b`. */
  ghost predicate IsProduct(k: nat, a: Mat, b: Mat, c: Mat) {
    IsMat(a, k, k) && IsMat(b, k, k) && IsMat(c, k, k) &&
    forall i, j :: 0 <= i < k && 0 <= j < k ==> Entry(c, i, j) == Mul(k, a, b, i, j)
  }

  /** `a` is a two-sided inverse of `b`. */
  ghost predicate IsInverse(k: nat, a: Mat, b: Mat) {
    IsProduct(k, a, b, Identity(k)) && IsProduct(k, b, a, Identity(k))
  }

  // ---------------------------------------------------------------- row operations

  ghost function ScaleRow(k: nat, x: Mat, c: nat, d: real): (y: Mat)
    requires IsMat(x, k, k) && c < k && d != 0.0
    ensures IsMat(y, k, k)
    ensures forall i, j :: 0 <= i < k && 0 <= j < k ==>
      Entry(y, i, j) == if i == c then Entry(x, c, j) / d else Entry(x, i, j)
  {
    x[c := seq(k, j => Entry(x, c, j) / d)]
  }

  ghost function SubtractRow(k: nat, x: Mat, r: nat, c: nat, f: real): (y: Mat)
    requires IsMat(x, k, k) && c < k && r < k
    ensures IsMat(y, k, k)
    ensures forall i, j :: 0 <= i < k && 0 <= j < k ==>
      Entry(y, i, j) == if i == r then Entry(x, r, j) - Times(f, Entry(x, c, j)) else Entry(x, i, j)
  {
    x[r := seq(k, j => Entry(x, r, j) - Times(f, Entry(x, c, j)))]
  }

  ghost function SwapRows(k: nat, x: Mat, c: nat, p: nat): (y: Mat)
    requires IsMat(x, k, k) && c < k && p < k
    ensures IsMat(y, k, k)
    ensures forall i, j :: 0 <= i < k && 0 <= j < k ==>
      Entry(y, i, j) == Entry(x, if i == c then p else if i == p then c else i, j)
  {
    x[c := x[p]][p := x[c]]
  }

  // The operations on the columns of the left factor that undo them.

  ghost function ScaleColumn(k: nat, x: Mat, c: nat, d: real): (y: Mat)
    requires IsMat(x, k, k) && c < k
    ensures IsMat(y, k, k)
    ensures forall i, j :: 0 <= i < k && 0 <= j < k ==>
      Entry(y, i, j) == if j == c then Times(Entry(x, i, c), d) else Entry(x, i, j)
  {
    seq(k, i => seq(k, j => if j == c then Times(Entry(x, i, c), d) else Entry(x, i, j)))
  }

  ghost function AddColumn(k: nat, x: Mat, c: nat, r: nat, f: real): (y: Mat)
    requires IsMat(x, k, k) && c < k && r < k
    ensures IsMat(y, k, k)
    ensures forall i, j :: 0 <= i < k && 0 <= j < k ==>
      Entry(y, i, j) == if j == c then Entry(x, i, c) + Times(f, Entry(x, i, r)) else Entry(x, i, j)
  {
    seq(k, i => seq(k, j => if j == c then Entry(x, i, c) + Times(f, Entry(x, i, r)) else Entry(x, i, j)))
  }

  ghost function SwapColumns(k: nat, x: Mat, c: nat, p: nat): (y: Mat)
    requires IsMat(x, k, k) && c < k && p < k
    ensures IsMat(y, k, k)
    ensures forall i, j :: 0 <= i < k && 0 <= j < k ==>
      Entry(y, i, j) == Entry(x, i, if j == c then p else if j == p then c else j)
  {
    seq(k, i => seq(k, j => Entry(x, i, if j == c then p else if j == p then c else j)))
  }

  // ---------------------------------------------------------------- what row operations keep

  /** One row operation and the column operation that undoes it. */
  datatype RowOp = Scale(c: nat, d: real) | Subtract(r: nat, c: nat, f: real) | Swap(c: nat, p: nat)

  ghost predicate Legal(k: nat, op: RowOp) {
    match op
    case Scale(c, d) => c < k && d != 0.0
    case Subtract(r, c, f) => r < k && c < k && r != c
    case Swap(c, p) => c < k && p < k && c != p
  }

  ghost function Rows(k: nat, x: Mat, op: RowOp): (y: Mat)
    requires IsMat(x, k, k) && Legal(k, op)
    ensures IsMat(y, k, k)
  {
    match op
    case Scale(c, d) => ScaleRow(k, x, c, d)
    case Subtract(r, c, f) => SubtractRow(k, x, r, c, f)
    case Swap(c, p) => SwapRows(k, x, c, p)
  }

  ghost function Columns(k: nat, x: Mat, op: RowOp): (y: Mat)
    requires IsMat(x, k, k) && Legal(k, op)
    ensures IsMat(y, k, k)
  {
    match op
    case Scale(c, d) => ScaleColumn(k, x, c, d)
    case Subtract(r, c, f) => AddColumn(k, x, c, r, f)
    case Swap(c, p) => SwapColumns(k, x, c, p)
  }

  /** The column operation undoes the row operation inside a product. */
  lemma UndoneInProduct(k: nat, l: Mat, x: Mat, x0: Mat, op: RowOp)
    requires IsProduct(k, l, x, x0) && Legal(k, op)
    ensures IsProduct(k, Columns(k, l, op), Rows(k, x, op), x0)
  {
    hide Mul, Columns, Rows;
    forall i, j | 0 <= i < k && 0 <= j < k
      ensures Entry(x0, i, j) == Mul(k, Columns(k, l, op), Rows(k, x, op), i, j)
    {
      match op
      case Scale(c, d) => UndoScale(k, l, x, c, d, i, j);
      case Subtract(r, c, f) => UndoSubtract(k, l, x, r, c, f, i, j);
      case Swap(c, p) => UndoSwap(k, l, x, c, p, i, j);
    }
  }

  lemma UndoScale(k: nat, l: Mat, x: Mat, c: nat, d: real, i: nat, j: nat)
    requires IsMat(l, k, k) && IsMat(x, k, k) && c < k && d != 0.0 && i < k && j < k
    ensures Mul(k, Columns(k, l, Scale(c, d)), Rows(k, x, Scale(c, d)), i, j) == Mul(k, l, x, i, j)
  {
    hide Times, ScaleRow, ScaleColumn;
    var l', x' := ScaleColumn(k, l, c, d), ScaleRow(k, x, c, d);
    ScaleCancels(Entry(l, i, c), d, Entry(x, c, j));
    SumSame(k, s => Times(Entry(l', i, s), Entry(x', s, j)), s => Times(Entry(l, i, s), Entry(x, s, j)));
  }

  lemma ScaleCancels(u: real, d: real, v: real)
    requires d != 0.0
    ensures Times(Times(u, d), v / d) == Times(u, v)
  {
    assert d * (v / d) == v;
    assert u * d * (v / d) == u * (d * (v / d));
  }

  lemma UndoSubtract(k: nat, l: Mat, x: Mat, r: nat, c: nat, f: real, i: nat, j: nat)
    requires IsMat(l, k, k) && IsMat(x, k, k) && c < k && r < k && c != r && i < k && j < k
    ensures Mul(k, Columns(k, l, Subtract(r, c, f)), Rows(k, x, Subtract(r, c, f)), i, j) == Mul(k, l, x, i, j)
  {
    hide Times, SubtractRow, AddColumn;
    var l', x' := AddColumn(k, l, c, r, f), SubtractRow(k, x, r, c, f);
    var before, middle := s => Times(Entry(l, i, s), Entry(x, s, j)), s => Times(Entry(l, i, s), Entry(x', s, j));
    var e := Times(Entry(l, i, r), Times(f, Entry(x, c, j)));
    TimesMinus(Entry(l, i, r), Entry(x, r, j), Times(f, Entry(x, c, j)));
    SumChangeOne(k, before, middle, r, -e);
    TimesCommutes(Entry(l, i, c) + Times(f, Entry(l, i, r)), Entry(x, c, j));
    TimesAdds(Entry(x, c, j), Entry(l, i, c), Times(f, Entry(l, i, r)));
    TimesCommutes(Entry(l, i, c), Entry(x, c, j));
    TimesRotates(Entry(l, i, r), f, Entry(x, c, j));
    SumChangeOne(k, middle, s => Times(Entry(l', i, s), Entry(x', s, j)), c, e);
  }

  lemma TimesMinus(u: real, a: real, b: real)
    ensures Times(u, a - b) == Times(u, a) + -Times(u, b)
  {
  }

  lemma TimesRotates(u: real, f: real, v: real)
    ensures Times(u, Times(f, v)) == Times(v, Times(f, u))
  {
  }

  lemma UndoSwap(k: nat, l: Mat, x: Mat, c: nat, p: nat, i: nat, j: nat)
    requires IsMat(l, k, k) && IsMat(x, k, k) && c < k && p < k && c != p && i < k && j < k
    ensures Mul(k, Columns(k, l, Swap(c, p)), Rows(k, x, Swap(c, p)), i, j) == Mul(k, l, x, i, j)
  {
    hide Times, SwapRows, SwapColumns;
    var l', x' := SwapColumns(k, l, c, p), SwapRows(k, x, c, p);
    var tc, tp := Times(Entry(l, i, c), Entry(x, c, j)), Times(Entry(l, i, p), Entry(x, p, j));
    var before := s => Times(Entry(l, i, s), Entry(x, s, j));
    var middle := s => if s == c then tp else before(s);
    SumChangeOne(k, before, middle, c, tp - tc);
    SumChangeOne(k, middle, s => Times(Entry(l', i, s), Entry(x', s, j)), p, tc - tp);
  }

  /** A row operation applied to both sides of `m == inv m0`. */
  lemma ProductKept(k: nat, inv: Mat, m0: Mat, m: Mat, op: RowOp)
    requires IsProduct(k, inv, m0, m) && Legal(k, op)
    ensures IsProduct(k, Rows(k, inv, op), m0, Rows(k, m, op))
  {
    var inv', m' := Rows(k, inv, op), Rows(k, m, op);
    hide Times, Rows, Mul;
    forall i, j | 0 <= i < k && 0 <= j < k
      ensures Entry(m', i, j) == Mul(k, inv', m0, i, j)
    {
      match op
      case Scale(c, d) => ScaleProduct(k, inv, m0, m, c, d, i, j);
      case Subtract(r, c, f) => SubtractProduct(k, inv, m0, m, r, c, f, i, j);
      case Swap(c, p) => SwapProduct(k, inv, m0, m, c, p, i, j);
    }
  }

  lemma ScaleProduct(k: nat, inv: Mat, m0: Mat, m: Mat, c: nat, d: real, i: nat, j: nat)
    requires IsProduct(k, inv, m0, m) && c < k && d != 0.0 && i < k && j < k
    ensures Entry(Rows(k, m, Scale(c, d)), i, j) == Mul(k, Rows(k, inv, Scale(c, d)), m0, i, j)
  {
    hide Times, ScaleRow;
    var inv' := ScaleRow(k, inv, c, d);
    if i == c {
      forall s ensures Times(Entry(inv, c, s) / d, Entry(m0, s, j)) == Times(1.0 / d, Times(Entry(inv, c, s), Entry(m0, s, j))) {
        DivideFirst(Entry(inv, c, s), d, Entry(m0, s, j));
      }
      SumScaled(k, 1.0 / d, s => Times(Entry(inv, c, s), Entry(m0, s, j)), s => Times(Entry(inv', i, s), Entry(m0, s, j)));
      DivideIsTimes(Entry(m, c, j), d);
    } else {
      SumSame(k, s => Times(Entry(inv, i, s), Entry(m0, s, j)), s => Times(Entry(inv', i, s), Entry(m0, s, j)));
    }
  }

  lemma DivideFirst(u: real, d: real, v: real)
    requires d != 0.0
    ensures Times(u / d, v) == Times(1.0 / d, Times(u, v))
  {
  }

  lemma DivideIsTimes(u: real, d: real)
    requires d != 0.0
    ensures u / d == Times(1.0 / d, u)
  {
  }

  lemma SubtractProduct(k: nat, inv: Mat, m0: Mat, m: Mat, r: nat, c: nat, f: real, i: nat, j: nat)
    requires IsProduct(k, inv, m0, m) && r < k && c < k && r != c && i < k && j < k
    ensures Entry(Rows(k, m, Subtract(r, c, f)), i, j) == Mul(k, Rows(k, inv, Subtract(r, c, f)), m0, i, j)
  {
    hide Times, SubtractRow;
    var inv' := SubtractRow(k, inv, r, c, f);
    if i == r {
      forall s ensures Times(Entry(inv, r, s) - Times(f, Entry(inv, c, s)), Entry(m0, s, j))
        == Times(1.0, Times(Entry(inv, r, s), Entry(m0, s, j))) + Times(-f, Times(Entry(inv, c, s), Entry(m0, s, j))) {
        SubtractFirst(Entry(inv, r, s), f, Entry(inv, c, s), Entry(m0, s, j));
      }
      SumLinear(k, 1.0, s => Times(Entry(inv, r, s), Entry(m0, s, j)), -f, s => Times(Entry(inv, c, s), Entry(m0, s, j)),
                s => Times(Entry(inv', i, s), Entry(m0, s, j)));
      SubtractFirst(Entry(m, r, j), f, Entry(m, c, j), 1.0);
      TimesOnes(f, Entry(m, r, j), Entry(m, c, j));
    } else {
      SumSame(k, s => Times(Entry(inv, i, s), Entry(m0, s, j)), s => Times(Entry(inv', i, s), Entry(m0, s, j)));
    }
  }

  lemma SubtractFirst(u: real, f: real, v: real, w: real)
    ensures Times(u - Times(f, v), w) == Times(1.0, Times(u, w)) + Times(-f, Times(v, w))
  {
  }

  lemma TimesOnes(f: real, u: real, v: real)
    ensures Times(1.0, u) + Times(-f, v) == u - Times(f, v)
  {
  }

  lemma SwapProduct(k: nat, inv: Mat, m0: Mat, m: Mat, c: nat, p: nat, i: nat, j: nat)
    requires IsProduct(k, inv, m0, m) && c < k && p < k && c != p && i < k && j < k
    ensures Entry(Rows(k, m, Swap(c, p)), i, j) == Mul(k, Rows(k, inv, Swap(c, p)), m0, i, j)
  {
    hide Times, SwapRows;
    var inv', from := SwapRows(k, inv, c, p), if i == c then p else if i == p then c else i;
    SumSame(k, s => Times(Entry(inv, from, s), Entry(m0, s, j)), s => Times(Entry(inv', i, s), Entry(m0, s, j)));
  }

  // ---------------------------------------------------------------- the reduction

  /** `m` and `inv` as the code holds them; `l` is the product of the undone operations, and
      `perm[s]` the original place of row `s`. */
  datatype Reduction = Reduction(m: Mat, inv: Mat, l: Mat, perm: seq<int>)

  ghost predicate Linked(k: nat, m0: Mat, g: Reduction) {
    IsProduct(k, g.inv, m0, g.m) && IsProduct(k, g.l, g.m, m0) && IsProduct(k, g.l, g.inv, Identity(k))
  }

  ghost function Apply(k: nat, g: Reduction, op: RowOp): Reduction
    requires IsMat(g.m, k, k) && IsMat(g.inv, k, k) && IsMat(g.l, k, k) && |g.perm| == k && Legal(k, op)
  {
    Reduction(Rows(k, g.m, op), Rows(k, g.inv, op), Columns(k, g.l, op),
              if op.Swap? then g.perm[op.c := g.perm[op.p]][op.p := g.perm[op.c]] else g.perm)
  }

  /** Columns below `c` are those of the identity. */
  ghost predicate Reduced(k: nat, m: Mat, c: int) {
    forall i, j :: 0 <= i < k && 0 <= j < c && j < k ==> Entry(m, i, j) == Delta(i, j)
  }

  /** Rows from `c` on have only been moved and reduced, never used: their columns of `l` are unit. */
  ghost predicate Untouched(k: nat, g: Reduction, c: int) {
    && |g.perm| == k
    && (forall s :: 0 <= s < k ==> 0 <= g.perm[s] < k)
    && (forall s, t :: 0 <= s < t < k ==> g.perm[s] != g.perm[t])
    && (forall i, s :: 0 <= i < k && 0 <= c <= s < k ==> Entry(g.l, i, s) == Delta(i, g.perm[s]))
  }

  lemma LinkKept(k: nat, m0: Mat, g: Reduction, op: RowOp)
    requires Linked(k, m0, g) && |g.perm| == k && Legal(k, op)
    ensures Linked(k, m0, Apply(k, g, op)) && |Apply(k, g, op).perm| == k
  {
    hide Mul, Rows, Columns;
    ProductKept(k, g.inv, m0, g.m, op);
    UndoneInProduct(k, g.l, g.m, m0, op);
    UndoneInProduct(k, g.l, g.inv, Identity(k), op);
  }

  lemma IdentityLeft(k: nat, x: Mat)
    requires IsMat(x, k, k)
    ensures IsProduct(k, Identity(k), x, x)
  {
    hide Identity;
    var zero := (s: int) => 0.0;
    SumZero(k, zero);
    forall i, j | 0 <= i < k && 0 <= j < k ensures Entry(x, i, j) == Mul(k, Identity(k), x, i, j) {
      SumChangeOne(k, zero, s => Times(Entry(Identity(k), i, s), Entry(x, s, j)), i, Entry(x, i, j));
    }
  }

  lemma Start(k: nat, m0: Mat)
    requires IsMat(m0, k, k)
    ensures var g := Reduction(m0, Identity(k), Identity(k), seq(k, s => s));
      Linked(k, m0, g) && Reduced(k, m0, 0) && Untouched(k, g, 0)
  {
    hide Mul;
    IdentityLeft(k, m0);
    IdentityLeft(k, Identity(k));
  }

  /** When every column is reduced, `inv` is the inverse on both sides. */
  lemma Finish(k: nat, m0: Mat, g: Reduction)
    requires Linked(k, m0, g) && Reduced(k, g.m, k)
    ensures IsInverse(k, g.inv, m0)
  {
    hide Identity;
    var zero := (s: int) => 0.0;
    SumZero(k, zero);
    forall i, j | 0 <= i < k && 0 <= j < k ensures Entry(m0, i, j) == Entry(g.l, i, j) {
      SumChangeOne(k, zero, s => Times(Entry(g.l, i, s), Entry(g.m, s, j)), j, Entry(g.l, i, j));
    }
    forall i, j | 0 <= i < k && 0 <= j < k ensures Entry(Identity(k), i, j) == Mul(k, m0, g.inv, i, j) {
      SumSame(k, s => Times(Entry(g.l, i, s), Entry(g.inv, s, j)), s => Times(Entry(m0, i, s), Entry(g.inv, s, j)));
    }
  }

  lemma SwapStep(k: nat, m0: Mat, g: Reduction, c: nat, p: nat)
    requires Linked(k, m0, g) && Reduced(k, g.m, c) && Untouched(k, g, c) && c < p < k
    ensures var g' := Apply(k, g, Swap(c, p));
      Linked(k, m0, g') && Reduced(k, g'.m, c) && Untouched(k, g', c)
  {
    hide Mul, SwapRows, SwapColumns;
    LinkKept(k, m0, g, Swap(c, p));
  }

  lemma ScaleStep(k: nat, m0: Mat, g: Reduction, c: nat)
    requires Linked(k, m0, g) && Reduced(k, g.m, c) && Untouched(k, g, c) && c < k && Entry(g.m, c, c) != 0.0
    ensures var g' := Apply(k, g, Scale(c, Entry(g.m, c, c)));
      Linked(k, m0, g') && Reduced(k, g'.m, c) && Untouched(k, g', c + 1) && Entry(g'.m, c, c) == 1.0
  {
    hide Mul, ScaleRow, ScaleColumn, Times;
    LinkKept(k, m0, g, Scale(c, Entry(g.m, c, c)));
    assert Entry(g.m, c, c) / Entry(g.m, c, c) == 1.0;
    forall i, j | 0 <= i < k && 0 <= j < c ensures Entry(Apply(k, g, Scale(c, Entry(g.m, c, c))).m, i, j) == Delta(i, j) {
      assert Entry(g.m, i, j) == Delta(i, j);
    }
  }

  /** The column being cleared: done above `r`, and one on the diagonal. */
  ghost predicate Clearing(k: nat, m: Mat, c: nat, r: int) {
    Reduced(k, m, c) && Entry(m, c, c) == 1.0 && forall i :: 0 <= i < r && i < k && i != c ==> Entry(m, i, c) == 0.0
  }

  lemma SubtractStep(k: nat, m0: Mat, g: Reduction, c: nat, r: nat)
    requires Linked(k, m0, g) && Untouched(k, g, c + 1) && c < k && r < k && r != c && Clearing(k, g.m, c, r)
    ensures var g' := Apply(k, g, Subtract(r, c, Entry(g.m, r, c)));
      Linked(k, m0, g') && Untouched(k, g', c + 1) && Clearing(k, g'.m, c, r + 1)
  {
    hide Mul, SubtractRow, AddColumn;
    LinkKept(k, m0, g, Subtract(r, c, Entry(g.m, r, c)));
  }

  // ---------------------------------------------------------------- a pivot that is too small

  const TINY := 1.0e-300

  ghost predicate Within(v: real, bound: real) {
    -bound < v < bound
  }

  /** `m` maps a vector of length at least 1 to almost nothing. */
  ghost predicate NearlySingular(k: nat, m: Mat, x: Vec) {
    |x| == k && Dot(k, x, x) >= 1.0 && forall i :: 0 <= i < k ==> Within(RowTimes(m, i, x), TINY)
  }

  ghost function Dot(n: nat, x: Vec, y: Vec): real {
    Sum(n, i => Times(At(x, i), At(y, i)))
  }

  /** `(a b) x == a (b x)`. */
  lemma ProductApplies(k: nat, a: Mat, b: Mat, c: Mat, x: Vec, i: nat)
    requires IsProduct(k, a, b, c) && |x| == k && i < k
    ensures RowTimes(c, i, x) == Sum(k, s => Times(Entry(a, i, s), RowTimes(b, s, x)))
  {
    hide Times;
    var f := (s: int, j: int) => Times(Entry(a, i, s), Times(Entry(b, s, j), At(x, j)));
    var rows, cols := s => Sum(k, j => f(s, j)), j => Sum(k, s => f(s, j));
    forall s | 0 <= s < k ensures rows(s) == Times(Entry(a, i, s), RowTimes(b, s, x)) {
      SumScaled(k, Entry(a, i, s), j => Times(Entry(b, s, j), At(x, j)), j => f(s, j));
    }
    SumSame(k, rows, s => Times(Entry(a, i, s), RowTimes(b, s, x)));
    forall j | 0 <= j < k ensures cols(j) == Times(Entry(c, i, j), At(x, j)) {
      forall s ensures f(s, j) == Times(At(x, j), Times(Entry(a, i, s), Entry(b, s, j))) {
        TimesRegroup(Entry(a, i, s), Entry(b, s, j), At(x, j));
      }
      SumScaled(k, At(x, j), s => Times(Entry(a, i, s), Entry(b, s, j)), s => f(s, j));
      TimesCommutes(At(x, j), Entry(c, i, j));
    }
    SumSame(k, cols, j => Times(Entry(c, i, j), At(x, j)));
    SumSwap(k, k, f);
  }

  lemma TimesRegroup(u: real, v: real, w: real)
    ensures Times(u, Times(v, w)) == Times(w, Times(u, v))
  {
  }

  /** The vector the partially reduced matrix nearly annihilates. */
  ghost function Witness(k: nat, m: Mat, c: nat): (x: Vec)
    ensures |x| == k
    ensures forall j :: 0 <= j < k ==> At(x, j) == if j < c then -Entry(m, j, c) else if j == c then 1.0 else 0.0
  {
    seq(k, j => if j < c then -Entry(m, j, c) else if j == c then 1.0 else 0.0)
  }

  lemma WitnessRow(k: nat, m: Mat, c: nat, r: nat)
    requires Reduced(k, m, c) && c < k && r < k
    ensures RowTimes(m, r, Witness(k, m, c)) == if r < c then 0.0 else Entry(m, r, c)
  {
    hide Witness;
    var x, zero := Witness(k, m, c), (j: int) => 0.0;
    var only := j => if j == c then Entry(m, r, c) else 0.0;
    SumZero(k, zero);
    SumChangeOne(k, zero, only, c, Entry(m, r, c));
    if r < c {
      SumChangeOne(k, only, j => Times(Entry(m, r, j), At(x, j)), r, -Entry(m, r, c));
    } else {
      SumSame(k, only, j => Times(Entry(m, r, j), At(x, j)));
    }
  }

  lemma WitnessLength(k: nat, m: Mat, c: nat)
    requires c < k
    ensures Dot(k, Witness(k, m, c), Witness(k, m, c)) >= 1.0
  {
    hide Witness;
    var x, zero := Witness(k, m, c), (j: int) => 0.0;
    var only := j => if j == c then 1.0 else 0.0;
    SumZero(k, zero);
    SumChangeOne(k, zero, only, c, 1.0);
    SumMonotone(k, only, j => Times(At(x, j), At(x, j)));
  }

  /** If no entry left in column `c` reaches 1e-300, the original matrix is nearly singular. */
  lemma SmallPivot(k: nat, m0: Mat, g: Reduction, c: nat)
    requires Linked(k, m0, g) && Reduced(k, g.m, c) && Untouched(k, g, c) && c < k
    requires forall r :: c <= r < k ==> Within(Entry(g.m, r, c), TINY)
    ensures NearlySingular(k, m0, Witness(k, g.m, c))
  {
    hide Mul, Times, Witness, RowTimes;
    var x, zero := Witness(k, g.m, c), (s: int) => 0.0;
    WitnessLength(k, g.m, c);
    SumZero(k, zero);
    forall i | 0 <= i < k ensures Within(RowTimes(m0, i, x), TINY) {
      ProductApplies(k, g.l, g.m, m0, x, i);
      var terms := s => Times(Entry(g.l, i, s), RowTimes(g.m, s, x));
      forall s | 0 <= s < k ensures terms(s) == if s >= c && g.perm[s] == i then Entry(g.m, s, c) else 0.0 {
        WitnessRow(k, g.m, c, s);
        TimesUnits(Entry(g.l, i, s), Entry(g.m, s, c));
      }
      if s :| c <= s < k && g.perm[s] == i {
        SumChangeOne(k, zero, terms, s, Entry(g.m, s, c));
      } else {
        SumSame(k, zero, terms);
      }
    }
  }

  lemma TimesUnits(u: real, v: real)
    ensures Times(u, 0.0) == 0.0 && Times(1.0, v) == v && Times(0.0, v) == 0.0
  {
  }

  // ---------------------------------------------------------------- the matrix of the model

  /** `components_ / noise_variance_`, with a zero variance giving zero. */
  ghost function Weighted(c: real, nv: real): real {
    if nv != 0.0 then c / nv else 0.0
  }

  ghost function Wpsi(comp: Mat, noise: Vec, k: nat, nf: nat): (w: Mat)
    ensures IsMat(w, k, nf)
    ensures forall i, f :: 0 <= i < k && 0 <= f < nf ==> Entry(w, i, f) == Weighted(Entry(comp, i, f), At(noise, f))
  {
    seq(k, i => seq(nf, f => Weighted(Entry(comp, i, f), At(noise, f))))
  }

  /** `I + w comp'`. */
  ghost function Posterior(comp: Mat, w: Mat, k: nat, nf: nat): (m: Mat)
    ensures IsMat(m, k, k)
    ensures forall i, j :: 0 <= i < k && 0 <= j < k ==> Entry(m, i, j) == Delta(i, j) + Cross(comp, w, nf, i, j)
  {
    seq(k, i => seq(k, j => Delta(i, j) + Cross(comp, w, nf, i, j)))
  }

  ghost function Cross(comp: Mat, w: Mat, nf: nat, i: int, j: int): real {
    Sum(nf, f => Times(Entry(w, i, f), Entry(comp, j, f)))
  }

  /** `comp' x`, entry `f`. */
  ghost function Back(comp: Mat, x: Vec, f: int): real {
    Sum(|x|, j => Times(Entry(comp, j, f), At(x, j)))
  }

  ghost predicate NonnegNoise(noise: Vec, nf: nat) {
    forall f :: 0 <= f < nf ==> At(noise, f) >= 0.0
  }

  lemma PosteriorRow(comp: Mat, w: Mat, k: nat, nf: nat, x: Vec, i: nat)
    requires |x| == k && i < k
    ensures RowTimes(Posterior(comp, w, k, nf), i, x) == At(x, i) + Sum(nf, f => Times(Entry(w, i, f), Back(comp, x, f)))
  {
    hide Times, Posterior;
    var m := Posterior(comp, w, k, nf);
    var t := (f: int, j: int) => Times(Entry(w, i, f), Times(Entry(comp, j, f), At(x, j)));
    var rows, cols := f => Sum(k, j => t(f, j)), j => Sum(nf, f => t(f, j));
    forall f | 0 <= f < nf ensures rows(f) == Times(Entry(w, i, f), Back(comp, x, f)) {
      SumScaled(k, Entry(w, i, f), j => Times(Entry(comp, j, f), At(x, j)), j => t(f, j));
    }
    SumSame(nf, rows, f => Times(Entry(w, i, f), Back(comp, x, f)));
    SumSwap(nf, k, t);
    forall j | 0 <= j < k ensures cols(j) == Times(At(x, j), Cross(comp, w, nf, i, j)) {
      forall f ensures t(f, j) == Times(At(x, j), Times(Entry(w, i, f), Entry(comp, j, f))) {
        TimesRegroup(Entry(w, i, f), Entry(comp, j, f), At(x, j));
      }
      SumScaled(nf, At(x, j), f => Times(Entry(w, i, f), Entry(comp, j, f)), f => t(f, j));
    }
    forall j | 0 <= j < k ensures Times(Entry(m, i, j), At(x, j)) == if j == i then cols(j) + At(x, i) else cols(j) {
      DeltaRow(i, j, Cross(comp, w, nf, i, j), At(x, j));
    }
    SumChangeOne(k, cols, j => Times(Entry(m, i, j), At(x, j)), i, At(x, i));
  }

  lemma DeltaRow(i: int, j: int, c: real, x: real)
    ensures Times(Delta(i, j) + c, x) == if j == i then Times(x, c) + x else Times(x, c)
  {
  }

  /** With no negative noise variance the matrix stays above the identity. */
  lemma PosteriorAboveIdentity(comp: Mat, noise: Vec, k: nat, nf: nat, x: Vec)
    requires NonnegNoise(noise, nf) && |x| == k
    ensures Form(Posterior(comp, Wpsi(comp, noise, k, nf), k, nf), x, x) >= Dot(k, x, x)
  {
    hide Times, Posterior, Wpsi, Weighted, Back;
    var w := Wpsi(comp, noise, k, nf);
    var m := Posterior(comp, w, k, nf);
    var t := (i: int, f: int) => Times(At(x, i), Times(Entry(w, i, f), Back(comp, x, f)));
    var rows, cols := i => Sum(nf, f => t(i, f)), f => Sum(k, i => t(i, f));
    var sq := i => Times(At(x, i), At(x, i));
    forall i | 0 <= i < k ensures Times(At(x, i), RowTimes(m, i, x)) == sq(i) + rows(i) {
      var inner := Sum(nf, f => Times(Entry(w, i, f), Back(comp, x, f)));
      PosteriorRow(comp, w, k, nf, x, i);
      TimesAdds(At(x, i), At(x, i), inner);
      SumScaled(nf, At(x, i), f => Times(Entry(w, i, f), Back(comp, x, f)), f => t(i, f));
    }
    SumPlus(k, sq, rows, i => Times(At(x, i), RowTimes(m, i, x)));
    SumSwap(k, nf, t);
    forall f | 0 <= f < nf ensures cols(f) >= 0.0 {
      NoiseTerm(comp, noise, k, nf, x, f);
      SumSame(k, i => t(i, f), i => Times(At(x, i), Times(Entry(w, i, f), Back(comp, x, f))));
    }
    SumNonneg(nf, cols);
  }

  lemma NoiseTerm(comp: Mat, noise: Vec, k: nat, nf: nat, x: Vec, f: nat)
    requires NonnegNoise(noise, nf) && |x| == k && f < nf
    ensures Sum(k, i => Times(At(x, i), Times(Entry(Wpsi(comp, noise, k, nf), i, f), Back(comp, x, f)))) >= 0.0
  {
    hide Times, Wpsi, Weighted;
    var w, nv, b := Wpsi(comp, noise, k, nf), At(noise, f), Back(comp, x, f);
    var rate := if nv != 0.0 then 1.0 / nv else 0.0;
    forall i | 0 <= i < k
      ensures Times(At(x, i), Times(Entry(w, i, f), b)) == Times(Times(rate, b), Times(Entry(comp, i, f), At(x, i)))
    {
      NoiseProduct(At(x, i), Entry(comp, i, f), nv, b);
    }
    SumScaled(k, Times(rate, b), i => Times(Entry(comp, i, f), At(x, i)), i => Times(At(x, i), Times(Entry(w, i, f), b)));
    SquareNonneg(rate, b);
  }

  lemma NoiseProduct(x: real, c: real, nv: real, b: real)
    ensures Times(x, Times(Weighted(c, nv), b)) == Times(Times(if nv != 0.0 then 1.0 / nv else 0.0, b), Times(c, x))
  {
    if nv != 0.0 { assert c / nv == (1.0 / nv) * c; }
  }

  lemma SquareNonneg(r: real, b: real)
    requires r >= 0.0
    ensures Times(Times(r, b), b) >= 0.0
  {
    assert b * b >= 0.0;
    assert Times(Times(r, b), b) == r * (b * b);
  }

  /** The number of factors is an `int` of the source. */
  const INT_MAX := 2147483647

  /** A matrix above the identity is not nearly singular. */
  lemma AboveIdentityNotSingular(k: nat, m: Mat, x: Vec)
    requires k <= INT_MAX && |x| == k && Form(m, x, x) >= Dot(k, x, x)
    ensures !NearlySingular(k, m, x)
  {
    hide Times, RowTimes;
    if NearlySingular(k, m, x) {
      var one, sq := (i: int) => 1.0, i => Times(At(x, i), At(x, i));
      var bound := i => Times(TINY, one(i)) + Times(TINY, sq(i));
      forall i | 0 <= i < k ensures Times(At(x, i), RowTimes(m, i, x)) <= bound(i) {
        TinyTerm(At(x, i), RowTimes(m, i, x));
      }
      SumMonotone(k, i => Times(At(x, i), RowTimes(m, i, x)), bound);
      SumLinear(k, TINY, one, TINY, sq, bound);
      SumOnes(k, one);
      TinyTotal(k, Dot(k, x, x));
    }
  }

  lemma Scaled(a: real, b: real, c: real)
    requires a <= b && c >= 0.0
    ensures a * c <= b * c
  {
  }

  lemma BelowSquare(x: real)
    ensures x <= 1.0 + x * x && -x <= 1.0 + x * x
  {
    assert (x - 1.0) * (x - 1.0) >= 0.0 && (x + 1.0) * (x + 1.0) >= 0.0;
  }

  lemma SmallTerm(x: real, row: real, bound: real)
    requires -bound <= row <= bound
    ensures Times(x, row) <= bound + Times(bound, Times(x, x))
  {
    BelowSquare(x);
    var sq := x * x;
    if x >= 0.0 {
      Scaled(row, bound, x);
      Scaled(x, 1.0 + sq, bound);
    } else {
      Scaled(-row, bound, -x);
      Scaled(-x, 1.0 + sq, bound);
    }
    assert (1.0 + sq) * bound == bound + bound * sq;
  }

  lemma TinyTerm(x: real, row: real)
    requires Within(row, TINY)
    ensures Times(x, row) <= Times(TINY, 1.0) + Times(TINY, Times(x, x))
  {
    SmallTerm(x, row, TINY);
    assert Times(TINY, 1.0) == TINY;
  }

  lemma TinyTotal(k: nat, dot: real)
    requires k <= INT_MAX && dot >= 1.0
    ensures Times(TINY, k as real) + Times(TINY, dot) < dot
  {
  }

  // ---------------------------------------------------------------- the code

  ghost predicate Holds(a: array2<real>, x: Mat)
    reads a
  {
    IsMat(x, a.Length0, a.Length1) &&
    forall i, j :: 0 <= i < a.Length0 && 0 <= j < a.Length1 ==> a[i, j] == Entry(x, i, j)
  }

  function Abs(x: real): (r: real)
    ensures r >= 0.0 && (r == x || r == -x)
  {
    if x >= 0.0 then x else -x
  }

  /** Lines 2700-2704. */
  method FindPivot(m: array2<real>, c: nat) returns (piv: nat)
    requires m.Length0 == m.Length1 && c < m.Length0
    ensures c <= piv < m.Length0
    ensures forall r :: c <= r < m.Length0 ==> Abs(m[r, c]) <= Abs(m[piv, c])
  {
    piv := c;
    var r := c + 1;
    while r < m.Length0
      invariant c < r <= m.Length0 && c <= piv < r
      invariant forall i :: c <= i < r ==> Abs(m[i, c]) <= Abs(m[piv, c])
    {
      if Abs(m[r, c]) > Abs(m[piv, c]) { piv := r; }
      r := r + 1;
    }
  }

  /** Lines 2710-2715. */
  method SwapInPlace(m: array2<real>, inv: array2<real>, c: nat, piv: nat, ghost x: Mat, ghost y: Mat)
    requires m != inv && Holds(m, x) && Holds(inv, y) && m.Length0 == m.Length1 == inv.Length0 == inv.Length1
    requires c < piv < m.Length0
    modifies m, inv
    ensures Holds(m, SwapRows(m.Length0, x, c, piv)) && Holds(inv, SwapRows(m.Length0, y, c, piv))
  {
    hide SwapRows;
    var k := m.Length0;
    var j := 0;
    while j < k
      invariant 0 <= j <= k
      invariant forall i, l :: 0 <= i < k && 0 <= l < k ==>
        m[i, l] == Entry(if l < j then SwapRows(k, x, c, piv) else x, i, l)
      invariant forall i, l :: 0 <= i < k && 0 <= l < k ==>
        inv[i, l] == Entry(if l < j then SwapRows(k, y, c, piv) else y, i, l)
    {
      m[c, j], m[piv, j] := m[piv, j], m[c, j];
      inv[c, j], inv[piv, j] := inv[piv, j], inv[c, j];
      j := j + 1;
    }
  }

  /** Lines 2716-2720. */
  method ScaleInPlace(m: array2<real>, inv: array2<real>, c: nat, ghost x: Mat, ghost y: Mat)
    requires m != inv && Holds(m, x) && Holds(inv, y) && m.Length0 == m.Length1 == inv.Length0 == inv.Length1
    requires c < m.Length0 && m[c, c] != 0.0
    modifies m, inv
    ensures Holds(m, ScaleRow(m.Length0, x, c, Entry(x, c, c))) && Holds(inv, ScaleRow(m.Length0, y, c, Entry(x, c, c)))
  {
    hide ScaleRow;
    var k, d := m.Length0, m[c, c];
    var j := 0;
    while j < k
      invariant 0 <= j <= k
      invariant forall i, l :: 0 <= i < k && 0 <= l < k ==>
        m[i, l] == Entry(if l < j then ScaleRow(k, x, c, d) else x, i, l)
      invariant forall i, l :: 0 <= i < k && 0 <= l < k ==>
        inv[i, l] == Entry(if l < j then ScaleRow(k, y, c, d) else y, i, l)
    {
      m[c, j] := m[c, j] / d;
      inv[c, j] := inv[c, j] / d;
      j := j + 1;
    }
  }

  /** Lines 2725-2730. */
  method SubtractInPlace(m: array2<real>, inv: array2<real>, r: nat, c: nat, f2: real, ghost x: Mat, ghost y: Mat)
    requires m != inv && Holds(m, x) && Holds(inv, y) && m.Length0 == m.Length1 == inv.Length0 == inv.Length1
    requires c < m.Length0 && r < m.Length0 && r != c
    modifies m, inv
    ensures Holds(m, SubtractRow(m.Length0, x, r, c, f2)) && Holds(inv, SubtractRow(m.Length0, y, r, c, f2))
  {
    hide SubtractRow, Times;
    var k := m.Length0;
    var j := 0;
    while j < k
      invariant 0 <= j <= k
      invariant forall i, l :: 0 <= i < k && 0 <= l < k ==>
        m[i, l] == Entry(if l < j then SubtractRow(k, x, r, c, f2) else x, i, l)
      invariant forall i, l :: 0 <= i < k && 0 <= l < k ==>
        inv[i, l] == Entry(if l < j then SubtractRow(k, y, r, c, f2) else y, i, l)
    {
      m[r, j] := m[r, j] - Times(f2, m[c, j]);
      inv[r, j] := inv[r, j] - Times(f2, inv[c, j]);
      j := j + 1;
    }
  }

  /** Lines 2721-2731: clear column `c` in every other row. */
  method ClearColumn(m: array2<real>, inv: array2<real>, c: nat, ghost m0: Mat, ghost g: Reduction) returns (ghost g': Reduction)
    requires m != inv && m.Length0 == m.Length1 == inv.Length0 == inv.Length1 && c < m.Length0
    requires Holds(m, g.m) && Holds(inv, g.inv)
    requires Linked(m.Length0, m0, g) && Untouched(m.Length0, g, c + 1) && Clearing(m.Length0, g.m, c, 0)
    modifies m, inv
    ensures Holds(m, g'.m) && Holds(inv, g'.inv)
    ensures Linked(m.Length0, m0, g') && Untouched(m.Length0, g', c + 1) && Reduced(m.Length0, g'.m, c + 1)
  {
    hide Linked, Untouched, Reduced, SubtractRow, AddColumn;
    var k := m.Length0;
    g' := g;
    var r := 0;
    while r < k
      invariant 0 <= r <= k
      invariant Holds(m, g'.m) && Holds(inv, g'.inv)
      invariant Linked(k, m0, g') && Untouched(k, g', c + 1) && Clearing(k, g'.m, c, r)
    {
      if r != c {
        var f2 := m[r, c];
        if f2 != 0.0 {
          LinkedShapes(k, m0, g', c + 1);
          SubtractStep(k, m0, g', c, r);
          SubtractInPlace(m, inv, r, c, f2, g'.m, g'.inv);
          g' := Apply(k, g', Subtract(r, c, f2));
        }
      }
      r := r + 1;
    }
    ClearedIsReduced(k, g'.m, c);
  }

  lemma ClearedIsReduced(k: nat, m: Mat, c: nat)
    requires Clearing(k, m, c, k) && c < k
    ensures Reduced(k, m, c + 1)
  {
  }

  /** Lines 2698-2732.  On success `inv` is a two-sided inverse of the matrix given; otherwise that
      matrix is nearly singular. */
  method Invert(m: array2<real>, inv: array2<real>, ghost m0: Mat) returns (ok: bool, ghost a: Mat)
    requires m != inv && m.Length0 == m.Length1 == inv.Length0 == inv.Length1
    requires Holds(m, m0) && Holds(inv, Identity(m.Length0))
    modifies m, inv
    ensures ok ==> Holds(inv, a) && IsInverse(m.Length0, a, m0)
    ensures !ok ==> exists x: Vec :: NearlySingular(m.Length0, m0, x)
  {
    hide Linked, Untouched, Reduced, NearlySingular, ScaleRow, ScaleColumn, SwapRows, SwapColumns, Identity, IsInverse;
    var k := m.Length0;
    ghost var g := Reduction(m0, Identity(k), Identity(k), seq(k, s => s));
    Start(k, m0);
    a := g.inv;
    ok := true;
    var c := 0;
    while c < k && ok
      invariant 0 <= c <= k
      invariant ok ==> Holds(m, g.m) && Holds(inv, g.inv)
      invariant ok ==> Linked(k, m0, g) && Untouched(k, g, c) && Reduced(k, g.m, c)
      invariant !ok ==> exists x: Vec :: NearlySingular(k, m0, x)
    {
      var piv := FindPivot(m, c);
      if Abs(m[piv, c]) < 1.0e-300 {
        SmallPivot(k, m0, g, c);
        ok := false;
        break;
      }
      LinkedShapes(k, m0, g, c);
      if piv != c {
        SwapStep(k, m0, g, c, piv);
        SwapInPlace(m, inv, c, piv, g.m, g.inv);
        g := Apply(k, g, Swap(c, piv));
      }
      LinkedShapes(k, m0, g, c);
      ScaleStep(k, m0, g, c);
      ScaleInPlace(m, inv, c, g.m, g.inv);
      g := Apply(k, g, Scale(c, Entry(g.m, c, c)));
      g := ClearColumn(m, inv, c, m0, g);
      c := c + 1;
    }
    if ok {
      Finish(k, m0, g);
      a := g.inv;
    }
  }

  lemma LinkedShapes(k: nat, m0: Mat, g: Reduction, c: nat)
    requires Linked(k, m0, g) && Untouched(k, g, c)
    ensures IsMat(g.m, k, k) && IsMat(g.inv, k, k) && IsMat(g.l, k, k) && |g.perm| == k
  {
  }

  // ---------------------------------------------------------------- the projection

  /** `flat_get_or(mean, f, 0)`. */
  ghost function MeanAt(mean: Option<seq<real>>, f: int): real {
    match mean
    case None => 0.0
    case Some(v) => if 0 <= f < |v| then v[f] else 0.0
  }

  /** Row `r` of the input, centred, over the first `nf` features. */
  ghost function Centred(src: Mat, mean: Option<seq<real>>, r: int, nf: nat): (x: Vec)
    ensures |x| == nf && forall f :: 0 <= f < nf ==> At(x, f) == Entry(src, r, f) - MeanAt(mean, f)
  {
    seq(nf, f => Entry(src, r, f) - MeanAt(mean, f))
  }

  /** Row `r` of `out` is `comp` applied to the centred row `r` of `src`. */
  ghost predicate Projects(src: Mat, comp: Mat, mean: Option<seq<real>>, nf: nat, out: Mat) {
    forall r, c :: 0 <= r < |src| && 0 <= c < |comp| ==>
      Entry(out, r, c) == RowTimes(comp, c, Centred(src, mean, r, nf))
  }

  /** `linear_project`. */
  method LinearProject(src: array2<real>, comp: array2<real>, mean: Option<seq<real>>, ghost x: Mat, ghost w: Mat)
    returns (out: array2<real>, ghost o: Mat)
    requires Holds(src, x) && Holds(comp, w) && src.Length1 >= comp.Length1
    requires mean.Some? ==> |mean.value| >= comp.Length1
    ensures fresh(out) && out.Length0 == src.Length0 && out.Length1 == comp.Length0
    ensures Holds(out, o) && Projects(x, w, mean, comp.Length1, o)
  {
    hide RowTimes;
    var nf, nc := comp.Length1, comp.Length0;
    out := new real[src.Length0, nc];
    o := seq(src.Length0, i => seq(nc, j => RowTimes(w, j, Centred(x, mean, i, nf))));
    var r := 0;
    while r < src.Length0
      invariant 0 <= r <= src.Length0
      invariant forall i, j :: 0 <= i < r && 0 <= j < nc ==> out[i, j] == Entry(o, i, j)
    {
      var c := 0;
      while c < nc
        invariant 0 <= c <= nc
        invariant forall i, j :: 0 <= i < r && 0 <= j < nc ==> out[i, j] == Entry(o, i, j)
        invariant forall j :: 0 <= j < c ==> out[r, j] == Entry(o, r, j)
      {
        var v := ProjectCell(src, comp, mean, x, w, r, c);
        out[r, c] := v;
        c := c + 1;
      }
      r := r + 1;
    }
  }

  method ProjectCell(src: array2<real>, comp: array2<real>, mean: Option<seq<real>>, ghost x: Mat, ghost w: Mat, r: nat, c: nat)
    returns (s: real)
    requires Holds(src, x) && Holds(comp, w) && src.Length1 >= comp.Length1 && r < src.Length0 && c < comp.Length0
    requires mean.Some? ==> |mean.value| >= comp.Length1
    ensures s == RowTimes(w, c, Centred(x, mean, r, comp.Length1))
  {
    hide Times, Centred;
    ghost var xc := Centred(x, mean, r, comp.Length1);
    ghost var term := f => Times(Entry(w, c, f), At(xc, f));
    s := 0.0;
    var f := 0;
    while f < comp.Length1
      invariant 0 <= f <= comp.Length1
      invariant s == Sum(f, term)
    {
      var v := src[r, f] - if mean.Some? then mean.value[f] else 0.0;
      TimesCommutes(v, comp[c, f]);
      s := s + Times(v, comp[c, f]);
      f := f + 1;
    }
  }

  /** `z` solves `m z == w x`. */
  ghost predicate Solves(k: nat, m: Mat, w: Mat, x: Vec, z: Vec) {
    |z| == k && forall i :: 0 <= i < k ==> RowTimes(m, i, z) == RowTimes(w, i, x)
  }

  /** Row `r` of `o` is the posterior mean for row `r` of the input:
      `(I + Wpsi comp') z == Wpsi (x - mean)`, and the matrix on the left is invertible. */
  ghost predicate PosteriorMeans(src: Mat, comp: Mat, mean: Option<seq<real>>, noise: Vec, k: nat, nf: nat, o: Mat) {
    var w := Wpsi(comp, noise, k, nf);
    var m := Posterior(comp, w, k, nf);
    && (exists a: Mat :: IsInverse(k, a, m))
    && |o| == |src|
    && (forall r :: 0 <= r < |src| ==> Solves(k, m, w, Centred(src, mean, r, nf), o[r]))
  }

  // ---------------------------------------------------------------- what centring means

  lemma ZeroRow(m: Mat, i: int, z: Vec)
    requires forall f :: 0 <= f < |z| ==> z[f] == 0.0
    ensures RowTimes(m, i, z) == 0.0
  {
    RowTimesIs(m, i, z);
    forall f | 0 <= f < |z| ensures Times(Entry(m, i, f), At(z, f)) == 0.0 { }
    SumZero(|z|, f => Times(Entry(m, i, f), At(z, f)));
  }

  /** A row equal to the mean is projected to zero. */
  lemma MeanProjectsToZero(src: Mat, comp: Mat, mean: seq<real>, nf: nat, out: Mat, r: nat, c: nat)
    requires Projects(src, comp, Some(mean), nf, out) && nf <= |mean| && r < |src| && c < |comp|
    requires forall f :: 0 <= f < nf ==> Entry(src, r, f) == mean[f]
    ensures Entry(out, r, c) == 0.0
  {
    hide RowTimes;
    ZeroRow(comp, c, Centred(src, Some(mean), r, nf));
  }

  /** So is its posterior mean. */
  lemma MeanHasZeroPosterior(src: Mat, comp: Mat, mean: seq<real>, noise: Vec, k: nat, nf: nat, o: Mat, r: nat)
    requires PosteriorMeans(src, comp, Some(mean), noise, k, nf, o) && nf <= |mean| && r < |src|
    requires forall f :: 0 <= f < nf ==> Entry(src, r, f) == mean[f]
    ensures |o[r]| == k && forall i :: 0 <= i < k ==> o[r][i] == 0.0
  {
    hide RowTimes, Wpsi, Posterior, IsInverse;
    var w := Wpsi(comp, noise, k, nf);
    var m := Posterior(comp, w, k, nf);
    var a: Mat :| IsInverse(k, a, m);
    assert Solves(k, m, w, Centred(src, Some(mean), r, nf), o[r]);
    var zero := seq(k, i => 0.0);
    forall i | 0 <= i < k ensures RowTimes(m, i, o[r]) == RowTimes(m, i, zero) {
      ZeroRow(w, i, Centred(src, Some(mean), r, nf));
      ZeroRow(m, i, zero);
    }
    SolutionUnique(k, a, m, o[r], zero);
  }

  /** Every row of src2 is the row of src with v added. */
  ghost predicate Shifted(src: Mat, src2: Mat, mean: seq<real>, mean2: seq<real>, v: Vec, nf: nat) {
    && |src2| == |src| && nf <= |mean| && nf <= |mean2| && nf <= |v|
    && (forall r, f :: 0 <= r < |src| && 0 <= f < nf ==> Entry(src2, r, f) == Entry(src, r, f) + v[f])
    && (forall f :: 0 <= f < nf ==> mean2[f] == mean[f] + v[f])
  }

  /** Adding one vector to every row and to the mean changes nothing. */
  lemma ShiftInvariant(src: Mat, src2: Mat, comp: Mat, mean: seq<real>, mean2: seq<real>, v: Vec, noise: Vec, k: nat, nf: nat, o: Mat)
    requires Shifted(src, src2, mean, mean2, v, nf)
    ensures Projects(src, comp, Some(mean), nf, o) <==> Projects(src2, comp, Some(mean2), nf, o)
    ensures PosteriorMeans(src, comp, Some(mean), noise, k, nf, o) <==> PosteriorMeans(src2, comp, Some(mean2), noise, k, nf, o)
  {
    hide RowTimes, Wpsi, Posterior, IsInverse;
    forall r | 0 <= r < |src| ensures Centred(src, Some(mean), r, nf) == Centred(src2, Some(mean2), r, nf) {
      SameCentred(src, src2, mean, mean2, v, nf, r);
    }
    hide Shifted;
    if PosteriorMeans(src, comp, Some(mean), noise, k, nf, o) { SameRowsSameMeans(src, src2, comp, mean, mean2, noise, k, nf, o); }
    if PosteriorMeans(src2, comp, Some(mean2), noise, k, nf, o) { SameRowsSameMeans(src2, src, comp, mean2, mean, noise, k, nf, o); }
  }

  lemma SameRowsSameMeans(src: Mat, src2: Mat, comp: Mat, mean: seq<real>, mean2: seq<real>, noise: Vec, k: nat, nf: nat, o: Mat)
    requires |src2| == |src| && PosteriorMeans(src, comp, Some(mean), noise, k, nf, o)
    requires forall r :: 0 <= r < |src| ==> Centred(src, Some(mean), r, nf) == Centred(src2, Some(mean2), r, nf)
    ensures PosteriorMeans(src2, comp, Some(mean2), noise, k, nf, o)
  {
    hide Wpsi, Posterior, IsInverse, Solves;
    var w := Wpsi(comp, noise, k, nf);
    var m := Posterior(comp, w, k, nf);
    forall r | 0 <= r < |src2| ensures Solves(k, m, w, Centred(src2, Some(mean2), r, nf), o[r]) {
      assert Solves(k, m, w, Centred(src, Some(mean), r, nf), o[r]);
    }
  }

  lemma SameCentred(src: Mat, src2: Mat, mean: seq<real>, mean2: seq<real>, v: Vec, nf: nat, r: nat)
    requires Shifted(src, src2, mean, mean2, v, nf) && r < |src|
    ensures Centred(src, Some(mean), r, nf) == Centred(src2, Some(mean2), r, nf)
  {
    var (x, y) := (Centred(src, Some(mean), r, nf), Centred(src2, Some(mean2), r, nf));
    forall f | 0 <= f < nf ensures x[f] == y[f] { assert x[f] == At(x, f) && y[f] == At(y, f); }
  }

  /** Without a mean the rows are projected as they are. */
  lemma NoMeanNoShift(src: Mat, comp: Mat, nf: nat, out: Mat, r: nat, c: nat)
    requires Projects(src, comp, None, nf, out) && r < |src| && c < |comp|
    ensures Entry(out, r, c) == Sum(nf, f => Times(Entry(comp, c, f), Entry(src, r, f)))
  {
    hide RowTimes, Times;
    var x := Centred(src, None, r, nf);
    RowTimesIs(comp, c, x);
    SumSame(nf, f => Times(Entry(comp, c, f), At(x, f)), f => Times(Entry(comp, c, f), Entry(src, r, f)));
  }

  // ---------------------------------------------------------------- what the inverse gives

  /** `inv w`, applied to `x`, solves `m z == w x`. */
  lemma EffectiveSolves(k: nat, nf: nat, inv: Mat, m: Mat, w: Mat, eff: Mat, x: Vec, z: Vec, i: nat)
    requires IsProduct(k, m, inv, Identity(k)) && IsMat(w, k, nf) && |x| == nf && |z| == k && i < k
    requires forall c, f :: 0 <= c < k && 0 <= f < nf ==>
      Entry(eff, c, f) == Sum(k, j => Times(Entry(inv, c, j), Entry(w, j, f)))
    requires forall c :: 0 <= c < k ==> At(z, c) == RowTimes(eff, c, x)
    ensures RowTimes(m, i, z) == RowTimes(w, i, x)
  {
    hide Times, RowTimes, Identity, Mul;
    var b := MatVec(w, x, k);
    forall c | 0 <= c < k ensures At(z, c) == RowTimes(inv, c, b) {
      EffectiveRow(k, nf, inv, w, eff, x, b, c);
    }
    ProductApplies(k, m, inv, Identity(k), b, i);
    assert RowTimes(m, i, z) == Sum(k, s => Times(Entry(m, i, s), RowTimes(inv, s, b))) by {
      RowTimesIs(m, i, z);
      SumSame(k, s => Times(Entry(m, i, s), At(z, s)), s => Times(Entry(m, i, s), RowTimes(inv, s, b)));
    }
    IdentityApplies(k, b, i);
  }

  lemma RowTimesIs(m: Mat, i: int, z: Vec)
    ensures RowTimes(m, i, z) == Sum(|z|, s => Times(Entry(m, i, s), At(z, s)))
  {
  }

  ghost function MatVec(w: Mat, x: Vec, k: nat): (b: Vec)
    ensures |b| == k && forall i :: 0 <= i < k ==> At(b, i) == RowTimes(w, i, x)
  {
    seq(k, i => RowTimes(w, i, x))
  }

  lemma IdentityApplies(k: nat, b: Vec, i: nat)
    requires |b| == k && i < k
    ensures RowTimes(Identity(k), i, b) == At(b, i)
  {
    hide Identity;
    var zero := (s: int) => 0.0;
    SumZero(k, zero);
    SumChangeOne(k, zero, s => Times(Entry(Identity(k), i, s), At(b, s)), i, At(b, i));
  }

  lemma EffectiveRow(k: nat, nf: nat, inv: Mat, w: Mat, eff: Mat, x: Vec, b: Vec, c: nat)
    requires |x| == nf && |b| == k && c < k && forall i :: 0 <= i < k ==> At(b, i) == RowTimes(w, i, x)
    requires forall f :: 0 <= f < nf ==> Entry(eff, c, f) == Sum(k, j => Times(Entry(inv, c, j), Entry(w, j, f)))
    ensures RowTimes(eff, c, x) == RowTimes(inv, c, b)
  {
    hide Times;
    var t := (f: int, j: int) => Times(At(x, f), Times(Entry(inv, c, j), Entry(w, j, f)));
    var rows, cols := f => Sum(k, j => t(f, j)), j => Sum(nf, f => t(f, j));
    forall f | 0 <= f < nf ensures rows(f) == Times(Entry(eff, c, f), At(x, f)) {
      SumScaled(k, At(x, f), j => Times(Entry(inv, c, j), Entry(w, j, f)), j => t(f, j));
      TimesCommutes(At(x, f), Entry(eff, c, f));
    }
    SumSame(nf, rows, f => Times(Entry(eff, c, f), At(x, f)));
    SumSwap(nf, k, t);
    forall j | 0 <= j < k ensures cols(j) == Times(Entry(inv, c, j), At(b, j)) {
      forall f ensures t(f, j) == Times(Entry(inv, c, j), Times(Entry(w, j, f), At(x, f))) {
        TimesShuffle(At(x, f), Entry(inv, c, j), Entry(w, j, f));
      }
      SumScaled(nf, Entry(inv, c, j), f => Times(Entry(w, j, f), At(x, f)), f => t(f, j));
    }
    SumSame(k, cols, j => Times(Entry(inv, c, j), At(b, j)));
  }

  lemma TimesShuffle(u: real, v: real, w: real)
    ensures Times(u, Times(v, w)) == Times(v, Times(w, u))
  {
  }

  /** `m z == b` has only one solution. */
  lemma SolutionUnique(k: nat, a: Mat, m: Mat, z: Vec, y: Vec)
    requires IsInverse(k, a, m) && |z| == |y| == k
    requires forall i :: 0 <= i < k ==> RowTimes(m, i, z) == RowTimes(m, i, y)
    ensures z == y
  {
    hide Identity, Mul, RowTimes, Times;
    forall i | 0 <= i < k ensures z[i] == y[i] {
      ProductApplies(k, a, m, Identity(k), z, i);
      ProductApplies(k, a, m, Identity(k), y, i);
      SumSame(k, s => Times(Entry(a, i, s), RowTimes(m, s, z)), s => Times(Entry(a, i, s), RowTimes(m, s, y)));
      IdentityApplies(k, z, i);
      IdentityApplies(k, y, i);
    }
  }

  /** Lines 2676-2682. */
  method BuildWpsi(comp: array2<real>, noise: seq<real>, ghost cm: Mat) returns (wpsi: array2<real>)
    requires Holds(comp, cm) && |noise| >= comp.Length1
    ensures fresh(wpsi) && wpsi.Length0 == comp.Length0 && wpsi.Length1 == comp.Length1
    ensures Holds(wpsi, Wpsi(cm, noise, comp.Length0, comp.Length1))
  {
    hide Wpsi;
    var k, nf := comp.Length0, comp.Length1;
    ghost var w := Wpsi(cm, noise, k, nf);
    wpsi := new real[k, nf];
    var i := 0;
    while i < k
      invariant 0 <= i <= k
      invariant forall a, b :: 0 <= a < i && 0 <= b < nf ==> wpsi[a, b] == Entry(w, a, b)
    {
      var f := 0;
      while f < nf
        invariant 0 <= f <= nf
        invariant forall a, b :: 0 <= a < i && 0 <= b < nf ==> wpsi[a, b] == Entry(w, a, b)
        invariant forall b :: 0 <= b < f ==> wpsi[i, b] == Entry(w, i, b)
      {
        var nv := noise[f];
        wpsi[i, f] := if nv != 0.0 then comp[i, f] / nv else 0.0;
        f := f + 1;
      }
      i := i + 1;
    }
  }

  /** Lines 2692-2694. */
  method PosteriorCell(comp: array2<real>, wpsi: array2<real>, i: nat, j: nat, ghost cm: Mat, ghost w: Mat) returns (s: real)
    requires Holds(comp, cm) && Holds(wpsi, w) && wpsi.Length0 == comp.Length0 && wpsi.Length1 == comp.Length1
    requires i < comp.Length0 && j < comp.Length0
    ensures s == Delta(i, j) + Cross(cm, w, comp.Length1, i, j)
  {
    hide Times;
    ghost var term := f => Times(Entry(w, i, f), Entry(cm, j, f));
    s := if i == j then 1.0 else 0.0;
    var f := 0;
    while f < comp.Length1
      invariant 0 <= f <= comp.Length1
      invariant s == Delta(i, j) + Sum(f, term)
    {
      s := s + Times(wpsi[i, f], comp[j, f]);
      f := f + 1;
    }
  }

  /** Lines 2688-2697. */
  method BuildPosterior(comp: array2<real>, wpsi: array2<real>, ghost cm: Mat, ghost w: Mat)
    returns (m: array2<real>, inv: array2<real>)
    requires Holds(comp, cm) && Holds(wpsi, w) && wpsi.Length0 == comp.Length0 && wpsi.Length1 == comp.Length1
    ensures fresh(m) && fresh(inv) && m != inv
    ensures m.Length0 == m.Length1 == inv.Length0 == inv.Length1 == comp.Length0
    ensures Holds(m, Posterior(cm, w, comp.Length0, comp.Length1)) && Holds(inv, Identity(comp.Length0))
  {
    hide Posterior, Cross, Identity;
    var k, nf := comp.Length0, comp.Length1;
    ghost var p := Posterior(cm, w, k, nf);
    m := new real[k, k];
    inv := new real[k, k]((i, j) => 0.0);
    var i := 0;
    while i < k
      invariant 0 <= i <= k
      invariant forall a, b :: 0 <= a < i && 0 <= b < k ==> m[a, b] == Entry(p, a, b)
      invariant forall a, b :: 0 <= a < k && 0 <= b < k ==> inv[a, b] == if a < i then Delta(a, b) else 0.0
    {
      inv[i, i] := 1.0;
      var j := 0;
      while j < k
        invariant 0 <= j <= k
        invariant forall a, b :: 0 <= a < i && 0 <= b < k ==> m[a, b] == Entry(p, a, b)
        invariant forall b :: 0 <= b < j ==> m[i, b] == Entry(p, i, b)
        invariant forall a, b :: 0 <= a < k && 0 <= b < k ==> inv[a, b] == if a <= i then Delta(a, b) else 0.0
      {
        var s := PosteriorCell(comp, wpsi, i, j, cm, w);
        m[i, j] := s;
        j := j + 1;
      }
      i := i + 1;
    }
  }

  ghost function Effective(k: nat, nf: nat, inv: Mat, w: Mat): (e: Mat)
    ensures IsMat(e, k, nf)
    ensures forall c, f :: 0 <= c < k && 0 <= f < nf ==>
      Entry(e, c, f) == Sum(k, j => Times(Entry(inv, c, j), Entry(w, j, f)))
  {
    seq(k, c => seq(nf, f => Sum(k, j => Times(Entry(inv, c, j), Entry(w, j, f)))))
  }

  method EffectiveCell(inv: array2<real>, wpsi: array2<real>, i: nat, f: nat, ghost a: Mat, ghost w: Mat) returns (s: real)
    requires Holds(inv, a) && Holds(wpsi, w) && inv.Length0 == inv.Length1 == wpsi.Length0
    requires i < inv.Length0 && f < wpsi.Length1
    ensures s == Sum(inv.Length0, j => Times(Entry(a, i, j), Entry(w, j, f)))
  {
    hide Times;
    ghost var term := j => Times(Entry(a, i, j), Entry(w, j, f));
    s := 0.0;
    var j := 0;
    while j < inv.Length0
      invariant 0 <= j <= inv.Length0 && s == Sum(j, term)
    {
      s := s + Times(inv[i, j], wpsi[j, f]);
      j := j + 1;
    }
  }

  /** Lines 2737-2745. */
  method BuildEffective(inv: array2<real>, wpsi: array2<real>, ghost a: Mat, ghost w: Mat) returns (eff: array2<real>)
    requires Holds(inv, a) && Holds(wpsi, w) && inv.Length0 == inv.Length1 == wpsi.Length0
    ensures fresh(eff) && eff.Length0 == wpsi.Length0 && eff.Length1 == wpsi.Length1
    ensures Holds(eff, Effective(wpsi.Length0, wpsi.Length1, a, w))
  {
    hide Effective, Times, Sum;
    var k, nf := wpsi.Length0, wpsi.Length1;
    ghost var e := Effective(k, nf, a, w);
    eff := new real[k, nf];
    var i := 0;
    while i < k
      invariant 0 <= i <= k
      invariant forall p, q :: 0 <= p < i && 0 <= q < nf ==> eff[p, q] == Entry(e, p, q)
    {
      var f := 0;
      while f < nf
        invariant 0 <= f <= nf
        invariant forall p, q :: 0 <= p < i && 0 <= q < nf ==> eff[p, q] == Entry(e, p, q)
        invariant forall q :: 0 <= q < f ==> eff[i, q] == Entry(e, i, q)
      {
        var s := EffectiveCell(inv, wpsi, i, f, a, w);
        eff[i, f] := s;
        f := f + 1;
      }
      i := i + 1;
    }
  }

  lemma EffectiveMeans(src: Mat, comp: Mat, mean: Option<seq<real>>, noise: Vec, k: nat, nf: nat, a: Mat, o: Mat)
    requires IsMat(o, |src|, k)
    requires IsInverse(k, a, Posterior(comp, Wpsi(comp, noise, k, nf), k, nf))
    requires Projects(src, Effective(k, nf, a, Wpsi(comp, noise, k, nf)), mean, nf, o)
    ensures PosteriorMeans(src, comp, mean, noise, k, nf, o)
  {
    hide Posterior, Wpsi, Effective, RowTimes, Centred, Identity, Mul, Times, Sum;
    var w := Wpsi(comp, noise, k, nf);
    var m := Posterior(comp, w, k, nf);
    var eff := Effective(k, nf, a, w);
    forall r | 0 <= r < |src| ensures Solves(k, m, w, Centred(src, mean, r, nf), o[r]) {
      var x := Centred(src, mean, r, nf);
      forall c | 0 <= c < k ensures At(o[r], c) == RowTimes(eff, c, x) {
        assert Entry(o, r, c) == RowTimes(eff, c, x);
      }
      forall i | 0 <= i < k ensures RowTimes(m, i, o[r]) == RowTimes(w, i, x) {
        EffectiveSolves(k, nf, a, m, w, eff, x, o[r], i);
      }
    }
  }

  /** `op_factor_analysis` with components present.  With a noise variance the rows of the result
      are the posterior means, unless the matrix to invert is nearly singular, which it never is
      when no variance is negative; otherwise they are the plain projection. */
  method FactorAnalysis(src: array2<real>, comp: array2<real>, mean: Option<seq<real>>, noise: Option<seq<real>>,
                        ghost x: Mat, ghost cm: Mat) returns (out: array2<real>, ghost o: Mat)
    requires Holds(src, x) && Holds(comp, cm) && src.Length1 >= comp.Length1 && comp.Length0 <= INT_MAX
    requires mean.Some? ==> |mean.value| >= comp.Length1
    requires noise.Some? && noise.value != [] ==> |noise.value| >= comp.Length1
    ensures fresh(out) && out.Length0 == src.Length0 && out.Length1 == comp.Length0 && Holds(out, o)
    ensures noise.None? || noise.value == [] ==> Projects(x, cm, mean, comp.Length1, o)
    ensures noise.Some? && noise.value != [] ==>
      var k, nf := comp.Length0, comp.Length1;
      || PosteriorMeans(x, cm, mean, noise.value, k, nf, o)
      || (&& Projects(x, cm, mean, nf, o)
          && (exists y: Vec :: NearlySingular(k, Posterior(cm, Wpsi(cm, noise.value, k, nf), k, nf), y)))
    ensures noise.Some? && noise.value != [] && NonnegNoise(noise.value, comp.Length1) ==>
      PosteriorMeans(x, cm, mean, noise.value, comp.Length0, comp.Length1, o)
  {
    hide PosteriorMeans, Projects, NearlySingular, IsInverse, Posterior, Wpsi, Effective, Identity, NonnegNoise;
    var k, nf := comp.Length0, comp.Length1;
    if noise.Some? && |noise.value| > 0 {
      ghost var w := Wpsi(cm, noise.value, k, nf);
      var wpsi := BuildWpsi(comp, noise.value, cm);
      var m, inv := BuildPosterior(comp, wpsi, cm, w);
      ghost var p := Posterior(cm, w, k, nf);
      var ok, a := Invert(m, inv, p);
      if ok {
        var eff := BuildEffective(inv, wpsi, a, w);
        out, o := LinearProject(src, eff, mean, x, Effective(k, nf, a, w));
        EffectiveMeans(x, cm, mean, noise.value, k, nf, a, o);
        return;
      }
      ghost var y :| NearlySingular(k, p, y);
      if NonnegNoise(noise.value, nf) {
        NonnegNeverSingular(cm, noise.value, k, nf, y);
      }
    }
    out, o := LinearProject(src, comp, mean, x, cm);
  }

  /** The code's singularity test never fires for a model with nonnegative noise variances. */
  lemma NonnegNeverSingular(comp: Mat, noise: Vec, k: nat, nf: nat, y: Vec)
    requires NonnegNoise(noise, nf) && k <= INT_MAX
    ensures !NearlySingular(k, Posterior(comp, Wpsi(comp, noise, k, nf), k, nf), y)
  {
    hide Posterior, Wpsi, NonnegNoise;
    if |y| == k {
      PosteriorAboveIdentity(comp, noise, k, nf, y);
      AboveIdentityNotSingular(k, Posterior(comp, Wpsi(comp, noise, k, nf), k, nf), y);
    }
  }
}
