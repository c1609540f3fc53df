/** Compressed sparse rows in include/omle/tensor.h: compression, element access by binary search,
    expansion, and the downgrade to dense storage. */
module Csr {
  import opened Nums

  /** Row-major, all rows equally long. */
  type Matrix = seq<seq<Num>>

  datatype Store = Store(
    rows: nat, cols: nat, values: seq<Num>, indices: seq<int>, indptr: seq<int>, fill: Num)

  datatype Tensor = Dense(m: Matrix) | Sparse(s: Store)

  predicate Rectangular(m: Matrix, cols: nat) {
    forall r :: 0 <= r < |m| ==> |m[r]| == cols
  }

  predicate RowsInOrder(s: Store) {
    && |s.indptr| == s.rows + 1 && s.indptr[0] == 0 && s.indptr[s.rows] == |s.indices| == |s.values|
    && forall r, q :: 0 <= r <= q <= s.rows ==> s.indptr[r] <= s.indptr[q]
  }

  ghost predicate InRow(s: Store, r: nat, k: int)
    requires RowsInOrder(s) && r < s.rows
  {
    s.indptr[r] <= k < s.indptr[r + 1]
  }

  ghost predicate WellFormed(s: Store) {
    && RowsInOrder(s)
    && (forall k :: 0 <= k < |s.indices| ==> 0 <= s.indices[k] < s.cols)
    && (forall r: nat, j, k :: r < s.rows && InRow(s, r, j) && InRow(s, r, k) && j < k ==> s.indices[j] < s.indices[k])
  }

  /** What the positions lo to hi say about column c: the last entry for it. */
  function Stored(s: Store, lo: int, hi: int, c: int): Num
    requires 0 <= lo <= |s.indices| && hi <= |s.indices| && |s.indices| == |s.values|
    decreases hi - lo
  {
    if hi <= lo then s.fill
    else if s.indices[hi - 1] == c then s.values[hi - 1]
    else Stored(s, lo, hi - 1, c)
  }

  /** The matrix element a sparse tensor stands for. */
  function At(s: Store, r: nat, c: nat): Num
    requires RowsInOrder(s) && r < s.rows
  {
    Stored(s, s.indptr[r], s.indptr[r + 1], c)
  }

  lemma {:induction false} StoredFound(s: Store, lo: int, hi: int, c: int, k: int)
    requires 0 <= lo <= k < hi <= |s.indices| == |s.values|
    requires s.indices[k] == c && forall j :: k < j < hi ==> s.indices[j] != c
    ensures Stored(s, lo, hi, c) == s.values[k]
    decreases hi
  {
    if k < hi - 1 { StoredFound(s, lo, hi - 1, c, k); }
  }

  lemma {:induction false} StoredAbsent(s: Store, lo: int, hi: int, c: int)
    requires 0 <= lo && hi <= |s.indices| == |s.values| && lo <= |s.indices|
    requires forall j :: lo <= j < hi ==> s.indices[j] != c
    ensures Stored(s, lo, hi, c) == s.fill
    decreases hi - lo
  {
    if lo < hi { StoredAbsent(s, lo, hi - 1, c); }
  }

  // ---------------------------------------------------------------- element access

  /** Halving the positions lo to hi. */
  function Search(s: Store, lo: int, hi: int, c: int): Num
    requires 0 <= lo && hi <= |s.indices| == |s.values|
    decreases hi - lo
  {
    if lo >= hi then s.fill
    else
      var mid := lo + (hi - lo) / 2;
      if s.indices[mid] == c then s.values[mid]
      else if s.indices[mid] < c then Search(s, mid + 1, hi, c)
      else Search(s, lo, mid, c)
  }

  /** Lines 573 to 586, for any column order. */
  method Get(s: Store, r: nat, c: nat) returns (v: Num)
    requires RowsInOrder(s) && r < s.rows
    ensures v == Search(s, s.indptr[r], s.indptr[r + 1], c)
    ensures WellFormed(s) ==> v == At(s, r, c)
  {
    ghost var sorted := WellFormed(s);
    if sorted { SearchIsAt(s, r, c); }
    var lo, hi := s.indptr[r], s.indptr[r + 1];
    assert 0 <= r <= r + 1 <= s.rows;
    while lo < hi
      invariant 0 <= lo && hi <= |s.indices|
      invariant Search(s, lo, hi, c) == Search(s, s.indptr[r], s.indptr[r + 1], c)
      decreases hi - lo
    {
      var mid := lo + (hi - lo) / 2;
      if s.indices[mid] == c { return s.values[mid]; }
      if s.indices[mid] < c { lo := mid + 1; } else { hi := mid; }
    }
    v := s.fill;
  }

  /** In a row with increasing columns the search finds the stored element, or that there is none. */
  lemma {:induction false} SearchFinds(s: Store, first: int, last: int, lo: int, hi: int, c: int)
    requires 0 <= first <= lo <= hi <= last <= |s.indices| == |s.values|
    requires forall j, k :: first <= j < k < last ==> s.indices[j] < s.indices[k]
    requires forall j :: first <= j < lo ==> s.indices[j] < c
    requires forall j :: hi <= j < last ==> s.indices[j] > c
    ensures Search(s, lo, hi, c) == Stored(s, first, last, c)
    decreases hi - lo
  {
    if lo == hi {
      StoredAbsent(s, first, last, c);
    } else {
      var mid := lo + (hi - lo) / 2;
      if s.indices[mid] == c {
        StoredFound(s, first, last, c, mid);
      } else if s.indices[mid] < c {
        SearchFinds(s, first, last, mid + 1, hi, c);
      } else {
        SearchFinds(s, first, last, lo, mid, c);
      }
    }
  }

  lemma SearchIsAt(s: Store, r: nat, c: nat)
    requires WellFormed(s) && r < s.rows
    ensures Search(s, s.indptr[r], s.indptr[r + 1], c) == At(s, r, c)
  {
    assert 0 <= r <= r + 1 <= s.rows;
    var first, last := s.indptr[r], s.indptr[r + 1];
    forall j, k | first <= j < k < last ensures s.indices[j] < s.indices[k] {
      assert InRow(s, r, j) && InRow(s, r, k);
    }
    SearchFinds(s, first, last, first, last, c);
  }

  // ---------------------------------------------------------------- expansion

  function Filled(rows: nat, cols: nat, v: Num): (m: Matrix)
    ensures |m| == rows && Rectangular(m, cols) && forall r, c :: 0 <= r < rows && 0 <= c < cols ==> m[r][c] == v
  {
    seq(rows, _ => seq(cols, _ => v))
  }

  /** The fill, then row by row the stored entries over it, as in `to_float32`, `to_float64` and `_expand_csr_to_dense`. */
  method Expand(s: Store, cast: Num -> Num) returns (dst: array2<Num>)
    requires RowsInOrder(s) && forall k :: 0 <= k < |s.indices| ==> 0 <= s.indices[k] < s.cols
    ensures fresh(dst) && dst.Length0 == s.rows && dst.Length1 == s.cols
    ensures forall r: nat, c: nat :: r < s.rows && c < s.cols ==> dst[r, c] == cast(At(s, r, c))
  {
    dst := new Num[s.rows, s.cols]((_, _) => cast(s.fill));
    var r := 0;
    while r < s.rows
      invariant 0 <= r <= s.rows
      invariant forall q: nat, c: nat :: q < r && c < s.cols ==> dst[q, c] == cast(At(s, q, c))
      invariant forall q: nat, c: nat :: r <= q < s.rows && c < s.cols ==> dst[q, c] == cast(s.fill)
    {
      var k, last := s.indptr[r], s.indptr[r + 1];
      assert 0 <= r <= r + 1 <= s.rows;
      while k < last
        invariant 0 <= s.indptr[r] <= k <= last <= |s.indices|
        invariant forall q: nat, c: nat :: q < r && c < s.cols ==> dst[q, c] == cast(At(s, q, c))
        invariant forall c: nat :: c < s.cols ==> dst[r, c] == cast(Stored(s, s.indptr[r], k, c))
        invariant forall q: nat, c: nat :: r < q < s.rows && c < s.cols ==> dst[q, c] == cast(s.fill)
      {
        dst[r, s.indices[k]] := cast(s.values[k]);
        k := k + 1;
      }
      r := r + 1;
    }
  }

  function MatrixOf(s: Store): (m: Matrix)
    requires RowsInOrder(s)
    ensures |m| == s.rows && Rectangular(m, s.cols)
    ensures forall r, c :: 0 <= r < s.rows && 0 <= c < s.cols ==> m[r][c] == At(s, r, c)
  {
    seq(s.rows, r requires 0 <= r < s.rows => seq(s.cols, c requires 0 <= c < s.cols => At(s, r, c)))
  }

  /** The matrix a tensor stands for. */
  function Meaning(t: Tensor): Matrix
    requires t.Sparse? ==> RowsInOrder(t.s)
  {
    match t case Dense(m) => m case Sparse(s) => MatrixOf(s)
  }

  lemma HalfFull(count: nat, numel: nat)
    requires numel > 0
    ensures count as real / numel as real > 0.5 <==> 2 * count > numel
  {
    var q := count as real / numel as real;
    assert q * numel as real == count as real;
    if q > 0.5 { assert q * numel as real > 0.5 * numel as real; }
    if q <= 0.5 { assert q * numel as real <= 0.5 * numel as real; }
  }

  method Rows(a: array2<Num>) returns (m: Matrix)
    ensures |m| == a.Length0 && Rectangular(m, a.Length1)
    ensures forall r, c :: 0 <= r < a.Length0 && 0 <= c < a.Length1 ==> m[r][c] == a[r, c]
  {
    m := [];
    while |m| < a.Length0
      invariant |m| <= a.Length0 && Rectangular(m, a.Length1)
      invariant forall r, c :: 0 <= r < |m| && 0 <= c < a.Length1 ==> m[r][c] == a[r, c]
    {
      var row: seq<Num> := [];
      while |row| < a.Length1
        invariant |row| <= a.Length1
        invariant forall c :: 0 <= c < |row| ==> row[c] == a[|m|, c]
      {
        row := row + [a[|m|, |row|]];
      }
      m := m + [row];
    }
  }

  /** `sparse_csr`: Float32 storage that is more than half full becomes dense, and nobody can tell by the values. */
  method SparseCsr(float32: bool, s: Store) returns (t: Tensor)
    requires WellFormed(s)
    ensures t.Sparse? <==> !(float32 && s.rows * s.cols > 0 && 2 * |s.indices| > s.rows * s.cols)
    ensures t.Sparse? ==> t.s == s
    ensures Meaning(t) == MatrixOf(s)
  {
    hide At;
    var numel := s.rows * s.cols;
    if numel > 0 && float32 {
      HalfFull(|s.indices|, numel);
      if |s.indices| as real / numel as real > 0.5 {
        var dst := Expand(s, v => v);
        var m := Rows(dst);
        forall r | 0 <= r < s.rows ensures m[r] == MatrixOf(s)[r] { }
        return Dense(m);
      }
    }
    return Sparse(s);
  }

  // ---------------------------------------------------------------- compression

  /** `fabs(v) > threshold`; false for NaN. */
  predicate Kept(v: Num, threshold: real) {
    v.R? && (v.val > threshold || -v.val > threshold)
  }

  ghost predicate Compresses(s: Store, m: Matrix, cols: nat, threshold: real)
    requires Rectangular(m, cols)
  {
    && WellFormed(s) && s.rows == |m| && s.cols == cols && s.fill == R(0.0)
    && forall r, c :: 0 <= r < |m| && 0 <= c < cols ==> At(s, r, c) == if Kept(m[r][c], threshold) then m[r][c] else R(0.0)
  }

  /** Compressing and expanding gives the matrix back exactly when every element is kept or is zero:
      at threshold 0 that leaves out NaN, which turns into 0. */
  lemma RoundTripIff(s: Store, m: Matrix, cols: nat, threshold: real)
    requires Rectangular(m, cols) && Compresses(s, m, cols, threshold)
    ensures MatrixOf(s) == m <==> forall r, c :: 0 <= r < |m| && 0 <= c < cols ==> Kept(m[r][c], threshold) || m[r][c] == R(0.0)
    ensures threshold == 0.0 ==>
      (MatrixOf(s) == m <==> forall r, c :: 0 <= r < |m| && 0 <= c < cols ==> m[r][c] != NaN)
  {
    var back := MatrixOf(s);
    forall r, c | 0 <= r < |m| && 0 <= c < cols ensures back[r][c] == m[r][c] <==> Kept(m[r][c], threshold) || m[r][c] == R(0.0) {
    }
    if forall r, c :: 0 <= r < |m| && 0 <= c < cols ==> back[r][c] == m[r][c] {
      forall r | 0 <= r < |m| ensures back[r] == m[r] { }
      assert back == m;
    }
  }

  /** Columns of a row that are kept, left to right. */
  function KeptColumns(row: seq<Num>, threshold: real): seq<int> {
    if row == [] then []
    else
      var n := |row| - 1;
      KeptColumns(row[..n], threshold) + if Kept(row[n], threshold) then [n as int] else []
  }

  function KeptValues(row: seq<Num>, threshold: real): (r: seq<Num>)
    ensures |r| == |KeptColumns(row, threshold)|
  {
    if row == [] then []
    else
      var n := |row| - 1;
      KeptValues(row[..n], threshold) + if Kept(row[n], threshold) then [row[n]] else []
  }

  ghost predicate KeptAt(row: seq<Num>, threshold: real, c: int, v: Num) {
    0 <= c < |row| && v == row[c] && Kept(v, threshold)
  }

  lemma {:induction false} KeptPositions(row: seq<Num>, threshold: real)
    ensures forall j :: 0 <= j < |KeptColumns(row, threshold)| ==>
      KeptAt(row, threshold, KeptColumns(row, threshold)[j], KeptValues(row, threshold)[j])
  {
    if row != [] {
      var n := |row| - 1;
      KeptPositions(row[..n], threshold);
      var (cs0, vs0) := (KeptColumns(row[..n], threshold), KeptValues(row[..n], threshold));
      var (cs, vs) := (KeptColumns(row, threshold), KeptValues(row, threshold));
      forall j | 0 <= j < |cs| ensures KeptAt(row, threshold, cs[j], vs[j]) {
        if j < |cs0| { assert KeptAt(row[..n], threshold, cs0[j], vs0[j]); }
      }
    }
  }

  lemma {:induction false} KeptIncrease(row: seq<Num>, threshold: real, i: int, j: int)
    requires 0 <= i < j < |KeptColumns(row, threshold)|
    ensures KeptColumns(row, threshold)[i] < KeptColumns(row, threshold)[j]
  {
    var n := |row| - 1;
    var before := KeptColumns(row[..n], threshold);
    if j < |before| {
      KeptIncrease(row[..n], threshold, i, j);
    } else {
      KeptPositions(row[..n], threshold);
      assert KeptAt(row[..n], threshold, before[i], KeptValues(row[..n], threshold)[i]);
    }
  }

  lemma {:induction false} KeptAll(row: seq<Num>, threshold: real, c: int)
    requires 0 <= c < |row| && Kept(row[c], threshold)
    ensures c in KeptColumns(row, threshold)
  {
    var n := |row| - 1;
    if c < n {
      KeptAll(row[..n], threshold, c);
    } else {
      assert KeptColumns(row, threshold) == KeptColumns(row[..n], threshold) + [c];
    }
  }

  lemma KeptShape(row: seq<Num>, threshold: real)
    ensures forall j :: 0 <= j < |KeptColumns(row, threshold)| ==>
      KeptAt(row, threshold, KeptColumns(row, threshold)[j], KeptValues(row, threshold)[j])
    ensures forall i, j :: 0 <= i < j < |KeptColumns(row, threshold)| ==>
      KeptColumns(row, threshold)[i] < KeptColumns(row, threshold)[j]
    ensures forall c :: 0 <= c < |row| && Kept(row[c], threshold) ==> c in KeptColumns(row, threshold)
  {
    hide KeptColumns, KeptValues, Kept, KeptAt;
    KeptPositions(row, threshold);
    forall i, j | 0 <= i < j < |KeptColumns(row, threshold)|
      ensures KeptColumns(row, threshold)[i] < KeptColumns(row, threshold)[j] { KeptIncrease(row, threshold, i, j); }
    forall c | 0 <= c < |row| && Kept(row[c], threshold) ensures c in KeptColumns(row, threshold) { KeptAll(row, threshold, c); }
  }

  /** Positions lo to hi hold the kept elements of the row. */
  ghost predicate Segment(values: seq<Num>, indices: seq<int>, lo: int, hi: int, row: seq<Num>, threshold: real) {
    0 <= lo <= hi <= |indices| == |values| &&
    indices[lo..hi] == KeptColumns(row, threshold) && values[lo..hi] == KeptValues(row, threshold)
  }

  lemma SegmentAt(s: Store, lo: int, hi: int, row: seq<Num>, threshold: real, j: int)
    requires Segment(s.values, s.indices, lo, hi, row, threshold) && lo <= j < hi
    ensures |KeptColumns(row, threshold)| == hi - lo
    ensures s.indices[j] == KeptColumns(row, threshold)[j - lo] && s.values[j] == KeptValues(row, threshold)[j - lo]
  {
    assert s.indices[lo..hi][j - lo] == s.indices[j] && s.values[lo..hi][j - lo] == s.values[j];
  }

  lemma SegmentReads(s: Store, lo: int, hi: int, row: seq<Num>, threshold: real, c: nat)
    requires Segment(s.values, s.indices, lo, hi, row, threshold) && c < |row|
    ensures Stored(s, lo, hi, c) == if Kept(row[c], threshold) then row[c] else s.fill
  {
    KeptShape(row, threshold);
    var (cs, vs) := (KeptColumns(row, threshold), KeptValues(row, threshold));
    forall j | lo <= j < hi
      ensures s.indices[j] == cs[j - lo] && s.values[j] == vs[j - lo] && KeptAt(row, threshold, s.indices[j], s.values[j])
    {
      SegmentAt(s, lo, hi, row, threshold, j);
    }
    if Kept(row[c], threshold) {
      var j :| 0 <= j < |cs| && cs[j] == c;
      SegmentAt(s, lo, hi, row, threshold, lo + j) by { assert |cs| == hi - lo; }
      hide Segment, KeptColumns, KeptValues;
      StoredFound(s, lo, hi, c, lo + j);
    } else {
      hide Segment, KeptColumns, KeptValues;
      StoredAbsent(s, lo, hi, c);
    }
  }

  lemma SegmentSorted(s: Store, lo: int, hi: int, row: seq<Num>, threshold: real)
    requires Segment(s.values, s.indices, lo, hi, row, threshold)
    ensures forall j, k :: lo <= j < k < hi ==> s.indices[j] < s.indices[k]
    ensures forall j :: lo <= j < hi ==> 0 <= s.indices[j] < |row|
  {
    KeptShape(row, threshold);
    var cs := KeptColumns(row, threshold);
    forall j | lo <= j < hi ensures s.indices[j] == cs[j - lo] && 0 <= cs[j - lo] < |row| {
      SegmentAt(s, lo, hi, row, threshold, j);
      assert KeptAt(row, threshold, cs[j - lo], KeptValues(row, threshold)[j - lo]);
    }
    hide Segment, KeptColumns;
  }

  /** A store made of the segments of all rows is well formed and stands for the thresholded matrix. */
  lemma SegmentsCompress(s: Store, m: Matrix, threshold: real)
    requires RowsInOrder(s) && Rectangular(m, s.cols) && s.rows == |m| && s.fill == R(0.0)
    requires forall r :: 0 <= r < |m| ==> Segment(s.values, s.indices, s.indptr[r], s.indptr[r + 1], m[r], threshold)
    ensures Compresses(s, m, s.cols, threshold)
  {
    forall r: nat, j, k | r < s.rows && InRow(s, r, j) && InRow(s, r, k) && j < k ensures s.indices[j] < s.indices[k] {
      SegmentSorted(s, s.indptr[r], s.indptr[r + 1], m[r], threshold);
    }
    forall k | 0 <= k < |s.indices| ensures 0 <= s.indices[k] < s.cols {
      var r := RowOf(s, k, s.rows);
      SegmentSorted(s, s.indptr[r], s.indptr[r + 1], m[r], threshold);
    }
    forall r, c | 0 <= r < |m| && 0 <= c < s.cols
      ensures At(s, r, c) == if Kept(m[r][c], threshold) then m[r][c] else R(0.0)
    {
      SegmentReads(s, s.indptr[r], s.indptr[r + 1], m[r], threshold, c);
    }
  }

  /** The row a stored position belongs to. */
  lemma {:induction false} RowOf(s: Store, k: int, below: nat) returns (r: nat)
    requires RowsInOrder(s) && 0 <= k && below <= s.rows && k < s.indptr[below]
    ensures r < s.rows && InRow(s, r, k)
    decreases below
  {
    if s.indptr[below - 1] <= k { r := below - 1; } else { r := RowOf(s, k, below - 1); }
  }

  /** `to_sparse`. */
  method ToSparse(m: Matrix, cols: nat, threshold: real) returns (s: Store)
    requires Rectangular(m, cols)
    ensures Compresses(s, m, cols, threshold)
  {
    var vals: seq<Num>, idx: seq<int> := [], [];
    var ptr: seq<int> := seq(|m| + 1, _ => 0);
    var r := 0;
    while r < |m|
      invariant 0 <= r <= |m| && |ptr| == |m| + 1 && |vals| == |idx|
      invariant ptr[0] == 0 && ptr[r] == |idx|
      invariant forall q, u :: 0 <= q <= u <= r ==> ptr[q] <= ptr[u]
      invariant forall q :: 0 <= q < r ==> Segment(vals, idx, ptr[q], ptr[q + 1], m[q], threshold)
    {
      var rowVals, rowIdx := CompressRow(m[r], threshold, vals, idx);
      ghost var (vals0, idx0) := (vals, idx);
      vals, idx := rowVals, rowIdx;
      ptr := ptr[r + 1 := |idx|];
      forall q | 0 <= q < r ensures Segment(vals, idx, ptr[q], ptr[q + 1], m[q], threshold) {
        SegmentKept(vals0, idx0, vals, idx, ptr[q], ptr[q + 1], m[q], threshold);
      }
      r := r + 1;
    }
    s := Store(|m|, cols, vals, idx, ptr, R(0.0));
    SegmentsCompress(s, m, threshold);
  }

  lemma SegmentKept(vals0: seq<Num>, idx0: seq<int>, vals: seq<Num>, idx: seq<int>, lo: int, hi: int, row: seq<Num>, threshold: real)
    requires Segment(vals0, idx0, lo, hi, row, threshold) && vals0 <= vals && idx0 <= idx && |vals| == |idx|
    ensures Segment(vals, idx, lo, hi, row, threshold)
  {
    assert vals[lo..hi] == vals0[lo..hi] && idx[lo..hi] == idx0[lo..hi];
  }

  /** The inner loop: the kept elements of one row behind those of the rows before. */
  method CompressRow(row: seq<Num>, threshold: real, vals: seq<Num>, idx: seq<int>) returns (vals': seq<Num>, idx': seq<int>)
    requires |vals| == |idx|
    ensures vals <= vals' && idx <= idx' && |vals'| == |idx'|
    ensures Segment(vals', idx', |idx|, |idx'|, row, threshold)
  {
    vals', idx' := vals, idx;
    var c := 0;
    while c < |row|
      invariant 0 <= c <= |row|
      invariant idx' == idx + KeptColumns(row[..c], threshold) && vals' == vals + KeptValues(row[..c], threshold)
    {
      assert row[..c + 1][..c] == row[..c];
      if row[c].R? && (row[c].val > threshold || row[c].val < -threshold) {
        vals' := vals' + [row[c]];
        idx' := idx' + [c];
      }
      c := c + 1;
    }
    assert row[..c] == row;
  }

  // ---------------------------------------------------------------- where the conditions matter

  /** Where the search for column c ends: a position that holds it, or -1. */
  function SearchEnd(s: Store, lo: int, hi: int, c: int): (k: int)
    requires 0 <= lo && hi <= |s.indices| == |s.values|
    ensures if k == -1 then Search(s, lo, hi, c) == s.fill
            else lo <= k < hi && s.indices[k] == c && Search(s, lo, hi, c) == s.values[k]
    decreases hi - lo
  {
    if lo >= hi then -1
    else
      var mid := lo + (hi - lo) / 2;
      if s.indices[mid] == c then mid
      else if s.indices[mid] < c then SearchEnd(s, mid + 1, hi, c)
      else SearchEnd(s, lo, mid, c)
  }

  predicate Increasing(s: Store, lo: int, hi: int)
    requires 0 <= lo && hi <= |s.indices|
  {
    forall j, k :: lo <= j < k < hi ==> s.indices[j] < s.indices[k]
  }

  /** Every stored position is found under its own column. */
  predicate AllReached(s: Store, lo: int, hi: int)
    requires 0 <= lo && hi <= |s.indices| == |s.values|
  {
    forall k :: lo <= k < hi ==> SearchEnd(s, lo, hi, s.indices[k]) == k
  }

  predicate DistinctColumns(s: Store, lo: int, hi: int)
    requires 0 <= lo && hi <= |s.indices|
  {
    forall j, k :: lo <= j < k < hi ==> s.indices[j] != s.indices[k]
  }

  /** One halving: a position is reached from the middle only if its column lies on its side. */
  lemma OneHalving(s: Store, lo: int, hi: int, mid: int, k: int)
    requires 0 <= lo <= k < hi <= |s.indices| == |s.values| && mid == lo + (hi - lo) / 2
    requires k != mid ==> s.indices[k] != s.indices[mid]
    ensures SearchEnd(s, lo, hi, s.indices[k]) == k <==>
      if k < mid then s.indices[k] < s.indices[mid] && SearchEnd(s, lo, mid, s.indices[k]) == k
      else if k > mid then s.indices[mid] < s.indices[k] && SearchEnd(s, mid + 1, hi, s.indices[k]) == k
      else true
  {
    hide Search;
  }

  lemma Halves(s: Store, lo: int, hi: int, mid: int)
    requires 0 <= lo < hi <= |s.indices| == |s.values| && mid == lo + (hi - lo) / 2 && DistinctColumns(s, lo, hi)
    ensures AllReached(s, lo, hi) <==>
      && (forall k :: lo <= k < mid ==> s.indices[k] < s.indices[mid])
      && (forall k :: mid < k < hi ==> s.indices[mid] < s.indices[k])
      && AllReached(s, lo, mid) && AllReached(s, mid + 1, hi)
  {
    hide Search, SearchEnd;
    forall k | lo <= k < hi
      ensures SearchEnd(s, lo, hi, s.indices[k]) == k <==>
        if k < mid then s.indices[k] < s.indices[mid] && SearchEnd(s, lo, mid, s.indices[k]) == k
        else if k > mid then s.indices[mid] < s.indices[k] && SearchEnd(s, mid + 1, hi, s.indices[k]) == k
        else true
    {
      OneHalving(s, lo, hi, mid, k);
    }
  }

  lemma IncreasingHalves(s: Store, lo: int, hi: int, mid: int)
    requires 0 <= lo <= mid < hi <= |s.indices|
    ensures Increasing(s, lo, hi) <==>
      && (forall k :: lo <= k < mid ==> s.indices[k] < s.indices[mid])
      && (forall k :: mid < k < hi ==> s.indices[mid] < s.indices[k])
      && Increasing(s, lo, mid) && Increasing(s, mid + 1, hi)
  {
    if (forall k :: lo <= k < mid ==> s.indices[k] < s.indices[mid])
      && (forall k :: mid < k < hi ==> s.indices[mid] < s.indices[k])
      && Increasing(s, lo, mid) && Increasing(s, mid + 1, hi)
    {
      forall j, k | lo <= j < k < hi ensures s.indices[j] < s.indices[k] {
        if j < mid < k { assert s.indices[j] < s.indices[mid] < s.indices[k]; }
      }
    }
  }

  lemma HalvesDistinct(s: Store, lo: int, hi: int, mid: int)
    requires 0 <= lo <= mid < hi <= |s.indices| && DistinctColumns(s, lo, hi)
    ensures DistinctColumns(s, lo, mid) && DistinctColumns(s, mid + 1, hi)
  {
  }

  lemma NothingStored(s: Store, lo: int)
    requires 0 <= lo <= |s.indices| == |s.values|
    ensures AllReached(s, lo, lo) && Increasing(s, lo, lo)
  {
  }

  /** For a row with distinct columns the search reaches every stored entry if and only if the columns increase. */
  lemma {:induction false} AllReachedIff(s: Store, lo: int, hi: int)
    requires 0 <= lo <= hi <= |s.indices| == |s.values| && DistinctColumns(s, lo, hi)
    ensures AllReached(s, lo, hi) <==> Increasing(s, lo, hi)
    decreases hi - lo
  {
    hide AllReached, Increasing, DistinctColumns, Search, SearchEnd;
    if lo == hi {
      NothingStored(s, lo);
    } else {
      var mid := lo + (hi - lo) / 2;
      HalvesDistinct(s, lo, hi, mid);
      Halves(s, lo, hi, mid);
      IncreasingHalves(s, lo, hi, mid);
      AllReachedIff(s, lo, mid);
      AllReachedIff(s, mid + 1, hi);
    }
  }

  /** Columns out of order: the expansion shows both entries, the binary search misses one. */
  lemma UnsortedRowDiffers()
    ensures var s := Store(1, 2, [R(1.0), R(2.0)], [1, 0], [0, 2], R(0.0));
      RowsInOrder(s) && At(s, 0, 1) == R(1.0) && Search(s, s.indptr[0], s.indptr[1], 1) == R(0.0)
  {
    var s := Store(1, 2, [R(1.0), R(2.0)], [1, 0], [0, 2], R(0.0));
    StoredFound(s, 0, 2, 1, 0);
    assert Search(s, 2, 2, 1) == R(0.0);
  }
}
