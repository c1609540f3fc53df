/** The float entry point of src/graph_executor.cpp: all threads write their rows into one output buffer. */
module FlatPredict {
  import opened Wrappers
  import opened ValueStores
  import opened GraphExecutor

  /** One float per input in every row. */
  predicate Complete(x: Executor, features: seq<Row>) {
    forall r :: 0 <= r < |features| ==> RowShaped(features[r], |x.inputNames|, 4)
  }

  function InputColumn(x: Executor, features: seq<Row>, f: nat, lo: nat, hi: nat): (t: Tensor)
    requires Complete(x, features) && f < |x.inputNames| && lo <= hi <= |features|
    ensures Shaped(t) && |t.rows| == hi - lo
  {
    Tensor(Float32, false, 1, seq(hi - lo, i requires 0 <= i < hi - lo => [features[lo + i][f]]))
  }

  /** The store after the first k inputs of rows lo to hi were put. */
  function InputColumns(x: Executor, features: seq<Row>, k: nat, lo: nat, hi: nat): Env
    requires Complete(x, features) && k <= |x.inputNames| && lo <= hi <= |features|
  {
    if k == 0 then map[] else InputColumns(x, features, k - 1, lo, hi)[x.inputNames[k - 1] := InputColumn(x, features, k - 1, lo, hi)]
  }

  function ChunkStore(x: Executor, features: seq<Row>, lo: nat, hi: nat): Option<Env>
    requires Complete(x, features) && lo <= hi <= |features|
  {
    RunNodes(x.nodes, InputColumns(x, features, |x.inputNames|, lo, hi), hi - lo)
  }

  /** Row r of an output as floats: float tensors are copied, everything else is converted. */
  function AsFloats(x: Executor, t: Tensor, r: nat): (row: Row)
    requires r < |t.rows|
    ensures |row| == |t.rows[r]|
  {
    if t.dt == Float32 && !t.sparse then t.rows[r] else NarrowRow(x, t.dt, t.rows[r])
  }

  /** Row r of the first k outputs side by side; a missing output is an exception. */
  function OutputRow(x: Executor, env: Env, r: nat, k: nat): Option<Row>
    requires k <= |x.outputs|
  {
    if k == 0 then Some([])
    else
      match OutputRow(x, env, r, k - 1)
      case None => None
      case Some(row) =>
        match Lookup(env, x.consts, x.outputs[k - 1])
        case None => None
        case Some(t) => if r < |t.rows| then Some(row + AsFloats(x, t, r)) else None
  }

  /** What row i of the chunk lo to hi must be. */
  function ChunkRow(x: Executor, features: seq<Row>, lo: nat, hi: nat, i: nat): Option<Row>
    requires Complete(x, features) && lo <= hi <= |features|
  {
    match ChunkStore(x, features, lo, hi)
    case None => None
    case Some(env) => OutputRow(x, env, i, |x.outputs|)
  }

  // ---------------------------------------------------------------- what a chunk is fed

  /** The float buffer is one wide tensor of floats: both entry points run the graph on the same store. */
  lemma {:induction false} FlatIsWide(x: Executor, features: seq<Row>, wide: string, k: nat, lo: nat, hi: nat)
    requires Complete(x, features) && k <= |x.inputNames| && lo <= hi <= |features|
    requires x.inputNames != [] ==> x.inputNames[0] != wide
    ensures BindInputs(x, map[wide := Tensor(Float32, false, |x.inputNames|, features)], wide, k, lo, hi) ==
            Some(InputColumns(x, features, k, lo, hi))
  {
    hide Complete, Shaped, InputColumn, InputFor;
    if k > 0 {
      FlatIsWide(x, features, wide, k - 1, lo, hi);
      FlatSlot(x, features, wide, k - 1, lo, hi);
    }
  }

  lemma FlatSlot(x: Executor, features: seq<Row>, wide: string, f: nat, lo: nat, hi: nat)
    requires Complete(x, features) && f < |x.inputNames| && lo <= hi <= |features| && x.inputNames[0] != wide
    ensures InputFor(x, map[wide := Tensor(Float32, false, |x.inputNames|, features)], wide, f, lo, hi) ==
            Some(InputColumn(x, features, f, lo, hi))
  {
    var t := Tensor(Float32, false, |x.inputNames|, features);
    OneWideInput(x, t, wide, f, lo, hi);
    assert Shaped(t);
    var (a, b) := (Slice(ColumnOf(t, f), lo, hi), InputColumn(x, features, f, lo, hi));
    assert a.rows == b.rows;
  }

  lemma FlatRunsAsWide(x: Executor, features: seq<Row>, wide: string, lo: nat, hi: nat)
    requires Complete(x, features) && lo <= hi <= |features|
    requires x.inputNames != [] ==> x.inputNames[0] != wide
    ensures ChunkStore(x, features, lo, hi) ==
            FinalStore(x, map[wide := Tensor(Float32, false, |x.inputNames|, features)], wide, lo, hi)
  {
    FlatIsWide(x, features, wide, |x.inputNames|, lo, hi);
  }

  // ---------------------------------------------------------------- a chunk computes its rows

  lemma {:induction false} ColumnsSlice(x: Executor, features: seq<Row>, k: nat, lo: nat, hi: nat)
    requires Complete(x, features) && k <= |x.inputNames| && lo <= hi <= |features|
    ensures var n := |features|;
      Aligned(InputColumns(x, features, k, 0, n), n) &&
      InputColumns(x, features, k, lo, hi) == SliceEnv(InputColumns(x, features, k, 0, n), n, lo, hi)
  {
    hide Aligned, Shaped, SliceEnv, Complete;
    var n := |features|;
    if k == 0 {
      EmptySlices(n, lo, hi);
    } else {
      ColumnsSlice(x, features, k - 1, lo, hi);
      assert Slice(InputColumn(x, features, k - 1, 0, n), lo, hi) == InputColumn(x, features, k - 1, lo, hi);
      SlicePut(InputColumns(x, features, k - 1, 0, n), x.inputNames[k - 1], InputColumn(x, features, k - 1, 0, n), n, lo, hi);
    }
  }

  /** One row-local run over the batch succeeds. */
  ghost predicate Healthy(x: Executor, features: seq<Row>) {
    && Complete(x, features)
    && (forall f :: f in x.nodes ==> RowLocal(f))
    && ChunkStore(x, features, 0, |features|).Some?
  }

  /** The tensors of the outputs, each with rows of one width and at least one for every sample. */
  ghost predicate Writable(x: Executor, env: Env, n: nat, k: nat, width: nat)
    requires k <= |x.outputs|
  {
    (forall j :: 0 <= j < k ==>
       Lookup(env, x.consts, x.outputs[j]).Some? && Shaped(Lookup(env, x.consts, x.outputs[j]).value) &&
       |Lookup(env, x.consts, x.outputs[j]).value.rows| >= n) &&
    OutputWidth(x, env, k) <= width
  }

  function OutputWidth(x: Executor, env: Env, k: nat): nat
    requires k <= |x.outputs|
  {
    if k == 0 then 0
    else
      match Lookup(env, x.consts, x.outputs[k - 1])
      case None => OutputWidth(x, env, k - 1)
      case Some(t) => OutputWidth(x, env, k - 1) + t.cols
  }

  lemma {:induction false} RowWidth(x: Executor, env: Env, n: nat, r: nat, k: nat, width: nat)
    requires k <= |x.outputs| && Writable(x, env, n, k, width) && r < n
    ensures OutputRow(x, env, r, k).Some? && |OutputRow(x, env, r, k).value| == OutputWidth(x, env, k)
  {
    if k > 0 {
      var t := Lookup(env, x.consts, x.outputs[k - 1]).value;
      assert RowShaped(t.rows[r], t.cols, Size(t.dt));
      RowWidth(x, env, n, r, k - 1, width);
    }
  }

  /** Output j is a constant of the model, and its rows q and r read alike. */
  predicate SameConstantRow(x: Executor, env: Env, j: nat, q: nat, r: nat)
    requires j < |x.outputs|
  {
    var name := x.outputs[j];
    name !in env && name in x.consts ==>
      q < |x.consts[name].rows| && r < |x.consts[name].rows| && AsFloats(x, x.consts[name], q) == AsFloats(x, x.consts[name], r)
  }

  /** A chunk counts the rows of a constant from its own start. */
  predicate SameConstants(x: Executor, env: Env, q: nat, r: nat, k: nat)
    requires k <= |x.outputs|
  {
    forall j :: 0 <= j < k ==> SameConstantRow(x, env, j, q, r)
  }

  lemma JoinedEqual(a: Row, b: Row, c: Row, d: Row)
    requires |a| == |b|
    ensures a + c == b + d <==> a == b && c == d
  {
    if a + c == b + d {
      assert (a + c)[..|a|] == a && (b + d)[..|b|] == b;
      assert (a + c)[|a|..] == c && (b + d)[|b|..] == d;
    }
  }

  lemma {:induction false} OutputRowSlices(x: Executor, env: Env, n: nat, lo: nat, hi: nat, i: nat, k: nat, width: nat)
    requires Aligned(env, n) && lo <= hi <= n && i < hi - lo && k <= |x.outputs| && Writable(x, env, n, k, width)
    ensures OutputRow(x, SliceEnv(env, n, lo, hi), i, k).Some? && OutputRow(x, env, lo + i, k).Some?
    ensures |OutputRow(x, SliceEnv(env, n, lo, hi), i, k).value| == |OutputRow(x, env, lo + i, k).value|
    ensures OutputRow(x, SliceEnv(env, n, lo, hi), i, k) == OutputRow(x, env, lo + i, k) <==> SameConstants(x, env, i, lo + i, k)
  {
    hide Aligned, Shaped, SliceEnv, AsFloats, SameConstantRow, SameConstants, Writable, OutputRow, PieceOf;
    var part := SliceEnv(env, n, lo, hi);
    if k == 0 {
      NoPieces(x, part, env, i, lo + i);
    } else {
      NarrowerFits(x, env, n, k, width);
      OutputRowSlices(x, env, n, lo, hi, i, k - 1, width);
      OnePiece(x, env, n, lo, hi, i, k - 1);
      hide *;
      OnePieceMore(x, part, i, k - 1);
      OnePieceMore(x, env, lo + i, k - 1);
      OneConstantMore(x, env, i, lo + i, k - 1);
      JoinedEqual(OutputRow(x, part, i, k - 1).value, OutputRow(x, env, lo + i, k - 1).value,
                  PieceOf(x, part, i, k - 1), PieceOf(x, env, lo + i, k - 1));
    }
  }

  lemma NoPieces(x: Executor, part: Env, env: Env, q: nat, r: nat)
    ensures OutputRow(x, part, q, 0) == Some([]) == OutputRow(x, env, r, 0) && SameConstants(x, env, q, r, 0)
  {
  }

  lemma NarrowerFits(x: Executor, env: Env, n: nat, k: nat, width: nat)
    requires 0 < k <= |x.outputs| && Writable(x, env, n, k, width)
    ensures Writable(x, env, n, k - 1, width)
    ensures var t := Lookup(env, x.consts, x.outputs[k - 1]); t.Some? && Shaped(t.value) && |t.value.rows| >= n
  {
    hide Shaped;
  }

  lemma OneConstantMore(x: Executor, env: Env, q: nat, r: nat, k: nat)
    requires k < |x.outputs|
    ensures SameConstants(x, env, q, r, k + 1) <==> SameConstants(x, env, q, r, k) && SameConstantRow(x, env, k, q, r)
  {
    hide SameConstantRow;
  }

  lemma OnePieceMore(x: Executor, env: Env, r: nat, j: nat)
    requires j < |x.outputs| && OutputRow(x, env, r, j).Some?
    requires var t := Lookup(env, x.consts, x.outputs[j]); t.Some? && r < |t.value.rows|
    ensures OutputRow(x, env, r, j + 1) == Some(OutputRow(x, env, r, j).value + PieceOf(x, env, r, j))
  {
    hide AsFloats;
  }

  /** Row r of output j as floats. */
  function PieceOf(x: Executor, env: Env, r: nat, j: nat): Row
    requires j < |x.outputs|
  {
    var t := Lookup(env, x.consts, x.outputs[j]);
    if t.Some? && r < |t.value.rows| then AsFloats(x, t.value, r) else []
  }

  lemma OnePiece(x: Executor, env: Env, n: nat, lo: nat, hi: nat, i: nat, j: nat)
    requires Aligned(env, n) && lo <= hi <= n && i < hi - lo && j < |x.outputs|
    requires var t := Lookup(env, x.consts, x.outputs[j]); t.Some? && Shaped(t.value) && |t.value.rows| >= n
    ensures var (part, name) := (SliceEnv(env, n, lo, hi), x.outputs[j]);
      && Lookup(part, x.consts, name).Some? && i < |Lookup(part, x.consts, name).value.rows|
      && |PieceOf(x, part, i, j)| == |PieceOf(x, env, lo + i, j)|
      && (PieceOf(x, part, i, j) == PieceOf(x, env, lo + i, j) <==> SameConstantRow(x, env, j, i, lo + i))
  {
    var t := Lookup(env, x.consts, x.outputs[j]).value;
    assert RowShaped(t.rows[i], t.cols, Size(t.dt)) && RowShaped(t.rows[lo + i], t.cols, Size(t.dt));
  }

  /** Row i of a chunk is that row of the whole batch if and only if every output that is a constant of the model
      reads alike in both rows. */
  lemma ChunkRowIsRow(x: Executor, features: seq<Row>, lo: nat, hi: nat, i: nat, width: nat)
    requires Healthy(x, features) && lo < hi <= |features| && i < hi - lo
    requires Writable(x, ChunkStore(x, features, 0, |features|).value, |features|, |x.outputs|, width)
    ensures var (part, whole) := (ChunkRow(x, features, lo, hi, i), ChunkRow(x, features, 0, |features|, lo + i));
      && part.Some? && whole.Some? && |part.value| == |whole.value|
      && (part == whole <==> SameConstants(x, ChunkStore(x, features, 0, |features|).value, i, lo + i, |x.outputs|))
  {
    hide Complete, Aligned, SliceEnv, Writable, SameConstants, OutputRow;
    var n := |features|;
    ColumnsSlice(x, features, |x.inputNames|, lo, hi);
    NodesRowLocal(x.nodes, InputColumns(x, features, |x.inputNames|, 0, n), n, lo, hi);
    OutputRowSlices(x, ChunkStore(x, features, 0, n).value, n, lo, hi, i, |x.outputs|, width);
  }

  // ---------------------------------------------------------------- the code

  /** Row r of the buffer starts with `row`, the rest of it is as it was. */
  ghost predicate StartsWith(output: array2<Cell>, r: int, row: Row)
    reads output
  {
    0 <= r < output.Length0 && |row| <= output.Length1 && forall c :: 0 <= c < |row| ==> output[r, c] == row[c]
  }

  /** The buffer cell (r, c) when the first `rows` rows of t are at (lo, off), and `was` before. */
  function Placed(x: Executor, t: Tensor, rows: nat, lo: nat, off: nat, r: int, c: int, was: Cell): Cell
    requires rows <= |t.rows|
  {
    if lo <= r < lo + rows && off <= c < off + t.cols && |AsFloats(x, t, r - lo)| == t.cols
    then AsFloats(x, t, r - lo)[c - off] else was
  }

  /** Lines 46 to 62 for one output: its first n rows go to rows lo and on, columns off and on. */
  method WriteOutput(x: Executor, t: Tensor, n: nat, output: array2<Cell>, lo: nat, off: nat)
    requires Shaped(t) && n <= |t.rows| && lo + n <= output.Length0 && off + t.cols <= output.Length1
    modifies output
    ensures forall r, c | 0 <= r < output.Length0 && 0 <= c < output.Length1 ::
      output[r, c] == Placed(x, t, n, lo, off, r, c, old(output[r, c]))
    ensures forall r: nat :: r < n ==> RowShaped(t.rows[r], t.cols, Size(t.dt))
    ensures forall r: nat, c: nat :: r < n && c < t.cols ==>
      output[lo + r, off + c] == if t.dt == Float32 && !t.sparse then t.rows[r][c] else x.narrow(t.dt, t.rows[r][c])
  {
    var r := 0;
    while r < n
      invariant 0 <= r <= n
      invariant forall q, c | 0 <= q < output.Length0 && 0 <= c < output.Length1 ::
        output[q, c] == Placed(x, t, r, lo, off, q, c, old(output[q, c]))
    {
      assert RowShaped(t.rows[r], t.cols, Size(t.dt));
      WriteRow(AsFloats(x, t, r), output, lo + r, off);
      r := r + 1;
    }
  }

  method WriteRow(row: Row, output: array2<Cell>, r: nat, off: nat)
    requires r < output.Length0 && off + |row| <= output.Length1
    modifies output
    ensures forall q, c | 0 <= q < output.Length0 && 0 <= c < output.Length1 ::
      output[q, c] == if q == r && off <= c < off + |row| then row[c - off] else old(output[q, c])
  {
    var c := 0;
    while c < |row|
      invariant 0 <= c <= |row|
      invariant forall q, d | 0 <= q < output.Length0 && 0 <= d < output.Length1 ::
        output[q, d] == if q == r && off <= d < off + c then row[d - off] else old(output[q, d])
    {
      output[r, off + c] := row[c];
      c := c + 1;
    }
  }

  /** The output loop of `predict_chunk`, over a final store whose outputs fit the buffer. */
  method WriteOutputs(x: Executor, env: Env, output: array2<Cell>, lo: nat, hi: nat)
    requires lo <= hi <= output.Length0 && Writable(x, env, hi - lo, |x.outputs|, output.Length1)
    modifies output
    ensures forall r, c | 0 <= r < output.Length0 && 0 <= c < output.Length1 && !(lo <= r < hi) ::
      output[r, c] == old(output[r, c])
    ensures forall i: nat :: i < hi - lo ==>
      OutputRow(x, env, i, |x.outputs|).Some? && StartsWith(output, lo + i, OutputRow(x, env, i, |x.outputs|).value)
  {
    hide OutputRow, AsFloats;
    var n := hi - lo;
    var j, off := 0, 0;
    forall i: nat | i < n ensures OutputRow(x, env, i, 0) == Some([]) { NoOutputs(x, env, i); }
    while j < |x.outputs|
      invariant 0 <= j <= |x.outputs| && off == OutputWidth(x, env, j) <= output.Length1
      invariant forall r, c | 0 <= r < output.Length0 && 0 <= c < output.Length1 && !(lo <= r < hi) ::
        output[r, c] == old(output[r, c])
      invariant forall i: nat :: i < n ==> OutputRow(x, env, i, j).Some? && |OutputRow(x, env, i, j).value| == off
      invariant forall i: nat :: i < n ==> StartsWith(output, lo + i, OutputRow(x, env, i, j).value)
    {
      var t := Lookup(env, x.consts, x.outputs[j]).value;
      WidthGrows(x, env, j + 1, |x.outputs|);
      label before:
      WriteOutput(x, t, n, output, lo, off);
      var next := j + 1;
      forall i: nat | i < n
        ensures OutputRow(x, env, i, next).Some? && |OutputRow(x, env, i, next).value| == off + t.cols
        ensures StartsWith(output, lo + i, OutputRow(x, env, i, next).value)
      {
        assert old@before(StartsWith(output, lo + i, OutputRow(x, env, i, j).value));
        NextOutput(x, env, i, j, t);
      }
      off := off + t.cols;
      j := next;
    }
  }

  lemma NoOutputs(x: Executor, env: Env, i: nat)
    ensures OutputRow(x, env, i, 0) == Some([])
  {
  }

  lemma NextOutput(x: Executor, env: Env, i: nat, j: nat, t: Tensor)
    requires j < |x.outputs| && OutputRow(x, env, i, j).Some?
    requires Lookup(env, x.consts, x.outputs[j]) == Some(t) && Shaped(t) && i < |t.rows|
    ensures OutputRow(x, env, i, j + 1) == Some(OutputRow(x, env, i, j).value + AsFloats(x, t, i))
    ensures |AsFloats(x, t, i)| == t.cols
  {
    assert RowShaped(t.rows[i], t.cols, Size(t.dt));
  }

  lemma {:induction false} WidthGrows(x: Executor, env: Env, j: nat, k: nat)
    requires j <= k <= |x.outputs|
    ensures OutputWidth(x, env, j) <= OutputWidth(x, env, k)
  {
    if j < k { WidthGrows(x, env, j, k - 1); }
  }

  /** `predict_chunk`; false stands for an exception or outputs that do not fit a row of the buffer. */
  method PredictChunk(x: Executor, features: seq<Row>, output: array2<Cell>, lo: nat, hi: nat) returns (ok: bool)
    requires Complete(x, features) && lo <= hi <= |features| == output.Length0
    modifies output
    ensures var store := ChunkStore(x, features, lo, hi);
      ok == (store.Some? && Writable(x, store.value, hi - lo, |x.outputs|, output.Length1))
    ensures forall r, c | 0 <= r < output.Length0 && 0 <= c < output.Length1 && !(lo <= r < hi) ::
      output[r, c] == old(output[r, c])
    ensures ok ==> forall i: nat :: i < hi - lo ==>
      ChunkRow(x, features, lo, hi, i).Some? && StartsWith(output, lo + i, ChunkRow(x, features, lo, hi, i).value)
  {
    var env := BindColumns(x, features, lo, hi);
    var store := RunNodes(x.nodes, env, hi - lo);
    if store.None? { return false; }
    ok := Fits(x, store.value, hi - lo, output.Length1);
    if ok { WriteOutputs(x, store.value, output, lo, hi); }
  }

  /** Lines 22 to 27. */
  method BindColumns(x: Executor, features: seq<Row>, lo: nat, hi: nat) returns (env: Env)
    requires Complete(x, features) && lo <= hi <= |features|
    ensures env == InputColumns(x, features, |x.inputNames|, lo, hi)
  {
    env := map[];
    var f := 0;
    while f < |x.inputNames|
      invariant 0 <= f <= |x.inputNames| && env == InputColumns(x, features, f, lo, hi)
    {
      env := env[x.inputNames[f] := InputColumn(x, features, f, lo, hi)];
      f := f + 1;
    }
  }

  method Fits(x: Executor, env: Env, n: nat, width: nat) returns (ok: bool)
    ensures ok == Writable(x, env, n, |x.outputs|, width)
  {
    hide Shaped;
    ok := true;
    var j := 0;
    while j < |x.outputs|
      invariant 0 <= j <= |x.outputs|
      invariant ok == Writable(x, env, n, j, OutputWidth(x, env, j))
    {
      var t := Lookup(env, x.consts, x.outputs[j]);
      ok := ok && t.Some? && Shaped(t.value) && |t.value.rows| >= n;
      j := j + 1;
    }
    ok := ok && OutputWidth(x, env, j) <= width;
  }

  /** Row r of the buffer is what the chunk lo to hi computes for it. */
  ghost predicate Written(x: Executor, features: seq<Row>, output: array2<Cell>, lo: nat, hi: nat, r: nat)
    requires Complete(x, features) && lo <= r < hi <= |features|
    reads output
  {
    ChunkRow(x, features, lo, hi, r - lo).Some? && StartsWith(output, r, ChunkRow(x, features, lo, hi, r - lo).value)
  }

  /** The rows of task t are what its chunk computes. */
  ghost predicate TaskWritten(x: Executor, features: seq<Row>, output: array2<Cell>, threads: nat, t: nat)
    requires Complete(x, features) && threads > 0
    reads output
  {
    var n := |features|;
    forall r: nat :: Takes(n, threads, t, r) ==> Written(x, features, output, From(n, threads, t), To(n, threads, t), r)
  }

  /** Every row of the batch is what one run over all rows gives. */
  ghost predicate SerialRows(x: Executor, features: seq<Row>, output: array2<Cell>)
    requires Complete(x, features)
    reads output
  {
    forall r: nat :: r < |features| ==> Written(x, features, output, 0, |features|, r)
  }

  /** The buffer after the whole call. */
  ghost predicate AllWritten(x: Executor, features: seq<Row>, output: array2<Cell>, threads: nat)
    requires Complete(x, features)
    reads output
  {
    if Uncut(x, |features|, threads) then SerialRows(x, features, output)
    else forall t: nat :: t < threads ==> TaskWritten(x, features, output, threads, t)
  }

  /** What holds of the serial store for the outputs to fit, holds of every chunk's. */
  lemma ChunkFits(x: Executor, features: seq<Row>, lo: nat, hi: nat, width: nat)
    requires Healthy(x, features) && lo < hi <= |features|
    requires Writable(x, ChunkStore(x, features, 0, |features|).value, |features|, |x.outputs|, width)
    ensures ChunkStore(x, features, lo, hi).Some?
    ensures Writable(x, ChunkStore(x, features, lo, hi).value, hi - lo, |x.outputs|, width)
  {
    hide Complete, Writable, Aligned, SliceEnv;
    var n := |features|;
    ColumnsSlice(x, features, |x.inputNames|, lo, hi);
    NodesRowLocal(x.nodes, InputColumns(x, features, |x.inputNames|, 0, n), n, lo, hi);
    SliceFits(x, ChunkStore(x, features, 0, n).value, n, lo, hi, |x.outputs|, width);
  }

  lemma {:induction false} SliceFits(x: Executor, env: Env, n: nat, lo: nat, hi: nat, k: nat, width: nat)
    requires Aligned(env, n) && lo <= hi <= n && k <= |x.outputs| && Writable(x, env, n, k, width)
    ensures Writable(x, SliceEnv(env, n, lo, hi), hi - lo, k, width)
    ensures OutputWidth(x, SliceEnv(env, n, lo, hi), k) == OutputWidth(x, env, k)
  {
    if k > 0 {
      NarrowerFits(x, env, n, k, width);
      SliceFits(x, env, n, lo, hi, k - 1, width);
      SliceLooksUp(x, env, n, lo, hi, x.outputs[k - 1]);
      hide Aligned, Shaped, SliceEnv;
    }
  }

  lemma SliceLooksUp(x: Executor, env: Env, n: nat, lo: nat, hi: nat, name: string)
    requires Aligned(env, n) && lo <= hi <= n && Lookup(env, x.consts, name).Some?
    ensures var (t, s) := (Lookup(env, x.consts, name).value, Lookup(SliceEnv(env, n, lo, hi), x.consts, name));
      s.Some? && s.value.cols == t.cols && (Shaped(t) ==> Shaped(s.value)) && (|t.rows| >= n ==> |s.value.rows| >= hi - lo)
  {
    if name in env { SliceShaped(env[name], lo, hi); }
  }

  /** One task of lines 79 to 84. */
  method RunTask(x: Executor, features: seq<Row>, output: array2<Cell>, threads: nat, t: nat) returns (ok: bool)
    requires Healthy(x, features) && |features| == output.Length0 && threads > 0
    requires Writable(x, ChunkStore(x, features, 0, |features|).value, |features|, |x.outputs|, output.Length1)
    modifies output
    ensures ok && TaskWritten(x, features, output, threads, t)
    ensures forall r: nat, c: nat | r < output.Length0 && c < output.Length1 && !Takes(|features|, threads, t, r) ::
      output[r, c] == old(output[r, c])
  {
    hide ChunkRow, StartsWith, ChunkStore, Writable, Complete;
    var n := |features|;
    ok := true;
    var lo := From(n, threads, t);
    if lo < n {
      ChunkCovers(n, threads);
      var hi := To(n, threads, t);
      ChunkFits(x, features, lo, hi, output.Length1);
      ok := PredictChunk(x, features, output, lo, hi);
      forall r: nat | Takes(n, threads, t, r) ensures Written(x, features, output, lo, hi, r) {
        assert StartsWith(output, lo + (r - lo), ChunkRow(x, features, lo, hi, r - lo).value);
      }
    }
  }

  /** `predict`: the tasks write disjoint rows of one buffer, in whatever order they run. */
  method Predict(x: Executor, features: seq<Row>, output: array2<Cell>, threads: nat, order: seq<nat>) returns (ok: bool)
    requires Healthy(x, features) && |features| == output.Length0 && EachOnce(order, threads)
    requires Writable(x, ChunkStore(x, features, 0, |features|).value, |features|, |x.outputs|, output.Length1)
    modifies output
    ensures ok && AllWritten(x, features, output, threads)
  {
    hide ChunkRow, ChunkStore, Writable, Complete, Chunk, RowLocal;
    var n := |features|;
    if n == 0 {
      NothingToWrite(x, features, output, threads);
      return true;
    }
    if !(threads > 1 && n >= threads * x.minParallelRows) {
      ok := PredictWhole(x, features, output);
      return;
    }
    ok := true;
    var i := 0;
    while i < |order|
      invariant 0 <= i <= |order| && ok
      invariant forall j :: 0 <= j < i ==> TaskWritten(x, features, output, threads, order[j])
    {
      label before:
      ok := RunTask(x, features, output, threads, order[i]);
      forall j | 0 <= j < i ensures TaskWritten(x, features, output, threads, order[j]) {
        assert order[j] != order[i];
        assert old@before(TaskWritten(x, features, output, threads, order[j]));
        forall r: nat | Takes(n, threads, order[j], r)
          ensures Written(x, features, output, From(n, threads, order[j]), To(n, threads, order[j]), r)
        {
          RowHasOneTask(n, threads, r);
          assert old@before(Written(x, features, output, From(n, threads, order[j]), To(n, threads, order[j]), r));
        }
      }
      i := i + 1;
    }
    forall t: nat | t < threads ensures TaskWritten(x, features, output, threads, t) { Scheduled(order, threads, t); }
  }

  lemma NothingToWrite(x: Executor, features: seq<Row>, output: array2<Cell>, threads: nat)
    requires Complete(x, features) && features == []
    ensures AllWritten(x, features, output, threads)
  {
  }

  method PredictWhole(x: Executor, features: seq<Row>, output: array2<Cell>) returns (ok: bool)
    requires Healthy(x, features) && |features| == output.Length0
    requires Writable(x, ChunkStore(x, features, 0, |features|).value, |features|, |x.outputs|, output.Length1)
    modifies output
    ensures ok && SerialRows(x, features, output)
  {
    hide ChunkRow, StartsWith, ChunkStore, Writable, Complete;
    ok := PredictChunk(x, features, output, 0, |features|);
    forall r: nat | r < |features| ensures Written(x, features, output, 0, |features|, r) {
      assert StartsWith(output, 0 + r, ChunkRow(x, features, 0, |features|, r).value);
    }
  }

  lemma Scheduled(order: seq<nat>, threads: nat, t: nat)
    requires EachOnce(order, threads) && t < threads
    ensures exists j :: 0 <= j < |order| && order[j] == t
  {
    assert t in order;
  }

  // ---------------------------------------------------------------- parallel is serial

  /** In every chunk the constants of the model among the outputs read as they do in the whole batch. */
  ghost predicate ConstantsAgree(x: Executor, features: seq<Row>, threads: nat)
    requires Healthy(x, features) && threads > 0
  {
    forall t: nat, r: nat :: t < threads && Takes(|features|, threads, t, r) ==>
      SameConstants(x, ChunkStore(x, features, 0, |features|).value, r - From(|features|, threads, t), r, |x.outputs|)
  }

  lemma StartsWithEither(output: array2<Cell>, r: int, a: Row, b: Row)
    requires |a| == |b| && StartsWith(output, r, a)
    ensures StartsWith(output, r, b) <==> a == b
  {
    if StartsWith(output, r, b) {
      forall c | 0 <= c < |a| ensures a[c] == b[c] { assert output[r, c] == a[c]; }
    }
  }

  /** What the call leaves in the buffer is what one thread would have, if and only if the batch is not cut or the
      constants among the outputs read alike from the start of every chunk. */
  lemma ParallelIsSerial(x: Executor, features: seq<Row>, output: array2<Cell>, threads: nat)
    requires Healthy(x, features) && |features| == output.Length0
    requires Writable(x, ChunkStore(x, features, 0, |features|).value, |features|, |x.outputs|, output.Length1)
    requires AllWritten(x, features, output, threads)
    ensures SerialRows(x, features, output) <==> Uncut(x, |features|, threads) || ConstantsAgree(x, features, threads)
  {
    var n := |features|;
    if !Uncut(x, n, threads) {
      hide Healthy, Complete, ChunkStore, ChunkRow, Writable, SameConstants, StartsWith, Chunk, Takes, Uncut;
      if ConstantsAgree(x, features, threads) {
        forall r: nat | r < n ensures Written(x, features, output, 0, n, r) {
          RowHasOneTask(n, threads, r);
          var t: nat :| t < threads && Takes(n, threads, t, r);
          OneRowAgrees(x, features, output, threads, t, r);
        }
      }
      if SerialRows(x, features, output) {
        forall t: nat, r: nat | t < threads && Takes(n, threads, t, r)
          ensures SameConstants(x, ChunkStore(x, features, 0, n).value, r - From(n, threads, t), r, |x.outputs|)
        {
          OneRowAgrees(x, features, output, threads, t, r);
        }
      }
    }
  }

  lemma OneRowAgrees(x: Executor, features: seq<Row>, output: array2<Cell>, threads: nat, t: nat, r: nat)
    requires Healthy(x, features) && |features| == output.Length0 && threads > 0
    requires Writable(x, ChunkStore(x, features, 0, |features|).value, |features|, |x.outputs|, output.Length1)
    requires TaskWritten(x, features, output, threads, t) && Takes(|features|, threads, t, r)
    ensures r < |features|
    ensures Written(x, features, output, 0, |features|, r) <==>
      SameConstants(x, ChunkStore(x, features, 0, |features|).value, r - From(|features|, threads, t), r, |x.outputs|)
  {
    var n := |features|;
    var (lo, hi) := (From(n, threads, t), To(n, threads, t));
    hide Healthy, ChunkStore, ChunkRow, Writable, SameConstants, StartsWith;
    assert Written(x, features, output, lo, hi, r);
    ChunkRowIsRow(x, features, lo, hi, r - lo, output.Length1);
    StartsWithEither(output, r, ChunkRow(x, features, lo, hi, r - lo).value, ChunkRow(x, features, 0, n, r).value);
  }
}
