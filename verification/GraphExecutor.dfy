/** Batch prediction of src/graph_executor.cpp: a batch is cut into row chunks, every chunk runs the graph
    in a store of its own, and the results are joined byte by byte. */
module GraphExecutor {
  import opened Wrappers
  import opened ValueStores

  datatype DataType =
    Unknown | Bool | Int8 | Int16 | Int32 | Int64 | UInt8 | UInt16 | UInt32 | UInt64 | Float16 | Float32 | Float64 |
    String | Bytes | Date | Time | Timestamp

  /** `dtype_size` of include/omle/tensor.h. */
  function Size(dt: DataType): (w: nat)
    ensures w == 1 || w == 2 || w == 4 || w == 8
    ensures w == 8 <==> dt in {Int64, UInt64, Float64}
    ensures w == 4 <==> dt in {Int32, UInt32, Float32}
    ensures w == 2 <==> dt in {Int16, UInt16, Float16}
  {
    match dt
    case Int16 | UInt16 | Float16 => 2
    case Int32 | UInt32 | Float32 => 4
    case Int64 | UInt64 | Float64 => 8
    case _ => 1
  }

  /** The bytes of one element. */
  type Cell = seq<bv8>
  type Row = seq<Cell>

  /** The bytes of a float. */
  type Single = c: Cell | |c| == 4 witness [0, 0, 0, 0]

  datatype Tensor = Tensor(dt: DataType, sparse: bool, cols: nat, rows: seq<Row>)

  type Env = map<string, Tensor>

  /** One node: the local values after executing it over that many rows. */
  type NodeFn = (Env, nat) -> Option<Env>

  datatype Executor = Executor(
    inputNames: seq<string>, consts: Env, nodes: seq<NodeFn>, outputs: seq<string>, minParallelRows: int,
    narrow: (DataType, Cell) -> Single)

  predicate Shaped(t: Tensor) {
    forall i :: 0 <= i < |t.rows| ==> RowShaped(t.rows[i], t.cols, Size(t.dt))
  }

  predicate RowShaped(row: Row, cols: nat, width: nat) {
    |row| == cols && forall j :: 0 <= j < cols ==> |row[j]| == width
  }

  /** Every local value has one row per sample. */
  predicate Aligned(env: Env, n: nat) {
    forall x :: x in env ==> |env[x].rows| == n && Shaped(env[x])
  }

  function Slice(t: Tensor, lo: nat, hi: nat): Tensor
    requires lo <= hi <= |t.rows|
  {
    t.(rows := t.rows[lo..hi])
  }

  function SliceEnv(env: Env, n: nat, lo: nat, hi: nat): Env
    requires Aligned(env, n) && lo <= hi <= n
  {
    map x | x in env :: Slice(env[x], lo, hi)
  }

  ghost predicate LocalAt(f: NodeFn, env: Env, n: nat, lo: nat, hi: nat) {
    Aligned(env, n) && lo < hi <= n && f(env, n).Some? ==>
      Aligned(f(env, n).value, n) &&
      f(SliceEnv(env, n, lo, hi), hi - lo) == Some(SliceEnv(f(env, n).value, n, lo, hi))
  }

  /** Executed on some rows, the node computes those rows of what it computes on all of them. */
  ghost predicate RowLocal(f: NodeFn) {
    forall env, n, lo, hi :: LocalAt(f, env, n, lo, hi)
  }

  // ---------------------------------------------------------------- one run of the graph

  function Narrow(x: Executor, t: Tensor): (r: Tensor)
    ensures r.dt == Float32 && !r.sparse && r.cols == t.cols && |r.rows| == |t.rows|
  {
    Tensor(Float32, false, t.cols, seq(|t.rows|, i requires 0 <= i < |t.rows| => NarrowRow(x, t.dt, t.rows[i])))
  }

  function NarrowRow(x: Executor, dt: DataType, row: Row): (r: Row)
    ensures |r| == |row| && forall j :: 0 <= j < |row| ==> r[j] == x.narrow(dt, row[j])
  {
    seq(|row|, j requires 0 <= j < |row| => x.narrow(dt, row[j]))
  }

  /** Dense Float64 and dense Float32 stay, everything else numeric becomes dense Float32. */
  function Convert(x: Executor, t: Tensor): (r: Tensor)
    ensures |r.rows| == |t.rows| && r.cols == t.cols
  {
    if !t.sparse && (t.dt == Float64 || t.dt == Float32) then t else Narrow(x, t)
  }

  function ColumnOf(t: Tensor, f: nat): (r: Tensor)
    requires f < t.cols && Shaped(t)
    ensures |r.rows| == |t.rows|
  {
    Tensor(t.dt, false, 1, seq(|t.rows|, i requires 0 <= i < |t.rows| => [t.rows[i][f]]))
  }

  /** What a named input puts in the store: rows lo to hi, converted unless it holds strings. */
  function NamedInput(x: Executor, t: Tensor, lo: nat, hi: nat): Option<Tensor> {
    if lo <= hi <= |t.rows| then Some(Slice(if t.dt == String then t else Convert(x, t), lo, hi)) else None
  }

  /** Column f of the one wide input; a column that is not there reads outside the row. */
  function SplitInput(x: Executor, t: Tensor, f: nat, lo: nat, hi: nat): Option<Tensor> {
    var flat := Convert(x, t);
    if lo <= hi <= |t.rows| && f < flat.cols && Shaped(flat) then Some(Slice(ColumnOf(flat, f), lo, hi)) else None
  }

  predicate SlotsPresent(x: Executor, inputs: Env) {
    x.inputNames == [] || x.inputNames[0] in inputs
  }

  function InputFor(x: Executor, inputs: Env, first: string, f: nat, lo: nat, hi: nat): Option<Tensor>
    requires first in inputs && f < |x.inputNames|
  {
    if !SlotsPresent(x, inputs) && |inputs| == 1 then SplitInput(x, inputs[first], f, lo, hi)
    else if x.inputNames[f] in inputs then NamedInput(x, inputs[x.inputNames[f]], lo, hi)
    else None
  }

  /** The store after the first `k` inputs were put. */
  function BindInputs(x: Executor, inputs: Env, first: string, k: nat, lo: nat, hi: nat): Option<Env>
    requires first in inputs && k <= |x.inputNames|
  {
    if k == 0 then Some(map[])
    else
      match BindInputs(x, inputs, first, k - 1, lo, hi)
      case None => None
      case Some(env) =>
        match InputFor(x, inputs, first, k - 1, lo, hi)
        case None => None
        case Some(t) => Some(env[x.inputNames[k - 1] := t])
  }

  function RunNodes(nodes: seq<NodeFn>, env: Env, n: nat): Option<Env> {
    if nodes == [] then Some(env)
    else
      match RunNodes(nodes[..|nodes| - 1], env, n)
      case None => None
      case Some(m) => nodes[|nodes| - 1](m, n)
  }

  predicate Wanted(filter: seq<string>, name: string) {
    filter == [] || name in filter
  }

  function Collect(x: Executor, env: Env, filter: seq<string>, k: nat): Option<Env>
    requires k <= |x.outputs|
  {
    if k == 0 then Some(map[])
    else
      match Collect(x, env, filter, k - 1)
      case None => None
      case Some(r) =>
        if !Wanted(filter, x.outputs[k - 1]) then Some(r)
        else
          match Lookup(env, x.consts, x.outputs[k - 1])
          case None => None
          case Some(t) => Some(r[x.outputs[k - 1] := t])
  }

  /** The local values after all nodes have run over rows lo to hi. */
  function FinalStore(x: Executor, inputs: Env, first: string, lo: nat, hi: nat): Option<Env>
    requires first in inputs && lo <= hi
  {
    match BindInputs(x, inputs, first, |x.inputNames|, lo, hi)
    case None => None
    case Some(env) => RunNodes(x.nodes, env, hi - lo)
  }

  /** `run_graph`; an exception is `None`. */
  function RunGraph(x: Executor, inputs: Env, first: string, lo: nat, hi: nat, filter: seq<string>): Option<Env>
    requires first in inputs && lo <= hi
  {
    match FinalStore(x, inputs, first, lo, hi)
    case None => None
    case Some(env) => Collect(x, env, filter, |x.outputs|)
  }

  // ---------------------------------------------------------------- what a run is fed, and what it returns

  /** Dense floats are taken as they are, everything else numeric cell by cell as dense floats. */
  lemma ConvertMeans(x: Executor, t: Tensor)
    ensures !t.sparse && t.dt in {Float32, Float64} ==> Convert(x, t) == t
    ensures t.sparse || t.dt !in {Float32, Float64} ==>
      var r := Convert(x, t);
      && r.dt == Float32 && !r.sparse && r.cols == t.cols && |r.rows| == |t.rows|
      && (forall i :: 0 <= i < |t.rows| ==> |r.rows[i]| == |t.rows[i]|)
      && (forall i, j :: 0 <= i < |t.rows| && 0 <= j < |t.rows[i]| ==> r.rows[i][j] == x.narrow(t.dt, t.rows[i][j]))
  {
  }

  /** `col` holds column f of `t` and nothing else. */
  predicate IsColumn(col: Tensor, t: Tensor, f: nat)
    requires Shaped(t) && f < t.cols
  {
    && col.dt == t.dt && col.sparse == t.sparse && col.cols == 1 && |col.rows| == |t.rows|
    && forall i :: 0 <= i < |t.rows| ==> RowShaped(t.rows[i], t.cols, Size(t.dt)) && col.rows[i] == [t.rows[i][f]]
  }

  /** Converting a column of the wide input is taking that column of the converted input. */
  lemma OneSlot(x: Executor, t: Tensor, col: Tensor, f: nat, lo: nat, hi: nat)
    requires Shaped(t) && f < t.cols && t.dt != String && IsColumn(col, t, f)
    ensures SplitInput(x, t, f, lo, hi) == NamedInput(x, col, lo, hi)
  {
    ConvertShaped(x, t);
    var (a, b) := (ColumnOf(Convert(x, t), f), Convert(x, col));
    ConvertMeans(x, t);
    ConvertMeans(x, col);
    forall i | 0 <= i < |t.rows| ensures a.rows[i] == b.rows[i] {
      assert RowShaped(t.rows[i], t.cols, Size(t.dt));
      assert a.rows[i] == [Convert(x, t).rows[i][f]];
    }
    assert a.rows == b.rows;
  }

  /** The columns of one wide tensor, passed by the names of the slots. */
  predicate HoldsColumns(x: Executor, t: Tensor, inputs: Env)
    requires Shaped(t) && |x.inputNames| <= t.cols
  {
    forall f :: 0 <= f < |x.inputNames| ==> x.inputNames[f] in inputs && IsColumn(inputs[x.inputNames[f]], t, f)
  }

  /** An input map with one entry that is not a slot is split into columns. */
  lemma OneWideInput(x: Executor, t: Tensor, wide: string, f: nat, lo: nat, hi: nat)
    requires f < |x.inputNames| && x.inputNames[0] != wide
    ensures InputFor(x, map[wide := t], wide, f, lo, hi) == SplitInput(x, t, f, lo, hi)
  {
    hide SplitInput;
    assert |map[wide := t]| == 1;
  }

  lemma OneNamedInput(x: Executor, inputs: Env, first: string, f: nat, lo: nat, hi: nat)
    requires first in inputs && f < |x.inputNames| && x.inputNames[0] in inputs && x.inputNames[f] in inputs
    ensures InputFor(x, inputs, first, f, lo, hi) == NamedInput(x, inputs[x.inputNames[f]], lo, hi)
  {
    hide NamedInput;
  }

  lemma {:induction false} SameStores(x: Executor, t: Tensor, wide: string, inputs: Env, first: string, k: nat, lo: nat, hi: nat)
    requires Shaped(t) && t.dt != String && |x.inputNames| <= t.cols && first in inputs && HoldsColumns(x, t, inputs)
    requires x.inputNames != [] ==> x.inputNames[0] != wide
    requires k <= |x.inputNames|
    ensures BindInputs(x, map[wide := t], wide, k, lo, hi) == BindInputs(x, inputs, first, k, lo, hi)
  {
    hide Shaped, SplitInput, NamedInput, IsColumn, InputFor;
    if k > 0 {
      SameStores(x, t, wide, inputs, first, k - 1, lo, hi);
      OneSlot(x, t, inputs[x.inputNames[k - 1]], k - 1, lo, hi);
      OneWideInput(x, t, wide, k - 1, lo, hi);
      OneNamedInput(x, inputs, first, k - 1, lo, hi);
    }
  }

  /** The two ways of supplying inputs agree: one wide tensor, or its columns under the names of the slots. */
  lemma WideIsNamed(x: Executor, t: Tensor, wide: string, inputs: Env, first: string, lo: nat, hi: nat, filter: seq<string>)
    requires Shaped(t) && t.dt != String && |x.inputNames| <= t.cols && first in inputs && HoldsColumns(x, t, inputs)
    requires x.inputNames != [] ==> x.inputNames[0] != wide
    requires lo <= hi
    ensures RunGraph(x, map[wide := t], wide, lo, hi, filter) == RunGraph(x, inputs, first, lo, hi, filter)
  {
    SameStores(x, t, wide, inputs, first, |x.inputNames|, lo, hi);
  }

  /** A slot that is supplied by name holds rows lo to hi of its tensor. */
  lemma {:induction false} SlotsHoldRows(x: Executor, inputs: Env, first: string, k: nat, lo: nat, hi: nat)
    requires first in inputs && k <= |x.inputNames| && lo <= hi
    requires forall i, j :: 0 <= i < j < |x.inputNames| ==> x.inputNames[i] != x.inputNames[j]
    requires forall f :: 0 <= f < |x.inputNames| ==>
      x.inputNames[f] in inputs && hi <= |inputs[x.inputNames[f]].rows| &&
      (inputs[x.inputNames[f]].dt == String || (!inputs[x.inputNames[f]].sparse && inputs[x.inputNames[f]].dt in {Float32, Float64}))
    ensures BindInputs(x, inputs, first, k, lo, hi).Some?
    ensures var env := BindInputs(x, inputs, first, k, lo, hi).value;
      forall f :: 0 <= f < k ==> var (name, t) := (x.inputNames[f], inputs[x.inputNames[f]]);
        name in env && env[name] == t.(rows := t.rows[lo..hi])
  {
    if k > 0 {
      SlotsHoldRows(x, inputs, first, k - 1, lo, hi);
      OneNamedInput(x, inputs, first, k - 1, lo, hi);
      hide InputFor;
    }
  }

  /** The results are the requested outputs and no others, each as the store or the constants hold it. */
  lemma {:induction false} OutputsReturned(x: Executor, env: Env, filter: seq<string>, k: nat)
    requires k <= |x.outputs| && Collect(x, env, filter, k).Some?
    ensures var r := Collect(x, env, filter, k).value;
      && (forall name :: name in r <==> exists i :: 0 <= i < k && x.outputs[i] == name && (filter == [] || name in filter))
      && (forall name :: name in r ==> if name in env then r[name] == env[name] else name in x.consts && r[name] == x.consts[name])
  {
    if k > 0 {
      OutputsReturned(x, env, filter, k - 1);
      var (r0, r, last) := (Collect(x, env, filter, k - 1).value, Collect(x, env, filter, k).value, x.outputs[k - 1]);
      forall name ensures name in r <==> exists i :: 0 <= i < k && x.outputs[i] == name && (filter == [] || name in filter) {
        if name in r && name != last { assert name in r0; }
        if name == last && (filter == [] || name in filter) { assert x.outputs[k - 1] == name; }
      }
    }
  }

  // ---------------------------------------------------------------- a chunk computes its rows

  lemma ConvertShaped(x: Executor, t: Tensor)
    requires Shaped(t)
    ensures Shaped(Convert(x, t))
  {
  }

  /** Slicing twice is slicing once. */
  lemma InputSlices(x: Executor, inputs: Env, first: string, f: nat, n: nat, lo: nat, hi: nat)
    requires first in inputs && f < |x.inputNames| && Aligned(inputs, n) && lo <= hi <= n
    requires InputFor(x, inputs, first, f, 0, n).Some?
    ensures var t := InputFor(x, inputs, first, f, 0, n).value;
      |t.rows| == n && Shaped(t) && InputFor(x, inputs, first, f, lo, hi) == Some(Slice(t, lo, hi))
  {
    var t := InputFor(x, inputs, first, f, 0, n).value;
    if !SlotsPresent(x, inputs) && |inputs| == 1 {
      var col := ColumnOf(Convert(x, inputs[first]), f);
      assert col.rows[0..n] == col.rows;
    } else {
      var src := inputs[x.inputNames[f]];
      ConvertShaped(x, src);
      var conv := if src.dt == String then src else Convert(x, src);
      assert conv.rows[0..n] == conv.rows;
    }
  }

  lemma EmptySlices(n: nat, lo: nat, hi: nat)
    requires lo <= hi <= n
    ensures Aligned(map[], n) && SliceEnv(map[], n, lo, hi) == map[]
  {
  }

  lemma SlicePut(env: Env, name: string, t: Tensor, n: nat, lo: nat, hi: nat)
    requires Aligned(env, n) && |t.rows| == n && Shaped(t) && lo <= hi <= n
    ensures Aligned(env[name := t], n)
    ensures SliceEnv(env[name := t], n, lo, hi) == SliceEnv(env, n, lo, hi)[name := Slice(t, lo, hi)]
  {
    hide Shaped;
  }

  lemma {:induction false} BindSlices(x: Executor, inputs: Env, first: string, k: nat, n: nat, lo: nat, hi: nat)
    requires first in inputs && k <= |x.inputNames| && Aligned(inputs, n) && lo <= hi <= n
    requires BindInputs(x, inputs, first, k, 0, n).Some?
    ensures var env := BindInputs(x, inputs, first, k, 0, n).value;
      Aligned(env, n) && BindInputs(x, inputs, first, k, lo, hi) == Some(SliceEnv(env, n, lo, hi))
  {
    hide Aligned, Shaped, SliceEnv, InputFor;
    if k == 0 {
      EmptySlices(n, lo, hi);
    } else {
      BindSlices(x, inputs, first, k - 1, n, lo, hi);
      InputSlices(x, inputs, first, k - 1, n, lo, hi);
      SlicePut(BindInputs(x, inputs, first, k - 1, 0, n).value, x.inputNames[k - 1],
               InputFor(x, inputs, first, k - 1, 0, n).value, n, lo, hi);
    }
  }

  lemma {:induction false} NodesRowLocal(nodes: seq<NodeFn>, env: Env, n: nat, lo: nat, hi: nat)
    requires forall f :: f in nodes ==> RowLocal(f)
    requires Aligned(env, n) && lo < hi <= n
    requires RunNodes(nodes, env, n).Some?
    ensures var m := RunNodes(nodes, env, n).value;
      Aligned(m, n) && RunNodes(nodes, SliceEnv(env, n, lo, hi), hi - lo) == Some(SliceEnv(m, n, lo, hi))
  {
    hide Aligned, SliceEnv;
    if nodes != [] {
      NodesRowLocal(nodes[..|nodes| - 1], env, n, lo, hi);
      assert RowLocal(nodes[|nodes| - 1]);
      assert LocalAt(nodes[|nodes| - 1], RunNodes(nodes[..|nodes| - 1], env, n).value, n, lo, hi);
    }
  }

  /** The results that the store serves have one row per sample; the others are constants of the model. */
  predicate ServedAligned(r: Env, served: set<string>, n: nat) {
    forall name :: name in r && name in served ==> |r[name].rows| == n && Shaped(r[name])
  }

  /** Rows lo to hi of what the store serves, and the constants as they are. */
  function ChunkOf(r: Env, served: set<string>, n: nat, lo: nat, hi: nat): Env
    requires ServedAligned(r, served, n) && lo <= hi <= n
  {
    map name | name in r :: if name in served then Slice(r[name], lo, hi) else r[name]
  }

  lemma ChunkPut(r: Env, served: set<string>, name: string, t: Tensor, n: nat, lo: nat, hi: nat)
    requires ServedAligned(r, served, n) && lo <= hi <= n
    requires name in served ==> |t.rows| == n && Shaped(t)
    ensures ServedAligned(r[name := t], served, n)
    ensures ChunkOf(r[name := t], served, n, lo, hi) ==
            ChunkOf(r, served, n, lo, hi)[name := if name in served then Slice(t, lo, hi) else t]
  {
    hide Shaped;
  }

  lemma {:induction false} CollectSlices(x: Executor, env: Env, filter: seq<string>, k: nat, n: nat, lo: nat, hi: nat)
    requires k <= |x.outputs| && Aligned(env, n) && lo <= hi <= n && Collect(x, env, filter, k).Some?
    ensures var r := Collect(x, env, filter, k).value;
      ServedAligned(r, env.Keys, n) &&
      Collect(x, SliceEnv(env, n, lo, hi), filter, k) == Some(ChunkOf(r, env.Keys, n, lo, hi))
  {
    hide Shaped, ChunkOf, ServedAligned;
    if k == 0 {
      NoResults(env.Keys, n, lo, hi);
    } else {
      CollectSlices(x, env, filter, k - 1, n, lo, hi);
      var name := x.outputs[k - 1];
      if Wanted(filter, name) {
        ChunkPut(Collect(x, env, filter, k - 1).value, env.Keys, name, Lookup(env, x.consts, name).value, n, lo, hi);
      }
    }
  }

  lemma NoResults(served: set<string>, n: nat, lo: nat, hi: nat)
    requires lo <= hi <= n
    ensures ServedAligned(map[], served, n) && ChunkOf(map[], served, n, lo, hi) == map[]
  {
  }

  /** The nodes are row-local, and one serial run over the batch succeeds. */
  ghost predicate Healthy(x: Executor, inputs: Env, first: string, n: nat, filter: seq<string>) {
    && first in inputs && Aligned(inputs, n)
    && (forall f :: f in x.nodes ==> RowLocal(f))
    && RunGraph(x, inputs, first, 0, n, filter).Some?
  }

  function Serial(x: Executor, inputs: Env, first: string, n: nat, filter: seq<string>): Env
    requires first in inputs && RunGraph(x, inputs, first, 0, n, filter).Some?
  {
    RunGraph(x, inputs, first, 0, n, filter).value
  }

  /** The names the store of a serial run holds in the end. */
  function Served(x: Executor, inputs: Env, first: string, n: nat, filter: seq<string>): set<string>
    requires first in inputs && RunGraph(x, inputs, first, 0, n, filter).Some?
  {
    FinalStore(x, inputs, first, 0, n).value.Keys
  }

  /** Over row-local nodes, running some rows gives those rows of every output that the store serves, and every
      constant whole. */
  lemma ChunkIsSlice(x: Executor, inputs: Env, first: string, n: nat, filter: seq<string>, lo: nat, hi: nat)
    requires Healthy(x, inputs, first, n, filter) && lo < hi <= n
    ensures var (r, served) := (Serial(x, inputs, first, n, filter), Served(x, inputs, first, n, filter));
      ServedAligned(r, served, n) &&
      RunGraph(x, inputs, first, lo, hi, filter) == Some(ChunkOf(r, served, n, lo, hi))
  {
    hide Aligned, SliceEnv, ChunkOf, ServedAligned, RowLocal;
    BindSlices(x, inputs, first, |x.inputNames|, n, lo, hi);
    var env := BindInputs(x, inputs, first, |x.inputNames|, 0, n).value;
    NodesRowLocal(x.nodes, env, n, lo, hi);
    CollectSlices(x, FinalStore(x, inputs, first, 0, n).value, filter, |x.outputs|, n, lo, hi);
  }

  // ---------------------------------------------------------------- joining row ranges byte by byte

  function Flatten<T>(ss: seq<seq<T>>): seq<T> {
    if ss == [] then [] else ss[0] + Flatten(ss[1..])
  }

  /** Consecutive pieces of length w. */
  function Split<T>(s: seq<T>, w: nat, n: nat): (r: seq<seq<T>>)
    requires |s| == n * w
    ensures |r| == n
  {
    if n == 0 then [] else
      LessOne(n, w);
      [s[..w]] + Split(s[w..], w, n - 1)
  }

  lemma LessOne(n: nat, w: nat)
    requires n > 0
    ensures n * w == w + (n - 1) * w
  {
  }

  /** The bytes behind a dense tensor, row by row. */
  function Raw(t: Tensor): seq<bv8> {
    Flatten(Flatten(t.rows))
  }

  function FromRaw(dt: DataType, n: nat, cols: nat, bytes: seq<bv8>): Tensor
    requires |bytes| == n * cols * Size(dt)
  {
    Tensor(dt, false, cols, Split(Split(bytes, Size(dt), n * cols), cols, n))
  }

  lemma {:induction false} FlattenLength<T>(ss: seq<seq<T>>, w: nat)
    requires forall i :: 0 <= i < |ss| ==> |ss[i]| == w
    ensures |Flatten(ss)| == |ss| * w
  {
    if ss != [] {
      FlattenLength(ss[1..], w);
      LessOne(|ss|, w);
    }
  }

  lemma {:induction false} FlattenJoin<T>(a: seq<seq<T>>, b: seq<seq<T>>)
    ensures Flatten(a + b) == Flatten(a) + Flatten(b)
  {
    if a == [] {
      assert a + b == b;
    } else {
      assert (a + b)[1..] == a[1..] + b;
      FlattenJoin(a[1..], b);
    }
  }

  lemma {:induction false} SplitFlatten<T>(ss: seq<seq<T>>, w: nat)
    requires forall i :: 0 <= i < |ss| ==> |ss[i]| == w
    requires |Flatten(ss)| == |ss| * w
    ensures Split(Flatten(ss), w, |ss|) == ss
  {
    if ss != [] {
      LessOne(|ss|, w);
      assert Flatten(ss)[..w] == ss[0] && Flatten(ss)[w..] == Flatten(ss[1..]);
      SplitFlatten(ss[1..], w);
    }
  }

  lemma {:induction false} FlattenKeeps(rows: seq<Row>, cols: nat, width: nat)
    requires forall i :: 0 <= i < |rows| ==> RowShaped(rows[i], cols, width)
    ensures forall j :: 0 <= j < |Flatten(rows)| ==> |Flatten(rows)[j]| == width
  {
    if rows != [] { FlattenKeeps(rows[1..], cols, width); }
  }

  lemma RawLength(t: Tensor)
    requires Shaped(t)
    ensures |Raw(t)| == |t.rows| * t.cols * Size(t.dt)
  {
    FlattenKeeps(t.rows, t.cols, Size(t.dt));
    FlattenLength(t.rows, t.cols);
    FlattenLength(Flatten(t.rows), Size(t.dt));
  }

  /** A dense tensor is its bytes. */
  lemma RawRoundTrip(t: Tensor)
    requires Shaped(t) && !t.sparse
    ensures |Raw(t)| == |t.rows| * t.cols * Size(t.dt)
    ensures FromRaw(t.dt, |t.rows|, t.cols, Raw(t)) == t
  {
    RawLength(t);
    FlattenKeeps(t.rows, t.cols, Size(t.dt));
    FlattenLength(t.rows, t.cols);
    SplitFlatten(Flatten(t.rows), Size(t.dt));
    SplitFlatten(t.rows, t.cols);
  }

  /** The pointer type the copy goes through decides how many bytes an element takes. */
  function CopyWidth(dt: DataType): (w: nat)
    ensures w == 8 <==> dt == Float64
    ensures w == 8 || w == 4
  {
    if dt == Float64 then 8 else 4
  }

  function TotalRows(parts: seq<Tensor>): nat {
    if parts == [] then 0 else |parts[0].rows| + TotalRows(parts[1..])
  }

  /** `memcpy` of `len` bytes to offset `at`; `None` when it leaves one of the buffers. */
  function Copied(out: seq<bv8>, at: nat, src: seq<bv8>, len: nat): (r: Option<seq<bv8>>)
    ensures r.Some? ==> |r.value| == |out|
  {
    if len <= |src| && at + len <= |out| then Some(out[..at] + src[..len] + out[at + len..]) else None
  }

  /** Bytes of so many rows. */
  function Span(rows: nat, cols: nat, width: nat): nat {
    rows * cols * width
  }

  lemma SpanAdds(a: nat, b: nat, cols: nat, width: nat)
    ensures Span(a + b, cols, width) == Span(a, cols, width) + Span(b, cols, width)
  {
    assert (a + b) * cols == a * cols + b * cols;
  }

  function CopyParts(out: seq<bv8>, off: nat, parts: seq<Tensor>, cols: nat, width: nat): (r: Option<seq<bv8>>)
    ensures r.Some? ==> |r.value| == |out|
    decreases |parts|
  {
    if parts == [] then Some(out)
    else if parts[0].sparse then None
    else
      match Copied(out, Span(off, cols, width), Raw(parts[0]), Span(|parts[0].rows|, cols, width))
      case None => None
      case Some(next) => CopyParts(next, off + |parts[0].rows|, parts[1..], cols, width)
  }

  function Zeros(n: nat): (r: seq<bv8>)
    ensures |r| == n
  {
    seq(n, _ => 0)
  }

  /** `vcat_tensors`: type and width come from the first part. */
  function Vcat(parts: seq<Tensor>): Option<Tensor>
    requires parts != []
  {
    var (dt, cols, n) := (parts[0].dt, parts[0].cols, TotalRows(parts));
    match CopyParts(Zeros(Span(n, cols, Size(dt))), 0, parts, cols, CopyWidth(dt))
    case None => None
    case Some(out) => Some(FromRaw(dt, n, cols, out))
  }

  function JoinedRows(parts: seq<Tensor>): seq<Row> {
    if parts == [] then [] else parts[0].rows + JoinedRows(parts[1..])
  }

  predicate Uniform(parts: seq<Tensor>, dt: DataType, cols: nat) {
    forall i :: 0 <= i < |parts| ==> parts[i].dt == dt && !parts[i].sparse && parts[i].cols == cols && Shaped(parts[i])
  }

  lemma {:induction false} JoinedShape(parts: seq<Tensor>, dt: DataType, cols: nat)
    requires Uniform(parts, dt, cols)
    ensures Shaped(Tensor(dt, false, cols, JoinedRows(parts))) && |JoinedRows(parts)| == TotalRows(parts)
  {
    if parts != [] {
      JoinedShape(parts[1..], dt, cols);
    }
  }

  lemma CopiedPrefix(out: seq<bv8>, at: nat, src: seq<bv8>)
    requires at + |src| <= |out|
    ensures Copied(out, at, src, |src|).Some?
    ensures Copied(out, at, src, |src|).value[..at + |src|] == out[..at] + src
  {
  }

  lemma Regroup(a: seq<bv8>, b: seq<bv8>, c: seq<bv8>)
    ensures a + b + c == a + (b + c)
  {
  }

  /** Each copy starts where the one before it ended, so the buffer fills without gap or overlap. */
  lemma {:induction false} CopyFills(out: seq<bv8>, off: nat, parts: seq<Tensor>, dt: DataType, cols: nat)
    requires Uniform(parts, dt, cols) && CopyWidth(dt) == Size(dt)
    requires |out| == Span(off + TotalRows(parts), cols, Size(dt))
    ensures Span(off, cols, Size(dt)) <= |out|
    ensures CopyParts(out, off, parts, cols, CopyWidth(dt)) ==
            Some(out[..Span(off, cols, Size(dt))] + Flatten(Flatten(JoinedRows(parts))))
    decreases |parts|
  {
    hide Span, Shaped, Copied;
    var w := Size(dt);
    SpanAdds(off, TotalRows(parts), cols, w);
    if parts == [] {
      assert out[..Span(off, cols, w)] + [] == out by { assert Span(off, cols, w) == |out|; }
    } else {
      var k := |parts[0].rows|;
      SpanAdds(off, k, cols, w);
      SpanAdds(off + k, TotalRows(parts[1..]), cols, w);
      RawSpan(parts[0]);
      var raw := Raw(parts[0]);
      CopiedPrefix(out, Span(off, cols, w), raw);
      var next := Copied(out, Span(off, cols, w), raw, |raw|).value;
      assert off + TotalRows(parts) == off + k + TotalRows(parts[1..]);
      CopyFills(next, off + k, parts[1..], dt, cols);
      FlattenJoin(parts[0].rows, JoinedRows(parts[1..]));
      FlattenJoin(Flatten(parts[0].rows), Flatten(JoinedRows(parts[1..])));
      Regroup(out[..Span(off, cols, w)], raw, Flatten(Flatten(JoinedRows(parts[1..]))));
    }
  }

  lemma RawSpan(t: Tensor)
    requires Shaped(t)
    ensures |Raw(t)| == Span(|t.rows|, t.cols, Size(t.dt))
  {
    RawLength(t);
  }

  /** Joining parts of one type and width stacks their rows, when the copy width is the element size. */
  lemma VcatStacks(parts: seq<Tensor>, dt: DataType, cols: nat)
    requires parts != [] && Uniform(parts, dt, cols) && CopyWidth(dt) == Size(dt)
    ensures Vcat(parts) == Some(Tensor(dt, false, cols, JoinedRows(parts)))
  {
    var t := Tensor(dt, false, cols, JoinedRows(parts));
    JoinedShape(parts, dt, cols);
    RawRoundTrip(t);
    var out := Zeros(Span(TotalRows(parts), cols, Size(dt)));
    CopyFills(out, 0, parts, dt, cols);
    assert out[..0] + Raw(t) == Raw(t);
  }

  function Ones(n: nat): (r: seq<bv8>)
    ensures |r| == n
  {
    seq(n, _ => 1)
  }

  function OneCell(dt: DataType): Tensor {
    Tensor(dt, false, 1, [[Ones(Size(dt))]])
  }

  lemma FlattenOne<T>(s: seq<T>)
    ensures Flatten([s]) == s
  {
    assert [s][1..] == [] && s + [] == s;
  }

  lemma SplitOne<T>(s: seq<T>)
    ensures Split(s, |s|, 1) == [s]
  {
    assert s[..|s|] == s && Split(s[|s|..], |s|, 0) == [];
  }

  lemma OneCellRaw(dt: DataType)
    ensures Raw(OneCell(dt)) == Ones(Size(dt))
  {
    FlattenOne([Ones(Size(dt))]);
    FlattenOne(Ones(Size(dt)));
  }

  function Stacked(parts: seq<Tensor>, dt: DataType, cols: nat): Tensor {
    Tensor(dt, false, cols, JoinedRows(parts))
  }

  lemma TwoParts(t: Tensor)
    ensures [t, t][1..] == [t] && [t][1..] == []
    ensures TotalRows([t, t]) == 2 * |t.rows| && JoinedRows([t, t]) == t.rows + t.rows
  {
    assert [t, t][1..] == [t] && [t][1..] == [];
    assert TotalRows([]) == 0 && JoinedRows([]) == [];
    assert TotalRows([t]) == |t.rows| && JoinedRows([t]) == t.rows;
    assert TotalRows([t, t]) == |t.rows| + TotalRows([t]) && JoinedRows([t, t]) == t.rows + JoinedRows([t]);
  }

  /** The element types whose copy width is their size. */
  lemma CopiedWhole(dt: DataType)
    ensures CopyWidth(dt) == Size(dt) <==> dt in {Float32, Float64, Int32, UInt32}
  {
  }

  /** Two 8-byte cells: four bytes of each arrive, and the second half of the result stays zero. */
  lemma WideCellsTorn(dt: DataType)
    requires CopyWidth(dt) == 4 && Size(dt) == 8
    ensures var parts := [OneCell(dt), OneCell(dt)];
      Uniform(parts, dt, 1) && Vcat(parts).Some? && Vcat(parts) != Some(Stacked(parts, dt, 1))
  {
    var t := OneCell(dt);
    var parts := [t, t];
    TwoParts(t);
    var b := TornCopy(dt);
    hide CopyParts, TotalRows, JoinedRows, Raw, Size, CopyWidth, FromRaw;
    TwoCells(b, dt);
    assert Vcat(parts).value.rows[1] == [b[8..]] && b[8..][7] == 0;
    assert Stacked(parts, dt, 1).rows[1] == [Ones(8)] && Ones(8)[7] == 1;
  }

  lemma TornCopy(dt: DataType) returns (b: seq<bv8>)
    requires Size(dt) == 8
    ensures |b| == 16 && b[15] == 0
    ensures CopyParts(Zeros(16), 0, [OneCell(dt), OneCell(dt)], 1, 4) == Some(b)
  {
    var t := OneCell(dt);
    hide Raw;
    OneCellRaw(dt);
    var a := Zeros(16)[..0] + Ones(8)[..4] + Zeros(16)[4..];
    b := a[..4] + Ones(8)[..4] + a[8..];
    assert [t, t][1..] == [t] && [t][1..] == [];
    assert CopyParts(b, 2, [], 1, 4) == Some(b);
    assert Copied(a, Span(1, 1, 4), Raw(t), Span(1, 1, 4)) == Some(b);
    assert CopyParts(a, 1, [t], 1, 4) == Some(b);
    assert Copied(Zeros(16), Span(0, 1, 4), Raw(t), Span(1, 1, 4)) == Some(a);
  }

  lemma TwoCells(b: seq<bv8>, dt: DataType)
    requires |b| == 16 && Size(dt) == 8
    ensures FromRaw(dt, 2, 1, b).rows == [[b[..8]], [b[8..]]]
  {
    SplitOne(b[8..]);
    var cells := [b[..8], b[8..]];
    assert Split(b, 8, 2) == cells;
    SplitOne(cells[1..]);
    assert cells[1..] == [b[8..]] && cells[..1] == [b[..8]];
    assert Split(cells, 1, 2) == [cells[..1]] + Split(cells[1..], 1, 1);
  }

  /** Elements smaller than the pointer type: the copy runs past the part it reads. */
  lemma NarrowCellsOverrun(dt: DataType)
    requires Size(dt) < 4
    ensures var parts := [OneCell(dt), OneCell(dt)];
      Uniform(parts, dt, 1) && Vcat(parts).None?
  {
    OneCellRaw(dt);
    assert Span(1, 1, 4) == 4;
  }

  /** Joining chunks is exact for an element type if and only if the copy width is its size: for the floats and
      the 4-byte integers, not for 8-byte integers, bytes or strings. */
  lemma VcatExactIff(dt: DataType)
    ensures (forall parts, cols :: parts != [] && Uniform(parts, dt, cols) ==> Vcat(parts) == Some(Stacked(parts, dt, cols)))
      <==> CopyWidth(dt) == Size(dt)
  {
    if CopyWidth(dt) == Size(dt) {
      forall parts, cols | parts != [] && Uniform(parts, dt, cols) ensures Vcat(parts) == Some(Stacked(parts, dt, cols)) {
        VcatStacks(parts, dt, cols);
      }
    } else {
      if Size(dt) == 8 { WideCellsTorn(dt); } else { NarrowCellsOverrun(dt); }
      assert Uniform([OneCell(dt), OneCell(dt)], dt, 1);
    }
  }

  // ---------------------------------------------------------------- cutting the batch

  function Chunk(n: nat, threads: nat): nat
    requires threads > 0
  {
    (n + threads - 1) / threads
  }

  /** The least size with which that many chunks cover the batch. */
  lemma ChunkIsCeil(n: nat, threads: nat)
    requires threads > 0
    ensures threads * Chunk(n, threads) >= n && (n > 0 ==> threads * (Chunk(n, threads) - 1) < n)
  {
    var (c, m) := (Chunk(n, threads), n + threads - 1);
    assert m == threads * c + m % threads;
  }

  /** Rows of task t. */
  function From(n: nat, threads: nat, t: nat): nat
    requires threads > 0
  {
    t * Chunk(n, threads)
  }

  function To(n: nat, threads: nat, t: nat): nat
    requires threads > 0
  {
    var end := From(n, threads, t) + Chunk(n, threads);
    if end < n then end else n
  }

  lemma ChunkCovers(n: nat, threads: nat)
    requires threads > 0
    ensures From(n, threads, threads) >= n && (n > 0 ==> Chunk(n, threads) > 0)
  {
    var c := Chunk(n, threads);
    var m := n + threads - 1;
    assert m == threads * c + m % threads;
    assert threads * c == c * threads;
    if n > 0 && c == 0 { assert false; }
  }

  lemma NextStart(t: nat, c: nat)
    ensures (t + 1) * c == t * c + c
  {
  }

  lemma Ordered(s: nat, t: nat, c: nat)
    requires s < t
    ensures s * c + c <= t * c
  {
    var d := t - s - 1;
    Spread(s + 1, d, c);
    NextStart(s, c);
    assert t == s + 1 + d && d * c >= 0;
  }

  lemma Spread(a: nat, b: nat, c: nat)
    ensures (a + b) * c == a * c + b * c
  {
  }

  predicate Takes(n: nat, threads: nat, t: nat, i: nat)
    requires threads > 0
  {
    From(n, threads, t) <= i < To(n, threads, t)
  }

  /** Every row belongs to exactly one task. */
  lemma RowHasOneTask(n: nat, threads: nat, i: nat)
    requires threads > 0 && i < n
    ensures exists t: nat :: t < threads && Takes(n, threads, t, i)
    ensures forall s: nat, t: nat :: Takes(n, threads, s, i) && Takes(n, threads, t, i) ==> s == t
  {
    hide Chunk;
    ChunkCovers(n, threads);
    var c := Chunk(n, threads);
    var t := i / c;
    assert i == t * c + i % c;
    if threads < t { Ordered(threads, t, c); }
    assert Takes(n, threads, t, i);
    forall s: nat, u: nat | Takes(n, threads, s, i) && Takes(n, threads, u, i) ensures s == u {
      if s < u { Ordered(s, u, c); }
      if u < s { Ordered(u, s, c); }
    }
  }

  // ---------------------------------------------------------------- the batch

  /** What task t leaves in its slot: nothing when it starts behind the last row. */
  function Part(x: Executor, inputs: Env, first: string, n: nat, threads: nat, filter: seq<string>, t: nat): Option<Env>
    requires first in inputs && threads > 0
  {
    if From(n, threads, t) >= n then Some(map[])
    else RunGraph(x, inputs, first, From(n, threads, t), To(n, threads, t), filter)
  }

  /** The slots after the first k tasks, whatever the order they ran in. */
  function Parts(x: Executor, inputs: Env, first: string, n: nat, threads: nat, filter: seq<string>, k: nat): Option<seq<Env>>
    requires first in inputs && threads > 0
  {
    if k == 0 then Some([])
    else
      match Parts(x, inputs, first, n, threads, filter, k - 1)
      case None => None
      case Some(ps) =>
        match Part(x, inputs, first, n, threads, filter, k - 1)
        case None => None
        case Some(p) => Some(ps + [p])
  }

  function NonEmpty(ps: seq<Env>): seq<Env> {
    if ps == [] then []
    else NonEmpty(ps[..|ps| - 1]) + if ps[|ps| - 1] == map[] then [] else [ps[|ps| - 1]]
  }

  const NO_TENSOR := Tensor(Float32, false, 0, [])

  function Named(ps: seq<Env>, name: string): (r: seq<Tensor>)
    ensures |r| == |ps|
  {
    seq(|ps|, i requires 0 <= i < |ps| => if name in ps[i] then ps[i][name] else NO_TENSOR)
  }

  /** Lines 255 to 273. */
  function Merge(ps: seq<Env>): Option<Env> {
    var valid := NonEmpty(ps);
    if valid == [] then Some(map[])
    else if |valid| == 1 then Some(valid[0])
    else if forall name :: name in valid[0] ==> Vcat(Named(valid, name)).Some?
    then Some(map name | name in valid[0] :: Vcat(Named(valid, name)).value)
    else None
  }

  /** `predict_named` for a batch of n rows and a pool of that many threads. */
  function Predict(x: Executor, inputs: Env, first: string, n: nat, threads: nat, filter: seq<string>): Option<Env>
    requires first in inputs
  {
    if n == 0 then Some(map[])
    else if threads <= 1 || n < threads * x.minParallelRows then RunGraph(x, inputs, first, 0, n, filter)
    else
      match Parts(x, inputs, first, n, threads, filter, threads)
      case None => None
      case Some(ps) => Merge(ps)
  }

  // ---------------------------------------------------------------- parallel is serial

  function Upto(n: nat, threads: nat, k: nat): nat
    requires threads > 0
  {
    if From(n, threads, k) < n then From(n, threads, k) else n
  }

  function Repeated(rows: seq<Row>, times: nat): (r: seq<Row>)
  {
    if times == 0 then [] else Repeated(rows, times - 1) + rows
  }

  lemma {:induction false} RepeatedIff(rows: seq<Row>, times: nat)
    requires times > 0
    ensures |Repeated(rows, times)| >= |rows| && (times > 1 ==> |Repeated(rows, times)| >= 2 * |rows|)
    ensures Repeated(rows, times) == rows <==> times == 1 || rows == []
  {
    if times > 1 { RepeatedIff(rows, times - 1); } else { assert Repeated(rows, 0) == []; }
  }

  /** The rows a name has in the slots together: what the store serves up to that row, a constant once a slot. */
  function Gathered(t: Tensor, served: bool, upto: nat, times: nat): seq<Row>
    requires served ==> upto <= |t.rows|
  {
    if served then t.rows[..upto] else Repeated(t.rows, times)
  }

  /** The slots hold, for every output of r, its rows up to `upto` in order, and every constant once each. */
  ghost predicate Assembled(valid: seq<Env>, r: Env, served: set<string>, n: nat, upto: nat)
    requires ServedAligned(r, served, n) && upto <= n
  {
    && (forall i :: 0 <= i < |valid| ==> valid[i].Keys == r.Keys)
    && (forall name :: name in r ==>
          && Uniform(Named(valid, name), r[name].dt, r[name].cols)
          && JoinedRows(Named(valid, name)) == Gathered(r[name], name in served, upto, |valid|))
  }

  /** Tensors that `vcat_tensors` joins whole: dense, well formed, and copied at their element size. */
  ghost predicate Joinable(r: Env) {
    forall name :: name in r ==> !r[name].sparse && Shaped(r[name]) && CopyWidth(r[name].dt) == Size(r[name].dt)
  }

  lemma {:induction false} JoinedMore(parts: seq<Tensor>, t: Tensor)
    ensures JoinedRows(parts + [t]) == JoinedRows(parts) + t.rows
  {
    if parts == [] {
      assert [] + [t] == [t] && [t][1..] == [];
    } else {
      assert (parts + [t])[1..] == parts[1..] + [t];
      JoinedMore(parts[1..], t);
    }
  }

  lemma NamedMore(valid: seq<Env>, p: Env, name: string)
    ensures Named(valid + [p], name) == Named(valid, name) + [if name in p then p[name] else NO_TENSOR]
  {
  }

  lemma SliceShaped(t: Tensor, lo: nat, hi: nat)
    requires Shaped(t) && lo <= hi <= |t.rows|
    ensures Shaped(Slice(t, lo, hi)) && t.rows[..lo] + Slice(t, lo, hi).rows == t.rows[..hi]
  {
  }

  lemma AssembledMore(valid: seq<Env>, r: Env, served: set<string>, n: nat, lo: nat, hi: nat)
    requires ServedAligned(r, served, n) && lo <= hi <= n && Assembled(valid, r, served, n, lo) && Joinable(r)
    ensures Assembled(valid + [ChunkOf(r, served, n, lo, hi)], r, served, n, hi)
  {
    hide Shaped, Named, JoinedRows;
    var p := ChunkOf(r, served, n, lo, hi);
    forall name | name in r
      ensures Uniform(Named(valid + [p], name), r[name].dt, r[name].cols)
      ensures JoinedRows(Named(valid + [p], name)) == Gathered(r[name], name in served, hi, |valid| + 1)
    {
      NamedMore(valid, p, name);
      JoinedMore(Named(valid, name), p[name]);
      if name in served { SliceShaped(r[name], lo, hi); }
    }
  }

  lemma NonEmptyMore(ps: seq<Env>, p: Env)
    ensures NonEmpty(ps + [p]) == NonEmpty(ps) + if p == map[] then [] else [p]
  {
    assert (ps + [p])[..|ps|] == ps;
  }

  /** How many of the first k tasks have rows. */
  function Busy(n: nat, threads: nat, k: nat): nat
    requires threads > 0
  {
    if k == 0 then 0 else Busy(n, threads, k - 1) + if From(n, threads, k - 1) < n then 1 else 0
  }

  lemma AtLeast(s: nat, e: nat)
    requires s > 0
    ensures s * e >= e
  {
  }

  lemma ProductBound(n: nat, threads: nat, c: nat)
    requires threads > 1 && c > 0 && threads * c <= n + threads - 1
    ensures 2 * c <= n + 1
  {
    var (s, e) := (threads - 1, c - 1);
    assert threads * c == s * e + s + e + 1;
    AtLeast(s, e);
  }

  lemma ChunkSize(n: nat, threads: nat)
    requires n > 0 && threads > 1
    ensures 0 < Chunk(n, threads) <= n && (Chunk(n, threads) == n <==> n == 1)
  {
    ChunkCovers(n, threads);
    RoundUp(n + threads - 1, threads);
    var c := Chunk(n, threads);
    hide Chunk;
    ProductBound(n, threads, c);
  }

  lemma RoundUp(m: nat, d: nat)
    requires d > 0
    ensures d * (m / d) <= m
  {
  }

  /** One task works alone if and only if there is one row. */
  lemma {:induction false} AloneIff(n: nat, threads: nat, k: nat)
    requires n > 0 && threads > 1 && k > 1
    ensures Busy(n, threads, k) >= 1 && (Busy(n, threads, k) == 1 <==> n == 1)
  {
    hide Chunk;
    ChunkSize(n, threads);
    if k == 2 {
      assert Busy(n, threads, 0) == 0 && Busy(n, threads, 1) == 1;
      assert From(n, threads, 1) == Chunk(n, threads);
    } else {
      AloneIff(n, threads, k - 1);
      if n == 1 { assert From(n, threads, k - 1) == k - 1; }
    }
  }

  /** The chunks taken so far, in order, are a prefix of the batch. */
  lemma {:induction false} PartsAssemble(x: Executor, inputs: Env, first: string, n: nat, threads: nat, filter: seq<string>, k: nat)
    requires first in inputs && Healthy(x, inputs, first, n, filter) && n > 0 && threads > 0
    requires ServedAligned(Serial(x, inputs, first, n, filter), Served(x, inputs, first, n, filter), n)
    requires Serial(x, inputs, first, n, filter) != map[] && Joinable(Serial(x, inputs, first, n, filter))
    ensures Parts(x, inputs, first, n, threads, filter, k).Some?
    ensures var (r, served) := (Serial(x, inputs, first, n, filter), Served(x, inputs, first, n, filter));
      var valid := NonEmpty(Parts(x, inputs, first, n, threads, filter, k).value);
      Assembled(valid, r, served, n, Upto(n, threads, k)) && |valid| == Busy(n, threads, k)
  {
    hide RunGraph, Aligned, Joinable, ServedAligned, Assembled, Chunk, ChunkOf, NonEmpty, Serial, Served;
    var (r, served) := (Serial(x, inputs, first, n, filter), Served(x, inputs, first, n, filter));
    if k == 0 {
      NoneAssembled(r, served, n);
    } else {
      PartsAssemble(x, inputs, first, n, threads, filter, k - 1);
      NextStart(k - 1, Chunk(n, threads));
      ChunkCovers(n, threads);
      var ps := Parts(x, inputs, first, n, threads, filter, k - 1).value;
      var (lo, hi) := (From(n, threads, k - 1), To(n, threads, k - 1));
      if lo < n {
        ChunkIsSlice(x, inputs, first, n, filter, lo, hi);
        AssembledMore(NonEmpty(ps), r, served, n, lo, hi);
        ChunkNotEmpty(r, served, n, lo, hi);
        NonEmptyMore(ps, ChunkOf(r, served, n, lo, hi));
      } else {
        NonEmptyMore(ps, map[]);
        assert Upto(n, threads, k - 1) == n == Upto(n, threads, k);
        assert NonEmpty(Parts(x, inputs, first, n, threads, filter, k).value) == NonEmpty(ps);
      }
    }
  }

  lemma NoneAssembled(r: Env, served: set<string>, n: nat)
    requires ServedAligned(r, served, n)
    ensures NonEmpty([]) == [] && Assembled([], r, served, n, 0)
  {
    forall name | name in r
      ensures Uniform(Named([], name), r[name].dt, r[name].cols)
      ensures JoinedRows(Named([], name)) == Gathered(r[name], name in served, 0, 0)
    {
      assert Named([], name) == [];
    }
  }

  lemma ChunkNotEmpty(r: Env, served: set<string>, n: nat, lo: nat, hi: nat)
    requires ServedAligned(r, served, n) && lo <= hi <= n && r != map[]
    ensures ChunkOf(r, served, n, lo, hi) != map[]
  {
    var name :| name in r;
    assert name in ChunkOf(r, served, n, lo, hi);
  }

  /** The serial result with every constant repeated. */
  function WithRepeats(r: Env, served: set<string>, times: nat): Env {
    map name | name in r :: if name in served then r[name] else r[name].(rows := Repeated(r[name].rows, times))
  }

  /** Slots that hold the whole batch merge to the serial result, each constant once a slot. */
  lemma MergeAssembled(ps: seq<Env>, r: Env, served: set<string>, n: nat)
    requires ServedAligned(r, served, n) && NonEmpty(ps) != [] && Assembled(NonEmpty(ps), r, served, n, n) && Joinable(r)
    ensures Merge(ps) == Some(WithRepeats(r, served, |NonEmpty(ps)|))
  {
    hide Shaped, Vcat, NonEmpty;
    var valid := NonEmpty(ps);
    var merged := WithRepeats(r, served, |valid|);
    forall name | name in r
      ensures |valid| == 1 ==> valid[0][name] == merged[name]
      ensures Vcat(Named(valid, name)) == Some(merged[name])
    {
      var parts := Named(valid, name);
      VcatStacks(parts, r[name].dt, r[name].cols);
      if name in served { assert r[name].rows[..n] == r[name].rows; }
      if |valid| == 1 { assert parts[1..] == [] && parts[0].rows + [] == parts[0].rows; }
    }
    if |valid| == 1 {
      assert valid[0] == merged;
    } else {
      assert (map name | name in valid[0] :: Vcat(Named(valid, name)).value) == merged;
    }
  }

  /** A batch that is not cut. */
  predicate Uncut(x: Executor, n: nat, threads: nat) {
    threads <= 1 || n < threads * x.minParallelRows
  }

  /** However many threads and whatever the threshold: over row-local nodes with joinable outputs a batch gets the
      result of one serial run, except that every constant of the model among the outputs comes once per task
      that has rows. */
  lemma ParallelRepeats(x: Executor, inputs: Env, first: string, n: nat, threads: nat, filter: seq<string>)
    requires first in inputs && Healthy(x, inputs, first, n, filter) && n > 0
    requires Joinable(Serial(x, inputs, first, n, filter))
    ensures var (r, served) := (Serial(x, inputs, first, n, filter), Served(x, inputs, first, n, filter));
      Predict(x, inputs, first, n, threads, filter) ==
      Some(if Uncut(x, n, threads) then r else WithRepeats(r, served, Busy(n, threads, threads)))
  {
    if !Uncut(x, n, threads) {
      ChunkIsSlice(x, inputs, first, n, filter, 0, n);
      AloneIff(n, threads, threads);
      ChunkCovers(n, threads);
      hide Healthy, RunGraph, Joinable, ServedAligned, Assembled, Chunk, ChunkOf, Merge, NonEmpty, Served, From, Serial;
      var (r, served) := (Serial(x, inputs, first, n, filter), Served(x, inputs, first, n, filter));
      if r == map[] {
        NothingWanted(x, inputs, first, n, threads, filter, threads);
      } else {
        PartsAssemble(x, inputs, first, n, threads, filter, threads);
        MergeAssembled(Parts(x, inputs, first, n, threads, filter, threads).value, r, served, n);
      }
    }
  }

  /** Parallel is serial if and only if the batch is not cut, has one row, or asks for no constant that has rows. */
  lemma ParallelIsSerial(x: Executor, inputs: Env, first: string, n: nat, threads: nat, filter: seq<string>)
    requires first in inputs && Healthy(x, inputs, first, n, filter) && n > 0
    requires Joinable(Serial(x, inputs, first, n, filter))
    ensures var (r, served) := (Serial(x, inputs, first, n, filter), Served(x, inputs, first, n, filter));
      Predict(x, inputs, first, n, threads, filter) == Some(r) <==>
      (Uncut(x, n, threads) || n == 1 || forall name :: name in r && name !in served ==> r[name].rows == [])
  {
    ParallelRepeats(x, inputs, first, n, threads, filter);
    if !Uncut(x, n, threads) {
      AloneIff(n, threads, threads);
      RepeatsIff(Serial(x, inputs, first, n, filter), Served(x, inputs, first, n, filter), Busy(n, threads, threads));
    }
  }

  lemma RepeatsIff(r: Env, served: set<string>, times: nat)
    requires times > 0
    ensures WithRepeats(r, served, times) == r <==> times == 1 || forall name :: name in r && name !in served ==> r[name].rows == []
  {
    var w := WithRepeats(r, served, times);
    hide Repeated;
    forall name | name in r && name !in served
      ensures w[name] == r[name] <==> times == 1 || r[name].rows == [] { RepeatedIff(r[name].rows, times); }
    assert w == r <==> forall name :: name in r ==> w[name] == r[name];
  }

  /** No output requested: every slot stays empty. */
  lemma {:induction false} NothingWanted(x: Executor, inputs: Env, first: string, n: nat, threads: nat, filter: seq<string>, k: nat)
    requires first in inputs && Healthy(x, inputs, first, n, filter) && n > 0 && threads > 0
    requires Serial(x, inputs, first, n, filter) == map[]
    ensures var ps := Parts(x, inputs, first, n, threads, filter, k);
      ps.Some? && NonEmpty(ps.value) == [] && Merge(ps.value) == Some(map[])
  {
    hide RunGraph, Chunk, Vcat, Shaped, NonEmpty, Serial, Served;
    if k == 0 {
      assert NonEmpty([]) == [] by { NoneAssembled(map[], {}, n); }
    } else {
      NothingWanted(x, inputs, first, n, threads, filter, k - 1);
      ChunkCovers(n, threads);
      var (lo, hi) := (From(n, threads, k - 1), To(n, threads, k - 1));
      if lo < n {
        ChunkIsSlice(x, inputs, first, n, filter, lo, hi);
        NoResults(Served(x, inputs, first, n, filter), n, lo, hi);
      }
      NonEmptyMore(Parts(x, inputs, first, n, threads, filter, k - 1).value, map[]);
    }
  }

  // ---------------------------------------------------------------- where the conditions matter

  const ONE_ROW := Tensor(Float32, false, 1, [[[0, 0, 0, 0]]])
  const TWO_ROWS := Tensor(Float32, false, 1, [[[0, 0, 0, 0]], [[0, 0, 0, 0]]])

  /** A graph without nodes whose output "k" is a constant of one row. */
  function ConstantOutput(narrow: (DataType, Cell) -> Single): Executor {
    Executor([], map["k" := ONE_ROW], [], ["k"], 1, narrow)
  }

  lemma ConstantCollected(narrow: (DataType, Cell) -> Single, inputs: Env, first: string, lo: nat, hi: nat)
    requires first in inputs && lo <= hi
    ensures FinalStore(ConstantOutput(narrow), inputs, first, lo, hi) == Some(map[])
    ensures RunGraph(ConstantOutput(narrow), inputs, first, lo, hi, []) == Some(map["k" := ONE_ROW])
  {
    var x := ConstantOutput(narrow);
    var none: Env := map[];
    assert Collect(x, none, [], 0) == Some(none);
    assert Collect(x, none, [], 1) == Some(none["k" := ONE_ROW]);
  }

  lemma TwoTimes()
    ensures Repeated(ONE_ROW.rows, 2) == TWO_ROWS.rows && Busy(2, 2, 2) == 2
  {
    var none: seq<Row> := [];
    assert Repeated(ONE_ROW.rows, 0) == none && Repeated(ONE_ROW.rows, 1) == ONE_ROW.rows;
    assert Chunk(2, 2) == 1 && Busy(2, 2, 0) == 0 && Busy(2, 2, 1) == 1;
  }

  lemma ConstantHealthy(narrow: (DataType, Cell) -> Single)
    ensures var (x, inputs) := (ConstantOutput(narrow), map["x" := TWO_ROWS]);
      Healthy(x, inputs, "x", 2, []) && Serial(x, inputs, "x", 2, []) == map["k" := ONE_ROW] &&
      Served(x, inputs, "x", 2, []) == {} && Joinable(map["k" := ONE_ROW])
  {
    ConstantCollected(narrow, map["x" := TWO_ROWS], "x", 0, 2);
    hide RunGraph, FinalStore;
  }

  /** Each chunk contributes the constant once: two threads return it twice. */
  lemma ConstantOutputRepeats(narrow: (DataType, Cell) -> Single)
    ensures var x := ConstantOutput(narrow);
      RunGraph(x, map["x" := TWO_ROWS], "x", 0, 2, []) == Some(map["k" := ONE_ROW]) &&
      Predict(x, map["x" := TWO_ROWS], "x", 2, 2, []) == Some(map["k" := TWO_ROWS])
  {
    var (x, inputs) := (ConstantOutput(narrow), map["x" := TWO_ROWS]);
    hide RunGraph, FinalStore, Predict, Busy, Repeated, Healthy, Served, Joinable;
    ConstantCollected(narrow, inputs, "x", 0, 2);
    ConstantHealthy(narrow);
    TwoTimes();
    ParallelRepeats(x, inputs, "x", 2, 2, []);
    assert ONE_ROW.(rows := TWO_ROWS.rows) == TWO_ROWS;
    assert WithRepeats(map["k" := ONE_ROW], {}, 2) == map["k" := TWO_ROWS];
  }

  // ---------------------------------------------------------------- the code

  method Memcpy(dst: array<bv8>, at: nat, src: seq<bv8>, len: nat)
    requires len <= |src| && at + len <= dst.Length
    modifies dst
    ensures dst[..] == old(dst[..at]) + src[..len] + old(dst[at + len..])
  {
    var i := 0;
    while i < len
      invariant 0 <= i <= len
      invariant forall j :: 0 <= j < dst.Length ==> dst[j] == if at <= j < at + i then src[j - at] else old(dst[j])
    {
      dst[at + i] := src[i];
      i := i + 1;
    }
  }

  method CountRows(parts: seq<Tensor>) returns (total: nat)
    ensures total == TotalRows(parts)
  {
    total := 0;
    var i := 0;
    assert parts[0..] == parts;
    while i < |parts|
      invariant 0 <= i <= |parts|
      invariant total + TotalRows(parts[i..]) == TotalRows(parts)
    {
      assert parts[i..][1..] == parts[i + 1..];
      total := total + |parts[i].rows|;
      i := i + 1;
    }
  }

  /** The copy loop of `vcat_tensors`; false stands for a copy that leaves one of its buffers. */
  method CopyAll(out: array<bv8>, parts: seq<Tensor>, cols: nat, width: nat) returns (ok: bool)
    modifies out
    ensures var copied := CopyParts(old(out[..]), 0, parts, cols, width);
      ok == copied.Some? && (ok ==> out[..] == copied.value)
  {
    hide Span, Raw;
    var off: nat, i := 0, 0;
    assert parts[0..] == parts;
    while i < |parts|
      invariant 0 <= i <= |parts|
      invariant CopyParts(out[..], off, parts[i..], cols, width) == CopyParts(old(out[..]), 0, parts, cols, width)
    {
      assert parts[i..][0] == parts[i] && parts[i..][1..] == parts[i + 1..];
      ghost var before := out[..];
      var at, len := Span(off, cols, width), Span(|parts[i].rows|, cols, width);
      if parts[i].sparse || len > |Raw(parts[i])| || at + len > out.Length { return false; }
      Memcpy(out, at, Raw(parts[i]), len);
      assert out[..] == Copied(before, at, Raw(parts[i]), len).value;
      off := off + |parts[i].rows|;
      i := i + 1;
    }
    ok := true;
  }

  method VcatTensors(parts: seq<Tensor>) returns (joined: Option<Tensor>)
    requires parts != []
    ensures joined == Vcat(parts)
  {
    hide CopyParts;
    var total := CountRows(parts);
    var cols, dt := parts[0].cols, parts[0].dt;
    var size := Span(total, cols, Size(dt));
    var out := new bv8[size](_ => 0);
    assert out[..] == Zeros(size);
    var ok := CopyAll(out, parts, cols, CopyWidth(dt));
    joined := if ok then Some(FromRaw(dt, total, cols, out[..])) else None;
  }

  /** `run_graph` over rows lo to hi, in a store of its own. */
  method Execute(x: Executor, inputs: Env, first: string, lo: nat, hi: nat, filter: seq<string>) returns (r: Option<Env>)
    requires first in inputs && lo <= hi
    ensures r == RunGraph(x, inputs, first, lo, hi, filter)
  {
    hide InputFor, Wanted;
    var vs := new ValueStore<Tensor>(x.consts, null);
    var f := 0;
    while f < |x.inputNames|
      invariant 0 <= f <= |x.inputNames|
      invariant vs.parent == null && vs.constants == x.consts && vs.Chained()
      invariant BindInputs(x, inputs, first, f, lo, hi) == Some(vs.values)
    {
      var t := InputFor(x, inputs, first, f, lo, hi);
      if t.None? {
        NoInput(x, inputs, first, f, lo, hi);
        return None;
      }
      vs.Put(x.inputNames[f], t.value);
      f := f + 1;
    }
    var k := 0;
    ghost var start := vs.values;
    while k < |x.nodes|
      invariant 0 <= k <= |x.nodes|
      invariant vs.parent == null && vs.constants == x.consts && vs.Chained()
      invariant RunNodes(x.nodes[..k], start, hi - lo) == Some(vs.values)
    {
      assert x.nodes[..k + 1][..k] == x.nodes[..k];
      var m := x.nodes[k](vs.values, hi - lo);
      if m.None? {
        NodeFails(x.nodes, k, start, hi - lo);
        return None;
      }
      vs.values := m.value;
      k := k + 1;
    }
    assert x.nodes[..k] == x.nodes;
    var result: Env := map[];
    var i := 0;
    while i < |x.outputs|
      invariant 0 <= i <= |x.outputs|
      invariant Collect(x, vs.values, filter, i) == Some(result)
    {
      if Wanted(filter, x.outputs[i]) {
        var t := vs.Get(x.outputs[i]);
        if t.None? {
          OutputMissing(x, vs.values, filter, i);
          return None;
        }
        result := result[x.outputs[i] := t.value];
      }
      i := i + 1;
    }
    r := Some(result);
  }

  lemma {:induction false} NoInput(x: Executor, inputs: Env, first: string, f: nat, lo: nat, hi: nat)
    requires first in inputs && f < |x.inputNames| && InputFor(x, inputs, first, f, lo, hi) == None
    ensures BindInputs(x, inputs, first, |x.inputNames|, lo, hi) == None
  {
    hide InputFor;
    var k := f + 1;
    while k < |x.inputNames|
      invariant f < k <= |x.inputNames| && BindInputs(x, inputs, first, k, lo, hi) == None
    {
      k := k + 1;
    }
  }

  lemma {:induction false} NodeFails(nodes: seq<NodeFn>, k: nat, env: Env, n: nat)
    requires k < |nodes| && RunNodes(nodes[..k + 1], env, n) == None
    ensures RunNodes(nodes, env, n) == None
    decreases |nodes|
  {
    if k + 1 == |nodes| {
      assert nodes[..k + 1] == nodes;
    } else {
      assert nodes[..|nodes| - 1][..k + 1] == nodes[..k + 1];
      NodeFails(nodes[..|nodes| - 1], k, env, n);
    }
  }

  lemma {:induction false} OutputMissing(x: Executor, env: Env, filter: seq<string>, i: nat)
    requires i < |x.outputs| && Wanted(filter, x.outputs[i]) && Lookup(env, x.consts, x.outputs[i]) == None
    ensures Collect(x, env, filter, |x.outputs|) == None
  {
    var k := i + 1;
    while k < |x.outputs|
      invariant i < k <= |x.outputs| && Collect(x, env, filter, k) == None
    {
      k := k + 1;
    }
  }

  lemma {:induction false} PartsAre(x: Executor, inputs: Env, first: string, n: nat, threads: nat, filter: seq<string>, k: nat)
    requires first in inputs && threads > 0
    ensures var ps := Parts(x, inputs, first, n, threads, filter, k);
      if ps.Some?
      then |ps.value| == k && forall t: nat :: t < k ==> Part(x, inputs, first, n, threads, filter, t) == Some(ps.value[t])
      else exists t: nat :: t < k && Part(x, inputs, first, n, threads, filter, t) == None
  {
    hide Part;
    if k > 0 { PartsAre(x, inputs, first, n, threads, filter, k - 1); }
  }

  /** What the pool promises of the tasks 0 to threads - 1. */
  ghost predicate EachOnce(order: seq<nat>, threads: nat) {
    && (forall t: nat :: t in order <==> t < threads)
    && (forall i, j :: 0 <= i < j < |order| ==> order[i] != order[j])
  }

  /** The tasks in whatever order the pool finishes them; each writes only its own slot. */
  method RunTasks(x: Executor, inputs: Env, first: string, n: nat, threads: nat, filter: seq<string>, order: seq<nat>)
    returns (slots: array<Option<Env>>)
    requires first in inputs && threads > 0
    requires EachOnce(order, threads)
    ensures fresh(slots) && slots.Length == threads
    ensures forall t: nat :: t < threads ==> slots[t] == Part(x, inputs, first, n, threads, filter, t)
  {
    hide From, To, Part;
    slots := new Option<Env>[threads](_ => Some(map[]));
    var i := 0;
    while i < |order|
      invariant 0 <= i <= |order|
      invariant forall t: nat :: t < threads ==>
        slots[t] == if t in order[..i] then Part(x, inputs, first, n, threads, filter, t) else Some(map[])
    {
      var t := order[i];
      assert t in order;
      assert order[..i + 1] == order[..i] + [t];
      PartIs(x, inputs, first, n, threads, filter, t);
      if From(n, threads, t) < n {
        slots[t] := Execute(x, inputs, first, From(n, threads, t), To(n, threads, t), filter);
      }
      i := i + 1;
    }
    assert order[..i] == order;
  }

  lemma PartIs(x: Executor, inputs: Env, first: string, n: nat, threads: nat, filter: seq<string>, t: nat)
    requires first in inputs && threads > 0
    ensures From(n, threads, t) < n ==> From(n, threads, t) <= To(n, threads, t)
    ensures Part(x, inputs, first, n, threads, filter, t) == if From(n, threads, t) >= n then Some(map[])
      else RunGraph(x, inputs, first, From(n, threads, t), To(n, threads, t), filter)
  {
  }

  /** Lines 255 to 273; a copy that leaves its buffer ends the model's run. */
  method JoinSlots(slots: seq<Env>) returns (r: Option<Env>)
    ensures r == Merge(slots)
  {
    hide Vcat;
    var valid: seq<Env> := [];
    var i := 0;
    while i < |slots|
      invariant 0 <= i <= |slots|
      invariant valid == NonEmpty(slots[..i])
    {
      assert slots[..i + 1][..i] == slots[..i];
      if slots[i] != map[] { valid := valid + [slots[i]]; }
      i := i + 1;
    }
    assert slots[..i] == slots;
    if valid == [] { return Some(map[]); }
    if |valid| == 1 { return Some(valid[0]); }
    var result: Env := map[];
    var names := valid[0].Keys;
    while names != {}
      invariant names <= valid[0].Keys && result.Keys == valid[0].Keys - names
      invariant forall name :: name in result ==> Vcat(Named(valid, name)) == Some(result[name])
      decreases names
    {
      var name :| name in names;
      var t := VcatTensors(Named(valid, name));
      if t.None? { return None; }
      result := result[name := t.value];
      names := names - {name};
    }
    assert result == map name | name in valid[0] :: Vcat(Named(valid, name)).value;
    r := Some(result);
  }

  method PredictNamed(x: Executor, inputs: Env, first: string, threads: nat, filter: seq<string>, order: seq<nat>)
    returns (r: Option<Env>)
    requires first in inputs
    requires EachOnce(order, threads)
    ensures r == Predict(x, inputs, first, |inputs[first].rows|, threads, filter)
  {
    hide RunGraph, Part, Merge;
    var n := |inputs[first].rows|;
    if n == 0 { return Some(map[]); }
    if threads <= 1 || n < threads * x.minParallelRows {
      r := Execute(x, inputs, first, 0, n, filter);
      return;
    }
    var slots := RunTasks(x, inputs, first, n, threads, filter, order);
    PartsAre(x, inputs, first, n, threads, filter, threads);
    var parts: seq<Env> := [];
    var t := 0;
    while t < threads
      invariant 0 <= t <= threads && |parts| == t
      invariant forall s :: 0 <= s < t ==> slots[s] == Some(parts[s])
    {
      if slots[t].None? { return None; }
      parts := parts + [slots[t].value];
      t := t + 1;
    }
    assert parts == Parts(x, inputs, first, n, threads, filter, threads).value;
    r := JoinSlots(parts);
  }
}
