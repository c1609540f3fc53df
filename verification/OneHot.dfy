/** One-hot encoding: the generic operator of src/operator_registry.cpp scans the categories, the node that
    src/graph_loader.cpp builds for string categories (src/nodes/ohe_node.cpp) looks them up in hash maps. */
module OneHot {
  import opened Nums
  import opened Wrappers

  /** One cell of input: text, or a number. */
  datatype Cell = Label(text: string) | Number(num: Num)

  /** Whether the category attribute holds text, all categories in a row, and where the block of each feature starts. */
  datatype Encoder = Encoder(text: bool, cats: seq<Cell>, offsets: Option<seq<int>>)

  function Min(a: int, b: int): int {
    if b < a then b else a
  }

  // ---------------------------------------------------------------- two readings of the offsets

  /** The generic operator clamps every bound to the categories, and reads all of them where an offset is absent. */
  function Begin(e: Encoder, f: nat): int {
    if e.offsets.Some? && f < |e.offsets.value| then Min(e.offsets.value[f], |e.cats|) else 0
  }

  function End(e: Encoder, f: nat): int {
    if e.offsets.Some? && f + 1 < |e.offsets.value| then Min(e.offsets.value[f + 1], |e.cats|) else |e.cats|
  }

  /** The loader does not clamp, and gives features behind the first no categories where an offset is absent. */
  function LoadBegin(e: Encoder, f: nat): int {
    if e.offsets.Some? && f < |e.offsets.value| then e.offsets.value[f] else 0
  }

  function LoadEnd(e: Encoder, f: nat): int {
    if e.offsets.Some? && f + 1 < |e.offsets.value| then e.offsets.value[f + 1]
    else if f == 0 then |e.cats|
    else LoadBegin(e, f)
  }

  predicate SameReading(e: Encoder, f: nat) {
    LoadBegin(e, f) == Begin(e, f) && LoadEnd(e, f) == End(e, f)
  }

  /** Both readings give each of nf features the same block of categories. */
  predicate SameBlocks(e: Encoder, nf: nat) {
    forall f: nat :: f < nf ==> SameReading(e, f) && 0 <= Begin(e, f) <= End(e, f)
  }

  /** Offsets for all of nf features, in bounds and nondecreasing; one feature may do without. */
  predicate Covers(e: Encoder, nf: nat) {
    match e.offsets
    case None => nf == 1
    case Some(o) =>
      |o| > nf && 0 <= o[0] && o[nf] <= |e.cats| && forall i, j :: 0 <= i <= j <= nf ==> o[i] <= o[j]
  }

  lemma ReadingsAgree(e: Encoder, nf: nat)
    requires Covers(e, nf)
    ensures SameBlocks(e, nf)
  {
  }

  // ---------------------------------------------------------------- the encoding

  /** NaN equals nothing. */
  predicate Same(a: Cell, b: Cell) {
    match a
    case Label(x) => b == Label(x)
    case Number(v) => v.R? && b == Number(v)
  }

  /** The first category equal to x. */
  function FirstMatch(cats: seq<Cell>, x: Cell): (r: Option<nat>)
    ensures r.Some? ==> r.value < |cats| && Same(cats[r.value], x) && forall i :: 0 <= i < r.value ==> !Same(cats[i], x)
    ensures r.None? ==> forall i :: 0 <= i < |cats| ==> !Same(cats[i], x)
  {
    if cats == [] then None
    else if Same(cats[0], x) then Some(0)
    else
      match FirstMatch(cats[1..], x)
      case None => None
      case Some(i) => Some(i + 1)
  }

  /** The column of its block that a cell switches on: text and numbers are looked up among their like, and numbers
      against text categories count as indices. */
  function Hot(text: bool, cats: seq<Cell>, cell: Cell, toInt: Num -> int): (r: Option<nat>)
    ensures r.Some? ==> r.value < |cats|
  {
    match cell
    case Label(_) => if text then FirstMatch(cats, cell) else None
    case Number(v) =>
      if !text then FirstMatch(cats, cell)
      else if 0 <= toInt(v) < |cats| then Some(toInt(v))
      else None
  }

  function Block(width: nat, hot: Option<nat>): (b: seq<real>)
    ensures |b| == width && forall k :: 0 <= k < width ==> b[k] == if hot == Some(k) then 1.0 else 0.0
  {
    seq(width, k requires 0 <= k => if hot == Some(k) then 1.0 else 0.0)
  }

  function CategoriesOf(e: Encoder, f: nat): seq<Cell>
    requires 0 <= Begin(e, f) <= End(e, f)
  {
    e.cats[Begin(e, f)..End(e, f)]
  }

  predicate InOrder(e: Encoder, nf: nat) {
    forall f :: 0 <= f < nf ==> 0 <= Begin(e, f) <= End(e, f)
  }

  /** The encoded row: one block per feature. */
  function Row(e: Encoder, cells: seq<Cell>, toInt: Num -> int): seq<real>
    requires InOrder(e, |cells|)
  {
    if cells == [] then []
    else
      var f := |cells| - 1;
      Row(e, cells[..f], toInt) + Block(End(e, f) - Begin(e, f), Hot(e.text, CategoriesOf(e, f), cells[f], toInt))
  }

  function Width(e: Encoder, nf: nat): nat
    requires InOrder(e, nf)
  {
    if nf == 0 then 0 else Width(e, nf - 1) + (End(e, nf - 1) - Begin(e, nf - 1))
  }

  lemma {:induction false} RowWidth(e: Encoder, cells: seq<Cell>, toInt: Num -> int)
    requires InOrder(e, |cells|)
    ensures |Row(e, cells, toInt)| == Width(e, |cells|)
  {
    if cells != [] { RowWidth(e, cells[..|cells| - 1], toInt); }
  }

  /** At most one 1 in every block, everything else 0. */
  lemma OneHotBlocks(e: Encoder, cells: seq<Cell>, toInt: Num -> int, f: nat)
    requires InOrder(e, |cells|) && f < |cells|
    ensures |Row(e, cells, toInt)| == Width(e, |cells|) && Width(e, f) <= Width(e, f + 1) <= Width(e, |cells|)
    ensures var block := Row(e, cells, toInt)[Width(e, f)..Width(e, f + 1)];
      && (forall k :: 0 <= k < |block| ==> block[k] == 0.0 || block[k] == 1.0)
      && (forall j, k :: 0 <= j < k < |block| ==> block[j] == 0.0 || block[k] == 0.0)
  {
    RowWidth(e, cells, toInt);
    BlockAt(e, cells, toInt, f);
  }

  lemma {:induction false} BlockAt(e: Encoder, cells: seq<Cell>, toInt: Num -> int, f: nat)
    requires InOrder(e, |cells|) && f < |cells|
    requires |Row(e, cells, toInt)| == Width(e, |cells|)
    ensures Width(e, f) <= Width(e, f + 1) <= Width(e, |cells|)
    ensures Row(e, cells, toInt)[Width(e, f)..Width(e, f + 1)] ==
      Block(End(e, f) - Begin(e, f), Hot(e.text, CategoriesOf(e, f), cells[f], toInt))
    decreases |cells|
  {
    hide Begin, End, Hot, Block, Row, CategoriesOf;
    var n := |cells| - 1;
    RowWidth(e, cells[..n], toInt);
    RowGrows(e, cells, toInt);
    WidthGrows(e, f + 1, |cells|);
    if f < n {
      BlockAt(e, cells[..n], toInt, f);
      WidthGrows(e, f + 1, n);
      var head := Row(e, cells[..n], toInt);
      assert Row(e, cells, toInt)[..|head|] == head;
      assert Row(e, cells, toInt)[Width(e, f)..Width(e, f + 1)] == head[Width(e, f)..Width(e, f + 1)];
    }
  }

  /** With offsets for all features a block sits where its offsets say. */
  lemma {:induction false} BlocksSit(e: Encoder, nf: nat, f: nat)
    requires e.offsets.Some? && Covers(e, nf) && f <= nf
    ensures InOrder(e, f) && Width(e, f) == e.offsets.value[f] - e.offsets.value[0]
  {
    if f > 0 { BlocksSit(e, nf, f - 1); }
  }

  /** Position p is the first of the positions from lo on that holds the cell. */
  predicate FirstAt(e: Encoder, cell: Cell, lo: nat, p: nat)
    requires lo <= p < |e.cats|
  {
    e.cats[p] == cell && forall q :: lo <= q < p ==> e.cats[q] != cell
  }

  /** What the element for position p of a block that starts at lo must be: 1 for the cell's own category, at its first
      place in the block, or for a number against text categories where the number counts to it. */
  predicate Chosen(e: Encoder, cell: Cell, toInt: Num -> int, lo: nat, p: nat)
    requires lo <= p < |e.cats|
  {
    match cell
    case Label(_) => e.text && FirstAt(e, cell, lo, p)
    case Number(v) => if e.text then toInt(v) == p - lo else v.R? && FirstAt(e, cell, lo, p)
  }

  lemma FirstMatchAt(e: Encoder, cell: Cell, lo: nat, hi: nat, p: nat)
    requires lo <= p < hi <= |e.cats|
    ensures FirstMatch(e.cats[lo..hi], cell) == Some(p - lo) <==> (cell.Number? ==> cell.num.R?) && FirstAt(e, cell, lo, p)
  {
    var (cats, k) := (e.cats[lo..hi], p - lo);
    var m := FirstMatch(cats, cell);
    assert forall q :: lo <= q < hi ==> cats[q - lo] == e.cats[q];
    if m.Some? && m.value < k { assert Same(cats[m.value], cell) && e.cats[lo + m.value] == cats[m.value]; }
    if m.Some? && k < m.value { assert !Same(cats[k], cell); }
    if m.Some? && k == m.value {
      forall q | lo <= q < p && (cell.Number? ==> cell.num.R?) ensures e.cats[q] != cell { assert !Same(cats[q - lo], cell); }
    }
    if m.None? { assert !Same(cats[k], cell); }
  }

  lemma HotAt(e: Encoder, cell: Cell, toInt: Num -> int, lo: nat, hi: nat, p: nat)
    requires lo <= p < hi <= |e.cats|
    ensures Hot(e.text, e.cats[lo..hi], cell, toInt) == Some(p - lo) <==> Chosen(e, cell, toInt, lo, p)
  {
    hide FirstMatch, FirstAt;
    FirstMatchAt(e, cell, lo, hi, p);
  }

  lemma RowElement(e: Encoder, cells: seq<Cell>, toInt: Num -> int, f: nat, k: nat)
    requires InOrder(e, |cells|) && f < |cells| && k < End(e, f) - Begin(e, f)
    ensures Width(e, f) + k < |Row(e, cells, toInt)|
    ensures Row(e, cells, toInt)[Width(e, f) + k] ==
      if Hot(e.text, CategoriesOf(e, f), cells[f], toInt) == Some(k) then 1.0 else 0.0
  {
    hide Row, Hot, Begin, End, CategoriesOf, Width;
    RowWidth(e, cells, toInt);
    BlockAt(e, cells, toInt, f);
    WidthStep(e, f);
    var row := Row(e, cells, toInt);
    assert row[Width(e, f) + k] == row[Width(e, f)..Width(e, f + 1)][k];
  }

  lemma WidthStep(e: Encoder, f: nat)
    requires InOrder(e, f + 1)
    ensures Width(e, f + 1) == Width(e, f) + (End(e, f) - Begin(e, f))
  {
  }

  /** Every element of the encoded row: feature f has the columns of positions o[f] to o[f + 1]. */
  lemma EncodedMeans(e: Encoder, cells: seq<Cell>, toInt: Num -> int, f: nat, p: nat)
    requires e.offsets.Some? && Covers(e, |cells|) && f < |cells|
    requires e.offsets.value[f] <= p < e.offsets.value[f + 1]
    ensures InOrder(e, |cells|)
    ensures var o := e.offsets.value;
      && 0 <= o[0] <= o[f] <= p < o[|cells|] <= |e.cats| && |Row(e, cells, toInt)| == o[|cells|] - o[0]
      && Row(e, cells, toInt)[p - o[0]] == if Chosen(e, cells[f], toInt, o[f], p) then 1.0 else 0.0
  {
    var o := e.offsets.value;
    hide Row, Hot, Width, Chosen, Begin, End, Covers, InOrder, CategoriesOf;
    CoversBounds(e, |cells|, f);
    BlocksSit(e, |cells|, |cells|);
    BlocksSit(e, |cells|, f);
    RowWidth(e, cells, toInt);
    RowElement(e, cells, toInt, f, p - o[f]);
    HotAt(e, cells[f], toInt, o[f], o[f + 1], p);
  }

  lemma CoversBounds(e: Encoder, nf: nat, f: nat)
    requires e.offsets.Some? && Covers(e, nf) && f < nf
    ensures var o := e.offsets.value;
      |o| > nf && Begin(e, f) == o[f] && End(e, f) == o[f + 1] && 0 <= o[0] <= o[f] <= o[f + 1] <= o[nf] <= |e.cats|
  {
  }

  // ---------------------------------------------------------------- the generic operator

  /** The scans of lines 1905 to 1910 and 1922 to 1927 for one cell. */
  method Scan(cats: seq<Cell>, lo: nat, hi: nat, x: Cell) returns (k: nat)
    requires lo <= hi <= |cats|
    ensures k == match FirstMatch(cats[lo..hi], x) case Some(i) => lo + i case None => hi
  {
    k := lo;
    while k < hi && !Same(cats[k], x)
      invariant lo <= k <= hi
      invariant forall i :: lo <= i < k ==> !Same(cats[i], x)
    {
      k := k + 1;
    }
    forall i | 0 <= i < k - lo ensures !Same(cats[lo..hi][i], x) { assert !Same(cats[lo + i], x); }
    if k < hi { assert Same(cats[lo..hi][k - lo], x); }
  }

  /** Writes the 1 of a block, if it has one, into its zeroed columns. */
  method SwitchOn(row: array<real>, off: nat, width: nat, hot: Option<nat>)
    requires off + width <= row.Length && (hot.Some? ==> hot.value < width)
    requires forall k :: off <= k < row.Length ==> row[k] == 0.0
    modifies row
    ensures row[..off + width] == old(row[..off]) + Block(width, hot)
    ensures forall k :: off + width <= k < row.Length ==> row[k] == 0.0
  {
    if hot.Some? { row[off + hot.value] := 1.0; }
    assert row[..off] == old(row[..off]);
    assert row[off..off + width] == Block(width, hot);
  }

  /** One cell of lines 1900 to 1934. */
  method HotByScan(e: Encoder, f: nat, cell: Cell, toInt: Num -> int) returns (hot: Option<nat>)
    requires 0 <= Begin(e, f) <= End(e, f) <= |e.cats|
    ensures hot == Hot(e.text, CategoriesOf(e, f), cell, toInt)
  {
    var lo, hi := Begin(e, f), End(e, f);
    hot := None;
    if cell.Label? == e.text {
      var k := Scan(e.cats, lo, hi, cell);
      if k < hi { hot := Some(k - lo); }
    } else if cell.Number? {
      var idx := toInt(cell.num);
      if idx >= 0 && idx < hi - lo { hot := Some(idx); }
    }
  }

  lemma RowStarts(e: Encoder, toInt: Num -> int)
    ensures Row(e, [], toInt) == []
  {
  }

  lemma RowGrows(e: Encoder, cells: seq<Cell>, toInt: Num -> int)
    requires InOrder(e, |cells|) && cells != []
    ensures var f := |cells| - 1;
      Row(e, cells, toInt) == Row(e, cells[..f], toInt) +
        Block(End(e, f) - Begin(e, f), Hot(e.text, CategoriesOf(e, f), cells[f], toInt))
  {
  }

  /** `op_one_hot_encoder`, one row. */
  method EncodeByScan(e: Encoder, cells: seq<Cell>, toInt: Num -> int) returns (row: array<real>)
    requires InOrder(e, |cells|) && forall f: nat :: f < |cells| ==> End(e, f) <= |e.cats|
    ensures row[..] == Row(e, cells, toInt)
  {
    hide FirstMatch, Begin, End, Hot, Block, Row;
    RowStarts(e, toInt);
    assert cells[..0] == [];
    var total := CountColumns(e, |cells|);
    row := new real[total](_ => 0.0);
    var off: nat, f := 0, 0;
    while f < |cells|
      invariant 0 <= f <= |cells| && off == Width(e, f) && off <= total == row.Length == Width(e, |cells|)
      invariant row[..off] == Row(e, cells[..f], toInt)
      invariant forall k :: off <= k < row.Length ==> row[k] == 0.0
    {
      WidthGrows(e, f + 1, |cells|);
      var lo, hi := Begin(e, f), End(e, f);
      var hot := HotByScan(e, f, cells[f], toInt);
      RowGrows(e, cells[..f + 1], toInt);
      SwitchOn(row, off, hi - lo, hot);
      assert cells[..f + 1][..f] == cells[..f];
      off := off + (hi - lo);
      f := f + 1;
    }
    assert cells[..f] == cells && row[..off] == row[..];
  }

  method CountColumns(e: Encoder, nf: nat) returns (total: nat)
    requires InOrder(e, nf)
    ensures total == Width(e, nf)
  {
    total := 0;
    var f := 0;
    while f < nf
      invariant 0 <= f <= nf && total == Width(e, f)
    {
      total := total + (End(e, f) - Begin(e, f));
      f := f + 1;
    }
  }

  lemma {:induction false} WidthGrows(e: Encoder, f: nat, nf: nat)
    requires InOrder(e, nf) && f <= nf
    ensures Width(e, f) <= Width(e, nf)
  {
    if f < nf { WidthGrows(e, f, nf - 1); }
  }

  // ---------------------------------------------------------------- the accelerated node

  datatype OheNode = OheNode(maps: seq<map<string, nat>>, widths: seq<int>, total: int)

  /** A map that knows every category by its first position. */
  ghost predicate FirstPositions(m: map<string, nat>, cats: seq<Cell>) {
    forall x :: FirstMatch(cats, Label(x)) == if x in m then Some(m[x]) else None
  }

  predicate AllText(cats: seq<Cell>) {
    forall i :: 0 <= i < |cats| ==> cats[i].Label?
  }

  /** `emplace` keeps the entry that is already there. */
  method BuildMap(cats: seq<Cell>) returns (m: map<string, nat>)
    requires AllText(cats)
    ensures FirstPositions(m, cats)
  {
    m := map[];
    var k := 0;
    while k < |cats|
      invariant 0 <= k <= |cats|
      invariant forall x :: x in m ==> m[x] < k && cats[m[x]] == Label(x) && forall i :: 0 <= i < m[x] ==> cats[i] != Label(x)
      invariant forall i :: 0 <= i < k ==> cats[i].text in m
    {
      if cats[k].text !in m { m := m[cats[k].text := k]; }
      k := k + 1;
    }
    forall x ensures FirstMatch(cats, Label(x)) == if x in m then Some(m[x]) else None {
      var first := FirstMatch(cats, Label(x));
      if first.Some? { assert cats[first.value].text in m; }
    }
  }

  /** The node serves the same categories as the offsets the generic operator reads. */
  ghost predicate Serves(node: OheNode, e: Encoder, nf: nat) {
    && e.text && InOrder(e, nf) && |node.maps| == |node.widths| == nf && node.total == Width(e, nf)
    && (forall f :: 0 <= f < nf ==> node.widths[f] == End(e, f) - Begin(e, f) && End(e, f) <= |e.cats|
                                    && FirstPositions(node.maps[f], CategoriesOf(e, f)))
  }

  lemma BlockInBounds(e: Encoder, nf: nat, f: nat)
    requires SameBlocks(e, nf) && f < nf
    ensures LoadBegin(e, f) == Begin(e, f) && LoadEnd(e, f) == End(e, f) && 0 <= Begin(e, f) <= End(e, f) <= |e.cats|
    ensures AllText(e.cats) ==> AllText(CategoriesOf(e, f))
  {
  }

  /** Lines 1501 to 1524 of the loader, which keeps numeric categories on the generic operator. */
  method BuildNode(e: Encoder, nf: nat) returns (node: OheNode)
    requires SameBlocks(e, nf) && e.text && AllText(e.cats)
    ensures Serves(node, e, nf)
  {
    hide Begin, End, LoadBegin, LoadEnd, SameBlocks, AllText, FirstPositions;
    var maps: seq<map<string, nat>>, widths: seq<int>, total := [], [], 0;
    forall f: nat | f < nf ensures 0 <= Begin(e, f) <= End(e, f) <= |e.cats| { BlockInBounds(e, nf, f); }
    var f := 0;
    while f < nf
      invariant 0 <= f <= nf && |maps| == |widths| == f && total == Width(e, f)
      invariant forall g :: 0 <= g < f ==> widths[g] == End(e, g) - Begin(e, g) && FirstPositions(maps[g], CategoriesOf(e, g))
    {
      BlockInBounds(e, nf, f);
      var lo, hi := LoadBegin(e, f), LoadEnd(e, f);
      var m := BuildMap(e.cats[lo..hi]);
      maps, widths, total := maps + [m], widths + [hi - lo], total + (hi - lo);
      f := f + 1;
    }
    node := OheNode(maps, widths, total);
  }

  /** One cell of lines 47 to 65. */
  method HotByMap(node: OheNode, ghost e: Encoder, ghost nf: nat, f: nat, cell: Cell, toInt: Num -> int) returns (hot: Option<nat>)
    requires Serves(node, e, nf) && f < nf
    ensures hot.Some? ==> hot.value < node.widths[f]
    ensures hot == Hot(e.text, CategoriesOf(e, f), cell, toInt)
  {
    ghost var cats := CategoriesOf(e, f);
    hot := None;
    match cell {
      case Label(x) =>
        assert FirstMatch(cats, cell) == if x in node.maps[f] then Some(node.maps[f][x]) else None;
        if x in node.maps[f] { hot := Some(node.maps[f][x]); }
      case Number(v) =>
        var idx := toInt(v);
        if idx >= 0 && idx < node.widths[f] { hot := Some(idx); }
    }
  }

  /** `OHENode::execute`, one row of the zeroed buffer. */
  method EncodeByMap(node: OheNode, ghost e: Encoder, cells: seq<Cell>, toInt: Num -> int) returns (row: array<real>)
    requires Serves(node, e, |cells|)
    ensures row[..] == Row(e, cells, toInt)
  {
    hide FirstMatch, Begin, End, Hot, Block, Row, FirstPositions, CategoriesOf;
    RowStarts(e, toInt);
    assert cells[..0] == [];
    row := new real[node.total](_ => 0.0);
    var off: nat, f := 0, 0;
    while f < |cells|
      invariant 0 <= f <= |cells| && off == Width(e, f) && off <= row.Length == Width(e, |cells|)
      invariant row[..off] == Row(e, cells[..f], toInt)
      invariant forall k :: off <= k < row.Length ==> row[k] == 0.0
    {
      WidthGrows(e, f + 1, |cells|);
      var w := node.widths[f];
      var hot := HotByMap(node, e, |cells|, f, cells[f], toInt);
      RowGrows(e, cells[..f + 1], toInt);
      SwitchOn(row, off, w, hot);
      assert cells[..f + 1][..f] == cells[..f];
      off := off + w;
      f := f + 1;
    }
    assert cells[..f] == cells && row[..off] == row[..];
  }

  // ---------------------------------------------------------------- split outputs

  /** The columns of output f when every feature has an output of its own. */
  function SplitOutput(e: Encoder, row: seq<real>, f: nat): seq<real>
    requires InOrder(e, f + 1) && Width(e, f + 1) <= |row|
  {
    row[Width(e, f)..Width(e, f + 1)]
  }

  function Joined(e: Encoder, row: seq<real>, n: nat): seq<real>
    requires InOrder(e, n) && Width(e, n) <= |row|
  {
    if n == 0 then [] else Joined(e, row, n - 1) + SplitOutput(e, row, n - 1)
  }

  /** One output per feature carries the same columns as one output for all. */
  lemma {:induction false} SplitLosesNothing(e: Encoder, cells: seq<Cell>, toInt: Num -> int, n: nat)
    requires InOrder(e, |cells|) && n <= |cells|
    ensures Width(e, n) <= |Row(e, cells, toInt)|
    ensures Joined(e, Row(e, cells, toInt), n) == Row(e, cells, toInt)[..Width(e, n)]
  {
    RowWidth(e, cells, toInt);
    WidthGrows(e, n, |cells|);
    if n > 0 { SplitLosesNothing(e, cells, toInt, n - 1); }
  }

  // ---------------------------------------------------------------- where the readings part

  /** With offsets the two agree if and only if none that is read exceeds the categories, and every feature after the
      first whose end is absent begins where the categories end. */
  lemma OffsetsAgreeIff(e: Encoder, nf: nat)
    requires e.offsets.Some?
    ensures (forall f: nat :: f < nf ==> SameReading(e, f)) <==>
      && (forall i: nat :: i < |e.offsets.value| && i <= nf && nf > 0 ==> e.offsets.value[i] <= |e.cats|)
      && (forall f: nat :: 0 < f < nf && f + 1 >= |e.offsets.value| ==> LoadBegin(e, f) == |e.cats|)
  {
    var o := e.offsets.value;
    if forall f: nat :: f < nf ==> SameReading(e, f) {
      forall i: nat | i < |o| && i <= nf && nf > 0 ensures o[i] <= |e.cats| {
        if i < nf { assert SameReading(e, i); } else { assert SameReading(e, i - 1); }
      }
      forall f: nat | 0 < f < nf && f + 1 >= |o| ensures LoadBegin(e, f) == |e.cats| { assert SameReading(e, f); }
    }
  }

  /** Without offsets the loader gives a second feature no columns, the generic operator all of them: the two agree
      if and only if there is one feature at most, or nothing to encode. */
  lemma NoOffsetsAgreeIff(e: Encoder, nf: nat)
    requires e.offsets.None?
    ensures (forall f: nat :: f < nf ==> SameReading(e, f)) <==> nf <= 1 || e.cats == []
  {
    if nf > 1 && e.cats != [] { assert !SameReading(e, 1); }
  }
}
