/** `scatter_outputs` of src/runtime_tensor.h, and what a consumer that gathers the same slots gets back. */
module Slots {
  import opened Nums
  import opened Wrappers
  import opened ValueStores
  import opened Schema

  /** Column j of a matrix, in its width. */
  function Column(m: Tensor, n: nat, j: nat): (t: Tensor)
    requires m.Numeric? && Shaped(m, n) && j < m.cols
    ensures t.Numeric? && t.wide == m.wide && t.cols == 1 && Shaped(t, n)
    ensures forall r :: 0 <= r < n ==> t.rows[r] == [m.rows[r][j]]
  {
    Numeric(m.wide, 1, seq(n, r requires 0 <= r < n => [m.rows[r][j]]))
  }

  /** The first k columns under the first k names. */
  function ByColumn(env: Env, names: seq<string>, m: Tensor, n: nat, k: nat): Env
    requires m.Numeric? && Shaped(m, n) && k <= |names| && k <= m.cols
  {
    if k == 0 then env else ByColumn(env, names, m, n, k - 1)[names[k - 1] := Column(m, n, k - 1)]
  }

  /** One name takes the whole matrix; several take a column each, as far as names and columns go. */
  function Scattered(env: Env, names: seq<string>, m: Tensor, n: nat): Env
    requires m.Numeric? && Shaped(m, n)
  {
    if |names| == 1 then env[names[0] := m]
    else ByColumn(env, names, m, n, if |names| < m.cols then |names| else m.cols)
  }

  method ScatterOutputs(vs: ValueStore<Tensor>, names: seq<string>, m: Tensor, n: nat)
    requires m.Numeric? && Shaped(m, n)
    modifies vs`values
    ensures vs.values == Scattered(old(vs.values), names, m, n)
  {
    if |names| == 1 {
      vs.Put(names[0], m);
      return;
    }
    var j := 0;
    while j < |names| && j < m.cols
      invariant 0 <= j <= |names| && j <= m.cols
      invariant vs.values == ByColumn(old(vs.values), names, m, n, j)
    {
      var col: seq<seq<Num>> := [];
      while |col| < n
        invariant |col| <= n && forall r :: 0 <= r < |col| ==> col[r] == [m.rows[r][j]]
      {
        col := col + [[m.rows[|col|][j]]];
      }
      assert col == Column(m, n, j).rows;
      vs.Put(names[j], Numeric(m.wide, 1, col));
      j := j + 1;
    }
  }

  // ---------------------------------------------------------------- gathering what was scattered

  predicate DistinctNames(names: seq<string>) {
    forall i, j :: 0 <= i < j < |names| ==> names[i] != names[j]
  }

  lemma {:induction false} ColumnsArrive(env: Env, names: seq<string>, m: Tensor, n: nat, k: nat)
    requires m.Numeric? && Shaped(m, n) && k <= |names| && k <= m.cols && DistinctNames(names)
    ensures var e := ByColumn(env, names, m, n, k);
      && (forall i :: 0 <= i < k ==> names[i] in e && e[names[i]] == Column(m, n, i))
      && (forall x :: x in e ==> x in env || x in names[..k])
  {
    hide Shaped;
    if k > 0 {
      ColumnsArrive(env, names, m, n, k - 1);
      assert names[..k] == names[..k - 1] + [names[k - 1]];
    }
  }

  function Columns(m: Tensor, n: nat, k: nat): (ts: seq<Tensor>)
    requires m.Numeric? && Shaped(m, n) && k <= m.cols
    ensures |ts| == k && forall i :: 0 <= i < k ==> ts[i] == Column(m, n, i)
  {
    seq(k, i requires 0 <= i < k => Column(m, n, i))
  }

  lemma ColumnsNumeric(m: Tensor, n: nat, k: nat)
    requires m.Numeric? && Shaped(m, n) && k <= m.cols
    ensures forall t :: t in Columns(m, n, k) ==> t.Numeric? && t.wide == m.wide && Shaped(t, n)
  {
  }

  /** Side by side, the first k columns are the rows up to k. */
  lemma {:induction false} ColumnsAreRows(fl: Floats, m: Tensor, n: nat, r: nat, k: nat)
    requires m.Numeric? && Shaped(m, n) && r < n && k <= m.cols
    ensures forall t :: t in Columns(m, n, k) ==> t.Numeric? && Shaped(t, n)
    ensures WideRow(fl, Columns(m, n, k), m.wide, n, r) == m.rows[r][..k]
  {
    ColumnsNumeric(m, n, k);
    if k > 0 {
      ColumnsAreRows(fl, m, n, r, k - 1);
      var ts := Columns(m, n, k);
      assert ts[..k - 1] == Columns(m, n, k - 1) && ts[k - 1] == Column(m, n, k - 1);
      assert m.rows[r][..k] == m.rows[r][..k - 1] + [m.rows[r][k - 1]];
    }
  }

  lemma GatheredColumns(fl: Floats, m: Tensor, n: nat, names: seq<string>, env: Env, consts: Env, want: Want)
    requires m.Numeric? && Shaped(m, n) && 0 < |names| <= m.cols && (want.FirstSlot? || want.Widest?)
    requires Fetch(names, env, consts) == Some(Columns(m, n, |names|))
    ensures Gathered(fl, names, env, consts, n, want) == Some((m.wide, seq(n, r requires 0 <= r < n => m.rows[r][..|names|])))
  {
    var ts := Columns(m, n, |names|);
    ColumnsNumeric(m, n, |names|);
    assert ts[0].wide == m.wide && IsWide(ts, want) == m.wide;
    forall r | 0 <= r < n ensures WideRow(fl, ts, m.wide, n, r) == m.rows[r][..|names|] {
      ColumnsAreRows(fl, m, n, r, |names|);
    }
    hide WideRow, IsWide, Shaped;
    var rows := seq(n, r requires 0 <= r < n => WideRow(fl, ts, m.wide, n, r));
    assert rows == seq(n, r requires 0 <= r < n => m.rows[r][..|names|]);
  }

  lemma GatheredWhole(fl: Floats, m: Tensor, n: nat, name: string, env: Env, consts: Env, want: Want)
    requires m.Numeric? && Shaped(m, n) && (want.FirstSlot? || want.Widest?)
    requires Fetch([name], env, consts) == Some([m])
    ensures Gathered(fl, [name], env, consts, n, want) == Some((m.wide, m.rows))
  {
    assert [m][0] == m && IsWide([m], want) == m.wide && [m][..0] == [];
    forall r | 0 <= r < n ensures WideRow(fl, [m], m.wide, n, r) == m.rows[r] {
      assert [] + m.rows[r] == m.rows[r];
    }
    assert seq(n, r requires 0 <= r < n => WideRow(fl, [m], m.wide, n, r)) == m.rows;
  }

  /** What one node scatters and the next gathers under the same distinct names is the same matrix in the same
      width, if and only if there is one name, or a name for every column. */
  lemma ScatterGather(fl: Floats, env: Env, consts: Env, names: seq<string>, m: Tensor, n: nat, want: Want)
    requires m.Numeric? && Shaped(m, n) && n > 0 && names != [] && DistinctNames(names)
    requires want.FirstSlot? || want.Widest?
    requires forall i :: 0 <= i < |names| ==> Lookup(env, consts, names[i]) == None
    ensures Gathered(fl, names, Scattered(env, names, m, n), consts, n, want) == Some((m.wide, m.rows))
      <==> |names| == 1 || |names| == m.cols
  {
    hide Gathered;
    var e := Scattered(env, names, m, n);
    if |names| == 1 {
      FetchAll(names, e, consts, [m]);
      assert names == [names[0]];
      GatheredWhole(fl, m, n, names[0], e, consts, want);
    } else if |names| <= m.cols {
      ColumnsArrive(env, names, m, n, |names|);
      FetchAll(names, e, consts, Columns(m, n, |names|));
      GatheredColumns(fl, m, n, names, e, consts, want);
      PrefixesOnly(m, n, |names|);
    } else {
      ColumnsArrive(env, names, m, n, m.cols);
      NameLeftOut(names, m.cols);
      MissingSlotFails(fl, names, e, consts, n, want, m.cols);
    }
  }

  lemma PrefixesOnly(m: Tensor, n: nat, k: nat)
    requires m.Numeric? && Shaped(m, n) && n > 0 && k <= m.cols
    ensures seq(n, r requires 0 <= r < n => m.rows[r][..k]) == m.rows <==> k == m.cols
  {
    var cut := seq(n, r requires 0 <= r < n => m.rows[r][..k]);
    assert |cut[0]| == k && |m.rows[0]| == m.cols;
    if k == m.cols { assert forall r :: 0 <= r < n ==> cut[r] == m.rows[r]; }
  }

  lemma NameLeftOut(names: seq<string>, k: nat)
    requires DistinctNames(names) && k < |names|
    ensures names[k] !in names[..k]
  {
  }

  lemma MissingSlotFails(fl: Floats, names: seq<string>, env: Env, consts: Env, n: nat, want: Want, j: nat)
    requires j < |names| && Lookup(env, consts, names[j]) == None
    ensures Gathered(fl, names, env, consts, n, want) == None
  {
    FetchFails(names, env, consts, j);
  }

  // ---------------------------------------------------------------- the gathering loop

  /** The tensors under the names, or nothing when one is missing. */
  method ReadSlots(vs: ValueStore<Tensor>, names: seq<string>) returns (ts: Option<seq<Tensor>>)
    requires vs.Chained() && vs.parent == null
    ensures ts == Fetch(names, vs.values, vs.constants)
  {
    var found: seq<Tensor> := [];
    var k := 0;
    while k < |names|
      invariant 0 <= k <= |names| && Fetch(names[..k], vs.values, vs.constants) == Some(found)
    {
      assert names[..k + 1][..k] == names[..k];
      var t := vs.Get(names[k]);
      if t.None? {
        FetchFails(names, vs.values, vs.constants, k);
        return None;
      }
      found := found + [t.value];
      k := k + 1;
    }
    assert names[..k] == names;
    ts := Some(found);
  }

  /** The copies of `gather_slots`: slot by slot into the rows of one buffer; text slots are not numbers to copy. */
  method GatherSlots(fl: Floats, vs: ValueStore<Tensor>, names: seq<string>, n: nat, want: Want)
    returns (r: Option<(bool, seq<seq<Num>>)>)
    requires vs.Chained() && vs.parent == null
    ensures r == Gathered(fl, names, vs.values, vs.constants, n, want)
  {
    hide Shaped, Cast;
    var ts := ReadSlots(vs, names);
    if ts.None? || !forall t :: t in ts.value ==> t.Numeric? && Shaped(t, n) { return None; }
    var slots := ts.value;
    var wide := IsWide(slots, want);
    var out: seq<seq<Num>> := seq(n, _ => []);
    var k := 0;
    while k < |slots|
      invariant 0 <= k <= |slots| && |out| == n
      invariant forall i :: 0 <= i < n ==> out[i] == WideRow(fl, slots[..k], wide, n, i)
    {
      assert slots[..k + 1][..k] == slots[..k] && slots[k] in slots;
      out := AppendSlot(fl, slots[k], wide, n, out);
      k := k + 1;
    }
    assert slots[..k] == slots;
    assert out == seq(n, i requires 0 <= i < n => WideRow(fl, slots, wide, n, i));
    r := Some((wide, out));
  }

  method AppendSlot(fl: Floats, t: Tensor, wide: bool, n: nat, out: seq<seq<Num>>) returns (r: seq<seq<Num>>)
    requires t.Numeric? && Shaped(t, n) && |out| == n
    ensures |r| == n && forall i :: 0 <= i < n ==> r[i] == out[i] + Cast(fl, t, wide, t.rows[i])
  {
    r := out;
    var i := 0;
    while i < n
      invariant 0 <= i <= n == |r|
      invariant forall j :: 0 <= j < n ==> r[j] == if j < i then out[j] + Cast(fl, t, wide, t.rows[j]) else out[j]
    {
      r := r[i := r[i] + Cast(fl, t, wide, t.rows[i])];
      i := i + 1;
    }
  }
}
