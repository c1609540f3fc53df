/** The registered-column path of src/c_api.cpp: input tensors that live across calls and are overwritten in
    place, and the outputs a session owns. */
module RegisteredColumns {
  import opened Nums
  import opened Wrappers

  datatype ColumnType = StringColumn | Float64Column | Float32Column

  /** A caller's buffer: absent, numbers, or strings that may each be absent. */
  datatype Buffer = Null | Numbers(nums: seq<Num>) | Strings(strs: seq<Option<string>>)

  /** One column of rows. */
  datatype Tensor = Texts(cells: seq<string>) | Doubles(nums: seq<Num>) | Floats(nums: seq<Num>)

  type Inputs = map<string, Tensor>

  /** The buffer holds what the column type says, for at least n rows. */
  predicate Readable(ty: ColumnType, b: Buffer, n: nat) {
    match b
    case Null => true
    case Numbers(nums) => ty != StringColumn && n <= |nums|
    case Strings(strs) => ty == StringColumn && n <= |strs|
  }

  predicate HasType(t: Tensor, ty: ColumnType, n: nat) {
    match ty
    case StringColumn => t.Texts? && |t.cells| == n
    case Float64Column => t.Doubles? && |t.nums| == n
    case Float32Column => t.Floats? && |t.nums| == n
  }

  function Zeros(n: nat): (r: seq<Num>)
    ensures |r| == n && forall i :: 0 <= i < n ==> r[i] == R(0.0)
  {
    seq(n, _ => R(0.0))
  }

  function Blank(ty: ColumnType, n: nat): (t: Tensor)
    ensures HasType(t, ty, n)
  {
    match ty
    case StringColumn => Texts(seq(n, _ => ""))
    case Float64Column => Doubles(Zeros(n))
    case Float32Column => Floats(Zeros(n))
  }

  function TextAt(b: Buffer, r: nat): string {
    if b.Strings? && r < |b.strs| && b.strs[r].Some? then b.strs[r].value else ""
  }

  /** A tensor of the right type after the buffer is copied over it: an absent numeric buffer leaves it alone. */
  function Filled(t: Tensor, ty: ColumnType, b: Buffer, n: nat): (r: Tensor)
    requires HasType(t, ty, n) && Readable(ty, b, n)
    ensures HasType(r, ty, n)
  {
    match ty
    case StringColumn => Texts(seq(n, r requires 0 <= r => TextAt(b, r)))
    case Float64Column => if b.Null? then t else Doubles(b.nums[..n])
    case Float32Column => if b.Null? then t else Floats(b.nums[..n])
  }

  predicate AllReadable(types: seq<ColumnType>, bufs: seq<Buffer>, n: nat) {
    |bufs| == |types| && forall c :: 0 <= c < |types| ==> Readable(types[c], bufs[c], n)
  }

  /** What binding fresh tensors gives: later columns of a name replace earlier ones. */
  function Bound(names: seq<string>, types: seq<ColumnType>, bufs: seq<Buffer>, n: nat): Inputs
    requires |names| == |types| && AllReadable(types, bufs, n)
  {
    if names == [] then map[]
    else
      var c := |names| - 1;
      Bound(names[..c], types[..c], bufs[..c], n)[names[c] := Filled(Blank(types[c], n), types[c], bufs[c], n)]
  }

  /** `bind_columns_impl`. */
  method BindColumns(names: seq<string>, types: seq<ColumnType>, bufs: seq<Buffer>, n: nat) returns (inputs: Inputs)
    requires |names| == |types| && AllReadable(types, bufs, n)
    ensures inputs == Bound(names, types, bufs, n)
  {
    inputs := map[];
    var c := 0;
    while c < |names|
      invariant 0 <= c <= |names|
      invariant inputs == Bound(names[..c], types[..c], bufs[..c], n)
    {
      assert names[..c + 1][..c] == names[..c] && types[..c + 1][..c] == types[..c] && bufs[..c + 1][..c] == bufs[..c];
      inputs := inputs[names[c] := Filled(Blank(types[c], n), types[c], bufs[c], n)];
      c := c + 1;
    }
    assert names[..c] == names && types[..c] == types && bufs[..c] == bufs;
  }

  // ---------------------------------------------------------------- the cache, as values

  /** One name has one type. */
  predicate OneType(names: seq<string>, types: seq<ColumnType>) {
    |names| == |types| &&
    forall i, j :: 0 <= i < |names| && 0 <= j < |names| && names[i] == names[j] ==> types[i] == types[j]
  }

  predicate Typed(names: seq<string>, types: seq<ColumnType>, m: Inputs, n: nat) {
    && |names| == |types|
    && (forall i :: 0 <= i < |names| ==> names[i] in m && HasType(m[names[i]], types[i], n))
    && (forall x :: x in m ==> x in names)
  }

  /** What a column is written over: its cell, or a blank tensor where the call rebuilds or the cell does not fit. */
  function StartOf(ty: ColumnType, x: string, n: nat, rebuild: bool, m: Inputs): (t: Tensor)
    ensures HasType(t, ty, n)
  {
    if rebuild || x !in m || !HasType(m[x], ty, n) then Blank(ty, n) else m[x]
  }

  /** The cache after columns 0 to k of a call: a call for another number of rows starts from blank tensors. */
  function Updated(names: seq<string>, types: seq<ColumnType>, bufs: seq<Buffer>, n: nat, rebuild: bool, m: Inputs, k: nat):
    Inputs
    requires |names| == |types| && AllReadable(types, bufs, n) && k <= |names|
  {
    if k == 0 then m
    else
      var u := Updated(names, types, bufs, n, rebuild, m, k - 1);
      var c := k - 1;
      u[names[c] := Filled(StartOf(types[c], names[c], n, rebuild, u), types[c], bufs[c], n)]
  }

  /** The rows the cache is sized for, and its tensors. */
  datatype Cache = Cache(rows: nat, inputs: Inputs)

  datatype Call = Call(n: nat, bufs: seq<Buffer>)

  function Next(names: seq<string>, types: seq<ColumnType>, s: Cache, call: Call): Cache
    requires |names| == |types| && AllReadable(types, call.bufs, call.n)
  {
    Cache(call.n, Updated(names, types, call.bufs, call.n, call.n != s.rows, s.inputs, |names|))
  }

  predicate Calls(types: seq<ColumnType>, calls: seq<Call>) {
    forall i :: 0 <= i < |calls| ==> AllReadable(types, calls[i].bufs, calls[i].n)
  }

  /** A fresh registration, sized for one row, after a sequence of calls. */
  function After(names: seq<string>, types: seq<ColumnType>, calls: seq<Call>): Cache
    requires |names| == |types| && Calls(types, calls)
  {
    if calls == [] then Cache(1, Registered(names, types))
    else Next(names, types, After(names, types, calls[..|calls| - 1]), calls[|calls| - 1])
  }

  function Registered(names: seq<string>, types: seq<ColumnType>): Inputs
    requires |names| == |types|
  {
    if names == [] then map[]
    else Registered(names[..|names| - 1], types[..|types| - 1])[names[|names| - 1] := Blank(types[|types| - 1], 1)]
  }

  // ---------------------------------------------------------------- coherence

  lemma {:induction false} RegisteredTyped(names: seq<string>, types: seq<ColumnType>)
    requires OneType(names, types)
    ensures Typed(names, types, Registered(names, types), 1)
  {
    if names != [] {
      var c := |names| - 1;
      RegisteredTyped(names[..c], types[..c]);
      var m := Registered(names, types);
      forall i | 0 <= i < |names| ensures names[i] in m && HasType(m[names[i]], types[i], 1) {
        if i < c && names[i] != names[c] { assert names[..c][i] == names[i] && types[..c][i] == types[i]; }
      }
    }
  }

  /** The columns done so far have the new size; without a rebuild the others had it already. */
  lemma {:induction false} UpdatedTyped(names: seq<string>, types: seq<ColumnType>, bufs: seq<Buffer>, n: nat, old_n: nat, m: Inputs, k: nat)
    requires OneType(names, types) && AllReadable(types, bufs, n) && k <= |names|
    requires Typed(names, types, m, old_n)
    ensures var u := Updated(names, types, bufs, n, n != old_n, m, k);
      && (forall x :: x in u <==> x in m)
      && (forall i :: 0 <= i < |names| && (n == old_n || names[i] in names[..k]) ==> HasType(u[names[i]], types[i], n))
  {
    if k > 0 {
      UpdatedTyped(names, types, bufs, n, old_n, m, k - 1);
      var u := Updated(names, types, bufs, n, n != old_n, m, k);
      assert names[..k] == names[..k - 1] + [names[k - 1]];
      forall i | 0 <= i < |names| && (n == old_n || names[i] in names[..k]) ensures HasType(u[names[i]], types[i], n) {
        if names[i] != names[k - 1] { assert n == old_n || names[i] in names[..k - 1]; }
      }
    }
  }

  /** Every call leaves one tensor of the declared type per name, sized for that call. */
  lemma {:induction false} CacheTyped(names: seq<string>, types: seq<ColumnType>, calls: seq<Call>)
    requires OneType(names, types) && Calls(types, calls)
    ensures Typed(names, types, After(names, types, calls).inputs, After(names, types, calls).rows)
  {
    if calls == [] {
      RegisteredTyped(names, types);
    } else {
      var (before, call) := (calls[..|calls| - 1], calls[|calls| - 1]);
      CacheTyped(names, types, before);
      var s := After(names, types, before);
      UpdatedTyped(names, types, call.bufs, call.n, s.rows, s.inputs, |names|);
      assert names[..|names|] == names;
    }
  }

  /** No number column without a buffer. */
  predicate Supplied(types: seq<ColumnType>, bufs: seq<Buffer>) {
    |bufs| == |types| && forall c :: 0 <= c < |types| && types[c] != StringColumn ==> !bufs[c].Null?
  }

  /** A supplied column is the same whatever was there before. */
  lemma FilledAnew(t: Tensor, s: Tensor, ty: ColumnType, b: Buffer, n: nat)
    requires HasType(t, ty, n) && HasType(s, ty, n) && Readable(ty, b, n)
    requires ty != StringColumn ==> !b.Null?
    ensures Filled(t, ty, b, n) == Filled(s, ty, b, n)
  {
  }

  lemma {:induction false} BoundKeys(names: seq<string>, types: seq<ColumnType>, bufs: seq<Buffer>, n: nat)
    requires |names| == |types| && AllReadable(types, bufs, n)
    ensures Bound(names, types, bufs, n).Keys == set x | x in names
  {
    hide Filled, Blank, HasType, Readable;
    if names != [] {
      var c := |names| - 1;
      BoundKeys(names[..c], types[..c], bufs[..c], n);
      assert names == names[..c] + [names[c]];
    }
  }

  /** One more column, on both sides. */
  lemma OneMore(names: seq<string>, types: seq<ColumnType>, bufs: seq<Buffer>, n: nat, rebuild: bool, m: Inputs, c: nat)
    requires |names| == |types| && AllReadable(types, bufs, n) && c < |names|
    ensures var u := Updated(names, types, bufs, n, rebuild, m, c);
      Updated(names, types, bufs, n, rebuild, m, c + 1) ==
      u[names[c] := Filled(StartOf(types[c], names[c], n, rebuild, u), types[c], bufs[c], n)]
    ensures Bound(names[..c + 1], types[..c + 1], bufs[..c + 1], n) ==
      Bound(names[..c], types[..c], bufs[..c], n)[names[c] := Filled(Blank(types[c], n), types[c], bufs[c], n)]
  {
    hide Filled, Blank, HasType, Readable;
    assert names[..c + 1][..c] == names[..c] && types[..c + 1][..c] == types[..c] && bufs[..c + 1][..c] == bufs[..c];
  }

  lemma {:induction false} UpdatedIsBound(names: seq<string>, types: seq<ColumnType>, bufs: seq<Buffer>, n: nat, rebuild: bool, m: Inputs, k: nat)
    requires |names| == |types| && AllReadable(types, bufs, n) && Supplied(types, bufs) && k <= |names|
    ensures var (u, b) := (Updated(names, types, bufs, n, rebuild, m, k), Bound(names[..k], types[..k], bufs[..k], n));
      forall x :: if x in b then x in u && u[x] == b[x] else (x in u <==> x in m)
  {
    if k > 0 {
      var c := k - 1;
      UpdatedIsBound(names, types, bufs, n, rebuild, m, c);
      var (u0, b0) := (Updated(names, types, bufs, n, rebuild, m, c), Bound(names[..c], types[..c], bufs[..c], n));
      var (u, b) := (Updated(names, types, bufs, n, rebuild, m, k), Bound(names[..k], types[..k], bufs[..k], n));
      var start := StartOf(types[c], names[c], n, rebuild, u0);
      FilledAnew(start, Blank(types[c], n), types[c], bufs[c], n);
      hide Filled, Blank, HasType, Readable, Updated, Bound, StartOf, Supplied;
      OneMore(names, types, bufs, n, rebuild, m, c);
      var v := Filled(start, types[c], bufs[c], n);
      assert u == u0[names[c] := v] && b == b0[names[c] := v];
      forall x ensures if x in b then x in u && u[x] == b[x] else (x in u <==> x in m) {
        if x != names[c] { assert (x in u <==> x in u0) && (x in b <==> x in b0); }
      }
    }
  }

  /** After any calls, whatever their sizes and buffers, a call that supplies its number columns runs on exactly
      the inputs that fresh binding would build. */
  lemma CacheCoherent(names: seq<string>, types: seq<ColumnType>, calls: seq<Call>, call: Call)
    requires OneType(names, types) && Calls(types, calls) && AllReadable(types, call.bufs, call.n)
    requires Supplied(types, call.bufs)
    ensures Next(names, types, After(names, types, calls), call).inputs == Bound(names, types, call.bufs, call.n)
  {
    hide Updated, Bound, Filled, Blank, HasType, Readable;
    var s := After(names, types, calls);
    CacheTyped(names, types, calls);
    UpdatedIsBound(names, types, call.bufs, call.n, call.n != s.rows, s.inputs, |names|);
    BoundKeys(names, types, call.bufs, call.n);
    assert names[..|names|] == names && types[..|types|] == types && call.bufs[..|call.bufs|] == call.bufs;
  }

  predicate Distinct(names: seq<string>) {
    forall i, j :: 0 <= i < j < |names| ==> names[i] != names[j]
  }

  lemma SameStart(ty: ColumnType, x: string, n: nat, rebuild: bool, u: Inputs, m: Inputs)
    requires (x in u <==> x in m) && (x in u ==> u[x] == m[x])
    ensures StartOf(ty, x, n, rebuild, u) == StartOf(ty, x, n, rebuild, m)
  {
  }

  /** Columns before k met what was there before the call, and no later column touches them. */
  lemma {:induction false} UpdatedColumns(names: seq<string>, types: seq<ColumnType>, bufs: seq<Buffer>, n: nat, rebuild: bool, m: Inputs, k: nat)
    requires |names| == |types| && AllReadable(types, bufs, n) && Distinct(names) && k <= |names|
    ensures var u := Updated(names, types, bufs, n, rebuild, m, k);
      && (forall c :: 0 <= c < k ==>
            names[c] in u && u[names[c]] == Filled(StartOf(types[c], names[c], n, rebuild, m), types[c], bufs[c], n))
      && (forall x :: x !in names[..k] ==> (x in u <==> x in m) && (x in u ==> u[x] == m[x]))
  {
    if k > 0 {
      hide Filled, Blank, HasType, Readable, Updated, Bound, StartOf;
      var c := k - 1;
      UpdatedColumns(names, types, bufs, n, rebuild, m, c);
      assert names[..k] == names[..c] + [names[c]];
      SameStart(types[c], names[c], n, rebuild, Updated(names, types, bufs, n, rebuild, m, c), m);
      OneMore(names, types, bufs, n, rebuild, m, c);
    }
  }

  lemma {:induction false} BoundColumns(names: seq<string>, types: seq<ColumnType>, bufs: seq<Buffer>, n: nat, k: nat)
    requires |names| == |types| && AllReadable(types, bufs, n) && Distinct(names) && k <= |names|
    ensures var b := Bound(names[..k], types[..k], bufs[..k], n);
      forall c :: 0 <= c < k ==> names[c] in b && b[names[c]] == Filled(Blank(types[c], n), types[c], bufs[c], n)
  {
    hide Filled, Blank, HasType, Readable, Updated, Bound;
    if k > 0 {
      BoundColumns(names, types, bufs, n, k - 1);
      OneMore(names, types, bufs, n, true, map[], k - 1);
    }
  }

  /** What a column must hold after binding: row by row the caller's text, nothing where a string is absent; the
      caller's numbers, zero where there is no buffer. */
  predicate HoldsBuffer(t: Tensor, ty: ColumnType, b: Buffer, n: nat)
    requires HasType(t, ty, n) && Readable(ty, b, n)
  {
    match ty
    case StringColumn =>
      forall r :: 0 <= r < n ==> t.cells[r] == if b.Strings? && b.strs[r].Some? then b.strs[r].value else ""
    case _ =>
      forall r :: 0 <= r < n ==> t.nums[r] == if b.Null? then R(0.0) else b.nums[r]
  }

  lemma FilledHolds(ty: ColumnType, b: Buffer, n: nat)
    requires Readable(ty, b, n)
    ensures HoldsBuffer(Filled(Blank(ty, n), ty, b, n), ty, b, n)
  {
  }

  /** Fresh binding puts the caller's buffer of column c under its name. */
  lemma BoundMeans(names: seq<string>, types: seq<ColumnType>, bufs: seq<Buffer>, n: nat, c: nat)
    requires |names| == |types| && AllReadable(types, bufs, n) && Distinct(names) && c < |names|
    ensures var b := Bound(names, types, bufs, n);
      names[c] in b && HasType(b[names[c]], types[c], n) && HoldsBuffer(b[names[c]], types[c], bufs[c], n)
  {
    assert names[..|names|] == names && types[..|names|] == types && bufs[..|names|] == bufs;
    BoundColumns(names, types, bufs, n, |names|);
    FilledHolds(types[c], bufs[c], n);
    hide Filled, Blank, Bound, HoldsBuffer, HasType;
  }

  /** Only an absent number buffer lets the tensor below show through. */
  lemma ShowsThrough(t: Tensor, ty: ColumnType, b: Buffer, n: nat)
    requires HasType(t, ty, n) && Readable(ty, b, n)
    ensures Filled(t, ty, b, n) == Filled(Blank(ty, n), ty, b, n) <==>
      (ty != StringColumn && b.Null? ==> t == Blank(ty, n))
  {
  }

  lemma SameMaps(names: seq<string>, u: Inputs, b: Inputs)
    requires b.Keys == set x | x in names
    requires forall x :: x in u <==> x in names
    ensures u == b <==> forall c :: 0 <= c < |names| ==> u[names[c]] == b[names[c]]
  {
    if forall c :: 0 <= c < |names| ==> u[names[c]] == b[names[c]] {
      assert u.Keys == b.Keys;
    }
  }

  /** After any calls on distinct columns, a call runs on exactly the inputs that fresh binding would build if and
      only if it changes the number of rows, or every number column without a buffer still holds zeros. */
  lemma CoherentIff(names: seq<string>, types: seq<ColumnType>, calls: seq<Call>, call: Call)
    requires |names| == |types| && Distinct(names) && Calls(types, calls) && AllReadable(types, call.bufs, call.n)
    ensures var s := After(names, types, calls);
      && (forall c :: 0 <= c < |names| ==> names[c] in s.inputs)
      && (Next(names, types, s, call).inputs == Bound(names, types, call.bufs, call.n) <==>
          (call.n != s.rows || forall c :: 0 <= c < |names| && types[c] != StringColumn && call.bufs[c].Null? ==>
            s.inputs[names[c]] == Blank(types[c], call.n)))
  {
    hide Updated, Bound, Filled, Blank, HasType, Readable, After, Registered;
    var s := After(names, types, calls);
    var (bufs, n, rebuild) := (call.bufs, call.n, call.n != s.rows);
    CacheTyped(names, types, calls);
    UpdatedColumns(names, types, bufs, n, rebuild, s.inputs, |names|);
    BoundColumns(names, types, bufs, n, |names|);
    BoundKeys(names, types, bufs, n);
    assert names[..|names|] == names && types[..|types|] == types && bufs[..|bufs|] == bufs;
    var (u, b) := (Updated(names, types, bufs, n, rebuild, s.inputs, |names|), Bound(names, types, bufs, n));
    SameMaps(names, u, b);
    forall c | 0 <= c < |names| ensures u[names[c]] == b[names[c]] <==>
        (types[c] != StringColumn && bufs[c].Null? ==> rebuild || s.inputs[names[c]] == Blank(types[c], n)) {
      ShowsThrough(StartOf(types[c], names[c], n, rebuild, s.inputs), types[c], bufs[c], n);
    }
  }

  /** An absent number buffer: fresh binding gives zeros, the cache the values of the call before. */
  lemma AbsentBufferIsStale(x: string, v: Num)
    requires v != R(0.0)
    ensures var calls := [Call(1, [Numbers([v])])];
      Calls([Float32Column], calls) &&
      Next([x], [Float32Column], After([x], [Float32Column], calls), Call(1, [Null])).inputs == map[x := Floats([v])] &&
      Bound([x], [Float32Column], [Null], 1) == map[x := Floats([R(0.0)])]
  {
    var ty := [Float32Column];
    var calls := [Call(1, [Numbers([v])])];
    assert calls[..0] == [] && [x][..0] == [] && ty[..0] == [] && [Null][..0] == [];
    assert [v][..1] == [v] && Zeros(1) == [R(0.0)];
    var none: Inputs := map[];
    assert Registered([], []) == none;
    assert Registered([x], ty) == none[x := Floats([R(0.0)])];
    assert After([x], ty, []) == Cache(1, map[x := Floats([R(0.0)])]);
    assert Updated([x], ty, [Numbers([v])], 1, false, map[x := Floats([R(0.0)])], 0) == map[x := Floats([R(0.0)])];
    assert After([x], ty, calls) == Cache(1, map[x := Floats([v])]);
    assert Updated([x], ty, [Null], 1, false, map[x := Floats([v])], 0) == map[x := Floats([v])];
    assert Bound([], [], [], 1) == none;
  }

  // ---------------------------------------------------------------- the code

  /** A tensor that pointers of the session refer to. */
  class Cell {
    var t: Tensor

    constructor (t: Tensor)
      ensures this.t == t
    {
      this.t := t;
    }
  }

  ghost function ViewOf(cached: map<string, Cell>): Inputs
    reads cached.Values
  {
    map x | x in cached :: cached[x].t
  }

  /** Different names, different cells. */
  ghost predicate Separate(cached: map<string, Cell>) {
    forall x, y :: x in cached && y in cached && x != y ==> cached[x] != cached[y]
  }

  /** Lines 884 to 899: one cell per name. */
  method BuildCells(names: seq<string>, types: seq<ColumnType>) returns (cached: map<string, Cell>)
    requires |names| == |types|
    ensures ViewOf(cached) == Registered(names, types) && Separate(cached)
    ensures forall x :: x in cached ==> fresh(cached[x])
    ensures forall x :: x in cached <==> x in names
  {
    cached := map[];
    var i := 0;
    while i < |names|
      invariant 0 <= i <= |names|
      invariant ViewOf(cached) == Registered(names[..i], types[..i]) && Separate(cached)
      invariant forall x :: x in cached ==> fresh(cached[x])
      invariant forall x :: x in cached <==> x in names[..i]
    {
      assert names[..i + 1][..i] == names[..i] && types[..i + 1][..i] == types[..i];
      assert names[..i + 1] == names[..i] + [names[i]];
      ghost var before := ViewOf(cached);
      var cell := new Cell(Blank(types[i], 1));
      cached := cached[names[i] := cell];
      assert ViewOf(cached) == before[names[i] := cell.t];
      i := i + 1;
    }
    assert names[..i] == names && types[..i] == types;
  }

  class Session {
    var names: seq<string>
    var types: seq<ColumnType>
    var cached: map<string, Cell>
    var ptrs: seq<Cell>
    var rows: nat

    /** The pointers follow the map, so columns of one name share a cell and no others do. */
    ghost predicate Linked()
      reads this
    {
      && |names| == |types| == |ptrs|
      && (forall i :: 0 <= i < |names| ==> names[i] in cached && cached[names[i]] == ptrs[i])
      && (forall x :: x in cached ==> x in names)
      && Separate(cached)
    }

    ghost predicate Valid()
      reads this, cached.Values
    {
      Linked() && OneType(names, types) && Typed(names, types, ViewOf(cached), rows)
    }

    /** `omle_session_register_columns`. */
    constructor (names: seq<string>, types: seq<ColumnType>)
      requires OneType(names, types)
      ensures Valid() && forall i :: 0 <= i < |ptrs| ==> fresh(ptrs[i])
      ensures this.names == names && this.types == types && rows == 1 && ViewOf(cached) == Registered(names, types)
    {
      var cells := BuildCells(names, types);
      var pointers: seq<Cell> := [];
      while |pointers| < |names|
        invariant |pointers| <= |names|
        invariant forall k :: 0 <= k < |pointers| ==> pointers[k] == cells[names[k]]
      {
        pointers := pointers + [cells[names[|pointers|]]];
      }
      RegisteredTyped(names, types);
      this.names, this.types, this.rows, this.cached, this.ptrs := names, types, 1, cells, pointers;
    }

    /** One column of a call. */
    method FillColumn(c: nat, b: Buffer, n: nat, rebuild: bool)
      requires Linked() && c < |names| && Readable(types[c], b, n)
      requires rebuild || HasType(ViewOf(cached)[names[c]], types[c], n)
      modifies ptrs[c]
      ensures ViewOf(cached) == old(ViewOf(cached))[names[c] :=
        Filled(if rebuild then Blank(types[c], n) else old(ViewOf(cached))[names[c]], types[c], b, n)]
    {
      hide Filled, Blank, HasType, Readable;
      ghost var u := ViewOf(cached);
      OverwriteCell(ptrs[c], types[c], b, n, rebuild);
      assert ViewOf(cached) == u[names[c] := ptrs[c].t];
    }

    /** Lines 922 to 980: the same size overwrites in place, another size starts from new tensors. */
    method Fill(n: nat, bufs: seq<Buffer>)
      requires Valid() && AllReadable(types, bufs, n)
      modifies this`rows, ptrs
      ensures Valid()
      ensures Cache(rows, ViewOf(cached)) == Next(names, types, Cache(old(rows), old(ViewOf(cached))), Call(n, bufs))
    {
      hide Updated, HasType, Filled, Blank, OneType, Readable, Typed, ViewOf, Separate;
      ghost var before, size := ViewOf(cached), rows;
      var rebuild := n != rows;
      rows := n;
      var c := 0;
      UpdatedStart(names, types, bufs, n, rebuild, before);
      while c < |ptrs|
        invariant 0 <= c <= |ptrs| && Linked() && rows == n
        invariant names == old(names) && types == old(types) && ptrs == old(ptrs) && cached == old(cached)
        invariant ViewOf(cached) == Updated(names, types, bufs, n, rebuild, before, c)
      {
        StartTyped(names, types, bufs, n, size, before, c);
        FillColumn(c, bufs[c], n, rebuild);
        c := c + 1;
      }
      AllTyped(names, types, bufs, n, size, before);
    }
  }

  method OverwriteCell(cell: Cell, ty: ColumnType, b: Buffer, n: nat, rebuild: bool)
    requires Readable(ty, b, n) && (rebuild || HasType(cell.t, ty, n))
    modifies cell
    ensures HasType(Blank(ty, n), ty, n)
    ensures cell.t == Filled(if rebuild then Blank(ty, n) else old(cell.t), ty, b, n)
  {
    if rebuild { cell.t := Blank(ty, n); }
    cell.t := Filled(cell.t, ty, b, n);
  }

  /** The column about to be filled has a tensor of its type, and what filling it does. */
  lemma StartTyped(names: seq<string>, types: seq<ColumnType>, bufs: seq<Buffer>, n: nat, size: nat, m: Inputs, c: nat)
    requires OneType(names, types) && AllReadable(types, bufs, n) && Typed(names, types, m, size) && c < |names|
    ensures Readable(types[c], bufs[c], n)
    ensures var u := Updated(names, types, bufs, n, n != size, m, c);
      && names[c] in u && (n == size ==> HasType(u[names[c]], types[c], n))
      && HasType(Blank(types[c], n), types[c], n)
      && Updated(names, types, bufs, n, n != size, m, c + 1) ==
           u[names[c] := Filled(if n != size then Blank(types[c], n) else u[names[c]], types[c], bufs[c], n)]
  {
    UpdatedTyped(names, types, bufs, n, size, m, c);
  }

  lemma AllTyped(names: seq<string>, types: seq<ColumnType>, bufs: seq<Buffer>, n: nat, size: nat, m: Inputs)
    requires OneType(names, types) && AllReadable(types, bufs, n) && Typed(names, types, m, size)
    ensures Typed(names, types, Updated(names, types, bufs, n, n != size, m, |names|), n)
  {
    UpdatedTyped(names, types, bufs, n, size, m, |names|);
    assert names[..|names|] == names;
  }

  lemma UpdatedStart(names: seq<string>, types: seq<ColumnType>, bufs: seq<Buffer>, n: nat, rebuild: bool, m: Inputs)
    requires |names| == |types| && AllReadable(types, bufs, n)
    ensures Updated(names, types, bufs, n, rebuild, m, 0) == m
  {
  }

  // ---------------------------------------------------------------- owned outputs

  type Owned = seq<(string, Tensor)>

  function Slot(owned: Owned, name: string): (r: Option<nat>)
    ensures r.Some? ==> r.value < |owned| && owned[r.value].0 == name
    ensures r.None? ==> forall i :: 0 <= i < |owned| ==> owned[i].0 != name
  {
    if owned == [] then None
    else if owned[0].0 == name then Some(0)
    else
      match Slot(owned[1..], name)
      case None => None
      case Some(i) => Some(i + 1)
  }

  function Upsert(owned: Owned, name: string, t: Tensor): Owned {
    if owned == [] then [(name, t)]
    else if owned[0].0 == name then [(name, t)] + owned[1..]
    else [owned[0]] + Upsert(owned[1..], name, t)
  }

  function UpsertAll(owned: Owned, results: Owned): Owned {
    if results == [] then owned
    else Upsert(UpsertAll(owned, results[..|results| - 1]), results[|results| - 1].0, results[|results| - 1].1)
  }

  lemma UpsertAt(owned: Owned, name: string, t: Tensor, p: nat)
    requires p < |owned|
    ensures owned[..p] + Upsert(owned[p..], name, t) ==
      if owned[p].0 == name then owned[p := (name, t)] else owned[..p + 1] + Upsert(owned[p + 1..], name, t)
  {
    assert owned[p..][0] == owned[p] && owned[p..][1..] == owned[p + 1..];
    if owned[p].0 == name {
      assert owned[..p] + ([(name, t)] + owned[p + 1..]) == owned[p := (name, t)];
    } else {
      var rest := Upsert(owned[p + 1..], name, t);
      assert owned[..p] + ([owned[p]] + rest) == owned[..p + 1] + rest;
    }
  }

  lemma UpsertEnd(owned: Owned, name: string, t: Tensor)
    ensures owned[..|owned|] + Upsert(owned[|owned|..], name, t) == owned + [(name, t)]
  {
  }

  /** The search for the name, and the assignment or the append. */
  method StoreOne(owned: Owned, name: string, t: Tensor) returns (stored: Owned)
    ensures stored == Upsert(owned, name, t)
  {
    hide Upsert;
    var p := 0;
    assert owned[..0] == [] && owned[0..] == owned;
    UpsertEnd(owned, name, t);
    while p < |owned|
      invariant 0 <= p <= |owned| && Upsert(owned, name, t) == owned[..p] + Upsert(owned[p..], name, t)
    {
      UpsertAt(owned, name, t, p);
      if owned[p].0 == name { return owned[p := (name, t)]; }
      p := p + 1;
    }
    stored := owned + [(name, t)];
  }

  /** Lines 368 to 380. */
  method StoreResults(owned: Owned, results: Owned) returns (stored: Owned)
    ensures stored == UpsertAll(owned, results)
  {
    stored := owned;
    var i := 0;
    while i < |results|
      invariant 0 <= i <= |results| && stored == UpsertAll(owned, results[..i])
    {
      assert results[..i + 1][..i] == results[..i];
      stored := StoreOne(stored, results[i].0, results[i].1);
      i := i + 1;
    }
    assert results[..i] == results;
  }

  predicate UniqueNames(owned: Owned) {
    forall i, j :: 0 <= i < j < |owned| ==> owned[i].0 != owned[j].0
  }

  lemma {:induction false} UpsertIs(owned: Owned, name: string, t: Tensor)
    ensures Upsert(owned, name, t) ==
      if Slot(owned, name).Some? then owned[Slot(owned, name).value := (name, t)] else owned + [(name, t)]
  {
    if owned != [] && owned[0].0 != name {
      UpsertIs(owned[1..], name, t);
      assert owned == [owned[0]] + owned[1..];
    }
  }

  /** With unique names the slot of a name is where the name is. */
  lemma SlotUnique(owned: Owned, name: string, i: nat)
    requires UniqueNames(owned) && i < |owned| && owned[i].0 == name
    ensures Slot(owned, name) == Some(i)
  {
    hide Slot;
  }

  /** Storing one result: every name keeps its slot, and only the named one changes. */
  lemma UpsertKeeps(owned: Owned, name: string, t: Tensor, other: string)
    requires UniqueNames(owned)
    ensures var after := Upsert(owned, name, t);
      && UniqueNames(after)
      && Slot(after, name).Some? && after[Slot(after, name).value] == (name, t)
      && (Slot(owned, other).Some? ==> Slot(after, other) == Slot(owned, other))
      && (other != name ==> Slot(after, other) == Slot(owned, other))
      && (other != name && Slot(owned, other).Some? ==> after[Slot(owned, other).value] == owned[Slot(owned, other).value])
  {
    UpsertIs(owned, name, t);
    hide Slot, Upsert;
    var after := Upsert(owned, name, t);
    var s, o := Slot(owned, name), Slot(owned, other);
    SlotUnique(after, name, if s.Some? then s.value else |owned|);
    if o.Some? { SlotUnique(after, other, o.value); }
  }

  /** The last result of that name. */
  function Latest(results: Owned, name: string): Option<Tensor> {
    if results == [] then None
    else if results[|results| - 1].0 == name then Some(results[|results| - 1].1)
    else Latest(results[..|results| - 1], name)
  }

  /** Over any sequence of results an output keeps the slot it got first, and holds the latest result for its name. */
  lemma {:induction false} OutputsStayPut(owned: Owned, results: Owned, name: string)
    requires UniqueNames(owned)
    ensures var after := UpsertAll(owned, results);
      && UniqueNames(after)
      && (Slot(owned, name).Some? ==> Slot(after, name) == Slot(owned, name))
      && (Slot(after, name).Some? <==> Slot(owned, name).Some? || Latest(results, name).Some?)
      && (Latest(results, name).Some? ==> after[Slot(after, name).value] == (name, Latest(results, name).value))
      && (Latest(results, name).None? && Slot(owned, name).Some? ==>
            after[Slot(after, name).value] == owned[Slot(owned, name).value])
  {
    if results != [] {
      var (before, last) := (results[..|results| - 1], results[|results| - 1]);
      OutputsStayPut(owned, before, name);
      UpsertKeeps(UpsertAll(owned, before), last.0, last.1, name);
      hide Slot, Upsert;
    }
  }

  /** The vector never outgrows the room reserved for the declared outputs, so handles into it stay valid. */
  lemma {:induction false} NeverOutgrows(owned: Owned, results: Owned, declared: set<string>)
    requires UniqueNames(owned)
    requires forall i :: 0 <= i < |owned| ==> owned[i].0 in declared
    requires forall i :: 0 <= i < |results| ==> results[i].0 in declared
    ensures |UpsertAll(owned, results)| <= |declared|
  {
    NamesDeclared(owned, results, declared);
    OutputsStayPut(owned, results, "");
    DistinctFit(UpsertAll(owned, results), declared);
  }

  lemma {:induction false} NamesDeclared(owned: Owned, results: Owned, declared: set<string>)
    requires forall i :: 0 <= i < |owned| ==> owned[i].0 in declared
    requires forall i :: 0 <= i < |results| ==> results[i].0 in declared
    ensures forall i :: 0 <= i < |UpsertAll(owned, results)| ==> UpsertAll(owned, results)[i].0 in declared
  {
    if results != [] {
      NamesDeclared(owned, results[..|results| - 1], declared);
      UpsertIs(UpsertAll(owned, results[..|results| - 1]), results[|results| - 1].0, results[|results| - 1].1);
    }
  }

  lemma {:induction false} DistinctFit(owned: Owned, declared: set<string>)
    requires UniqueNames(owned) && forall i :: 0 <= i < |owned| ==> owned[i].0 in declared
    ensures |owned| <= |declared|
  {
    if owned != [] {
      var n := |owned| - 1;
      DistinctFit(owned[..n], declared - {owned[n].0});
    }
  }
}
