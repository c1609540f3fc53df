/** The column expressions of src/expression_eval.cpp: built-in row functions, and user-defined
    functions called with eager arguments in a child scope of the caller. */
module Expressions {
  import opened Nums
  import opened Wrappers
  import opened ValueStores
  import Graphs

  /** What a name stands for: text, one cell per row, or a 1x1 tensor read at any row. */
  datatype Value = Text | Cells(cells: seq<Num>) | Scalar(cell: Num)

  datatype Expr = Lit(v: Num) | Col(name: string) | Apply(fn: string, args: seq<Expr>)

  datatype UserFunction = UserFunction(params: seq<string>, body: Expr)

  /** The model's functions, constants and primitive table; `rank` orders the functions by who calls whom. */
  datatype Context = Context(
    fns: map<string, UserFunction>, rank: map<string, nat>, consts: map<string, Value>,
    prim: (string, seq<Num>) -> Num, n: nat)

  type Env = map<string, Value>
  type Column = seq<Num>

  // ---------------------------------------------------------------- built-in functions

  const NS_PREFIX := "omle.functions."

  /** The name without its namespace. */
  function Base(fn: string): string {
    if |fn| > |NS_PREFIX| && fn[..|NS_PREFIX|] == NS_PREFIX then fn[|NS_PREFIX|..] else fn
  }

  const UNARY: set<string> := {
    "negate", "abs", "exp", "exp2", "log", "log2", "log10", "log1p", "sqrt", "cbrt", "square", "sign", "sin", "cos",
    "tan", "asin", "acos", "atan", "floor", "ceil", "round", "trunc", "logical_not", "sigmoid", "tanh", "relu",
    "softplus", "is_missing", "is_not_missing", "neg", "not"}

  const BINARY: set<string> := {
    "add", "subtract", "multiply", "divide", "mod", "pow", "atan2", "min", "max", "equal", "not_equal", "less",
    "less_or_equal", "greater", "greater_or_equal", "logical_and", "logical_or", "sub", "mul", "div", "greater_than",
    "less_than", "and", "or"}

  const TEXT_FNS: set<string> := {
    "concat", "lower", "upper", "trim", "ltrim", "rtrim", "substring", "substr", "left", "right", "length",
    "char_length", "regexp_replace", "replace", "split", "lpad", "rpad", "repeat", "reverse", "initcap", "translate",
    "ascii", "base64", "unbase64", "decode", "encode", "format_string", "printf", "nvl", "nvl2"}

  datatype Builtin = If | Clamp | Coalesce | Fill | LeakyRelu | TextFn | Table(name: string, arity: nat) | NotBuiltin

  /** The dispatch of `eval_apply`, in its order. */
  function Classify(fn: string, nargs: nat): Builtin {
    var base := Base(fn);
    if base == "if" && nargs == 3 then If
    else if base == "clamp" && nargs == 3 then Clamp
    else if base == "coalesce" then Coalesce
    else if (base == "fill_missing" || base == "replace_missing") && nargs == 2 then Fill
    else if base == "leaky_relu" && nargs >= 1 then LeakyRelu
    else if base in TEXT_FNS then TextFn
    else if base in UNARY then Table(base, 1)
    else if base in BINARY then Table(base, 2)
    else NotBuiltin
  }

  predicate Less(a: Num, b: Num) {
    a.R? && b.R? && a.val < b.val
  }

  function Mul(a: Num, b: Num): Num {
    if a.R? && b.R? then R(a.val * b.val) else NaN
  }

  function FirstPresent(row: seq<Num>): Num {
    if row == [] then NaN else if row[0] != NaN then row[0] else FirstPresent(row[1..])
  }

  /** Enough arguments for the row function to read. */
  predicate Applicable(b: Builtin, nargs: nat) {
    match b
    case If => nargs == 3
    case Clamp => nargs == 3
    case Fill => nargs == 2
    case LeakyRelu => nargs >= 1
    case Table(_, arity) => nargs >= arity
    case NotBuiltin => false
    case _ => true
  }

  /** One row of a built-in function; `slope` is the leaky_relu slope. */
  function RowValue(b: Builtin, prim: (string, seq<Num>) -> Num, row: seq<Num>, slope: Num): Num
    requires Applicable(b, |row|)
  {
    match b
    case If => if row[0] != R(0.0) then row[1] else row[2]
    case Clamp =>
      var m := if Less(row[2], row[0]) then row[2] else row[0];
      if Less(row[1], m) then m else row[1]
    case Coalesce => FirstPresent(row)
    case Fill => if row[0] == NaN then row[1] else row[0]
    case LeakyRelu => if Less(R(0.0), row[0]) then row[0] else Mul(slope, row[0])
    case TextFn => NaN
    case Table(name, _) => prim(name, row)
  }

  /** Clamping: between the bounds, unchanged inside them, and a missing value becomes the lower bound. */
  lemma ClampMeans(prim: (string, seq<Num>) -> Num, x: Num, lo: real, hi: real, slope: Num)
    requires lo <= hi
    ensures var r := RowValue(Clamp, prim, [x, R(lo), R(hi)], slope);
      && r.R? && lo <= r.val <= hi
      && (x.R? && lo <= x.val <= hi ==> r == x)
      && (x.R? && x.val > hi ==> r == R(hi))
      && (x.NaN? || x.val < lo ==> r == R(lo))
  {
    assert RowValue(Clamp, prim, [x, R(lo), R(hi)], slope) ==
      var m := if Less(R(hi), x) then R(hi) else x; if Less(R(lo), m) then m else R(lo);
  }

  /** Coalescing finds the first value that is present; it is missing exactly when all are. */
  lemma {:induction false} CoalesceMeans(row: seq<Num>)
    ensures FirstPresent(row).NaN? <==> forall k :: 0 <= k < |row| ==> row[k].NaN?
    ensures forall k :: 0 <= k < |row| && row[k].R? && (forall j :: 0 <= j < k ==> row[j].NaN?) ==> FirstPresent(row) == row[k]
  {
    if row != [] {
      CoalesceMeans(row[1..]);
      assert forall k :: 1 <= k < |row| ==> row[k] == row[1..][k - 1];
    }
  }

  predicate Rectangular(cols: seq<Column>, n: nat) {
    forall k :: 0 <= k < |cols| ==> |cols[k]| == n
  }

  function Row(cols: seq<Column>, n: nat, i: nat): (row: seq<Num>)
    requires Rectangular(cols, n) && i < n
    ensures |row| == |cols| && forall k :: 0 <= k < |cols| ==> row[k] == cols[k][i]
  {
    seq(|cols|, k requires 0 <= k < |cols| => cols[k][i])
  }

  /** `args[1][0]`: the slope is taken from the first row only. */
  function Slope(cols: seq<Column>): Num {
    if |cols| >= 2 && |cols[1]| > 0 then cols[1][0] else R(0.01)
  }

  function ApplyBuiltin(b: Builtin, prim: (string, seq<Num>) -> Num, cols: seq<Column>, n: nat): (r: Column)
    requires Rectangular(cols, n) && Applicable(b, |cols|)
    ensures |r| == n && forall i :: 0 <= i < n ==> r[i] == RowValue(b, prim, Row(cols, n, i), Slope(cols))
  {
    seq(n, i requires 0 <= i < n => RowValue(b, prim, Row(cols, n, i), Slope(cols)))
  }

  // ---------------------------------------------------------------- evaluation

  /** Names of user functions an expression can reach directly. */
  function Calls(e: Expr): set<string> {
    match e
    case Lit(_) => {}
    case Col(_) => {}
    case Apply(fn, args) =>
      (if Classify(fn, |args|).NotBuiltin? then {fn} else {}) + (set a, f | a in args && f in Calls(a) :: f)
  }

  predicate Callable(c: Context, e: Expr, bound: nat) {
    forall f :: f in Calls(e) && f in c.fns ==> f in c.rank && c.rank[f] < bound
  }

  /** No user function reaches itself: the rank drops at every call. */
  predicate Acyclic(c: Context) {
    forall f :: f in c.fns ==> f in c.rank && Callable(c, c.fns[f].body, c.rank[f])
  }

  function Cell(v: Value, i: nat): Num {
    match v
    case Text => NaN
    case Scalar(x) => x
    case Cells(xs) => if i < |xs| then xs[i] else NaN
  }

  function ColumnOf(v: Value, n: nat): (r: Column)
    ensures |r| == n && forall i :: 0 <= i < n ==> r[i] == Cell(v, i)
  {
    seq(n, i requires 0 <= i => Cell(v, i))
  }

  function AsCells(cols: seq<Column>): (vs: seq<Value>)
    ensures |vs| == |cols| && forall k :: 0 <= k < |cols| ==> vs[k] == Cells(cols[k])
  {
    seq(|cols|, k requires 0 <= k < |cols| => Cells(cols[k]))
  }

  /** `eval_expr` in a scope that shows `env` over the constants. */
  function Eval(c: Context, e: Expr, env: Env, bound: nat): (r: Option<Column>)
    requires Acyclic(c) && Callable(c, e, bound)
    ensures r.Some? ==> |r.value| == c.n
    decreases bound, 1, e, 1
  {
    match e
    case Lit(v) => Some(ColumnOf(Scalar(v), c.n))
    case Col(name) =>
      (match Lookup(env, c.consts, name)
       case None => None
       case Some(v) => Some(ColumnOf(v, c.n)))
    case Apply(fn, args) =>
      assert forall a :: a in args ==> Calls(a) <= Calls(e);
      match EvalArgs(c, args, env, bound)
      case None => None
      case Some(cols) => EvalApply(c, fn, cols, env, bound)
  }

  function EvalArgs(c: Context, args: seq<Expr>, env: Env, bound: nat): (r: Option<seq<Column>>)
    requires Acyclic(c) && forall a :: a in args ==> Callable(c, a, bound)
    ensures r.Some? ==> |r.value| == |args| && Rectangular(r.value, c.n)
    decreases bound, 1, args, 0
  {
    if args == [] then Some([])
    else
      match Eval(c, args[0], env, bound)
      case None => None
      case Some(col) =>
        match EvalArgs(c, args[1..], env, bound)
        case None => None
        case Some(cols) => Some([col] + cols)
  }

  /** A call whose arguments have been evaluated. */
  function EvalApply(c: Context, fn: string, cols: seq<Column>, env: Env, bound: nat): (r: Option<Column>)
    requires Acyclic(c) && Rectangular(cols, c.n)
    requires Classify(fn, |cols|).NotBuiltin? && fn in c.fns ==> fn in c.rank && c.rank[fn] < bound
    ensures r.Some? ==> |r.value| == c.n
    decreases bound, 0
  {
    var b := Classify(fn, |cols|);
    if !b.NotBuiltin? then
      if Applicable(b, |cols|) then Some(ApplyBuiltin(b, c.prim, cols, c.n)) else None
    else if fn in c.fns && |cols| == |c.fns[fn].params| then
      Eval(c, c.fns[fn].body, Graphs.PutAll(env, c.fns[fn].params, AsCells(cols)), c.rank[fn])
    else None
  }

  // ---------------------------------------------------------------- the code

  /** The nested loops of `coalesce`, argument by argument. */
  method RunCoalesce(cols: seq<Column>, n: nat) returns (r: array<Num>)
    requires Rectangular(cols, n)
    ensures r.Length == n && fresh(r)
    ensures forall i :: 0 <= i < n ==> r[i] == FirstPresent(Row(cols, n, i))
  {
    r := new Num[n](_ => NaN);
    var k := 0;
    while k < |cols|
      invariant 0 <= k <= |cols|
      invariant forall i :: 0 <= i < n ==> r[i] == FirstPresent(Row(cols, n, i)[..k])
    {
      var j := 0;
      while j < n
        invariant 0 <= j <= n
        invariant forall i :: 0 <= i < j ==> r[i] == FirstPresent(Row(cols, n, i)[..k + 1])
        invariant forall i :: j <= i < n ==> r[i] == FirstPresent(Row(cols, n, i)[..k])
      {
        FirstPresentGrows(Row(cols, n, j), k);
        if r[j] == NaN && cols[k][j] != NaN { r[j] := cols[k][j]; }
        j := j + 1;
      }
      k := k + 1;
    }
    forall i | 0 <= i < n ensures r[i] == FirstPresent(Row(cols, n, i)) {
      assert Row(cols, n, i)[..k] == Row(cols, n, i);
    }
  }

  lemma {:induction false} FirstPresentGrows(row: seq<Num>, k: nat)
    requires k < |row|
    ensures FirstPresent(row[..k + 1]) == if FirstPresent(row[..k]) != NaN then FirstPresent(row[..k]) else row[k]
  {
    if k > 0 {
      assert row[..k + 1][1..] == row[1..][..k];
      assert row[..k][1..] == row[1..][..k - 1];
      FirstPresentGrows(row[1..], k - 1);
    } else {
      assert row[..1] == [row[0]];
    }
  }

  /** The row loops of the built-in functions. */
  method RunBuiltin(b: Builtin, prim: (string, seq<Num>) -> Num, cols: seq<Column>, n: nat) returns (r: Column)
    requires Rectangular(cols, n) && Applicable(b, |cols|)
    ensures r == ApplyBuiltin(b, prim, cols, n)
  {
    if b.Coalesce? {
      var out := RunCoalesce(cols, n);
      r := out[..];
    } else {
      var out := new Num[n];
      var slope := Slope(cols);
      var i := 0;
      while i < n
        invariant 0 <= i <= n
        invariant forall j :: 0 <= j < i ==> out[j] == RowValue(b, prim, Row(cols, n, j), slope)
      {
        out[i] := RowValue(b, prim, Row(cols, n, i), slope);
        i := i + 1;
      }
      r := out[..];
    }
  }

  /** `eval_expr` over a store: a user function gets a child scope whose parent is the caller's store. */
  method EvalExpr(c: Context, e: Expr, vs: ValueStore<Value>, ghost env: Env, ghost bound: nat) returns (r: Option<Column>)
    requires Acyclic(c) && Callable(c, e, bound)
    requires vs.Chained() && vs.SharedConstants() && vs.constants == c.consts && vs.View() == env
    ensures r == Eval(c, e, env, bound)
    decreases bound, 1, e, 1
  {
    match e
    case Lit(v) => r := Some(ColumnOf(Scalar(v), c.n));
    case Col(name) =>
      vs.GetIsLookup(name);
      match vs.Get(name) {
        case None => r := None;
        case Some(v) =>
          var out := new Num[c.n];
          var i := 0;
          while i < c.n
            invariant 0 <= i <= c.n
            invariant forall j :: 0 <= j < i ==> out[j] == Cell(v, j)
          {
            out[i] := Cell(v, i);
            i := i + 1;
          }
          assert out[..] == ColumnOf(v, c.n);
          r := Some(out[..]);
      }
    case Apply(fn, args) =>
      assert forall a :: a in args ==> Calls(a) <= Calls(e);
      var cols := EvalEach(c, args, vs, env, bound);
      match cols {
        case None => r := None;
        case Some(vals) => r := RunCall(c, fn, vals, vs, env, bound);
      }
  }

  /** Lines 105 to 110: stop at the first argument that fails. */
  method EvalEach(c: Context, args: seq<Expr>, vs: ValueStore<Value>, ghost env: Env, ghost bound: nat) returns (r: Option<seq<Column>>)
    requires Acyclic(c) && forall a :: a in args ==> Callable(c, a, bound)
    requires vs.Chained() && vs.SharedConstants() && vs.constants == c.consts && vs.View() == env
    ensures r == EvalArgs(c, args, env, bound)
    decreases bound, 1, args, 0
  {
    var cols: seq<Column> := [];
    assert args[0..] == args;
    PrependNothing(EvalArgs(c, args, env, bound));
    var i := 0;
    while i < |args|
      invariant 0 <= i <= |args| && |cols| == i
      invariant EvalArgs(c, args, env, bound) == Prepend(cols, EvalArgs(c, args[i..], env, bound))
    {
      var col := EvalExpr(c, args[i], vs, env, bound);
      assert args[i..][0] == args[i] && args[i..][1..] == args[i + 1..];
      if col.None? { return None; }
      PrependMore(cols, col.value, EvalArgs(c, args[i + 1..], env, bound));
      cols := cols + [col.value];
      i := i + 1;
    }
    assert cols + [] == cols;
    r := Some(cols);
  }

  function Prepend(cols: seq<Column>, rest: Option<seq<Column>>): Option<seq<Column>> {
    if rest.None? then None else Some(cols + rest.value)
  }

  lemma PrependNothing(rest: Option<seq<Column>>)
    ensures Prepend([], rest) == rest
  {
    if rest.Some? { assert [] + rest.value == rest.value; }
  }

  lemma PrependMore(cols: seq<Column>, col: Column, rest: Option<seq<Column>>)
    ensures Prepend(cols, Prepend([col], rest)) == Prepend(cols + [col], rest)
  {
    if rest.Some? { assert cols + ([col] + rest.value) == cols + [col] + rest.value; }
  }

  method RunCall(c: Context, fn: string, cols: seq<Column>, vs: ValueStore<Value>, ghost env: Env, ghost bound: nat)
    returns (r: Option<Column>)
    requires Acyclic(c) && Rectangular(cols, c.n)
    requires Classify(fn, |cols|).NotBuiltin? && fn in c.fns ==> fn in c.rank && c.rank[fn] < bound
    requires vs.Chained() && vs.SharedConstants() && vs.constants == c.consts && vs.View() == env
    ensures r == EvalApply(c, fn, cols, env, bound)
    decreases bound, 0
  {
    var b := Classify(fn, |cols|);
    if !b.NotBuiltin? {
      if !Applicable(b, |cols|) { return None; }
      var col := RunBuiltin(b, c.prim, cols, c.n);
      return Some(col);
    }
    if fn !in c.fns || |cols| != |c.fns[fn].params| { return None; }
    var scope := EnterCall(vs, env, c.fns[fn].params, cols);
    r := EvalExpr(c, c.fns[fn].body, scope, Graphs.PutAll(env, c.fns[fn].params, AsCells(cols)), c.rank[fn]);
  }

  /** Lines 182 to 187: the new scope shows the arguments over everything the caller sees. */
  method EnterCall(vs: ValueStore<Value>, ghost env: Env, params: seq<string>, cols: seq<Column>)
    returns (scope: ValueStore<Value>)
    requires |params| == |cols|
    requires vs.Chained() && vs.SharedConstants() && vs.View() == env
    ensures fresh(scope) && scope.Chained() && scope.SharedConstants() && scope.constants == vs.constants
    ensures scope.View() == Graphs.PutAll(env, params, AsCells(cols))
  {
    hide Graphs.PutAll;
    scope := vs.ChildScope(vs);
    var cells := AsCells(cols);
    PutNone(env, params, cells);
    assert env + scope.values == env;
    var p := 0;
    while p < |params|
      invariant 0 <= p <= |params|
      invariant vs.View() == env
      invariant env + scope.values == Graphs.PutAll(env, params[..p], cells[..p])
    {
      PutMore(env, params, cells, p);
      PutOver(env, scope.values, params[p], cells[p]);
      scope.Put(params[p], Cells(cols[p]));
      p := p + 1;
    }
    assert params[..p] == params && cells[..p] == cells;
  }

  lemma PutNone(env: Env, params: seq<string>, cells: seq<Value>)
    ensures Graphs.PutAll(env, params[..0], cells[..0]) == env
  {
  }

  lemma PutMore(env: Env, params: seq<string>, cells: seq<Value>, p: nat)
    requires |params| == |cells| && p < |params|
    ensures Graphs.PutAll(env, params[..p + 1], cells[..p + 1]) ==
      Graphs.PutAll(env, params[..p], cells[..p])[params[p] := cells[p]]
  {
    assert params[..p + 1][..p] == params[..p] && cells[..p + 1][..p] == cells[..p];
  }

  lemma PutOver(env: Env, m: Env, name: string, v: Value)
    ensures env + m[name := v] == (env + m)[name := v]
  {
  }
}
