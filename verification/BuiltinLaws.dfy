/** What the built-in functions of src/expression_eval.cpp mean, said of whole calls: dispatch, argument order and
    row values together. */
module BuiltinLaws {
  import opened Nums
  import opened Wrappers
  import opened ValueStores
  import opened Expressions
  import opened Inlining

  /** The two spellings of a function. */
  predicate Named(fn: string, name: string) {
    fn == name || fn == "omle.functions." + name
  }

  lemma BaseOf(fn: string, name: string)
    requires Named(fn, name) && 0 < |name| <= 15
    ensures Base(fn) == name
  {
    var prefix := "omle.functions.";
    if fn == prefix + name { assert fn[..|prefix|] == prefix && fn[|prefix|..] == name; }
  }

  lemma Dispatched(fn: string, nargs: nat)
    ensures Named(fn, "if") && nargs == 3 ==> Classify(fn, nargs) == If
    ensures Named(fn, "clamp") && nargs == 3 ==> Classify(fn, nargs) == Clamp
    ensures Named(fn, "coalesce") ==> Classify(fn, nargs) == Coalesce
    ensures (Named(fn, "fill_missing") || Named(fn, "replace_missing")) && nargs == 2 ==> Classify(fn, nargs) == Fill
    ensures Named(fn, "leaky_relu") && nargs >= 1 ==> Classify(fn, nargs) == LeakyRelu
  {
    hide Base;
    if Named(fn, "if") { BaseOf(fn, "if"); }
    if Named(fn, "clamp") { BaseOf(fn, "clamp"); }
    if Named(fn, "coalesce") { BaseOf(fn, "coalesce"); }
    if Named(fn, "fill_missing") { BaseOf(fn, "fill_missing"); }
    if Named(fn, "replace_missing") { BaseOf(fn, "replace_missing"); }
    if Named(fn, "leaky_relu") { BaseOf(fn, "leaky_relu"); }
  }

  /** Arguments that evaluate one by one evaluate together. */
  lemma {:induction false} ArgsAre(c: Context, args: seq<Expr>, env: Env, bound: nat, cols: seq<Column>)
    requires Acyclic(c) && AllCallable(c, args, bound) && Evaluated(c, args, env, bound, cols)
    ensures EvalArgs(c, args, env, bound) == Some(cols)
  {
    if args != [] {
      assert Eval(c, args[0], env, bound) == Some(cols[0]);
      forall p | 0 <= p < |args| - 1 ensures Eval(c, args[1..][p], env, bound) == Some(cols[1..][p]) {
        assert args[1..][p] == args[p + 1];
      }
      ArgsAre(c, args[1..], env, bound, cols[1..]);
      assert [cols[0]] + cols[1..] == cols;
    }
  }

  /** A built-in call gives, in every row, the value of its row function at that row of the arguments. */
  lemma CallMeans(c: Context, fn: string, args: seq<Expr>, env: Env, bound: nat, cols: seq<Column>)
    requires Acyclic(c) && Callable(c, Apply(fn, args), bound) && AllCallable(c, args, bound)
    requires Evaluated(c, args, env, bound, cols)
    requires var b := Classify(fn, |args|); !b.NotBuiltin? && Applicable(b, |args|)
    ensures Eval(c, Apply(fn, args), env, bound) == Some(ApplyBuiltin(Classify(fn, |args|), c.prim, cols, c.n))
  {
    hide Classify;
    ArgsAre(c, args, env, bound, cols);
  }

  /** The prefix is taken off once, and only where a name follows it. */
  lemma BaseMeans(fn: string, name: string)
    ensures name != "" && fn == "omle.functions." + name ==> Base(fn) == name
    ensures !("omle.functions." < fn) ==> Base(fn) == fn
  {
    var prefix := "omle.functions.";
    if name != "" && fn == prefix + name { assert fn[..|prefix|] == prefix && fn[|prefix|..] == name; }
    if |fn| > |prefix| && fn[..|prefix|] == prefix { assert prefix < fn; }
  }

  /** The names of the special forms. */
  predicate Special(base: string) {
    base == "if" || base == "clamp" || base == "coalesce" || base == "fill_missing" || base == "replace_missing" ||
    base == "leaky_relu"
  }

  /** Which calls the special forms take; any other goes to the text functions, then to the table, or is not built in. */
  lemma DispatchExact(fn: string, nargs: nat)
    ensures Classify(fn, nargs) == If <==> Base(fn) == "if" && nargs == 3
    ensures Classify(fn, nargs) == Clamp <==> Base(fn) == "clamp" && nargs == 3
    ensures Classify(fn, nargs) == Coalesce <==> Base(fn) == "coalesce"
    ensures Classify(fn, nargs) == Fill <==> (Base(fn) == "fill_missing" || Base(fn) == "replace_missing") && nargs == 2
    ensures Classify(fn, nargs) == LeakyRelu <==> Base(fn) == "leaky_relu" && nargs >= 1
  {
    hide Base;
  }

  lemma DispatchOthers(fn: string, nargs: nat)
    requires !Special(Base(fn))
    ensures var (b, base) := (Classify(fn, nargs), Base(fn));
      && (b == TextFn <==> base in TEXT_FNS)
      && (base !in TEXT_FNS && base in UNARY ==> b == Table(base, 1))
      && (base !in TEXT_FNS && base !in UNARY && base in BINARY ==> b == Table(base, 2))
      && (base !in TEXT_FNS && base !in UNARY && base !in BINARY ==> b == NotBuiltin)
  {
    hide Base;
  }

  // ---------------------------------------------------------------- conditionals and missing values

  /** Row i of `if` is the second argument's wherever the first is missing or not zero, the third's where it is zero. */
  lemma IfMeans(c: Context, fn: string, args: seq<Expr>, env: Env, bound: nat, cols: seq<Column>, i: nat)
    requires Acyclic(c) && Callable(c, Apply(fn, args), bound) && AllCallable(c, args, bound)
    requires Evaluated(c, args, env, bound, cols) && Named(fn, "if") && |args| == 3 && i < c.n
    ensures var r := Eval(c, Apply(fn, args), env, bound);
      r.Some? && r.value[i] == if cols[0][i] == R(0.0) then cols[2][i] else cols[1][i]
  {
    hide Classify, Named;
    Dispatched(fn, |args|);
    CallMeans(c, fn, args, env, bound, cols);
  }

  /** `clamp` keeps a value between its bounds, and moves any other to the bound it passes; a missing value becomes
      the lower bound. */
  lemma ClampCallMeans(c: Context, fn: string, args: seq<Expr>, env: Env, bound: nat, cols: seq<Column>, i: nat)
    requires Acyclic(c) && Callable(c, Apply(fn, args), bound) && AllCallable(c, args, bound)
    requires Evaluated(c, args, env, bound, cols) && Named(fn, "clamp") && |args| == 3 && i < c.n
    requires cols[1][i].R? && cols[2][i].R? && cols[1][i].val <= cols[2][i].val
    ensures var r := Eval(c, Apply(fn, args), env, bound);
      var x := cols[0][i];
      r.Some? && r.value[i] ==
        if x.NaN? || x.val < cols[1][i].val then cols[1][i]
        else if x.val > cols[2][i].val then cols[2][i]
        else x
  {
    hide Classify, Named;
    Dispatched(fn, |args|);
    CallMeans(c, fn, args, env, bound, cols);
  }

  /** `coalesce` gives the first argument that is not missing in that row, and is missing only where all are. */
  lemma CoalesceCallMeans(c: Context, fn: string, args: seq<Expr>, env: Env, bound: nat, cols: seq<Column>, i: nat)
    requires Acyclic(c) && Callable(c, Apply(fn, args), bound) && AllCallable(c, args, bound)
    requires Evaluated(c, args, env, bound, cols) && Named(fn, "coalesce") && i < c.n
    ensures var r := Eval(c, Apply(fn, args), env, bound);
      && r.Some?
      && (r.value[i].NaN? <==> forall k :: 0 <= k < |cols| ==> cols[k][i].NaN?)
      && (forall k :: 0 <= k < |cols| && cols[k][i].R? && (forall j :: 0 <= j < k ==> cols[j][i].NaN?) ==>
            r.value[i] == cols[k][i])
  {
    hide Classify, Named;
    Dispatched(fn, |args|);
    CallMeans(c, fn, args, env, bound, cols);
    CoalesceMeans(Row(cols, c.n, i));
  }

  /** A value that is present is kept, a missing one replaced by the second argument's. */
  lemma FillMeans(c: Context, fn: string, args: seq<Expr>, env: Env, bound: nat, cols: seq<Column>, i: nat)
    requires Acyclic(c) && Callable(c, Apply(fn, args), bound) && AllCallable(c, args, bound)
    requires Evaluated(c, args, env, bound, cols) && |args| == 2 && i < c.n
    requires Named(fn, "fill_missing") || Named(fn, "replace_missing")
    ensures var r := Eval(c, Apply(fn, args), env, bound);
      r.Some? && r.value[i] == if cols[0][i].NaN? then cols[1][i] else cols[0][i]
  {
    hide Classify, Named;
    Dispatched(fn, |args|);
    CallMeans(c, fn, args, env, bound, cols);
  }

  // ---------------------------------------------------------------- leaky_relu

  /** Positive values are kept; any other is multiplied by the slope, 0.01 or row 0 of the second argument, and is
      missing if either is. */
  lemma LeakyReluMeans(c: Context, fn: string, args: seq<Expr>, env: Env, bound: nat, cols: seq<Column>, i: nat)
    requires Acyclic(c) && Callable(c, Apply(fn, args), bound) && AllCallable(c, args, bound)
    requires Evaluated(c, args, env, bound, cols) && Named(fn, "leaky_relu") && |args| >= 1 && i < c.n
    ensures var r := Eval(c, Apply(fn, args), env, bound);
      var (x, slope) := (cols[0][i], if |args| == 1 then R(0.01) else cols[1][0]);
      r.Some? && r.value[i] ==
        if x.NaN? then NaN
        else if x.val > 0.0 then x
        else if slope.NaN? then NaN
        else R(slope.val * x.val)
  {
    hide Classify, Named;
    Dispatched(fn, |args|);
    CallMeans(c, fn, args, env, bound, cols);
  }

  // ---------------------------------------------------------------- tables

  /** A function of the table gives, in every row, what the table says of the arguments of that row, in their order. */
  lemma TableMeans(c: Context, fn: string, name: string, args: seq<Expr>, env: Env, bound: nat, cols: seq<Column>, i: nat)
    requires Acyclic(c) && Callable(c, Apply(fn, args), bound) && AllCallable(c, args, bound)
    requires Evaluated(c, args, env, bound, cols) && i < c.n
    requires Base(fn) == name && Classify(fn, |args|).Table? && |args| >= Classify(fn, |args|).arity
    ensures var r := Eval(c, Apply(fn, args), env, bound);
      r.Some? && r.value[i] == c.prim(name, seq(|cols|, k requires 0 <= k < |cols| => cols[k][i]))
  {
    CallMeans(c, fn, args, env, bound, cols);
    assert Row(cols, c.n, i) == seq(|cols|, k requires 0 <= k < |cols| => cols[k][i]);
    hide Classify;
  }

  /** Text functions are missing in every row. */
  lemma TextFunctionsAreMissing(c: Context, fn: string, args: seq<Expr>, env: Env, bound: nat, cols: seq<Column>, i: nat)
    requires Acyclic(c) && Callable(c, Apply(fn, args), bound) && AllCallable(c, args, bound)
    requires Evaluated(c, args, env, bound, cols) && Classify(fn, |args|).TextFn? && i < c.n
    ensures var r := Eval(c, Apply(fn, args), env, bound); r.Some? && r.value[i].NaN?
  {
    CallMeans(c, fn, args, env, bound, cols);
    hide Classify;
  }

  // ---------------------------------------------------------------- leaves

  /** A literal is the same in every row; a column is the cell of that row, one cell for all rows of a scalar, and
      missing for text. */
  lemma LeavesMean(c: Context, v: Num, name: string, env: Env, bound: nat, i: nat)
    requires Acyclic(c) && i < c.n && Callable(c, Lit(v), bound) && Callable(c, Col(name), bound)
    ensures Eval(c, Lit(v), env, bound).Some? && Eval(c, Lit(v), env, bound).value[i] == v
    ensures Eval(c, Col(name), env, bound).Some? <==> Lookup(env, c.consts, name).Some?
    ensures var r := Eval(c, Col(name), env, bound);
      r.Some? ==> match Lookup(env, c.consts, name).value {
        case Text => r.value[i] == NaN
        case Scalar(x) => r.value[i] == x
        case Cells(xs) => i < |xs| ==> r.value[i] == xs[i]
      }
  {
  }
}
