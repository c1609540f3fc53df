/** What a user-function call of src/expression_eval.cpp means: when it can be replaced by the body of
    the function with the arguments substituted for the parameters. */
module Inlining {
  import opened Nums
  import opened Wrappers
  import opened ValueStores
  import opened Expressions
  import Graphs

  // ---------------------------------------------------------------- substitution

  /** The last parameter of that name: the one whose value survives in the child scope. */
  function ParamIndex(params: seq<string>, name: string): (r: Option<nat>)
    ensures r.Some? ==> r.value < |params| && params[r.value] == name
    ensures r.None? <==> name !in params
  {
    if params == [] then None
    else if params[|params| - 1] == name then Some(|params| - 1)
    else ParamIndex(params[..|params| - 1], name)
  }

  function Subst(e: Expr, params: seq<string>, args: seq<Expr>): Expr
    requires |params| == |args|
    decreases e, 1
  {
    match e
    case Lit(_) => e
    case Col(name) =>
      var p := ParamIndex(params, name);
      if p.Some? then args[p.value] else e
    case Apply(fn, xs) => Apply(fn, SubstAll(xs, params, args))
  }

  function SubstAll(xs: seq<Expr>, params: seq<string>, args: seq<Expr>): (r: seq<Expr>)
    requires |params| == |args|
    ensures |r| == |xs|
    decreases xs, 0
  {
    if xs == [] then [] else [Subst(xs[0], params, args)] + SubstAll(xs[1..], params, args)
  }

  predicate AllCallable(c: Context, xs: seq<Expr>, bound: nat) {
    forall a :: a in xs ==> Callable(c, a, bound)
  }

  lemma CallableParts(c: Context, fn: string, xs: seq<Expr>, bound: nat)
    ensures Callable(c, Apply(fn, xs), bound) <==>
      AllCallable(c, xs, bound) &&
      (Classify(fn, |xs|).NotBuiltin? && fn in c.fns ==> fn in c.rank && c.rank[fn] < bound)
  {
    var e := Apply(fn, xs);
    assert forall a :: a in xs ==> Calls(a) <= Calls(e);
    if Callable(c, e, bound) && Classify(fn, |xs|).NotBuiltin? { assert fn in Calls(e); }
  }

  lemma {:induction false} SubstCallable(c: Context, e: Expr, params: seq<string>, args: seq<Expr>, inner: nat, bound: nat)
    requires |params| == |args| && inner <= bound
    requires Callable(c, e, inner) && AllCallable(c, args, bound)
    ensures Callable(c, Subst(e, params, args), bound)
    decreases e, 1
  {
    match e
    case Lit(_) =>
    case Col(_) =>
    case Apply(fn, xs) =>
      CallableParts(c, fn, xs, inner);
      SubstAllCallable(c, xs, params, args, inner, bound);
      CallableParts(c, fn, SubstAll(xs, params, args), bound);
  }

  lemma {:induction false} SubstAllCallable(c: Context, xs: seq<Expr>, params: seq<string>, args: seq<Expr>,
                                            inner: nat, bound: nat)
    requires |params| == |args| && inner <= bound
    requires AllCallable(c, xs, inner) && AllCallable(c, args, bound)
    ensures AllCallable(c, SubstAll(xs, params, args), bound)
    decreases xs, 0
  {
    if xs != [] {
      SubstCallable(c, xs[0], params, args, inner, bound);
      SubstAllCallable(c, xs[1..], params, args, inner, bound);
    }
  }

  // ---------------------------------------------------------------- what an evaluation reads

  /** Names an evaluation may look up in the scope it starts in. */
  function Reads(c: Context, e: Expr, bound: nat): set<string>
    requires Acyclic(c) && Callable(c, e, bound)
    decreases bound, 1, e, 1
  {
    match e
    case Lit(_) => {}
    case Col(name) => {name}
    case Apply(fn, xs) =>
      CallableParts(c, fn, xs, bound);
      ReadsAll(c, xs, bound) +
      (if Classify(fn, |xs|).NotBuiltin? && fn in c.fns then ReadsByCall(c, fn, bound) else {})
  }

  function ReadsAll(c: Context, xs: seq<Expr>, bound: nat): set<string>
    requires Acyclic(c) && AllCallable(c, xs, bound)
    decreases bound, 1, xs, 0
  {
    if xs == [] then {} else Reads(c, xs[0], bound) + ReadsAll(c, xs[1..], bound)
  }

  /** Names the body of `fn` reads from its caller's scope. */
  function ReadsByCall(c: Context, fn: string, bound: nat): set<string>
    requires Acyclic(c) && fn in c.fns && c.rank[fn] < bound
    decreases bound, 0
  {
    Reads(c, c.fns[fn].body, c.rank[fn]) - (set p | p in c.fns[fn].params)
  }

  predicate Agree(c: Context, names: set<string>, env1: Env, env2: Env) {
    forall x :: x in names ==> Lookup(env1, c.consts, x) == Lookup(env2, c.consts, x)
  }

  lemma {:induction false} PutAllLookup<V>(env: map<string, V>, params: seq<string>, vals: seq<V>, x: string)
    requires |params| == |vals|
    ensures var m := Graphs.PutAll(env, params, vals);
      match ParamIndex(params, x)
      case Some(p) => x in m && m[x] == vals[p]
      case None => if x in env then x in m && m[x] == env[x] else x !in m
  {
    if params != [] { PutAllLookup(env, params[..|params| - 1], vals[..|params| - 1], x); }
  }

  lemma CallScopesAgree(c: Context, names: set<string>, params: seq<string>, vals: seq<Value>, env1: Env, env2: Env)
    requires |params| == |vals|
    requires Agree(c, names - (set p | p in params), env1, env2)
    ensures Agree(c, names, Graphs.PutAll(env1, params, vals), Graphs.PutAll(env2, params, vals))
  {
    forall x | x in names
      ensures Lookup(Graphs.PutAll(env1, params, vals), c.consts, x) == Lookup(Graphs.PutAll(env2, params, vals), c.consts, x)
    {
      PutAllLookup(env1, params, vals, x);
      PutAllLookup(env2, params, vals, x);
      if x !in params { assert x in names - (set p | p in params); }
    }
  }

  /** Scopes that agree on what an evaluation reads give it the same result. */
  lemma {:induction false} EvalFramed(c: Context, e: Expr, env1: Env, env2: Env, b1: nat, b2: nat)
    requires Acyclic(c) && Callable(c, e, b1) && Callable(c, e, b2)
    requires Agree(c, Reads(c, e, b1), env1, env2)
    ensures Eval(c, e, env1, b1) == Eval(c, e, env2, b2)
    decreases b1, 1, e, 1
  {
    match e
    case Lit(_) =>
    case Col(_) =>
    case Apply(fn, xs) =>
      CallableParts(c, fn, xs, b1);
      CallableParts(c, fn, xs, b2);
      ArgsFramed(c, xs, env1, env2, b1, b2);
      var cols := EvalArgs(c, xs, env1, b1);
      if cols.Some? { ApplyFramed(c, fn, cols.value, env1, env2, b1, b2); }
  }

  lemma {:induction false} ArgsFramed(c: Context, xs: seq<Expr>, env1: Env, env2: Env, b1: nat, b2: nat)
    requires Acyclic(c) && AllCallable(c, xs, b1) && AllCallable(c, xs, b2)
    requires Agree(c, ReadsAll(c, xs, b1), env1, env2)
    ensures EvalArgs(c, xs, env1, b1) == EvalArgs(c, xs, env2, b2)
    decreases b1, 1, xs, 0
  {
    if xs != [] {
      EvalFramed(c, xs[0], env1, env2, b1, b2);
      ArgsFramed(c, xs[1..], env1, env2, b1, b2);
    }
  }

  lemma {:induction false} ApplyFramed(c: Context, fn: string, cols: seq<Column>, env1: Env, env2: Env, b1: nat, b2: nat)
    requires Acyclic(c) && Rectangular(cols, c.n)
    requires Classify(fn, |cols|).NotBuiltin? && fn in c.fns ==>
      fn in c.rank && c.rank[fn] < b1 && c.rank[fn] < b2 && Agree(c, ReadsByCall(c, fn, b1), env1, env2)
    ensures EvalApply(c, fn, cols, env1, b1) == EvalApply(c, fn, cols, env2, b2)
    decreases b1, 0
  {
    if Classify(fn, |cols|).NotBuiltin? && fn in c.fns && |cols| == |c.fns[fn].params| {
      var f := c.fns[fn];
      CallScopesAgree(c, Reads(c, f.body, c.rank[fn]), f.params, AsCells(cols), env1, env2);
      EvalFramed(c, f.body, Graphs.PutAll(env1, f.params, AsCells(cols)), Graphs.PutAll(env2, f.params, AsCells(cols)),
                 c.rank[fn], c.rank[fn]);
    }
  }

  // ---------------------------------------------------------------- inlining one call

  /** No function that `e` calls reads a name of `params` from the scope it is called in. */
  predicate CalleesBlind(c: Context, e: Expr, params: seq<string>)
    requires Acyclic(c)
  {
    forall g :: g in Calls(e) && g in c.fns ==> ReadsByCall(c, g, c.rank[g] + 1) !! (set p | p in params)
  }

  /** Some function that `e` calls reads this name from the scope it is called in. */
  predicate ReadByCallee(c: Context, e: Expr, name: string)
    requires Acyclic(c)
  {
    exists g :: g in Calls(e) && g in c.fns && name in ReadsByCall(c, g, c.rank[g] + 1)
  }

  predicate Evaluated(c: Context, args: seq<Expr>, env: Env, bound: nat, vals: seq<Column>)
    requires Acyclic(c) && AllCallable(c, args, bound)
  {
    |vals| == |args| && Rectangular(vals, c.n) &&
    forall p :: 0 <= p < |args| ==> Eval(c, args[p], env, bound) == Some(vals[p])
  }

  lemma {:induction false} ArgsEvaluated(c: Context, args: seq<Expr>, env: Env, bound: nat)
    requires Acyclic(c) && AllCallable(c, args, bound)
    requires EvalArgs(c, args, env, bound).Some?
    ensures Evaluated(c, args, env, bound, EvalArgs(c, args, env, bound).value)
  {
    if args != [] {
      ArgsEvaluated(c, args[1..], env, bound);
      assert forall p :: 1 <= p < |args| ==> args[p] == args[1..][p - 1];
    }
  }

  /** The body in the scope of the call is the substituted body in the scope of the caller. */
  lemma {:induction false} SubstSound(c: Context, e: Expr, params: seq<string>, args: seq<Expr>, vals: seq<Column>,
                                      env: Env, inner: nat, bound: nat)
    requires Acyclic(c) && |params| == |args| && inner <= bound
    requires Callable(c, e, inner) && AllCallable(c, args, bound)
    requires CalleesBlind(c, e, params)
    requires Evaluated(c, args, env, bound, vals)
    ensures Callable(c, Subst(e, params, args), bound)
    ensures Eval(c, Subst(e, params, args), env, bound) == Eval(c, e, Graphs.PutAll(env, params, AsCells(vals)), inner)
    decreases e, 1
  {
    SubstCallable(c, e, params, args, inner, bound);
    var scope := Graphs.PutAll(env, params, AsCells(vals));
    match e
    case Lit(_) =>
    case Col(name) =>
      PutAllLookup(env, params, AsCells(vals), name);
      var p := ParamIndex(params, name);
      if p.Some? { assert ColumnOf(Cells(vals[p.value]), c.n) == vals[p.value]; }
    case Apply(fn, xs) =>
      CallableParts(c, fn, xs, inner);
      CallableParts(c, fn, SubstAll(xs, params, args), bound);
      assert forall a :: a in xs ==> Calls(a) <= Calls(e);
      SubstAllSound(c, xs, params, args, vals, env, inner, bound);
      var cols := EvalArgs(c, xs, scope, inner);
      if cols.Some? {
        if Classify(fn, |xs|).NotBuiltin? && fn in c.fns {
          assert fn in Calls(e);
          BlindCallAgrees(c, fn, params, vals, env, inner);
        }
        ApplyFramed(c, fn, cols.value, scope, env, inner, bound);
      }
  }

  lemma BlindCallAgrees(c: Context, fn: string, params: seq<string>, vals: seq<Column>, env: Env, inner: nat)
    requires Acyclic(c) && |params| == |vals| && fn in c.fns && c.rank[fn] < inner
    requires ReadsByCall(c, fn, c.rank[fn] + 1) !! (set p | p in params)
    ensures Agree(c, ReadsByCall(c, fn, inner), Graphs.PutAll(env, params, AsCells(vals)), env)
  {
    forall x | x in ReadsByCall(c, fn, inner)
      ensures Lookup(Graphs.PutAll(env, params, AsCells(vals)), c.consts, x) == Lookup(env, c.consts, x)
    {
      PutAllLookup(env, params, AsCells(vals), x);
    }
  }

  lemma {:induction false} SubstAllSound(c: Context, xs: seq<Expr>, params: seq<string>, args: seq<Expr>, vals: seq<Column>,
                                         env: Env, inner: nat, bound: nat)
    requires Acyclic(c) && |params| == |args| && inner <= bound
    requires AllCallable(c, xs, inner) && AllCallable(c, args, bound)
    requires forall x :: x in xs ==> CalleesBlind(c, x, params)
    requires Evaluated(c, args, env, bound, vals)
    ensures AllCallable(c, SubstAll(xs, params, args), bound)
    ensures EvalArgs(c, SubstAll(xs, params, args), env, bound) == EvalArgs(c, xs, Graphs.PutAll(env, params, AsCells(vals)), inner)
    decreases xs, 0
  {
    SubstAllCallable(c, xs, params, args, inner, bound);
    if xs != [] {
      SubstSound(c, xs[0], params, args, vals, env, inner, bound);
      SubstAllSound(c, xs[1..], params, args, vals, env, inner, bound);
      assert SubstAll(xs, params, args)[1..] == SubstAll(xs[1..], params, args);
    }
  }

  /** A call means its inlined body, once its arguments evaluate; an argument that fails makes the call
      fail even where the body never uses it. */
  lemma InlineExact(c: Context, fn: string, args: seq<Expr>, env: Env, bound: nat)
    requires Acyclic(c) && Callable(c, Apply(fn, args), bound)
    requires Classify(fn, |args|).NotBuiltin? && fn in c.fns && |args| == |c.fns[fn].params|
    requires CalleesBlind(c, c.fns[fn].body, c.fns[fn].params)
    ensures AllCallable(c, args, bound) && Callable(c, Subst(c.fns[fn].body, c.fns[fn].params, args), bound)
    ensures Eval(c, Apply(fn, args), env, bound) ==
      if EvalArgs(c, args, env, bound).Some? then Eval(c, Subst(c.fns[fn].body, c.fns[fn].params, args), env, bound)
      else None
  {
    var f := c.fns[fn];
    CallableParts(c, fn, args, bound);
    SubstCallable(c, f.body, f.params, args, c.rank[fn], bound);
    var vals := EvalArgs(c, args, env, bound);
    if vals.Some? {
      ArgsEvaluated(c, args, env, bound);
      SubstSound(c, f.body, f.params, args, vals.value, env, c.rank[fn], bound);
    }
  }

  // ---------------------------------------------------------------- exactly when one call can be inlined

  predicate Found(c: Context, names: set<string>, env: Env) {
    forall x :: x in names ==> Lookup(env, c.consts, x).Some?
  }

  /** Arguments are eager, so an evaluation that succeeds has found every name it may read. */
  lemma {:induction false} ReadsFound(c: Context, e: Expr, env: Env, bound: nat)
    requires Acyclic(c) && Callable(c, e, bound) && Eval(c, e, env, bound).Some?
    ensures Found(c, Reads(c, e, bound), env)
    decreases bound, 1, e, 1
  {
    match e
    case Lit(_) =>
    case Col(_) =>
    case Apply(fn, xs) =>
      CallableParts(c, fn, xs, bound);
      ArgReadsFound(c, xs, env, bound);
      var cols := EvalArgs(c, xs, env, bound).value;
      if Classify(fn, |xs|).NotBuiltin? && fn in c.fns {
        var f := c.fns[fn];
        ReadsFound(c, f.body, Graphs.PutAll(env, f.params, AsCells(cols)), c.rank[fn]);
        forall x | x in ReadsByCall(c, fn, bound) ensures Lookup(env, c.consts, x).Some? {
          PutAllLookup(env, f.params, AsCells(cols), x);
        }
      }
  }

  lemma {:induction false} ArgReadsFound(c: Context, xs: seq<Expr>, env: Env, bound: nat)
    requires Acyclic(c) && AllCallable(c, xs, bound) && EvalArgs(c, xs, env, bound).Some?
    ensures Found(c, ReadsAll(c, xs, bound), env)
    decreases bound, 1, xs, 0
  {
    if xs != [] {
      ReadsFound(c, xs[0], env, bound);
      ArgReadsFound(c, xs[1..], env, bound);
    }
  }

  /** Substitution removes no call. */
  lemma {:induction false} SubstKeepsCall(e: Expr, params: seq<string>, args: seq<Expr>, g: string)
    requires |params| == |args| && g in Calls(e)
    ensures g in Calls(Subst(e, params, args))
    decreases e, 1
  {
    var xs := e.args;
    if a :| a in xs && g in Calls(a) {
      SubstAllKeepsCall(xs, params, args, a, g);
    }
  }

  lemma {:induction false} SubstAllKeepsCall(xs: seq<Expr>, params: seq<string>, args: seq<Expr>, x: Expr, g: string)
    requires |params| == |args| && x in xs && g in Calls(x)
    ensures exists y :: y in SubstAll(xs, params, args) && g in Calls(y)
    decreases xs, 0
  {
    var ys := SubstAll(xs, params, args);
    if x == xs[0] {
      SubstKeepsCall(x, params, args, g);
      assert ys[0] in ys;
    } else {
      SubstAllKeepsCall(xs[1..], params, args, x, g);
    }
  }

  /** What a called function reads from its caller, the calling expression reads. */
  lemma {:induction false} CallReads(c: Context, e: Expr, bound: nat, g: string)
    requires Acyclic(c) && Callable(c, e, bound) && g in Calls(e) && g in c.fns
    ensures c.rank[g] < bound && ReadsByCall(c, g, c.rank[g] + 1) <= Reads(c, e, bound)
    decreases e, 1
  {
    var (fn, xs) := (e.fn, e.args);
    CallableParts(c, fn, xs, bound);
    if a :| a in xs && g in Calls(a) {
      ArgCallReads(c, xs, bound, a, g);
    }
  }

  lemma {:induction false} ArgCallReads(c: Context, xs: seq<Expr>, bound: nat, x: Expr, g: string)
    requires Acyclic(c) && AllCallable(c, xs, bound) && x in xs && g in Calls(x) && g in c.fns
    ensures c.rank[g] < bound && ReadsByCall(c, g, c.rank[g] + 1) <= ReadsAll(c, xs, bound)
    decreases xs, 0
  {
    if x == xs[0] {
      CallReads(c, x, bound, g);
    } else {
      ArgCallReads(c, xs[1..], bound, x, g);
    }
  }

  /** The inlined body fails when a function it calls reads a name that the caller does not have. */
  lemma InlinedFails(c: Context, body: Expr, params: seq<string>, args: seq<Expr>, env: Env, inner: nat, bound: nat, p: string)
    requires Acyclic(c) && |params| == |args| && inner <= bound && Callable(c, body, inner) && AllCallable(c, args, bound)
    requires ReadByCallee(c, body, p) && Lookup(env, c.consts, p) == None
    ensures Callable(c, Subst(body, params, args), bound)
    ensures Eval(c, Subst(body, params, args), env, bound) == None
  {
    SubstCallable(c, body, params, args, inner, bound);
    var inlined := Subst(body, params, args);
    var g :| g in Calls(body) && g in c.fns && p in ReadsByCall(c, g, c.rank[g] + 1);
    SubstKeepsCall(body, params, args, g);
    CallReads(c, inlined, bound, g);
    if Eval(c, inlined, env, bound).Some? { ReadsFound(c, inlined, env, bound); }
  }

  /** A call that succeeds means its inlined body if and only if no function that the body calls reads a parameter
      from it, provided the caller itself has no name that such a function would find instead. */
  lemma InlineIff(c: Context, fn: string, args: seq<Expr>, env: Env, bound: nat)
    requires Acyclic(c) && Callable(c, Apply(fn, args), bound)
    requires Classify(fn, |args|).NotBuiltin? && fn in c.fns && |args| == |c.fns[fn].params|
    requires Eval(c, Apply(fn, args), env, bound).Some?
    requires forall p :: p in c.fns[fn].params && ReadByCallee(c, c.fns[fn].body, p) ==> Lookup(env, c.consts, p) == None
    ensures Callable(c, Subst(c.fns[fn].body, c.fns[fn].params, args), bound)
    ensures Eval(c, Subst(c.fns[fn].body, c.fns[fn].params, args), env, bound) == Eval(c, Apply(fn, args), env, bound)
      <==> CalleesBlind(c, c.fns[fn].body, c.fns[fn].params)
  {
    var f := c.fns[fn];
    CallableParts(c, fn, args, bound);
    SubstCallable(c, f.body, f.params, args, c.rank[fn], bound);
    hide Eval, Reads, ReadsByCall, Subst, CalleesBlind, ReadByCallee, Acyclic, Callable;
    if CalleesBlind(c, f.body, f.params) {
      InlineExact(c, fn, args, env, bound);
      ArgumentsFirst(c, fn, args, env, bound);
    } else {
      var p := ReaderFound(c, f.body, f.params);
      InlinedFails(c, f.body, f.params, args, env, c.rank[fn], bound, p);
    }
  }

  lemma ArgumentsFirst(c: Context, fn: string, args: seq<Expr>, env: Env, bound: nat)
    requires Acyclic(c) && Callable(c, Apply(fn, args), bound) && Eval(c, Apply(fn, args), env, bound).Some?
    ensures AllCallable(c, args, bound) && EvalArgs(c, args, env, bound).Some?
  {
    CallableParts(c, fn, args, bound);
  }

  lemma ReaderFound(c: Context, e: Expr, params: seq<string>) returns (p: string)
    requires Acyclic(c) && !CalleesBlind(c, e, params)
    ensures p in params && ReadByCallee(c, e, p)
  {
    hide ReadsByCall, Calls, Callable;
    var g :| g in Calls(e) && g in c.fns && !(ReadsByCall(c, g, c.rank[g] + 1) !! (set p | p in params));
    p :| p in ReadsByCall(c, g, c.rank[g] + 1) && p in params;
  }

  // ---------------------------------------------------------------- inlining every call

  /** Inlines the calls of a body before the body itself is inlined. */
  function Expand(c: Context, e: Expr, bound: nat): (r: Expr)
    requires Acyclic(c) && Callable(c, e, bound)
    decreases bound, 1, e, 1
  {
    match e
    case Lit(_) => e
    case Col(_) => e
    case Apply(fn, xs) =>
      CallableParts(c, fn, xs, bound);
      var ys := ExpandAll(c, xs, bound);
      if Classify(fn, |xs|).NotBuiltin? && fn in c.fns && |xs| == |c.fns[fn].params|
      then Subst(Expand(c, c.fns[fn].body, c.rank[fn]), c.fns[fn].params, ys)
      else Apply(fn, ys)
  }

  function ExpandAll(c: Context, xs: seq<Expr>, bound: nat): (r: seq<Expr>)
    requires Acyclic(c) && AllCallable(c, xs, bound)
    ensures |r| == |xs|
    decreases bound, 1, xs, 0
  {
    if xs == [] then [] else [Expand(c, xs[0], bound)] + ExpandAll(c, xs[1..], bound)
  }

  /** An expression that evaluates means its expansion, which calls no user function at all.  Nothing is asked
      of the bodies: inlining the innermost calls first follows the dynamic scope. */
  lemma {:induction false} ExpandSound(c: Context, e: Expr, env: Env, bound: nat)
    requires Acyclic(c) && Callable(c, e, bound)
    requires Eval(c, e, env, bound).Some?
    ensures Callable(c, Expand(c, e, bound), 0)
    ensures Eval(c, Expand(c, e, bound), env, 0) == Eval(c, e, env, bound)
    decreases bound, 1, e, 1
  {
    match e
    case Lit(_) =>
    case Col(_) =>
    case Apply(fn, xs) =>
      CallableParts(c, fn, xs, bound);
      ExpandAllSound(c, xs, env, bound);
      var ys := ExpandAll(c, xs, bound);
      var cols := EvalArgs(c, xs, env, bound).value;
      if Classify(fn, |xs|).NotBuiltin? {
        var f := c.fns[fn];
        ExpandSound(c, f.body, Graphs.PutAll(env, f.params, AsCells(cols)), c.rank[fn]);
        var body := Expand(c, f.body, c.rank[fn]);
        ArgsEvaluated(c, ys, env, 0);
        SubstSound(c, body, f.params, ys, cols, env, 0, 0);
      } else {
        CallableParts(c, fn, ys, 0);
      }
  }

  lemma {:induction false} ExpandAllSound(c: Context, xs: seq<Expr>, env: Env, bound: nat)
    requires Acyclic(c) && AllCallable(c, xs, bound)
    requires EvalArgs(c, xs, env, bound).Some?
    ensures AllCallable(c, ExpandAll(c, xs, bound), 0)
    ensures EvalArgs(c, ExpandAll(c, xs, bound), env, 0) == EvalArgs(c, xs, env, bound)
    decreases bound, 1, xs, 0
  {
    if xs != [] {
      ExpandSound(c, xs[0], env, bound);
      ExpandAllSound(c, xs[1..], env, bound);
      assert ExpandAll(c, xs, bound)[1..] == ExpandAll(c, xs[1..], bound);
    }
  }

  // ---------------------------------------------------------------- where the conditions matter

  /** f(x) = g() and g() = x: the callee sees its caller's parameter. */
  function Leaky(prim: (string, seq<Num>) -> Num): Context {
    Context(map["f" := UserFunction(["x"], Apply("g", [])), "g" := UserFunction([], Col("x"))],
            map["f" := 1, "g" := 0], map[], prim, 1)
  }

  lemma OwnNames()
    ensures Classify("f", 1).NotBuiltin? && Classify("g", 0).NotBuiltin?
  {
  }

  lemma LeakyShape(prim: (string, seq<Num>) -> Num)
    ensures Acyclic(Leaky(prim)) && Callable(Leaky(prim), Apply("f", [Lit(R(5.0))]), 2)
    ensures Callable(Leaky(prim), Apply("g", []), 1)
    ensures Classify("f", 1).NotBuiltin? && Classify("g", 0).NotBuiltin?
  {
    hide Classify;
    var c := Leaky(prim);
    OwnNames();
    CallableParts(c, "f", [Lit(R(5.0))], 2);
    CallableParts(c, "g", [], 1);
    assert Calls(Col("x")) == {};
    assert Callable(c, Col("x"), 0);
  }

  /** g reads x from the body of f. */
  lemma LeakyReads(prim: (string, seq<Num>) -> Num)
    requires Acyclic(Leaky(prim)) && Classify("g", 0).NotBuiltin?
    ensures ReadByCallee(Leaky(prim), Apply("g", []), "x")
  {
    hide Classify;
    var c := Leaky(prim);
    assert "g" in Calls(Apply("g", []));
    assert "x" in ReadsByCall(c, "g", 1);
  }

  /** In the scope of f, g finds 5. */
  lemma LeakyCall(prim: (string, seq<Num>) -> Num, scope: Env)
    requires scope == map["x" := Cells([R(5.0)])]
    requires Acyclic(Leaky(prim)) && Callable(Leaky(prim), Apply("g", []), 1) && Classify("g", 0).NotBuiltin?
    ensures Eval(Leaky(prim), Apply("g", []), scope, 1) == Some([R(5.0)])
  {
    hide Classify;
    var c := Leaky(prim);
    CallableParts(c, "g", [], 1);
    assert EvalArgs(c, [], scope, 1) == Some([]);
    assert Graphs.PutAll(scope, [], AsCells([])) == scope;
    assert ColumnOf(Cells([R(5.0)]), 1) == [R(5.0)];
    assert Eval(c, Col("x"), scope, 0) == Some([R(5.0)]);
  }

  /** Called, the body of f reads 5; inlined, it reads a name that is not there. */
  lemma OpenCalleeBreaks(prim: (string, seq<Num>) -> Num)
    ensures var c := Leaky(prim);
      var inlined := Subst(Apply("g", []), ["x"], [Lit(R(5.0))]);
      Acyclic(c) && Callable(c, Apply("f", [Lit(R(5.0))]), 2) && Callable(c, inlined, 2) &&
      Eval(c, Apply("f", [Lit(R(5.0))]), map[], 2) == Some([R(5.0)]) && Eval(c, inlined, map[], 2) == None
  {
    hide Classify;
    var (c, five) := (Leaky(prim), Lit(R(5.0)));
    LeakyShape(prim);
    CallableParts(c, "f", [five], 2);
    assert ColumnOf(Scalar(R(5.0)), 1) == [R(5.0)];
    OneArgument(c, five, map[], 2, [R(5.0)]);
    PutOne("x", [R(5.0)]);
    LeakyCall(prim, map["x" := Cells([R(5.0)])]);
    LeakyReads(prim);
    InlinedFails(c, Apply("g", []), ["x"], [five], map[], 1, 2, "x");
  }

  lemma OneArgument(c: Context, e: Expr, env: Env, bound: nat, col: Column)
    requires Acyclic(c) && Callable(c, e, bound) && Eval(c, e, env, bound) == Some(col)
    ensures EvalArgs(c, [e], env, bound) == Some([col])
  {
    assert [e][1..] == [];
    assert [col] + [] == [col];
  }

  lemma PutOne(x: string, col: Column)
    ensures Graphs.PutAll(map[], [x], AsCells([col])) == map[x := Cells(col)]
  {
    assert [x][..0] == [];
    assert AsCells([col])[..0] == [];
  }

  /** h(x) = 1: the call fails with its unused argument, the inlined body does not. */
  lemma UnusedArgumentFails(prim: (string, seq<Num>) -> Num)
    ensures var c := Context(map["h" := UserFunction(["x"], Lit(R(1.0)))], map["h" := 0], map[], prim, 1);
      var inlined := Subst(Lit(R(1.0)), ["x"], [Col("missing")]);
      Acyclic(c) && Callable(c, Apply("h", [Col("missing")]), 1) && Callable(c, inlined, 1) &&
      CalleesBlind(c, Lit(R(1.0)), ["x"]) &&
      Eval(c, Apply("h", [Col("missing")]), map[], 1) == None && Eval(c, inlined, map[], 1) == Some([R(1.0)])
  {
    var c := Context(map["h" := UserFunction(["x"], Lit(R(1.0)))], map["h" := 0], map[], prim, 1);
    assert Calls(Lit(R(1.0))) == {} && Calls(Col("missing")) == {};
    CallableParts(c, "h", [Col("missing")], 1);
    assert Eval(c, Col("missing"), map[], 1) == None;
    assert ColumnOf(Scalar(R(1.0)), 1) == [R(1.0)];
  }

  // ---------------------------------------------------------------- one row does not see another

  /** The columns of the scope have one cell per row. */
  predicate RowShaped(c: Context, env: Env) {
    forall x :: x in env && env[x].Cells? ==> |env[x].cells| == c.n
  }

  /** On this input the two slopes give the same: they are equal, or the product is not taken, or it is missing or
      zero either way. */
  predicate SlopeIdle(x: Num, s: Num, t: Num) {
    s == t || x.NaN? || x.val > 0.0 || (x.val == 0.0 && s.R? && t.R?)
  }

  /** The slope at row lo gives on rows lo to hi what the slope at row 0 gives there. */
  predicate SlopesAgree(cols: seq<Column>, n: nat, lo: nat, hi: nat)
    requires Rectangular(cols, n) && |cols| >= 2 && hi <= n
  {
    forall i :: lo <= i < hi ==> SlopeIdle(cols[0][i], cols[1][lo], cols[1][0])
  }

  /** A constant of the model is read from its first row on, whichever rows are evaluated. */
  predicate ConstantAgrees(v: Value, lo: nat, hi: nat) {
    forall i :: lo <= i < hi ==> Cell(v, i - lo) == Cell(v, i)
  }

  /** Nothing met in the evaluation of rows lo to hi depends on where these rows start: no slope of a leaky_relu and
      no constant. */
  predicate StartFree(c: Context, e: Expr, env: Env, bound: nat, lo: nat, hi: nat)
    requires Acyclic(c) && Callable(c, e, bound) && hi <= c.n
    decreases bound, 1, e, 1
  {
    match e
    case Lit(_) => true
    case Col(name) => name !in env && name in c.consts ==> ConstantAgrees(c.consts[name], lo, hi)
    case Apply(fn, xs) =>
      CallableParts(c, fn, xs, bound);
      AllStartFree(c, xs, env, bound, lo, hi) &&
      match EvalArgs(c, xs, env, bound)
      case None => true
      case Some(cols) => CallStartFree(c, fn, cols, env, bound, lo, hi)
  }

  predicate AllStartFree(c: Context, xs: seq<Expr>, env: Env, bound: nat, lo: nat, hi: nat)
    requires Acyclic(c) && AllCallable(c, xs, bound) && hi <= c.n
    decreases bound, 1, xs, 0
  {
    xs == [] || (StartFree(c, xs[0], env, bound, lo, hi) && AllStartFree(c, xs[1..], env, bound, lo, hi))
  }

  predicate CallStartFree(c: Context, fn: string, cols: seq<Column>, env: Env, bound: nat, lo: nat, hi: nat)
    requires Acyclic(c) && Rectangular(cols, c.n) && hi <= c.n
    requires Classify(fn, |cols|).NotBuiltin? && fn in c.fns ==> fn in c.rank && c.rank[fn] < bound
    decreases bound, 0
  {
    var b := Classify(fn, |cols|);
    if b.LeakyRelu? then |cols| >= 2 ==> SlopesAgree(cols, c.n, lo, hi)
    else b.NotBuiltin? && fn in c.fns && |cols| == |c.fns[fn].params| ==>
      StartFree(c, c.fns[fn].body, Graphs.PutAll(env, c.fns[fn].params, AsCells(cols)), c.rank[fn], lo, hi)
  }

  function SliceValue(v: Value, lo: nat, hi: nat): Value
    requires lo <= hi && (v.Cells? ==> hi <= |v.cells|)
  {
    if v.Cells? then Cells(v.cells[lo..hi]) else v
  }

  /** Rows lo to hi of every column a scope holds. */
  function SliceEnv(c: Context, env: Env, lo: nat, hi: nat): Env
    requires RowShaped(c, env) && lo <= hi <= c.n
  {
    map x | x in env :: SliceValue(env[x], lo, hi)
  }

  function SliceAll(cols: seq<Column>, n: nat, lo: nat, hi: nat): (r: seq<Column>)
    requires Rectangular(cols, n) && lo <= hi <= n
    ensures |r| == |cols| && Rectangular(r, hi - lo)
    ensures forall k :: 0 <= k < |cols| ==> r[k] == cols[k][lo..hi]
  {
    seq(|cols|, k requires 0 <= k < |cols| => cols[k][lo..hi])
  }

  lemma RowsKept(c: Context, rows: nat)
    requires Acyclic(c)
    ensures Acyclic(c.(n := rows))
    ensures forall e, b :: Callable(c, e, b) ==> Callable(c.(n := rows), e, b)
  {
    forall e, b | Callable(c, e, b) ensures Callable(c.(n := rows), e, b) { CallableKept(c, e, b, rows); }
  }

  lemma CallableKept(c: Context, e: Expr, b: nat, rows: nat)
    requires Callable(c, e, b)
    ensures Callable(c.(n := rows), e, b)
  {
  }

  lemma SliceCall(c: Context, env: Env, params: seq<string>, cols: seq<Column>, lo: nat, hi: nat)
    requires RowShaped(c, env) && Rectangular(cols, c.n) && |params| == |cols| && lo <= hi <= c.n
    ensures var scope := Graphs.PutAll(env, params, AsCells(cols));
      RowShaped(c, scope) &&
      SliceEnv(c, scope, lo, hi) == Graphs.PutAll(SliceEnv(c, env, lo, hi), params, AsCells(SliceAll(cols, c.n, lo, hi)))
  {
    var scope := Graphs.PutAll(env, params, AsCells(cols));
    forall x ensures x in scope && scope[x].Cells? ==> |scope[x].cells| == c.n { PutAllLookup(env, params, AsCells(cols), x); }
    var sliced := Graphs.PutAll(SliceEnv(c, env, lo, hi), params, AsCells(SliceAll(cols, c.n, lo, hi)));
    forall x
      ensures x in scope <==> x in sliced
      ensures x in scope ==> sliced[x] == SliceEnv(c, scope, lo, hi)[x]
    {
      PutAllLookup(env, params, AsCells(cols), x);
      PutAllLookup(SliceEnv(c, env, lo, hi), params, AsCells(SliceAll(cols, c.n, lo, hi)), x);
    }
  }

  /** Every other built-in function is row-local; leaky_relu with a slope column is, on these rows, if and only if the
      two slopes agree on them. */
  lemma BuiltinRowLocalIff(b: Builtin, prim: (string, seq<Num>) -> Num, cols: seq<Column>, n: nat, lo: nat, hi: nat)
    requires Rectangular(cols, n) && Applicable(b, |cols|) && lo <= hi <= n
    ensures ApplyBuiltin(b, prim, SliceAll(cols, n, lo, hi), hi - lo) == ApplyBuiltin(b, prim, cols, n)[lo..hi]
      <==> (b.LeakyRelu? && |cols| >= 2 ==> SlopesAgree(cols, n, lo, hi))
  {
    var part := SliceAll(cols, n, lo, hi);
    var (small, large) := (ApplyBuiltin(b, prim, part, hi - lo), ApplyBuiltin(b, prim, cols, n));
    forall i | lo <= i < hi
      ensures small[i - lo] == large[i] <==>
        (b.LeakyRelu? && |cols| >= 2 ==> SlopeIdle(cols[0][i], cols[1][lo], cols[1][0]))
    {
      BuiltinAt(b, prim, cols, n, lo, hi, i);
    }
    hide ApplyBuiltin, SliceAll, SlopeIdle;
    if small == large[lo..hi] {
      forall i | lo <= i < hi ensures small[i - lo] == large[i] { assert large[lo..hi][i - lo] == large[i]; }
    }
    if b.LeakyRelu? && |cols| >= 2 ==> SlopesAgree(cols, n, lo, hi) {
      forall j | 0 <= j < hi - lo ensures small[j] == large[lo..hi][j] { assert small[(lo + j) - lo] == large[lo + j]; }
    }
  }

  lemma BuiltinAt(b: Builtin, prim: (string, seq<Num>) -> Num, cols: seq<Column>, n: nat, lo: nat, hi: nat, i: nat)
    requires Rectangular(cols, n) && Applicable(b, |cols|) && lo <= i < hi <= n
    ensures ApplyBuiltin(b, prim, SliceAll(cols, n, lo, hi), hi - lo)[i - lo] == ApplyBuiltin(b, prim, cols, n)[i] <==>
      (b.LeakyRelu? && |cols| >= 2 ==> SlopeIdle(cols[0][i], cols[1][lo], cols[1][0]))
  {
    var part := SliceAll(cols, n, lo, hi);
    var row := Row(cols, n, i);
    assert Row(part, hi - lo, i - lo) == row;
    if b.LeakyRelu? {
      if |cols| >= 2 { assert Slope(part) == cols[1][lo] && Slope(cols) == cols[1][0]; }
      SlopeMatters(prim, row, Slope(part), Slope(cols));
    } else {
      SlopeUnused(b, prim, row, Slope(part), Slope(cols));
    }
  }

  lemma SameProduct(s: real, t: real, x: real)
    ensures x == 0.0 ==> s * x == t * x
    ensures x < 0.0 ==> (s * x == t * x <==> s == t)
  {
    if x < 0.0 && s * x == t * x { assert (s - t) * x == 0.0; }
  }

  lemma ProductMatters(s: Num, t: Num, x: Num)
    requires x.R? ==> x.val <= 0.0
    ensures Mul(s, x) == Mul(t, x) <==> SlopeIdle(x, s, t)
  {
    if x.R? && s.R? && t.R? {
      var (p, q) := (s.val * x.val, t.val * x.val);
      SameProduct(s.val, t.val, x.val);
      assert Mul(s, x) == R(p) && Mul(t, x) == R(q);
      if x.val == 0.0 { assert p == q; } else { assert p == q <==> s == t; }
    }
  }

  lemma SlopeMatters(prim: (string, seq<Num>) -> Num, row: seq<Num>, s: Num, t: Num)
    requires |row| >= 1
    ensures RowValue(LeakyRelu, prim, row, s) == RowValue(LeakyRelu, prim, row, t) <==> SlopeIdle(row[0], s, t)
  {
    hide Mul;
    if !Less(R(0.0), row[0]) { ProductMatters(s, t, row[0]); }
  }

  lemma SlopeUnused(b: Builtin, prim: (string, seq<Num>) -> Num, row: seq<Num>, s: Num, t: Num)
    requires Applicable(b, |row|) && !b.LeakyRelu?
    ensures RowValue(b, prim, row, s) == RowValue(b, prim, row, t)
  {
  }

  /** Reading a constant is row-local on these rows if and only if the constant agrees with itself there. */
  lemma ConstantRowLocalIff(v: Value, n: nat, lo: nat, hi: nat)
    requires lo <= hi <= n
    ensures ColumnOf(v, hi - lo) == ColumnOf(v, n)[lo..hi] <==> ConstantAgrees(v, lo, hi)
  {
    var (small, large) := (ColumnOf(v, hi - lo), ColumnOf(v, n)[lo..hi]);
    if ConstantAgrees(v, lo, hi) {
      forall j | 0 <= j < hi - lo ensures small[j] == large[j] { assert Cell(v, (lo + j) - lo) == Cell(v, lo + j); }
    }
    if small == large {
      forall i | lo <= i < hi ensures Cell(v, i - lo) == Cell(v, i) { assert small[i - lo] == large[i - lo]; }
    }
  }

  lemma ColumnSlices(c: Context, env: Env, name: string, lo: nat, hi: nat)
    requires RowShaped(c, env) && lo <= hi <= c.n && Lookup(env, c.consts, name).Some?
    requires name !in env ==> ConstantAgrees(c.consts[name], lo, hi)
    ensures var v := Lookup(SliceEnv(c, env, lo, hi), c.consts, name);
      v.Some? && ColumnOf(v.value, hi - lo) == ColumnOf(Lookup(env, c.consts, name).value, c.n)[lo..hi]
  {
    if name in env {
      assert ColumnOf(SliceValue(env[name], lo, hi), hi - lo) == ColumnOf(env[name], c.n)[lo..hi];
    } else {
      ConstantRowLocalIff(c.consts[name], c.n, lo, hi);
    }
  }

  /** Evaluation is row-local wherever it does not depend on where the rows start: on some of the rows it gives those
      rows of the result, and fails where it fails on all. */
  lemma {:induction false} EvalRowLocal(c: Context, e: Expr, env: Env, bound: nat, lo: nat, hi: nat)
    requires Acyclic(c) && Callable(c, e, bound) && RowShaped(c, env) && lo <= hi <= c.n
    requires StartFree(c, e, env, bound, lo, hi)
    ensures var part := c.(n := hi - lo);
      Acyclic(part) && Callable(part, e, bound) &&
      Eval(part, e, SliceEnv(c, env, lo, hi), bound) ==
        match Eval(c, e, env, bound) case None => None case Some(col) => Some(col[lo..hi])
    decreases bound, 1, e, 1
  {
    var part := c.(n := hi - lo);
    RowsKept(c, hi - lo);
    match e
    case Lit(v) =>
      assert ColumnOf(Scalar(v), hi - lo) == ColumnOf(Scalar(v), c.n)[lo..hi];
    case Col(name) =>
      if Lookup(env, c.consts, name).Some? { ColumnSlices(c, env, name, lo, hi); }
    case Apply(fn, xs) =>
      hide RowShaped, SliceEnv, SliceAll, Callable, Acyclic;
      CallableParts(c, fn, xs, bound);
      CallableParts(part, fn, xs, bound);
      ArgsRowLocal(c, xs, env, bound, lo, hi);
      var cols := EvalArgs(c, xs, env, bound);
      if cols.Some? { ApplyRowLocal(c, fn, cols.value, env, bound, lo, hi); }
  }

  lemma SliceCons(col: Column, rest: seq<Column>, n: nat, lo: nat, hi: nat)
    requires |col| == n && Rectangular(rest, n) && lo <= hi <= n
    ensures Rectangular([col] + rest, n)
    ensures SliceAll([col] + rest, n, lo, hi) == [col[lo..hi]] + SliceAll(rest, n, lo, hi)
  {
  }

  lemma SliceNone(n: nat, lo: nat, hi: nat)
    requires lo <= hi <= n
    ensures SliceAll([], n, lo, hi) == []
  {
  }

  lemma {:induction false} ArgsRowLocal(c: Context, xs: seq<Expr>, env: Env, bound: nat, lo: nat, hi: nat)
    requires Acyclic(c) && AllCallable(c, xs, bound) && RowShaped(c, env) && lo <= hi <= c.n
    requires AllStartFree(c, xs, env, bound, lo, hi)
    ensures var part := c.(n := hi - lo);
      Acyclic(part) && AllCallable(part, xs, bound) &&
      EvalArgs(part, xs, SliceEnv(c, env, lo, hi), bound) ==
        match EvalArgs(c, xs, env, bound) case None => None case Some(cols) => Some(SliceAll(cols, c.n, lo, hi))
    decreases bound, 1, xs, 0
  {
    hide RowShaped, SliceEnv, SliceAll, Rectangular, Callable, Acyclic;
    RowsKept(c, hi - lo);
    if xs == [] {
      SliceNone(c.n, lo, hi);
    } else {
      EvalRowLocal(c, xs[0], env, bound, lo, hi);
      ArgsRowLocal(c, xs[1..], env, bound, lo, hi);
      var rest := EvalArgs(c, xs[1..], env, bound);
      var col := Eval(c, xs[0], env, bound);
      if col.Some? && rest.Some? { SliceCons(col.value, rest.value, c.n, lo, hi); }
    }
  }

  lemma {:induction false} ApplyRowLocal(c: Context, fn: string, cols: seq<Column>, env: Env, bound: nat, lo: nat, hi: nat)
    requires Acyclic(c) && Rectangular(cols, c.n) && RowShaped(c, env) && lo <= hi <= c.n
    requires Classify(fn, |cols|).NotBuiltin? && fn in c.fns ==> fn in c.rank && c.rank[fn] < bound
    requires CallStartFree(c, fn, cols, env, bound, lo, hi)
    ensures var part := c.(n := hi - lo);
      Acyclic(part) &&
      EvalApply(part, fn, SliceAll(cols, c.n, lo, hi), SliceEnv(c, env, lo, hi), bound) ==
        match EvalApply(c, fn, cols, env, bound) case None => None case Some(col) => Some(col[lo..hi])
    decreases bound, 0
  {
    RowsKept(c, hi - lo);
    var b := Classify(fn, |cols|);
    if !b.NotBuiltin? {
      if Applicable(b, |cols|) { BuiltinRowLocalIff(b, c.prim, cols, c.n, lo, hi); }
    } else if fn in c.fns && |cols| == |c.fns[fn].params| {
      var f := c.fns[fn];
      SliceCall(c, env, f.params, cols, lo, hi);
      EvalRowLocal(c, f.body, Graphs.PutAll(env, f.params, AsCells(cols)), c.rank[fn], lo, hi);
    }
  }

  /** A slope that differs between rows: row 1 uses the slope of row 0, alone it uses its own. */
  lemma VaryingSlopeBreaks(prim: (string, seq<Num>) -> Num)
    ensures var cols := [[R(-1.0), R(-1.0)], [R(1.0), R(2.0)]];
      !SlopesAgree(cols, 2, 1, 2) &&
      ApplyBuiltin(LeakyRelu, prim, cols, 2)[1..2] == [R(-1.0)] &&
      ApplyBuiltin(LeakyRelu, prim, SliceAll(cols, 2, 1, 2), 1) == [R(-2.0)]
  {
    var cols := [[R(-1.0), R(-1.0)], [R(1.0), R(2.0)]];
    var part := SliceAll(cols, 2, 1, 2);
    assert Row(cols, 2, 1)[0] == R(-1.0) && Row(part, 1, 0)[0] == R(-1.0);
    assert Slope(cols) == R(1.0) && Slope(part) == R(2.0);
    assert !SlopeIdle(cols[0][1], cols[1][1], cols[1][0]);
  }

  /** A constant of two rows: evaluated alone, row 1 reads its first row. */
  lemma LongConstantBreaks(prim: (string, seq<Num>) -> Num, x: Num, y: Num)
    ensures var c := Context(map[], map[], map["k" := Cells([x, y])], prim, 2);
      Acyclic(c) && Callable(c, Col("k"), 0) && Acyclic(c.(n := 1)) && Callable(c.(n := 1), Col("k"), 0) &&
      Eval(c, Col("k"), map[], 0) == Some([x, y]) && Eval(c.(n := 1), Col("k"), map[], 0) == Some([x]) &&
      (StartFree(c, Col("k"), map[], 0, 1, 2) <==> x == y)
  {
    var v := Cells([x, y]);
    assert ColumnOf(v, 2) == [x, y] && ColumnOf(v, 1) == [x];
    assert Cell(v, 0) == x && Cell(v, 1) == y;
    if x != y { assert Cell(v, 1 - 1) != Cell(v, 1); }
  }
}
