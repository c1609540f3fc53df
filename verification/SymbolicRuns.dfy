/** One run over terms decides whether the load-time inlining of src/graph_loader.cpp preserves a graph, whatever its
    operators compute. */
module SymbolicRuns {
  import opened Wrappers
  import opened ValueStores
  import opened Graphs
  import Flattening

  // ---------------------------------------------------------------- terms

  /** Where a value comes from: an input, a constant, or output k of an operator. */
  datatype Term = Input(name: string) | Constant(name: string) | Result(op: nat, args: seq<Term>, k: nat)

  type Terms = map<string, Term>

  /** The operator applications seen so far, and how many outputs each must have. */
  type Log = map<(nat, seq<Term>), nat>

  function Inputs(names: set<string>): Terms {
    map x | x in names :: Input(x)
  }

  function Constants(names: set<string>): Terms {
    map x | x in names :: Constant(x)
  }

  function Results(op: nat, args: seq<Term>, n: nat): (r: seq<Term>)
    ensures |r| == n && forall k :: 0 <= k < n ==> r[k] == Result(op, args, k)
  {
    seq(n, k requires 0 <= k => Result(op, args, k))
  }

  /** The operators that compute terms, and only the ones in the log. */
  function Free(log: Log): Semantics<Term> {
    (op, args) => if (op, args) in log then Some(Results(op, args, log[(op, args)])) else None
  }

  datatype Trace = Trace(store: Terms, log: Log)

  /** Runs a node over terms and logs what it applies; one application with two numbers of outputs is an error. */
  function Record(consts: Terms, n: Node, t: Trace): Option<Trace>
    decreases n, 1
  {
    match n
    case Op(op, ins, attrs, outs) =>
      (match Gather(ins + attrs, t.store, consts)
       case None => None
       case Some(args) =>
         if (op, args) in t.log && t.log[(op, args)] != |outs| then None
         else Some(Trace(PutAll(t.store, outs, Results(op, args, |outs|)), t.log[(op, args) := |outs|])))
    case Composite(ins, outs, inAliases, outAliases, body) =>
      match BindInputs(ins, inAliases, t.store, consts)
      case None => None
      case Some(child) =>
        match RecordAll(consts, body, Trace(child, t.log))
        case None => None
        case Some(t') =>
          match CollectOutputs(outs, outAliases, t'.store, consts, t.store)
          case None => None
          case Some(m) => Some(Trace(m, t'.log))
  }

  function RecordAll(consts: Terms, ns: seq<Node>, t: Trace): Option<Trace>
    decreases ns, 0
  {
    if ns == [] then Some(t)
    else
      match Record(consts, ns[0], t)
      case None => None
      case Some(t') => RecordAll(consts, ns[1..], t')
  }

  /** Every value of the first store is in the second, under its name. */
  ghost predicate Kept<V>(o: map<string, V>, p: map<string, V>) {
    forall x :: x in o ==> x in p && p[x] == o[x]
  }

  /** The test: record the graph with its scopes, and run the flattened graph on nothing but what was recorded. */
  ghost predicate Survives(ns: seq<Node>, inputs: set<string>, consts: set<string>) {
    match RecordAll(Constants(consts), ns, Trace(Inputs(inputs), map[]))
    case None => true
    case Some(t) =>
      var p := RunAll(Free(t.log), Constants(consts), Flattening.Flat(ns), Inputs(inputs));
      p.Some? && Kept(t.store, p.value)
  }

  // ---------------------------------------------------------------- recorded runs are runs over terms

  predicate LogKept(a: Log, b: Log) {
    forall u :: u in a ==> u in b && b[u] == a[u]
  }

  /** Recording only adds to the log, and on any log that has all of it the run over terms repeats the record. */
  lemma {:induction false} RecordRuns(consts: Terms, n: Node, t: Trace, log: Log)
    requires Record(consts, n, t).Some?
    ensures LogKept(t.log, Record(consts, n, t).value.log)
    ensures LogKept(Record(consts, n, t).value.log, log) ==>
      Run(Free(log), consts, n, t.store) == Some(Record(consts, n, t).value.store)
    decreases n, 1
  {
    match n
    case Op(op, ins, attrs, outs) =>
    case Composite(ins, outs, inAliases, outAliases, body) =>
      RecordAllRuns(consts, body, Trace(BindInputs(ins, inAliases, t.store, consts).value, t.log), log);
  }

  lemma {:induction false} RecordAllRuns(consts: Terms, ns: seq<Node>, t: Trace, log: Log)
    requires RecordAll(consts, ns, t).Some?
    ensures LogKept(t.log, RecordAll(consts, ns, t).value.log)
    ensures LogKept(RecordAll(consts, ns, t).value.log, log) ==>
      RunAll(Free(log), consts, ns, t.store) == Some(RecordAll(consts, ns, t).value.store)
    decreases ns, 0
  {
    if ns != [] {
      RecordRuns(consts, ns[0], t, log);
      RecordAllRuns(consts, ns[1..], Record(consts, ns[0], t).value, log);
    }
  }

  // ---------------------------------------------------------------- what a term means

  function Vals<V>(val: Term -> Option<V>, ts: seq<Term>): (r: Option<seq<V>>)
    ensures r.Some? ==> |r.value| == |ts|
  {
    if ts == [] then Some([])
    else
      match Vals(val, ts[..|ts| - 1])
      case None => None
      case Some(vs) =>
        match val(ts[|ts| - 1])
        case None => None
        case Some(v) => Some(vs + [v])
  }

  function Output<V>(sem: Semantics<V>, op: nat, args: Option<seq<V>>, k: nat): Option<V> {
    if args.None? then None
    else
      var r := sem(op, args.value);
      if r.Some? && k < |r.value| then Some(r.value[k]) else None
  }

  /** The valuation reads results as the operators compute them. */
  ghost predicate Respects<V(!new)>(sem: Semantics<V>, val: Term -> Option<V>) {
    forall op, args, k :: val(Result(op, args, k)) == Output(sem, op, Vals(val, args), k)
  }

  ghost predicate Denotes<V>(val: Term -> Option<V>, ts: Terms, vs: map<string, V>) {
    ts.Keys == vs.Keys && forall x :: x in vs ==> val(ts[x]) == Some(vs[x])
  }

  /** Every logged application succeeds, with as many outputs as logged. */
  ghost predicate Sound<V>(sem: Semantics<V>, val: Term -> Option<V>, log: Log) {
    forall op, args :: (op, args) in log ==>
      Vals(val, args).Some? && sem(op, Vals(val, args).value).Some? && |sem(op, Vals(val, args).value).value| == log[(op, args)]
  }

  lemma LookupDenotes<V>(val: Term -> Option<V>, ts: Terms, vs: map<string, V>, kt: Terms, kv: map<string, V>, x: string)
    requires Denotes(val, ts, vs) && Denotes(val, kt, kv)
    ensures Lookup(ts, kt, x).Some? <==> Lookup(vs, kv, x).Some?
    ensures Lookup(ts, kt, x).Some? ==> val(Lookup(ts, kt, x).value) == Lookup(vs, kv, x)
  {
    assert x in ts.Keys <==> x in vs.Keys;
    assert x in kt.Keys <==> x in kv.Keys;
  }

  lemma {:induction false} GatherDenotes<V>(val: Term -> Option<V>, ts: Terms, vs: map<string, V>, kt: Terms, kv: map<string, V>, names: seq<string>)
    requires Denotes(val, ts, vs) && Denotes(val, kt, kv)
    ensures Gather(names, ts, kt).Some? <==> Gather(names, vs, kv).Some?
    ensures Gather(names, ts, kt).Some? ==> Vals(val, Gather(names, ts, kt).value) == Gather(names, vs, kv)
  {
    hide Denotes;
    if names != [] {
      var n := |names| - 1;
      GatherDenotes(val, ts, vs, kt, kv, names[..n]);
      LookupDenotes(val, ts, vs, kt, kv, names[n]);
      if Gather(names, ts, kt).Some? {
        var front := Gather(names[..n], ts, kt).value;
        var all := Gather(names, ts, kt).value;
        assert all == front + [Lookup(ts, kt, names[n]).value];
        assert all[..|all| - 1] == front;
      }
    }
  }

  lemma PutDenotes<V>(val: Term -> Option<V>, ts: Terms, vs: map<string, V>, x: string, t: Term, v: V)
    requires Denotes(val, ts, vs) && val(t) == Some(v)
    ensures Denotes(val, ts[x := t], vs[x := v])
  {
  }

  lemma {:induction false} PutAllDenotes<V>(val: Term -> Option<V>, ts: Terms, vs: map<string, V>, names: seq<string>, news: seq<Term>, vals: seq<V>)
    requires Denotes(val, ts, vs) && |names| == |news| == |vals|
    requires forall k :: 0 <= k < |names| ==> val(news[k]) == Some(vals[k])
    ensures Denotes(val, PutAll(ts, names, news), PutAll(vs, names, vals))
  {
    hide Denotes;
    if names != [] {
      var n := |names| - 1;
      PutAllDenotes(val, ts, vs, names[..n], news[..n], vals[..n]);
      PutDenotes(val, PutAll(ts, names[..n], news[..n]), PutAll(vs, names[..n], vals[..n]), names[n], news[n], vals[n]);
    }
  }

  lemma NothingDenotes<V>(val: Term -> Option<V>)
    ensures Denotes(val, map[], map[])
  {
  }

  lemma {:induction false} BindDenotes<V>(val: Term -> Option<V>, ts: Terms, vs: map<string, V>, kt: Terms, kv: map<string, V>,
                                          ins: seq<string>, aliases: seq<Alias>)
    requires Denotes(val, ts, vs) && Denotes(val, kt, kv)
    ensures BindInputs(ins, aliases, ts, kt).Some? <==> BindInputs(ins, aliases, vs, kv).Some?
    ensures BindInputs(ins, aliases, ts, kt).Some? ==>
      Denotes(val, BindInputs(ins, aliases, ts, kt).value, BindInputs(ins, aliases, vs, kv).value)
  {
    hide Denotes, AliasTo;
    if ins == [] {
      NothingDenotes(val);
    } else {
      var n := |ins| - 1;
      BindDenotes(val, ts, vs, kt, kv, ins[..n], aliases);
      LookupDenotes(val, ts, vs, kt, kv, ins[n]);
      if BindInputs(ins, aliases, ts, kt).Some? {
        PutDenotes(val, BindInputs(ins[..n], aliases, ts, kt).value, BindInputs(ins[..n], aliases, vs, kv).value,
                   AliasTo(aliases, ins[n]), Lookup(ts, kt, ins[n]).value, Lookup(vs, kv, ins[n]).value);
      }
    }
  }

  lemma {:induction false} CollectDenotes<V>(val: Term -> Option<V>, ts: Terms, vs: map<string, V>, kt: Terms, kv: map<string, V>,
                                             outs: seq<string>, aliases: seq<Alias>, ot: Terms, ov: map<string, V>)
    requires Denotes(val, ts, vs) && Denotes(val, kt, kv) && Denotes(val, ot, ov)
    ensures CollectOutputs(outs, aliases, ts, kt, ot).Some? <==> CollectOutputs(outs, aliases, vs, kv, ov).Some?
    ensures CollectOutputs(outs, aliases, ts, kt, ot).Some? ==>
      Denotes(val, CollectOutputs(outs, aliases, ts, kt, ot).value, CollectOutputs(outs, aliases, vs, kv, ov).value)
  {
    hide Denotes, AliasFrom;
    if outs != [] {
      var n := |outs| - 1;
      CollectDenotes(val, ts, vs, kt, kv, outs[..n], aliases, ot, ov);
      var inner := AliasFrom(aliases, outs[n]);
      LookupDenotes(val, ts, vs, kt, kv, inner);
      if CollectOutputs(outs, aliases, ts, kt, ot).Some? {
        PutDenotes(val, CollectOutputs(outs[..n], aliases, ts, kt, ot).value, CollectOutputs(outs[..n], aliases, vs, kv, ov).value,
                   outs[n], Lookup(ts, kt, inner).value, Lookup(vs, kv, inner).value);
      }
    }
  }

  // ---------------------------------------------------------------- runs over terms and runs over values

  /** An application on both sides: from a successful one over values, or from a logged one over terms. */
  lemma OperatorDenotes<V(!new)>(sem: Semantics<V>, val: Term -> Option<V>, ts: Terms, vs: map<string, V>, op: nat, args: seq<Term>,
                                 vals: seq<V>, outs: seq<string>)
    requires Respects(sem, val) && Denotes(val, ts, vs)
    requires Vals(val, args).Some? && sem(op, Vals(val, args).value) == Some(vals) && |vals| == |outs|
    ensures Denotes(val, PutAll(ts, outs, Results(op, args, |outs|)), PutAll(vs, outs, vals))
  {
    var news := Results(op, args, |outs|);
    forall k | 0 <= k < |outs| ensures val(news[k]) == Some(vals[k]) {
      assert val(Result(op, args, k)) == Output(sem, op, Vals(val, args), k);
    }
    PutAllDenotes(val, ts, vs, outs, news, vals);
  }

  /** What runs over values can be recorded, and the record denotes it. */
  lemma {:induction false} RunRecords<V(!new)>(sem: Semantics<V>, val: Term -> Option<V>, kt: Terms, kv: map<string, V>, n: Node, t: Trace, vs: map<string, V>)
    requires Respects(sem, val) && Denotes(val, kt, kv) && Denotes(val, t.store, vs) && Sound(sem, val, t.log)
    requires Run(sem, kv, n, vs).Some?
    ensures Record(kt, n, t).Some?
    ensures Denotes(val, Record(kt, n, t).value.store, Run(sem, kv, n, vs).value) && Sound(sem, val, Record(kt, n, t).value.log)
    decreases n, 1
  {
    hide Respects, Denotes;
    match n
    case Op(op, ins, attrs, outs) =>
      GatherDenotes(val, t.store, vs, kt, kv, ins + attrs);
      var args := Gather(ins + attrs, t.store, kt).value;
      var vals := sem(op, Vals(val, args).value).value;
      OperatorDenotes(sem, val, t.store, vs, op, args, vals, outs);
    case Composite(ins, outs, inAliases, outAliases, body) =>
      hide Sound;
      BindDenotes(val, t.store, vs, kt, kv, ins, inAliases);
      var (ct, cv) := (BindInputs(ins, inAliases, t.store, kt).value, BindInputs(ins, inAliases, vs, kv).value);
      RunAllRecords(sem, val, kt, kv, body, Trace(ct, t.log), cv);
      CollectDenotes(val, RecordAll(kt, body, Trace(ct, t.log)).value.store, RunAll(sem, kv, body, cv).value, kt, kv,
                     outs, outAliases, t.store, vs);
  }

  lemma {:induction false} RunAllRecords<V(!new)>(sem: Semantics<V>, val: Term -> Option<V>, kt: Terms, kv: map<string, V>, ns: seq<Node>, t: Trace, vs: map<string, V>)
    requires Respects(sem, val) && Denotes(val, kt, kv) && Denotes(val, t.store, vs) && Sound(sem, val, t.log)
    requires RunAll(sem, kv, ns, vs).Some?
    ensures RecordAll(kt, ns, t).Some?
    ensures Denotes(val, RecordAll(kt, ns, t).value.store, RunAll(sem, kv, ns, vs).value) && Sound(sem, val, RecordAll(kt, ns, t).value.log)
    decreases ns, 0
  {
    hide Respects, Denotes, Sound, Record, Run;
    if ns != [] {
      RunRecords(sem, val, kt, kv, ns[0], t, vs);
      RunAllRecords(sem, val, kt, kv, ns[1..], Record(kt, ns[0], t).value, Run(sem, kv, ns[0], vs).value);
    }
  }

  /** What runs over terms on a sound log runs over values. */
  lemma {:induction false} FreeRuns<V(!new)>(sem: Semantics<V>, val: Term -> Option<V>, kt: Terms, kv: map<string, V>, n: Node, log: Log, ts: Terms, vs: map<string, V>)
    requires Respects(sem, val) && Denotes(val, kt, kv) && Denotes(val, ts, vs) && Sound(sem, val, log)
    requires Run(Free(log), kt, n, ts).Some?
    ensures Run(sem, kv, n, vs).Some? && Denotes(val, Run(Free(log), kt, n, ts).value, Run(sem, kv, n, vs).value)
    decreases n, 1
  {
    hide Respects, Denotes;
    match n
    case Op(op, ins, attrs, outs) =>
      GatherDenotes(val, ts, vs, kt, kv, ins + attrs);
      var args := Gather(ins + attrs, ts, kt).value;
      assert (op, args) in log;
      OperatorDenotes(sem, val, ts, vs, op, args, sem(op, Vals(val, args).value).value, outs);
    case Composite(ins, outs, inAliases, outAliases, body) =>
      hide Sound;
      BindDenotes(val, ts, vs, kt, kv, ins, inAliases);
      var (ct, cv) := (BindInputs(ins, inAliases, ts, kt).value, BindInputs(ins, inAliases, vs, kv).value);
      FreeRunsAll(sem, val, kt, kv, body, log, ct, cv);
      CollectDenotes(val, RunAll(Free(log), kt, body, ct).value, RunAll(sem, kv, body, cv).value, kt, kv, outs, outAliases, ts, vs);
  }

  lemma {:induction false} FreeRunsAll<V(!new)>(sem: Semantics<V>, val: Term -> Option<V>, kt: Terms, kv: map<string, V>, ns: seq<Node>, log: Log, ts: Terms, vs: map<string, V>)
    requires Respects(sem, val) && Denotes(val, kt, kv) && Denotes(val, ts, vs) && Sound(sem, val, log)
    requires RunAll(Free(log), kt, ns, ts).Some?
    ensures RunAll(sem, kv, ns, vs).Some? && Denotes(val, RunAll(Free(log), kt, ns, ts).value, RunAll(sem, kv, ns, vs).value)
    decreases ns, 0
  {
    hide Respects, Denotes, Sound, Run, Free;
    if ns != [] {
      FreeRuns(sem, val, kt, kv, ns[0], log, ts, vs);
      FreeRunsAll(sem, val, kt, kv, ns[1..], log, Run(Free(log), kt, ns[0], ts).value, Run(sem, kv, ns[0], vs).value);
    }
  }

  // ---------------------------------------------------------------- one valuation

  function Value<V>(sem: Semantics<V>, consts: map<string, V>, inputs: map<string, V>, t: Term): Option<V>
    decreases t, 1
  {
    match t
    case Input(x) => if x in inputs then Some(inputs[x]) else None
    case Constant(x) => if x in consts then Some(consts[x]) else None
    case Result(op, args, k) => Output(sem, op, ValueAll(sem, consts, inputs, args), k)
  }

  function ValueAll<V>(sem: Semantics<V>, consts: map<string, V>, inputs: map<string, V>, ts: seq<Term>): (r: Option<seq<V>>)
    decreases ts, 0
  {
    if ts == [] then Some([])
    else
      match ValueAll(sem, consts, inputs, ts[..|ts| - 1])
      case None => None
      case Some(vs) =>
        match Value(sem, consts, inputs, ts[|ts| - 1])
        case None => None
        case Some(v) => Some(vs + [v])
  }

  function Valuation<V>(sem: Semantics<V>, consts: map<string, V>, inputs: map<string, V>): Term -> Option<V> {
    t => Value(sem, consts, inputs, t)
  }

  lemma {:induction false} ValueAllIsVals<V>(sem: Semantics<V>, consts: map<string, V>, inputs: map<string, V>, ts: seq<Term>)
    ensures ValueAll(sem, consts, inputs, ts) == Vals(Valuation(sem, consts, inputs), ts)
  {
    if ts != [] { ValueAllIsVals(sem, consts, inputs, ts[..|ts| - 1]); }
  }

  lemma ValuationRespects<V(!new)>(sem: Semantics<V>, consts: map<string, V>, inputs: map<string, V>)
    ensures Respects(sem, Valuation(sem, consts, inputs))
    ensures Denotes(Valuation(sem, consts, inputs), Constants(consts.Keys), consts)
    ensures Denotes(Valuation(sem, consts, inputs), Inputs(inputs.Keys), inputs)
  {
    var val := Valuation(sem, consts, inputs);
    forall op, args, k: nat ensures val(Result(op, args, k)) == Output(sem, op, Vals(val, args), k) {
      ValueAllIsVals(sem, consts, inputs, args);
    }
  }

  lemma KeptDenotes<V>(val: Term -> Option<V>, ot: Terms, pt: Terms, ov: map<string, V>, pv: map<string, V>)
    requires Kept(ot, pt) && Denotes(val, ot, ov) && Denotes(val, pt, pv)
    ensures Kept(ov, pv)
  {
    forall x | x in ov ensures x in pv && pv[x] == ov[x] {
      assert x in ov.Keys && x in ot.Keys && x in pt.Keys && x in pv.Keys;
    }
  }

  // ---------------------------------------------------------------- the test decides

  /** If the graph runs with its scopes, the flattened graph runs and keeps every value. */
  ghost predicate PreservedUnder<V>(sem: Semantics<V>, ns: seq<Node>, consts: map<string, V>, inputs: map<string, V>) {
    var (o, p) := (RunAll(sem, consts, ns, inputs), RunAll(sem, consts, Flattening.Flat(ns), inputs));
    o.Some? ==> p.Some? && Kept(o.value, p.value)
  }

  /** A graph that passes the test is preserved by flattening, whatever values there are and whatever the operators
      compute from them. */
  lemma SurvivorsPreserved<V(!new)>(sem: Semantics<V>, ns: seq<Node>, consts: map<string, V>, inputs: map<string, V>)
    requires Survives(ns, inputs.Keys, consts.Keys)
    ensures PreservedUnder(sem, ns, consts, inputs)
  {
    var val := Valuation(sem, consts, inputs);
    var (kt, it) := (Constants(consts.Keys), Inputs(inputs.Keys));
    ValuationRespects(sem, consts, inputs);
    hide Respects, Denotes, Valuation, RunAll, RecordAll, Free, Kept;
    if RunAll(sem, consts, ns, inputs).Some? {
      RunAllRecords(sem, val, kt, consts, ns, Trace(it, map[]), inputs);
      var t := RecordAll(kt, ns, Trace(it, map[])).value;
      FreeRunsAll(sem, val, kt, consts, Flattening.Flat(ns), t.log, it, inputs);
      KeptDenotes(val, t.store, RunAll(Free(t.log), kt, Flattening.Flat(ns), it).value,
                  RunAll(sem, consts, ns, inputs).value, RunAll(sem, consts, Flattening.Flat(ns), inputs).value);
    }
  }

  /** A graph that fails it is broken by flattening for some operators: those that compute the recorded terms. */
  lemma OthersBroken(ns: seq<Node>, inputs: set<string>, consts: set<string>) returns (sem: Semantics<Term>)
    requires !Survives(ns, inputs, consts)
    ensures !PreservedUnder(sem, ns, Constants(consts), Inputs(inputs))
  {
    var start := Trace(Inputs(inputs), map[]);
    var t := RecordAll(Constants(consts), ns, start).value;
    RecordAllRuns(Constants(consts), ns, start, t.log);
    sem := Free(t.log);
  }

  /** So the one symbolic run decides: flattening preserves a graph for all operators if and only if it passes. */
  lemma SurvivesIff(ns: seq<Node>, inputs: set<string>, consts: set<string>)
    ensures Survives(ns, inputs, consts) <==>
      forall sem: Semantics<Term> :: PreservedUnder(sem, ns, Constants(consts), Inputs(inputs))
  {
    hide Survives, PreservedUnder;
    assert Inputs(inputs).Keys == inputs && Constants(consts).Keys == consts;
    if Survives(ns, inputs, consts) {
      forall sem: Semantics<Term> ensures PreservedUnder(sem, ns, Constants(consts), Inputs(inputs)) {
        SurvivorsPreserved(sem, ns, Constants(consts), Inputs(inputs));
      }
    } else {
      var sem := OthersBroken(ns, inputs, consts);
    }
  }

  /** Hygiene is enough for the test. */
  lemma HygienicSurvive(ns: seq<Node>, inputs: set<string>, consts: set<string>)
    requires Flattening.GraphHygienic(ns, consts, inputs)
    ensures Survives(ns, inputs, consts)
  {
    var (kt, it) := (Constants(consts), Inputs(inputs));
    assert kt.Keys == consts && it.Keys == inputs;
    if RecordAll(kt, ns, Trace(it, map[])).Some? {
      var t := RecordAll(kt, ns, Trace(it, map[])).value;
      RecordAllRuns(kt, ns, Trace(it, map[]), t.log);
      Flattening.FlatteningPreserves(Free(t.log), ns, kt, inputs, it, it);
    }
  }
}
