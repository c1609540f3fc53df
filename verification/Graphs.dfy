/** Graph nodes over a value store, and `CompositeNode::execute` of src/nodes/composite_node.cpp:
    a sub-graph run in an isolated scope, with aliases at the border.

    What an operator computes is a parameter `sem`: it maps the operator and the values of the names
    it reads to one value per output, or fails. */
module Graphs {
  import opened Wrappers
  import opened ValueStores

  /** (from, to) */
  type Alias = (string, string)

  datatype Node =
    // `attrs` are the names read through attribute expressions rather than through the input list
    | Op(op: nat, ins: seq<string>, attrs: seq<string>, outs: seq<string>)
    | Composite(ins: seq<string>, outs: seq<string>, inAliases: seq<Alias>, outAliases: seq<Alias>, body: seq<Node>)

  type Semantics<!V> = (nat, seq<V>) -> Option<seq<V>>

  /** The last alias from `name` decides; no alias keeps the name. */
  function AliasTo(aliases: seq<Alias>, name: string): string {
    if aliases == [] then name
    else
      var (from, to) := aliases[|aliases| - 1];
      if from == name then to else AliasTo(aliases[..|aliases| - 1], name)
  }

  /** The last alias to `name` decides. */
  function AliasFrom(aliases: seq<Alias>, name: string): string {
    if aliases == [] then name
    else
      var (from, to) := aliases[|aliases| - 1];
      if to == name then from else AliasFrom(aliases[..|aliases| - 1], name)
  }

  function Gather<V>(names: seq<string>, locals: map<string, V>, consts: map<string, V>): Option<seq<V>> {
    if names == [] then Some([])
    else
      match Gather(names[..|names| - 1], locals, consts)
      case None => None
      case Some(vs) =>
        match Lookup(locals, consts, names[|names| - 1])
        case None => None
        case Some(v) => Some(vs + [v])
  }

  function PutAll<V>(locals: map<string, V>, names: seq<string>, vals: seq<V>): map<string, V>
    requires |names| == |vals|
  {
    if names == [] then locals
    else PutAll(locals, names[..|names| - 1], vals[..|vals| - 1])[names[|names| - 1] := vals[|vals| - 1]]
  }

  function BindInputs<V>(ins: seq<string>, aliases: seq<Alias>, outer: map<string, V>, consts: map<string, V>):
    Option<map<string, V>>
  {
    if ins == [] then Some(map[])
    else
      match BindInputs(ins[..|ins| - 1], aliases, outer, consts)
      case None => None
      case Some(child) =>
        match Lookup(outer, consts, ins[|ins| - 1])
        case None => None
        case Some(v) => Some(child[AliasTo(aliases, ins[|ins| - 1]) := v])
  }

  function CollectOutputs<V>(outs: seq<string>, aliases: seq<Alias>, child: map<string, V>, consts: map<string, V>,
                             outer: map<string, V>): Option<map<string, V>>
  {
    if outs == [] then Some(outer)
    else
      match CollectOutputs(outs[..|outs| - 1], aliases, child, consts, outer)
      case None => None
      case Some(m) =>
        match Lookup(child, consts, AliasFrom(aliases, outs[|outs| - 1]))
        case None => None
        case Some(v) => Some(m[outs[|outs| - 1] := v])
  }

  /** The local values after executing `n` in a store that holds `locals`. */
  function Run<V>(sem: Semantics<V>, consts: map<string, V>, n: Node, locals: map<string, V>): Option<map<string, V>>
    decreases n, 1
  {
    match n
    case Op(op, ins, attrs, outs) =>
      (match Gather(ins + attrs, locals, consts)
       case None => None
       case Some(args) =>
         match sem(op, args)
         case None => None
         case Some(vals) => if |vals| == |outs| then Some(PutAll(locals, outs, vals)) else None)
    case Composite(ins, outs, inAliases, outAliases, body) =>
      match BindInputs(ins, inAliases, locals, consts)
      case None => None
      case Some(child) =>
        match RunAll(sem, consts, body, child)
        case None => None
        case Some(child') => CollectOutputs(outs, outAliases, child', consts, locals)
  }

  function RunAll<V>(sem: Semantics<V>, consts: map<string, V>, ns: seq<Node>, locals: map<string, V>): Option<map<string, V>>
    decreases ns, 0
  {
    if ns == [] then Some(locals)
    else
      match Run(sem, consts, ns[0], locals)
      case None => None
      case Some(m) => RunAll(sem, consts, ns[1..], m)
  }

  // ---------------------------------------------------------------- the code

  /** Lines 12 and 13: the last entry for a key wins. */
  method AliasesByFrom(aliases: seq<Alias>) returns (m: map<string, string>)
    ensures forall x :: (if x in m then m[x] else x) == AliasTo(aliases, x)
  {
    m := map[];
    var i := 0;
    while i < |aliases|
      invariant 0 <= i <= |aliases|
      invariant forall x :: (if x in m then m[x] else x) == AliasTo(aliases[..i], x)
    {
      m := m[aliases[i].0 := aliases[i].1];
      assert aliases[..i + 1][..i] == aliases[..i];
      i := i + 1;
    }
    assert aliases[..i] == aliases;
  }

  method AliasesByTo(aliases: seq<Alias>) returns (m: map<string, string>)
    ensures forall x :: (if x in m then m[x] else x) == AliasFrom(aliases, x)
  {
    m := map[];
    var i := 0;
    while i < |aliases|
      invariant 0 <= i <= |aliases|
      invariant forall x :: (if x in m then m[x] else x) == AliasFrom(aliases[..i], x)
    {
      m := m[aliases[i].1 := aliases[i].0];
      assert aliases[..i + 1][..i] == aliases[..i];
      i := i + 1;
    }
    assert aliases[..i] == aliases;
  }

  method ReadAll<V>(names: seq<string>, vs: ValueStore<V>) returns (r: Option<seq<V>>)
    requires vs.Chained() && vs.parent == null
    ensures r == Gather(names, vs.values, vs.constants)
  {
    var args: seq<V> := [];
    var i := 0;
    while i < |names|
      invariant 0 <= i <= |names|
      invariant Gather(names[..i], vs.values, vs.constants) == Some(args)
    {
      assert names[..i + 1][..i] == names[..i];
      var v := vs.Get(names[i]);
      if v.None? {
        GatherStops(names, i, vs.values, vs.constants);
        return None;
      }
      args := args + [v.value];
      i := i + 1;
    }
    assert names[..i] == names;
    r := Some(args);
  }

  lemma {:induction false} GatherStops<V>(names: seq<string>, i: nat, locals: map<string, V>, consts: map<string, V>)
    requires i < |names| && Lookup(locals, consts, names[i]).None?
    ensures Gather(names, locals, consts).None?
  {
    if i < |names| - 1 {
      GatherStops(names[..|names| - 1], i, locals, consts);
    }
  }

  method WriteAll<V>(names: seq<string>, vals: seq<V>, vs: ValueStore<V>)
    requires |names| == |vals|
    modifies vs`values
    ensures vs.values == PutAll(old(vs.values), names, vals)
  {
    var i := 0;
    while i < |names|
      invariant 0 <= i <= |names|
      invariant vs.values == PutAll(old(vs.values), names[..i], vals[..i])
    {
      vs.Put(names[i], vals[i]);
      assert names[..i + 1][..i] == names[..i] && vals[..i + 1][..i] == vals[..i];
      i := i + 1;
    }
    assert names[..i] == names && vals[..i] == vals;
  }

  /** Lines 15-21. */
  method EnterScope<V>(ins: seq<string>, aliases: seq<Alias>, vs: ValueStore<V>) returns (child: Option<ValueStore<V>>)
    requires vs.Chained() && vs.parent == null
    ensures child.Some? ==> fresh(child.value) && child.value.Chained() && child.value.parent == null
    ensures child.Some? ==> child.value.constants == vs.constants
    ensures match BindInputs(ins, aliases, vs.values, vs.constants)
      case None => child.None?
      case Some(m) => child.Some? && child.value.values == m
  {
    var inAlias := AliasesByFrom(aliases);
    var c := vs.ChildScope(null);
    var i := 0;
    while i < |ins|
      invariant 0 <= i <= |ins|
      invariant BindInputs(ins[..i], aliases, vs.values, vs.constants) == Some(c.values)
    {
      assert ins[..i + 1][..i] == ins[..i];
      var v := vs.Get(ins[i]);
      if v.None? {
        BindStops(ins, i, aliases, vs.values, vs.constants);
        return None;
      }
      c.Put(if ins[i] in inAlias then inAlias[ins[i]] else ins[i], v.value);
      i := i + 1;
    }
    assert ins[..i] == ins;
    child := Some(c);
  }

  lemma {:induction false} BindStops<V>(ins: seq<string>, i: nat, aliases: seq<Alias>, outer: map<string, V>, consts: map<string, V>)
    requires i < |ins| && Lookup(outer, consts, ins[i]).None?
    ensures BindInputs(ins, aliases, outer, consts).None?
  {
    if i < |ins| - 1 {
      BindStops(ins[..|ins| - 1], i, aliases, outer, consts);
    }
  }

  /** Lines 27-32. */
  method LeaveScope<V>(outs: seq<string>, aliases: seq<Alias>, child: ValueStore<V>, vs: ValueStore<V>) returns (ok: bool)
    requires child != vs && child.Chained() && child.parent == null && child.constants == vs.constants
    modifies vs`values
    ensures match CollectOutputs(outs, aliases, child.values, vs.constants, old(vs.values))
      case None => !ok
      case Some(m) => ok && vs.values == m
  {
    var outAlias := AliasesByTo(aliases);
    var i := 0;
    while i < |outs|
      invariant 0 <= i <= |outs| && child.values == old(child.values)
      invariant CollectOutputs(outs[..i], aliases, child.values, vs.constants, old(vs.values)) == Some(vs.values)
    {
      assert outs[..i + 1][..i] == outs[..i];
      var v := child.Get(if outs[i] in outAlias then outAlias[outs[i]] else outs[i]);
      if v.None? {
        CollectStops(outs, i, aliases, child.values, vs.constants, old(vs.values));
        return false;
      }
      vs.Put(outs[i], v.value);
      i := i + 1;
    }
    assert outs[..i] == outs;
    ok := true;
  }

  lemma {:induction false} CollectStops<V>(outs: seq<string>, i: nat, aliases: seq<Alias>, child: map<string, V>,
                                           consts: map<string, V>, outer: map<string, V>)
    requires i < |outs| && Lookup(child, consts, AliasFrom(aliases, outs[i])).None?
    ensures CollectOutputs(outs, aliases, child, consts, outer).None?
  {
    if i < |outs| - 1 {
      CollectStops(outs[..|outs| - 1], i, aliases, child, consts, outer);
    }
  }

  /** `GraphNode::execute`: an operator, or a sub-graph in its own scope. */
  method Execute<V>(sem: Semantics<V>, n: Node, vs: ValueStore<V>) returns (ok: bool)
    requires vs.Chained() && vs.parent == null
    modifies vs`values
    ensures match Run(sem, vs.constants, n, old(vs.values))
      case None => !ok
      case Some(m) => ok && vs.values == m
    decreases n, 1
  {
    match n
    case Op(op, ins, attrs, outs) =>
      var args := ReadAll(ins + attrs, vs);
      if args.None? { return false; }
      var vals := sem(op, args.value);
      if vals.None? || |vals.value| != |outs| { return false; }
      WriteAll(outs, vals.value, vs);
      ok := true;
    case Composite(ins, outs, inAliases, outAliases, body) =>
      var child := EnterScope(ins, inAliases, vs);
      if child.None? { return false; }
      ok := ExecuteAll(sem, body, child.value);
      if !ok { return; }
      ok := LeaveScope(outs, outAliases, child.value, vs);
  }

  method ExecuteAll<V>(sem: Semantics<V>, ns: seq<Node>, vs: ValueStore<V>) returns (ok: bool)
    requires vs.Chained() && vs.parent == null
    modifies vs`values
    ensures match RunAll(sem, vs.constants, ns, old(vs.values))
      case None => !ok
      case Some(m) => ok && vs.values == m
    decreases ns, 0
  {
    var i := 0;
    while i < |ns|
      invariant 0 <= i <= |ns|
      invariant RunAll(sem, vs.constants, ns[i..], vs.values) == RunAll(sem, vs.constants, ns, old(vs.values))
    {
      assert ns[i..][0] == ns[i] && ns[i..][1..] == ns[i + 1..];
      ok := Execute(sem, ns[i], vs);
      if !ok { return; }
      i := i + 1;
    }
    ok := true;
  }
}
