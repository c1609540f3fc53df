/** The load-time rewrite of src/graph_loader.cpp that inlines every composite node into its parent,
    renaming at the border instead of opening a scope, and when that preserves what the graph computes. */
module Flattening {
  import opened Wrappers
  import opened ValueStores
  import opened Graphs

  // ---------------------------------------------------------------- the rewrite

  /** The last input alias to `x`, identity aliases skipped. */
  function RenameIn(aliases: seq<Alias>, x: string): string {
    if aliases == [] then x
    else
      var (from, to) := aliases[|aliases| - 1];
      if from != to && to == x then from else RenameIn(aliases[..|aliases| - 1], x)
  }

  /** Output aliases overwrite input aliases; identity aliases are skipped. */
  function RenameBoth(inAliases: seq<Alias>, outAliases: seq<Alias>, x: string): string {
    if outAliases == [] then RenameIn(inAliases, x)
    else
      var (from, to) := outAliases[|outAliases| - 1];
      if from != to && from == x then to else RenameBoth(inAliases, outAliases[..|outAliases| - 1], x)
  }

  /** What the loader calls the inner name `x` of composite `c` after flattening. */
  function Renamed(c: Node, x: string): string
    requires c.Composite?
  {
    RenameBoth(c.inAliases, c.outAliases, x)
  }

  function RenameAll(c: Node, names: seq<string>): (r: seq<string>)
    requires c.Composite?
    ensures |r| == |names| && forall i :: 0 <= i < |names| ==> r[i] == Renamed(c, names[i])
  {
    seq(|names|, i requires 0 <= i < |names| => Renamed(c, names[i]))
  }

  /** Only the input and output lists are renamed: not attributes, and not aliases of a nested composite. */
  function RenameNode(c: Node, n: Node): Node
    requires c.Composite?
  {
    n.(ins := RenameAll(c, n.ins), outs := RenameAll(c, n.outs))
  }

  function RenameBody(c: Node, body: seq<Node>): (r: seq<Node>)
    requires c.Composite?
    ensures |r| == |body| && forall i :: 0 <= i < |body| ==> r[i] == RenameNode(c, body[i])
  {
    seq(|body|, i requires 0 <= i < |body| => RenameNode(c, body[i]))
  }

  function Flat(ns: seq<Node>): seq<Node> {
    if ns == [] then []
    else (if ns[0].Composite? then RenameBody(ns[0], ns[0].body) else [ns[0]]) + Flat(ns[1..])
  }

  /** Lines 2123-2130. */
  method BuildRename(inAliases: seq<Alias>, outAliases: seq<Alias>) returns (rename: map<string, string>)
    ensures forall x :: (if x in rename then rename[x] else x) == RenameBoth(inAliases, outAliases, x)
  {
    rename := map[];
    var i := 0;
    while i < |inAliases|
      invariant 0 <= i <= |inAliases|
      invariant forall x :: (if x in rename then rename[x] else x) == RenameIn(inAliases[..i], x)
    {
      assert inAliases[..i + 1][..i] == inAliases[..i];
      if inAliases[i].0 != inAliases[i].1 { rename := rename[inAliases[i].1 := inAliases[i].0]; }
      i := i + 1;
    }
    assert inAliases[..i] == inAliases;
    i := 0;
    while i < |outAliases|
      invariant 0 <= i <= |outAliases|
      invariant forall x :: (if x in rename then rename[x] else x) == RenameBoth(inAliases, outAliases[..i], x)
    {
      assert outAliases[..i + 1][..i] == outAliases[..i];
      if outAliases[i].0 != outAliases[i].1 { rename := rename[outAliases[i].0 := outAliases[i].1]; }
      i := i + 1;
    }
    assert outAliases[..i] == outAliases;
  }

  method RenameNames(names: seq<string>, rename: map<string, string>) returns (r: seq<string>)
    ensures |r| == |names|
    ensures forall i :: 0 <= i < |names| ==> r[i] == if names[i] in rename then rename[names[i]] else names[i]
  {
    r := names;
    var i := 0;
    while i < |names|
      invariant 0 <= i <= |names| == |r|
      invariant forall j :: 0 <= j < |names| ==>
        r[j] == if j < i && names[j] in rename then rename[names[j]] else names[j]
    {
      if r[i] in rename { r := r[i := rename[r[i]]]; }
      i := i + 1;
    }
  }

  lemma {:induction false} FlatSplits(a: seq<Node>, b: seq<Node>)
    ensures Flat(a + b) == Flat(a) + Flat(b)
  {
    if a == [] {
      assert a + b == b;
    } else {
      assert (a + b)[1..] == a[1..] + b;
      FlatSplits(a[1..], b);
    }
  }

  /** Lines 2132-2138: the children of one composite, renamed, at the end of `flat`. */
  method InlineBody(cn: Node, flat: seq<Node>) returns (r: seq<Node>)
    requires cn.Composite?
    ensures r == flat + RenameBody(cn, cn.body)
  {
    r := flat;
    var rename := BuildRename(cn.inAliases, cn.outAliases);
    var j := 0;
    while j < |cn.body|
      invariant 0 <= j <= |cn.body|
      invariant r == flat + RenameBody(cn, cn.body)[..j]
    {
      var child := cn.body[j];
      var ins := RenameNames(child.ins, rename);
      var outs := RenameNames(child.outs, rename);
      assert ins == RenameAll(cn, child.ins) && outs == RenameAll(cn, child.outs);
      r := r + [child.(ins := ins, outs := outs)];
      j := j + 1;
    }
  }

  /** Lines 2112-2141. */
  method Flatten(nodes: seq<Node>) returns (flat: seq<Node>)
    ensures flat == Flat(nodes)
  {
    flat := [];
    var i := 0;
    while i < |nodes|
      invariant 0 <= i <= |nodes|
      invariant flat == Flat(nodes[..i])
    {
      var cn := nodes[i];
      FlatSplits(nodes[..i], [cn]);
      assert nodes[..i + 1] == nodes[..i] + [cn];
      assert [cn][1..] == [];
      if cn.Composite? {
        flat := InlineBody(cn, flat);
      } else {
        flat := flat + [cn];
      }
      i := i + 1;
    }
    assert nodes[..i] == nodes;
  }

  // ---------------------------------------------------------------- hygiene

  /** Names the nodes write. */
  function Writes(ns: seq<Node>): set<string> {
    set i, j | 0 <= i < |ns| && 0 <= j < |ns[i].outs| :: ns[i].outs[j]
  }

  /** Names the nodes read by themselves, through inputs or attributes. */
  function Reads(ns: seq<Node>): set<string> {
    (set i, j | 0 <= i < |ns| && 0 <= j < |ns[i].ins| :: ns[i].ins[j]) + AttrReads(ns)
  }

  function AttrReads(ns: seq<Node>): set<string> {
    set i, j | 0 <= i < |ns| && ns[i].Op? && 0 <= j < |ns[i].attrs| :: ns[i].attrs[j]
  }

  /** Inner names that hold the inputs. */
  function InnerInputs(c: Node): set<string>
    requires c.Composite?
  {
    set i | 0 <= i < |c.ins| :: AliasTo(c.inAliases, c.ins[i])
  }

  /** Every input comes back to the name it came from. */
  predicate InputsReturn(c: Node)
    requires c.Composite?
  {
    forall i :: 0 <= i < |c.ins| ==> Renamed(c, AliasTo(c.inAliases, c.ins[i])) == c.ins[i]
  }

  /** Every output is written by the body under a name that is renamed to it. */
  predicate OutputsWritten(c: Node)
    requires c.Composite?
  {
    forall i :: 0 <= i < |c.outs| ==>
      var inner := AliasFrom(c.outAliases, c.outs[i]);
      inner in Writes(c.body) && Renamed(c, inner) == c.outs[i]
  }

  /** A written name never shares its new name with another name of the scope. */
  predicate RenameInjective(c: Node)
    requires c.Composite?
  {
    forall w, x :: w in Writes(c.body) && x in Writes(c.body) + InnerInputs(c) && x != w ==>
      Renamed(c, x) != Renamed(c, w)
  }

  /** Names private to the body do not collide with names of the parent. */
  predicate PrivateFresh(c: Node, visible: set<string>)
    requires c.Composite?
  {
    forall w :: w in Writes(c.body) ==> Renamed(c, w) in c.outs || Renamed(c, w) !in visible
  }

  /** The body never writes a constant's name, and the constants it reads keep their names. */
  predicate ConstantsApart(c: Node, consts: set<string>, visible: set<string>)
    requires c.Composite?
  {
    && (forall w :: w in Writes(c.body) ==> w !in consts && Renamed(c, w) !in consts)
    && (forall x :: x in Reads(c.body) && x in consts && x !in InnerInputs(c) ==> Renamed(c, x) == x && x !in visible)
  }

  /** Names read through attributes are not renamed. */
  predicate AttributesStable(c: Node)
    requires c.Composite?
  {
    forall x :: x in AttrReads(c.body) ==> Renamed(c, x) == x
  }

  /** Renaming the border of a nested composite does not change how its aliases resolve. */
  predicate NestedStable(c: Node)
    requires c.Composite?
  {
    forall i :: 0 <= i < |c.body| && c.body[i].Composite? ==>
      var n := c.body[i];
      && (forall j :: 0 <= j < |n.ins| ==> AliasTo(n.inAliases, Renamed(c, n.ins[j])) == AliasTo(n.inAliases, n.ins[j]))
      && (forall j :: 0 <= j < |n.outs| ==> AliasFrom(n.outAliases, Renamed(c, n.outs[j])) == AliasFrom(n.outAliases, n.outs[j]))
  }

  predicate Hygienic(c: Node, consts: set<string>, visible: set<string>) {
    c.Composite? ==>
      InputsReturn(c) && OutputsWritten(c) && RenameInjective(c) && PrivateFresh(c, visible) &&
      ConstantsApart(c, consts, visible) && AttributesStable(c) && NestedStable(c)
  }

  /** Every composite is hygienic where it stands: `visible` grows with the outputs of earlier nodes. */
  predicate GraphHygienic(ns: seq<Node>, consts: set<string>, visible: set<string>) {
    ns == [] ||
    (Hygienic(ns[0], consts, visible) && GraphHygienic(ns[1..], consts, visible + (set j | 0 <= j < |ns[0].outs| :: ns[0].outs[j])))
  }

  // ---------------------------------------------------------------- inside one composite

  /** Names the body's scope can hold. */
  ghost function Names(c: Node): set<string>
    requires c.Composite?
  {
    Writes(c.body) + InnerInputs(c)
  }

  /** The parent store `p` holds, under new names, what the isolated scope `ch` holds. */
  ghost predicate Simulates<V>(c: Node, consts: map<string, V>, ch: map<string, V>, p: map<string, V>)
    requires c.Composite?
  {
    && ch.Keys <= Names(c) && InnerInputs(c) <= ch.Keys
    && (forall x :: x in ch ==> Lookup(p, consts, Renamed(c, x)) == Some(ch[x]))
    && (forall x :: x in Reads(c.body) && x in consts && x !in InnerInputs(c) ==> x !in p)
  }

  /** Only new names of written names changed. */
  ghost predicate Framed<V>(c: Node, before: map<string, V>, after: map<string, V>)
    requires c.Composite?
  {
    forall x :: (forall w :: w in Writes(c.body) ==> Renamed(c, w) != x) ==>
      (x in before <==> x in after) && (x in before ==> before[x] == after[x])
  }

  /** What hygiene says about names that the parent's visible names play no part in. */
  ghost predicate BodyHygienic<V>(c: Node, consts: map<string, V>)
    requires c.Composite?
  {
    && RenameInjective(c) && AttributesStable(c) && NestedStable(c)
    && (forall w :: w in Writes(c.body) ==> Renamed(c, w) !in consts)
    && (forall x :: x in Reads(c.body) && x in consts && x !in InnerInputs(c) ==> Renamed(c, x) == x)
  }

  lemma ReadAgrees<V>(c: Node, consts: map<string, V>, ch: map<string, V>, p: map<string, V>, x: string)
    requires c.Composite? && BodyHygienic(c, consts) && Simulates(c, consts, ch, p)
    requires x in Reads(c.body) && Lookup(ch, consts, x).Some?
    ensures Lookup(p, consts, Renamed(c, x)) == Lookup(ch, consts, x)
  {
  }

  lemma {:induction false} GatherAgrees<V>(c: Node, consts: map<string, V>, ch: map<string, V>, p: map<string, V>, names: seq<string>)
    requires c.Composite? && BodyHygienic(c, consts) && Simulates(c, consts, ch, p)
    requires forall i :: 0 <= i < |names| ==> names[i] in Reads(c.body)
    requires Gather(names, ch, consts).Some?
    ensures Gather(RenameAll(c, names), p, consts) == Gather(names, ch, consts)
  {
    hide BodyHygienic, Simulates, Reads;
    if names != [] {
      var front := names[..|names| - 1];
      GatherAgrees(c, consts, ch, p, front);
      assert RenameAll(c, names)[..|names| - 1] == RenameAll(c, front);
      ReadAgrees(c, consts, ch, p, names[|names| - 1]);
    }
  }

  lemma PutAgrees<V>(c: Node, consts: map<string, V>, ch: map<string, V>, p: map<string, V>, w: string, v: V)
    requires c.Composite? && BodyHygienic(c, consts) && Simulates(c, consts, ch, p) && w in Writes(c.body)
    ensures Simulates(c, consts, ch[w := v], p[Renamed(c, w) := v])
    ensures Framed(c, p, p[Renamed(c, w) := v])
  {
  }

  lemma FramedTransitive<V>(c: Node, p0: map<string, V>, p1: map<string, V>, p2: map<string, V>)
    requires c.Composite? && Framed(c, p0, p1) && Framed(c, p1, p2)
    ensures Framed(c, p0, p2)
  {
  }

  lemma {:induction false} PutAllAgrees<V>(c: Node, consts: map<string, V>, ch: map<string, V>, p: map<string, V>,
                                           names: seq<string>, vals: seq<V>)
    requires c.Composite? && BodyHygienic(c, consts) && Simulates(c, consts, ch, p) && |names| == |vals|
    requires forall i :: 0 <= i < |names| ==> names[i] in Writes(c.body)
    ensures Simulates(c, consts, PutAll(ch, names, vals), PutAll(p, RenameAll(c, names), vals))
    ensures Framed(c, p, PutAll(p, RenameAll(c, names), vals))
  {
    hide BodyHygienic, Simulates, Framed, Writes;
    if names == [] {
      assert Framed(c, p, p) by { FramedReflexive(c, p); }
    } else {
      var n := |names| - 1;
      PutAllAgrees(c, consts, ch, p, names[..n], vals[..n]);
      assert RenameAll(c, names)[..n] == RenameAll(c, names[..n]);
      var ch', p' := PutAll(ch, names[..n], vals[..n]), PutAll(p, RenameAll(c, names[..n]), vals[..n]);
      PutAgrees(c, consts, ch', p', names[n], vals[n]);
      FramedTransitive(c, p, p', p'[Renamed(c, names[n]) := vals[n]]);
    }
  }

  lemma FramedReflexive<V>(c: Node, p: map<string, V>)
    requires c.Composite?
    ensures Framed(c, p, p)
  {
  }

  lemma {:induction false} NestedBindAgrees<V>(c: Node, consts: map<string, V>, ch: map<string, V>, p: map<string, V>,
                                               ins: seq<string>, aliases: seq<Alias>)
    requires c.Composite? && BodyHygienic(c, consts) && Simulates(c, consts, ch, p)
    requires forall i :: 0 <= i < |ins| ==> ins[i] in Reads(c.body)
    requires forall i :: 0 <= i < |ins| ==> AliasTo(aliases, Renamed(c, ins[i])) == AliasTo(aliases, ins[i])
    requires BindInputs(ins, aliases, ch, consts).Some?
    ensures BindInputs(RenameAll(c, ins), aliases, p, consts) == BindInputs(ins, aliases, ch, consts)
  {
    hide BodyHygienic, Simulates, Reads, AliasTo;
    if ins != [] {
      var n := |ins| - 1;
      NestedBindAgrees(c, consts, ch, p, ins[..n], aliases);
      assert RenameAll(c, ins)[..n] == RenameAll(c, ins[..n]);
      ReadAgrees(c, consts, ch, p, ins[n]);
    }
  }

  lemma {:induction false} NestedCollectAgrees<V>(c: Node, consts: map<string, V>, ch: map<string, V>, p: map<string, V>,
                                                  outs: seq<string>, aliases: seq<Alias>, inner: map<string, V>)
    requires c.Composite? && BodyHygienic(c, consts) && Simulates(c, consts, ch, p)
    requires forall i :: 0 <= i < |outs| ==> outs[i] in Writes(c.body)
    requires forall i :: 0 <= i < |outs| ==> AliasFrom(aliases, Renamed(c, outs[i])) == AliasFrom(aliases, outs[i])
    requires CollectOutputs(outs, aliases, inner, consts, ch).Some?
    ensures CollectOutputs(RenameAll(c, outs), aliases, inner, consts, p).Some?
    ensures Simulates(c, consts, CollectOutputs(outs, aliases, inner, consts, ch).value,
                      CollectOutputs(RenameAll(c, outs), aliases, inner, consts, p).value)
    ensures Framed(c, p, CollectOutputs(RenameAll(c, outs), aliases, inner, consts, p).value)
  {
    hide BodyHygienic, Simulates, Framed, Writes, AliasFrom;
    if outs == [] {
      FramedReflexive(c, p);
    } else {
      var n := |outs| - 1;
      NestedCollectAgrees(c, consts, ch, p, outs[..n], aliases, inner);
      assert RenameAll(c, outs)[..n] == RenameAll(c, outs[..n]);
      var ch' := CollectOutputs(outs[..n], aliases, inner, consts, ch).value;
      var p' := CollectOutputs(RenameAll(c, outs[..n]), aliases, inner, consts, p).value;
      var v := Lookup(inner, consts, AliasFrom(aliases, outs[n])).value;
      PutAgrees(c, consts, ch', p', outs[n], v);
      FramedTransitive(c, p, p', p'[Renamed(c, outs[n]) := v]);
    }
  }

  /** What node k of the body names is among what the body names. */
  lemma NamesOf(c: Node, k: nat)
    requires c.Composite? && k < |c.body|
    ensures forall i :: 0 <= i < |c.body[k].ins| ==> c.body[k].ins[i] in Reads(c.body)
    ensures forall i :: 0 <= i < |c.body[k].outs| ==> c.body[k].outs[i] in Writes(c.body)
    ensures c.body[k].Op? ==> forall i :: 0 <= i < |c.body[k].attrs| ==>
      c.body[k].attrs[i] in AttrReads(c.body) && c.body[k].attrs[i] in Reads(c.body)
  {
  }

  lemma OperatorNodeAgrees<V>(sem: Semantics<V>, c: Node, consts: map<string, V>, k: nat, ch: map<string, V>, p: map<string, V>)
    requires c.Composite? && BodyHygienic(c, consts) && Simulates(c, consts, ch, p) && k < |c.body| && c.body[k].Op?
    requires Run(sem, consts, c.body[k], ch).Some?
    ensures Run(sem, consts, RenameNode(c, c.body[k]), p).Some?
    ensures Simulates(c, consts, Run(sem, consts, c.body[k], ch).value, Run(sem, consts, RenameNode(c, c.body[k]), p).value)
    ensures Framed(c, p, Run(sem, consts, RenameNode(c, c.body[k]), p).value)
  {
    var n := c.body[k];
    NamesOf(c, k);
    assert RenameAll(c, n.ins) + n.attrs == RenameAll(c, n.ins + n.attrs) by { hide Renamed; AttributesKept(c, consts, k); }
    hide Simulates, Framed, BodyHygienic, Reads, Writes, AttrReads;
    forall i | 0 <= i < |n.ins + n.attrs| ensures (n.ins + n.attrs)[i] in Reads(c.body) { }
    GatherAgrees(c, consts, ch, p, n.ins + n.attrs);
    var vals := sem(n.op, Gather(n.ins + n.attrs, ch, consts).value).value;
    PutAllAgrees(c, consts, ch, p, n.outs, vals);
  }

  lemma AttributesKept<V>(c: Node, consts: map<string, V>, k: nat)
    requires c.Composite? && BodyHygienic(c, consts) && k < |c.body| && c.body[k].Op?
    ensures forall i :: 0 <= i < |c.body[k].attrs| ==> Renamed(c, c.body[k].attrs[i]) == c.body[k].attrs[i]
  {
    NamesOf(c, k);
  }

  /** One node of the body, in its own scope and renamed in the parent. */
  lemma NodeAgrees<V>(sem: Semantics<V>, c: Node, consts: map<string, V>, k: nat, ch: map<string, V>, p: map<string, V>)
    requires c.Composite? && BodyHygienic(c, consts) && Simulates(c, consts, ch, p) && k < |c.body|
    requires Run(sem, consts, c.body[k], ch).Some?
    ensures Run(sem, consts, RenameNode(c, c.body[k]), p).Some?
    ensures Simulates(c, consts, Run(sem, consts, c.body[k], ch).value, Run(sem, consts, RenameNode(c, c.body[k]), p).value)
    ensures Framed(c, p, Run(sem, consts, RenameNode(c, c.body[k]), p).value)
  {
    var n := c.body[k];
    if n.Op? {
      hide *;
      OperatorNodeAgrees(sem, c, consts, k, ch, p);
    } else {
      NamesOf(c, k);
      hide Simulates, Framed, Reads, Writes;
      NestedBindAgrees(c, consts, ch, p, n.ins, n.inAliases);
      var inner := RunAll(sem, consts, n.body, BindInputs(n.ins, n.inAliases, ch, consts).value).value;
      NestedCollectAgrees(c, consts, ch, p, n.outs, n.outAliases, inner);
    }
  }

  lemma {:induction false} BodyAgrees<V>(sem: Semantics<V>, c: Node, consts: map<string, V>, k: nat, ch: map<string, V>, p: map<string, V>)
    requires c.Composite? && BodyHygienic(c, consts) && Simulates(c, consts, ch, p) && k <= |c.body|
    requires RunAll(sem, consts, c.body[k..], ch).Some?
    ensures RunAll(sem, consts, RenameBody(c, c.body)[k..], p).Some?
    ensures Simulates(c, consts, RunAll(sem, consts, c.body[k..], ch).value,
                      RunAll(sem, consts, RenameBody(c, c.body)[k..], p).value)
    ensures Framed(c, p, RunAll(sem, consts, RenameBody(c, c.body)[k..], p).value)
    decreases |c.body| - k
  {
    hide BodyHygienic, Simulates, Framed, Run;
    if k == |c.body| {
      FramedReflexive(c, p);
    } else {
      assert c.body[k..][1..] == c.body[k + 1..];
      var flat := RenameBody(c, c.body);
      assert flat[k..][0] == RenameNode(c, c.body[k]) && flat[k..][1..] == flat[k + 1..];
      NodeAgrees(sem, c, consts, k, ch, p);
      var ch', p' := Run(sem, consts, c.body[k], ch).value, Run(sem, consts, flat[k], p).value;
      BodyAgrees(sem, c, consts, k + 1, ch', p');
      FramedTransitive(c, p, p', RunAll(sem, consts, flat[k + 1..], p').value);
    }
  }

  // ---------------------------------------------------------------- the whole graph

  /** The flattened store holds what the original holds; anything else in it is private and hides no constant. */
  ghost predicate Extends<V>(consts: map<string, V>, o: map<string, V>, p: map<string, V>) {
    && (forall x :: x in o ==> x in p && p[x] == o[x])
    && (forall x :: x in p && x !in o ==> x !in consts)
  }

  lemma {:induction false} EnterAgrees<V>(c: Node, consts: map<string, V>, o: map<string, V>, k: nat)
    requires c.Composite? && InputsReturn(c) && k <= |c.ins|
    requires BindInputs(c.ins[..k], c.inAliases, o, consts).Some?
    ensures var ch := BindInputs(c.ins[..k], c.inAliases, o, consts).value;
      && ch.Keys == (set i | 0 <= i < k :: AliasTo(c.inAliases, c.ins[i]))
      && (forall x :: x in ch ==> Lookup(o, consts, Renamed(c, x)) == Some(ch[x]))
  {
    hide AliasTo, RenameBoth;
    if k > 0 {
      assert c.ins[..k][..k - 1] == c.ins[..k - 1];
      EnterAgrees(c, consts, o, k - 1);
      var ch := BindInputs(c.ins[..k], c.inAliases, o, consts).value;
      assert Renamed(c, AliasTo(c.inAliases, c.ins[k - 1])) == c.ins[k - 1];
      assert ch.Keys == (set i | 0 <= i < k - 1 :: AliasTo(c.inAliases, c.ins[i])) + {AliasTo(c.inAliases, c.ins[k - 1])};
    }
  }

  lemma ScopeStarts<V>(c: Node, consts: map<string, V>, visible: set<string>, o: map<string, V>, p: map<string, V>)
    requires c.Composite? && Hygienic(c, consts.Keys, visible) && o.Keys <= visible && Extends(consts, o, p)
    requires BindInputs(c.ins, c.inAliases, o, consts).Some?
    ensures Simulates(c, consts, BindInputs(c.ins, c.inAliases, o, consts).value, p)
    ensures BodyHygienic(c, consts)
  {
    hide AliasTo, RenameBoth, RenameInjective, AttributesStable, NestedStable, OutputsWritten;
    assert c.ins[..|c.ins|] == c.ins;
    EnterAgrees(c, consts, o, |c.ins|);
  }

  lemma {:induction false} CollectShape<V>(outs: seq<string>, aliases: seq<Alias>, child: map<string, V>,
                                           consts: map<string, V>, o: map<string, V>)
    requires CollectOutputs(outs, aliases, child, consts, o).Some?
    ensures var o' := CollectOutputs(outs, aliases, child, consts, o).value;
      && o'.Keys == o.Keys + (set i | 0 <= i < |outs| :: outs[i])
      && (forall x :: x in o' && x in outs ==> Lookup(child, consts, AliasFrom(aliases, x)) == Some(o'[x]))
      && (forall x :: x in o' && x !in outs ==> x in o && o'[x] == o[x])
  {
    hide AliasFrom;
    if outs != [] {
      var n := |outs| - 1;
      CollectShape(outs[..n], aliases, child, consts, o);
      assert outs == outs[..n] + [outs[n]];
    }
  }

  /** An output of the composite has arrived under its parent name. */
  lemma OutputArrives<V>(c: Node, consts: map<string, V>, visible: set<string>, ch: map<string, V>, p: map<string, V>, x: string)
    requires c.Composite? && Hygienic(c, consts.Keys, visible) && Simulates(c, consts, ch, p)
    requires x in c.outs && Lookup(ch, consts, AliasFrom(c.outAliases, x)).Some?
    ensures x in p && Some(p[x]) == Lookup(ch, consts, AliasFrom(c.outAliases, x))
  {
    hide AliasFrom, AliasTo, RenameBoth, RenameInjective, AttributesStable, NestedStable, InputsReturn, PrivateFresh, Writes, Reads;
    var i :| 0 <= i < |c.outs| && c.outs[i] == x;
    var inner := AliasFrom(c.outAliases, c.outs[i]);
    assert inner in Writes(c.body) && Renamed(c, inner) == x;
  }

  /** A visible name that is no output is not touched. */
  lemma OthersStay<V>(c: Node, consts: map<string, V>, visible: set<string>, p: map<string, V>, p': map<string, V>, x: string)
    requires c.Composite? && Hygienic(c, consts.Keys, visible) && Framed(c, p, p')
    requires x in visible && x !in c.outs
    ensures x in p <==> x in p'
    ensures x in p ==> p[x] == p'[x]
  {
    hide AliasFrom, AliasTo, RenameBoth, RenameInjective, AttributesStable, NestedStable, InputsReturn, OutputsWritten, ConstantsApart, Writes, Reads;
  }

  /** What else is in the parent store hides no constant. */
  lemma NewHidesNothing<V>(c: Node, consts: map<string, V>, visible: set<string>, p: map<string, V>, p': map<string, V>, x: string)
    requires c.Composite? && Hygienic(c, consts.Keys, visible) && Framed(c, p, p')
    requires x in p' && (x in p ==> x !in consts)
    ensures x !in consts
  {
    hide AliasFrom, AliasTo, RenameBoth, RenameInjective, AttributesStable, NestedStable, InputsReturn, OutputsWritten, PrivateFresh, Writes, Reads;
    if w :| w in Writes(c.body) && Renamed(c, w) == x { assert Renamed(c, w) !in consts.Keys; }
  }

  lemma LeaveAgrees<V>(c: Node, consts: map<string, V>, visible: set<string>, o: map<string, V>, p: map<string, V>,
                       ch: map<string, V>, p': map<string, V>)
    requires c.Composite? && Hygienic(c, consts.Keys, visible) && o.Keys <= visible && Extends(consts, o, p)
    requires Simulates(c, consts, ch, p') && Framed(c, p, p')
    requires CollectOutputs(c.outs, c.outAliases, ch, consts, o).Some?
    ensures Extends(consts, CollectOutputs(c.outs, c.outAliases, ch, consts, o).value, p')
  {
    hide AliasFrom, Hygienic, Simulates, Framed, CollectOutputs;
    CollectShape(c.outs, c.outAliases, ch, consts, o);
    var o' := CollectOutputs(c.outs, c.outAliases, ch, consts, o).value;
    forall x | x in o' ensures x in p' && p'[x] == o'[x] {
      if x in c.outs { OutputArrives(c, consts, visible, ch, p', x); } else { OthersStay(c, consts, visible, p, p', x); }
    }
    forall x | x in p' && x !in o' ensures x !in consts {
      assert x !in o;
      NewHidesNothing(c, consts, visible, p, p', x);
    }
  }

  lemma CompositeAgrees<V>(sem: Semantics<V>, c: Node, consts: map<string, V>, visible: set<string>,
                           o: map<string, V>, p: map<string, V>)
    requires c.Composite? && Hygienic(c, consts.Keys, visible) && o.Keys <= visible && Extends(consts, o, p)
    requires Run(sem, consts, c, o).Some?
    ensures RunAll(sem, consts, RenameBody(c, c.body), p).Some?
    ensures Extends(consts, Run(sem, consts, c, o).value, RunAll(sem, consts, RenameBody(c, c.body), p).value)
    ensures Run(sem, consts, c, o).value.Keys <= visible + (set j | 0 <= j < |c.outs| :: c.outs[j])
  {
    hide Hygienic, BodyHygienic, Simulates, Framed, Extends, RenameBody;
    var ch := BindInputs(c.ins, c.inAliases, o, consts).value;
    ScopeStarts(c, consts, visible, o, p);
    assert c.body[0..] == c.body && RenameBody(c, c.body)[0..] == RenameBody(c, c.body);
    BodyAgrees(sem, c, consts, 0, ch, p);
    var ch' := RunAll(sem, consts, c.body, ch).value;
    LeaveAgrees(c, consts, visible, o, p, ch', RunAll(sem, consts, RenameBody(c, c.body), p).value);
    CollectShape(c.outs, c.outAliases, ch', consts, o);
  }

  lemma {:induction false} GatherExtends<V>(names: seq<string>, consts: map<string, V>, o: map<string, V>, p: map<string, V>)
    requires Extends(consts, o, p) && Gather(names, o, consts).Some?
    ensures Gather(names, p, consts) == Gather(names, o, consts)
  {
    if names != [] { GatherExtends(names[..|names| - 1], consts, o, p); }
  }

  lemma {:induction false} PutAllExtends<V>(consts: map<string, V>, o: map<string, V>, p: map<string, V>, names: seq<string>, vals: seq<V>)
    requires Extends(consts, o, p) && |names| == |vals|
    ensures Extends(consts, PutAll(o, names, vals), PutAll(p, names, vals))
    ensures PutAll(o, names, vals).Keys == o.Keys + (set j | 0 <= j < |names| :: names[j])
  {
    if names != [] {
      var n := |names| - 1;
      PutAllExtends(consts, o, p, names[..n], vals[..n]);
      assert names == names[..n] + [names[n]];
    }
  }

  lemma OperatorAgrees<V>(sem: Semantics<V>, n: Node, consts: map<string, V>, o: map<string, V>, p: map<string, V>)
    requires n.Op? && Extends(consts, o, p) && Run(sem, consts, n, o).Some?
    ensures Run(sem, consts, n, p).Some? && Extends(consts, Run(sem, consts, n, o).value, Run(sem, consts, n, p).value)
    ensures Run(sem, consts, n, o).value.Keys == o.Keys + (set j | 0 <= j < |n.outs| :: n.outs[j])
  {
    hide Extends;
    GatherExtends(n.ins + n.attrs, consts, o, p);
    var vals := sem(n.op, Gather(n.ins + n.attrs, o, consts).value).value;
    PutAllExtends(consts, o, p, n.outs, vals);
  }

  lemma {:induction false} RunAllSplits<V>(sem: Semantics<V>, consts: map<string, V>, a: seq<Node>, b: seq<Node>, p: map<string, V>)
    requires RunAll(sem, consts, a, p).Some?
    ensures RunAll(sem, consts, a + b, p) == RunAll(sem, consts, b, RunAll(sem, consts, a, p).value)
  {
    hide Run;
    if a == [] {
      assert a + b == b;
    } else {
      assert (a + b)[1..] == a[1..] + b;
      RunAllSplits(sem, consts, a[1..], b, Run(sem, consts, a[0], p).value);
    }
  }

  lemma RunOne<V>(sem: Semantics<V>, consts: map<string, V>, n: Node, p: map<string, V>)
    ensures RunAll(sem, consts, [n], p) == Run(sem, consts, n, p)
  {
    hide Run;
    assert [n][1..] == [];
    if Run(sem, consts, n, p).Some? {
      assert RunAll(sem, consts, [n][1..], Run(sem, consts, n, p).value) == Run(sem, consts, n, p);
    }
  }

  /** Flattening preserves meaning.  Whatever the operators compute, if the graph with scopes runs from
      `o`, the flattened graph runs too, and every name of the original store has the same value in it. */
  lemma {:induction false} FlatteningPreserves<V>(sem: Semantics<V>, ns: seq<Node>, consts: map<string, V>, visible: set<string>,
                                                  o: map<string, V>, p: map<string, V>)
    requires GraphHygienic(ns, consts.Keys, visible) && o.Keys <= visible && Extends(consts, o, p)
    requires RunAll(sem, consts, ns, o).Some?
    ensures RunAll(sem, consts, Flat(ns), p).Some?
    ensures Extends(consts, RunAll(sem, consts, ns, o).value, RunAll(sem, consts, Flat(ns), p).value)
    decreases |ns|
  {
    hide Hygienic, Extends, Run, RenameBody;
    if ns != [] {
      var n := ns[0];
      var o' := Run(sem, consts, n, o).value;
      var head := if n.Composite? then RenameBody(n, n.body) else [n];
      if n.Composite? {
        CompositeAgrees(sem, n, consts, visible, o, p);
      } else {
        OperatorAgrees(sem, n, consts, o, p);
        RunOne(sem, consts, n, p);
      }
      var p' := RunAll(sem, consts, head, p).value;
      FlatteningPreserves(sem, ns[1..], consts, visible + (set j | 0 <= j < |n.outs| :: n.outs[j]), o', p');
      RunAllSplits(sem, consts, head, Flat(ns[1..]), p);
    }
  }

  /** In particular from the same inputs, for every output name the caller reads. */
  lemma FlattenedOutputsEqual<V>(sem: Semantics<V>, ns: seq<Node>, consts: map<string, V>, inputs: map<string, V>, name: string)
    requires GraphHygienic(ns, consts.Keys, inputs.Keys)
    requires RunAll(sem, consts, ns, inputs).Some?
    requires Lookup(RunAll(sem, consts, ns, inputs).value, consts, name).Some?
    ensures RunAll(sem, consts, Flat(ns), inputs).Some?
    ensures Lookup(RunAll(sem, consts, Flat(ns), inputs).value, consts, name)
         == Lookup(RunAll(sem, consts, ns, inputs).value, consts, name)
  {
    assert Extends(consts, inputs, inputs);
    FlatteningPreserves(sem, ns, consts, inputs.Keys, inputs, inputs);
  }

  // ---------------------------------------------------------------- what each condition is for

  /** An operator that copies its first input to its only output: enough to tell graphs apart. */
  function Copy(): Semantics<int> {
    (op, args) => if args == [] then None else Some([args[0]])
  }

  function CopyNode(x: string, y: string): Node {
    Op(0, [x], [], [y])
  }

  /** The graph runs with scopes, and flattened it fails or leaves another value under `name`. */
  ghost predicate Breaks(ns: seq<Node>, consts: map<string, int>, inputs: map<string, int>, name: string) {
    var (o, p) := (RunAll(Copy(), consts, ns, inputs), RunAll(Copy(), consts, Flat(ns), inputs));
    o.Some? && name in o.value && (p.None? || Lookup(p.value, consts, name) != Some(o.value[name]))
  }

  lemma CopyRunsOver(consts: map<string, int>, x: string, y: string, m: map<string, int>)
    ensures Run(Copy(), consts, CopyNode(x, y), m) ==
      match Lookup(m, consts, x) case None => None case Some(v) => Some(m[y := v])
  {
    var names := [x] + [];
    assert names == [x] && names[..0] == [];
    assert Gather(names[..0], m, consts) == Some([]);
    var v := Lookup(m, consts, x);
    if v.Some? {
      assert [] + [v.value] == [v.value];
      assert PutAll(m, [y][..0], [v.value][..0]) == m;
    }
  }

  lemma CopyRuns(x: string, y: string, m: map<string, int>)
    ensures Run(Copy(), map[], CopyNode(x, y), m) == if x in m then Some(m[y := m[x]]) else None
  {
    CopyRunsOver(map[], x, y, m);
  }

  /** A composite with one input A (inside: a) and one output O (inside: r). */
  function Border(body: seq<Node>): (c: Node)
    ensures c.Composite? && c.body == body
  {
    Composite(["A"], ["O"], [("A", "a")], [("r", "O")], body)
  }

  lemma BorderRuns(body: seq<Node>, m: map<string, int>)
    requires "A" in m
    requires RunAll(Copy(), map[], body, map["a" := m["A"]]).Some?
    requires "r" in RunAll(Copy(), map[], body, map["a" := m["A"]]).value
    ensures RunAll(Copy(), map[], [Border(body)], m)
         == Some(m["O" := RunAll(Copy(), map[], body, map["a" := m["A"]]).value["r"]])
  {
    hide RunAll;
    assert BindInputs(["A"], [("A", "a")], m, map[]) == Some(map["a" := m["A"]]);
    var ch := RunAll(Copy(), map[], body, map["a" := m["A"]]).value;
    assert AliasFrom([("r", "O")], "O") == "r";
    assert CollectOutputs(["O"][..0], [("r", "O")], ch, map[], m) == Some(m);
    assert CollectOutputs(["O"], [("r", "O")], ch, map[], m) == Some(m["O" := ch["r"]]);
    RunOne(Copy(), map[], Border(body), m);
  }

  lemma FlatOne(c: Node)
    requires c.Composite?
    ensures Flat([c]) == RenameBody(c, c.body)
  {
    assert [c][1..] == [];
  }

  /** An output that only passes an input through is never written by the flattened graph. */
  lemma PassThroughBreaks()
    ensures Breaks([Composite(["A"], ["O"], [("A", "a")], [("a", "O")], [])], map[], map["A" := 5], "O")
  {
  }

  /** A name read through an attribute is not renamed. */
  lemma AttributeBreaks()
    ensures Breaks([Border([Op(0, [], ["a"], ["r"])])], map[], map["A" := 5], "O")
  {
  }

  /** A private name of the body overwrites a value the parent still needs. */
  lemma PrivateNameBreaks()
    ensures Breaks([Border([CopyNode("a", "t"), CopyNode("t", "r")])], map[], map["A" := 5, "t" := 7], "t")
  {
    hide Run, Border, RenameNode;
    var body, m := [CopyNode("a", "t"), CopyNode("t", "r")], map["A" := 5, "t" := 7];
    var c := Border(body);
    TwoCopies("a", "t", "r", map["a" := 5]);
    BorderRuns(body, m);
    FlatOne(c);
    assert RenameBody(c, body) == [CopyNode("A", "t"), CopyNode("t", "O")] by { BorderRenames(c, body); }
    TwoCopies("A", "t", "O", m);
  }

  lemma BorderRenames(c: Node, body: seq<Node>)
    requires c == Border(body) && body == [CopyNode("a", "t"), CopyNode("t", "r")]
    ensures RenameBody(c, body) == [CopyNode("A", "t"), CopyNode("t", "O")]
  {
    assert RenameAll(c, ["a"]) == ["A"] && RenameAll(c, ["t"]) == ["t"] && RenameAll(c, ["r"]) == ["O"];
  }

  lemma TwoCopies(x: string, y: string, z: string, m: map<string, int>)
    requires x in m
    ensures RunAll(Copy(), map[], [CopyNode(x, y), CopyNode(y, z)], m) == Some(m[y := m[x]][z := m[x]])
  {
    hide Run;
    CopyRuns(x, y, m);
    CopyRuns(y, z, m[y := m[x]]);
    assert [CopyNode(x, y), CopyNode(y, z)][1..] == [CopyNode(y, z)];
    RunOne(Copy(), map[], CopyNode(y, z), m[y := m[x]]);
  }

  /** A nested composite keeps aliases that speak of names the renaming has changed. */
  lemma NestedBreaks()
    ensures Breaks([Border([Composite(["a"], ["r"], [("a", "b")], [("s", "r")], [CopyNode("b", "s")])])],
                   map[], map["A" := 5], "O")
  {
    hide Run, RunAll, Border, RenameNode;
    var inner := Composite(["a"], ["r"], [("a", "b")], [("s", "r")], [CopyNode("b", "s")]);
    var c := Border([inner]);
    assert RunAll(Copy(), map[], [inner], map["a" := 5]) == Some(map["a" := 5]["r" := 5]) by {
      InnerRuns(inner, map["a" := 5]);
    }
    BorderRuns([inner], map["A" := 5]);
    FlatOne(c);
    RenamedInnerFails(c, inner);
  }

  lemma InnerRuns(inner: Node, m: map<string, int>)
    requires inner == Composite(["a"], ["r"], [("a", "b")], [("s", "r")], [CopyNode("b", "s")]) && "a" in m
    ensures RunAll(Copy(), map[], [inner], m) == Some(m["r" := m["a"]])
  {
    hide RunAll;
    assert BindInputs(["a"], [("a", "b")], m, map[]) == Some(map["b" := m["a"]]);
    CopyRuns("b", "s", map["b" := m["a"]]);
    RunOne(Copy(), map[], CopyNode("b", "s"), map["b" := m["a"]]);
    var ch := map["b" := m["a"], "s" := m["a"]];
    assert AliasFrom([("s", "r")], "r") == "s";
    assert CollectOutputs(["r"][..0], [("s", "r")], ch, map[], m) == Some(m);
    assert CollectOutputs(["r"], [("s", "r")], ch, map[], m) == Some(m["r" := m["a"]]);
    RunOne(Copy(), map[], inner, m);
  }

  /** Renamed, the nested scope receives A under the name A, and its body still asks for b. */
  lemma RenamedInnerFails(c: Node, inner: Node)
    requires inner == Composite(["a"], ["r"], [("a", "b")], [("s", "r")], [CopyNode("b", "s")]) && c == Border([inner])
    ensures RunAll(Copy(), map[], RenameBody(c, [inner]), map["A" := 5]).None?
  {
    hide RunAll;
    var renamed := Composite(["A"], ["O"], [("a", "b")], [("s", "r")], [CopyNode("b", "s")]);
    assert RenameAll(c, ["a"]) == ["A"] && RenameAll(c, ["r"]) == ["O"];
    assert RenameBody(c, [inner]) == [renamed];
    assert BindInputs(["A"], [("a", "b")], map["A" := 5], map[]) == Some(map["A" := 5]);
    CopyRuns("b", "s", map["A" := 5]);
    RunOne(Copy(), map[], CopyNode("b", "s"), map["A" := 5]);
    RunOne(Copy(), map[], renamed, map["A" := 5]);
  }

  /** One inner value under two outer names: only the last alias survives the renaming. */
  lemma DoubleOutputBreaks()
    ensures Breaks([Composite(["A"], ["X", "Y"], [], [("v", "X"), ("v", "Y")], [CopyNode("A", "v")])], map[], map["A" := 5], "X")
  {
    hide RunAll;
    var c := Composite(["A"], ["X", "Y"], [], [("v", "X"), ("v", "Y")], [CopyNode("A", "v")]);
    var m := map["A" := 5];
    assert BindInputs(["A"], [], m, map[]) == Some(m);
    CopyRuns("A", "v", m);
    RunOne(Copy(), map[], CopyNode("A", "v"), m);
    assert ["X", "Y"][..1] == ["X"] && [("v", "X"), ("v", "Y")][..1] == [("v", "X")];
    assert CollectOutputs(["X"], [("v", "X"), ("v", "Y")], m["v" := 5], map[], m) == Some(m["X" := 5]);
    RunOne(Copy(), map[], c, m);
    FlatOne(c);
    assert RenameBoth([], [("v", "X")], "A") == "A";
    assert RenameAll(c, ["A"]) == ["A"] && RenameAll(c, ["v"]) == ["Y"];
    assert RenameBody(c, c.body) == [CopyNode("A", "Y")];
    CopyRuns("A", "Y", m);
    RunOne(Copy(), map[], CopyNode("A", "Y"), m);
  }

  lemma BindTwo(aliases: seq<Alias>, x: string, y: string, m: map<string, int>)
    requires x in m && y in m
    ensures BindInputs([x, y], aliases, m, map[]) == Some(map[AliasTo(aliases, x) := m[x]][AliasTo(aliases, y) := m[y]])
  {
    hide AliasTo;
    assert [x, y][..1] == [x] && [x][..0] == [];
    var none: map<string, int> := map[];
    assert BindInputs([], aliases, m, map[]) == Some(none);
    assert BindInputs([x], aliases, m, map[]) == Some(none[AliasTo(aliases, x) := m[x]]);
  }

  lemma CollectOne(consts: map<string, int>, ch: map<string, int>, m: map<string, int>)
    requires "r" in ch
    ensures CollectOutputs(["O"], [("r", "O")], ch, consts, m) == Some(m["O" := ch["r"]])
  {
    assert AliasFrom([("r", "O")], "O") == "r";
    assert CollectOutputs(["O"][..0], [("r", "O")], ch, consts, m) == Some(m);
  }

  /** Two inputs under one inner name: the scope keeps the last input, the renaming the last alias. */
  lemma SharedInputBreaks()
    ensures Breaks([Composite(["B", "A"], ["O"], [("A", "a"), ("B", "a")], [("r", "O")], [CopyNode("a", "r")])],
                   map[], map["A" := 5, "B" := 7], "O")
  {
    hide RunAll, Run;
    var c := Composite(["B", "A"], ["O"], [("A", "a"), ("B", "a")], [("r", "O")], [CopyNode("a", "r")]);
    var m := map["A" := 5, "B" := 7];
    BindTwo(c.inAliases, "B", "A", m);
    assert AliasTo(c.inAliases, "B") == "a" && AliasTo(c.inAliases, "A") == "a";
    assert map["a" := 7]["a" := 5] == map["a" := 5];
    CopyRuns("a", "r", map["a" := 5]);
    RunOne(Copy(), map[], CopyNode("a", "r"), map["a" := 5]);
    CollectOne(map[], map["a" := 5, "r" := 5], m);
    OpenScope(c, map[], m);
    FlatOne(c);
    assert RenameAll(c, ["a"]) == ["B"] && RenameAll(c, ["r"]) == ["O"];
    assert RenameBody(c, c.body) == [CopyNode("B", "O")];
    CopyRuns("B", "O", m);
    RunOne(Copy(), map[], CopyNode("B", "O"), m);
  }

  lemma OpenScope(c: Node, consts: map<string, int>, m: map<string, int>)
    requires c.Composite? && BindInputs(c.ins, c.inAliases, m, consts).Some?
    requires RunAll(Copy(), consts, c.body, BindInputs(c.ins, c.inAliases, m, consts).value).Some?
    ensures RunAll(Copy(), consts, [c], m) ==
      CollectOutputs(c.outs, c.outAliases, RunAll(Copy(), consts, c.body, BindInputs(c.ins, c.inAliases, m, consts).value).value, consts, m)
  {
    RunOne(Copy(), consts, c, m);
  }

  /** The body writes the name r, which becomes O, and a name O of its own: in the parent both are O. */
  lemma SharedNameBreaks()
    ensures Breaks([Composite(["A", "B"], ["O"], [("A", "a"), ("B", "b")], [("r", "O")], [CopyNode("a", "r"), CopyNode("b", "O")])],
                   map[], map["A" := 5, "B" := 7], "O")
  {
    hide RunAll, Run;
    var c := Composite(["A", "B"], ["O"], [("A", "a"), ("B", "b")], [("r", "O")], [CopyNode("a", "r"), CopyNode("b", "O")]);
    var m := map["A" := 5, "B" := 7];
    BindTwo(c.inAliases, "A", "B", m);
    assert AliasTo(c.inAliases, "A") == "a" && AliasTo(c.inAliases, "B") == "b";
    var ch := map["a" := 5, "b" := 7];
    CopyAndCopy("a", "r", "b", "O", ch);
    CollectOne(map[], ch["r" := 5]["O" := 7], m);
    OpenScope(c, map[], m);
    FlatOne(c);
    SharedNameRenames(c);
    CopyAndCopy("A", "O", "B", "O", m);
  }

  lemma SharedNameRenames(c: Node)
    requires c == Composite(["A", "B"], ["O"], [("A", "a"), ("B", "b")], [("r", "O")], [CopyNode("a", "r"), CopyNode("b", "O")])
    ensures RenameBody(c, c.body) == [CopyNode("A", "O"), CopyNode("B", "O")]
  {
    assert RenameAll(c, ["a"]) == ["A"] && RenameAll(c, ["b"]) == ["B"];
    assert c.inAliases[..1] == [("A", "a")] && RenameIn([("A", "a")], "O") == "O" && c.outAliases[..0] == [];
    assert RenameIn(c.inAliases, "O") == "O";
    assert RenameAll(c, ["r"]) == ["O"] && RenameAll(c, ["O"]) == ["O"];
  }

  lemma CopyAndCopy(x: string, y: string, u: string, v: string, m: map<string, int>)
    requires x in m && u in m && y != u
    ensures RunAll(Copy(), map[], [CopyNode(x, y), CopyNode(u, v)], m) == Some(m[y := m[x]][v := m[u]])
  {
    hide Run;
    CopyRuns(x, y, m);
    CopyRuns(u, v, m[y := m[x]]);
    assert [CopyNode(x, y), CopyNode(u, v)][1..] == [CopyNode(u, v)];
    RunOne(Copy(), map[], CopyNode(u, v), m[y := m[x]]);
  }

  /** A local of the parent hides a constant from the inlined body. */
  lemma HiddenConstantBreaks()
    ensures Breaks([Border([CopyNode("k", "r")])], map["k" := 1], map["A" := 5, "k" := 7], "O")
  {
    hide RunAll, Run;
    var (c, consts, m) := (Border([CopyNode("k", "r")]), map["k" := 1], map["A" := 5, "k" := 7]);
    assert BindInputs(["A"], [("A", "a")], m, consts) == Some(map["a" := 5]);
    CopyRunsOver(consts, "k", "r", map["a" := 5]);
    RunOne(Copy(), consts, CopyNode("k", "r"), map["a" := 5]);
    CollectOne(consts, map["a" := 5, "r" := 1], m);
    OpenScope(c, consts, m);
    FlatOne(c);
    assert RenameAll(c, ["k"]) == ["k"] && RenameAll(c, ["r"]) == ["O"];
    assert RenameBody(c, c.body) == [CopyNode("k", "O")];
    CopyRunsOver(consts, "k", "O", m);
    RunOne(Copy(), consts, CopyNode("k", "O"), m);
  }

  /** A composite that declares an input M its body does not use. */
  function UnusedInput(): (c: Node)
    ensures c.Composite? && c.body == [CopyNode("a", "r")]
  {
    Composite(["A", "M"], ["O"], [("A", "a"), ("M", "m")], [("r", "O")], [CopyNode("a", "r")])
  }

  /** The other direction fails even under hygiene: without M the original cannot open the scope, the flattened
      graph runs. */
  lemma UnusedInputForgotten()
    ensures Hygienic(UnusedInput(), {}, {"A"})
    ensures RunAll(Copy(), map[], [UnusedInput()], map["A" := 5]) == None
    ensures RunAll(Copy(), map[], Flat([UnusedInput()]), map["A" := 5]) == Some(map["A" := 5, "O" := 5])
  {
    var c := UnusedInput();
    var m := map["A" := 5];
    UnusedInputHygienic();
    assert BindInputs(["A", "M"], c.inAliases, m, map[]) == None by { assert ["A", "M"][1] == "M"; }
    assert RunAll(Copy(), map[], [c], m) == None;
    FlatOne(c);
    assert RenameAll(c, ["a"]) == ["A"] && RenameAll(c, ["r"]) == ["O"];
    assert RenameBody(c, c.body) == [CopyNode("A", "O")];
    CopyRuns("A", "O", m);
    RunOne(Copy(), map[], CopyNode("A", "O"), m);
    assert m["O" := 5] == map["A" := 5, "O" := 5];
  }

  /** Hygienic where O is not visible before, and where it is and gets overwritten. */
  lemma UnusedInputHygienic()
    ensures Hygienic(UnusedInput(), {}, {"A"}) && Hygienic(UnusedInput(), {}, {"A", "O"})
  {
    var c := UnusedInput();
    assert Renamed(c, "a") == "A" && Renamed(c, "m") == "M" && Renamed(c, "r") == "O";
    assert AliasTo(c.inAliases, "A") == "a" && AliasTo(c.inAliases, "M") == "m" && AliasFrom(c.outAliases, "O") == "r";
    hide RenameBoth, RenameIn, AliasTo, AliasFrom;
    assert c.body[0].outs[0] == "r" && "r" in Writes(c.body);
    assert forall w :: w in Writes(c.body) ==> w == "r";
    assert forall x :: x in InnerInputs(c) ==> x == "a" || x == "m";
  }
}
