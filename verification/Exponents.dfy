/** The exponent enumeration of `op_polynomial_features` in src/operator_registry.cpp. */
module Exponents {
  type Vector = seq<nat>

  function Total(v: Vector): nat {
    if v == [] then 0 else v[0] + Total(v[1..])
  }

  /** What the enumeration is for: vectors of length n, total degree in range, entries at most 1 for interactions. */
  predicate Wanted(v: Vector, n: nat, low: int, high: int, interactionOnly: bool) {
    |v| == n && low <= Total(v) <= high && (interactionOnly ==> forall i :: 0 <= i < n ==> v[i] <= 1)
  }

  function Prefixed(e: nat, vs: seq<Vector>): (r: seq<Vector>)
    ensures |r| == |vs| && forall i :: 0 <= i < |vs| ==> r[i] == [e] + vs[i]
  {
    seq(|vs|, i requires 0 <= i < |vs| => [e] + vs[i])
  }

  /** Every completion of a vector by `k` more entries, in the order they are generated. */
  function Completions(k: nat, low: int, remain: int, interactionOnly: bool): seq<Vector>
    decreases k, 1, 0
  {
    if k == 0 then if 0 >= low then [[]] else []
    else StartingAt(k, 0, low, remain, interactionOnly)
  }

  /** Those whose next entry is at least e. */
  function StartingAt(k: nat, e: nat, low: int, remain: int, interactionOnly: bool): seq<Vector>
    requires k > 0
    decreases k, 0, remain - e + 1
  {
    if e > remain || (interactionOnly && e > 1) then []
    else
      Prefixed(e, Completions(k - 1, low - e, remain - e, interactionOnly)) +
      StartingAt(k, e + 1, low, remain, interactionOnly)
  }

  // ---------------------------------------------------------------- the code

  /** The state the recursive closure works on. */
  class Generator {
    const n: nat
    const low: int
    const interactionOnly: bool
    var cur: Vector
    var combos: seq<Vector>

    constructor (n: nat, low: int, interactionOnly: bool, combos: seq<Vector>)
      ensures this.n == n && this.low == low && this.interactionOnly == interactionOnly
      ensures cur == [] && this.combos == combos
    {
      this.n, this.low, this.interactionOnly := n, low, interactionOnly;
      cur, this.combos := [], combos;
    }

    /** Lines 1540 to 1553: `cur` is pushed, passed down, and popped again. */
    method Gen(remain: int)
      requires |cur| <= n
      modifies this
      ensures cur == old(cur)
      ensures combos == old(combos) + Extended(old(cur), Completions(n - |old(cur)|, low - Total(old(cur)), remain, interactionOnly))
      decreases n - |cur|
    {
      hide Completions, StartingAt, Total, Extended;
      if |cur| == n {
        var total := Accumulate(cur);
        if total >= low { combos := combos + [cur]; }
        Leaf(cur, low - total, remain, interactionOnly);
        return;
      }
      ghost var k, need := n - |cur|, low - Total(cur);
      CompletionsStart(k, need, remain, interactionOnly);
      ghost var goal := combos + Extended(cur, Completions(k, need, remain, interactionOnly));
      var e := 0;
      while e <= remain && !(interactionOnly && e > 1)
        invariant 0 <= e && cur == old(cur)
        invariant combos + Extended(cur, StartingAt(k, e, need, remain, interactionOnly)) == goal
        decreases remain - e
      {
        OneMore(cur, k, e, need, remain, interactionOnly);
        TotalPush(cur, e);
        ghost var before := combos;
        cur := cur + [e];
        ghost var added := Extended(cur, Completions(k - 1, need - e, remain - e, interactionOnly));
        Gen(remain - e);
        assert combos == before + added;
        cur := cur[..|cur| - 1];
        Regroup(before, added, Extended(cur, StartingAt(k, e + 1, need, remain, interactionOnly)));
        e := e + 1;
      }
      NoMore(cur, k, e, need, remain, interactionOnly);
    }
  }

  method Accumulate(v: Vector) returns (total: nat)
    ensures total == Total(v)
  {
    total := 0;
    var i := 0;
    assert v[0..] == v;
    while i < |v|
      invariant 0 <= i <= |v| && total + Total(v[i..]) == Total(v)
    {
      assert v[i..][1..] == v[i + 1..];
      total := total + v[i];
      i := i + 1;
    }
  }

  function Zeros(n: nat): (r: Vector)
    ensures |r| == n && forall i :: 0 <= i < n ==> r[i] == 0
  {
    seq(n, _ => 0)
  }

  /** The list of exponent vectors the operator computes with. */
  function Combos(n: nat, low: int, high: int, interactionOnly: bool, bias: bool): seq<Vector> {
    (if bias then [Zeros(n)] else []) + Completions(n, low, high, interactionOnly)
  }

  method Enumerate(n: nat, minDegree: int, maxDegree: int, interactionOnly: bool, bias: bool) returns (combos: seq<Vector>)
    ensures combos == Combos(n, minDegree, maxDegree, interactionOnly, bias)
  {
    combos := [];
    if bias { combos := combos + [Zeros(n)]; }
    var g := new Generator(n, minDegree, interactionOnly, combos);
    g.Gen(maxDegree);
    combos := g.combos;
    ExtendedByNothing(Completions(n, minDegree, maxDegree, interactionOnly));
  }

  // ---------------------------------------------------------------- completing a prefix

  function Extended(prefix: Vector, vs: seq<Vector>): (r: seq<Vector>)
    ensures |r| == |vs| && forall i :: 0 <= i < |vs| ==> r[i] == prefix + vs[i]
  {
    seq(|vs|, i requires 0 <= i < |vs| => prefix + vs[i])
  }

  lemma ExtendedByNothing(vs: seq<Vector>)
    ensures Extended([], vs) == vs
  {
    assert forall i :: 0 <= i < |vs| ==> [] + vs[i] == vs[i];
  }

  lemma ExtendedJoins(prefix: Vector, a: seq<Vector>, b: seq<Vector>)
    ensures Extended(prefix, a + b) == Extended(prefix, a) + Extended(prefix, b)
  {
  }

  lemma ExtendedPush(prefix: Vector, e: nat, vs: seq<Vector>)
    ensures Extended(prefix, Prefixed(e, vs)) == Extended(prefix + [e], vs)
  {
    assert forall i :: 0 <= i < |vs| ==> prefix + ([e] + vs[i]) == prefix + [e] + vs[i];
  }

  lemma Regroup(a: seq<Vector>, b: seq<Vector>, c: seq<Vector>)
    ensures a + (b + c) == a + b + c
  {
  }

  lemma Leaf(cur: Vector, need: int, remain: int, interactionOnly: bool)
    ensures Extended(cur, Completions(0, need, remain, interactionOnly)) == if 0 >= need then [cur] else []
  {
    assert cur + [] == cur;
  }

  lemma CompletionsStart(k: nat, need: int, remain: int, interactionOnly: bool)
    requires k > 0
    ensures Completions(k, need, remain, interactionOnly) == StartingAt(k, 0, need, remain, interactionOnly)
  {
  }

  /** One turn of the loop over the next entry. */
  lemma OneMore(cur: Vector, k: nat, e: nat, need: int, remain: int, interactionOnly: bool)
    requires k > 0 && e <= remain && !(interactionOnly && e > 1)
    ensures Extended(cur, StartingAt(k, e, need, remain, interactionOnly)) ==
      Extended(cur + [e], Completions(k - 1, need - e, remain - e, interactionOnly)) +
      Extended(cur, StartingAt(k, e + 1, need, remain, interactionOnly))
  {
    var next := Completions(k - 1, need - e, remain - e, interactionOnly);
    ExtendedJoins(cur, Prefixed(e, next), StartingAt(k, e + 1, need, remain, interactionOnly));
    ExtendedPush(cur, e, next);
  }

  lemma NoMore(cur: Vector, k: nat, e: nat, need: int, remain: int, interactionOnly: bool)
    requires k > 0 && (e > remain || (interactionOnly && e > 1))
    ensures Extended(cur, StartingAt(k, e, need, remain, interactionOnly)) == []
  {
  }

  lemma {:induction false} TotalPush(v: Vector, e: nat)
    ensures Total(v + [e]) == Total(v) + e
  {
    if v == [] {
      assert Total([e]) == e + Total([]);
    } else {
      assert (v + [e])[1..] == v[1..] + [e];
      TotalPush(v[1..], e);
    }
  }

  // ---------------------------------------------------------------- exactly the wanted vectors, once, in order

  lemma WantedHead(e: nat, v: Vector, k: nat, low: int, high: int, interactionOnly: bool)
    requires k > 0
    ensures Wanted([e] + v, k, low, high, interactionOnly) <==>
      Wanted(v, k - 1, low - e, high - e, interactionOnly) && (interactionOnly ==> e <= 1)
  {
    var w := [e] + v;
    assert w[1..] == v && Total(w) == e + Total(v);
    if interactionOnly && |v| == k - 1 { assert forall i :: 0 <= i < k - 1 ==> w[i + 1] == v[i]; }
  }

  /** Everything generated is wanted and everything wanted is generated. */
  lemma {:induction false} CompletionsExact(v: Vector, k: nat, low: int, high: int, interactionOnly: bool)
    requires k > 0 || high >= 0
    ensures v in Completions(k, low, high, interactionOnly) <==> Wanted(v, k, low, high, interactionOnly)
    decreases k, 1, 0
  {
    if k > 0 { StartingExact(v, k, 0, low, high, interactionOnly); }
  }

  lemma {:induction false} StartingExact(v: Vector, k: nat, e: nat, low: int, high: int, interactionOnly: bool)
    requires k > 0
    ensures v in StartingAt(k, e, low, high, interactionOnly) <==>
      Wanted(v, k, low, high, interactionOnly) && v[0] >= e
    decreases k, 0, high - e + 1
  {
    if e > high || (interactionOnly && e > 1) {
      if Wanted(v, k, low, high, interactionOnly) { assert Total(v) == v[0] + Total(v[1..]); }
    } else {
      StartingExact(v, k, e + 1, low, high, interactionOnly);
      var next := Completions(k - 1, low - e, high - e, interactionOnly);
      PrefixedMembers(v, e, next);
      if v != [] {
        CompletionsExact(v[1..], k - 1, low - e, high - e, interactionOnly);
        WantedHead(e, v[1..], k, low, high, interactionOnly);
        assert v == [v[0]] + v[1..];
      }
    }
  }

  lemma PrefixedMembers(v: Vector, e: nat, vs: seq<Vector>)
    ensures v in Prefixed(e, vs) <==> v != [] && v[0] == e && v[1..] in vs
  {
    if v in Prefixed(e, vs) {
      var i :| 0 <= i < |vs| && v == Prefixed(e, vs)[i];
      assert v[1..] == vs[i];
    }
    if v != [] && v[0] == e && v[1..] in vs {
      var i :| 0 <= i < |vs| && vs[i] == v[1..];
      assert Prefixed(e, vs)[i] == v;
    }
  }

  predicate LexLess(a: Vector, b: Vector) {
    a != [] && b != [] && (a[0] < b[0] || (a[0] == b[0] && LexLess(a[1..], b[1..])))
  }

  predicate Increasing(vs: seq<Vector>) {
    forall i, j :: 0 <= i < j < |vs| ==> LexLess(vs[i], vs[j])
  }

  lemma {:induction false} LexIrreflexive(a: Vector)
    ensures !LexLess(a, a)
  {
    if a != [] { LexIrreflexive(a[1..]); }
  }

  lemma PrefixedIncreasing(e: nat, vs: seq<Vector>)
    requires Increasing(vs)
    ensures Increasing(Prefixed(e, vs))
  {
    forall i, j | 0 <= i < j < |vs| ensures LexLess(Prefixed(e, vs)[i], Prefixed(e, vs)[j]) {
      assert Prefixed(e, vs)[i][1..] == vs[i] && Prefixed(e, vs)[j][1..] == vs[j];
    }
  }

  lemma {:induction false} CompletionsIncreasing(k: nat, low: int, high: int, interactionOnly: bool)
    ensures Increasing(Completions(k, low, high, interactionOnly))
    decreases k, 1, 0
  {
    if k > 0 { StartingIncreasing(k, 0, low, high, interactionOnly); }
  }

  lemma {:induction false} StartingIncreasing(k: nat, e: nat, low: int, high: int, interactionOnly: bool)
    requires k > 0
    ensures Increasing(StartingAt(k, e, low, high, interactionOnly))
    decreases k, 0, high - e + 1
  {
    if !(e > high || (interactionOnly && e > 1)) {
      var next := Completions(k - 1, low - e, high - e, interactionOnly);
      var rest := StartingAt(k, e + 1, low, high, interactionOnly);
      CompletionsIncreasing(k - 1, low - e, high - e, interactionOnly);
      PrefixedIncreasing(e, next);
      StartingIncreasing(k, e + 1, low, high, interactionOnly);
      forall j | 0 <= j < |rest| ensures rest[j] != [] && rest[j][0] > e {
        StartingExact(rest[j], k, e + 1, low, high, interactionOnly);
      }
    }
  }

  predicate NoDuplicates(vs: seq<Vector>) {
    forall i, j :: 0 <= i < j < |vs| ==> vs[i] != vs[j]
  }

  lemma IncreasingDistinct(vs: seq<Vector>)
    requires Increasing(vs)
    ensures NoDuplicates(vs)
  {
    forall i, j | 0 <= i < j < |vs| ensures vs[i] != vs[j] { LexIrreflexive(vs[i]); }
  }

  /** Without bias: exactly the wanted vectors, each once, in lexicographic order. */
  lemma EnumerationExact(n: nat, low: int, high: int, interactionOnly: bool)
    requires n > 0 || high >= 0
    ensures forall v :: v in Combos(n, low, high, interactionOnly, false) <==> Wanted(v, n, low, high, interactionOnly)
    ensures Increasing(Combos(n, low, high, interactionOnly, false))
    ensures NoDuplicates(Combos(n, low, high, interactionOnly, false))
  {
    var vs := Completions(n, low, high, interactionOnly);
    assert [] + vs == vs;
    CompletionsIncreasing(n, low, high, interactionOnly);
    IncreasingDistinct(vs);
    forall v ensures v in vs <==> Wanted(v, n, low, high, interactionOnly) {
      CompletionsExact(v, n, low, high, interactionOnly);
    }
  }

  lemma {:induction false} ZerosTotal(n: nat)
    ensures Total(Zeros(n)) == 0
  {
    if n > 0 {
      assert Zeros(n)[1..] == Zeros(n - 1);
      ZerosTotal(n - 1);
    }
  }

  /** The bias column repeats a generated column exactly when degree 0 is in the requested range. */
  lemma BiasDuplicatesIff(n: nat, low: int, high: int, interactionOnly: bool)
    requires n > 0 || high >= 0
    ensures NoDuplicates(Combos(n, low, high, interactionOnly, true)) <==> !(low <= 0 <= high)
  {
    var vs := Completions(n, low, high, interactionOnly);
    var all := Combos(n, low, high, interactionOnly, true);
    ZerosTotal(n);
    CompletionsExact(Zeros(n), n, low, high, interactionOnly);
    CompletionsIncreasing(n, low, high, interactionOnly);
    IncreasingDistinct(vs);
    assert all[0] == Zeros(n) && forall i :: 0 <= i < |vs| ==> all[i + 1] == vs[i];
    if low <= 0 <= high {
      var i :| 0 <= i < |vs| && vs[i] == Zeros(n);
      assert all[0] == all[i + 1];
    } else {
      forall i, j | 0 <= i < j < |all| ensures all[i] != all[j] {
        if i > 0 { assert vs[i - 1] != vs[j - 1]; }
      }
    }
  }

  /** The bias vector stands first, before the same list as without it. */
  lemma BiasFirst(n: nat, low: int, high: int, interactionOnly: bool)
    ensures var all := Combos(n, low, high, interactionOnly, true);
      && |all| == |Combos(n, low, high, interactionOnly, false)| + 1
      && |all[0]| == n && (forall i :: 0 <= i < n ==> all[0][i] == 0)
      && all[1..] == Combos(n, low, high, interactionOnly, false)
  {
    var rest := Completions(n, low, high, interactionOnly);
    assert [] + rest == rest && ([Zeros(n)] + rest)[1..] == rest;
  }

  /** Without features the remaining degree is never looked at: the empty vector appears for a negative maximum too. */
  lemma NoFeatures(low: int, high: int, interactionOnly: bool)
    requires low <= 0 && high < 0
    ensures Combos(0, low, high, interactionOnly, false) == [[]] && !Wanted([], 0, low, high, interactionOnly)
  {
  }
}
