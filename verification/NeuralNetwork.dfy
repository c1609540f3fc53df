/** The feed-forward pass of src/nodes/neural_network_node.cpp: layer after layer between two buffers that
    swap their roles. */
module NeuralNetwork {
  import opened Sums

  /** One row of weights per output; `act` is what the activation loop does to the outputs as a whole. */
  datatype Layer = Layer(weights: seq<Vec>, bias: Vec, inWidth: nat, outWidth: nat, act: Vec -> Vec)

  datatype Model = Model(layers: seq<Layer>, nFeatures: nat, nOutputs: nat)

  ghost predicate Sound(l: Layer) {
    && |l.weights| == l.outWidth && (forall j :: 0 <= j < l.outWidth ==> |l.weights[j]| == l.inWidth)
    && (l.bias == [] || |l.bias| == l.outWidth)
    && (forall v: Vec :: |l.act(v)| == |v|)
  }

  /** Every layer takes what the one before it gives, and the last one gives the outputs. */
  ghost predicate Chained(m: Model) {
    && m.layers != [] && m.layers[0].inWidth == m.nFeatures
    && m.layers[|m.layers| - 1].outWidth == m.nOutputs
    && (forall i :: 0 <= i < |m.layers| ==> Sound(m.layers[i]))
    && (forall i :: 0 <= i < |m.layers| - 1 ==> m.layers[i + 1].inWidth == m.layers[i].outWidth)
  }

  // ---------------------------------------------------------------- what a layer means

  /** `start` and the first k products. */
  function Weighted(w: Vec, x: Vec, start: real, k: nat): real
    requires k <= |w| && k <= |x|
  {
    if k == 0 then start else Weighted(w, x, start, k - 1) + Times(w[k - 1], x[k - 1])
  }

  function Start(l: Layer, j: nat): real {
    if j < |l.bias| then l.bias[j] else 0.0
  }

  function Affine(l: Layer, x: Vec): (y: Vec)
    requires |x| == l.inWidth && |l.weights| == l.outWidth
    requires forall j :: 0 <= j < l.outWidth ==> |l.weights[j]| == l.inWidth
    ensures |y| == l.outWidth
    ensures forall j :: 0 <= j < l.outWidth ==> y[j] == Weighted(l.weights[j], x, Start(l, j), l.inWidth)
  {
    seq(l.outWidth, j requires 0 <= j < l.outWidth => Weighted(l.weights[j], x, Start(l, j), l.inWidth))
  }

  ghost function Forward(l: Layer, x: Vec): (y: Vec)
    requires Sound(l) && |x| == l.inWidth
    ensures |y| == l.outWidth
  {
    l.act(Affine(l, x))
  }

  /** The first k layers applied one after the other. */
  ghost function Through(m: Model, x: Vec, k: nat): (y: Vec)
    requires Chained(m) && |x| == m.nFeatures && k <= |m.layers|
    ensures |y| == if k == 0 then m.nFeatures else m.layers[k - 1].outWidth
  {
    if k == 0 then x else Forward(m.layers[k - 1], Through(m, x, k - 1))
  }

  /** The affine part in matrix terms: bias plus weights times input. */
  lemma {:induction false} WeightedIsSum(w: Vec, x: Vec, start: real, k: nat)
    requires k <= |w| && k <= |x|
    ensures Weighted(w, x, start, k) == start + Sum(k, i => Times(At(w, i), At(x, i)))
  {
    if k > 0 {
      WeightedIsSum(w, x, start, k - 1);
      SumSame(k - 1, i => Times(At(w, i), At(x, i)), i => Times(At(w, i), At(x, i)));
    }
  }

  /** Output j of a layer before activation: its bias, or 0 where the layer has none, plus its weights times input. */
  lemma LayerMeans(l: Layer, x: Vec, j: nat)
    requires Sound(l) && |x| == l.inWidth && j < l.outWidth
    ensures Affine(l, x)[j] ==
      (if l.bias == [] then 0.0 else l.bias[j]) + Sum(l.inWidth, i => Times(At(l.weights[j], i), At(x, i)))
  {
    WeightedIsSum(l.weights[j], x, Start(l, j), l.inWidth);
  }

  // ---------------------------------------------------------------- the code

  /** `forward_layer_t`: reads one buffer, writes the other, then activates in place. */
  method ForwardLayer(l: Layer, input: array<real>, output: array<real>)
    requires Sound(l) && input != output && l.inWidth <= input.Length && l.outWidth <= output.Length
    modifies output
    ensures output[..l.outWidth] == Forward(l, input[..l.inWidth])
  {
    hide Times;
    ghost var x := input[..l.inWidth];
    var j := 0;
    while j < l.outWidth
      invariant 0 <= j <= l.outWidth && input[..l.inWidth] == x
      invariant forall i :: 0 <= i < j ==> output[i] == Weighted(l.weights[i], x, Start(l, i), l.inWidth)
    {
      var w := l.weights[j];
      var val := if l.bias == [] then 0.0 else l.bias[j];
      var k := 0;
      while k < l.inWidth
        invariant 0 <= k <= l.inWidth && val == Weighted(w, x, Start(l, j), k)
      {
        val := val + Times(w[k], input[k]);
        k := k + 1;
      }
      output[j] := val;
      j := j + 1;
    }
    assert output[..l.outWidth] == Affine(l, x);
    Activate(l, output);
  }

  /** `apply_activation_t` on the first outputs of the buffer. */
  method Activate(l: Layer, data: array<real>)
    requires Sound(l) && l.outWidth <= data.Length
    modifies data
    ensures data[..l.outWidth] == l.act(old(data[..l.outWidth]))
  {
    var y := l.act(data[..l.outWidth]);
    var i := 0;
    while i < l.outWidth
      invariant 0 <= i <= l.outWidth && forall j :: 0 <= j < i ==> data[j] == y[j]
    {
      data[i] := y[i];
      i := i + 1;
    }
  }

  method MaxWidth(m: Model) returns (width: nat)
    ensures width >= m.nFeatures && forall i :: 0 <= i < |m.layers| ==> m.layers[i].outWidth <= width
  {
    width := m.nFeatures;
    var i := 0;
    while i < |m.layers|
      invariant 0 <= i <= |m.layers| && width >= m.nFeatures
      invariant forall j :: 0 <= j < i ==> m.layers[j].outWidth <= width
    {
      if m.layers[i].outWidth > width { width := m.layers[i].outWidth; }
      i := i + 1;
    }
  }

  /** The layer loop for one sample: `cur` and `nxt` are never the same buffer, whatever was left in them. */
  method RunSample(m: Model, x: array<real>, bufA: array<real>, bufB: array<real>) returns (cur: array<real>)
    requires Chained(m) && x.Length == m.nFeatures
    requires x != bufA && x != bufB && bufA != bufB && bufA.Length == bufB.Length
    requires forall i :: 0 <= i < |m.layers| ==> m.layers[i].outWidth <= bufA.Length
    modifies bufA, bufB
    ensures cur == bufA || cur == bufB
    ensures x[..] == old(x[..]) && m.nOutputs <= cur.Length
    ensures cur[..m.nOutputs] == Through(m, old(x[..]), |m.layers|)
  {
    cur := bufA;
    var nxt := bufB;
    var first, i := true, 0;
    ghost var input := x[..];
    while i < |m.layers|
      invariant 0 <= i <= |m.layers| && (first <==> i == 0)
      invariant x[..] == input
      invariant (cur == bufA && nxt == bufB) || (cur == bufB && nxt == bufA)
      invariant i > 0 ==> cur[..m.layers[i - 1].outWidth] == Through(m, input, i)
    {
      if first {
        assert x[..m.layers[0].inWidth] == input;
        ForwardLayer(m.layers[i], x, nxt);
      } else {
        ForwardLayer(m.layers[i], cur, nxt);
      }
      cur, nxt := nxt, cur;
      first := false;
      i := i + 1;
    }
  }

  /** `compute`: every sample gets the composition of all layers, with the same two buffers throughout. */
  method Compute(m: Model, features: seq<Vec>) returns (output: seq<Vec>)
    requires Chained(m) && forall s :: 0 <= s < |features| ==> |features[s]| == m.nFeatures
    ensures |output| == |features|
    ensures forall s :: 0 <= s < |features| ==> output[s] == Through(m, features[s], |m.layers|)
  {
    var width := MaxWidth(m);
    var bufA := new real[width](_ => 0.0);
    var bufB := new real[width](_ => 0.0);
    output := [];
    while |output| < |features|
      invariant |output| <= |features|
      invariant forall s :: 0 <= s < |output| ==> output[s] == Through(m, features[s], |m.layers|)
    {
      var row := features[|output|];
      var x := new real[|row|](k requires 0 <= k < |row| => row[k]);
      assert x[..] == row;
      var cur := RunSample(m, x, bufA, bufB);
      output := output + [cur[..m.nOutputs]];
    }
  }
}
