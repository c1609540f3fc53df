/** The blocked dot product of src/nodes/linear_node.cpp over exact reals: vector accumulators of any lane
    width, a vector tail, a scalar tail, and four samples at a time. */
module LinearKernels {
  import opened Sums

  /** One vector register. */
  type Lanes = seq<real>

  /** The plain sum over the first n positions. */
  function Plain(a: Vec, b: Vec, n: nat): real
    requires n <= |a| && n <= |b|
  {
    if n == 0 then 0.0 else Plain(a, b, n - 1) + Times(a[n - 1], b[n - 1])
  }

  function Zero(width: nat): (z: Lanes)
    ensures |z| == width && HSum(z) == 0.0
  {
    if width == 0 then [] else
      var z := Zero(width - 1);
      assert (z + [0.0])[..width - 1] == z;
      z + [0.0]
  }

  /** The horizontal sum. */
  function HSum(v: Lanes): real {
    if v == [] then 0.0 else HSum(v[..|v| - 1]) + v[|v| - 1]
  }

  function Add(u: Lanes, v: Lanes): (s: Lanes)
    requires |u| == |v|
    ensures |s| == |u|
  {
    seq(|u|, i requires 0 <= i < |u| => u[i] + v[i])
  }

  /** Lane i adds the product at position k + i. */
  function Fma(a: Vec, b: Vec, k: nat, acc: Lanes): (s: Lanes)
    requires k + |acc| <= |a| && k + |acc| <= |b|
    ensures |s| == |acc|
  {
    seq(|acc|, i requires 0 <= i < |acc| => acc[i] + Times(a[k + i], b[k + i]))
  }

  lemma {:induction false} HSumAdds(u: Lanes, v: Lanes)
    requires |u| == |v|
    ensures HSum(Add(u, v)) == HSum(u) + HSum(v)
  {
    if u != [] {
      var n := |u| - 1;
      HSumAdds(u[..n], v[..n]);
      assert Add(u, v)[..n] == Add(u[..n], v[..n]);
    }
  }

  /** One vector step takes the next |acc| products into the sum. */
  lemma {:induction false} FmaAdvances(a: Vec, b: Vec, k: nat, acc: Lanes)
    requires k + |acc| <= |a| && k + |acc| <= |b|
    ensures HSum(Fma(a, b, k, acc)) - HSum(acc) == Plain(a, b, k + |acc|) - Plain(a, b, k)
  {
    hide Times;
    if acc != [] {
      var n := |acc| - 1;
      FmaAdvances(a, b, k, acc[..n]);
      assert Fma(a, b, k, acc)[..n] == Fma(a, b, k, acc[..n]);
    }
  }

  /** The vector kernel with four accumulators. */
  method DotFour(a: Vec, b: Vec, width: nat) returns (result: real)
    requires |a| == |b| && width > 0
    ensures result == Plain(a, b, |a|)
  {
    hide Times, Fma, HSum;
    var acc0, acc1, acc2, acc3 := Zero(width), Zero(width), Zero(width), Zero(width);
    var k := 0;
    while k + 4 * width <= |a|
      invariant 0 <= k <= |a| && |acc0| == |acc1| == |acc2| == |acc3| == width
      invariant HSum(acc0) + HSum(acc1) + HSum(acc2) + HSum(acc3) == Plain(a, b, k)
      decreases |a| - k
    {
      FmaAdvances(a, b, k, acc0);
      FmaAdvances(a, b, k + width, acc1);
      FmaAdvances(a, b, k + 2 * width, acc2);
      FmaAdvances(a, b, k + 3 * width, acc3);
      acc0 := Fma(a, b, k, acc0);
      acc1 := Fma(a, b, k + width, acc1);
      acc2 := Fma(a, b, k + 2 * width, acc2);
      acc3 := Fma(a, b, k + 3 * width, acc3);
      k := k + 4 * width;
    }
    HSumAdds(acc0, acc1);
    HSumAdds(acc2, acc3);
    HSumAdds(Add(acc0, acc1), Add(acc2, acc3));
    acc0 := Add(Add(acc0, acc1), Add(acc2, acc3));
    while k + width <= |a|
      invariant 0 <= k <= |a| && |acc0| == width && HSum(acc0) == Plain(a, b, k)
      decreases |a| - k
    {
      FmaAdvances(a, b, k, acc0);
      acc0 := Fma(a, b, k, acc0);
      k := k + width;
    }
    result := ScalarTail(a, b, k, HSum(acc0));
  }

  /** The vector kernel with two accumulators and no vector tail. */
  method DotTwo(a: Vec, b: Vec, width: nat) returns (result: real)
    requires |a| == |b| && width > 0
    ensures result == Plain(a, b, |a|)
  {
    var head, k := TwoAccumulators(a, b, width);
    result := ScalarTail(a, b, k, head);
  }

  /** The loop that the two-accumulator kernel and each of four interleaved samples run. */
  method TwoAccumulators(a: Vec, b: Vec, width: nat) returns (head: real, k: nat)
    requires |a| == |b| && width > 0
    ensures k <= |a| < k + 2 * width && head == Plain(a, b, k)
  {
    hide Times, Fma, HSum;
    var acc0, acc1 := Zero(width), Zero(width);
    k := 0;
    while k + 2 * width <= |a|
      invariant 0 <= k <= |a| && |acc0| == |acc1| == width
      invariant HSum(acc0) + HSum(acc1) == Plain(a, b, k)
      decreases |a| - k
    {
      FmaAdvances(a, b, k, acc0);
      FmaAdvances(a, b, k + width, acc1);
      acc0 := Fma(a, b, k, acc0);
      acc1 := Fma(a, b, k + width, acc1);
      k := k + 2 * width;
    }
    HSumAdds(acc0, acc1);
    head := HSum(Add(acc0, acc1));
  }

  method ScalarTail(a: Vec, b: Vec, from: nat, start: real) returns (result: real)
    requires |a| == |b| && from <= |a| && start == Plain(a, b, from)
    ensures result == Plain(a, b, |a|)
  {
    result := start;
    var k := from;
    while k < |a|
      invariant from <= k <= |a| && result == Plain(a, b, k)
    {
      result := result + Times(a[k], b[k]);
      k := k + 1;
    }
  }

  /** The instruction set the library is built for. */
  datatype Target = Avx | Neon | Portable

  /** `dot`. */
  method Dot(target: Target, a: Vec, b: Vec, width: nat) returns (result: real)
    requires |a| == |b| && width > 0
    ensures result == Plain(a, b, |a|)
  {
    match target {
      case Avx => result := DotFour(a, b, width);
      case Neon => result := DotTwo(a, b, width);
      case Portable => result := ScalarTail(a, b, 0, 0.0);
    }
  }

  // ---------------------------------------------------------------- four samples at a time

  /** The interleaved loop: four samples share the loads of the weights, each has accumulators of its own. */
  method FourSamples(w: Vec, x: seq<Vec>, s: nat, bias: real, width: nat, output: array<real>)
    requires width > 0 && s + 4 <= |x| == output.Length
    requires forall i :: 0 <= i < |x| ==> |x[i]| == |w|
    modifies output
    ensures forall i :: s <= i < s + 4 ==> output[i] == Plain(x[i], w, |w|) + bias
    ensures forall i :: 0 <= i < output.Length && !(s <= i < s + 4) ==> output[i] == old(output[i])
  {
    hide Times, Fma, HSum;
    var first := seq(4, i => Zero(width));
    var second := first;
    var k := 0;
    while k + 2 * width <= |w|
      invariant 0 <= k <= |w| && |first| == |second| == 4
      invariant forall i :: 0 <= i < 4 ==> |first[i]| == |second[i]| == width
      invariant forall i :: 0 <= i < 4 ==> HSum(first[i]) + HSum(second[i]) == Plain(x[s + i], w, k)
      decreases |w| - k
    {
      forall i | 0 <= i < 4
        ensures HSum(Fma(x[s + i], w, k, first[i])) + HSum(Fma(x[s + i], w, k + width, second[i])) == Plain(x[s + i], w, k + 2 * width)
      {
        FmaAdvances(x[s + i], w, k, first[i]);
        FmaAdvances(x[s + i], w, k + width, second[i]);
      }
      first := seq(4, i requires 0 <= i < 4 => Fma(x[s + i], w, k, first[i]));
      second := seq(4, i requires 0 <= i < 4 => Fma(x[s + i], w, k + width, second[i]));
      k := k + 2 * width;
    }
    StoreFour(first, second, bias, s, output);
    assert forall j :: s <= j < s + 4 ==> HSum(first[j - s]) + HSum(second[j - s]) == Plain(x[j], w, k);
    FourTails(w, x, s, bias, k, output);
  }

  /** The products the vectors left over, added to the four outputs. */
  method FourTails(w: Vec, x: seq<Vec>, s: nat, bias: real, from: nat, output: array<real>)
    requires from <= |w| && s + 4 <= |x| == output.Length
    requires forall i :: 0 <= i < |x| ==> |x[i]| == |w|
    requires forall j :: s <= j < s + 4 ==> output[j] == Plain(x[j], w, from) + bias
    modifies output
    ensures forall j :: s <= j < s + 4 ==> output[j] == Plain(x[j], w, |w|) + bias
    ensures forall j :: 0 <= j < output.Length && !(s <= j < s + 4) ==> output[j] == old(output[j])
  {
    hide Times;
    var k := from;
    while k < |w|
      invariant from <= k <= |w|
      invariant forall j :: s <= j < s + 4 ==> output[j] == Plain(x[j], w, k) + bias
      invariant forall j :: 0 <= j < output.Length && !(s <= j < s + 4) ==> output[j] == old(output[j])
    {
      output[s] := output[s] + Times(x[s][k], w[k]);
      output[s + 1] := output[s + 1] + Times(x[s + 1][k], w[k]);
      output[s + 2] := output[s + 2] + Times(x[s + 2][k], w[k]);
      output[s + 3] := output[s + 3] + Times(x[s + 3][k], w[k]);
      k := k + 1;
    }
  }

  method StoreFour(first: seq<Lanes>, second: seq<Lanes>, bias: real, s: nat, output: array<real>)
    requires |first| == |second| == 4 && forall i :: 0 <= i < 4 ==> |first[i]| == |second[i]|
    requires s + 4 <= output.Length
    modifies output
    ensures forall j :: s <= j < s + 4 ==> output[j] == HSum(first[j - s]) + HSum(second[j - s]) + bias
    ensures forall j :: 0 <= j < output.Length && !(s <= j < s + 4) ==> output[j] == old(output[j])
  {
    hide HSum;
    var i := 0;
    while i < 4
      invariant 0 <= i <= 4
      invariant forall j :: s <= j < s + i ==> output[j] == HSum(first[j - s]) + HSum(second[j - s]) + bias
      invariant forall j :: 0 <= j < output.Length && !(s <= j < s + 4) ==> output[j] == old(output[j])
    {
      HSumAdds(first[i], second[i]);
      output[s + i] := HSum(Add(first[i], second[i])) + bias;
      i := i + 1;
    }
  }

  /** `predict_single_output`: whatever the target and the number of samples and lanes, every output is the plain sum
      plus bias. */
  method PredictSingleOutput(target: Target, w: Vec, intercept: Vec, x: seq<Vec>, width: nat) returns (output: array<real>)
    requires width > 0 && forall i :: 0 <= i < |x| ==> |x[i]| == |w|
    ensures output.Length == |x|
    ensures forall i :: 0 <= i < |x| ==> output[i] == Plain(x[i], w, |w|) + if intercept == [] then 0.0 else intercept[0]
  {
    var bias := if intercept == [] then 0.0 else intercept[0];
    output := new real[|x|];
    var s := 0;
    while !target.Portable? && s + 4 <= |x|
      invariant 0 <= s <= |x|
      invariant forall i :: 0 <= i < s ==> output[i] == Plain(x[i], w, |w|) + bias
      decreases |x| - s
    {
      FourSamples(w, x, s, bias, width, output);
      s := s + 4;
    }
    while s < |x|
      invariant 0 <= s <= |x|
      invariant forall i :: 0 <= i < s ==> output[i] == Plain(x[i], w, |w|) + bias
    {
      var d := Dot(target, x[s], w, width);
      output[s] := d + bias;
      s := s + 1;
    }
  }
}
