/** The model schema: per-feature policies of src/model_schema.cpp, and the load-time rewrite of
    src/graph_loader.cpp that publishes all features as one wide tensor. */
module Schema {
  import opened Nums
  import opened Wrappers
  import opened ValueStores

  // ---------------------------------------------------------------- policies

  datatype MissingPolicy = Propagate | MissingAsValue | AsInvalid
  datatype InvalidPolicy = ReturnInvalid | InvalidAsIs | InvalidAsMissing | InvalidAsValue
  datatype OutlierPolicy = OutlierAsIs | OutlierAsMissing | AsExtreme

  /** An absent end is unbounded. */
  datatype Interval = Interval(left: Option<real>, right: Option<real>, leftOpen: bool, rightOpen: bool)

  datatype Domain =
    | Unrestricted
    | Continuous(intervals: seq<Interval>)
    | Discrete(valid: set<real>, invalid: set<real>, missing: set<real>)

  datatype Feature = Feature(
    name: string, source: string, col: nat, text: bool,
    missing: MissingPolicy, missingValue: Num, invalid: InvalidPolicy, invalidValue: Num, outlier: OutlierPolicy,
    domain: Domain)

  /** `narrow` rounds a double to a float; `above` and `below` are the neighbouring floats. */
  datatype Floats = Floats(narrow: real -> real, above: real -> real, below: real -> real)

  predicate Contains(iv: Interval, v: real) {
    && (iv.left.Some? ==> if iv.leftOpen then v > iv.left.value else v >= iv.left.value)
    && (iv.right.Some? ==> if iv.rightOpen then v < iv.right.value else v <= iv.right.value)
  }

  function Low(fl: Floats, iv: Interval): Option<real> {
    if iv.left.Some? then Some(if iv.leftOpen then fl.above(iv.left.value) else iv.left.value) else None
  }

  function High(fl: Floats, iv: Interval): Option<real> {
    if iv.right.Some? then Some(if iv.rightOpen then fl.below(iv.right.value) else iv.right.value) else None
  }

  function ClampTo(fl: Floats, iv: Interval, v: real): real {
    var lo, hi := Low(fl, iv), High(fl, iv);
    if lo.Some? && hi.Some? && lo.value > hi.value then (lo.value + hi.value) * 0.5
    else if lo.Some? && v < lo.value then lo.value
    else if hi.Some? && v > hi.value then hi.value
    else v
  }

  function Distance(a: real, b: real): (d: real)
    ensures d >= 0.0
  {
    if a < b then b - a else a - b
  }

  /** The first of the nearest clamped values. */
  function Nearest(fl: Floats, ivs: seq<Interval>, v: real): (r: Option<real>)
    ensures r.None? <==> ivs == []
  {
    if ivs == [] then None
    else
      var n := |ivs| - 1;
      var best := Nearest(fl, ivs[..n], v);
      var c := ClampTo(fl, ivs[n], v);
      if best.None? || Distance(c, v) < Distance(best.value, v) then Some(c) else best
  }

  /** `clamp_to_extreme`. */
  method ClampToExtreme(fl: Floats, ivs: seq<Interval>, v: real) returns (best: Option<real>)
    ensures best == Nearest(fl, ivs, v)
  {
    best := None;
    var bestDistance := 0.0;
    var i := 0;
    while i < |ivs|
      invariant 0 <= i <= |ivs| && best == Nearest(fl, ivs[..i], v)
      invariant best.Some? ==> bestDistance == Distance(best.value, v)
    {
      assert ivs[..i + 1][..i] == ivs[..i];
      var c := ClampTo(fl, ivs[i], v);
      var d := Distance(c, v);
      if best.None? || d < bestDistance {
        bestDistance := d;
        best := Some(c);
      }
      i := i + 1;
    }
    assert ivs[..i] == ivs;
  }

  predicate Closed(iv: Interval) {
    && (iv.left.Some? ==> !iv.leftOpen) && (iv.right.Some? ==> !iv.rightOpen)
    && (iv.left.Some? && iv.right.Some? ==> iv.left.value <= iv.right.value)
  }

  lemma ClampIsClosest(fl: Floats, iv: Interval, v: real)
    requires Closed(iv)
    ensures Contains(iv, ClampTo(fl, iv, v))
    ensures forall x :: Contains(iv, x) ==> Distance(ClampTo(fl, iv, v), v) <= Distance(x, v)
  {
  }

  /** The nearest clamped value lies in one of the intervals. */
  lemma {:induction false} NearestInside(fl: Floats, ivs: seq<Interval>, v: real) returns (i: nat)
    requires ivs != [] && forall i :: 0 <= i < |ivs| ==> Closed(ivs[i])
    ensures i < |ivs| && Contains(ivs[i], Nearest(fl, ivs, v).value)
  {
    var n := |ivs| - 1;
    ClampIsClosest(fl, ivs[n], v);
    hide ClampTo, Contains, Distance, Closed;
    if Nearest(fl, ivs, v).value == ClampTo(fl, ivs[n], v) {
      i := n;
    } else {
      i := NearestInside(fl, ivs[..n], v);
    }
  }

  /** No point of any interval is nearer. */
  lemma {:induction false} NearestBelow(fl: Floats, ivs: seq<Interval>, v: real, i: nat, x: real)
    requires i < |ivs| && (forall i :: 0 <= i < |ivs| ==> Closed(ivs[i])) && Contains(ivs[i], x)
    ensures Distance(Nearest(fl, ivs, v).value, v) <= Distance(x, v)
  {
    var n := |ivs| - 1;
    ClampIsClosest(fl, ivs[i], v);
    hide ClampTo, Contains, Distance, Closed;
    if i < n { NearestBelow(fl, ivs[..n], v, i, x); }
  }

  /** Clamping into closed intervals gives the point of their union nearest to v. */
  lemma NearestIsClosest(fl: Floats, ivs: seq<Interval>, v: real)
    requires ivs != [] && forall i :: 0 <= i < |ivs| ==> Closed(ivs[i])
    ensures exists i :: 0 <= i < |ivs| && Contains(ivs[i], Nearest(fl, ivs, v).value)
    ensures forall i, x :: 0 <= i < |ivs| && Contains(ivs[i], x) ==> Distance(Nearest(fl, ivs, v).value, v) <= Distance(x, v)
  {
    var k := NearestInside(fl, ivs, v);
    hide Nearest, Contains, Distance, Closed;
    forall i, x | 0 <= i < |ivs| && Contains(ivs[i], x) ensures Distance(Nearest(fl, ivs, v).value, v) <= Distance(x, v) {
      NearestBelow(fl, ivs, v, i, x);
    }
  }

  function HandleInvalid(f: Feature, raw: Num): Num {
    match f.invalid
    case InvalidAsIs => raw
    case InvalidAsValue => f.invalidValue
    case ReturnInvalid => NaN
    case InvalidAsMissing => NaN
  }

  predicate Missing(f: Feature, raw: Num) {
    raw.NaN? || (f.domain.Discrete? && raw.val in f.domain.missing)
  }

  predicate Invalid(f: Feature, raw: Num) {
    raw.R? && f.domain.Discrete? &&
    (raw.val in f.domain.invalid || (f.domain.valid != {} && raw.val !in f.domain.valid))
  }

  predicate Outlier(f: Feature, raw: Num) {
    raw.R? && f.domain.Continuous? && f.domain.intervals != [] &&
    forall i :: 0 <= i < |f.domain.intervals| ==> !Contains(f.domain.intervals[i], raw.val)
  }

  /** `apply_schema`. */
  function Apply(fl: Floats, f: Feature, raw: Num): Num {
    if Missing(f, raw) then
      match f.missing
      case Propagate => NaN
      case MissingAsValue => f.missingValue
      case AsInvalid => HandleInvalid(f, raw)
    else if Invalid(f, raw) then HandleInvalid(f, raw)
    else if Outlier(f, raw) then
      match f.outlier
      case OutlierAsIs => raw
      case OutlierAsMissing => NaN
      case AsExtreme => R(Nearest(fl, f.domain.intervals, raw.val).value)
    else raw
  }

  /** Under "as extreme value" and closed intervals no number leaves the schema outside its intervals. */
  lemma ExtremeIsAllowed(fl: Floats, f: Feature, raw: Num)
    requires f.domain.Continuous? && f.outlier == AsExtreme && raw.R?
    requires forall i :: 0 <= i < |f.domain.intervals| ==> Closed(f.domain.intervals[i])
    ensures Apply(fl, f, raw).R? && !Outlier(f, Apply(fl, f, raw))
    ensures !Outlier(f, raw) ==> Apply(fl, f, raw) == raw
  {
    if Outlier(f, raw) { NearestIsClosest(fl, f.domain.intervals, raw.val); }
  }

  /** Every way through the schema: a missing value by the missing policy, an invalid one by the invalid policy, an
      outlier by the outlier policy, and any other number unchanged. */
  lemma ApplyMeans(fl: Floats, f: Feature, raw: Num)
    ensures var missing := raw.NaN? || (f.domain.Discrete? && raw.val in f.domain.missing);
      var invalid := !missing && f.domain.Discrete? &&
        (raw.val in f.domain.invalid || (f.domain.valid != {} && raw.val !in f.domain.valid));
      var outside := raw.R? && f.domain.Continuous? && f.domain.intervals != [] &&
        forall i :: 0 <= i < |f.domain.intervals| ==> !Contains(f.domain.intervals[i], raw.val);
      var treated := invalid || (missing && f.missing == AsInvalid);
      && (missing && f.missing == Propagate ==> Apply(fl, f, raw) == NaN)
      && (missing && f.missing == MissingAsValue ==> Apply(fl, f, raw) == f.missingValue)
      && (treated && f.invalid in {ReturnInvalid, InvalidAsMissing} ==> Apply(fl, f, raw) == NaN)
      && (treated && f.invalid == InvalidAsIs ==> Apply(fl, f, raw) == raw)
      && (treated && f.invalid == InvalidAsValue ==> Apply(fl, f, raw) == f.invalidValue)
      && (outside && f.outlier == OutlierAsIs ==> Apply(fl, f, raw) == raw)
      && (outside && f.outlier == OutlierAsMissing ==> Apply(fl, f, raw) == NaN)
      && (outside && f.outlier == AsExtreme ==> Apply(fl, f, raw) == R(Nearest(fl, f.domain.intervals, raw.val).value))
      && (!missing && !invalid && !outside ==> Apply(fl, f, raw) == raw)
  {
  }

  /** An interval contains a number between its ends, an open end excluded. */
  lemma ContainsMeans(iv: Interval, v: real)
    ensures Contains(iv, v) <==>
      && !(iv.left.Some? && (v < iv.left.value || (iv.leftOpen && v == iv.left.value)))
      && !(iv.right.Some? && (v > iv.right.value || (iv.rightOpen && v == iv.right.value)))
  {
  }

  /** Clamping to an open end gives the float next to it, inside; ends that cross leave the middle between them. */
  lemma OpenEnds(fl: Floats, iv: Interval, v: real)
    ensures iv.left.Some? && iv.leftOpen && iv.right.None? ==>
      ClampTo(fl, iv, v) == if v < fl.above(iv.left.value) then fl.above(iv.left.value) else v
    ensures iv.right.Some? && iv.rightOpen && iv.left.None? ==>
      ClampTo(fl, iv, v) == if v > fl.below(iv.right.value) then fl.below(iv.right.value) else v
    ensures iv.left.Some? && iv.leftOpen && iv.right.Some? && iv.rightOpen ==>
      var (lo, hi) := (fl.above(iv.left.value), fl.below(iv.right.value));
      ClampTo(fl, iv, v) == if lo > hi then (lo + hi) * 0.5 else if v < lo then lo else if v > hi then hi else v
  {
  }

  function Rounded(fl: Floats, v: Num): Num {
    if v.R? then R(fl.narrow(v.val)) else NaN
  }

  /** Decided on the float value; a double that the schema leaves alone keeps its width. */
  function Adjusted(fl: Floats, f: Feature, raw: Num, wide: bool): Num {
    if !wide then Apply(fl, f, raw)
    else
      var adj := Apply(fl, f, Rounded(fl, raw));
      if adj.R? && adj == Rounded(fl, raw) then raw else adj
  }

  /** The schema decides on the float; a double that its float passes unchanged is kept to the last bit. */
  lemma AdjustedMeans(fl: Floats, f: Feature, raw: Num)
    ensures Adjusted(fl, f, raw, false) == Apply(fl, f, raw)
    ensures raw.NaN? ==> Adjusted(fl, f, raw, true) == Apply(fl, f, NaN)
    ensures raw.R? ==> var x := R(fl.narrow(raw.val));
      Adjusted(fl, f, raw, true) == if Apply(fl, f, x) == x then raw else Apply(fl, f, x)
  {
  }

  // ---------------------------------------------------------------- tensors and the schema node

  datatype Tensor = Numeric(wide: bool, cols: nat, rows: seq<seq<Num>>) | Text(labels: seq<seq<string>>)

  type Env = map<string, Tensor>

  predicate Shaped(t: Tensor, n: nat) {
    t.Numeric? ==> |t.rows| == n && forall r :: 0 <= r < n ==> |t.rows[r]| == t.cols
  }

  /** The column a feature publishes. */
  function FeatureTensor(fl: Floats, f: Feature, src: Tensor, n: nat): (t: Tensor)
    requires src.Numeric? && Shaped(src, n) && f.col < src.cols
    ensures t.Numeric? && t.wide == src.wide && t.cols == 1 && Shaped(t, n)
    ensures forall r :: 0 <= r < n ==> t.rows[r] == [Adjusted(fl, f, src.rows[r][f.col], src.wide)]
  {
    Numeric(src.wide, 1, seq(n, r requires 0 <= r < n => [Adjusted(fl, f, src.rows[r][f.col], src.wide)]))
  }

  function BatchRow(fl: Floats, fs: seq<Feature>, row: seq<Num>, wide: bool): (out: seq<Num>)
    requires forall f :: f in fs ==> f.col < |row|
    ensures |out| == |fs|
  {
    seq(|fs|, i requires 0 <= i < |fs| => Adjusted(fl, fs[i], row[fs[i].col], wide))
  }

  function BatchTensor(fl: Floats, fs: seq<Feature>, src: Tensor, n: nat): (t: Tensor)
    requires src.Numeric? && Shaped(src, n) && forall f :: f in fs ==> f.col < src.cols
    ensures t.Numeric? && t.wide == src.wide && t.cols == |fs| && Shaped(t, n)
    ensures forall r :: 0 <= r < n ==> t.rows[r] == BatchRow(fl, fs, src.rows[r], src.wide)
  {
    Numeric(src.wide, |fs|, seq(n, r requires 0 <= r < n => BatchRow(fl, fs, src.rows[r], src.wide)))
  }

  /** The per-feature path, feature by feature; reading a column that is not there is `None`. */
  function PerFeature(fl: Floats, fs: seq<Feature>, env: Env, consts: Env, n: nat): Option<Env> {
    if fs == [] then Some(env)
    else
      var last := fs[|fs| - 1];
      match PerFeature(fl, fs[..|fs| - 1], env, consts, n)
      case None => None
      case Some(m) =>
        match Lookup(m, consts, last.source)
        case None => None
        case Some(src) =>
          if src.Text? then Some(if last.name != last.source then m[last.name := src] else m)
          else if Shaped(src, n) && last.col < src.cols then Some(m[last.name := FeatureTensor(fl, last, src, n)])
          else None
  }

  function BatchKey(fs: seq<Feature>): string
    requires fs != []
  {
    fs[0].source + "__batch__"
  }

  /** `ModelSchemaNode::execute`. */
  function Run(fl: Floats, fs: seq<Feature>, batch: bool, env: Env, consts: Env, n: nat): Option<Env> {
    if batch && fs != [] then
      match Lookup(env, consts, fs[0].source)
      case None => None
      case Some(src) =>
        if src.Text? then PerFeature(fl, fs, env, consts, n)
        else if Shaped(src, n) && forall f :: f in fs ==> f.col < src.cols
        then Some(env[BatchKey(fs) := BatchTensor(fl, fs, src, n)])
        else None
    else PerFeature(fl, fs, env, consts, n)
  }

  // ---------------------------------------------------------------- the loader

  /** Lines 1692 to 1709: one shared source, columns in order, nothing declared as text. */
  predicate CanBatch(fs: seq<Feature>) {
    fs != [] && forall i :: 0 <= i < |fs| ==> fs[i].source == fs[0].source && fs[i].col == i && !fs[i].text
  }

  /** The map from feature names to indices, the last feature of a name winning. */
  function IndexOf(fs: seq<Feature>, name: string): Option<nat> {
    if fs == [] then None
    else if fs[|fs| - 1].name == name then Some(|fs| - 1)
    else IndexOf(fs[..|fs| - 1], name)
  }

  predicate AllInOrder(fs: seq<Feature>, ins: seq<string>) {
    ins != [] && |ins| == |fs| && forall i :: 0 <= i < |ins| ==> IndexOf(fs, ins[i]) == Some(i)
  }

  /** The input list of a node after loading. */
  function Patched(fs: seq<Feature>, ins: seq<string>): seq<string> {
    if CanBatch(fs) && AllInOrder(fs, ins) then [BatchKey(fs)] else ins
  }

  lemma {:induction false} IndexOfFinds(fs: seq<Feature>, name: string)
    ensures var i := IndexOf(fs, name);
      if i.None? then forall j :: 0 <= j < |fs| ==> fs[j].name != name
      else i.value < |fs| && fs[i.value].name == name && forall j :: i.value < j < |fs| ==> fs[j].name != name
  {
    if fs != [] && fs[|fs| - 1].name != name {
      IndexOfFinds(fs[..|fs| - 1], name);
      forall j | 0 <= j < |fs| - 1 ensures fs[..|fs| - 1][j] == fs[j] { }
    }
  }

  /** The loader's check makes sure that the inputs are the features, and that no two share a name. */
  lemma InOrderMeansDistinct(fs: seq<Feature>, ins: seq<string>)
    requires AllInOrder(fs, ins)
    ensures forall i :: 0 <= i < |fs| ==> ins[i] == fs[i].name
    ensures forall i, j :: 0 <= i < j < |fs| ==> fs[i].name != fs[j].name
  {
    forall i | 0 <= i < |fs| ensures ins[i] == fs[i].name && forall j :: i < j < |fs| ==> fs[j].name != fs[i].name {
      IndexOfFinds(fs, ins[i]);
    }
  }

  // ---------------------------------------------------------------- gathering

  /** The width a consumer asks for: `gather_slots` takes the first slot's, `concat_inputs` the widest. */
  datatype Want = FirstSlot | Widest | Float | Double

  function Fetch(names: seq<string>, env: Env, consts: Env): (r: Option<seq<Tensor>>)
    ensures r.Some? ==> |r.value| == |names|
  {
    if names == [] then Some([])
    else
      match Fetch(names[..|names| - 1], env, consts)
      case None => None
      case Some(ts) =>
        match Lookup(env, consts, names[|names| - 1])
        case None => None
        case Some(t) => Some(ts + [t])
  }

  function IsWide(ts: seq<Tensor>, want: Want): bool {
    match want
    case Float => false
    case Double => true
    case FirstSlot => ts != [] && ts[0].Numeric? && ts[0].wide
    case Widest => exists i :: 0 <= i < |ts| && ts[i].Numeric? && ts[i].wide
  }

  function Cast(fl: Floats, t: Tensor, wide: bool, row: seq<Num>): (r: seq<Num>)
    requires t.Numeric?
    ensures |r| == |row|
  {
    if t.wide && !wide then seq(|row|, i requires 0 <= i < |row| => Rounded(fl, row[i])) else row
  }

  function WideRow(fl: Floats, ts: seq<Tensor>, wide: bool, n: nat, r: nat): seq<Num>
    requires r < n && forall t :: t in ts ==> t.Numeric? && Shaped(t, n)
  {
    if ts == [] then []
    else
      var last := ts[|ts| - 1];
      assert last in ts && Shaped(last, n);
      WideRow(fl, ts[..|ts| - 1], wide, n, r) + Cast(fl, last, wide, last.rows[r])
  }

  /** The rows of the matrix a consumer sees, with its element width. */
  function Gathered(fl: Floats, names: seq<string>, env: Env, consts: Env, n: nat, want: Want): Option<(bool, seq<seq<Num>>)> {
    match Fetch(names, env, consts)
    case None => None
    case Some(ts) =>
      if forall t :: t in ts ==> t.Numeric? && Shaped(t, n)
      then Some((IsWide(ts, want), seq(n, r requires 0 <= r < n => WideRow(fl, ts, IsWide(ts, want), n, r))))
      else None
  }

  /** What a consumer of one tensor sees: its elements, rounded where it asks for floats and gets doubles. */
  lemma OneTensorGathered(fl: Floats, name: string, env: Env, consts: Env, n: nat, want: Want, t: Tensor, r: nat, c: nat)
    requires Lookup(env, consts, name) == Some(t) && t.Numeric? && Shaped(t, n) && r < n && c < t.cols
    ensures var g := Gathered(fl, [name], env, consts, n, want);
      && g.Some? && g.value.0 == (want == Double || (want != Float && t.wide))
      && |g.value.1| == n && |g.value.1[r]| == t.cols
      && g.value.1[r][c] ==
           if t.wide && want == Float && t.rows[r][c].R? then R(fl.narrow(t.rows[r][c].val)) else t.rows[r][c]
  {
    FetchAll([name], env, consts, [t]);
    var wide := IsWide([t], want);
    assert [t][0] == t && [t][..0] == [];
    assert WideRow(fl, [t], wide, n, r) == [] + Cast(fl, t, wide, t.rows[r]);
  }

  /** The width of what is gathered: the first slot's, or the widest, as the consumer asks. */
  lemma WidthGathered(fl: Floats, names: seq<string>, env: Env, consts: Env, n: nat, want: Want, ts: seq<Tensor>)
    requires Fetch(names, env, consts) == Some(ts) && ts != []
    requires forall t :: t in ts ==> t.Numeric? && Shaped(t, n)
    ensures var g := Gathered(fl, names, env, consts, n, want);
      && g.Some?
      && (want == FirstSlot ==> g.value.0 == ts[0].wide)
      && (want == Widest ==> (g.value.0 <==> exists i :: 0 <= i < |ts| && ts[i].wide))
  {
    assert ts[0] in ts;
    if i :| 0 <= i < |ts| && ts[i].wide { assert ts[i] in ts; }
  }

  /** The name a rewired consumer reads. */
  lemma PatchedMeans(fs: seq<Feature>, ins: seq<string>)
    requires CanBatch(fs) && AllInOrder(fs, ins)
    ensures Patched(fs, ins) == [fs[0].source + "__batch__"]
  {
  }

  // ---------------------------------------------------------------- one tensor for n features

  /** No feature hides the source from the features after it. */
  predicate SourceStays(fs: seq<Feature>)
    requires fs != []
  {
    forall i :: 0 <= i < |fs| - 1 ==> fs[i].name != fs[0].source
  }

  predicate Distinct(fs: seq<Feature>) {
    forall i, j :: 0 <= i < j < |fs| ==> fs[i].name != fs[j].name
  }

  /** After the first k features every one of them holds its column, and the source is still there. */
  lemma {:induction false} FeaturesPublished(fl: Floats, fs: seq<Feature>, env: Env, consts: Env, n: nat, src: Tensor, k: nat)
    requires CanBatch(fs) && Distinct(fs) && SourceStays(fs) && k <= |fs|
    requires Lookup(env, consts, fs[0].source) == Some(src) && src.Numeric? && Shaped(src, n) && |fs| <= src.cols
    ensures PerFeature(fl, fs[..k], env, consts, n).Some?
    ensures var m := PerFeature(fl, fs[..k], env, consts, n).value;
      && (k < |fs| ==> Lookup(m, consts, fs[0].source) == Some(src))
      && forall i :: 0 <= i < k ==> fs[i].name in m && m[fs[i].name] == FeatureTensor(fl, fs[i], src, n)
  {
    hide Shaped, FeatureTensor;
    if k > 0 {
      FeaturesPublished(fl, fs, env, consts, n, src, k - 1);
      assert fs[..k][..k - 1] == fs[..k - 1] && fs[..k][k - 1] == fs[k - 1];
    }
  }

  lemma {:induction false} FetchAll(names: seq<string>, env: Env, consts: Env, ts: seq<Tensor>)
    requires |names| == |ts| && forall i :: 0 <= i < |names| ==> Lookup(env, consts, names[i]) == Some(ts[i])
    ensures Fetch(names, env, consts) == Some(ts)
  {
    if names != [] {
      FetchAll(names[..|names| - 1], env, consts, ts[..|ts| - 1]);
      assert ts[..|ts| - 1] + [ts[|ts| - 1]] == ts;
    }
  }

  function FeatureTensors(fl: Floats, fs: seq<Feature>, src: Tensor, n: nat): (ts: seq<Tensor>)
    requires src.Numeric? && Shaped(src, n) && forall f :: f in fs ==> f.col < src.cols
    ensures |ts| == |fs| && forall i :: 0 <= i < |fs| ==> ts[i] == FeatureTensor(fl, fs[i], src, n)
  {
    seq(|fs|, i requires 0 <= i < |fs| => FeatureTensor(fl, fs[i], src, n))
  }

  /** One published column is one column of the batch, in whatever width it is read. */
  lemma OneColumn(fl: Floats, fs: seq<Feature>, src: Tensor, n: nat, wide: bool, r: nat, i: nat)
    requires src.Numeric? && Shaped(src, n) && r < n && i < |fs| && forall f :: f in fs ==> f.col < src.cols
    ensures var (col, batch) := (FeatureTensor(fl, fs[i], src, n), BatchTensor(fl, fs, src, n));
      Cast(fl, col, wide, col.rows[r]) == [Cast(fl, batch, wide, batch.rows[r])[i]]
  {
    hide Adjusted;
  }

  lemma ColumnsShaped(fl: Floats, fs: seq<Feature>, src: Tensor, n: nat)
    requires src.Numeric? && Shaped(src, n) && forall f :: f in fs ==> f.col < src.cols
    ensures forall t :: t in FeatureTensors(fl, fs, src, n) ==> t.Numeric? && Shaped(t, n)
  {
  }

  /** Side by side, the n columns are the wide rows. */
  lemma {:induction false} ColumnsAreBatch(fl: Floats, fs: seq<Feature>, src: Tensor, n: nat, wide: bool, r: nat, k: nat)
    requires src.Numeric? && Shaped(src, n) && r < n && k <= |fs| && forall f :: f in fs ==> f.col < src.cols
    ensures forall t :: t in FeatureTensors(fl, fs, src, n)[..k] ==> t.Numeric? && Shaped(t, n)
    ensures var batch := BatchTensor(fl, fs, src, n);
      WideRow(fl, FeatureTensors(fl, fs, src, n)[..k], wide, n, r) == Cast(fl, batch, wide, batch.rows[r])[..k]
  {
    hide Cast, Adjusted, Shaped, FeatureTensor, BatchTensor, FeatureTensors;
    ColumnsShaped(fl, fs, src, n);
    var ts := FeatureTensors(fl, fs, src, n);
    if k > 0 {
      ColumnsAreBatch(fl, fs, src, n, wide, r, k - 1);
      OneColumn(fl, fs, src, n, wide, r, k - 1);
      assert ts[..k][..k - 1] == ts[..k - 1] && ts[..k][k - 1] == ts[k - 1];
    }
  }

  lemma GatheredTensors(fl: Floats, fs: seq<Feature>, src: Tensor, n: nat, want: Want, names: seq<string>, key: string,
                        env1: Env, env2: Env, consts: Env)
    requires fs != [] && src.Numeric? && Shaped(src, n) && forall f :: f in fs ==> f.col < src.cols
    requires Fetch(names, env1, consts) == Some(FeatureTensors(fl, fs, src, n))
    requires Fetch([key], env2, consts) == Some([BatchTensor(fl, fs, src, n)])
    ensures Gathered(fl, names, env1, consts, n, want) == Gathered(fl, [key], env2, consts, n, want)
    ensures Gathered(fl, names, env1, consts, n, want).Some?
  {
    var ts, batch := FeatureTensors(fl, fs, src, n), BatchTensor(fl, fs, src, n);
    assert ts[0].wide == src.wide && forall i :: 0 <= i < |ts| ==> ts[i].wide == src.wide;
    var wide := IsWide(ts, want);
    assert [batch][0].wide == src.wide && IsWide([batch], want) == wide;
    forall r | 0 <= r < n ensures WideRow(fl, ts, wide, n, r) == WideRow(fl, [batch], wide, n, r) {
      OneWideRow(fl, fs, src, n, wide, r);
    }
    hide WideRow, IsWide, Shaped, BatchTensor;
    var rows1 := seq(n, r requires 0 <= r < n => WideRow(fl, ts, wide, n, r));
    var rows2 := seq(n, r requires 0 <= r < n => WideRow(fl, [batch], wide, n, r));
    assert rows1 == rows2;
  }

  lemma OneWideRow(fl: Floats, fs: seq<Feature>, src: Tensor, n: nat, wide: bool, r: nat)
    requires src.Numeric? && Shaped(src, n) && r < n && forall f :: f in fs ==> f.col < src.cols
    ensures forall t :: t in FeatureTensors(fl, fs, src, n) ==> t.Numeric? && Shaped(t, n)
    ensures WideRow(fl, FeatureTensors(fl, fs, src, n), wide, n, r) == WideRow(fl, [BatchTensor(fl, fs, src, n)], wide, n, r)
  {
    var ts, batch := FeatureTensors(fl, fs, src, n), BatchTensor(fl, fs, src, n);
    ColumnsShaped(fl, fs, src, n);
    ColumnsAreBatch(fl, fs, src, n, wide, r, |fs|);
    assert ts[..|fs|] == ts && [batch][..0] == [];
    var row := Cast(fl, batch, wide, batch.rows[r]);
    assert row[..|fs|] == row && [] + row == row;
  }

  /** A consumer of all features in order sees the same matrix, in the same width, whatever width it asks for,
      exactly when no feature before the last is named after the source. */
  lemma BatchMeansFeatures(fl: Floats, fs: seq<Feature>, ins: seq<string>, env: Env, consts: Env, n: nat, src: Tensor, want: Want)
    requires CanBatch(fs) && AllInOrder(fs, ins)
    requires Lookup(env, consts, fs[0].source) == Some(src) && src.Numeric? && Shaped(src, n) && |fs| <= src.cols
    ensures Run(fl, fs, true, env, consts, n).Some?
    ensures var wide := Run(fl, fs, true, env, consts, n).value;
      Gathered(fl, Patched(fs, ins), wide, consts, n, want).Some? &&
      (SourceStays(fs) <==>
        Run(fl, fs, false, env, consts, n).Some? &&
        Gathered(fl, ins, Run(fl, fs, false, env, consts, n).value, consts, n, want) ==
        Gathered(fl, Patched(fs, ins), wide, consts, n, want))
  {
    InOrderMeansDistinct(fs, ins);
    var key := BatchKey(fs);
    var wide := Run(fl, fs, true, env, consts, n).value;
    FetchAll([key], wide, consts, [BatchTensor(fl, fs, src, n)]);
    if SourceStays(fs) {
      FeaturesPublished(fl, fs, env, consts, n, src, |fs|);
      assert fs[..|fs|] == fs;
      var m := PerFeature(fl, fs, env, consts, n).value;
      FetchAll(ins, m, consts, FeatureTensors(fl, fs, src, n));
      GatheredTensors(fl, fs, src, n, want, ins, key, m, wide, consts);
    } else {
      HiddenSourceFails(fl, fs, env, consts, n, src);
      BatchGathers(fl, fs, src, n, want, key, wide, consts);
    }
  }

  lemma BatchGathers(fl: Floats, fs: seq<Feature>, src: Tensor, n: nat, want: Want, key: string, env: Env, consts: Env)
    requires src.Numeric? && Shaped(src, n) && forall f :: f in fs ==> f.col < src.cols
    requires Fetch([key], env, consts) == Some([BatchTensor(fl, fs, src, n)])
    ensures Gathered(fl, [key], env, consts, n, want).Some?
  {
  }

  /** A feature named after the source replaces it by one column; the next feature asks for a later column. */
  lemma HiddenSourceFails(fl: Floats, fs: seq<Feature>, env: Env, consts: Env, n: nat, src: Tensor)
    requires CanBatch(fs) && Distinct(fs) && !SourceStays(fs)
    requires Lookup(env, consts, fs[0].source) == Some(src) && src.Numeric? && Shaped(src, n) && |fs| <= src.cols
    ensures PerFeature(fl, fs, env, consts, n) == None
  {
    hide PerFeature, CanBatch, Distinct, Shaped;
    var i :| 0 <= i < |fs| - 1 && fs[i].name == fs[0].source;
    var m := SourceReplaced(fl, fs, env, consts, n, src, i);
    NextFeatureFails(fl, fs, env, consts, n, m, i + 1);
    StaysFailed(fl, fs, env, consts, n, i + 2);
  }

  /** Up to the feature that is named after the source nothing fails, and then the source has one column. */
  lemma SourceReplaced(fl: Floats, fs: seq<Feature>, env: Env, consts: Env, n: nat, src: Tensor, i: nat) returns (m: Env)
    requires CanBatch(fs) && Distinct(fs) && i < |fs| - 1 && fs[i].name == fs[0].source
    requires Lookup(env, consts, fs[0].source) == Some(src) && src.Numeric? && Shaped(src, n) && |fs| <= src.cols
    ensures PerFeature(fl, fs[..i + 1], env, consts, n) == Some(m)
    ensures fs[i + 1].source in m && m[fs[i + 1].source].Numeric? && m[fs[i + 1].source].cols == 1
    ensures fs[i + 1].col >= 1
  {
    hide Shaped, PerFeature;
    var head := fs[..i + 1];
    assert SourceStays(head) && CanBatch(head) && Distinct(head);
    FeaturesPublished(fl, head, env, consts, n, src, |head|);
    assert head[..|head|] == head && head[i] == fs[i];
    m := PerFeature(fl, head, env, consts, n).value;
  }

  lemma NextFeatureFails(fl: Floats, fs: seq<Feature>, env: Env, consts: Env, n: nat, m: Env, k: nat)
    requires k < |fs| && PerFeature(fl, fs[..k], env, consts, n) == Some(m)
    requires fs[k].source in m && m[fs[k].source].Numeric? && m[fs[k].source].cols <= fs[k].col
    ensures PerFeature(fl, fs[..k + 1], env, consts, n) == None
  {
    hide Shaped;
    assert fs[..k + 1][..k] == fs[..k];
  }

  lemma {:induction false} StaysFailed(fl: Floats, fs: seq<Feature>, env: Env, consts: Env, n: nat, k: nat)
    requires k <= |fs| && PerFeature(fl, fs[..k], env, consts, n) == None
    ensures PerFeature(fl, fs, env, consts, n) == None
    decreases |fs|
  {
    if k == |fs| {
      assert fs[..k] == fs;
    } else {
      assert fs[..|fs| - 1][..k] == fs[..k];
      StaysFailed(fl, fs[..|fs| - 1], env, consts, n, k);
    }
  }

  // ---------------------------------------------------------------- what batch mode takes away

  /** In batch mode no feature is published by itself: a consumer that names one, but not all of them in order, fails. */
  lemma OtherConsumersFail(fl: Floats, fs: seq<Feature>, ins: seq<string>, env: Env, consts: Env, n: nat, src: Tensor, i: nat, want: Want)
    requires CanBatch(fs) && !AllInOrder(fs, ins)
    requires Lookup(env, consts, fs[0].source) == Some(src) && src.Numeric? && Shaped(src, n) && |fs| <= src.cols
    requires i < |fs| && fs[i].name in ins && Lookup(env, consts, fs[i].name) == None && fs[i].name != BatchKey(fs)
    ensures Run(fl, fs, true, env, consts, n).Some?
    ensures Gathered(fl, Patched(fs, ins), Run(fl, fs, true, env, consts, n).value, consts, n, want) == None
  {
    var j :| 0 <= j < |ins| && ins[j] == fs[i].name;
    FetchFails(ins, Run(fl, fs, true, env, consts, n).value, consts, j);
  }

  predicate NamesNone(fs: seq<Feature>, ins: seq<string>) {
    forall i :: 0 <= i < |fs| ==> fs[i].name !in ins
  }

  /** The per-feature node succeeds, and leaves every name alone that no feature has. */
  lemma {:induction false} OthersKept(fl: Floats, fs: seq<Feature>, env: Env, consts: Env, n: nat, src: Tensor, k: nat)
    requires CanBatch(fs) && SourceStays(fs) && k <= |fs|
    requires Lookup(env, consts, fs[0].source) == Some(src) && src.Numeric? && Shaped(src, n) && |fs| <= src.cols
    ensures PerFeature(fl, fs[..k], env, consts, n).Some?
    ensures var m := PerFeature(fl, fs[..k], env, consts, n).value;
      && (k < |fs| ==> Lookup(m, consts, fs[0].source) == Some(src))
      && forall x :: (forall i :: 0 <= i < k ==> fs[i].name != x) ==> Lookup(m, consts, x) == Lookup(env, consts, x)
  {
    hide Shaped, FeatureTensor;
    if k > 0 {
      OthersKept(fl, fs, env, consts, n, src, k - 1);
      assert fs[..k][..k - 1] == fs[..k - 1] && fs[..k][k - 1] == fs[k - 1];
    }
  }

  lemma {:induction false} SameFetch(names: seq<string>, env1: Env, env2: Env, consts: Env)
    requires forall x :: x in names ==> Lookup(env1, consts, x) == Lookup(env2, consts, x)
    ensures Fetch(names, env1, consts) == Fetch(names, env2, consts)
  {
    if names != [] { SameFetch(names[..|names| - 1], env1, env2, consts); }
  }

  /** What batch mode means for a consumer that is not rewired: with no feature among its inputs it sees what it would
      see from the per-feature node, with any it fails.  So batch mode is invisible to it if and only if it names no
      feature, or would have failed before. */
  lemma OtherConsumersIff(fl: Floats, fs: seq<Feature>, ins: seq<string>, env: Env, consts: Env, n: nat, src: Tensor, want: Want)
    requires CanBatch(fs) && !AllInOrder(fs, ins) && SourceStays(fs)
    requires Lookup(env, consts, fs[0].source) == Some(src) && src.Numeric? && Shaped(src, n) && |fs| <= src.cols
    requires forall i :: 0 <= i < |fs| && fs[i].name in ins ==> Lookup(env, consts, fs[i].name) == None
    requires BatchKey(fs) !in ins
    ensures Run(fl, fs, true, env, consts, n).Some? && Run(fl, fs, false, env, consts, n).Some?
    ensures var batch := Gathered(fl, Patched(fs, ins), Run(fl, fs, true, env, consts, n).value, consts, n, want);
      var single := Gathered(fl, ins, Run(fl, fs, false, env, consts, n).value, consts, n, want);
      batch == (if NamesNone(fs, ins) then single else None) &&
      (batch == single <==> NamesNone(fs, ins) || single == None)
  {
    OthersKept(fl, fs, env, consts, n, src, |fs|);
    assert fs[..|fs|] == fs;
    hide Gathered, PerFeature, Shaped, BatchTensor, BatchKey;
    if NamesNone(fs, ins) {
      SameFetch(ins, Run(fl, fs, true, env, consts, n).value, Run(fl, fs, false, env, consts, n).value, consts);
      SameGathered(fl, ins, Run(fl, fs, true, env, consts, n).value, Run(fl, fs, false, env, consts, n).value, consts, n, want);
    } else {
      var i :| 0 <= i < |fs| && fs[i].name in ins;
      OtherConsumersFail(fl, fs, ins, env, consts, n, src, i, want);
    }
  }

  lemma SameGathered(fl: Floats, names: seq<string>, env1: Env, env2: Env, consts: Env, n: nat, want: Want)
    requires Fetch(names, env1, consts) == Fetch(names, env2, consts)
    ensures Gathered(fl, names, env1, consts, n, want) == Gathered(fl, names, env2, consts, n, want)
  {
  }

  lemma {:induction false} FetchFails(names: seq<string>, env: Env, consts: Env, j: nat)
    requires j < |names| && Lookup(env, consts, names[j]) == None
    ensures Fetch(names, env, consts) == None
  {
    if j < |names| - 1 { FetchFails(names[..|names| - 1], env, consts, j); }
  }

  lemma TextStep(fl: Floats, fs: seq<Feature>, env: Env, consts: Env, n: nat, src: Tensor, k: nat, m: Env)
    requires CanBatch(fs) && 0 < k <= |fs| && PerFeature(fl, fs[..k - 1], env, consts, n) == Some(m)
    requires Lookup(m, consts, fs[0].source) == Some(src) && src.Text?
    ensures PerFeature(fl, fs[..k], env, consts, n) ==
      Some(if fs[k - 1].name != fs[0].source then m[fs[k - 1].name := src] else m)
  {
    assert fs[..k][..k - 1] == fs[..k - 1] && fs[..k][k - 1] == fs[k - 1];
  }

  /** Over a text source the node hands the text to every feature. */
  lemma {:induction false} TextPublished(fl: Floats, fs: seq<Feature>, env: Env, consts: Env, n: nat, src: Tensor, k: nat)
    requires CanBatch(fs) && k <= |fs| && Lookup(env, consts, fs[0].source) == Some(src) && src.Text?
    ensures PerFeature(fl, fs[..k], env, consts, n).Some?
    ensures var m := PerFeature(fl, fs[..k], env, consts, n).value;
      && Lookup(m, consts, fs[0].source) == Some(src)
      && (forall i :: 0 <= i < k ==> Lookup(m, consts, fs[i].name) == Some(src))
      && forall x :: (forall i :: 0 <= i < k ==> fs[i].name != x) ==> Lookup(m, consts, x) == Lookup(env, consts, x)
  {
    if k > 0 {
      hide PerFeature, CanBatch;
      TextPublished(fl, fs, env, consts, n, src, k - 1);
      TextStep(fl, fs, env, consts, n, src, k, PerFeature(fl, fs[..k - 1], env, consts, n).value);
    }
  }

  /** A text source under features not declared as text: the node publishes the features, which the consumer as it was
      would find, but it was rewired to the batch, which is not there. */
  lemma TextSourceFails(fl: Floats, fs: seq<Feature>, ins: seq<string>, env: Env, consts: Env, n: nat, src: Tensor, want: Want)
    requires CanBatch(fs) && AllInOrder(fs, ins)
    requires Lookup(env, consts, fs[0].source) == Some(src) && src.Text?
    requires Lookup(env, consts, BatchKey(fs)) == None && forall i :: 0 <= i < |fs| ==> fs[i].name != BatchKey(fs)
    ensures Patched(fs, ins) == [BatchKey(fs)]
    ensures var m := Run(fl, fs, true, env, consts, n);
      m.Some? && Fetch(ins, m.value, consts).Some? && Gathered(fl, Patched(fs, ins), m.value, consts, n, want) == None
  {
    hide IndexOf, Shaped;
    TextPublished(fl, fs, env, consts, n, src, |fs|);
    assert fs[..|fs|] == fs;
    InOrderMeansDistinct(fs, ins);
    var m := PerFeature(fl, fs, env, consts, n).value;
    FetchAll(ins, m, consts, seq(|ins|, _ => src));
    FetchFails([BatchKey(fs)], m, consts, 0);
  }

  // ---------------------------------------------------------------- the code

  /** Lines 1692 to 1709. */
  method BuildSchemaNode(fs: seq<Feature>) returns (batch: bool)
    ensures batch == CanBatch(fs)
  {
    var canBatch, anyText, i := true, false, 0;
    while i < |fs|
      invariant 0 <= i <= |fs|
      invariant canBatch <==> forall j :: 0 <= j < i ==> fs[j].source == fs[0].source && fs[j].col == j
      invariant anyText <==> exists j :: 0 <= j < i && fs[j].text
    {
      if fs[i].text { anyText := true; }
      if fs[i].source != fs[0].source || fs[i].col != i { canBatch := false; }
      i := i + 1;
    }
    batch := fs != [] && canBatch && !anyText;
  }

  /** Lines 2079 to 2103, for one node: the index map, then the check of every input. */
  method PatchNode(fs: seq<Feature>, batch: bool, ins: seq<string>) returns (r: seq<string>)
    requires batch == CanBatch(fs)
    ensures r == Patched(fs, ins)
  {
    var index: map<string, nat> := map[];
    var f := 0;
    while f < |fs|
      invariant 0 <= f <= |fs|
      invariant forall x :: IndexOf(fs[..f], x) == if x in index then Some(index[x]) else None
    {
      assert fs[..f + 1][..f] == fs[..f];
      index := index[fs[f].name := f];
      f := f + 1;
    }
    assert fs[..f] == fs;
    if !batch || ins == [] || |ins| != |fs| { return ins; }
    var i := 0;
    while i < |ins|
      invariant 0 <= i <= |ins|
      invariant forall j :: 0 <= j < i ==> IndexOf(fs, ins[j]) == Some(j)
    {
      if ins[i] !in index || index[ins[i]] != i { return ins; }
      i := i + 1;
    }
    r := [BatchKey(fs)];
  }

  /** The row loop of the batch path. */
  method FillBatch(fl: Floats, fs: seq<Feature>, src: Tensor, n: nat) returns (batch: Tensor)
    requires src.Numeric? && Shaped(src, n) && forall f :: f in fs ==> f.col < src.cols
    ensures batch == BatchTensor(fl, fs, src, n)
  {
    var out: seq<seq<Num>> := [];
    while |out| < n
      invariant |out| <= n
      invariant forall r :: 0 <= r < |out| ==> out[r] == BatchRow(fl, fs, src.rows[r], src.wide)
    {
      var raw := src.rows[|out|];
      var row: seq<Num> := [];
      while |row| < |fs|
        invariant |row| <= |fs|
        invariant forall f :: 0 <= f < |row| ==> row[f] == Adjusted(fl, fs[f], raw[fs[f].col], src.wide)
      {
        row := row + [Adjusted(fl, fs[|row|], raw[fs[|row|].col], src.wide)];
      }
      assert row == BatchRow(fl, fs, raw, src.wide);
      out := out + [row];
    }
    assert out == BatchTensor(fl, fs, src, n).rows;
    batch := Numeric(src.wide, |fs|, out);
  }

  /** `ModelSchemaNode::execute`; false stands for an exception or a read outside a row. */
  method Execute(fl: Floats, fs: seq<Feature>, batch: bool, vs: ValueStore<Tensor>, n: nat) returns (ok: bool)
    requires vs.Chained() && vs.parent == null
    modifies vs`values
    ensures ok == Run(fl, fs, batch, old(vs.values), vs.constants, n).Some?
    ensures ok ==> vs.values == Run(fl, fs, batch, old(vs.values), vs.constants, n).value
  {
    hide Adjusted, Shaped;
    if batch && fs != [] {
      var src := vs.Get(fs[0].source);
      if src.None? { return false; }
      if !src.value.Text? {
        if !(Shaped(src.value, n) && forall f :: f in fs ==> f.col < src.value.cols) { return false; }
        var t := FillBatch(fl, fs, src.value, n);
        vs.Put(BatchKey(fs), t);
        return true;
      }
    }
    var i := 0;
    while i < |fs|
      invariant 0 <= i <= |fs|
      invariant PerFeature(fl, fs[..i], old(vs.values), vs.constants, n) == Some(vs.values)
    {
      assert fs[..i + 1][..i] == fs[..i];
      var src := vs.Get(fs[i].source);
      if src.None? || (src.value.Numeric? && !(Shaped(src.value, n) && fs[i].col < src.value.cols)) {
        StaysFailed(fl, fs, old(vs.values), vs.constants, n, i + 1);
        return false;
      }
      if src.value.Text? {
        if fs[i].name != fs[i].source { vs.Put(fs[i].name, src.value); }
      } else {
        vs.Put(fs[i].name, FeatureTensor(fl, fs[i], src.value, n));
      }
      i := i + 1;
    }
    assert fs[..i] == fs;
    ok := true;
  }
}
