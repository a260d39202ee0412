/** The random-forest evaluator (RfJsonForest.kt): loading the exported
    forest into Split/Leaf trees, sparse bag-of-token featurisation, threshold
    descent and the normalised vote with its arg-max. The JSON document is
    modelled by typed datatypes; float arithmetic is modelled on `real`. */
module RfForest {

  import opened Wrappers
  import opened FeatureNames

  // ------------------------------------------------------------ documents

  /** A JSON value as far as a leaf's "value" is concerned. */
  datatype Json = JNum(num: real) | JArr(items: seq<Json>) | JOther

  /** One tree node of the document: an object with a "value" key is a leaf;
      any other object is read through its "feature", "threshold", "left" and
      "right" keys, where a missing key is an error; a child that is not an
      object is an error too. */
  datatype NodeJson =
    | WithValue(value: Json)
    | WithoutValue(feature: Option<string>, threshold: Option<real>, left: NodeJson, right: NodeJson)
    | NotAnObject

  /** The fields of the forest document the loader reads; `nEstimators` is
      None when "n_estimators" is absent or not an integer. */
  datatype ForestJson = ForestJson(featureNames: seq<string>, trees: seq<NodeJson>, nEstimators: Option<int>)

  // ---------------------------------------------------------------- trees

  datatype RfNode =
    | Split(featureIdx: int, threshold: real, left: RfNode, right: RfNode)
    | Leaf(probs: seq<real>)

  datatype Forest = Forest(nEstimators: int, nClasses: int, featureIndex: map<string, int>, trees: seq<RfNode>)

  function Max(a: int, b: int): int {
    if a >= b then a else b
  }

  function Sum(s: seq<real>): real {
    if |s| == 0 then 0.0 else Sum(s[..|s| - 1]) + s[|s| - 1]
  }

  function Divide(s: seq<real>, c: real): (r: seq<real>)
    requires c != 0.0
    ensures |r| == |s|
  {
    seq(|s|, i requires 0 <= i < |s| => s[i] / c)
  }

  function Constant(n: nat, c: real): (r: seq<real>)
    ensures |r| == n
  {
    seq(n, i => c)
  }

  lemma {:induction false} SumDivide(s: seq<real>, c: real)
    requires c != 0.0
    ensures Sum(Divide(s, c)) == Sum(s) / c
  {
    if |s| > 0 {
      var pre := s[..|s| - 1];
      assert Divide(s, c)[..|s| - 1] == Divide(pre, c);
      SumDivide(pre, c);
      assert Sum(pre) / c + s[|s| - 1] / c == (Sum(pre) + s[|s| - 1]) / c;
    }
  }

  lemma {:induction false} SumConstant(n: nat, c: real)
    ensures Sum(Constant(n, c)) == (n as real) * c
  {
    if n > 0 {
      assert Constant(n, c)[..n - 1] == Constant(n - 1, c);
      SumConstant(n - 1, c);
    }
  }

  // --------------------------------------------------------------- leaves

  /** A leaf given as `[[c0, c1, ...], ...]` is read through its first inner list. */
  function Inner(arr: seq<Json>): seq<Json> {
    if |arr| > 0 && arr[0].JArr? then arr[0].items else arr
  }

  predicate AllNumbers(js: seq<Json>) {
    forall i :: 0 <= i < |js| ==> js[i].JNum?
  }

  function Numbers(js: seq<Json>): (r: seq<real>)
    requires AllNumbers(js)
    ensures |r| == |js|
  {
    seq(|js|, i requires 0 <= i < |js| => js[i].num)
  }

  /** The leaf's class weights made into probabilities: divided by their sum
      when it is positive, and uniform otherwise. */
  function Normalize(raw: seq<real>): (p: seq<real>)
    ensures |p| == |raw|
  {
    var s := Sum(raw);
    if s > 0.0 then Divide(raw, s)
    else if |raw| == 0 then []
    else Constant(|raw|, 1.0 / (|raw| as real))
  }

  /** What `parseLeaf` builds from a "value". */
  function LeafSpec(value: Json): Result<seq<real>> {
    if !value.JArr? then Failure("leaf value is not an array")
    else if !AllNumbers(Inner(value.items)) then Failure("leaf entry is not a number")
    else Success(Normalize(Numbers(Inner(value.items))))
  }

  /** A normalised leaf with at least one class sums to 1, whatever the raw weights. */
  lemma NormalizeSumsToOne(raw: seq<real>)
    requires |raw| > 0
    ensures Sum(Normalize(raw)) == 1.0
  {
    var s := Sum(raw);
    if s > 0.0 {
      SumDivide(raw, s);
    } else {
      var n := |raw| as real;
      SumConstant(|raw|, 1.0 / n);
      assert n * (1.0 / n) == 1.0;
    }
  }

  /** Normalising non-negative weights gives entries in [0, 1]. */
  lemma NormalizeBounds(raw: seq<real>)
    requires forall i :: 0 <= i < |raw| ==> raw[i] >= 0.0
    ensures forall i :: 0 <= i < |raw| ==> 0.0 <= Normalize(raw)[i] <= 1.0
  {
    var s := Sum(raw);
    forall i | 0 <= i < |raw|
      ensures 0.0 <= Normalize(raw)[i] <= 1.0
    {
      if s > 0.0 {
        SumNonNegativeAtLeast(raw, i);
        UnitFraction(raw[i], s);
      } else {
        UnitFraction(1.0, |raw| as real);
      }
    }
  }

  lemma UnitFraction(a: real, s: real)
    requires 0.0 <= a <= s && s > 0.0
    ensures 0.0 <= a / s <= 1.0
  {
  }

  lemma {:induction false} SumNonNegativeAtLeast(s: seq<real>, i: int)
    requires forall k :: 0 <= k < |s| ==> s[k] >= 0.0
    requires 0 <= i < |s|
    ensures s[i] <= Sum(s)
  {
    var pre := s[..|s| - 1];
    SumNonNegative(pre);
    if i < |s| - 1 {
      SumNonNegativeAtLeast(pre, i);
    }
  }

  lemma {:induction false} SumNonNegative(s: seq<real>)
    requires forall k :: 0 <= k < |s| ==> s[k] >= 0.0
    ensures Sum(s) >= 0.0
  {
    if |s| > 0 {
      SumNonNegative(s[..|s| - 1]);
    }
  }

  /** `parseLeaf`: copies the weights while summing them, then rescales in
      place; `detected` is the captured class count it raises. */
  method ParseLeaf(value: Json, detected: int) returns (r: Result<seq<real>>, detected': int)
    ensures r == LeafSpec(value)
    ensures r.Success? ==> detected' == Max(detected, |r.value|)
  {
    if !value.JArr? {
      return Failure("leaf value is not an array"), detected;
    }
    var inner := Inner(value.items);
    var probs := new real[|inner|];
    var sum := 0.0;
    for i := 0 to |inner|
      invariant forall k :: 0 <= k < i ==> inner[k].JNum? && probs[k] == inner[k].num
      invariant sum == Sum(probs[..i])
    {
      if !inner[i].JNum? {
        return Failure("leaf entry is not a number"), detected;
      }
      probs[i] := inner[i].num;
      assert probs[..i + 1][..i] == probs[..i];
      sum := sum + inner[i].num;
    }
    ghost var raw := Numbers(inner);
    assert probs[..] == raw;
    assert probs[..|inner|] == probs[..];
    if sum > 0.0 {
      for i := 0 to probs.Length
        invariant forall k :: 0 <= k < i ==> probs[k] == raw[k] / sum
        invariant forall k :: i <= k < probs.Length ==> probs[k] == raw[k]
      {
        probs[i] := probs[i] / sum;
      }
    } else if probs.Length > 0 {
      var p := 1.0 / (probs.Length as real);
      for i := 0 to probs.Length
        invariant forall k :: 0 <= k < i ==> probs[k] == p
      {
        probs[i] := p;
      }
    }
    assert probs[..] == Normalize(raw);
    r := Success(probs[..]);
    detected' := Max(detected, probs.Length);
  }

  // ---------------------------------------------------------------- nodes

  /** What `parseNode` builds: a leaf from "value", or a split whose feature
      index is the name's position (-1 for an unknown name). */
  function NodeSpec(node: NodeJson, index: map<string, int>): Result<RfNode> {
    match node
    case NotAnObject => Failure("tree node is not an object")
    case WithValue(v) =>
      (match LeafSpec(v) {
        case Failure(e) => Failure(e)
        case Success(p) => Success(Leaf(p))
      })
    case WithoutValue(f, thr, l, r) =>
      if f.None? then Failure("missing feature")
      else if thr.None? then Failure("missing threshold")
      else match NodeSpec(l, index) {
        case Failure(e) => Failure(e)
        case Success(lt) =>
          match NodeSpec(r, index) {
            case Failure(e) => Failure(e)
            case Success(rt) => Success(Split(IndexOrMinusOne(index, f.value), thr.value, lt, rt))
          }
      }
  }

  /** The largest leaf size in a tree. */
  function LeafMax(t: RfNode): int {
    match t
    case Leaf(p) => |p|
    case Split(_, _, l, r) => Max(LeafMax(l), LeafMax(r))
  }

  method ParseNode(node: NodeJson, index: map<string, int>, detected: int) returns (r: Result<RfNode>, detected': int)
    ensures r == NodeSpec(node, index)
    ensures r.Success? ==> detected' == Max(detected, LeafMax(r.value))
  {
    match node {
      case NotAnObject =>
        return Failure("tree node is not an object"), detected;
      case WithValue(v) =>
        var p;
        p, detected' := ParseLeaf(v, detected);
        if p.Failure? {
          return Failure(p.error), detected';
        }
        r := Success(Leaf(p.value));
      case WithoutValue(f, thr, left, right) =>
        if f.None? {
          return Failure("missing feature"), detected;
        }
        var fidx := IndexOrMinusOne(index, f.value);
        if thr.None? {
          return Failure("missing threshold"), detected;
        }
        var lt, d1 := ParseNode(left, index, detected);
        if lt.Failure? {
          return Failure(lt.error), d1;
        }
        var rt, d2 := ParseNode(right, index, d1);
        if rt.Failure? {
          return Failure(rt.error), d2;
        }
        r, detected' := Success(Split(fidx, thr.value, lt.value, rt.value)), d2;
    }
  }

  // --------------------------------------------------------------- forest

  function TreesSpec(ts: seq<NodeJson>, index: map<string, int>): (r: Result<seq<RfNode>>)
    ensures r.Success? ==> |r.value| == |ts|
  {
    if |ts| == 0 then Success([])
    else match TreesSpec(ts[..|ts| - 1], index) {
      case Failure(e) => Failure(e)
      case Success(pre) =>
        match NodeSpec(ts[|ts| - 1], index) {
          case Failure(e) => Failure(e)
          case Success(t) => Success(pre + [t])
        }
    }
  }

  /** `detectedClasses` after parsing every tree: -1 raised to each leaf size. */
  function Detected(ts: seq<RfNode>): int {
    if |ts| == 0 then -1 else Max(Detected(ts[..|ts| - 1]), LeafMax(ts[|ts| - 1]))
  }

  /** What `loadFromAssets` returns once the document is parsed. */
  function LoadSpec(doc: ForestJson): Result<Forest> {
    var index := NameIndex(doc.featureNames);
    match TreesSpec(doc.trees, index) {
      case Failure(e) => Failure(e)
      case Success(ts) =>
        var d := Detected(ts);
        Success(Forest(if doc.nEstimators.Some? then doc.nEstimators.value else |ts|,
                       if d > 0 then d else 2, index, ts))
    }
  }

  method LoadForest(doc: ForestJson) returns (r: Result<Forest>)
    ensures r == LoadSpec(doc)
  {
    var index := BuildIndex(doc.featureNames);
    var trees: seq<RfNode> := [];
    var detected := -1;
    for i := 0 to |doc.trees|
      invariant TreesSpec(doc.trees[..i], index) == Success(trees)
      invariant detected == Detected(trees)
    {
      assert doc.trees[..i + 1][..i] == doc.trees[..i];
      var t, d := ParseNode(doc.trees[i], index, detected);
      if t.Failure? {
        assert TreesSpec(doc.trees[..i + 1], index).Failure?;
        TreesPrefixFails(doc.trees, index, i + 1);
        return Failure(t.error);
      }
      assert (trees + [t.value])[..|trees|] == trees;
      trees, detected := trees + [t.value], d;
    }
    assert doc.trees[..|doc.trees|] == doc.trees;
    var nEst := if doc.nEstimators.Some? then doc.nEstimators.value else |trees|;
    var nCls := if detected > 0 then detected else 2;
    r := Success(Forest(nEst, nCls, index, trees));
  }

  /** A failing prefix makes the whole forest fail (with the same first error). */
  lemma {:induction false} TreesPrefixFails(ts: seq<NodeJson>, index: map<string, int>, i: int)
    requires 0 <= i <= |ts| && TreesSpec(ts[..i], index).Failure?
    ensures TreesSpec(ts, index) == TreesSpec(ts[..i], index)
  {
    if i < |ts| {
      assert ts[..|ts| - 1][..i] == ts[..i];
      TreesPrefixFails(ts[..|ts| - 1], index, i);
    } else {
      assert ts[..i] == ts;
    }
  }

  // ----------------------------------------------------- loader properties

  /** Every leaf with at least one class sums to 1. */
  predicate LeavesNormalized(t: RfNode) {
    match t
    case Leaf(p) => |p| > 0 ==> Sum(p) == 1.0
    case Split(_, _, l, r) => LeavesNormalized(l) && LeavesNormalized(r)
  }

  /** Every split's feature index is either -1 or a position in a list of n names. */
  predicate IndicesBelow(t: RfNode, n: int) {
    match t
    case Leaf(_) => true
    case Split(f, _, l, r) => -1 <= f < n && IndicesBelow(l, n) && IndicesBelow(r, n)
  }

  lemma {:induction false} NodeSpecShape(node: NodeJson, names: seq<string>)
    requires NodeSpec(node, NameIndex(names)).Success?
    ensures LeavesNormalized(NodeSpec(node, NameIndex(names)).value)
    ensures IndicesBelow(NodeSpec(node, NameIndex(names)).value, |names|)
  {
    match node {
      case WithValue(v) =>
        var p := NodeSpec(node, NameIndex(names)).value.probs;
        if |p| > 0 {
          NormalizeSumsToOne(Numbers(Inner(v.items)));
        }
      case WithoutValue(f, thr, l, r) =>
        NodeSpecShape(l, names);
        NodeSpecShape(r, names);
        IndexOrMinusOneMeaning(names, f.value);
    }
  }

  /** A split node names its feature by the position of its name in the
      feature list (the last one, for a duplicate), or -1 for an unknown name. */
  lemma SplitFeatureIndex(f: string, thr: real, l: NodeJson, r: NodeJson, names: seq<string>)
    requires NodeSpec(WithoutValue(Some(f), Some(thr), l, r), NameIndex(names)).Success?
    ensures var t := NodeSpec(WithoutValue(Some(f), Some(thr), l, r), NameIndex(names)).value;
      t.Split? && t.threshold == thr &&
      (t.featureIdx == -1 <==> f !in names) &&
      (t.featureIdx != -1 ==> 0 <= t.featureIdx < |names| && names[t.featureIdx] == f)
  {
    IndexOrMinusOneMeaning(names, f);
  }

  lemma {:induction false} TreesSpecShape(ts: seq<NodeJson>, names: seq<string>)
    requires TreesSpec(ts, NameIndex(names)).Success?
    ensures forall i :: 0 <= i < |ts| ==>
      LeavesNormalized(TreesSpec(ts, NameIndex(names)).value[i]) &&
      IndicesBelow(TreesSpec(ts, NameIndex(names)).value[i], |names|)
  {
    if |ts| > 0 {
      TreesSpecShape(ts[..|ts| - 1], names);
      NodeSpecShape(ts[|ts| - 1], names);
    }
  }

  lemma {:induction false} LeafMaxNonNegative(t: RfNode)
    ensures LeafMax(t) >= 0
  {
    if t.Split? {
      LeafMaxNonNegative(t.left);
    }
  }

  predicate NodeFails(node: NodeJson, index: map<string, int>) {
    NodeSpec(node, index).Failure?
  }

  /** Loading fails exactly when some tree fails to parse. */
  lemma {:induction false} TreesFailIff(ts: seq<NodeJson>, index: map<string, int>)
    ensures TreesSpec(ts, index).Failure? <==> exists i :: 0 <= i < |ts| && NodeFails(ts[i], index)
  {
    if |ts| > 0 {
      var pre := ts[..|ts| - 1];
      TreesFailIff(pre, index);
      assert forall i :: 0 <= i < |pre| ==> pre[i] == ts[i];
      if !TreesSpec(ts, index).Failure? {
        assert !NodeFails(ts[|ts| - 1], index);
      }
    }
  }

  lemma {:induction false} DetectedBounds(ts: seq<RfNode>)
    ensures Detected(ts) >= -1
    ensures forall i :: 0 <= i < |ts| ==> LeafMax(ts[i]) <= Detected(ts)
    ensures |ts| > 0 ==> exists i :: 0 <= i < |ts| && LeafMax(ts[i]) == Detected(ts)
  {
    if |ts| > 0 {
      var pre := ts[..|ts| - 1];
      DetectedBounds(pre);
      if |pre| > 0 && Detected(pre) >= LeafMax(ts[|ts| - 1]) {
        var i :| 0 <= i < |pre| && LeafMax(pre[i]) == Detected(pre);
        assert ts[i] == pre[i];
      } else {
        LeafMaxNonNegative(ts[|ts| - 1]);
      }
    }
  }

  /** The loaded forest: the trees in document order with normalised leaves
      and in-range feature indices, the name index, `nEstimators` defaulting
      to the tree count, and `nClasses` the largest leaf size or 2 when no
      leaf has a class. */
  lemma LoadShape(doc: ForestJson)
    requires LoadSpec(doc).Success?
    ensures var f := LoadSpec(doc).value;
      |f.trees| == |doc.trees| &&
      f.featureIndex == NameIndex(doc.featureNames) &&
      f.nEstimators == (if doc.nEstimators.Some? then doc.nEstimators.value else |doc.trees|) &&
      f.nClasses >= 1 &&
      (forall i :: 0 <= i < |f.trees| ==> LeafMax(f.trees[i]) <= f.nClasses) &&
      ((exists i :: 0 <= i < |f.trees| && LeafMax(f.trees[i]) == f.nClasses) ||
       (f.nClasses == 2 && forall i :: 0 <= i < |f.trees| ==> LeafMax(f.trees[i]) <= 0)) &&
      (forall i :: 0 <= i < |f.trees| ==>
        LeavesNormalized(f.trees[i]) && IndicesBelow(f.trees[i], |doc.featureNames|))
  {
    var ts := TreesSpec(doc.trees, NameIndex(doc.featureNames)).value;
    TreesSpecShape(doc.trees, doc.featureNames);
    DetectedBounds(ts);
  }

  lemma LoadFailsIff(doc: ForestJson)
    ensures LoadSpec(doc).Failure? <==>
      exists i :: 0 <= i < |doc.trees| && NodeFails(doc.trees[i], NameIndex(doc.featureNames))
  {
    TreesFailIff(doc.trees, NameIndex(doc.featureNames));
  }

  // --------------------------------------------------------- featurisation

  /** `X.get`: the stored value, or 0 for an absent index. */
  function Get(x: map<int, real>, i: int): real {
    if i in x then x[i] else 0.0
  }

  /** The bag-of-tokens counts of the known tokens. */
  function TokenCounts(tokens: seq<string>, index: map<string, int>): map<int, real> {
    if |tokens| == 0 then map[]
    else
      var c := TokenCounts(tokens[..|tokens| - 1], index);
      var t := tokens[|tokens| - 1];
      if t in index then c[index[t] := Get(c, index[t]) + 1.0] else c
  }

  /** What `featurize` returns: the counts, then the "method_count" and
      "opcode_count" slots (when named) overwritten in that order. */
  function FeaturizeSpec(index: map<string, int>, tokens: seq<string>, methodCount: int, opcodeCount: int): map<int, real> {
    var c := TokenCounts(tokens, index);
    var c1 := if "method_count" in index then c[index["method_count"] := methodCount as real] else c;
    if "opcode_count" in index then c1[index["opcode_count"] := opcodeCount as real] else c1
  }

  lemma {:induction false} TokenCountsAt(tokens: seq<string>, index: map<string, int>, i: int)
    ensures Get(TokenCounts(tokens, index), i) == Occurrences(tokens, index, i) as real
    ensures i in TokenCounts(tokens, index) ==> exists k :: k in index && index[k] == i
  {
    if |tokens| > 0 {
      TokenCountsAt(tokens[..|tokens| - 1], index, i);
    }
  }

  /** Every feature reads as: the opcode count in the "opcode_count" slot, else
      the method count in the "method_count" slot, else the number of tokens
      naming that feature; an index no name maps to reads 0. */
  lemma FeaturizeAt(index: map<string, int>, tokens: seq<string>, methodCount: int, opcodeCount: int, i: int)
    ensures Get(FeaturizeSpec(index, tokens, methodCount, opcodeCount), i) ==
      if "opcode_count" in index && index["opcode_count"] == i then opcodeCount as real
      else if "method_count" in index && index["method_count"] == i then methodCount as real
      else Occurrences(tokens, index, i) as real
    ensures (forall k :: k in index ==> index[k] != i) ==>
      Get(FeaturizeSpec(index, tokens, methodCount, opcodeCount), i) == 0.0
  {
    TokenCountsAt(tokens, index, i);
  }

  /** A token that names no feature changes nothing. */
  lemma FeaturizeIgnoresUnknown(index: map<string, int>, tokens: seq<string>, t: string, methodCount: int, opcodeCount: int)
    requires t !in index
    ensures FeaturizeSpec(index, tokens + [t], methodCount, opcodeCount) == FeaturizeSpec(index, tokens, methodCount, opcodeCount)
  {
    assert (tokens + [t])[..|tokens|] == tokens;
  }

  /** The unknown-feature index -1 reads 0 under a loaded name index. */
  lemma FeaturizeMinusOne(names: seq<string>, tokens: seq<string>, methodCount: int, opcodeCount: int)
    ensures Get(FeaturizeSpec(NameIndex(names), tokens, methodCount, opcodeCount), -1) == 0.0
  {
    NameIndexShape(names);
    FeaturizeAt(NameIndex(names), tokens, methodCount, opcodeCount, -1);
  }

  method Featurize(f: Forest, tokens: seq<string>, methodCount: int, opcodeCount: int) returns (x: map<int, real>)
    ensures x == FeaturizeSpec(f.featureIndex, tokens, methodCount, opcodeCount)
  {
    var index := f.featureIndex;
    var counts: map<int, real> := map[];
    for k := 0 to |tokens|
      invariant counts == TokenCounts(tokens[..k], index)
    {
      assert tokens[..k + 1][..k] == tokens[..k];
      var t := tokens[k];
      if t !in index {
        continue;
      }
      var idx := index[t];
      counts := counts[idx := Get(counts, idx) + 1.0];
    }
    assert tokens[..|tokens|] == tokens;
    if "method_count" in index {
      counts := counts[index["method_count"] := methodCount as real];
    }
    if "opcode_count" in index {
      counts := counts[index["opcode_count"] := opcodeCount as real];
    }
    x := counts;
  }

  // ------------------------------------------------------------ evaluation

  /** The leaf a sample reaches: left when its feature is at most the
      threshold, right otherwise. */
  function Eval(t: RfNode, x: map<int, real>): seq<real> {
    match t
    case Leaf(p) => p
    case Split(f, thr, l, r) => if Get(x, f) <= thr then Eval(l, x) else Eval(r, x)
  }

  predicate IsLeafOf(p: seq<real>, t: RfNode) {
    match t
    case Leaf(q) => p == q
    case Split(_, _, l, r) => IsLeafOf(p, l) || IsLeafOf(p, r)
  }

  /** Evaluation always ends at one of the tree's own leaves. */
  lemma {:induction false} EvalReachesLeaf(t: RfNode, x: map<int, real>)
    ensures IsLeafOf(Eval(t, x), t)
  {
    if t.Split? {
      EvalReachesLeaf(t.left, x);
      EvalReachesLeaf(t.right, x);
    }
  }

  method EvalTree(root: RfNode, x: map<int, real>) returns (p: seq<real>)
    ensures p == Eval(root, x)
  {
    var cur := root;
    while cur.Split?
      invariant Eval(cur, x) == Eval(root, x)
      decreases cur
    {
      var v := Get(x, cur.featureIdx);
      cur := if v <= cur.threshold then cur.left else cur.right;
    }
    p := cur.probs;
  }

  // ------------------------------------------------------------ prediction

  predicate LeavesAtLeast(t: RfNode, n: int) {
    match t
    case Leaf(p) => |p| >= n
    case Split(_, _, l, r) => LeavesAtLeast(l, n) && LeavesAtLeast(r, n)
  }

  lemma {:induction false} EvalAtLeast(t: RfNode, x: map<int, real>, n: int)
    requires LeavesAtLeast(t, n)
    ensures |Eval(t, x)| >= n
  {
    if t.Split? {
      EvalAtLeast(t.left, x, n);
      EvalAtLeast(t.right, x, n);
    }
  }

  function AddR(a: seq<real>, b: seq<real>): (r: seq<real>)
    requires |a| == |b|
    ensures |r| == |a|
  {
    seq(|a|, i requires 0 <= i < |a| => a[i] + b[i])
  }

  /** The first nClasses weights of every tree's leaf, summed per class. */
  function Votes(trees: seq<RfNode>, x: map<int, real>, n: nat): (v: seq<real>)
    requires forall i :: 0 <= i < |trees| ==> LeavesAtLeast(trees[i], n)
    ensures |v| == n
  {
    if |trees| == 0 then Constant(n, 0.0)
    else
      EvalAtLeast(trees[|trees| - 1], x, n);
      AddR(Votes(trees[..|trees| - 1], x, n), Eval(trees[|trees| - 1], x)[..n])
  }

  /** Divided by the vote mass when it is positive, by 1 otherwise. */
  function Rescale(v: seq<real>): (p: seq<real>)
    ensures |p| == |v|
  {
    Divide(v, if Sum(v) > 0.0 then Sum(v) else 1.0)
  }

  /** b is the first position of a maximum of s. */
  predicate IsFirstMax(s: seq<real>, b: int) {
    0 <= b < |s| && (forall j :: 0 <= j < |s| ==> s[j] <= s[b]) && (forall j :: 0 <= j < b ==> s[j] < s[b])
  }

  /** The label and class probabilities `predict` returns. Every leaf must hold
      at least nClasses weights (the source indexes them unchecked). */
  method Predict(f: Forest, x: map<int, real>) returns (predicted: int, probs: seq<real>)
    requires f.nClasses >= 1
    requires forall i :: 0 <= i < |f.trees| ==> LeavesAtLeast(f.trees[i], f.nClasses)
    ensures probs == Rescale(Votes(f.trees, x, f.nClasses))
    ensures IsFirstMax(probs, predicted)
  {
    var n := f.nClasses;
    var acc := new real[n](_ => 0.0);
    assert acc[..] == Votes(f.trees[..0], x, n);
    for t := 0 to |f.trees|
      invariant acc[..] == Votes(f.trees[..t], x, n)
    {
      var p := EvalTree(f.trees[t], x);
      EvalAtLeast(f.trees[t], x, n);
      AccumulateVotes(acc, p);
      assert f.trees[..t + 1][..t] == f.trees[..t];
    }
    assert f.trees[..|f.trees|] == f.trees;
    ghost var votes := acc[..];
    var s := SumArray(acc);
    if !(s > 0.0) {
      s := 1.0;
    }
    for i := 0 to n
      invariant forall k :: 0 <= k < i ==> acc[k] == votes[k] / s
      invariant forall k :: i <= k < n ==> acc[k] == votes[k]
    {
      acc[i] := acc[i] / s;
    }
    assert acc[..] == Rescale(votes);
    probs := acc[..];
    predicted := ArgMaxFirst(acc);
  }

  /** `for (i in 0 until nClasses) acc[i] += p[i]`. */
  method AccumulateVotes(acc: array<real>, p: seq<real>)
    requires |p| >= acc.Length
    modifies acc
    ensures acc[..] == AddR(old(acc[..]), p[..acc.Length])
  {
    for i := 0 to acc.Length
      invariant forall k :: 0 <= k < i ==> acc[k] == old(acc[k]) + p[k]
      invariant forall k :: i <= k < acc.Length ==> acc[k] == old(acc[k])
    {
      acc[i] := acc[i] + p[i];
    }
  }

  method SumArray(a: array<real>) returns (s: real)
    ensures s == Sum(a[..])
  {
    s := 0.0;
    for i := 0 to a.Length
      invariant s == Sum(a[..i])
    {
      assert a[..i + 1][..i] == a[..i];
      s := s + a[i];
    }
    assert a[..a.Length] == a[..];
  }

  /** The arg-max loop: only a strictly larger value moves the choice, so ties
      go to the lowest index. */
  method ArgMaxFirst(a: array<real>) returns (best: int)
    requires a.Length > 0
    ensures IsFirstMax(a[..], best)
  {
    best := 0;
    var bestVal := a[0];
    for i := 1 to a.Length
      invariant 0 <= best < i && bestVal == a[best]
      invariant forall j :: 0 <= j < i ==> a[j] <= bestVal
      invariant forall j :: 0 <= j < best ==> a[j] < bestVal
    {
      if a[i] > bestVal {
        best, bestVal := i, a[i];
      }
    }
  }

  // ------------------------------------------------------ prediction laws

  lemma {:induction false} SumAddR(a: seq<real>, b: seq<real>)
    requires |a| == |b|
    ensures Sum(AddR(a, b)) == Sum(a) + Sum(b)
  {
    if |a| > 0 {
      assert AddR(a, b)[..|a| - 1] == AddR(a[..|a| - 1], b[..|b| - 1]);
      SumAddR(a[..|a| - 1], b[..|b| - 1]);
    }
  }

  /** With positive vote mass the returned probabilities sum to 1. */
  lemma RescaleSumsToOne(v: seq<real>)
    requires Sum(v) > 0.0
    ensures Sum(Rescale(v)) == 1.0
  {
    var s := Sum(v);
    assert Rescale(v) == Divide(v, s);
    SumDivide(v, s);
    assert s / s == 1.0;
  }

  /** Every leaf holds exactly n weights summing to 1. */
  predicate LeavesExact(t: RfNode, n: int) {
    match t
    case Leaf(p) => |p| == n && Sum(p) == 1.0
    case Split(_, _, l, r) => LeavesExact(l, n) && LeavesExact(r, n)
  }

  lemma {:induction false} EvalExact(t: RfNode, x: map<int, real>, n: int)
    requires LeavesExact(t, n)
    ensures LeavesAtLeast(t, n) && |Eval(t, x)| == n && Sum(Eval(t, x)) == 1.0
  {
    if t.Split? {
      EvalExact(t.left, x, n);
      EvalExact(t.right, x, n);
    }
  }

  /** With exact leaves every tree contributes a mass of 1. */
  lemma {:induction false} VotesMass(trees: seq<RfNode>, x: map<int, real>, n: nat)
    requires forall i :: 0 <= i < |trees| ==> LeavesExact(trees[i], n)
    ensures forall i :: 0 <= i < |trees| ==> LeavesAtLeast(trees[i], n)
    ensures Sum(Votes(trees, x, n)) == |trees| as real
  {
    forall i | 0 <= i < |trees|
      ensures LeavesAtLeast(trees[i], n)
    {
      EvalExact(trees[i], x, n);
    }
    if |trees| == 0 {
      SumConstant(n, 0.0);
    } else {
      var pre, last := trees[..|trees| - 1], trees[|trees| - 1];
      VotesMass(pre, x, n);
      EvalExact(last, x, n);
      assert Eval(last, x)[..n] == Eval(last, x);
      SumAddR(Votes(pre, x, n), Eval(last, x)[..n]);
    }
  }

  lemma {:induction false} AtLeastWithinMax(t: RfNode, n: int)
    requires LeavesAtLeast(t, n) && LeafMax(t) <= n && LeavesNormalized(t) && n >= 1
    ensures LeavesExact(t, n)
  {
    if t.Split? {
      AtLeastWithinMax(t.left, n);
      AtLeastWithinMax(t.right, n);
    }
  }

  /** A loaded forest with at least one tree, whose leaves are all wide enough
      for `predict`, returns probabilities that sum to 1. */
  lemma LoadedForestSumsToOne(doc: ForestJson, x: map<int, real>)
    requires LoadSpec(doc).Success?
    requires |LoadSpec(doc).value.trees| > 0
    requires forall i :: 0 <= i < |LoadSpec(doc).value.trees| ==>
      LeavesAtLeast(LoadSpec(doc).value.trees[i], LoadSpec(doc).value.nClasses)
    ensures Sum(Rescale(Votes(LoadSpec(doc).value.trees, x, LoadSpec(doc).value.nClasses))) == 1.0
  {
    var f := LoadSpec(doc).value;
    LoadShape(doc);
    forall i | 0 <= i < |f.trees|
      ensures LeavesExact(f.trees[i], f.nClasses)
    {
      LeavesAtLeastMax(f.trees[i], f.nClasses);
      AtLeastWithinMax(f.trees[i], f.nClasses);
    }
    VotesMass(f.trees, x, f.nClasses);
    RescaleSumsToOne(Votes(f.trees, x, f.nClasses));
  }

  /** A tree whose leaves all hold at least n weights has its largest leaf at least n. */
  lemma {:induction false} LeavesAtLeastMax(t: RfNode, n: int)
    requires LeavesAtLeast(t, n)
    ensures LeafMax(t) >= n
  {
    if t.Split? {
      LeavesAtLeastMax(t.left, n);
    }
  }
}
