/** The RBF support-vector classifier (SvmRbf.kt): shape validation when the
    exported model is loaded, the fallback for the two reserved count
    features, dense featurisation with scale division, the kernel sum and the
    sign rule for the label. The document is modelled by a typed datatype;
    float arithmetic is modelled on `real` and `exp` is a parameter. */
module SvmRbf {

  import opened Wrappers
  import opened FeatureNames

  /** The fields of the model document the loader reads; `gamma` is None when
      the "gamma" string is not a number, `scalerScale` None when absent. */
  datatype SvmJson = SvmJson(
    featureNames: seq<string>,
    supportVectors: seq<seq<real>>,
    dualCoef: seq<seq<real>>,
    intercept: seq<real>,
    classes: seq<int>,
    gamma: Option<real>,
    scalerScale: Option<seq<real>>)

  datatype SvmModel = SvmModel(
    featureIndex: map<string, int>,
    nFeatures: nat,
    sv: seq<seq<real>>,
    alpha: seq<real>,
    bias: real,
    classes: seq<int>,
    gamma: real,
    scale: Option<seq<real>>,
    methodIdx: Option<int>,
    opcodeIdx: Option<int>)

  function Lookup(index: map<string, int>, name: string): Option<int> {
    if name in index then Some(index[name]) else None
  }

  /** The indices of the "method_count" and "opcode_count" features. When
      either name is missing and exactly n - 2 names are listed, the two
      counts take the last two columns n - 2 and n - 1; otherwise each keeps
      what the name lookup found. */
  function ResolveReserved(index: map<string, int>, namesLen: int, n: int): (Option<int>, Option<int>) {
    var mi := Lookup(index, "method_count");
    var oi := Lookup(index, "opcode_count");
    if mi.None? || oi.None? then
      (if namesLen == n - 2 then Some(n - 2) else mi, if namesLen == n - 2 then Some(n - 1) else oi)
    else (mi, oi)
  }

  predicate RowsCover(rows: seq<seq<real>>, n: int) {
    forall i :: 0 <= i < |rows| ==> |rows[i]| >= n
  }

  /** A zero scale entry is replaced by 1. */
  function FixScale(s: seq<real>): (r: seq<real>)
    ensures |r| == |s|
  {
    seq(|s|, i requires 0 <= i < |s| => if s[i] == 0.0 then 1.0 else s[i])
  }

  /** What `loadFromAssets` returns once the document is parsed: every
      support vector is cut to the width n of the first one (a shorter row
      is a read error), and each `require` becomes a Failure. */
  function Load(doc: SvmJson): Result<SvmModel> {
    var m := |doc.supportVectors|;
    if m == 0 then Failure("No support vectors")
    else
      var n := |doc.supportVectors[0]|;
      if !RowsCover(doc.supportVectors, n) then Failure("support vector row shorter than the first")
      else if |doc.dualCoef| == 0 then Failure("dual_coef has no row")
      else if |doc.dualCoef[0]| != m then Failure("dual_coef length != #SV")
      else if |doc.intercept| == 0 then Failure("intercept is empty")
      else if |doc.classes| != 2 then Failure("Only binary SVM is supported")
      else if doc.gamma.None? then Failure("gamma is not a number")
      else if doc.scalerScale.Some? && |doc.scalerScale.value| != n then Failure("scaler_scale length != nFeatures")
      else
        var index := NameIndex(doc.featureNames);
        var reserved := ResolveReserved(index, |doc.featureNames|, n);
        Success(SvmModel(
          index, n,
          seq(m, i requires 0 <= i < m => doc.supportVectors[i][..n]),
          doc.dualCoef[0], doc.intercept[0], doc.classes, doc.gamma.value,
          if doc.scalerScale.Some? then Some(FixScale(doc.scalerScale.value)) else None,
          reserved.0, reserved.1))
  }

  /** The shape every loaded model has. */
  predicate Valid(s: SvmModel) {
    |s.sv| > 0 && |s.alpha| == |s.sv| && |s.classes| == 2 &&
    (forall j :: 0 <= j < |s.sv| ==> |s.sv[j]| == s.nFeatures) &&
    (s.scale.Some? ==>
      |s.scale.value| == s.nFeatures && forall i :: 0 <= i < |s.scale.value| ==> s.scale.value[i] != 0.0) &&
    (forall k :: k in s.featureIndex ==> s.featureIndex[k] >= 0)
  }

  /** Loading fails exactly when there is no support vector, a row is
      narrower than the first, the dual coefficients do not match the support
      vectors, there is no intercept, the classes are not exactly two, gamma
      is unreadable or the scale has the wrong width. */
  lemma LoadFailsIff(doc: SvmJson)
    ensures Load(doc).Failure? <==>
      |doc.supportVectors| == 0 ||
      !RowsCover(doc.supportVectors, |doc.supportVectors[0]|) ||
      |doc.dualCoef| == 0 || |doc.dualCoef[0]| != |doc.supportVectors| ||
      |doc.intercept| == 0 || |doc.classes| != 2 || doc.gamma.None? ||
      (doc.scalerScale.Some? && |doc.scalerScale.value| != |doc.supportVectors[0]|)
  {
  }

  /** A loaded model is valid: its support vectors are the document's rows
      cut to the first row's width, its coefficients the first dual row, its
      scale free of zeros (a zero became 1, other entries kept). */
  lemma LoadShape(doc: SvmJson)
    requires Load(doc).Success?
    ensures var s := Load(doc).value;
      Valid(s) &&
      s.nFeatures == |doc.supportVectors[0]| &&
      |s.sv| == |doc.supportVectors| &&
      (forall j :: 0 <= j < |s.sv| ==> s.sv[j] == doc.supportVectors[j][..s.nFeatures]) &&
      s.alpha == doc.dualCoef[0] && s.bias == doc.intercept[0] && s.classes == doc.classes &&
      (s.scale.Some? <==> doc.scalerScale.Some?) &&
      (s.scale.Some? ==> forall i :: 0 <= i < s.nFeatures ==>
        s.scale.value[i] == (if doc.scalerScale.value[i] == 0.0 then 1.0 else doc.scalerScale.value[i])) &&
      s.featureIndex == NameIndex(doc.featureNames)
  {
    NameIndexShape(doc.featureNames);
  }

  /** Both names listed: their positions are used. One missing with n - 2
      names listed: the last two columns, which no listed name occupies.
      Otherwise each lookup result stands, possibly none. */
  lemma ResolveReservedMeaning(names: seq<string>, n: int)
    ensures var index := NameIndex(names);
      var (mi, oi) := ResolveReserved(index, |names|, n);
      ("method_count" in names && "opcode_count" in names ==>
        mi.Some? && 0 <= mi.value < |names| && names[mi.value] == "method_count" &&
        oi.Some? && 0 <= oi.value < |names| && names[oi.value] == "opcode_count") &&
      (!("method_count" in names && "opcode_count" in names) && |names| == n - 2 ==>
        mi == Some(n - 2) && oi == Some(n - 1) &&
        forall k :: k in index ==> index[k] < n - 2) &&
      (!("method_count" in names && "opcode_count" in names) && |names| != n - 2 ==>
        mi == Lookup(index, "method_count") && oi == Lookup(index, "opcode_count"))
  {
    NameIndexShape(names);
  }

  // --------------------------------------------------------- featurisation

  /** Column i before scaling: the opcode count in the opcode slot, else the
      method count in the method slot, else the number of tokens naming it. */
  function RawColumn(s: SvmModel, tokens: seq<string>, methodCount: int, opcodeCount: int, i: int): real {
    if s.opcodeIdx == Some(i) then opcodeCount as real
    else if s.methodIdx == Some(i) then methodCount as real
    else Occurrences(tokens, s.featureIndex, i) as real
  }

  /** Column i as `featurizeDense` leaves it: divided by its scale when one is
      present and non-zero. */
  function Column(s: SvmModel, tokens: seq<string>, methodCount: int, opcodeCount: int, i: int): real
    requires s.scale.Some? ==> 0 <= i < |s.scale.value|
  {
    var v := RawColumn(s, tokens, methodCount, opcodeCount, i);
    if s.scale.Some? && s.scale.value[i] != 0.0 then v / s.scale.value[i] else v
  }

  method FeaturizeDense(s: SvmModel, tokens: seq<string>, methodCount: int, opcodeCount: int) returns (x: seq<real>)
    requires forall k :: k in s.featureIndex ==> s.featureIndex[k] >= 0
    requires s.scale.Some? ==> |s.scale.value| >= s.nFeatures
    ensures |x| == s.nFeatures
    ensures forall i :: 0 <= i < s.nFeatures ==> x[i] == Column(s, tokens, methodCount, opcodeCount, i)
  {
    var n := s.nFeatures;
    var a := new real[n](_ => 0.0);
    for k := 0 to |tokens|
      invariant forall i :: 0 <= i < n ==> a[i] == Occurrences(tokens[..k], s.featureIndex, i) as real
    {
      assert tokens[..k + 1][..k] == tokens[..k];
      var t := tokens[k];
      if t !in s.featureIndex {
        continue;
      }
      var idx := s.featureIndex[t];
      if idx < n {
        a[idx] := a[idx] + 1.0;
      }
    }
    assert tokens[..|tokens|] == tokens;
    if s.methodIdx.Some? && 0 <= s.methodIdx.value < n {
      a[s.methodIdx.value] := methodCount as real;
    }
    if s.opcodeIdx.Some? && 0 <= s.opcodeIdx.value < n {
      a[s.opcodeIdx.value] := opcodeCount as real;
    }
    assert forall i :: 0 <= i < n ==> a[i] == RawColumn(s, tokens, methodCount, opcodeCount, i);
    if s.scale.Some? {
      var sc := s.scale.value;
      for i := 0 to n
        invariant forall k :: 0 <= k < i ==> a[k] == Column(s, tokens, methodCount, opcodeCount, k)
        invariant forall k :: i <= k < n ==> a[k] == RawColumn(s, tokens, methodCount, opcodeCount, k)
      {
        var denom := sc[i];
        if denom != 0.0 {
          a[i] := a[i] / denom;
        }
      }
    }
    x := a[..];
  }

  /** A token that names no feature changes no column. */
  lemma FeaturizeIgnoresUnknown(s: SvmModel, tokens: seq<string>, t: string, methodCount: int, opcodeCount: int, i: int)
    requires t !in s.featureIndex
    requires s.scale.Some? ==> 0 <= i < |s.scale.value|
    ensures Column(s, tokens + [t], methodCount, opcodeCount, i) == Column(s, tokens, methodCount, opcodeCount, i)
  {
    assert (tokens + [t])[..|tokens|] == tokens;
  }

  // -------------------------------------------------------------- kernel

  /** Squared Euclidean distance over the positions of a. */
  function SqDistSpec(a: seq<real>, b: seq<real>): real
    requires |a| <= |b|
  {
    if |a| == 0 then 0.0
    else SqDistSpec(a[..|a| - 1], b) + Square(a[|a| - 1] - b[|a| - 1])
  }

  method SqDist(a: seq<real>, b: seq<real>) returns (acc: real)
    requires |a| <= |b|
    ensures acc == SqDistSpec(a, b)
  {
    acc := 0.0;
    for i := 0 to |a|
      invariant acc == SqDistSpec(a[..i], b)
    {
      assert a[..i + 1][..i] == a[..i];
      var d := a[i] - b[i];
      acc := acc + Square(d);
    }
    assert a[..|a|] == a;
  }

  /** The square of one coordinate difference. */
  function Square(d: real): real {
    d * d
  }

  /** The distance is never negative, and it is zero when b starts with a
      (in particular at a support vector itself). */
  lemma {:induction false} SqDistBounds(a: seq<real>, b: seq<real>)
    requires |a| <= |b|
    ensures SqDistSpec(a, b) >= 0.0
    ensures a == b[..|a|] ==> SqDistSpec(a, b) == 0.0
  {
    if |a| > 0 {
      var pre := a[..|a| - 1];
      SqDistBounds(pre, b);
      SquareNonNegative(a[|a| - 1] - b[|a| - 1]);
      if a == b[..|a|] {
        assert pre == b[..|a| - 1];
      }
    }
  }

  lemma SquareNonNegative(d: real)
    ensures Square(d) >= 0.0
  {
  }

  /** The weighted kernel sum over the first j support vectors. */
  function KernelSum(s: SvmModel, x: seq<real>, exp: real -> real, j: nat): real
    requires j <= |s.sv| && j <= |s.alpha|
    requires forall k :: 0 <= k < j ==> |x| <= |s.sv[k]|
  {
    if j == 0 then 0.0
    else KernelSum(s, x, exp, j - 1) + s.alpha[j - 1] * Rbf(exp, s.gamma, SqDistSpec(x, s.sv[j - 1]))
  }

  /** The kernel value exp(-gamma d) of a squared distance d. */
  function Rbf(exp: real -> real, gamma: real, d: real): real {
    exp(-gamma * d)
  }

  predicate Fits(s: SvmModel, x: seq<real>) {
    |s.alpha| >= |s.sv| && forall k :: 0 <= k < |s.sv| ==> |x| <= |s.sv[k]|
  }

  /** The decision function f(x) = bias + sum over j of alpha_j exp(-gamma |x - sv_j|^2). */
  function Decision(s: SvmModel, x: seq<real>, exp: real -> real): real
    requires Fits(s, x)
  {
    s.bias + KernelSum(s, x, exp, |s.sv|)
  }

  method DecisionValue(s: SvmModel, x: seq<real>, exp: real -> real) returns (fx: real)
    requires Fits(s, x)
    ensures fx == Decision(s, x, exp)
  {
    fx := 0.0;
    for j := 0 to |s.sv|
      invariant fx == KernelSum(s, x, exp, j)
    {
      fx := AddKernelTerm(s, x, exp, j, fx);
    }
    fx := fx + s.bias;
  }

  /** One iteration of the decision loop: adds alpha_j exp(-gamma |x - sv_j|^2). */
  method AddKernelTerm(s: SvmModel, x: seq<real>, exp: real -> real, j: nat, fx: real) returns (fx': real)
    requires Fits(s, x) && j < |s.sv| && fx == KernelSum(s, x, exp, j)
    ensures fx' == KernelSum(s, x, exp, j + 1)
  {
    var d := SqDist(x, s.sv[j]);
    var k := Rbf(exp, s.gamma, d);
    fx' := fx + s.alpha[j] * k;
  }

  /** With every coefficient zero the decision is the bias alone. */
  lemma {:induction false} KernelSumZero(s: SvmModel, x: seq<real>, exp: real -> real, j: nat)
    requires j <= |s.sv| && j <= |s.alpha|
    requires forall k :: 0 <= k < j ==> |x| <= |s.sv[k]|
    requires forall k :: 0 <= k < j ==> s.alpha[k] == 0.0
    ensures KernelSum(s, x, exp, j) == 0.0
  {
    if j > 0 {
      KernelSumZero(s, x, exp, j - 1);
    }
  }

  lemma DecisionZeroAlpha(s: SvmModel, x: seq<real>, exp: real -> real)
    requires Fits(s, x)
    requires forall k :: 0 <= k < |s.alpha| ==> s.alpha[k] == 0.0
    ensures Decision(s, x, exp) == s.bias
  {
    KernelSumZero(s, x, exp, |s.sv|);
  }

  /** When exp(r) <= exp(0) for r <= 0 and every coefficient is non-negative,
      each kernel term is bounded by its coefficient times exp(0). */
  lemma {:induction false} KernelSumBound(s: SvmModel, x: seq<real>, exp: real -> real, j: nat)
    requires j <= |s.sv| && j <= |s.alpha|
    requires forall k :: 0 <= k < j ==> |x| <= |s.sv[k]|
    requires forall k :: 0 <= k < j ==> s.alpha[k] >= 0.0
    requires s.gamma >= 0.0
    requires forall r :: r <= 0.0 ==> 0.0 < exp(r) <= exp(0.0)
    ensures 0.0 <= KernelSum(s, x, exp, j) <= exp(0.0) * AlphaSum(s.alpha, j)
  {
    if j > 0 {
      KernelSumBound(s, x, exp, j - 1);
      var d := SqDistSpec(x, s.sv[j - 1]);
      SqDistBounds(x, s.sv[j - 1]);
      assert -s.gamma * d <= 0.0;
      var e := Rbf(exp, s.gamma, d);
      assert 0.0 < e <= exp(0.0);
      ScaleBound(s.alpha[j - 1], e, exp(0.0));
    }
  }

  lemma ScaleBound(a: real, e: real, top: real)
    requires a >= 0.0 && 0.0 < e <= top
    ensures 0.0 <= a * e <= top * a
  {
  }

  function AlphaSum(alpha: seq<real>, j: nat): real
    requires j <= |alpha|
  {
    if j == 0 then 0.0 else AlphaSum(alpha, j - 1) + alpha[j - 1]
  }

  // ------------------------------------------------------------ prediction

  /** The label is classes[1] when f(x) >= 0 and classes[0] otherwise; the
      pair is (1 - p1, p1) with p1 = 1 / (1 + exp(-f(x))), so it sums to 1 and
      p1 lies strictly between 0 and 1 when exp is positive. */
  method Predict(s: SvmModel, x: seq<real>, exp: real -> real) returns (predicted: int, probs: seq<real>)
    requires |s.classes| == 2 && Fits(s, x)
    requires forall r :: exp(r) > 0.0
    ensures predicted == (if Decision(s, x, exp) >= 0.0 then s.classes[1] else s.classes[0])
    ensures |probs| == 2 && probs[0] + probs[1] == 1.0
    ensures probs[1] == 1.0 / (1.0 + exp(-Decision(s, x, exp)))
    ensures 0.0 < probs[1] < 1.0
  {
    var fx := DecisionValue(s, x, exp);
    predicted := if fx >= 0.0 then s.classes[1] else s.classes[0];
    var e := exp(-fx);
    var p1 := 1.0 / (1.0 + e);
    SigmoidBounds(e);
    probs := [1.0 - p1, p1];
  }

  lemma SigmoidBounds(e: real)
    requires e > 0.0
    ensures 0.0 < 1.0 / (1.0 + e) < 1.0
  {
  }
}
