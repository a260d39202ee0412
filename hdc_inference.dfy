/** The inference script (HDC_Inference.py): the test vector of an APK is
    the sign bundle of its first `max_opcodes` bound (method, opcode) pairs
    over every dex file, or the zero vector when the APK cannot be read; it
    is labelled benign when it is strictly closer, by cosine, to the benign
    class vector. `sqrt` is given. */
module HdcInference {

  import opened Wrappers
  import opened HV
  import opened Flatten
  import opened PyHdc
  import Encoder

  /** `max_opcodes`. */
  const MaxOpcodes: int := 10000

  /** `d`, the dimension `extract_test_vector` and `classify_apk` use. */
  const Dim: nat := 2048

  // ------------------------------------------------ the pairs of an APK

  /** The pairs of one method: none without code or on a decoding error. */
  function MethodPairs(m: PyMethod): seq<(string, string)> {
    if m.code.Instructions? then EntryPairs((FullName(m), m.code.ops)) else []
  }

  function DexPairs(dx: Dex): seq<(string, string)> {
    ConcatMap(MethodPairs, dx.methods)
  }

  /** Every pair of the dex files, in order, without any cap. */
  function TestPairs(dexes: seq<Dex>): seq<(string, string)> {
    ConcatMap(DexPairs, dexes)
  }

  /** The dex file at k does not parse and is reached: every dex file
      before it parses and fewer than `max_opcodes` pairs come before it
      (after `before`). */
  predicate BrokenReached(before: seq<(string, string)>, dexes: seq<Dex>, k: int) {
    0 <= k < |dexes| && !dexes[k].parses &&
    (forall j :: 0 <= j < k ==> dexes[j].parses) &&
    |before| + |TestPairs(dexes[..k])| < MaxOpcodes
  }

  predicate Fails(before: seq<(string, string)>, dexes: seq<Dex>) {
    exists k :: 0 <= k < |dexes| && BrokenReached(before, dexes, k)
  }

  // ------------------------------------------------------ the loops' spec

  /** The method loop: stops once `max_opcodes` pairs are used; each method
      adds its pairs up to the remaining budget. */
  function MethodWalk(used: seq<(string, string)>, ms: seq<PyMethod>): seq<(string, string)>
    decreases |ms|
  {
    if |ms| == 0 || |used| >= MaxOpcodes then used
    else MethodWalk(used + Capped(MethodPairs(ms[0]), MaxOpcodes - |used|), ms[1..])
  }

  /** The dex loop: stops once `max_opcodes` pairs are used; None when a dex
      file that is reached does not parse. */
  function DexWalk(used: seq<(string, string)>, dexes: seq<Dex>): Option<seq<(string, string)>>
    decreases |dexes|
  {
    if |dexes| == 0 || |used| >= MaxOpcodes then Some(used)
    else if !dexes[0].parses then None
    else DexWalk(MethodWalk(used, dexes[0].methods), dexes[1..])
  }

  /** `extract_test_vector`: the zero vector when the APK does not parse, has
      no dex file or reaches one that does not parse. */
  function TestVectorSpec(bits: Bits, md5: Md5Seed, apk: Apk, d: nat): seq<int> {
    if !apk.parses || DexList(apk).None? then Zeros(d)
    else
      match DexWalk([], DexList(apk).value)
      case None => Zeros(d)
      case Some(used) => SignBundleSpec(BundlePairs(bits, md5, d, used), Tie(bits, d))
  }

  // ------------------------------------------------------------ the loops

  /** The instruction loop of one method, run with `remaining` > 0 pairs left. */
  method WalkInstructions(cache: VectorCache, methodName: string, mvec: seq<int>, ops: seq<string>, d: nat,
                          acc: seq<int>, totalOps: int, remaining: int, ghost used: seq<(string, string)>)
    returns (acc': seq<int>, totalOps': int, ghost used': seq<(string, string)>)
    requires cache.Valid() && mvec == MethodVecSpec(cache.bits, cache.md5, methodName, d)
    requires acc == BundlePairs(cache.bits, cache.md5, d, used) && totalOps == |used|
    requires remaining == MaxOpcodes - totalOps > 0
    modifies cache
    ensures cache.Valid() && used' == used + Capped(EntryPairs((methodName, ops)), remaining)
    ensures acc' == BundlePairs(cache.bits, cache.md5, d, used') && totalOps' == |used'|
  {
    acc', totalOps', used' := acc, totalOps, used;
    ghost var entry := EntryPairs((methodName, ops));
    var usedHere := 0;
    for k := 0 to |ops|
      invariant cache.Valid() && usedHere == k && totalOps' == totalOps + k < MaxOpcodes
      invariant used' == used + entry[..k]
      invariant acc' == BundlePairs(cache.bits, cache.md5, d, used') && totalOps' == |used'|
    {
      if usedHere >= remaining {
        break;
      }
      var op := ops[k];
      var ov := cache.OpcodeVec(op, d);
      BundlePairsStep(cache.bits, cache.md5, d, used', (methodName, op), acc', ov, mvec);
      EntryPairsStep(used, (methodName, ops), k, used');
      acc' := Add(acc', Bind(ov, mvec));
      used' := used' + [(methodName, op)];
      usedHere := usedHere + 1;
      totalOps' := totalOps' + 1;
      if totalOps' >= MaxOpcodes {
        return;
      }
    }
    assert entry[..|ops|] == entry;
  }

  lemma MethodWalkStep(used: seq<(string, string)>, ms: seq<PyMethod>, i: int)
    requires 0 <= i < |ms| && |used| < MaxOpcodes
    ensures MethodWalk(used, ms[i..]) == MethodWalk(used + Capped(MethodPairs(ms[i]), MaxOpcodes - |used|), ms[i + 1..])
  {
    assert ms[i..][0] == ms[i] && ms[i..][1..] == ms[i + 1..];
  }

  /** The method loop of one dex file. */
  method WalkMethods(cache: VectorCache, ms: seq<PyMethod>, d: nat,
                     acc: seq<int>, totalOps: int, ghost used: seq<(string, string)>)
    returns (acc': seq<int>, totalOps': int, ghost used': seq<(string, string)>)
    requires cache.Valid()
    requires acc == BundlePairs(cache.bits, cache.md5, d, used) && totalOps == |used|
    modifies cache
    ensures cache.Valid() && used' == MethodWalk(used, ms)
    ensures acc' == BundlePairs(cache.bits, cache.md5, d, used') && totalOps' == |used'|
  {
    acc', totalOps', used' := acc, totalOps, used;
    var mi := 0;
    while mi < |ms|
      invariant cache.Valid() && 0 <= mi <= |ms|
      invariant MethodWalk(used', ms[mi..]) == MethodWalk(used, ms)
      invariant acc' == BundlePairs(cache.bits, cache.md5, d, used') && totalOps' == |used'|
    {
      if totalOps' >= MaxOpcodes {
        break;
      }
      var m := ms[mi];
      MethodWalkStep(used', ms, mi);
      mi := mi + 1;
      if m.code.NoCode? || m.code.Broken? {
        assert used' + Capped(MethodPairs(m), MaxOpcodes - totalOps') == used';
        continue;
      }
      var methodName := m.className + "->" + m.name;
      var mvec := cache.MethodNameToVec(methodName, d);
      var remaining := MaxOpcodes - totalOps';
      if remaining <= 0 {
        break;
      }
      acc', totalOps', used' := WalkInstructions(cache, methodName, mvec, m.code.ops, d, acc', totalOps', remaining, used');
    }
    assert mi == |ms| ==> ms[mi..] == [];
  }

  lemma DexWalkStep(used: seq<(string, string)>, dexes: seq<Dex>, i: int)
    requires 0 <= i < |dexes| && |used| < MaxOpcodes && dexes[i].parses
    ensures DexWalk(used, dexes[i..]) == DexWalk(MethodWalk(used, dexes[i].methods), dexes[i + 1..])
  {
    assert dexes[i..][0] == dexes[i] && dexes[i..][1..] == dexes[i + 1..];
  }

  /** `extract_test_vector`, with the module's `opcode_cache` and
      `method_cache` as `cache`. */
  method ExtractTestVector(cache: VectorCache, apk: Apk, d: nat) returns (r: seq<int>)
    requires cache.Valid()
    modifies cache
    ensures cache.Valid() && r == TestVectorSpec(cache.bits, cache.md5, apk, d)
  {
    if !apk.parses {
      return Zeros(d);
    }
    var dexList: seq<Dex>;
    if |apk.allDex| > 0 {
      dexList := apk.allDex;
    } else if apk.mainDex.None? {
      return Zeros(d);
    } else {
      dexList := [apk.mainDex.value];
    }
    var acc := Zeros(d);
    var totalOps := 0;
    ghost var used: seq<(string, string)> := [];
    var di := 0;
    while di < |dexList|
      invariant cache.Valid() && 0 <= di <= |dexList|
      invariant DexWalk(used, dexList[di..]) == DexWalk([], dexList)
      invariant acc == BundlePairs(cache.bits, cache.md5, d, used) && totalOps == |used|
    {
      if totalOps >= MaxOpcodes {
        break;
      }
      var dex := dexList[di];
      if !dex.parses {
        assert dexList[di..][0] == dex;
        return Zeros(d);
      }
      DexWalkStep(used, dexList, di);
      acc, totalOps, used := WalkMethods(cache, dex.methods, d, acc, totalOps, used);
      di := di + 1;
    }
    assert di == |dexList| ==> dexList[di..] == [];
    r := SignBundle(cache.bits, acc);
  }

  // ------------------------------------------ the walk against the pairs

  /** Capping after appending, when the first part is under the cap. */
  lemma CappedAppend(a: seq<(string, string)>, b: seq<(string, string)>)
    requires |a| < MaxOpcodes
    ensures a + Capped(b, MaxOpcodes - |a|) == Capped(a + b, MaxOpcodes)
  {
    assert (a + b)[..|a|] == a;
  }

  /** Capping ignores what comes after a first part already at the cap. */
  lemma CappedFull(a: seq<(string, string)>, b: seq<(string, string)>)
    requires |a| >= MaxOpcodes
    ensures Capped(a + b, MaxOpcodes) == Capped(a, MaxOpcodes)
  {
    assert (a + b)[..MaxOpcodes] == a[..MaxOpcodes];
  }

  /** The method loop takes the pairs of the methods, capped. */
  lemma {:induction false} MethodWalkCapped(a: seq<(string, string)>, ms: seq<PyMethod>)
    ensures MethodWalk(Capped(a, MaxOpcodes), ms) == Capped(a + ConcatMap(MethodPairs, ms), MaxOpcodes)
    decreases |ms|
  {
    if |ms| == 0 {
      assert a + ConcatMap(MethodPairs, ms) == a;
    } else if |a| >= MaxOpcodes {
      CappedFull(a, ConcatMap(MethodPairs, ms));
    } else {
      var a' := a + MethodPairs(ms[0]);
      MethodWalkCappedStep(a, ms);
      MethodWalkCapped(a', ms[1..]);
      AppendConcatMapCons(a, MethodPairs, ms);
    }
  }

  /** One method of the walk below the cap. */
  lemma MethodWalkCappedStep(a: seq<(string, string)>, ms: seq<PyMethod>)
    requires |ms| > 0 && |a| < MaxOpcodes
    ensures MethodWalk(Capped(a, MaxOpcodes), ms) == MethodWalk(Capped(a + MethodPairs(ms[0]), MaxOpcodes), ms[1..])
  {
    var p := MethodPairs(ms[0]);
    var t := a + Capped(p, MaxOpcodes - |a|);
    assert Capped(a, MaxOpcodes) == a;
    assert MethodWalk(a, ms) == MethodWalk(t, ms[1..]);
    CappedAppend(a, p);
  }

  /** `a` followed by the mapped pairs, split after the first element. */
  lemma AppendConcatMapCons<T>(a: seq<(string, string)>, f: T -> seq<(string, string)>, s: seq<T>)
    requires |s| > 0
    ensures a + f(s[0]) + ConcatMap(f, s[1..]) == a + ConcatMap(f, s)
  {
    ConcatMapCons(f, s);
    AppendAssociates(a, f(s[0]), ConcatMap(f, s[1..]));
  }

  lemma {:induction false} DexWalkCapped(a: seq<(string, string)>, dexes: seq<Dex>)
    ensures DexWalk(Capped(a, MaxOpcodes), dexes) ==
      if Fails(a, dexes) then None else Some(Capped(a + TestPairs(dexes), MaxOpcodes))
    decreases |dexes|
  {
    if |dexes| == 0 {
      assert a + TestPairs(dexes) == a;
    } else if |a| >= MaxOpcodes {
      NoFailureAtCap(a, dexes);
      CappedFull(a, TestPairs(dexes));
    } else if !dexes[0].parses {
      assert dexes[..0] == [];
      assert BrokenReached(a, dexes, 0);
    } else {
      var a' := a + DexPairs(dexes[0]);
      DexWalkCappedStep(a, dexes);
      DexWalkCapped(a', dexes[1..]);
      FailsShift(a, dexes);
    }
  }

  /** No broken dex file counts as reached once the cap is used up. */
  lemma NoFailureAtCap(a: seq<(string, string)>, dexes: seq<Dex>)
    requires |a| >= MaxOpcodes
    ensures !Fails(a, dexes)
  {
  }

  /** One parsing dex file of the walk below the cap. */
  lemma DexWalkCappedStep(a: seq<(string, string)>, dexes: seq<Dex>)
    requires |dexes| > 0 && |a| < MaxOpcodes && dexes[0].parses
    ensures DexWalk(Capped(a, MaxOpcodes), dexes) == DexWalk(Capped(a + DexPairs(dexes[0]), MaxOpcodes), dexes[1..])
    ensures a + DexPairs(dexes[0]) + TestPairs(dexes[1..]) == a + TestPairs(dexes)
  {
    assert Capped(a, MaxOpcodes) == a;
    assert DexWalk(a, dexes) == DexWalk(MethodWalk(a, dexes[0].methods), dexes[1..]);
    MethodWalkCapped(a, dexes[0].methods);
    AppendConcatMapCons(a, DexPairs, dexes);
  }

  /** Past a first dex file that parses, a broken one is reached exactly when
      it is reached in the rest after that file's pairs. */
  lemma {:induction false} FailsShift(a: seq<(string, string)>, dexes: seq<Dex>)
    requires |dexes| > 0 && dexes[0].parses
    ensures Fails(a, dexes) <==> Fails(a + DexPairs(dexes[0]), dexes[1..])
  {
    var a', rest := a + DexPairs(dexes[0]), dexes[1..];
    forall k | 0 <= k < |rest|
      ensures BrokenReached(a', rest, k) <==> BrokenReached(a, dexes, k + 1)
    {
      assert dexes[..k + 1][1..] == rest[..k];
      ConcatMapCons(DexPairs, dexes[..k + 1]);
      assert forall j :: 0 <= j < k ==> rest[j] == dexes[j + 1];
    }
    if Fails(a, dexes) {
      var k :| 0 <= k < |dexes| && BrokenReached(a, dexes, k);
      assert !dexes[k].parses;
      assert k > 0;
      assert BrokenReached(a', rest, k - 1);
    }
  }

  /** The test vector against its reference definition: the zero vector when
      the APK does not parse, has no dex file, or reaches a dex file that
      does not parse; otherwise the sign bundle of the first `max_opcodes`
      pairs of all its dex files' methods. */
  lemma TestVectorMeaning(bits: Bits, md5: Md5Seed, apk: Apk, d: nat)
    ensures TestVectorSpec(bits, md5, apk, d) ==
      if !apk.parses || DexList(apk).None? || Fails([], DexList(apk).value) then Zeros(d)
      else SignBundleSpec(BundlePairs(bits, md5, d, Capped(TestPairs(DexList(apk).value), MaxOpcodes)), Tie(bits, d))
  {
    if apk.parses && DexList(apk).Some? {
      var dexes := DexList(apk).value;
      DexWalkCapped([], dexes);
      assert [] + TestPairs(dexes) == TestPairs(dexes);
    }
  }

  /** The test vector has D entries; it is the zero vector or bipolar, and
      at most `max_opcodes` pairs go into it. */
  lemma TestVectorShape(bits: Bits, md5: Md5Seed, apk: Apk, d: nat)
    ensures |TestVectorSpec(bits, md5, apk, d)| == d
    ensures TestVectorSpec(bits, md5, apk, d) == Zeros(d) || IsBipolar(TestVectorSpec(bits, md5, apk, d))
    ensures apk.parses && DexList(apk).Some? && !Fails([], DexList(apk).value) ==>
      exists used :: |used| <= MaxOpcodes && IsPrefix(used, TestPairs(DexList(apk).value)) &&
        TestVectorSpec(bits, md5, apk, d) == SignBundleSpec(BundlePairs(bits, md5, d, used), Tie(bits, d))
  {
    TestVectorMeaning(bits, md5, apk, d);
    if apk.parses && DexList(apk).Some? && !Fails([], DexList(apk).value) {
      var used := Capped(TestPairs(DexList(apk).value), MaxOpcodes);
      SignBundleShape(BundlePairs(bits, md5, d, used), Tie(bits, d));
      assert IsPrefix(used, TestPairs(DexList(apk).value));
    }
  }

  // ---------------------------------------------- similarity and labels

  /** `norm`: the Euclidean length. */
  function Norm(a: seq<int>, sqrt: real -> real): real {
    sqrt(Dot(a, a) as real)
  }

  /** `cosine_similarity`: 0 when either norm is 0. */
  function CosineSimilarity(a: seq<int>, b: seq<int>, sqrt: real -> real): real
    requires |a| == |b|
  {
    var na := Norm(a, sqrt);
    var nb := Norm(b, sqrt);
    if na == 0.0 || nb == 0.0 then 0.0 else (Dot(a, b) as real) / (na * nb)
  }

  /** `cosine01`: the similarity mapped from [-1, 1] onto [0, 1]. */
  function Cosine01(a: seq<int>, b: seq<int>, sqrt: real -> real): real
    requires |a| == |b|
  {
    Rescale01(CosineSimilarity(a, b, sqrt))
  }

  function Rescale01(c: real): real {
    0.5 * (c + 1.0)
  }

  lemma CosineSymmetric(a: seq<int>, b: seq<int>, sqrt: real -> real)
    requires |a| == |b|
    ensures CosineSimilarity(a, b, sqrt) == CosineSimilarity(b, a, sqrt)
  {
    DotSymmetric(a, b);
    var na, nb := Norm(a, sqrt), Norm(b, sqrt);
    assert na * nb == nb * na;
  }

  lemma {:induction false} DotZeros(b: seq<int>)
    ensures Dot(Zeros(|b|), b) == 0
  {
    if |b| > 0 {
      assert Zeros(|b|)[..|b| - 1] == Zeros(|b| - 1);
      DotZeros(b[..|b| - 1]);
    }
  }

  /** The zero vector, whose norm is 0, is at similarity 0 from everything. */
  lemma CosineZeroVector(b: seq<int>, sqrt: real -> real)
    requires sqrt(0.0) == 0.0
    ensures CosineSimilarity(Zeros(|b|), b, sqrt) == 0.0
  {
    DotZeros(Zeros(|b|));
  }

  /** A non-empty bipolar vector is at similarity 1 from itself. */
  lemma CosineSelfBipolar(v: seq<int>, sqrt: real -> real)
    requires IsBipolar(v) && |v| > 0
    requires sqrt(|v| as real) * sqrt(|v| as real) == |v| as real
    ensures CosineSimilarity(v, v, sqrt) == 1.0
  {
    DotSelfBipolar(v);
    var n := sqrt(|v| as real);
    assert Norm(v, sqrt) == n && n * n == |v| as real;
    assert n != 0.0;
    var x := |v| as real;
    assert CosineSimilarity(v, v, sqrt) == x / (n * n);
    assert x / x == 1.0;
  }

  /** Rescaling keeps [-1, 1] inside [0, 1] and keeps the order of scores. */
  lemma Rescale01Meaning(c: real, e: real)
    ensures -1.0 <= c <= 1.0 ==> 0.0 <= Rescale01(c) <= 1.0
    ensures Rescale01(c) < Rescale01(e) <==> c < e
    ensures Rescale01(-1.0) == 0.0 && Rescale01(1.0) == 1.0
  {
  }

  /** The verdict of `classify_apk`: benign only when strictly closer to the
      benign class vector. */
  function ClassifyRule(simB: real, simM: real): (verdict: string)
    ensures verdict == "benign" || verdict == "malware"
  {
    if simB > simM then "benign" else "malware"
  }

  /** The script's rule and the activity's rule, where 1 is benign, label
      every pair of scores alike except ties, which the script calls malware
      and the activity calls benign. */
  lemma ClassifyVersusActivity(simB: real, simM: real)
    ensures (ClassifyRule(simB, simM) == "benign") == (Encoder.Decide(simB, simM) == 1) <==> simB != simM
    ensures simB == simM ==> ClassifyRule(simB, simM) == "malware" && Encoder.Decide(simB, simM) == 1
  {
  }

  /** `classify_apk`, with the class vectors loaded as given. */
  method ClassifyApk(cache: VectorCache, apk: Apk, benignClass: seq<int>, malwareClass: seq<int>, sqrt: real -> real)
    returns (verdict: string)
    requires cache.Valid() && |benignClass| == Dim && |malwareClass| == Dim
    modifies cache
    ensures cache.Valid()
    ensures var v := TestVectorSpec(cache.bits, cache.md5, apk, Dim);
      verdict == ClassifyRule(CosineSimilarity(v, benignClass, sqrt), CosineSimilarity(v, malwareClass, sqrt))
  {
    var testVec := ExtractTestVector(cache, apk, Dim);
    TestVectorShape(cache.bits, cache.md5, apk, Dim);
    var simB := CosineSimilarity(testVec, benignClass, sqrt);
    var simM := CosineSimilarity(testVec, malwareClass, sqrt);
    verdict := if simB > simM then "benign" else "malware";
  }

  /** An APK that falls back to the zero vector is labelled malware, against
      any class vectors. */
  lemma FallbackIsMalware(bits: Bits, md5: Md5Seed, apk: Apk, benignClass: seq<int>, malwareClass: seq<int>, sqrt: real -> real)
    requires |benignClass| == Dim && |malwareClass| == Dim && sqrt(0.0) == 0.0
    requires !apk.parses || DexList(apk).None? || Fails([], DexList(apk).value)
    ensures var v := TestVectorSpec(bits, md5, apk, Dim);
      ClassifyRule(CosineSimilarity(v, benignClass, sqrt), CosineSimilarity(v, malwareClass, sqrt)) == "malware"
  {
    TestVectorMeaning(bits, md5, apk, Dim);
    CosineZeroVector(benignClass, sqrt);
    CosineZeroVector(malwareClass, sqrt);
  }
}
